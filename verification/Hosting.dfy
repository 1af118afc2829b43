/** The round files of one peer's store: proposals, its own receipts and its own attestations. */
module Hosting {
  import opened Bytes
  import opened Entries
  import opened Keys
  import opened EphemeralStore
  import opened Consensus

  /** What is hosted; files of the deal are `Other`. */
  datatype Item = Proposed(entry: Entry) | Receipted(sig: bytes) | Attested(sig: bytes) | Other(data: bytes)

  type Files = map<Name, Item>

  /** Each round file holds what its name says, and what is polled fits the encoding. */
  ghost predicate Typed(files: Files) {
    && (forall name :: name in files && name.Proposal? ==> files[name].Proposed? && files[name].entry.Sized())
    && (forall name :: name in files && name.AutoFold? ==> files[name].Attested? && |files[name].sig| == 64)
  }

  ghost function Proposals(files: Files): (m: map<Slot, Entry>)
    requires Typed(files)
    ensures forall k: Slot :: k in m <==> Proposal(k.0, k.1) in files
    ensures forall k: Slot :: k in m ==> m[k] == files[Proposal(k.0, k.1)].entry
  {
    var m := map name | name in files && name.Proposal? :: (name.round, name.attempt) := files[name].entry;
    forall k: Slot | Proposal(k.0, k.1) in files ensures k in m { assert Proposal(k.0, k.1).Proposal?; }
    m
  }

  ghost function Receipts(files: Files, me: string): (slots: set<Slot>)
    ensures forall k: Slot :: k in slots <==> Receipt(k.0, k.1, me) in files
  {
    var slots := set name | name in files && name.Receipt? && name.node == me :: (name.round, name.attempt);
    forall k: Slot | Receipt(k.0, k.1, me) in files ensures k in slots { assert Receipt(k.0, k.1, me).Receipt?; }
    slots
  }

  ghost function Attests(files: Files, me: string): (m: map<nat, bytes>)
    requires Typed(files)
    ensures forall r: nat :: r in m <==> AutoFold(r, me) in files
    ensures forall r: nat :: r in m ==> m[r] == files[AutoFold(r, me)].sig
  {
    var m := map name | name in files && name.AutoFold? && name.node == me :: name.round := files[name].sig;
    assert forall r: nat :: AutoFold(r, me) in files ==> AutoFold(r, me).round in m;
    m
  }

  /** A proposal that is not among the files is not in the store either. */
  lemma NotStored(files: Files, r: nat, a: nat)
    requires Typed(files) && (r, a) !in Proposals(files)
    ensures Key(Proposal(r, a)) !in ByKey(files)
  {
    hide Key;
    hide ByKey;
    hide Proposals;
    assert Proposal(r, a) !in files;
  }

  // -------------------------------------------------------------------------- what does not matter

  lemma SameProposals(files: Files, after: Files)
    requires Typed(files) && Typed(after)
    requires forall k: Slot :: Proposal(k.0, k.1) in files <==> Proposal(k.0, k.1) in after
    requires forall k: Slot :: Proposal(k.0, k.1) in files ==> files[Proposal(k.0, k.1)] == after[Proposal(k.0, k.1)]
    ensures Proposals(after) == Proposals(files)
  {
  }

  lemma SameReceipts(files: Files, after: Files, me: string)
    requires forall k: Slot :: Receipt(k.0, k.1, me) in files <==> Receipt(k.0, k.1, me) in after
    ensures Receipts(after, me) == Receipts(files, me)
  {
  }

  lemma SameAttests(files: Files, after: Files, me: string)
    requires Typed(files) && Typed(after)
    requires forall r: nat :: AutoFold(r, me) in files <==> AutoFold(r, me) in after
    requires forall r: nat :: AutoFold(r, me) in files ==> files[AutoFold(r, me)] == after[AutoFold(r, me)]
    ensures Attests(after, me) == Attests(files, me)
  {
  }

  // ---------------------------------------------------------------------------------- hosting

  lemma HostProposal(files: Files, me: string, r: nat, a: nat, e: Entry)
    requires Typed(files) && e.Sized()
    ensures var after := files[Proposal(r, a) := Proposed(e)];
            && Typed(after) && Proposals(after) == Proposals(files)[(r, a) := e]
            && Receipts(after, me) == Receipts(files, me) && Attests(after, me) == Attests(files, me)
  {
    hide Proposals;
    hide Receipts;
    hide Attests;
    var after := files[Proposal(r, a) := Proposed(e)];
    SameReceipts(files, after, me);
    SameAttests(files, after, me);
  }

  lemma HostReceipt(files: Files, me: string, r: nat, a: nat, sig: bytes)
    requires Typed(files)
    ensures var after := files[Receipt(r, a, me) := Receipted(sig)];
            && Typed(after) && Proposals(after) == Proposals(files)
            && Receipts(after, me) == Receipts(files, me) + {(r, a)} && Attests(after, me) == Attests(files, me)
  {
    hide Proposals;
    hide Receipts;
    hide Attests;
    var after := files[Receipt(r, a, me) := Receipted(sig)];
    SameProposals(files, after);
    SameAttests(files, after, me);
  }

  lemma HostAttest(files: Files, me: string, r: nat, sig: bytes)
    requires Typed(files) && |sig| == 64
    ensures var after := files[AutoFold(r, me) := Attested(sig)];
            && Typed(after) && Proposals(after) == Proposals(files)
            && Receipts(after, me) == Receipts(files, me) && Attests(after, me) == Attests(files, me)[r := sig]
  {
    hide Proposals;
    hide Receipts;
    hide Attests;
    var after := files[AutoFold(r, me) := Attested(sig)];
    SameProposals(files, after);
    SameReceipts(files, after, me);
  }

  // --------------------------------------------------------------------------------- deleting

  lemma DropProposal(files: Files, me: string, r: nat, a: nat)
    requires Typed(files)
    ensures var after := files - {Proposal(r, a)};
            && Typed(after) && Proposals(after) == Proposals(files) - {(r, a)}
            && Receipts(after, me) == Receipts(files, me) && Attests(after, me) == Attests(files, me)
  {
    hide Proposals;
    hide Receipts;
    hide Attests;
    var after := files - {Proposal(r, a)};
    SameReceipts(files, after, me);
    SameAttests(files, after, me);
  }

  /** Deleting the receipts of others changes nothing that anybody polls here. */
  lemma DropOthers(files: Files, me: string, r: nat, a: nat, node: string)
    requires Typed(files) && node != me
    ensures var after := files - {Receipt(r, a, node)};
            && Typed(after) && Proposals(after) == Proposals(files)
            && Receipts(after, me) == Receipts(files, me) && Attests(after, me) == Attests(files, me)
  {
    hide Proposals;
    hide Receipts;
    hide Attests;
    var after := files - {Receipt(r, a, node)};
    SameProposals(files, after);
    SameReceipts(files, after, me);
    SameAttests(files, after, me);
  }

  lemma DropReceipts(files: Files, me: string, r: nat)
    requires Typed(files)
    ensures var after := WithoutReceipts(files, r);
            && Typed(after) && Proposals(after) == Proposals(files)
            && Receipts(after, me) == DropRound(Receipts(files, me), r) && Attests(after, me) == Attests(files, me)
  {
    hide Proposals;
    hide Receipts;
    hide Attests;
    var after := WithoutReceipts(files, r);
    SameProposals(files, after);
    SameAttests(files, after, me);
  }

  lemma DropAttests(files: Files, me: string, r: nat)
    requires Typed(files)
    ensures var after := WithoutFolds(files, r);
            && Typed(after) && Proposals(after) == Proposals(files) && Receipts(after, me) == Receipts(files, me)
            && Attests(after, me) == map q | q in Attests(files, me) && q != r :: Attests(files, me)[q]
  {
    hide Proposals;
    hide Receipts;
    hide Attests;
    var after := WithoutFolds(files, r);
    SameProposals(files, after);
    SameReceipts(files, after, me);
  }
}

/** Where two committed logs can differ, for any two replicas, whether their owners are in or have
    folded (docs/whitepaper/consistency.md, internal/round/runner.go). */
module Disagreement {
  import opened Entries
  import opened Consensus
  import opened ConsensusInv
  import opened Agreement

  /** Seat `q` hosted a receipt or the proposal for the slot. */
  ghost predicate TookPart(nodes: seq<Replica>, q: nat, k: Slot) {
    q < |nodes| && (k in nodes[q].past.hosted || k in nodes[q].past.proposed)
  }

  /** Every other seat that was in before round `r` took part in the slot. */
  ghost predicate EveryoneTookPart(c: Config, nodes: seq<Replica>, x: nat, r: nat, k: Slot)
    requires x < |nodes| && r <= |nodes[x].log|
  {
    forall q :: 0 <= q < |nodes| && q != x && !Out(c.s, nodes[x].log[..r], q) ==> TookPart(nodes, q, k)
  }

  /** The owner of `x` folded before round `r`; its replica committed by receipts an attempt in which all
      seats took part, while `y` holds the entry of a later attempt, or the auto-fold. */
  ghost predicate Straggled(c: Config, nodes: seq<Replica>, x: nat, y: nat, r: nat) {
    && CommittedByReceipts(nodes, x, r) && Out(c.s, nodes[x].log[..r], x)
    && EveryoneTookPart(c, nodes, x, r, CommitSlot(nodes, x, r))
    && (CommittedByFold(nodes, y, r)
        || (CommittedByReceipts(nodes, y, r) && CommitSlot(nodes, x, r).1 < CommitSlot(nodes, y, r).1))
  }

  lemma AllTookPart(c: Config, nodes: seq<Replica>, x: nat, r: nat)
    requires Inv(c, nodes) && CommittedByReceipts(nodes, x, r)
    ensures EveryoneTookPart(c, nodes, x, r, CommitSlot(nodes, x, r))
  {
    hide Inv;
    hide Out;
    forall q | 0 <= q < |nodes| && q != x && !Out(c.s, nodes[x].log[..r], q)
      ensures TookPart(nodes, q, CommitSlot(nodes, x, r))
    {
      PeerTookPart(c, nodes, x, q, r);
    }
  }

  /** Receipt commits of the same attempt are of the same entry. */
  lemma SameSlotSameEntry(c: Config, nodes: seq<Replica>, i: nat, j: nat, r: nat)
    requires Inv(c, nodes) && SharedPrefix(nodes, i, j, r)
    requires CommittedByReceipts(nodes, i, r) && CommittedByReceipts(nodes, j, r)
    requires CommitSlot(nodes, i, r) == CommitSlot(nodes, j, r)
    ensures nodes[i].log[r] == nodes[j].log[r]
  {
    hide Inv;
    hide Mover;
    CommitIsProposal(c, nodes, i, r);
    CommitIsProposal(c, nodes, j, r);
  }

  /** A seat that was in commits no attempt earlier than a receipt commit of anybody else. */
  lemma InSeatIsLater(c: Config, nodes: seq<Replica>, i: nat, j: nat, r: nat)
    requires Inv(c, nodes) && SharedPrefix(nodes, i, j, r)
    requires CommittedByReceipts(nodes, i, r) && CommittedByReceipts(nodes, j, r)
    requires !Out(c.s, nodes[i].log[..r], j)
    ensures CommitSlot(nodes, i, r).1 <= CommitSlot(nodes, j, r).1
  {
    hide Inv;
    hide Out;
    PeerTookPart(c, nodes, i, j, r);
    TookPartBefore(c, nodes, j, r, CommitSlot(nodes, i, r));
  }

  /** Two receipt commits with different entries: the earlier one is a folded owner's. */
  lemma TwoReceipts(c: Config, nodes: seq<Replica>, i: nat, j: nat, r: nat)
    requires Inv(c, nodes) && SharedPrefix(nodes, i, j, r)
    requires CommittedByReceipts(nodes, i, r) && CommittedByReceipts(nodes, j, r)
    requires nodes[i].log[r] != nodes[j].log[r]
    ensures Straggled(c, nodes, i, j, r) || Straggled(c, nodes, j, i, r)
  {
    hide Inv;
    hide Out;
    hide EveryoneTookPart;
    AllTookPart(c, nodes, i, r);
    AllTookPart(c, nodes, j, r);
    if CommitSlot(nodes, i, r) == CommitSlot(nodes, j, r) { SameSlotSameEntry(c, nodes, i, j, r); }
    if !Out(c.s, nodes[i].log[..r], j) { InSeatIsLater(c, nodes, i, j, r); }
    if !Out(c.s, nodes[j].log[..r], i) { InSeatIsLater(c, nodes, j, i, r); }
  }

  lemma ReceiptsAndFold(c: Config, nodes: seq<Replica>, i: nat, j: nat, r: nat)
    requires Inv(c, nodes) && SharedPrefix(nodes, i, j, r)
    requires CommittedByReceipts(nodes, i, r) && CommittedByFold(nodes, j, r)
    ensures ProposerVersusFold(c, nodes, i, j, r) || Straggled(c, nodes, i, j, r)
  {
    hide Inv;
    hide Out;
    hide EveryoneTookPart;
    hide ProposerVersusFold;
    AllTookPart(c, nodes, i, r);
    if !Out(c.s, nodes[i].log[..r], i) { MixedCommit(c, nodes, i, j, r); }
  }

  /** Every commit is by receipts or by an auto-fold. */
  lemma CommitKinds(c: Config, nodes: seq<Replica>, i: nat, r: nat)
    requires Inv(c, nodes) && i < |nodes| && r < |nodes[i].log|
    ensures CommittedByReceipts(nodes, i, r) || CommittedByFold(nodes, i, r)
    ensures !(CommittedByReceipts(nodes, i, r) && CommittedByFold(nodes, i, r))
  {
    assert NodeOk(c, nodes, i);
  }

  lemma DifferenceAt(c: Config, nodes: seq<Replica>, i: nat, j: nat, r: nat)
    requires Inv(c, nodes) && SharedPrefix(nodes, i, j, r)
    requires r < |nodes[i].log| && r < |nodes[j].log| && nodes[i].log[r] != nodes[j].log[r]
    ensures || ProposerVersusFold(c, nodes, i, j, r) || ProposerVersusFold(c, nodes, j, i, r)
            || Straggled(c, nodes, i, j, r) || Straggled(c, nodes, j, i, r)
  {
    hide Inv;
    hide Straggled;
    hide ProposerVersusFold;
    CommitKinds(c, nodes, i, r);
    CommitKinds(c, nodes, j, r);
    if CommittedByReceipts(nodes, i, r) && CommittedByReceipts(nodes, j, r) {
      TwoReceipts(c, nodes, i, j, r);
    } else if CommittedByReceipts(nodes, i, r) {
      ReceiptsAndFold(c, nodes, i, j, r);
    } else if CommittedByReceipts(nodes, j, r) {
      ReceiptsAndFold(c, nodes, j, i, r);
    } else {
      FoldsAgree(c, nodes, i, j, r);
    }
  }

  /** Where the logs of any two replicas first differ, in any run: one of them is the seat to act, which
      committed its own proposal, against its co-signed fold; or one of them is a folded owner's replica,
      which committed an attempt that the others gave up for a later one, or for the fold. */
  lemma FirstDifferenceOfAny(c: Config, trace: seq<seq<Replica>>, t: nat, i: nat, j: nat, r: nat)
    requires c.s.n <= 256 && Run(c, trace) && t < |trace| && SharedPrefix(trace[t], i, j, r)
    requires r < |trace[t][i].log| && r < |trace[t][j].log| && trace[t][i].log[r] != trace[t][j].log[r]
    ensures || ProposerVersusFold(c, trace[t], i, j, r) || ProposerVersusFold(c, trace[t], j, i, r)
            || Straggled(c, trace[t], i, j, r) || Straggled(c, trace[t], j, i, r)
  {
    hide Inv;
    hide Straggled;
    hide ProposerVersusFold;
    RunInv(c, trace, t);
    DifferenceAt(c, trace[t], i, j, r);
  }

  // --------------------------------------------------------------------- exactly when they agree

  /** The seat to act proposed the same in both attempts. */
  ghost predicate Repeated(nodes: seq<Replica>, p: nat, k: Slot, l: Slot) {
    && p < |nodes| && k in nodes[p].past.proposed && l in nodes[p].past.proposed
    && nodes[p].past.proposed[k] == nodes[p].past.proposed[l]
  }

  /** The two replicas closed the round the same way: both by the auto-fold, or both by receipts, in the same
      attempt or with the seat to act having repeated its proposal. */
  ghost predicate ClosedAlike(c: Config, nodes: seq<Replica>, i: nat, j: nat, r: nat)
    requires i < |nodes| && r <= |nodes[i].log|
  {
    || (CommittedByFold(nodes, i, r) && CommittedByFold(nodes, j, r))
    || (&& CommittedByReceipts(nodes, i, r) && CommittedByReceipts(nodes, j, r)
        && (|| CommitSlot(nodes, i, r) == CommitSlot(nodes, j, r)
            || Repeated(nodes, Mover(c.s, nodes[i].log[..r]), CommitSlot(nodes, i, r), CommitSlot(nodes, j, r))))
  }

  /** A proposal names no co-signers, an auto-fold names some. */
  lemma KindShows(c: Config, nodes: seq<Replica>, i: nat, r: nat)
    requires Inv(c, nodes) && i < |nodes| && r < |nodes[i].log|
    ensures CommittedByReceipts(nodes, i, r) <==> nodes[i].log[r].coSigners == []
  {
    assert NodeOk(c, nodes, i);
    CommitKinds(c, nodes, i, r);
    if CommittedByReceipts(nodes, i, r) {
      CommitIsProposal(c, nodes, i, r);
      ProposalsAreBare(c, nodes, Mover(c.s, nodes[i].log[..r]), CommitSlot(nodes, i, r));
    } else {
      assert RoundBacked(c, nodes, nodes[i], r);
    }
  }

  lemma ProposalsAreBare(c: Config, nodes: seq<Replica>, p: nat, k: Slot)
    requires Inv(c, nodes) && p < |nodes| && k in nodes[p].past.proposed
    ensures nodes[p].past.proposed[k].coSigners == []
  {
    assert NodeOk(c, nodes, p);
    assert ProposedOk(nodes[p], k);
  }

  lemma SameEntryIff(c: Config, nodes: seq<Replica>, i: nat, j: nat, r: nat)
    requires Inv(c, nodes) && SharedPrefix(nodes, i, j, r) && r < |nodes[i].log| && r < |nodes[j].log|
    ensures nodes[i].log[r] == nodes[j].log[r] <==> ClosedAlike(c, nodes, i, j, r)
  {
    hide Inv;
    hide Mover;
    CommitKinds(c, nodes, i, r);
    CommitKinds(c, nodes, j, r);
    KindShows(c, nodes, i, r);
    KindShows(c, nodes, j, r);
    if CommittedByReceipts(nodes, i, r) && CommittedByReceipts(nodes, j, r) {
      CommitIsProposal(c, nodes, i, r);
      CommitIsProposal(c, nodes, j, r);
    } else if CommittedByFold(nodes, i, r) && CommittedByFold(nodes, j, r) {
      FoldsAgree(c, nodes, i, j, r);
    }
  }

  lemma {:induction false} SamePrefixIff(c: Config, nodes: seq<Replica>, i: nat, j: nat, m: nat)
    requires Inv(c, nodes) && i < |nodes| && j < |nodes| && i != j && m <= |nodes[i].log| && m <= |nodes[j].log|
    ensures nodes[i].log[..m] == nodes[j].log[..m] <==> forall r :: 0 <= r < m ==> ClosedAlike(c, nodes, i, j, r)
  {
    hide Inv;
    hide ClosedAlike;
    if m > 0 {
      SamePrefixIff(c, nodes, i, j, m - 1);
      assert nodes[i].log[..m] == nodes[i].log[..m - 1] + [nodes[i].log[m - 1]];
      assert nodes[j].log[..m] == nodes[j].log[..m - 1] + [nodes[j].log[m - 1]];
      if nodes[i].log[..m - 1] == nodes[j].log[..m - 1] { SameEntryIff(c, nodes, i, j, m - 1); }
    }
  }

  /** For any two replicas of any run, owners folded or not: the logs agree up to `m` exactly when every
      round below `m` was closed alike. */
  lemma AgreeIffClosedAlike(c: Config, trace: seq<seq<Replica>>, t: nat, i: nat, j: nat, m: nat)
    requires c.s.n <= 256 && Run(c, trace) && t < |trace| && i < |trace[t]| && j < |trace[t]| && i != j
    requires m <= |trace[t][i].log| && m <= |trace[t][j].log|
    ensures trace[t][i].log[..m] == trace[t][j].log[..m] <==>
            forall r :: 0 <= r < m ==> ClosedAlike(c, trace[t], i, j, r)
  {
    hide Inv;
    hide ClosedAlike;
    RunInv(c, trace, t);
    SamePrefixIff(c, trace[t], i, j, m);
  }

  // ------------------------------------------------------------------- what a seat can tell itself

  lemma ProposerIsIn(c: Config, nodes: seq<Replica>, p: nat, r: nat)
    requires Inv(c, nodes) && CommittedByReceipts(nodes, p, r)
    ensures !Out(c.s, nodes[p].log[..r], Mover(c.s, nodes[p].log[..r]))
  {
    assert NodeOk(c, nodes, p);
    assert RoundBacked(c, nodes, nodes[p], r);
  }

  /** A seat that attested a round and left it left it by the fold. */
  lemma AttestedMeansFold(c: Config, nodes: seq<Replica>, j: nat, r: nat)
    requires Inv(c, nodes) && j < |nodes| && r < |nodes[j].log| && r in nodes[j].past.attested
    ensures CommittedByFold(nodes, j, r)
  {
    assert NodeOk(c, nodes, j);
    assert AttestedOk(nodes[j], r);
  }

  lemma FoldMeansAttested(c: Config, nodes: seq<Replica>, j: nat, r: nat)
    requires Inv(c, nodes) && CommittedByFold(nodes, j, r)
    requires j != Mover(c.s, nodes[j].log[..r]) && !Out(c.s, nodes[j].log[..r], j)
    ensures r in nodes[j].past.attested
  {
    assert NodeOk(c, nodes, j);
    assert RoundBacked(c, nodes, nodes[j], r);
    FoldCoSigners(c, nodes, j, r);
    var e := nodes[j].log[r];
    var k :| 0 <= k < |e.coSigners| && e.coSigners[k] == j;
    assert HasAttested(nodes, e.coSigners[k], r, e.coSignatures[k]);
  }

  /** Once the seat to act has committed a round by receipts, a seat that was in and has left that round on
      the same history disagrees with it if and only if it hosted an attestation of that round. */
  lemma DisagreesIffAttested(c: Config, trace: seq<seq<Replica>>, t: nat, p: nat, j: nat, r: nat)
    requires c.s.n <= 256 && Run(c, trace) && t < |trace| && SharedPrefix(trace[t], p, j, r)
    requires p == Mover(c.s, trace[t][p].log[..r]) && CommittedByReceipts(trace[t], p, r)
    requires r < |trace[t][j].log| && !Out(c.s, trace[t][j].log[..r], j)
    ensures trace[t][j].log[r] != trace[t][p].log[r] <==> r in trace[t][j].past.attested
  {
    hide Inv;
    hide Mover;
    hide Out;
    var nodes := trace[t];
    RunInv(c, trace, t);
    KindShows(c, nodes, p, r);
    KindShows(c, nodes, j, r);
    CommitKinds(c, nodes, p, r);
    CommitKinds(c, nodes, j, r);
    ProposerIsIn(c, nodes, p, r);
    if r in nodes[j].past.attested {
      AttestedMeansFold(c, nodes, j, r);
    } else if CommittedByFold(nodes, j, r) {
      FoldMeansAttested(c, nodes, j, r);
    } else {
      ReceiptCommitsAgree(c, nodes, p, j, r);
    }
  }

  /** What the seat stood for in a slot: the entry it hosted a receipt for, or proposed. */
  ghost function Vouched(nodes: seq<Replica>, y: nat, k: Slot): Entry
    requires TookPart(nodes, y, k)
  {
    if k in nodes[y].past.hosted then nodes[y].past.hosted[k] else nodes[y].past.proposed[k]
  }

  lemma HostedIsProposal(c: Config, nodes: seq<Replica>, y: nat, k: Slot)
    requires Inv(c, nodes) && y < |nodes| && k in nodes[y].past.hosted && k.0 <= |nodes[y].log|
    ensures var p := Mover(c.s, nodes[y].log[..k.0]);
            p < |nodes| && k in nodes[p].past.proposed && nodes[p].past.proposed[k] == nodes[y].past.hosted[k]
  {
    assert NodeOk(c, nodes, y);
    assert FromProposer(c, nodes, nodes[y].log, k, nodes[y].past.hosted[k]);
  }

  /** Every seat that was in stood for what anybody commits by receipts. */
  lemma VouchedForCommit(c: Config, nodes: seq<Replica>, x: nat, y: nat, r: nat)
    requires Inv(c, nodes) && SharedPrefix(nodes, x, y, r) && CommittedByReceipts(nodes, x, r)
    requires !Out(c.s, nodes[x].log[..r], y)
    ensures TookPart(nodes, y, CommitSlot(nodes, x, r))
    ensures Vouched(nodes, y, CommitSlot(nodes, x, r)) == nodes[x].log[r]
  {
    hide Inv;
    hide Out;
    hide Mover;
    var k := CommitSlot(nodes, x, r);
    PeerTookPart(c, nodes, x, y, r);
    CommitIsProposal(c, nodes, x, r);
    if k in nodes[y].past.hosted {
      HostedIsProposal(c, nodes, y, k);
    } else {
      HostedOrProposed(c, nodes, x, y, r);
    }
  }

  /** Only the seat to act can do without a receipt: it folded itself. */
  lemma HostedOrProposed(c: Config, nodes: seq<Replica>, x: nat, y: nat, r: nat)
    requires Inv(c, nodes) && CommittedByReceipts(nodes, x, r) && y < |nodes| && x != y
    requires !Out(c.s, nodes[x].log[..r], y)
    ensures HasHosted(nodes, y, CommitSlot(nodes, x, r)) || y == Mover(c.s, nodes[x].log[..r])
  {
    CommitIsProposal(c, nodes, x, r);
    if Out(c.s, nodes[x].log[..r + 1], y) {
      OutByOwnFold(c, nodes, x, r, y);
    } else {
      assert NodeOk(c, nodes, x);
      assert RoundBacked(c, nodes, nodes[x], r);
      assert HasHosted(nodes, y, CommitSlot(nodes, x, r));
    }
  }

  /** Whoever committed a round by receipts, folded or not: a seat that was in and has left that round on the
      same history disagrees with it if and only if it went back on what it stood for in that attempt. */
  lemma DisagreesIffWentBack(c: Config, trace: seq<seq<Replica>>, t: nat, x: nat, y: nat, r: nat)
    requires c.s.n <= 256 && Run(c, trace) && t < |trace| && SharedPrefix(trace[t], x, y, r)
    requires CommittedByReceipts(trace[t], x, r)
    requires r < |trace[t][y].log| && !Out(c.s, trace[t][y].log[..r], y)
    ensures TookPart(trace[t], y, CommitSlot(trace[t], x, r))
    ensures Vouched(trace[t], y, CommitSlot(trace[t], x, r)) == trace[t][x].log[r]
    ensures trace[t][y].log[r] != trace[t][x].log[r] <==>
            trace[t][y].log[r] != Vouched(trace[t], y, CommitSlot(trace[t], x, r))
  {
    RunInv(c, trace, t);
    VouchedForCommit(c, trace[t], x, y, r);
  }
}

/** The log object and the runner object (internal/game/log.go, internal/round/runner.go): every method
    is one move of the protocol. */
module Runner {
  import opened Bytes
  import opened Entries
  import opened Betting
  import opened LogRules
  import opened Consensus
  import opened EphemeralStore
  import opened Hosting
  import opened Keys
  import opened LocalMoves
  import opened Sequences

  class GameLog {
    const s: Session
    var entries: seq<Entry>

    constructor (s: Session)
      ensures this.s == s && entries == []
    {
      this.s := s;
      entries := [];
    }

    method Append(e: Entry)
      modifies this
      ensures entries == old(entries) + [e]
    {
      entries := entries + [e];
    }

    method RollbackLast()
      modifies this
      ensures entries == if old(entries) == [] then [] else old(entries)[..|old(entries)| - 1]
    {
      if |entries| > 0 {
        entries := entries[..|entries| - 1];
      }
    }

    /** Verifies, then appends; a refused entry changes nothing. */
    method AppendAutoFold(e: Entry) returns (v: Verdict)
      requires Seated(entries, s.n) && AllSized(entries) && s.n <= 256
      modifies this
      ensures v == Ok <==> AutoFoldValid(s, old(entries), e)
      ensures entries == if v == Ok then old(entries) + [e] else old(entries)
    {
      v := VerifyAutoFoldEntry(s, entries, e);
      if v != Ok {
        return;
      }
      entries := entries + [e];
    }
  }

  /** An appended entry that is rolled back leaves the log as it was. */
  method AppendThenRollback(log: GameLog, e: Entry)
    modifies log
    ensures log.entries == old(log.entries)
  {
    log.Append(e);
    log.RollbackLast();
  }

  class RoundRunner {
    const c: Config
    const order: seq<string>
    const seat: nat
    const log: GameLog
    const store: Store<Item>
    var attempt: nat
    var stage: Stage
    ghost var files: Files
    ghost var past: Past

    ghost function Now(): Local
      reads this, log
      requires seat < |order|
    {
      Local(seat, order[seat], log.entries, attempt, stage, files, past)
    }

    /** The store holds exactly `files`, each under its key. */
    ghost predicate Valid()
      reads this, log, store
    {
      seat < |order| == c.s.n && Distinct(order) && log.s == c.s && store.data == ByKey(files) && Fine(c, Now())
    }

    /** What this runner is in the protocol, as read off its store. */
    ghost function State(): Replica
      reads this, log, store
      requires Valid()
    {
      View(c, Now())
    }

    /** The log without the tentative entry. */
    function Committed(): seq<Entry>
      reads this, log
    {
      Front(log.entries, stage)
    }

    constructor (c: Config, order: seq<string>, seat: nat)
      requires 0 < c.s.n <= 255 && seat < c.s.n == |order| && Distinct(order)
      ensures Valid() && this.c == c && this.order == order && this.seat == seat && fresh(log) && fresh(store)
      ensures State() == Fresh(seat)
    {
      this.c, this.order, this.seat := c, order, seat;
      log := new GameLog(c.s);
      store := new Store<Item>();
      attempt, stage := 0, Idle;
      files, past := map[], Past([], map[], map[], map[]);
    }

    // ------------------------------------------------------------------------- the store

    method Put(name: Name, item: Item)
      requires store.data == ByKey(files)
      modifies store, this`files
      ensures files == old(files)[name := item] && store.data == ByKey(files)
    {
      hide ByKey;
      hide Key;
      HostingByKey(files, name, item);
      store.Put(Key(name), item);
      files := files[name := item];
    }

    method Delete(name: Name)
      requires store.data == ByKey(files)
      modifies store, this`files
      ensures files == old(files) - {name} && store.data == ByKey(files)
    {
      hide ByKey;
      hide Key;
      DeletingByKey(files, name);
      store.Delete(Key(name));
      files := files - {name};
    }

    /** `PollRemote`: what this peer hosts under the name, if anything. */
    method Poll(name: Name) returns (r: Lookup<Item>)
      requires store.data == ByKey(files)
      ensures r.Present? <==> name in files
      ensures r.Present? ==> r.value == files[name]
    {
      hide ByKey;
      hide Key;
      r := store.Get(Key(name));
    }

    /** `cleanupAttempt`: the hosted proposal goes, the own receipt stays. */
    method CleanupAttempt(round: nat, a: nat)
      requires seat < |order| && store.data == ByKey(files) && Typed(files)
      modifies store, this`files
      ensures store.data == ByKey(files) && Typed(files)
      ensures Proposals(files) == old(Proposals(files)) - {(round, a)}
      ensures Receipts(files, order[seat]) == old(Receipts(files, order[seat]))
      ensures Attests(files, order[seat]) == old(Attests(files, order[seat]))
    {
      hide Proposals;
      hide Receipts;
      hide Attests;
      hide Typed;
      hide ByKey;
      var me := order[seat];
      DropProposal(files, me, round, a);
      Delete(Proposal(round, a));
      for j := 0 to |order|
        invariant store.data == ByKey(files) && Typed(files)
        invariant Proposals(files) == old(Proposals(files)) - {(round, a)}
        invariant Receipts(files, me) == old(Receipts(files, me)) && Attests(files, me) == old(Attests(files, me))
      {
        if order[j] == me {
          continue;
        }
        DropOthers(files, me, round, a, order[j]);
        Delete(Receipt(round, a, order[j]));
      }
    }

    /** The two prefix deletions of `runRound`: the receipts and attestations of that round go, and no
        other file. */
    method ForgetRound(round: nat)
      requires seat < |order| && store.data == ByKey(files) && Typed(files)
      modifies store, this`files
      ensures store.data == ByKey(files) && Typed(files)
      ensures Proposals(files) == old(Proposals(files))
      ensures Receipts(files, order[seat]) == DropRound(old(Receipts(files, order[seat])), round)
      ensures var before := old(Attests(files, order[seat]));
              Attests(files, order[seat]) == map q | q in before && q != round :: before[q]
    {
      hide Proposals;
      hide Receipts;
      hide Attests;
      hide Typed;
      hide ByKey;
      var me := order[seat];
      DropReceipts(files, me, round);
      DroppingReceipts(files, round);
      store.DeletePrefix(RoundPrefix(round));
      files := WithoutReceipts(files, round);
      DropAttests(files, me, round);
      DroppingFolds(files, round);
      store.DeletePrefix(AutoFoldPrefix(round));
      files := WithoutFolds(files, round);
    }

    /** Polls of this peer by key: for a proposal, for its receipt, for its attestation. */
    method PollProposal(r: nat, a: nat) returns (found: Lookup<Entry>)
      requires Valid()
      ensures found.Present? <==> (r, a) in State().proposals
      ensures found.Present? ==> found.value == State().proposals[(r, a)] && found.value.Sized()
    {
      hide ByKey;
      hide Fine;
      hide View;
      FineParts(c, Now());
      var item := Poll(Proposal(r, a));
      return if item.Present? then Present(item.value.entry) else Missing;
    }

    method PollReceipt(r: nat, a: nat) returns (found: bool)
      requires Valid()
      ensures found <==> (r, a) in State().receipts
    {
      hide ByKey;
      hide Fine;
      hide View;
      FineParts(c, Now());
      var item := Poll(Receipt(r, a, order[seat]));
      return item.Present?;
    }

    method PollAttestation(r: nat) returns (found: Lookup<bytes>)
      requires Valid()
      ensures found.Present? <==> r in State().attests
      ensures found.Present? ==> found.value == State().attests[r] && |found.value| == 64
    {
      hide ByKey;
      hide Fine;
      hide View;
      FineParts(c, Now());
      var item := Poll(AutoFold(r, order[seat]));
      return if item.Present? then Present(item.value.sig) else Missing;
    }

    // -------------------------------------------------------------------------- the moves

    /** The hand goes on: the loop in `Run` starts another round only then. */
    method Going() returns (going: bool)
      requires Valid()
      ensures going <==> Plays(c, State())
    {
      hide ByKey;
      hide Fine;
      FineParts(c, Now());
      var t := Replay(Committed(), c.s.n, c.s.stack);
      return !stage.Halted? && !t.over && |Committed()| < TWO64;
    }

    /** Whose turn it is. */
    method ToAct() returns (turn: nat)
      requires Seated(Committed(), c.s.n)
      ensures turn == Turn(Committed(), c.s.n, c.s.stack)
    {
      turn := ExpectedNextPlayer(Committed(), c.s.n, c.s.stack);
    }

    /** One turn of the loop in `runProposerAttempt`: a refused action touches nothing. */
    method Offer(action: Action, sig: bytes, ghost nodes: seq<Replica>) returns (ok: bool)
      requires Valid() && |nodes| == c.s.n && |sig| == 64
      modifies this, store
      ensures Valid() && (ok <==> Enabled(c, nodes, old(State()), Propose(action, sig)))
      ensures State() == if ok then Next(c, nodes, old(State()), Propose(action, sig)) else old(State())
    {
      hide Enabled;
      hide Next;
      hide Plays;
      hide Fine;
      hide View;
      hide ByKey;
      hide Proposals;
      hide Receipts;
      hide Attests;
      hide Turn;
      hide VerifyProposal;
      FineParts(c, Now());
      AllowedIff(c, nodes, Now(), Propose(action, sig));
      var going := Going();
      if !going {
        return false;
      }
      var turn := ToAct();
      if !stage.Idle? || seat != turn {
        return false;
      }
      var r: nat := |Committed()|;
      var e := Entry(r, seat, action, sig, [], [], []);
      var v := VerifyProposal(c.s, Committed(), e);
      if v != Ok {
        return false;
      }
      HostProposal(files, order[seat], r, attempt, e);
      Put(Proposal(r, attempt), Proposed(e));
      past := past.(proposed := past.proposed[(r, attempt) := e]);
      stage := Held(e);
      KeptIsNext(c, nodes, old(Now()), Propose(action, sig), Now());
      return true;
    }

    /** `runVerifierAttempt` up to its verdict on what the seat to act hosts. */
    method Examine(peer: RoundRunner, ghost nodes: seq<Replica>) returns (ok: bool)
      requires Valid() && |nodes| == c.s.n && peer.Valid() && peer.seat < |nodes|
      requires peer.c == c && peer.order == order && nodes[peer.seat] == peer.State()
      requires Seated(Committed(), c.s.n) && peer.seat == Turn(Committed(), c.s.n, c.s.stack)
      modifies this
      ensures Valid() && (ok <==> Enabled(c, nodes, old(State()), Fetch))
      ensures State() == if ok then Next(c, nodes, old(State()), Fetch) else old(State())
    {
      hide Enabled;
      hide Next;
      hide Plays;
      hide Fine;
      hide View;
      hide ByKey;
      hide Proposals;
      hide Receipts;
      hide Attests;
      hide Turn;
      hide Stores;
      hide VerifyProposal;
      FineParts(c, Now());
      AllowedIff(c, nodes, Now(), Fetch);
      StoresNothing(Now(), Fetch);
      var going := Going();
      if !going {
        return false;
      }
      if !stage.Idle? || seat == peer.seat {
        return false;
      }
      var r: nat := |Committed()|;
      var found := peer.PollProposal(r, attempt);
      if found.Missing? {
        return false;
      }
      var e := found.value;
      var v := VerifyProposal(c.s, Committed(), e);
      if v != Ok {
        return false;
      }
      stage := Held(e);
      KeptIsNext(c, nodes, old(Now()), Fetch, Now());
      return true;
    }

    /** Append, then `hostVerifyReceipt`. */
    method HostVerifyReceipt(sig: bytes, ghost nodes: seq<Replica>) returns (ok: bool)
      requires Valid() && |nodes| == c.s.n
      modifies this, log, store
      ensures Valid() && (ok <==> Enabled(c, nodes, old(State()), Host))
      ensures State() == if ok then Next(c, nodes, old(State()), Host) else old(State())
    {
      hide Enabled;
      hide Next;
      hide Plays;
      hide Fine;
      hide View;
      hide ByKey;
      hide Proposals;
      hide Receipts;
      hide Attests;
      hide Turn;
      FineParts(c, Now());
      AllowedIff(c, nodes, Now(), Host);
      var going := Going();
      if !going {
        return false;
      }
      if !stage.Held? {
        return false;
      }
      var e, r: nat := stage.entry, |log.entries|;
      log.Append(e);
      HostReceipt(files, order[seat], r, attempt, sig);
      Put(Receipt(r, attempt, order[seat]), Receipted(sig));
      past := past.(hosted := past.hosted[(r, attempt) := e]);
      stage := Tentative({});
      KeptIsNext(c, nodes, old(Now()), Host, Now());
      return true;
    }

    /** One poll of `collectVerifyReceipts`. */
    method SeeReceipt(peer: RoundRunner, ghost nodes: seq<Replica>) returns (ok: bool)
      requires Valid() && |nodes| == c.s.n && peer.Valid() && peer.seat < |nodes|
      requires peer.c == c && peer.order == order && nodes[peer.seat] == peer.State()
      modifies this
      ensures Valid() && (ok <==> Enabled(c, nodes, old(State()), Observe(peer.seat)))
      ensures State() == if ok then Next(c, nodes, old(State()), Observe(peer.seat)) else old(State())
    {
      hide Enabled;
      hide Next;
      hide Plays;
      hide Fine;
      hide View;
      hide ByKey;
      hide Proposals;
      hide Receipts;
      hide Attests;
      hide Turn;
      hide Stores;
      FineParts(c, Now());
      AllowedIff(c, nodes, Now(), Observe(peer.seat));
      StoresNothing(Now(), Observe(peer.seat));
      var going := Going();
      if !going {
        return false;
      }
      var nid := order[peer.seat];
      if !stage.Tentative? || nid == order[seat] {
        return false;
      }
      var r: nat := |Committed()|;
      var found := peer.PollReceipt(r, attempt);
      if !found {
        return false;
      }
      stage := Tentative(stage.got + {peer.seat});
      KeptIsNext(c, nodes, old(Now()), Observe(peer.seat), Now());
      return true;
    }

    /** Whether `collectVerifyReceipts` has every receipt it polls for. */
    method Collected() returns (all: bool)
      requires Valid() && stage.Tentative?
      ensures all <==> AllSeen(c, seat, log.entries, stage.got)
    {
      hide Fine;
      hide ByKey;
      FineParts(c, Now());
      var t := Replay(log.entries, c.s.n, c.s.stack);
      for j := 0 to c.s.n
        invariant forall k :: 0 <= k < j && k != seat && !Out(c.s, log.entries, k) ==> k in stage.got
      {
        if order[j] == order[seat] || t.folded[j] {
          continue;
        }
        if j !in stage.got {
          assert !Out(c.s, log.entries, j);
          return false;
        }
      }
      return true;
    }

    /** The committed case of `runRound`: the tentative entry stays, `cleanupAttempt` and the two prefix
        deletions run. */
    method Settle(ghost nodes: seq<Replica>) returns (ok: bool)
      requires Valid() && |nodes| == c.s.n
      modifies this, store
      ensures Valid() && (ok <==> Enabled(c, nodes, old(State()), Commit))
      ensures State() == if ok then Next(c, nodes, old(State()), Commit) else old(State())
      ensures ok ==> Key(Proposal(|old(Committed())|, old(attempt))) !in store.data
      ensures ok ==> Committed() == old(log.entries) && attempt == 0
    {
      hide Enabled;
      hide Next;
      hide Plays;
      hide Fine;
      hide View;
      hide ByKey;
      hide Key;
      hide Proposals;
      hide Receipts;
      hide Attests;
      hide Turn;
      hide AllSeen;
      hide Stores;
      FineParts(c, Now());
      AllowedIff(c, nodes, Now(), Commit);
      var going := Going();
      if !going {
        return false;
      }
      if !stage.Tentative? {
        return false;
      }
      var all := Collected();
      if !all {
        return false;
      }
      ForgetAttempt(|Committed()|);
      StoresCommit(old(Now()), files);
      NotStored(files, |Committed()|, attempt);
      past := past.(how := past.how + [ByReceipts(attempt)]);
      attempt := 0;
      stage := Idle;
      KeptIsNext(c, nodes, old(Now()), Commit, Now());
      return true;
    }

    /** What `runRound` deletes on a commit in `round`. */
    method ForgetAttempt(round: nat)
      requires seat < |order| && store.data == ByKey(files) && Typed(files)
      modifies store, this`files
      ensures store.data == ByKey(files) && Typed(files)
      ensures Proposals(files) == old(Proposals(files)) - {(round, attempt)}
      ensures Receipts(files, order[seat]) == DropRound(old(Receipts(files, order[seat])), round - 1)
      ensures var before := old(Attests(files, order[seat]));
              Attests(files, order[seat]) == map q | q in before && q != round - 1 :: before[q]
    {
      hide Proposals;
      hide Receipts;
      hide Attests;
      hide ByKey;
      CleanupAttempt(round, attempt);
      if round > 0 {
        ForgetRound(round - 1);
      }
    }

    method RollBack()
      modifies log
      ensures log.entries == old(Committed())
    {
      if stage.Tentative? {
        log.RollbackLast();
      }
    }

    /** A deadline: roll back what was appended, clean up, and count the attempt. */
    method TimeOut(ghost nodes: seq<Replica>) returns (ok: bool)
      requires Valid() && |nodes| == c.s.n
      modifies this, log, store
      ensures Valid() && (ok <==> Enabled(c, nodes, old(State()), Abort))
      ensures State() == if ok then Next(c, nodes, old(State()), Abort) else old(State())
      ensures ok ==> Key(Proposal(|Committed()|, old(attempt))) !in store.data
      ensures ok ==> Committed() == old(Committed()) && attempt == old(attempt) + 1
    {
      hide Enabled;
      hide Next;
      hide Plays;
      hide Fine;
      hide View;
      hide ByKey;
      hide Key;
      hide Proposals;
      hide Receipts;
      hide Attests;
      hide Turn;
      FineParts(c, Now());
      AllowedIff(c, nodes, Now(), Abort);
      var going := Going();
      if !going {
        return false;
      }
      if stage.Spent? || stage.Gathering? || stage.Halted? {
        return false;
      }
      RollBack();
      CleanupAttempt(|log.entries|, attempt);
      NotStored(files, |log.entries|, attempt);
      attempt := attempt + 1;
      stage := if attempt < c.maxAttempts then Idle else Spent;
      KeptIsNext(c, nodes, old(Now()), Abort, Now());
      return true;
    }

    /** The start of `driveAutoFold` for a seat that is not its target: it hosts its own signature of the fold. */
    method HostAttestation(sig: bytes, ghost nodes: seq<Replica>) returns (ok: bool)
      requires Valid() && |nodes| == c.s.n && |sig| == 64
      modifies this, store
      ensures Valid() && (ok <==> Enabled(c, nodes, old(State()), Attest(sig)))
      ensures State() == if ok then Next(c, nodes, old(State()), Attest(sig)) else old(State())
    {
      hide Enabled;
      hide Next;
      hide Plays;
      hide Fine;
      hide View;
      hide ByKey;
      hide Proposals;
      hide Receipts;
      hide Attests;
      hide Turn;
      hide AutoFoldPayload;
      hide Attestation;
      FineParts(c, Now());
      AllowedIff(c, nodes, Now(), Attest(sig));
      var going := Going();
      if !going {
        return false;
      }
      var turn := ToAct();
      if !stage.Spent? || seat == turn {
        return false;
      }
      var r: nat := |Committed()|;
      AttestationIff(c.s, Committed(), seat, sig);
      if seat !in c.s.keys || !c.s.verify(c.s.keys[seat], AutoFoldPayload(Committed(), r, turn), sig) {
        return false;
      }
      HostAttest(files, order[seat], r, sig);
      Put(AutoFold(r, order[seat]), Attested(sig));
      past := past.(attested := past.attested[r := sig]);
      stage := Gathering(map[seat := sig]);
      KeptIsNext(c, nodes, old(Now()), Attest(sig), Now());
      return true;
    }

    /** The start of `driveAutoFold` for its target, which has nothing to host. */
    method AwaitOwnFold(ghost nodes: seq<Replica>) returns (ok: bool)
      requires Valid() && |nodes| == c.s.n
      modifies this
      ensures Valid() && (ok <==> Enabled(c, nodes, old(State()), Await))
      ensures State() == if ok then Next(c, nodes, old(State()), Await) else old(State())
    {
      hide Enabled;
      hide Next;
      hide Plays;
      hide Fine;
      hide View;
      hide ByKey;
      hide Proposals;
      hide Receipts;
      hide Attests;
      hide Turn;
      hide Stores;
      FineParts(c, Now());
      AllowedIff(c, nodes, Now(), Await);
      StoresNothing(Now(), Await);
      var going := Going();
      if !going {
        return false;
      }
      var turn := ToAct();
      if !stage.Spent? || seat != turn {
        return false;
      }
      stage := Gathering(map[]);
      KeptIsNext(c, nodes, old(Now()), Await, Now());
      return true;
    }

    /** One poll of `driveAutoFold`. */
    method TakeAttestation(peer: RoundRunner, ghost nodes: seq<Replica>) returns (ok: bool)
      requires Valid() && |nodes| == c.s.n && peer.Valid() && peer.seat < |nodes|
      requires peer.c == c && peer.order == order && nodes[peer.seat] == peer.State()
      modifies this
      ensures Valid() && (ok <==> Enabled(c, nodes, old(State()), Gather(peer.seat)))
      ensures State() == if ok then Next(c, nodes, old(State()), Gather(peer.seat)) else old(State())
    {
      hide Enabled;
      hide Next;
      hide Plays;
      hide Fine;
      hide View;
      hide ByKey;
      hide Proposals;
      hide Receipts;
      hide Attests;
      hide Turn;
      hide Stores;
      hide ExpectedAttestors;
      FineParts(c, Now());
      AllowedIff(c, nodes, Now(), Gather(peer.seat));
      StoresNothing(Now(), Gather(peer.seat));
      var going := Going();
      if !going {
        return false;
      }
      var turn := ToAct();
      var expected := ExpectedAutoFoldAttestors(c.s, Committed(), turn);
      if !stage.Gathering? || peer.seat == seat || peer.seat !in expected {
        return false;
      }
      var r: nat := |Committed()|;
      var found := peer.PollAttestation(r);
      if found.Missing? {
        return false;
      }
      stage := Gathering(stage.sigs[peer.seat := found.value]);
      KeptIsNext(c, nodes, old(Now()), Gather(peer.seat), Now());
      return true;
    }

    /** The end of `driveAutoFold`: assemble the co-signed fold and append it if it verifies. */
    method AppendFold(ghost nodes: seq<Replica>) returns (ok: bool)
      requires Valid() && |nodes| == c.s.n
      modifies this, log
      ensures Valid() && (ok <==> Enabled(c, nodes, old(State()), FinishFold))
      ensures State() == if ok then Next(c, nodes, old(State()), FinishFold) else old(State())
    {
      hide Enabled;
      hide Next;
      hide Plays;
      hide Fine;
      hide View;
      hide ByKey;
      hide Proposals;
      hide Receipts;
      hide Attests;
      hide Turn;
      hide Stores;
      hide AutoFoldValid;
      hide IsFold;
      FineParts(c, Now());
      AllowedIff(c, nodes, Now(), FinishFold);
      StoresNothing(Now(), FinishFold);
      var going := Going();
      if !going {
        return false;
      }
      if !stage.Gathering? {
        return false;
      }
      var complete, e := AssembleFold(c.s, log.entries, stage.sigs);
      if !complete {
        return false;
      }
      OneFold(c.s, log.entries, stage.sigs, e);
      var v := log.AppendAutoFold(e);
      if v != Ok {
        return false;
      }
      attempt := 0;
      past := past.(how := past.how + [ByAutoFold]);
      stage := Idle;
      KeptIsNext(c, nodes, old(Now()), FinishFold, Now());
      return true;
    }

    /** `Run` returns, whatever it was doing. */
    method Halt(ghost nodes: seq<Replica>) returns (ok: bool)
      requires Valid() && |nodes| == c.s.n
      modifies this, log
      ensures Valid() && (ok <==> Enabled(c, nodes, old(State()), Stop))
      ensures State() == if ok then Next(c, nodes, old(State()), Stop) else old(State())
    {
      hide Enabled;
      hide Next;
      hide Plays;
      hide Fine;
      hide View;
      hide ByKey;
      hide Proposals;
      hide Receipts;
      hide Attests;
      hide Turn;
      hide Stores;
      FineParts(c, Now());
      AllowedIff(c, nodes, Now(), Stop);
      StoresNothing(Now(), Stop);
      if stage.Halted? {
        return false;
      }
      RollBack();
      stage := Halted;
      KeptIsNext(c, nodes, old(Now()), Stop, Now());
      return true;
    }
  }

  method AssembleFold(s: Session, log: seq<Entry>, sigs: map<nat, bytes>) returns (complete: bool, e: Entry)
    requires 0 < s.n <= 255 && Seated(log, s.n) && |log| < TWO64
    ensures complete <==> exists f :: IsFold(s, log, sigs, f)
    ensures complete ==> IsFold(s, log, sigs, e)
  {
    var target := ExpectedNextPlayer(log, s.n, s.stack);
    var expected := ExpectedAutoFoldAttestors(s, log, target);
    complete := HasAll(sigs, expected);
    if !complete {
      return false, Entry(0, 0, Action(FOLD, 0), [], [], [], []);
    }
    e := FoldEntry(|log|, target, expected, sigs);
    assert IsFold(s, log, sigs, e);
  }

  method HasAll(sigs: map<nat, bytes>, expected: seq<byte>) returns (all: bool)
    ensures all <==> forall k :: 0 <= k < |expected| ==> expected[k] in sigs
  {
    for i := 0 to |expected|
      invariant forall k :: 0 <= k < i ==> expected[k] in sigs
    {
      if expected[i] !in sigs {
        return false;
      }
    }
    return true;
  }
}

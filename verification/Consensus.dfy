/** The round protocol (internal/round/runner.go) as a step relation over all replicas of one hand.
    Every poll of a peer reads the peer's store at some moment or never returns, and a deadline may
    fire at any moment. */
module Consensus {
  import opened Bytes
  import opened Entries
  import opened Betting
  import opened LogRules

  /** A round and an attempt. */
  type Slot = (nat, nat)

  /** Where a replica is within its current round. */
  datatype Phase =
    | Open                                      // waiting for an action, or polling for the proposal
    | Holding(entry: Entry)                     // a verified proposal, not appended yet
    | Collecting(entry: Entry, got: set<nat>)   // appended tentatively, receipt hosted, polling receipts
    | Exhausted                                 // every attempt failed
    | Folding(sigs: map<nat, bytes>)            // polling auto-fold attestations
    | Stopped                                   // Run returned

  datatype How = ByReceipts(attempt: nat) | ByAutoFold

  /** What a replica has done so far; no step reads it. */
  datatype Past = Past(
    how: seq<How>,                 // how each log entry was committed
    proposed: map<Slot, Entry>,    // every proposal it ever hosted
    hosted: map<Slot, Entry>,      // every entry it ever hosted a receipt for
    attested: map<nat, bytes>)     // every attestation it ever hosted

  /** The committed log, the position in the round, and the three families of keys in the store.
      While collecting, the source's log is `log + [entry]`. */
  datatype Replica = Replica(
    seat: nat,
    log: seq<Entry>,
    attempt: nat,
    phase: Phase,
    proposals: map<Slot, Entry>,
    receipts: set<Slot>,
    attests: map<nat, bytes>,
    past: Past)
  {
    function Slot(): Slot { (|log|, attempt) }
  }

  datatype Config = Config(s: Session, maxAttempts: nat)

  datatype Move =
    | Propose(action: Action, sig: bytes)   // the seat to act signs, verifies and hosts a proposal
    | Fetch                                 // another seat polls it and verifies it
    | Host                                  // append tentatively, host a receipt
    | Observe(peer: nat)                    // a poll for a peer's receipt succeeds
    | Commit                                // every receipt seen
    | Abort                                 // deadline: roll back, next attempt
    | Attest(sig: bytes)                    // host an auto-fold attestation
    | Await                                 // the stalled seat itself has nothing to host
    | Gather(peer: nat)                     // a poll for a peer's attestation succeeds
    | FinishFold                            // append the co-signed fold
    | Stop                                  // cancelled, failed, or the hand is over

  // ------------------------------------------------------------------ derived from a log

  ghost function Mover(s: Session, log: seq<Entry>): nat {
    if Seated(log, s.n) then Turn(log, s.n, s.stack) else 0
  }

  ghost predicate Out(s: Session, log: seq<Entry>, seat: nat) {
    Seated(log, s.n) && seat < s.n && After(log, s.n, s.stack).folded[seat]
  }

  ghost predicate Over(s: Session, log: seq<Entry>) {
    Seated(log, s.n) && After(log, s.n, s.stack).over
  }

  ghost function Expected(s: Session, log: seq<Entry>): seq<byte> {
    if Seated(log, s.n) && s.n <= 256 then ExpectedAttestors(s, log, Mover(s, log)) else []
  }

  ghost predicate Proposable(s: Session, log: seq<Entry>, e: Entry) {
    Seated(log, s.n) && AllSized(log) && e.Sized() && VerifyProposal(s, log, e) == Ok
  }

  ghost predicate Foldable(s: Session, log: seq<Entry>, e: Entry) {
    s.n <= 256 && Seated(log, s.n) && AllSized(log) && e.Sized() && AutoFoldValid(s, log, e)
  }

  ghost predicate Attestation(s: Session, log: seq<Entry>, seat: nat, sig: bytes) {
    && AllSized(log) && |log| < TWO64 && Mover(s, log) < 256 && |sig| == 64
    && seat in s.keys && s.verify(s.keys[seat], AutoFoldPayload(log, |log|, Mover(s, log)), sig)
  }

  /** The fold entry every replica assembles from the attestations it polled. */
  function FoldEntry(round: uint64, target: byte, expected: seq<byte>, sigs: map<nat, bytes>): Entry
    requires forall k :: 0 <= k < |expected| ==> expected[k] in sigs
  {
    Entry(round, target, Action(FOLD, 0), [], expected,
          seq(|expected|, k requires 0 <= k < |expected| => sigs[expected[k]]), [])
  }

  // -------------------------------------------------------------------------- one step

  ghost predicate Enabled(c: Config, nodes: seq<Replica>, x: Replica, m: Move) {
    && !x.phase.Stopped?
    && (m.Stop? || (!Over(c.s, x.log) && |x.log| < TWO64))
    && match m
       case Propose(a, sig) =>
         x.phase.Open? && x.seat == Mover(c.s, x.log) < 256 && |sig| == 64
         && Proposable(c.s, x.log, Entry(|x.log|, x.seat, a, sig, [], [], []))
       case Fetch =>
         x.phase.Open? && x.seat != Mover(c.s, x.log) < |nodes|
         && x.Slot() in nodes[Mover(c.s, x.log)].proposals
         && Proposable(c.s, x.log, nodes[Mover(c.s, x.log)].proposals[x.Slot()])
       case Host => x.phase.Holding?
       case Observe(j) =>
         x.phase.Collecting? && j < |nodes| && j != x.seat && x.Slot() in nodes[j].receipts
       case Commit =>
         x.phase.Collecting?
         && forall j :: 0 <= j < c.s.n && j != x.seat && !Out(c.s, x.log + [x.phase.entry], j) ==> j in x.phase.got
       case Abort => x.phase.Open? || x.phase.Holding? || x.phase.Collecting?
       case Attest(sig) =>
         x.phase.Exhausted? && x.seat != Mover(c.s, x.log) && Attestation(c.s, x.log, x.seat, sig)
       case Await => x.phase.Exhausted? && x.seat == Mover(c.s, x.log)
       case Gather(j) =>
         x.phase.Folding? && j < |nodes| && j != x.seat && j in Expected(c.s, x.log) && |x.log| in nodes[j].attests
       case FinishFold =>
         x.phase.Folding? && Mover(c.s, x.log) < 256
         && (forall k :: 0 <= k < |Expected(c.s, x.log)| ==> Expected(c.s, x.log)[k] in x.phase.sigs)
         && Foldable(c.s, x.log, FoldEntry(|x.log|, Mover(c.s, x.log), Expected(c.s, x.log), x.phase.sigs))
       case Stop => true
  }

  /** `RoundPrefix` and `AutoFoldPrefix` deletion. */
  function DropRound(keys: set<Slot>, r: int): set<Slot> {
    set k | k in keys && k.0 != r
  }

  ghost function Next(c: Config, nodes: seq<Replica>, x: Replica, m: Move): (y: Replica)
    requires Enabled(c, nodes, x, m)
  {
    var r := |x.log|;
    match m
    case Propose(a, sig) =>
      var e := Entry(r, x.seat, a, sig, [], [], []);
      x.(phase := Holding(e), proposals := x.proposals[x.Slot() := e],
         past := x.past.(proposed := x.past.proposed[x.Slot() := e]))
    case Fetch => x.(phase := Holding(nodes[Mover(c.s, x.log)].proposals[x.Slot()]))
    case Host =>
      x.(phase := Collecting(x.phase.entry, {}), receipts := x.receipts + {x.Slot()},
         past := x.past.(hosted := x.past.hosted[x.Slot() := x.phase.entry]))
    case Observe(j) => x.(phase := x.phase.(got := x.phase.got + {j}))
    case Commit =>
      x.(log := x.log + [x.phase.entry], attempt := 0, phase := Open,
         proposals := x.proposals - {x.Slot()},
         receipts := DropRound(x.receipts, r - 1), attests := map q | q in x.attests && q != r - 1 :: x.attests[q],
         past := x.past.(how := x.past.how + [ByReceipts(x.attempt)]))
    case Abort =>
      x.(attempt := x.attempt + 1, phase := if x.attempt + 1 < c.maxAttempts then Open else Exhausted,
         proposals := x.proposals - {x.Slot()})
    case Attest(sig) =>
      x.(phase := Folding(map[x.seat := sig]), attests := x.attests[r := sig],
         past := x.past.(attested := x.past.attested[r := sig]))
    case Await => x.(phase := Folding(map[]))
    case Gather(j) => x.(phase := Folding(x.phase.sigs[j := nodes[j].attests[r]]))
    case FinishFold =>
      x.(log := x.log + [FoldEntry(r, Mover(c.s, x.log), Expected(c.s, x.log), x.phase.sigs)],
         attempt := 0, phase := Open,
         past := x.past.(how := x.past.how + [ByAutoFold]))
    case Stop => x.(phase := Stopped)
  }

  /** Replica `i` makes move `m`. */
  ghost predicate Moved(c: Config, a: seq<Replica>, i: nat, m: Move, b: seq<Replica>) {
    i < |a| && Enabled(c, a, a[i], m) && b == a[i := Next(c, a, a[i], m)]
  }

  ghost predicate Steps(c: Config, a: seq<Replica>, b: seq<Replica>) {
    exists i: nat, m: Move :: Moved(c, a, i, m, b)
  }

  function Fresh(seat: nat): Replica {
    Replica(seat, [], 0, Open, map[], {}, map[], Past([], map[], map[], map[]))
  }

  ghost predicate Init(c: Config, nodes: seq<Replica>) {
    |nodes| == c.s.n && forall i :: 0 <= i < |nodes| ==> nodes[i] == Fresh(i)
  }

  /** A run: any finite interleaving of steps. */
  ghost predicate Run(c: Config, trace: seq<seq<Replica>>) {
    && trace != [] && Init(c, trace[0])
    && forall k :: 0 <= k < |trace| - 1 ==> Steps(c, trace[k], trace[k + 1])
  }
}

/** The moves on what one runner keeps: its log with the tentative entry in it, its place in the round and its
    files. */
module LocalMoves {
  import opened Bytes
  import opened Entries
  import opened Betting
  import opened LogRules
  import opened Consensus
  import opened Hosting

  /** `Phase` with the tentative entry left in the log, where the source keeps it. */
  datatype Stage =
    | Idle
    | Held(entry: Entry)
    | Tentative(got: set<nat>)
    | Spent
    | Gathering(sigs: map<nat, bytes>)
    | Halted

  datatype Local = Local(
    seat: nat,
    me: string,
    entries: seq<Entry>,
    attempt: nat,
    stage: Stage,
    files: Files,
    past: Past)

  /** The log can be replayed and signed over, and every file and every held entry is what it should be. */
  ghost predicate Fine(c: Config, v: Local) {
    && 0 < c.s.n <= 255 && v.seat < c.s.n && Seated(v.entries, c.s.n) && AllSized(v.entries) && Typed(v.files)
    && (v.stage.Held? ==> v.stage.entry.player < c.s.n && v.stage.entry.Sized())
    && (v.stage.Tentative? ==> v.entries != [])
    && (v.stage.Gathering? ==> forall k :: k in v.stage.sigs ==> |v.stage.sigs[k]| == 64)
  }

  /** The log without the tentative entry. */
  function Front(entries: seq<Entry>, stage: Stage): seq<Entry> {
    if stage.Tentative? && entries != [] then entries[..|entries| - 1] else entries
  }

  ghost function PhaseOf(v: Local): Phase
    requires v.stage.Tentative? ==> v.entries != []
  {
    match v.stage
    case Idle => Open
    case Held(e) => Holding(e)
    case Tentative(got) => Collecting(v.entries[|v.entries| - 1], got)
    case Spent => Exhausted
    case Gathering(sigs) => Folding(sigs)
    case Halted => Stopped
  }

  /** What it is in the protocol. */
  ghost function View(c: Config, v: Local): (x: Replica)
    requires Fine(c, v)
    ensures x.seat == v.seat && x.log == Front(v.entries, v.stage) && x.attempt == v.attempt
  {
    Replica(v.seat, Front(v.entries, v.stage), v.attempt, PhaseOf(v),
            Proposals(v.files), Receipts(v.files, v.me), Attests(v.files, v.me), v.past)
  }

  /** The hand goes on, and the replica with it. */
  ghost predicate Plays(c: Config, x: Replica) {
    !x.phase.Stopped? && !Over(c.s, x.log) && |x.log| < TWO64
  }

  /** The committed log can be replayed, and seats fit their field. */
  ghost predicate InRange(c: Config, v: Local) {
    0 < c.s.n <= 255 && v.seat < c.s.n && Seated(Front(v.entries, v.stage), c.s.n)
  }

  /** What the runner works with: a log that can be replayed, a round number that fits 64 bits while the hand goes
      on, and its round files. */
  lemma FineParts(c: Config, v: Local)
    requires Fine(c, v)
    ensures InRange(c, v) && Seated(v.entries, c.s.n) && AllSized(v.entries) && AllSized(Front(v.entries, v.stage))
    ensures v.stage.Tentative? ==> v.entries != []
    ensures Plays(c, View(c, v)) ==> |Front(v.entries, v.stage)| < TWO64
    ensures Typed(v.files)
    ensures var x := View(c, v);
            && x.proposals == Proposals(v.files)
            && x.receipts == Receipts(v.files, v.me) && x.attests == Attests(v.files, v.me)
  {
  }

  /** Every receipt is there: of all seats but this one and the folded ones, by the log with the tentative
      entry. */
  ghost predicate AllSeen(c: Config, seat: nat, log: seq<Entry>, got: set<nat>) {
    forall j :: 0 <= j < c.s.n && j != seat && !Out(c.s, log, j) ==> j in got
  }

  /** The fold of the seat to act, with the attestations of all other unfolded seats in seat order. */
  ghost predicate IsFold(s: Session, log: seq<Entry>, sigs: map<nat, bytes>, e: Entry)
    requires 0 < s.n <= 255 && Seated(log, s.n) && |log| < TWO64
  {
    var target := Turn(log, s.n, s.stack);
    var expected := ExpectedAttestors(s, log, target);
    && (forall k :: 0 <= k < |expected| ==> expected[k] in sigs)
    && e == FoldEntry(|log|, target, expected, sigs)
  }

  lemma {:induction false} AttestorsBound(folded: seq<bool>, target: nat, m: nat)
    requires m <= |folded| <= 256
    ensures |Attestors(folded, target, m)| <= m
  {
    if m > 0 { AttestorsBound(folded, target, m - 1); }
  }

  lemma FoldEntrySized(s: Session, log: seq<Entry>, target: nat, expected: seq<byte>, sigs: map<nat, bytes>)
    requires s.n <= 255 && Seated(log, s.n) && target < 256 && expected == ExpectedAttestors(s, log, target)
    requires |log| < TWO64 && forall k :: 0 <= k < |expected| ==> expected[k] in sigs && |sigs[expected[k]]| == 64
    ensures FoldEntry(|log|, target, expected, sigs).Sized()
  {
    AttestorsBound(After(log, s.n, s.stack).folded, target, s.n);
  }

  /** When a signature is the seat's own, of the fold of the seat to act. */
  lemma AttestationIff(s: Session, log: seq<Entry>, seat: nat, sig: bytes)
    requires 0 < s.n <= 255 && Seated(log, s.n) && AllSized(log) && |log| < TWO64 && |sig| == 64
    ensures Attestation(s, log, seat, sig) <==>
            seat in s.keys && s.verify(s.keys[seat], AutoFoldPayload(log, |log|, Turn(log, s.n, s.stack)), sig)
  {
    hide AutoFoldPayload;
  }

  /** The fold entry that the attestations make, if there is one. */
  ghost predicate CanFold(s: Session, log: seq<Entry>, sigs: map<nat, bytes>)
    requires 0 < s.n <= 255 && Seated(log, s.n) && AllSized(log) && |log| < TWO64
  {
    exists e :: IsFold(s, log, sigs, e) && AutoFoldValid(s, log, e)
  }

  /** There is one fold, and the move appends it. */
  lemma OneFold(s: Session, log: seq<Entry>, sigs: map<nat, bytes>, e: Entry)
    requires 0 < s.n <= 255 && Seated(log, s.n) && AllSized(log) && |log| < TWO64 && IsFold(s, log, sigs, e)
    ensures CanFold(s, log, sigs) <==> AutoFoldValid(s, log, e)
    ensures e.round == |log| && e.player == Mover(s, log) && e.coSigners == Expected(s, log)
    ensures forall k :: 0 <= k < |Expected(s, log)| ==> Expected(s, log)[k] in sigs
    ensures Mover(s, log) < 256 && e == FoldEntry(|log|, Mover(s, log), Expected(s, log), sigs)
  {
    hide AutoFoldValid;
    hide ExpectedAttestors;
  }

  // ----------------------------------------------------------------------------- what is allowed

  /** When the runner may make a move, in the terms in which it decides that. */
  ghost predicate Allowed(c: Config, nodes: seq<Replica>, v: Local, m: Move)
    requires Fine(c, v) && Plays(c, View(c, v)) && |nodes| == c.s.n
  {
    var log := Front(v.entries, v.stage);
    var turn, slot := Turn(log, c.s.n, c.s.stack), (|log|, v.attempt);
    match m
    case Propose(a, sig) =>
      && v.stage.Idle? && v.seat == turn && |sig| == 64
      && VerifyProposal(c.s, log, Entry(|log|, v.seat, a, sig, [], [], [])) == Ok
    case Fetch =>
      && v.stage.Idle? && v.seat != turn && slot in nodes[turn].proposals && nodes[turn].proposals[slot].Sized()
      && VerifyProposal(c.s, log, nodes[turn].proposals[slot]) == Ok
    case Host => v.stage.Held?
    case Observe(j) => v.stage.Tentative? && j < |nodes| && j != v.seat && slot in nodes[j].receipts
    case Commit => v.stage.Tentative? && AllSeen(c, v.seat, v.entries, v.stage.got)
    case Abort => v.stage.Idle? || v.stage.Held? || v.stage.Tentative?
    case Attest(sig) => v.stage.Spent? && v.seat != turn && Attestation(c.s, log, v.seat, sig)
    case Await => v.stage.Spent? && v.seat == turn
    case Gather(j) =>
      && v.stage.Gathering? && j < |nodes| && j != v.seat && |log| in nodes[j].attests
      && j in ExpectedAttestors(c.s, log, turn)
    case FinishFold => v.stage.Gathering? && CanFold(c.s, log, v.stage.sigs)
    case Stop => true
  }

  lemma FoldReady(c: Config, v: Local)
    requires Fine(c, v) && v.stage.Gathering? && |v.entries| < TWO64
    ensures var expected := ExpectedAttestors(c.s, v.entries, Turn(v.entries, c.s.n, c.s.stack));
            CanFold(c.s, v.entries, v.stage.sigs) <==>
            && (forall k :: 0 <= k < |expected| ==> expected[k] in v.stage.sigs)
            && Foldable(c.s, v.entries,
                        FoldEntry(|v.entries|, Turn(v.entries, c.s.n, c.s.stack), expected, v.stage.sigs))
  {
    hide AutoFoldValid;
    hide ExpectedAttestors;
    var target := Turn(v.entries, c.s.n, c.s.stack);
    var expected := ExpectedAttestors(c.s, v.entries, target);
    if forall k :: 0 <= k < |expected| ==> expected[k] in v.stage.sigs {
      FoldEntrySized(c.s, v.entries, target, expected, v.stage.sigs);
      assert IsFold(c.s, v.entries, v.stage.sigs, FoldEntry(|v.entries|, target, expected, v.stage.sigs));
    }
  }

  /** A runner decides exactly the moves of the protocol. */
  lemma AllowedIff(c: Config, nodes: seq<Replica>, v: Local, m: Move)
    requires Fine(c, v) && |nodes| == c.s.n
    ensures Enabled(c, nodes, View(c, v), m) <==>
            if m.Stop? then !v.stage.Halted? else Plays(c, View(c, v)) && Allowed(c, nodes, v, m)
  {
    hide Over;
    hide Out;
    hide Turn;
    hide Typed;
    hide Fine;
    hide Seated;
    hide AllSized;
    hide Proposals;
    hide Receipts;
    hide Attests;
    hide VerifyProposal;
    hide Attestation;
    hide ExpectedAttestors;
    hide CanFold;
    hide Foldable;
    FineParts(c, v);
    if v.stage.Gathering? && |v.entries| < TWO64 { FoldReady(c, v); }
    if v.stage.Tentative? { assert v.entries == v.entries[..|v.entries| - 1] + [v.entries[|v.entries| - 1]]; }
  }

  // --------------------------------------------------------------------------------- what it does

  /** What a move makes of what the runner keeps, its files apart. */
  ghost predicate Keeps(c: Config, nodes: seq<Replica>, v: Local, m: Move, w: Local)
    requires InRange(c, v) && |nodes| == c.s.n
  {
    var log := Front(v.entries, v.stage);
    var r, turn, slot, past := |log|, Turn(log, c.s.n, c.s.stack), (|log|, v.attempt), v.past;
    var u := v.(entries := log, files := w.files);
    match m
    case Propose(a, sig) =>
      && r < TWO64
      && var e := Entry(r, v.seat, a, sig, [], [], []);
         w == u.(stage := Held(e), past := past.(proposed := past.proposed[slot := e]))
    case Fetch => slot in nodes[turn].proposals && w == u.(stage := Held(nodes[turn].proposals[slot]))
    case Host =>
      && v.stage.Held?
      && w == u.(entries := log + [v.stage.entry], stage := Tentative({}),
                 past := past.(hosted := past.hosted[slot := v.stage.entry]))
    case Observe(j) =>
      v.stage.Tentative? && w == u.(entries := v.entries, stage := Tentative(v.stage.got + {j}))
    case Commit =>
      && v.stage.Tentative?
      && w == u.(entries := v.entries, attempt := 0, stage := Idle,
                 past := past.(how := past.how + [ByReceipts(v.attempt)]))
    case Abort =>
      w == u.(attempt := v.attempt + 1, stage := if v.attempt + 1 < c.maxAttempts then Idle else Spent)
    case Attest(sig) =>
      && |sig| == 64
      && w == u.(stage := Gathering(map[v.seat := sig]), past := past.(attested := past.attested[r := sig]))
    case Await => w == u.(stage := Gathering(map[]))
    case Gather(j) =>
      && v.stage.Gathering? && j < |nodes| && r in nodes[j].attests && |nodes[j].attests[r]| == 64
      && w == u.(stage := Gathering(v.stage.sigs[j := nodes[j].attests[r]]))
    case FinishFold =>
      && v.stage.Gathering? && r < TWO64
      && exists e :: IsFold(c.s, log, v.stage.sigs, e) &&
           w == u.(entries := log + [e], attempt := 0, stage := Idle, past := past.(how := past.how + [ByAutoFold]))
    case Stop => w == u.(stage := Halted)
  }

  /** What a move makes of the round files. */
  ghost predicate Stores(v: Local, m: Move, files: Files)
    requires Typed(v.files)
  {
    var r := |Front(v.entries, v.stage)|;
    var slot, proposals := (r, v.attempt), Proposals(v.files);
    var receipts, attests := Receipts(v.files, v.me), Attests(v.files, v.me);
    && Typed(files)
    && Proposals(files) == (if m.Propose? && r < TWO64 && v.seat < 256 then
                                proposals[slot := Entry(r, v.seat, m.action, m.sig, [], [], [])]
                              else if m.Commit? || m.Abort? then proposals - {slot} else proposals)
    && Receipts(files, v.me) == (if m.Host? then receipts + {slot}
                                   else if m.Commit? then DropRound(receipts, r - 1) else receipts)
    && Attests(files, v.me) == (if m.Attest? then attests[r := m.sig]
                                  else if m.Commit? then map q | q in attests && q != r - 1 :: attests[q] else attests)
  }

  /** A move that is not about files leaves them alone. */
  lemma StoresNothing(v: Local, m: Move)
    requires Typed(v.files) && !m.Propose? && !m.Host? && !m.Commit? && !m.Abort? && !m.Attest?
    ensures Stores(v, m, v.files)
  {
  }

  lemma StoresCommit(v: Local, files: Files)
    requires Typed(v.files) && Typed(files)
    requires var r := |Front(v.entries, v.stage)|;
             && Proposals(files) == Proposals(v.files) - {(r, v.attempt)}
             && Receipts(files, v.me) == DropRound(Receipts(v.files, v.me), r - 1)
             && Attests(files, v.me) == map q | q in Attests(v.files, v.me) && q != r - 1 :: Attests(v.files, v.me)[q]
    ensures Stores(v, Commit, files)
  {
    hide Typed;
    hide Proposals;
    hide Receipts;
    hide Attests;
    hide Front;
  }

  lemma AdmittedFits(s: Session, log: seq<Entry>, e: Entry)
    requires Proposable(s, log, e) || Foldable(s, log, e)
    ensures e.player < s.n && e.Sized()
  {
  }

  /** What an allowed move leaves can be replayed and signed over again. */
  lemma KeptIsFine(c: Config, nodes: seq<Replica>, v: Local, m: Move, w: Local)
    requires Fine(c, v) && InRange(c, v) && |nodes| == c.s.n && Enabled(c, nodes, View(c, v), m)
    requires Keeps(c, nodes, v, m, w) && Typed(w.files)
    ensures Fine(c, w)
  {
    hide Over;
    hide Out;
    hide Turn;
    hide Typed;
    hide Proposals;
    hide Receipts;
    hide Attests;
    hide Attestation;
    hide ExpectedAttestors;
    hide Proposable;
    hide Foldable;
    var log := Front(v.entries, v.stage);
    forall e | Proposable(c.s, log, e) ensures e.player < c.s.n && e.Sized() { AdmittedFits(c.s, log, e); }
    forall e | Foldable(c.s, log, e) ensures e.player < c.s.n && e.Sized() { AdmittedFits(c.s, log, e); }
  }

  lemma StoredIsNext(c: Config, nodes: seq<Replica>, v: Local, m: Move, files: Files)
    requires Fine(c, v) && |nodes| == c.s.n && Enabled(c, nodes, View(c, v), m) && Stores(v, m, files)
    ensures var y := Next(c, nodes, View(c, v), m);
            && y.proposals == Proposals(files)
            && y.receipts == Receipts(files, v.me) && y.attests == Attests(files, v.me)
  {
    hide Over;
    hide Out;
    hide Turn;
    hide Typed;
    hide Proposals;
    hide Receipts;
    hide Attests;
    hide Attestation;
    hide ExpectedAttestors;
    hide Proposable;
    hide Foldable;
    hide Mover;
    hide Expected;
  }

  lemma PlaceIsNext(c: Config, nodes: seq<Replica>, v: Local, m: Move, w: Local)
    requires Fine(c, v) && InRange(c, v) && |nodes| == c.s.n && Enabled(c, nodes, View(c, v), m)
    requires Keeps(c, nodes, v, m, w) && Fine(c, w)
    ensures var y := Next(c, nodes, View(c, v), m);
            y.seat == w.seat && y.log == Front(w.entries, w.stage) && y.attempt == w.attempt && y.phase == PhaseOf(w)
            && y.past == w.past && w.me == v.me
  {
    hide Over;
    hide Out;
    hide Turn;
    hide Typed;
    hide Proposals;
    hide Receipts;
    hide Attests;
    hide Attestation;
    hide ExpectedAttestors;
    hide Proposable;
    hide Foldable;
    hide Enabled;
    if v.stage.Tentative? { assert v.entries == v.entries[..|v.entries| - 1] + [v.entries[|v.entries| - 1]]; }
  }

  /** A runner that keeps and stores what a move asks for has made the move. */
  lemma KeptIsNext(c: Config, nodes: seq<Replica>, v: Local, m: Move, w: Local)
    requires Fine(c, v) && InRange(c, v) && |nodes| == c.s.n && Enabled(c, nodes, View(c, v), m)
    requires Keeps(c, nodes, v, m, w) && Stores(v, m, w.files)
    ensures Fine(c, w) && View(c, w) == Next(c, nodes, View(c, v), m)
  {
    hide Enabled;
    hide Next;
    hide Keeps;
    hide Typed;
    hide Proposals;
    hide Receipts;
    hide Attests;
    KeptIsFine(c, nodes, v, m, w);
    StoredIsNext(c, nodes, v, m, w.files);
    PlaceIsNext(c, nodes, v, m, w);
  }
}

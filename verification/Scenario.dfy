/** Building blocks for concrete runs of the round protocol: each extends a run by one move of one
    replica and says where that replica then is. */
module Scenario {
  import opened Bytes
  import opened Entries
  import opened Consensus

  /** A signature of 64 equal bytes. */
  function Sig(b: byte): (s: bytes)
    ensures |s| == 64 && s[0] == b
  {
    seq(64, _ => b)
  }

  ghost function Then(c: Config, trace: seq<seq<Replica>>, i: nat, m: Move): seq<seq<Replica>>
    requires trace != [] && i < |trace[|trace| - 1]|
    requires Enabled(c, trace[|trace| - 1], trace[|trace| - 1][i], m)
  {
    var a := trace[|trace| - 1];
    trace + [a[i := Next(c, a, a[i], m)]]
  }

  lemma ThenRuns(c: Config, trace: seq<seq<Replica>>, i: nat, m: Move)
    requires Run(c, trace) && i < |trace[|trace| - 1]|
    requires Enabled(c, trace[|trace| - 1], trace[|trace| - 1][i], m)
    ensures Run(c, Then(c, trace, i, m))
  {
    hide Enabled;
    hide Next;
    var a, next := trace[|trace| - 1], Then(c, trace, i, m);
    assert Moved(c, a, i, m, next[|trace|]);
    forall k | 0 <= k < |next| - 1 ensures Steps(c, next[k], next[k + 1]) {
      if k < |trace| - 1 { assert Steps(c, trace[k], trace[k + 1]); }
    }
  }

  ghost predicate At(x: Replica, seat: nat, log: seq<Entry>, attempt: nat, phase: Phase) {
    x.seat == seat && x.log == log && x.attempt == attempt && x.phase == phase
  }

  ghost function Last(trace: seq<seq<Replica>>): seq<Replica>
    requires trace != []
  {
    trace[|trace| - 1]
  }

  /** Only replica `i` moved. */
  ghost predicate Only(a: seq<Replica>, b: seq<Replica>, i: nat) {
    |b| == |a| && i < |a| && forall q :: 0 <= q < |a| && q != i ==> b[q] == a[q]
  }

  /** The round is open, `p` is to act and `e` is a proposal that verifies. */
  ghost predicate Playing(c: Config, log: seq<Entry>, p: nat, e: Entry) {
    && |log| < TWO64 && !Over(c.s, log) && Mover(c.s, log) == p && Proposable(c.s, log, e)
  }

  /** `p` signs and hosts its proposal, and its receipt. */
  lemma Proposes(c: Config, trace: seq<seq<Replica>>, p: nat, log: seq<Entry>, attempt: nat, e: Entry)
    returns (next: seq<seq<Replica>>)
    requires trace != [] && Run(c, trace) && p < |Last(trace)| && p < 256 && At(Last(trace)[p], p, log, attempt, Open)
    requires Playing(c, log, p, e) && e == Entry(|log|, p, e.action, e.signature, [], [], []) && |e.signature| == 64
    ensures next != [] && Run(c, next) && Only(Last(trace), Last(next), p)
    ensures At(Last(next)[p], p, log, attempt, Collecting(e, {})) && (|log|, attempt) in Last(next)[p].receipts
    ensures (|log|, attempt) in Last(next)[p].proposals && Last(next)[p].proposals[(|log|, attempt)] == e
  {
    hide Proposable;
    hide Mover;
    hide Over;
    hide Run;
    next := Then(c, trace, p, Propose(e.action, e.signature));
    ThenRuns(c, trace, p, Propose(e.action, e.signature));
    ThenRuns(c, next, p, Host);
    next := Then(c, next, p, Host);
  }

  /** `i` polls the proposal of `p`, verifies it and hosts its receipt. */
  lemma Joins(c: Config, trace: seq<seq<Replica>>, p: nat, i: nat, log: seq<Entry>, attempt: nat, e: Entry)
    returns (next: seq<seq<Replica>>)
    requires trace != [] && Run(c, trace) && p < |Last(trace)| && i < |Last(trace)| && i != p
    requires At(Last(trace)[i], i, log, attempt, Open) && Playing(c, log, p, e)
    requires (|log|, attempt) in Last(trace)[p].proposals && Last(trace)[p].proposals[(|log|, attempt)] == e
    ensures next != [] && Run(c, next) && Only(Last(trace), Last(next), i)
    ensures At(Last(next)[i], i, log, attempt, Collecting(e, {})) && (|log|, attempt) in Last(next)[i].receipts
  {
    hide Proposable;
    hide Mover;
    hide Over;
    hide Run;
    next := Then(c, trace, i, Fetch);
    ThenRuns(c, trace, i, Fetch);
    ThenRuns(c, next, i, Host);
    next := Then(c, next, i, Host);
  }

  /** `i` polls the receipt of `j`. */
  lemma Sees(c: Config, trace: seq<seq<Replica>>, i: nat, j: nat, log: seq<Entry>, attempt: nat, e: Entry, got: set<nat>)
    returns (next: seq<seq<Replica>>)
    requires trace != [] && Run(c, trace) && i < |Last(trace)| && j < |Last(trace)| && i != j
    requires At(Last(trace)[i], i, log, attempt, Collecting(e, got)) && |log| < TWO64 && !Over(c.s, log)
    requires (|log|, attempt) in Last(trace)[j].receipts
    ensures next != [] && Run(c, next) && Only(Last(trace), Last(next), i)
    ensures At(Last(next)[i], i, log, attempt, Collecting(e, got + {j}))
    ensures Last(next)[i].receipts == Last(trace)[i].receipts && trace <= next
  {
    hide Over;
    hide Run;
    ThenRuns(c, trace, i, Observe(j));
    next := Then(c, trace, i, Observe(j));
  }

  /** With every receipt it waits for, `i` commits; its own receipt stays. */
  lemma Closes(c: Config, trace: seq<seq<Replica>>, i: nat, log: seq<Entry>, attempt: nat, e: Entry, got: set<nat>)
    returns (next: seq<seq<Replica>>)
    requires trace != [] && Run(c, trace) && i < |Last(trace)|
    requires At(Last(trace)[i], i, log, attempt, Collecting(e, got)) && |log| < TWO64 && !Over(c.s, log)
    requires forall j :: 0 <= j < c.s.n && j != i && !Out(c.s, log + [e], j) ==> j in got
    ensures next != [] && Run(c, next) && Only(Last(trace), Last(next), i)
    ensures At(Last(next)[i], i, log + [e], 0, Open)
    ensures (|log|, attempt) in Last(trace)[i].receipts ==> (|log|, attempt) in Last(next)[i].receipts
    ensures trace <= next
  {
    hide Over;
    hide Out;
    hide Run;
    ThenRuns(c, trace, i, Commit);
    next := Then(c, trace, i, Commit);
  }

  /** The deadline of `i` fires; what it hosted for others to poll stays, but for the proposal. */
  lemma Expires(c: Config, trace: seq<seq<Replica>>, i: nat, log: seq<Entry>, attempt: nat, phase: Phase)
    returns (next: seq<seq<Replica>>)
    requires trace != [] && Run(c, trace) && i < |Last(trace)| && attempt + 1 < c.maxAttempts
    requires At(Last(trace)[i], i, log, attempt, phase) && (phase.Open? || phase.Holding? || phase.Collecting?)
    requires |log| < TWO64 && !Over(c.s, log)
    ensures next != [] && Run(c, next) && Only(Last(trace), Last(next), i)
    ensures At(Last(next)[i], i, log, attempt + 1, Open) && Last(next)[i].receipts == Last(trace)[i].receipts
  {
    hide Over;
    hide Run;
    ThenRuns(c, trace, i, Abort);
    next := Then(c, trace, i, Abort);
  }

  /** The last deadline fires. */
  lemma GivesUp(c: Config, trace: seq<seq<Replica>>, i: nat, log: seq<Entry>, attempt: nat, phase: Phase)
    returns (next: seq<seq<Replica>>)
    requires trace != [] && Run(c, trace) && i < |Last(trace)| && attempt + 1 == c.maxAttempts
    requires At(Last(trace)[i], i, log, attempt, phase) && (phase.Open? || phase.Holding? || phase.Collecting?)
    requires |log| < TWO64 && !Over(c.s, log)
    ensures next != [] && Run(c, next) && Only(Last(trace), Last(next), i)
    ensures At(Last(next)[i], i, log, attempt + 1, Exhausted)
  {
    hide Over;
    hide Run;
    ThenRuns(c, trace, i, Abort);
    next := Then(c, trace, i, Abort);
  }
}

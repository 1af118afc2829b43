/** A run of three seats in which a folded seat's replica commits an attempt that the other two abandon:
    two receipt commits of one round differ, and no auto-fold is involved. */
module Straggler {
  import opened Bytes
  import opened Entries
  import opened Betting
  import opened LogRules
  import opened Consensus
  import opened Scenario

  const FOLDS: Action := Action(FOLD, 0)
  const CHECKS: Action := Action(CHECK, 0)
  const RAISES: Action := Action(RAISE, 10)

  function Fold0(): Entry { Entry(0, 0, FOLDS, Sig(1), [], [], []) }
  function Check1(): Entry { Entry(1, 1, CHECKS, Sig(2), [], [], []) }
  function Raise1(): Entry { Entry(1, 1, RAISES, Sig(3), [], [], []) }

  /** Three seats, a hundred chips each, three attempts a round; one signature for each of the three
      proposals. */
  function Trio(): Config {
    Config(Session(3, 100, map[0 := 0, 1 := 1, 2 := 2],
                   (k: nat, p: bytes, s: bytes) =>
                     (s == Sig(1) && p == ProposalPayload([], FOLDS)) ||
                     (s == Sig(2) && p == ProposalPayload([Fold0()], CHECKS)) ||
                     (s == Sig(3) && p == ProposalPayload([Fold0()], RAISES))), 3)
  }

  lemma TrioSize()
    ensures Trio().s.n == 3 && Trio().maxAttempts == 3 && Fold0().coSigners == []
  {
  }

  lemma TrioIdeal()
    ensures Trio().s.Playable() && Trio().s.Ideal()
  {
    assert Sig(1)[0] != Sig(2)[0] && Sig(1)[0] != Sig(3)[0] && Sig(2)[0] != Sig(3)[0];
  }

  const DEALT: Table := Table([100, 100, 100], 0, 0, [0, 0, 0], [false, false, false], 0, false, 3)
  const FOLDED: Table := Table([100, 100, 100], 0, 0, [0, 0, 0], [true, false, false], 0, false, 2)

  lemma FirstTable()
    ensures After([], 3, 100) == DEALT && Mover(Trio().s, []) == 0 && !Over(Trio().s, [])
    ensures Proposable(Trio().s, [], Fold0())
  {
    LiveOfThree(false, false, false);
  }

  lemma SecondTable()
    ensures After([Fold0()], 3, 100) == FOLDED
  {
    FirstTable();
    LiveOfThree(true, false, false);
    AfterAppend([], Fold0(), 3, 100);
    assert [] + [Fold0()] == [Fold0()];
    assert [false, false, false][0 := true] == [true, false, false];
  }

  lemma SecondRound()
    ensures Mover(Trio().s, [Fold0()]) == 1 && !Over(Trio().s, [Fold0()])
    ensures Out(Trio().s, [Fold0()], 0) && !Out(Trio().s, [Fold0()], 1) && !Out(Trio().s, [Fold0()], 2)
    ensures Proposable(Trio().s, [Fold0()], Check1()) && Proposable(Trio().s, [Fold0()], Raise1())
  {
    SecondTable();
  }

  /** Neither a check nor a raise takes anybody out. */
  lemma StillIn(e: Entry)
    requires e == Check1() || e == Raise1()
    ensures forall j :: 0 <= j < 3 ==> (Out(Trio().s, [Fold0()] + [e], j) <==> j == 0)
  {
    SecondTable();
    AfterAppend([Fold0()], e, 3, 100);
  }

  /** Seats `a` and `b` poll each other's receipts and commit. */
  lemma Pair(trace: seq<seq<Replica>>, a: nat, b: nat, log: seq<Entry>, attempt: nat, e: Entry)
    returns (next: seq<seq<Replica>>)
    requires trace != [] && Run(Trio(), trace) && |Last(trace)| == 3 && a < 3 && b < 3 && a != b
    requires At(Last(trace)[a], a, log, attempt, Collecting(e, {})) && (|log|, attempt) in Last(trace)[a].receipts
    requires At(Last(trace)[b], b, log, attempt, Collecting(e, {})) && (|log|, attempt) in Last(trace)[b].receipts
    requires |log| < TWO64 && !Over(Trio().s, log)
    requires forall j :: 0 <= j < 3 && j != a && j != b ==> Out(Trio().s, log + [e], j)
    ensures next != [] && Run(Trio(), next) && |Last(next)| == 3
    ensures At(Last(next)[a], a, log + [e], 0, Open) && At(Last(next)[b], b, log + [e], 0, Open)
    ensures (|log|, attempt) in Last(next)[a].receipts && (|log|, attempt) in Last(next)[b].receipts
    ensures forall j :: 0 <= j < 3 && j != a && j != b ==> Last(next)[j] == Last(trace)[j]
  {
    hide Over;
    hide Out;
    hide Run;
    next := Sees(Trio(), trace, a, b, log, attempt, e, {});
    next := Closes(Trio(), next, a, log, attempt, e, {b});
    next := Sees(Trio(), next, b, a, log, attempt, e, {});
    next := Closes(Trio(), next, b, log, attempt, e, {a});
  }

  lemma ThreeStart()
    ensures Run(Trio(), [[Fresh(0), Fresh(1), Fresh(2)]])
  {
  }

  /** Round 0: seat 0 proposes to fold, and all three host receipts. */
  lemma FoldOffered() returns (trace: seq<seq<Replica>>)
    ensures trace != [] && Run(Trio(), trace) && |Last(trace)| == 3
    ensures forall i :: 0 <= i < 3 ==>
              At(Last(trace)[i], i, [], 0, Collecting(Fold0(), {})) && (0, 0) in Last(trace)[i].receipts
  {
    hide Over;
    hide Out;
    hide Mover;
    hide Proposable;
    hide Enabled;
    hide Next;
    hide Run;
    var c := Trio();
    FirstTable();
    ThreeStart();
    trace := [[Fresh(0), Fresh(1), Fresh(2)]];
    trace := Proposes(c, trace, 0, [], 0, Fold0());
    trace := Joins(c, trace, 0, 1, [], 0, Fold0());
    trace := Joins(c, trace, 0, 2, [], 0, Fold0());
  }

  /** All three commit. */
  lemma FoldCommitted() returns (trace: seq<seq<Replica>>)
    ensures trace != [] && Run(Trio(), trace) && |Last(trace)| == 3
    ensures forall i :: 0 <= i < 3 ==> At(Last(trace)[i], i, [Fold0()], 0, Open)
  {
    hide Over;
    hide Out;
    hide Mover;
    hide Proposable;
    hide Enabled;
    hide Next;
    hide Run;
    var c := Trio();
    FirstTable();
    SecondRound();
    trace := FoldOffered();
    assert [] + [Fold0()] == [Fold0()];
    trace := Pair(trace, 1, 2, [], 0, Fold0());
    trace := Sees(c, trace, 0, 1, [], 0, Fold0(), {});
    trace := Sees(c, trace, 0, 2, [], 0, Fold0(), {1});
    trace := Closes(c, trace, 0, [], 0, Fold0(), {1} + {2});
  }

  /** Round 1, attempt 0: seat 1 proposes a check and all three host receipts. Seat 0 sees the other two
      receipts and commits, while seats 1 and 2 time out. */
  lemma CheckCommittedByFolded() returns (trace: seq<seq<Replica>>)
    ensures trace != [] && Run(Trio(), trace) && |Last(trace)| == 3
    ensures At(Last(trace)[0], 0, [Fold0()] + [Check1()], 0, Open)
    ensures At(Last(trace)[1], 1, [Fold0()], 1, Open) && At(Last(trace)[2], 2, [Fold0()], 1, Open)
  {
    hide Over;
    hide Out;
    hide Mover;
    hide Proposable;
    hide Run;
    var c, log, e := Trio(), [Fold0()], Check1();
    SecondRound();
    StillIn(e);
    trace := FoldCommitted();
    trace := Proposes(c, trace, 1, log, 0, e);
    trace := Joins(c, trace, 1, 0, log, 0, e);
    trace := Joins(c, trace, 1, 2, log, 0, e);
    trace := Sees(c, trace, 0, 1, log, 0, e, {});
    trace := Sees(c, trace, 0, 2, log, 0, e, {1});
    trace := Closes(c, trace, 0, log, 0, e, {1} + {2});
    trace := Expires(c, trace, 1, log, 0, Collecting(e, {}));
    trace := Expires(c, trace, 2, log, 0, Collecting(e, {}));
  }

  /** Attempt 1: seat 1 proposes a raise instead, and seats 1 and 2 commit it. */
  lemma ReceiptCommitsDiffer() returns (trace: seq<seq<Replica>>)
    ensures Trio().s.Playable() && Trio().s.Ideal() && trace != [] && Run(Trio(), trace) && |Last(trace)| == 3
    ensures Last(trace)[0].log == [Fold0()] + [Check1()]
    ensures Last(trace)[1].log == Last(trace)[2].log == [Fold0()] + [Raise1()]
    ensures Last(trace)[0].log != Last(trace)[1].log
  {
    hide Over;
    hide Out;
    hide Mover;
    hide Proposable;
    hide Run;
    var c, log, e := Trio(), [Fold0()], Raise1();
    TrioIdeal();
    SecondRound();
    StillIn(e);
    trace := CheckCommittedByFolded();
    trace := Proposes(c, trace, 1, log, 1, e);
    trace := Joins(c, trace, 1, 2, log, 1, e);
    trace := Pair(trace, 1, 2, log, 1, e);
    assert ([Fold0()] + [Check1()])[1] != ([Fold0()] + [Raise1()])[1];
  }
}

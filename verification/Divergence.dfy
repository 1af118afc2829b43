/** A run of the round protocol after which two replicas hold different logs. */
module Divergence {
  import opened Bytes
  import opened Entries
  import opened Betting
  import opened LogRules
  import opened Consensus
  import opened Scenario

  const CHECKS: Action := Action(CHECK, 0)

  /** Two seats, a hundred chips each, three attempts a round (the default); one signature for seat 0's check and one
      for the auto-fold of seat 0. */
  function Heads(): Config {
    Config(Session(2, 100, map[0 := 0, 1 := 1],
                   (k: nat, p: bytes, s: bytes) =>
                     (s == Sig(1) && p == ProposalPayload([], CHECKS)) ||
                     (s == Sig(2) && p == AutoFoldPayload([], 0, 0))), 3)
  }

  function Check0(): Entry { Entry(0, 0, CHECKS, Sig(1), [], [], []) }
  function Fold0(): Entry { Entry(0, 0, Action(FOLD, 0), [], [1], [Sig(2)], []) }

  lemma HeadsIdeal()
    ensures Heads().s.Playable() && Heads().s.Ideal()
  {
    assert Sig(1)[0] != Sig(2)[0];
  }

  lemma Dealt()
    ensures After([], 2, 100) == Table([100, 100], 0, 0, [0, 0], [false, false], 0, false, 2)
    ensures Live([false, false]) == 2
    ensures Mover(Heads().s, []) == 0 && !Over(Heads().s, [])
  {
    assert [false, false][..1] == [false] && [false][..0] == [];
    assert Live([false]) == 1;
  }

  lemma AfterCheck()
    ensures Proposable(Heads().s, [], Check0())
    ensures !Out(Heads().s, [Check0()], 1)
  {
    Dealt();
    AfterAppend([], Check0(), 2, 100);
    assert [] + [Check0()] == [Check0()];
  }

  lemma OneAttestor()
    ensures Expected(Heads().s, []) == ExpectedAttestors(Heads().s, [], 0) == [1]
    ensures FoldEntry(0, 0, [1], map[1 := Sig(2)]) == Fold0()
    ensures Attestation(Heads().s, [], 1, Sig(2))
  {
    hide Attestors;
    Dealt();
    SecondAttests();
    SecondSigns();
  }

  lemma SecondAttests()
    ensures Attestors([false, false], 0, 2) == [1]
  {
    var f := [false, false];
    assert Attestors(f, 0, 0) == [] && Attestors(f, 0, 1) == [];
  }

  lemma SecondSigns()
    ensures Attestation(Heads().s, [], 1, Sig(2))
  {
    Dealt();
  }

  lemma FoldStands()
    ensures Foldable(Heads().s, [], Fold0())
  {
    hide ExpectedAttestors;
    Dealt();
    OneAttestor();
    assert CoSigned(Heads().s, AutoFoldPayload([], 0, 0), Fold0(), 0);
  }

  /** Seat 0 sees seat 1's receipt and commits, while all of seat 1's attempts time out. */
  lemma OneCommits() returns (trace: seq<seq<Replica>>)
    ensures trace != [] && Run(Heads(), trace) && |Last(trace)| == 2
    ensures At(Last(trace)[0], 0, [Check0()], 0, Open) && At(Last(trace)[1], 1, [], 3, Exhausted)
  {
    hide Mover;
    hide Over;
    hide Out;
    hide Proposable;
    hide Enabled;
    hide Next;
    var c := Heads();
    Dealt();
    AfterCheck();
    trace := [[Fresh(0), Fresh(1)]];
    trace := Proposes(c, trace, 0, [], 0, Check0());
    trace := Joins(c, trace, 0, 1, [], 0, Check0());
    trace := Sees(c, trace, 0, 1, [], 0, Check0(), {});
    assert [] + [Check0()] == [Check0()];
    trace := Closes(c, trace, 0, [], 0, Check0(), {1});
    trace := Expires(c, trace, 1, [], 0, Collecting(Check0(), {}));
    trace := Expires(c, trace, 1, [], 1, Open);
    trace := GivesUp(c, trace, 1, [], 2, Open);
  }

  /** Seat 1 then folds seat 0 on its own: the two replicas hold different first entries. */
  lemma LogsDiverge() returns (trace: seq<seq<Replica>>)
    ensures Heads().s.Playable() && Heads().s.Ideal() && trace != [] && Run(Heads(), trace)
    ensures |Last(trace)| == 2 && Last(trace)[0].log == [Check0()] && Last(trace)[1].log == [Fold0()]
    ensures Last(trace)[0].log != Last(trace)[1].log
  {
    var c := Heads();
    HeadsIdeal();
    Dealt();
    OneAttestor();
    FoldStands();
    trace := OneCommits();
    ThenRuns(c, trace, 1, Attest(Sig(2)));
    trace := Then(c, trace, 1, Attest(Sig(2)));
    ThenRuns(c, trace, 1, FinishFold);
    trace := Then(c, trace, 1, FinishFold);
  }
}

/** One hand from the first round to its end: which board cards are revealed when, and how it is
    decided (Run, finishHand and revealStreet in internal/round/runner.go). */
module HandFlow {
  import opened Entries
  import opened Betting
  import opened LogRules
  import opened BettingProofs

  /** The deck indices that `revealStreet` opens on entering a street. */
  function StreetCards(n: nat, street: nat): seq<nat> {
    if street == 1 then [2 * n, 2 * n + 1, 2 * n + 2]
    else if street == 2 then [2 * n + 3]
    else if street == 3 then [2 * n + 4]
    else []
  }

  /** The board, in order, as far as it is open on a street. */
  function BoardUpTo(n: nat, street: nat): seq<nat> {
    var board := [2 * n, 2 * n + 1, 2 * n + 2, 2 * n + 3, 2 * n + 4];
    board[..if street == 0 then 0 else if street == 1 then 3 else if street == 2 then 4 else 5]
  }

  lemma BoardGrows(n: nat, street: nat)
    ensures BoardUpTo(n, street + 1) == BoardUpTo(n, street) + StreetCards(n, street + 1)
  {
  }

  /** An admitted entry moves to the next street or stays, and never folds the last seat. */
  lemma NextStreet(s: Session, log: seq<Entry>, k: nat)
    requires s.Playable() && Accepted(s, log) && k < |log|
    ensures var t, u := After(log[..k], s.n, s.stack), After(log[..k + 1], s.n, s.stack);
            && (u.street == t.street || (!t.over && u.street == t.street + 1))
            && (Live(t.folded) >= 1 ==> Live(u.folded) >= 1)
  {
    var t, e := After(log[..k], s.n, s.stack), log[k];
    AcceptedPrefix(s, log, k);
    AcceptedSound(s, log[..k]);
    AdmittedPlays(s, log, k);
    AfterAppend(log[..k], e, s.n, s.stack);
    assert log[..k] + [e] == log[..k + 1];
    if !t.over {
      StepKeeps(t, s.n, s.stack, e.player, e.action);
      PlaySums(t, s.n, s.stack, e.player, e.action);
    }
  }

  // ---------------------------------------------------------------------------- finishing

  datatype Ending = Cancelled | Uncontested(winner: int) | ToShowdown(folded: seq<bool>)

  lemma {:induction false} OnlyOne(folded: seq<bool>, i: nat, j: nat)
    requires i < j < |folded| && !folded[i] && !folded[j]
    ensures Live(folded) >= 2
  {
    if j == |folded| - 1 {
      SomeLive(folded[..j], i);
    } else {
      OnlyOne(folded[..|folded| - 1], i, j);
    }
  }

  lemma {:induction false} SomeLive(folded: seq<bool>, i: nat)
    requires i < |folded| && !folded[i]
    ensures Live(folded) >= 1
  {
    if i < |folded| - 1 { SomeLive(folded[..|folded| - 1], i); }
  }

  /** With one seat left, it wins; with more, there is a showdown. */
  method FinishHand(folded: seq<bool>) returns (end: Ending)
    requires Live(folded) >= 1
    ensures end.ToShowdown? <==> Live(folded) >= 2
    ensures end.ToShowdown? ==> end.folded == folded
    ensures end.Uncontested? <==> Live(folded) == 1
    ensures end.Uncontested? ==> 0 <= end.winner < |folded|
    ensures end.Uncontested? ==> forall i :: 0 <= i < |folded| ==> (!folded[i] <==> i == end.winner)
  {
    var live := NumNonFolded(folded);
    if live <= 1 {
      LiveBound(folded);
      var winner := -1;
      for i := 0 to |folded|
        invariant winner == -1 && forall j :: 0 <= j < i ==> folded[j]
      {
        if !folded[i] {
          winner := i;
          break;
        }
      }
      forall i | 0 <= i < |folded| && !folded[i] ensures i == winner {
        if i != winner { OnlyOne(folded, if i < winner then i else winner, if i < winner then winner else i); }
      }
      return Uncontested(winner);
    }
    return ToShowdown(folded);
  }

  // -------------------------------------------------------------------------------- the loop

  /** After `log`, the open part of the board is exactly what has been revealed. */
  ghost predicate InStep(s: Session, log: seq<Entry>, shown: seq<nat>) {
    && Accepted(s, log)
    && shown == BoardUpTo(s.n, After(log, s.n, s.stack).street)
    && Live(After(log, s.n, s.stack).folded) >= 1
  }

  lemma InStepStart(s: Session)
    requires s.Playable()
    ensures InStep(s, [], [])
  {
    DealIsSound(s.n, s.stack);
    LiveBound(Deal(s.n, s.stack).folded);
  }

  lemma InStepNext(s: Session, log: seq<Entry>, e: Entry, shown: seq<nat>)
    requires s.Playable() && InStep(s, log, shown) && Accepted(s, log + [e])
    ensures var t, u := After(log, s.n, s.stack), After(log + [e], s.n, s.stack);
            InStep(s, log + [e], if u.street != t.street then shown + StreetCards(s.n, u.street) else shown)
  {
    hide Accepted;
    hide BoardUpTo;
    hide StreetCards;
    hide Live;
    AcceptedSeated(s, log);
    AcceptedSeated(s, log + [e]);
    NextStreet(s, log + [e], |log|);
    assert (log + [e])[..|log|] == log && (log + [e])[..|log| + 1] == log + [e];
    BoardGrows(s.n, After(log, s.n, s.stack).street);
  }

  lemma InStepShown(s: Session, log: seq<Entry>, shown: seq<nat>)
    requires InStep(s, log, shown)
    ensures Seated(log, s.n) && shown == BoardUpTo(s.n, After(log, s.n, s.stack).street)
  {
  }

  lemma InStepSeated(s: Session, log: seq<Entry>, shown: seq<nat>)
    requires InStep(s, log, shown)
    ensures Seated(log, s.n) && Live(After(log, s.n, s.stack).folded) >= 1
  {
  }

  /** A hand that is over with two seats in went through the river. */
  lemma BoardAtShowdown(s: Session, log: seq<Entry>, shown: seq<nat>)
    requires s.Playable() && InStep(s, log, shown) && After(log, s.n, s.stack).over
    requires Live(After(log, s.n, s.stack).folded) >= 2
    ensures shown == [2 * s.n, 2 * s.n + 1, 2 * s.n + 2, 2 * s.n + 3, 2 * s.n + 4]
  {
    AcceptedSound(s, log);
  }

  /** `Run` after the deal. `rounds` are the entries that its rounds commit, one each; when they run
      out before the hand is over, the context is cancelled. */
  method RunHand(s: Session, rounds: seq<Entry>) returns (log: seq<Entry>, shown: seq<nat>, end: Ending)
    requires s.Playable() && Accepted(s, rounds)
    ensures log <= rounds && InStep(s, log, shown)
    ensures end.Cancelled? ==> log == rounds && !After(log, s.n, s.stack).over
    ensures !end.Cancelled? ==> After(log, s.n, s.stack).over
    ensures end.ToShowdown? ==> shown == [2 * s.n, 2 * s.n + 1, 2 * s.n + 2, 2 * s.n + 3, 2 * s.n + 4]
    ensures end.ToShowdown? ==> end.folded == After(log, s.n, s.stack).folded && Live(end.folded) >= 2
    ensures end.Uncontested? ==> 0 <= end.winner < s.n && forall i :: 0 <= i < s.n ==>
                (!After(log, s.n, s.stack).folded[i] <==> i == end.winner)
  {
    hide InStep;
    hide StreetCards;
    hide Accepted;
    log, shown := [], [];
    InStepStart(s);
    while true
      invariant log <= rounds && InStep(s, log, shown)
      decreases |rounds| - |log|
    {
      InStepSeated(s, log, shown);
      var pre := Replay(log, s.n, s.stack);
      if pre.over {
        end := FinishHand(pre.folded);
        if end.ToShowdown? { BoardAtShowdown(s, log, shown); }
        return;
      }
      if |log| == |rounds| {
        return log, shown, Cancelled;
      }
      AcceptedPrefix(s, rounds, |log| + 1);
      assert rounds[..|log| + 1] == log + [rounds[|log|]];
      InStepNext(s, log, rounds[|log|], shown);
      AcceptedSeated(s, log + [rounds[|log|]]);
      log := log + [rounds[|log|]];
      var post := Replay(log, s.n, s.stack);
      if post.street != pre.street {
        shown := shown + StreetCards(s.n, post.street);
      }
    }
  }

  /** Enough rounds always finish the hand. */
  lemma EnoughRounds(s: Session, rounds: seq<Entry>)
    requires s.Playable() && Accepted(s, rounds) && |rounds| >= 4 * s.n + s.n * s.n * s.stack
    ensures After(rounds, s.n, s.stack).over && Live(After(rounds, s.n, s.stack).folded) >= 1
  {
    HandTerminates(s, rounds);
    StillLive(s, rounds, |rounds|);
    assert rounds[..|rounds|] == rounds;
  }

  lemma {:induction false} StillLive(s: Session, log: seq<Entry>, k: nat)
    requires s.Playable() && Accepted(s, log) && k <= |log|
    ensures Live(After(log[..k], s.n, s.stack).folded) >= 1
  {
    if k == 0 {
      DealIsSound(s.n, s.stack);
      LiveBound(Deal(s.n, s.stack).folded);
    } else {
      StillLive(s, log, k - 1);
      NextStreet(s, log, k - 1);
    }
  }
}

/** When a street closes (internal/game/state.go): which seats have acted and what they have paid. */
module StreetClosure {
  import opened Bytes
  import opened Entries
  import opened Arith
  import opened Sequences
  import opened Betting
  import opened LogRules
  import opened BettingProofs

  /** A betting window runs from the last raise, or from the opening of a street not raised yet:
      the seats folded when it opened and the seats that have acted in it, the raiser first. */
  datatype Window = Window(out: seq<bool>, actors: seq<nat>)

  function Advance(w: Window, t: Table, p: nat, a: Action): Window
    requires t.Shaped(|t.stacks|) && p < |t.stacks|
  {
    var r := Step(t, p, a);
    if r.street != t.street then Window(r.folded, [])
    else if a.kind == RAISE then Window(t.folded, [p])
    else Window(w.out, w.actors + [p])
  }

  function CurrentWindow(log: seq<Entry>, n: nat, stack: uint64): (w: Window)
    requires Seated(log, n)
    decreases |log|
  {
    if log == [] then Window(Deal(n, stack).folded, [])
    else
      var front, e := log[..|log| - 1], log[|log| - 1];
      Advance(CurrentWindow(front, n, stack), After(front, n, stack), e.player, e.action)
  }

  /** A seat that owes nothing more on this street: out, matched, or out of chips. */
  predicate Settled(t: Table, p: nat)
    requires t.Shaped(|t.stacks|) && p < |t.stacks|
  {
    t.folded[p] || t.contributions[p] == t.bet || t.stacks[p] == 0
  }

  ghost predicate ActorsSettled(w: Window, t: Table)
    requires t.Shaped(|t.stacks|)
  {
    && |w.out| == |t.stacks|
    && (forall p :: 0 <= p < |w.out| && w.out[p] ==> t.folded[p])
    && (forall i :: 0 <= i < |w.actors| ==>
          w.actors[i] < |t.stacks| && !w.out[w.actors[i]] && Settled(t, w.actors[i]))
  }

  /** The window's actors were in when it opened and are settled, and together with the counter
      they number the seats that were in. */
  ghost predicate WindowInv(w: Window, t: Table)
    requires t.Shaped(|t.stacks|)
  {
    ActorsSettled(w, t) && |w.actors| + t.unsettled == Live(w.out)
  }

  /** One action settles its seat and, unless it raises, unsettles nobody. */
  lemma PlaySettles(w: Window, t: Table, n: nat, stack: uint64, p: nat, a: Action)
    requires Playing(t, n, stack, p, a) && ActorsSettled(w, t)
    ensures Settled(Play(t, p, a), p)
    ensures a.kind != RAISE ==> ActorsSettled(Window(w.out, w.actors + [p]), Play(t, p, a))
  {
    PlayIsExact(t, n, stack, p, a);
    var u, v := Play(t, p, a), Window(w.out, w.actors + [p]);
    if a.kind != RAISE {
      forall i | 0 <= i < |v.actors| ensures !v.out[v.actors[i]] && Settled(u, v.actors[i]) {
        assert i < |w.actors| ==> Settled(t, w.actors[i]);
      }
    }
  }

  lemma AdvanceKeeps(w: Window, t: Table, n: nat, stack: uint64, p: nat, a: Action)
    requires Playing(t, n, stack, p, a) && WindowInv(w, t) && !Step(t, p, a).over
    ensures WindowInv(Advance(w, t, p, a), Step(t, p, a))
  {
    PlayIsExact(t, n, stack, p, a);
    PlaySettles(w, t, n, stack, p, a);
  }

  lemma {:induction false} WindowHolds(s: Session, log: seq<Entry>)
    requires s.Playable() && Accepted(s, log) && !After(log, s.n, s.stack).over
    ensures WindowInv(CurrentWindow(log, s.n, s.stack), After(log, s.n, s.stack))
    decreases |log|
  {
    if log == [] {
      LiveBound(Deal(s.n, s.stack).folded);
    } else {
      var front, e := log[..|log| - 1], log[|log| - 1];
      AcceptedPrefix(s, log, |log| - 1);
      AdmittedPlays(s, log, |log| - 1);
      AcceptedSound(s, front);
      WindowHolds(s, front);
      AdvanceKeeps(CurrentWindow(front, s.n, s.stack), After(front, s.n, s.stack), s.n, s.stack, e.player, e.action);
    }
  }

  // ---------------------------------------------------------------------- counting

  ghost function LiveSeats(folded: seq<bool>): set<nat> {
    set i | 0 <= i < |folded| && !folded[i]
  }

  lemma {:induction false} LiveSeatsCount(folded: seq<bool>)
    ensures |LiveSeats(folded)| == Live(folded)
  {
    if folded != [] {
      var k := |folded| - 1;
      LiveSeatsCount(folded[..k]);
      if folded[k] {
        assert LiveSeats(folded) == LiveSeats(folded[..k]);
      } else {
        assert LiveSeats(folded) == LiveSeats(folded[..k]) + {k};
      }
    }
  }

  ghost function Range(a: seq<nat>): set<nat> {
    set x | x in a
  }

  lemma DistinctSnoc(b: seq<nat>, x: nat)
    ensures Distinct(b + [x]) <==> Distinct(b) && x !in b
  {
    var a := b + [x];
    if Distinct(a) {
      forall i, j | 0 <= i < j < |b| ensures b[i] != b[j] { assert a[i] != a[j]; }
      forall i | 0 <= i < |b| ensures b[i] != x { assert a[i] != a[|b|]; }
    }
  }

  lemma {:induction false} RangeCount(a: seq<nat>)
    ensures |Range(a)| <= |a|
    ensures |Range(a)| == |a| <==> Distinct(a)
  {
    if a != [] {
      var k := |a| - 1;
      var b := a[..k];
      RangeCount(b);
      assert a == b + [a[k]];
      assert Range(a) == Range(b) + {a[k]};
      DistinctSnoc(b, a[k]);
      if a[k] in b { assert Range(a) == Range(b); }
    }
  }

  lemma SubsetSameSize(a: set<nat>, b: set<nat>)
    requires a <= b
    ensures a == b <==> |a| == |b|
  {
    assert b == a + (b - a);
    assert |b| == |a| + |b - a|;
  }

  /** As many actors as there are live seats, all of them live: everyone acted exactly when nobody
      acted twice. */
  lemma EveryoneActedIff(folded: seq<bool>, actors: seq<nat>)
    requires |actors| == Live(folded)
    requires forall i :: 0 <= i < |actors| ==> actors[i] < |folded| && !folded[actors[i]]
    ensures (forall p :: 0 <= p < |folded| && !folded[p] ==> p in actors) <==> Distinct(actors)
  {
    LiveSeatsCount(folded);
    RangeCount(actors);
    assert Range(actors) <= LiveSeats(folded);
    SubsetSameSize(Range(actors), LiveSeats(folded));
    assert Range(actors) == LiveSeats(folded) <==>
           forall p :: 0 <= p < |folded| && !folded[p] ==> p in actors by {
      if forall p :: 0 <= p < |folded| && !folded[p] ==> p in actors {
        assert LiveSeats(folded) <= Range(actors);
      }
      if Range(actors) == LiveSeats(folded) {
        forall p | 0 <= p < |folded| && !folded[p] ensures p in actors { assert p in LiveSeats(folded); }
      }
    }
  }

  // ------------------------------------------------------------------ closing a street

  lemma ClosingWindow(w: Window, t: Table, n: nat, stack: uint64, p: nat, a: Action)
    requires Playing(t, n, stack, p, a) && WindowInv(w, t) && Step(t, p, a).street != t.street
    ensures a.kind != RAISE
    ensures ActorsSettled(Window(w.out, w.actors + [p]), Play(t, p, a))
    ensures |w.actors| + 1 == Live(w.out)
  {
    PlayIsExact(t, n, stack, p, a);
    PlaySettles(w, t, n, stack, p, a);
  }

  lemma ClosureOfTable(w: Window, t: Table, n: nat, stack: uint64, p: nat, a: Action)
    requires Playing(t, n, stack, p, a) && WindowInv(w, t) && Step(t, p, a).street != t.street
    ensures var actors := w.actors + [p];
            && |w.out| == n
            && ((forall q :: 0 <= q < n && !w.out[q] ==> q in actors) <==> Distinct(actors))
            && (Distinct(actors) ==> forall q :: 0 <= q < n ==> Settled(Play(t, p, a), q))
  {
    ClosingWindow(w, t, n, stack, p, a);
    var actors := w.actors + [p];
    EveryoneActedIff(w.out, actors);
    if Distinct(actors) {
      forall q | 0 <= q < n ensures Settled(Play(t, p, a), q) {
        if !w.out[q] {
          var i :| 0 <= i < |actors| && actors[i] == q;
          assert Settled(Play(t, p, a), Window(w.out, actors).actors[i]);
        }
      }
    }
  }

  /** When the last entry of an accepted log closes a street: every seat that was in when the betting
      window opened has acted in it if and only if no seat acted twice in it, and in that case, at the
      instant before the bets are cleared, every seat is folded, has matched the bet, or is out of
      chips. */
  lemma StreetClosureIff(s: Session, log: seq<Entry>)
    requires s.Playable() && Accepted(s, log) && log != []
    requires After(log, s.n, s.stack).street != After(log[..|log| - 1], s.n, s.stack).street
    ensures var front, e := log[..|log| - 1], log[|log| - 1];
            var w, t := CurrentWindow(front, s.n, s.stack), After(front, s.n, s.stack);
            var actors := w.actors + [e.player];
            && |w.out| == s.n
            && ((forall q :: 0 <= q < s.n && !w.out[q] ==> q in actors) <==> Distinct(actors))
            && (Distinct(actors) ==> forall q :: 0 <= q < s.n ==> Settled(Play(t, e.player, e.action), q))
  {
    var front, e := log[..|log| - 1], log[|log| - 1];
    AcceptedPrefix(s, log, |log| - 1);
    AdmittedPlays(s, log, |log| - 1);
    AcceptedSound(s, front);
    WindowHolds(s, front);
    ClosureOfTable(CurrentWindow(front, s.n, s.stack), After(front, s.n, s.stack), s.n, s.stack, e.player, e.action);
  }

  // --------------------------------------------------------------- who has paid, exactly

  /** After a raise, a seat that has not acted since owes chips. */
  ghost predicate Owing(w: Window, t: Table)
    requires t.Shaped(|t.stacks|)
  {
    t.bet > 0 ==> forall q :: 0 <= q < |t.stacks| && q !in w.actors ==> t.contributions[q] < t.bet
  }

  lemma OwingKept(w: Window, t: Table, n: nat, stack: uint64, p: nat, a: Action)
    requires Playing(t, n, stack, p, a) && Owing(w, t) && !Step(t, p, a).over
    ensures Owing(Advance(w, t, p, a), Step(t, p, a))
  {
    PlayIsExact(t, n, stack, p, a);
    var v := Advance(w, t, p, a);
    assert p in v.actors || Step(t, p, a).bet == 0;
    forall q | 0 <= q < n && q !in v.actors && Step(t, p, a).bet > 0
      ensures Step(t, p, a).contributions[q] < Step(t, p, a).bet
    {
      assert a.kind != RAISE ==> q !in w.actors;
    }
  }

  lemma {:induction false} OwingHolds(s: Session, log: seq<Entry>)
    requires s.Playable() && Accepted(s, log) && !After(log, s.n, s.stack).over
    ensures Owing(CurrentWindow(log, s.n, s.stack), After(log, s.n, s.stack))
    decreases |log|
  {
    if log != [] {
      var front, e := log[..|log| - 1], log[|log| - 1];
      AcceptedPrefix(s, log, |log| - 1);
      AdmittedPlays(s, log, |log| - 1);
      AcceptedSound(s, front);
      OwingHolds(s, front);
      OwingKept(CurrentWindow(front, s.n, s.stack), After(front, s.n, s.stack), s.n, s.stack, e.player, e.action);
    }
  }

  /** At the close a seat owes nothing exactly when nobody raised, it is out, broke, or has acted. */
  lemma MatchedSeat(w: Window, t: Table, n: nat, stack: uint64, p: nat, a: Action, q: nat)
    requires Playing(t, n, stack, p, a) && WindowInv(w, t) && Owing(w, t) && Step(t, p, a).street != t.street && q < n
    ensures var u, actors := Play(t, p, a), w.actors + [p];
            Settled(u, q) <==> u.bet == 0 || u.folded[q] || u.stacks[q] == 0 || q in actors
  {
    ClosingWindow(w, t, n, stack, p, a);
    PlayIsExact(t, n, stack, p, a);
    PlaySums(t, n, stack, p, a);
    var u, actors := Play(t, p, a), w.actors + [p];
    if q in actors {
      var i :| 0 <= i < |actors| && actors[i] == q;
      assert Settled(u, Window(w.out, actors).actors[i]);
    } else {
      assert q != actors[|w.actors|] && q !in w.actors;
    }
  }

  ghost predicate AllSettled(u: Table, n: nat)
    requires u.Shaped(n)
  {
    forall q :: 0 <= q < n ==> Settled(u, q)
  }

  /** Nobody raised, or every seat still in with chips is among the actors. */
  ghost predicate PaidUp(u: Table, n: nat, actors: seq<nat>)
    requires u.Shaped(n)
  {
    u.bet == 0 || forall q :: 0 <= q < n && !u.folded[q] && u.stacks[q] > 0 ==> q in actors
  }

  lemma MatchedOfTable(w: Window, t: Table, n: nat, stack: uint64, p: nat, a: Action)
    requires Playing(t, n, stack, p, a) && WindowInv(w, t) && Owing(w, t) && Step(t, p, a).street != t.street
    ensures AllSettled(Play(t, p, a), n) <==> PaidUp(Play(t, p, a), n, w.actors + [p])
  {
    var u, actors := Play(t, p, a), w.actors + [p];
    forall q | 0 <= q < n
      ensures Settled(u, q) <==> u.bet == 0 || u.folded[q] || u.stacks[q] == 0 || q in actors
    {
      MatchedSeat(w, t, n, stack, p, a, q);
    }
  }

  /** When the last entry of an accepted log closes a street, every seat is folded, has matched the bet
      or is out of chips, if and only if nobody raised on that street or every seat still in with
      chips has acted since the last raise. */
  lemma StreetMatchedIff(s: Session, log: seq<Entry>)
    requires s.Playable() && Accepted(s, log) && log != []
    requires After(log, s.n, s.stack).street != After(log[..|log| - 1], s.n, s.stack).street
    ensures var front, e := log[..|log| - 1], log[|log| - 1];
            var u := Play(After(front, s.n, s.stack), e.player, e.action);
            var actors := CurrentWindow(front, s.n, s.stack).actors + [e.player];
            AllSettled(u, s.n) <==> PaidUp(u, s.n, actors)
  {
    hide AllSettled;
    hide PaidUp;
    var front, e := log[..|log| - 1], log[|log| - 1];
    AcceptedPrefix(s, log, |log| - 1);
    AdmittedPlays(s, log, |log| - 1);
    AcceptedSound(s, front);
    WindowHolds(s, front);
    OwingHolds(s, front);
    MatchedOfTable(CurrentWindow(front, s.n, s.stack), After(front, s.n, s.stack), s.n, s.stack, e.player, e.action);
  }

  // --------------------------------------------------------------------- without folds

  ghost predicate FoldFree(log: seq<Entry>) {
    forall i :: 0 <= i < |log| ==> log[i].action.kind != FOLD
  }

  ghost predicate NoneFolded(folded: seq<bool>) {
    forall p :: 0 <= p < |folded| ==> !folded[p]
  }

  lemma NoneFoldedTurn(folded: seq<bool>, start: nat)
    requires NoneFolded(folded) && start < |folded|
    ensures NextLive(folded, start, 0) == start
  {
    assert start % |folded| == start;
  }

  ghost predicate InOrder(log: seq<Entry>, n: nat)
    requires n > 0
  {
    forall k :: 0 <= k < |log| ==> log[k].player == k % n
  }

  lemma {:induction false} FoldFreeNoneFolded(s: Session, log: seq<Entry>)
    requires s.Playable() && Accepted(s, log) && FoldFree(log)
    ensures NoneFolded(After(log, s.n, s.stack).folded)
    decreases |log|
  {
    if log != [] {
      AcceptedPrefix(s, log, |log| - 1);
      FoldFreeNoneFolded(s, log[..|log| - 1]);
    }
  }

  /** Without folds seat `k mod n` plays entry `k`. */
  lemma FoldFreeTurns(s: Session, log: seq<Entry>)
    requires s.Playable() && Accepted(s, log) && FoldFree(log)
    ensures InOrder(log, s.n)
  {
    forall k | 0 <= k < |log| ensures log[k].player == k % s.n {
      AcceptedPrefix(s, log, k);
      FoldFreeNoneFolded(s, log[..k]);
      NonFoldHadTurn(s, log, k);
      NoneFoldedTurn(After(log[..k], s.n, s.stack).folded, k % s.n);
    }
  }

  /** `a` lists the last players of the log. */
  ghost predicate LastPlayers(a: seq<nat>, log: seq<Entry>) {
    |a| <= |log| && forall i :: 0 <= i < |a| ==> a[i] == log[|log| - |a| + i].player
  }

  lemma AdvanceLastPlayers(w: Window, t: Table, front: seq<Entry>, e: Entry)
    requires t.Shaped(|t.stacks|) && e.player < |t.stacks| && LastPlayers(w.actors, front)
    ensures LastPlayers(Advance(w, t, e.player, e.action).actors, front + [e])
  {
    var a, log := w.actors + [e.player as nat], front + [e];
    forall i | 0 <= i < |a| ensures a[i] == log[|log| - |a| + i].player {
      if i < |w.actors| { assert a[i] == front[|front| - |w.actors| + i].player; }
    }
  }

  lemma {:induction false} WindowIsLastPlayers(log: seq<Entry>, n: nat, stack: uint64)
    requires Seated(log, n)
    ensures LastPlayers(CurrentWindow(log, n, stack).actors, log)
    decreases |log|
  {
    if log != [] {
      var front, e := log[..|log| - 1], log[|log| - 1];
      WindowIsLastPlayers(front, n, stack);
      AdvanceLastPlayers(CurrentWindow(front, n, stack), After(front, n, stack), front, e);
      assert front + [e] == log;
    }
  }

  /** Up to `n` consecutive players of a log played in order are distinct. */
  lemma InOrderDistinct(a: seq<nat>, log: seq<Entry>, n: nat)
    requires n > 0 && LastPlayers(a, log) && InOrder(log, n) && |a| <= n
    ensures Distinct(a)
  {
    var base := |log| - |a|;
    forall i, j | 0 <= i < j < |a| ensures a[i] != a[j] {
      assert a[i] == log[base + i].player == (base + i) % n;
      assert a[j] == log[base + j].player == (base + j) % n;
      ModDiffers(n, base + i, base + j);
    }
  }

  /** On a log without folds, whenever the last entry closes a street every seat has acted since the
      last raise or the opening, and every seat has matched the bet or is out of chips. */
  lemma FoldFreeClosure(s: Session, front: seq<Entry>, e: Entry)
    requires s.Playable() && Accepted(s, front + [e]) && FoldFree(front + [e])
    requires After(front + [e], s.n, s.stack).street != After(front, s.n, s.stack).street
    ensures var actors := CurrentWindow(front, s.n, s.stack).actors + [e.player];
            var u := Play(After(front, s.n, s.stack), e.player, e.action);
            && (forall q :: 0 <= q < s.n ==> q in actors)
            && (forall q :: 0 <= q < s.n ==> u.contributions[q] == u.bet || u.stacks[q] == 0)
  {
    var log := front + [e];
    assert log[..|front|] == front;
    AcceptedPrefix(s, log, |front|);
    assert FoldFree(front) by { assert forall i :: 0 <= i < |front| ==> front[i] == log[i]; }
    FoldFreeTurns(s, log);
    FoldFreeNoneFolded(s, front);
    WindowIsLastPlayers(front, s.n, s.stack);
    AdmittedPlays(s, log, |front|);
    AcceptedSound(s, front);
    AfterAppend(front, e, s.n, s.stack);
    WindowHolds(s, front);
    FoldFreeTable(CurrentWindow(front, s.n, s.stack), After(front, s.n, s.stack), s.n, s.stack, front, e);
  }

  /** Before the street closes, the seats that acted are the last players of the log, in order. */
  lemma FoldFreeOrder(w: Window, t: Table, n: nat, stack: uint64, front: seq<Entry>, e: Entry)
    requires n >= 2 && Playing(t, n, stack, e.player, e.action) && WindowInv(w, t)
    requires Step(t, e.player, e.action).street != t.street && e.action.kind != FOLD
    requires LastPlayers(w.actors, front) && InOrder(front + [e], n)
    ensures Distinct(w.actors + [e.player as nat])
  {
    ClosingWindow(w, t, n, stack, e.player, e.action);
    ClosureOfTable(w, t, n, stack, e.player, e.action);
    LiveBound(w.out);
    AdvanceLastPlayers(w, t, front, e);
    InOrderDistinct(w.actors + [e.player as nat], front + [e], n);
  }

  lemma FoldFreeTable(w: Window, t: Table, n: nat, stack: uint64, front: seq<Entry>, e: Entry)
    requires n >= 2 && Playing(t, n, stack, e.player, e.action) && WindowInv(w, t)
    requires Step(t, e.player, e.action).street != t.street && e.action.kind != FOLD && NoneFolded(t.folded)
    requires LastPlayers(w.actors, front) && InOrder(front + [e], n)
    ensures forall q :: 0 <= q < n ==> q in w.actors + [e.player]
    ensures var u := Play(t, e.player, e.action);
            forall q :: 0 <= q < n ==> u.contributions[q] == u.bet || u.stacks[q] == 0
  {
    FoldFreeOrder(w, t, n, stack, front, e);
    ClosingWindow(w, t, n, stack, e.player, e.action);
    LiveBound(w.out);
    ClosureOfTable(w, t, n, stack, e.player, e.action);
    PlayIsExact(t, n, stack, e.player, e.action);
    var u := Play(t, e.player, e.action);
    forall q | 0 <= q < n ensures u.contributions[q] == u.bet || u.stacks[q] == 0 { assert Settled(u, q); }
  }
}

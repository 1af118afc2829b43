/** What every accepted log keeps: chips, the settlement counter, the bound on its length and
    when a street closes. */
module BettingProofs {
  import opened Bytes
  import opened Entries
  import opened Betting
  import opened LogRules

  function Sum(s: seq<uint64>): (t: nat)
  {
    if s == [] then 0 else Sum(s[..|s| - 1]) + s[|s| - 1]
  }

  lemma {:induction false} SumUpdate(s: seq<uint64>, i: nat, v: uint64)
    requires i < |s|
    ensures Sum(s[i := v]) == Sum(s) - s[i] + v
  {
    var k := |s| - 1;
    if i < k {
      SumUpdate(s[..k], i, v);
      assert s[i := v][..k] == s[..k][i := v];
    } else {
      assert s[i := v][..k] == s[..k];
    }
  }

  lemma {:induction false} SumAtLeast(s: seq<uint64>, i: nat)
    requires i < |s|
    ensures s[i] <= Sum(s)
  {
    if i < |s| - 1 { SumAtLeast(s[..|s| - 1], i); }
  }

  lemma {:induction false} SumConstant(n: nat, v: uint64)
    ensures Sum(seq(n, _ => v)) == n * v
  {
    if n > 0 {
      SumConstant(n - 1, v);
      assert seq(n, _ => v)[..n - 1] == seq(n - 1, _ => v);
    }
  }

  lemma {:induction false} LiveFold(folded: seq<bool>, p: nat)
    requires p < |folded| && !folded[p]
    ensures Live(folded[p := true]) == Live(folded) - 1
  {
    var k := |folded| - 1;
    if p < k {
      LiveFold(folded[..k], p);
      assert folded[p := true][..k] == folded[..k][p := true];
    } else {
      assert folded[p := true][..k] == folded[..k];
    }
  }

  lemma {:induction false} LiveBound(folded: seq<bool>)
    ensures Live(folded) <= |folded|
    ensures Live(folded) == |folded| <==> forall i :: 0 <= i < |folded| ==> !folded[i]
    ensures Live(folded) > 0 ==> exists i :: 0 <= i < |folded| && !folded[i]
  {
    if folded != [] { LiveBound(folded[..|folded| - 1]); }
  }

  // ------------------------------------------------------------------- the invariant

  /** Chips are conserved, no contribution exceeds the bet, the hand is over exactly when one
      seat is left or the last street closed, and an open hand has between one and all of the
      unfolded seats still to act. */
  ghost predicate Sound(t: Table, n: nat, stack: uint64) {
    && t.Shaped(n)
    && Sum(t.stacks) + t.pot == n * stack
    && t.bet <= stack
    && (forall i :: 0 <= i < n ==> t.contributions[i] <= t.bet && t.stacks[i] + t.contributions[i] <= stack)
    && t.street <= SHOWDOWN
    && (t.over <==> Live(t.folded) <= 1 || t.street == SHOWDOWN)
    && (!t.over ==> 1 <= t.unsettled <= Live(t.folded))
  }

  /** What remains to be played: settled seats, chips behind and streets to come. */
  function Potential(t: Table): int {
    t.unsettled + |t.stacks| * Sum(t.stacks) + |t.stacks| * (3 - t.street)
  }

  ghost predicate Playing(t: Table, n: nat, stack: uint64, p: nat, a: Action) {
    && n * stack < TWO64 && Sound(t, n, stack) && !t.over && p < n && !t.folded[p]
    && (a.kind == FOLD || ValidateAction(t, p, a) == Ok)
  }

  /** The chips a legal action costs, computed without wrap-around. */
  function Cost(t: Table, p: nat, a: Action): int
    requires t.Shaped(|t.stacks|) && p < |t.stacks|
  {
    if a.kind == CALL then
      if t.bet - t.contributions[p] <= t.stacks[p] then t.bet - t.contributions[p] else t.stacks[p]
    else if a.kind == RAISE then a.amount - t.contributions[p]
    else 0
  }

  lemma SubExact(a: uint64, b: uint64)
    requires b <= a
    ensures Sub64(a, b) == a - b
  {
  }

  lemma AddExact(a: uint64, b: uint64)
    requires a + b < TWO64
    ensures Add64(a, b) == a + b
  {
  }

  /** None of the subtractions or additions of a legal action wraps, and a raise sets the bet to
      exactly its raise-to amount. */
  lemma PlayIsExact(t: Table, n: nat, stack: uint64, p: nat, a: Action)
    requires Playing(t, n, stack, p, a)
    ensures var r, c := Play(t, p, a), Cost(t, p, a);
            && 0 <= c <= t.stacks[p]
            && r.stacks == t.stacks[p := t.stacks[p] - c]
            && t.contributions[p] + c < TWO64 && r.contributions == t.contributions[p := t.contributions[p] + c]
            && r.pot == t.pot + c
            && r.bet == (if a.kind == RAISE then a.amount else t.bet)
            && r.folded == (if a.kind == FOLD then t.folded[p := true] else t.folded)
            && r.street == t.street && !r.over
            && r.unsettled == if a.kind == RAISE then Live(t.folded) - 1 else t.unsettled - 1
  {
    SumAtLeast(t.stacks, p);
    var c := Cost(t, p, a);
    if a.kind == CALL { SubExact(t.bet, t.contributions[p]); }
    if a.kind == RAISE { SubExact(a.amount, t.contributions[p]); }
    SubExact(t.stacks[p], c);
    AddExact(t.contributions[p], c);
    AddExact(t.pot, c);
  }

  lemma PlaySums(t: Table, n: nat, stack: uint64, p: nat, a: Action)
    requires Playing(t, n, stack, p, a)
    ensures var r := Play(t, p, a);
            && Sum(r.stacks) + r.pot == n * stack
            && Sum(r.stacks) == Sum(t.stacks) - Cost(t, p, a)
            && (a.kind == RAISE ==> Cost(t, p, a) > 0)
            && Live(r.folded) == (if a.kind == FOLD then Live(t.folded) - 1 else Live(t.folded))
            && r.bet <= stack
            && forall i :: 0 <= i < n ==> r.contributions[i] <= r.bet && r.stacks[i] + r.contributions[i] <= stack
  {
    PlayIsExact(t, n, stack, p, a);
    SumUpdate(t.stacks, p, t.stacks[p] - Cost(t, p, a));
    if a.kind == FOLD { LiveFold(t.folded, p); }
  }

  /** One admitted action keeps the invariant, opens at most one further street, and lowers the
      potential unless it ends the hand. */
  lemma StepKeeps(t: Table, n: nat, stack: uint64, p: nat, a: Action)
    requires Playing(t, n, stack, p, a)
    ensures var r := Step(t, p, a);
            && Sound(r, n, stack)
            && t.street <= r.street <= t.street + 1
            && (!r.over ==> Potential(r) < Potential(t))
  {
    PlayIsExact(t, n, stack, p, a);
    PlaySums(t, n, stack, p, a);
    var u, r := Play(t, p, a), Step(t, p, a);
    LiveBound(u.folded);
    assert 0 <= u.unsettled <= Live(u.folded);
    if !r.over {
      PotentialDrops(t, n, Cost(t, p, a), u, r);
    }
  }

  lemma PotentialDrops(t: Table, n: nat, c: nat, u: Table, r: Table)
    requires t.Shaped(n) && u.Shaped(n) && r == Close(u) && !r.over && Live(u.folded) <= n
    requires u.street == t.street && Sum(u.stacks) == Sum(t.stacks) - c
    requires if c > 0 then u.unsettled < t.unsettled + n else u.unsettled < t.unsettled
    ensures Potential(r) < Potential(t)
  {
    hide Sum;
    hide Live;
    assert n * Sum(u.stacks) == n * Sum(t.stacks) - n * c;
    assert c > 0 ==> n * c >= n;
    assert n * (3 - (t.street + 1)) == n * (3 - t.street) - n;
    assert n * c >= 0;
  }

  lemma DealIsSound(n: nat, stack: uint64)
    requires n >= 2 && n * stack < TWO64
    ensures Sound(Deal(n, stack), n, stack) && Potential(Deal(n, stack)) == 4 * n + n * n * stack
  {
    var t := Deal(n, stack);
    SumConstant(n, stack);
    LiveBound(t.folded);
    assert n * (n * stack) == n * n * stack;
  }

  /** Every accepted log leads to a sound table: chips and pot always add up to what was dealt,
      no contribution is above the bet, and the settlement counter of an open hand lies between
      one and the number of unfolded seats, of which there are at least two. */
  lemma {:induction false} AcceptedSound(s: Session, log: seq<Entry>)
    requires s.Playable() && Accepted(s, log)
    ensures Sound(After(log, s.n, s.stack), s.n, s.stack)
    decreases |log|
  {
    if log == [] {
      DealIsSound(s.n, s.stack);
    } else {
      var front, e := log[..|log| - 1], log[|log| - 1];
      AcceptedPrefix(s, log, |log| - 1);
      AcceptedSound(s, front);
      AdmittedPlays(s, log, |log| - 1);
      var t := After(front, s.n, s.stack);
      if !t.over { StepKeeps(t, s.n, s.stack, e.player, e.action); }
    }
  }

  /** In an open hand the seat to act is unfolded. */
  lemma TurnUnfolded(s: Session, log: seq<Entry>)
    requires s.Playable() && Accepted(s, log) && !After(log, s.n, s.stack).over
    ensures Turn(log, s.n, s.stack) < s.n && !After(log, s.n, s.stack).folded[Turn(log, s.n, s.stack)]
  {
    AcceptedSound(s, log);
    var folded := After(log, s.n, s.stack).folded;
    LiveBound(folded);
    var seat :| 0 <= seat < s.n && !folded[seat];
    TurnIsLive(folded, |log| % s.n, seat);
  }

  /** Which actions are legal, by the kind on the wire: a fold (0), a check (1) when the bet is matched, a call
      (2) when it is not, all three for no amount, and a raise (3) to an amount above the bet that can be paid. */
  ghost predicate Legal(t: Table, p: nat, a: Action)
    requires t.Shaped(|t.stacks|) && p < |t.stacks|
  {
    || (a.kind == 0 && a.amount == 0)
    || (a.kind == 1 && a.amount == 0 && t.contributions[p] == t.bet)
    || (a.kind == 2 && a.amount == 0 && t.contributions[p] < t.bet)
    || (a.kind == 3 && t.bet < a.amount && a.amount - t.contributions[p] <= t.stacks[p])
  }

  /** An action passes exactly in an open hand, for a seat that is in, and if it is legal there. */
  lemma LegalIff(t: Table, n: nat, stack: uint64, p: nat, a: Action)
    requires Sound(t, n, stack)
    ensures ValidateAction(t, p, a) == Ok <==> !t.over && p < n && !t.folded[p] && Legal(t, p, a)
  {
    if p < n {
      SubExact(t.bet, t.contributions[p]);
      if t.bet < a.amount { SubExact(a.amount, t.contributions[p]); }
    }
  }

  /** What each kind on the wire does: 0 folds the seat, 1 changes nothing, 2 pays up to the bet or all there is,
      3 raises the bet to the amount and has every other seat answer; all but 3 settle one seat. */
  ghost predicate DoneByKind(t: Table, p: nat, a: Action, r: Table)
    requires t.Shaped(|t.stacks|) && r.Shaped(|t.stacks|) && p < |t.stacks|
  {
    var owed, paid := t.bet as int - t.contributions[p] as int, t.stacks[p] as int - r.stacks[p] as int;
    && r.pot == t.pot + paid && r.contributions[p] == t.contributions[p] + paid
    && a.kind <= 3
    && (a.kind == 0 ==> r == t.(folded := t.folded[p := true], unsettled := t.unsettled - 1))
    && (a.kind == 1 ==> r == t.(unsettled := t.unsettled - 1))
    && (a.kind == 2 ==> r.bet == t.bet && r.folded == t.folded && r.unsettled == t.unsettled - 1
                        && paid == if owed <= t.stacks[p] then owed else t.stacks[p])
    && (a.kind == 3 ==> r.bet == r.contributions[p] == a.amount && r.folded == t.folded
                        && r.unsettled == Live(t.folded) - 1)
  }

  lemma PlayByKind(t: Table, n: nat, stack: uint64, p: nat, a: Action)
    requires Playing(t, n, stack, p, a)
    ensures DoneByKind(t, p, a, Play(t, p, a))
  {
    hide Sum;
    hide Live;
    LegalIff(t, n, stack, p, a);
    PlayIsExact(t, n, stack, p, a);
    assert t.stacks[p := t.stacks[p]] == t.stacks && t.contributions[p := t.contributions[p]] == t.contributions;
  }

  /** A street is over exactly when the last unsettled seat does anything but raise and two seats are left: then
      the next one opens with no bet, nothing paid into it and every seat left unsettled, or the hand is over
      after four. */
  lemma StreetMovesIff(t: Table, n: nat, stack: uint64, p: nat, a: Action)
    requires Playing(t, n, stack, p, a)
    ensures var u, r := Play(t, p, a), Step(t, p, a);
            var moves := a.kind != 3 && t.unsettled == 1 && Live(u.folded) >= 2;
            && r.street == (if moves then t.street + 1 else t.street)
            && (r.over <==> Live(u.folded) <= 1 || r.street == 4)
            && r.stacks == u.stacks && r.pot == u.pot && r.folded == u.folded
            && (moves && !r.over ==> r.bet == 0 && r.unsettled == Live(u.folded)
                                     && forall i :: 0 <= i < n ==> r.contributions[i] == 0)
            && (!moves && !r.over ==> r == u)
  {
    PlayIsExact(t, n, stack, p, a);
    PlayByKind(t, n, stack, p, a);
  }

  /** For every unfolded seat of an open hand exactly one of check and call is legal, and a raise is
      legal exactly when it exceeds the bet and the seat can pay for it. */
  lemma LegalMoves(t: Table, n: nat, stack: uint64, p: nat, amount: uint64)
    requires Sound(t, n, stack) && !t.over && p < n && !t.folded[p]
    ensures (ValidateAction(t, p, Action(CHECK, 0)) == Ok) != (ValidateAction(t, p, Action(CALL, 0)) == Ok)
    ensures ValidateAction(t, p, Action(RAISE, amount)) == Ok <==>
            t.bet < amount && amount as int <= t.contributions[p] as int + t.stacks[p] as int
  {
    LegalIff(t, n, stack, p, Action(CHECK, 0));
    LegalIff(t, n, stack, p, Action(CALL, 0));
    LegalIff(t, n, stack, p, Action(RAISE, amount));
  }

  // ------------------------------------------------------------------ the hand ends

  lemma PotentialAtStart(n: nat, stack: uint64)
    requires 2 <= n <= 255 && n * stack < TWO64
    ensures Potential(Deal(n, stack)) <= 4 * n + n * n * stack
  {
    DealIsSound(n, stack);
  }

  /** Every admitted entry that leaves the hand open lowers the potential. */
  lemma PotentialStep(s: Session, log: seq<Entry>)
    requires s.Playable() && Accepted(s, log) && log != [] && !After(log, s.n, s.stack).over
    ensures var front := log[..|log| - 1];
            && Accepted(s, front) && !After(front, s.n, s.stack).over
            && Potential(After(log, s.n, s.stack)) < Potential(After(front, s.n, s.stack))
  {
    hide Accepted;
    hide Potential;
    hide Sound;
    hide Play;
    hide Close;
    var front, e := log[..|log| - 1], log[|log| - 1];
    AcceptedPrefix(s, log, |log| - 1);
    AcceptedSeated(s, log);
    AcceptedSeated(s, front);
    AcceptedSound(s, front);
    AdmittedPlays(s, log, |log| - 1);
    StepKeeps(After(front, s.n, s.stack), s.n, s.stack, e.player, e.action);
  }

  lemma {:induction false} PotentialBound(s: Session, log: seq<Entry>)
    requires s.Playable() && Accepted(s, log) && !After(log, s.n, s.stack).over
    ensures Potential(After(log, s.n, s.stack)) + |log| <= 4 * s.n + s.n * s.n * s.stack
    decreases |log|
  {
    hide Accepted;
    hide Potential;
    if log == [] {
      PotentialAtStart(s.n, s.stack);
    } else {
      PotentialStep(s, log);
      PotentialBound(s, log[..|log| - 1]);
    }
  }

  lemma OpenHasPotential(t: Table, n: nat, stack: uint64)
    requires Sound(t, n, stack) && !t.over
    ensures Potential(t) >= 1
  {
    assert n * Sum(t.stacks) >= 0;
    assert n * (3 - t.street) >= 0;
  }

  /** Every hand ends: an accepted log of `4n + n*n*stack` entries is over. */
  lemma HandTerminates(s: Session, log: seq<Entry>)
    requires s.Playable() && Accepted(s, log) && |log| >= 4 * s.n + s.n * s.n * s.stack
    ensures After(log, s.n, s.stack).over
  {
    var t := After(log, s.n, s.stack);
    if !t.over {
      PotentialBound(s, log);
      AcceptedSound(s, log);
      OpenHasPotential(t, s.n, s.stack);
    }
  }
}

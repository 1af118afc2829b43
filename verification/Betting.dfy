/** The betting state machine (internal/game/state.go) and the turn rule
    (`ExpectedNextPlayer`, internal/game/log.go). */
module Betting {
  import opened Bytes
  import opened Entries
  import opened Arith

  const SHOWDOWN: nat := 4

  /** `State` together with Replay's local counter `unsettled`. */
  datatype Table = Table(
    stacks: seq<uint64>,
    pot: uint64,
    bet: uint64,
    contributions: seq<uint64>,
    folded: seq<bool>,
    street: nat,
    over: bool,
    unsettled: int)
  {
    predicate Shaped(n: nat) {
      |stacks| == |contributions| == |folded| == n
    }
  }

  // ------------------------------------------------------------ uint64 arithmetic

  function Add64(a: uint64, b: uint64): uint64 { (a + b) % TWO64 }
  function Sub64(a: uint64, b: uint64): uint64 { (a - b) % TWO64 }
  function Min(a: uint64, b: uint64): uint64 { if a <= b then a else b }

  // ------------------------------------------------------------------- folded seats

  /** How many seats are still in the hand. */
  function Live(folded: seq<bool>): nat {
    if folded == [] then 0
    else Live(folded[..|folded| - 1]) + (if folded[|folded| - 1] then 0 else 1)
  }

  method NumNonFolded(folded: seq<bool>) returns (k: nat)
    ensures k == Live(folded)
  {
    k := 0;
    for i := 0 to |folded|
      invariant k == Live(folded[..i])
    {
      assert folded[..i + 1][..i] == folded[..i];
      if !folded[i] { k := k + 1; }
    }
    assert folded[..|folded|] == folded;
  }

  lemma LiveOfThree(a: bool, b: bool, c: bool)
    ensures Live([a, b, c]) == (if a then 0 else 1) + (if b then 0 else 1) + (if c then 0 else 1)
  {
    assert [a, b, c][..2] == [a, b] && [a, b][..1] == [a] && [a][..0] == [];
    assert Live([a]) == if a then 0 else 1;
    assert Live([a, b]) == Live([a]) + if b then 0 else 1;
  }

  // ------------------------------------------------------------------------- Replay

  function Deal(n: nat, stack: uint64): (t: Table)
    ensures t.Shaped(n)
  {
    Table(seq(n, _ => stack), 0, 0, seq(n, _ => 0), seq(n, _ => false), 0, false, n)
  }

  /** Moves `cost` chips of seat `p` into the pot. */
  function Pay(t: Table, p: nat, cost: uint64): (r: Table)
    requires p < |t.stacks| == |t.contributions|
  {
    t.(stacks := t.stacks[p := Sub64(t.stacks[p], cost)],
       contributions := t.contributions[p := Add64(t.contributions[p], cost)],
       pot := Add64(t.pot, cost))
  }

  /** The action itself, before the street-closing test. An unknown kind changes nothing. */
  function Play(t: Table, p: nat, a: Action): (r: Table)
    requires t.Shaped(|t.stacks|) && p < |t.stacks|
    ensures r.Shaped(|t.stacks|)
  {
    if a.kind == FOLD then
      t.(folded := t.folded[p := true], unsettled := t.unsettled - 1)
    else if a.kind == CHECK then
      t.(unsettled := t.unsettled - 1)
    else if a.kind == CALL then
      Pay(t, p, Min(Sub64(t.bet, t.contributions[p]), t.stacks[p])).(unsettled := t.unsettled - 1)
    else if a.kind == RAISE then
      var u := Pay(t, p, Min(Sub64(a.amount, t.contributions[p]), t.stacks[p]));
      u.(bet := u.contributions[p], unsettled := Live(t.folded) - 1)
    else t
  }

  /** Ends the hand or opens the next street when the action settled the current one. */
  function Close(t: Table): (r: Table)
    requires t.Shaped(|t.stacks|)
    ensures r.Shaped(|t.stacks|)
  {
    if Live(t.folded) <= 1 then t.(over := true)
    else if t.unsettled != 0 then t
    else if t.street + 1 >= SHOWDOWN then t.(street := t.street + 1, over := true)
    else t.(street := t.street + 1, bet := 0,
            contributions := seq(|t.contributions|, _ => 0), unsettled := Live(t.folded))
  }

  function Step(t: Table, p: nat, a: Action): (r: Table)
    requires t.Shaped(|t.stacks|) && p < |t.stacks|
    ensures r.Shaped(|t.stacks|)
  {
    if t.over then t else Close(Play(t, p, a))
  }

  /** Seat numbers index the state's slices: an entry naming no seat would panic. */
  predicate Seated(log: seq<Entry>, n: nat) {
    forall i :: 0 <= i < |log| ==> log[i].player < n
  }

  /** The state after a log, one entry at a time. */
  function After(log: seq<Entry>, n: nat, stack: uint64): (t: Table)
    requires Seated(log, n)
    ensures t.Shaped(n)
    decreases |log|
  {
    if log == [] then Deal(n, stack)
    else
      var e := log[|log| - 1];
      Step(After(log[..|log| - 1], n, stack), e.player, e.action)
  }

  lemma AfterAppend(log: seq<Entry>, e: Entry, n: nat, stack: uint64)
    requires Seated(log, n) && e.player < n
    ensures Seated(log + [e], n)
    ensures After(log + [e], n, stack) == Step(After(log, n, stack), e.player, e.action)
  {
    assert (log + [e])[..|log|] == log;
  }

  lemma {:induction false} OverStays(log: seq<Entry>, k: nat, n: nat, stack: uint64)
    requires Seated(log, n) && k <= |log| && After(log[..k], n, stack).over
    ensures After(log, n, stack) == After(log[..k], n, stack)
    decreases |log|
  {
    if k < |log| {
      assert log[..|log| - 1][..k] == log[..k];
      OverStays(log[..|log| - 1], k, n, stack);
    } else {
      assert log[..k] == log;
    }
  }

  /** `Replay`: one loop over the entries that updates the state. */
  method Replay(log: seq<Entry>, n: nat, stack: uint64) returns (t: Table)
    requires Seated(log, n)
    ensures t == After(log, n, stack)
  {
    t := Deal(n, stack);
    for i := 0 to |log|
      invariant t == After(log[..i], n, stack)
    {
      if t.over {
        OverStays(log, i, n, stack);
        return;
      }
      AfterAppend(log[..i], log[i], n, stack);
      assert log[..i] + [log[i]] == log[..i + 1];
      t := TakeAction(t, log[i].player, log[i].action);
      t := SettleStreet(t);
    }
    assert log[..|log|] == log;
  }

  /** The switch in Replay's loop body, field by field. */
  method TakeAction(t: Table, p: nat, a: Action) returns (r: Table)
    requires t.Shaped(|t.stacks|) && p < |t.stacks|
    ensures r == Play(t, p, a)
  {
    r := t;
    if a.kind == FOLD {
      r := r.(folded := r.folded[p := true]);
      r := r.(unsettled := r.unsettled - 1);
    } else if a.kind == CHECK {
      r := r.(unsettled := r.unsettled - 1);
    } else if a.kind == CALL {
      var cost := Min(Sub64(r.bet, r.contributions[p]), r.stacks[p]);
      r := r.(stacks := r.stacks[p := Sub64(r.stacks[p], cost)]);
      r := r.(contributions := r.contributions[p := Add64(r.contributions[p], cost)]);
      r := r.(pot := Add64(r.pot, cost), unsettled := r.unsettled - 1);
    } else if a.kind == RAISE {
      var cost := Min(Sub64(a.amount, r.contributions[p]), r.stacks[p]);
      r := r.(stacks := r.stacks[p := Sub64(r.stacks[p], cost)]);
      r := r.(contributions := r.contributions[p := Add64(r.contributions[p], cost)]);
      r := r.(pot := Add64(r.pot, cost), bet := r.contributions[p]);
      var k: int := NumNonFolded(r.folded);
      r := r.(unsettled := k - 1);
    }
  }

  /** The tail of Replay's loop body: the hand-over and street-closing tests. */
  method SettleStreet(t: Table) returns (r: Table)
    requires t.Shaped(|t.stacks|)
    ensures r == Close(t)
  {
    r := t;
    var k := NumNonFolded(r.folded);
    if k <= 1 {
      r := r.(over := true);
    } else if r.unsettled == 0 {
      r := r.(street := r.street + 1);
      if r.street >= SHOWDOWN {
        r := r.(over := true);
      } else {
        r := r.(bet := 0, contributions := seq(|r.contributions|, _ => 0), unsettled := k);
      }
    }
  }

  // ----------------------------------------------------------------- ValidateAction

  datatype Verdict =
    | Ok
    | HandOver | OutOfRange | AlreadyFolded
    | NonZeroAmount | MustCallOrRaise | NothingToCall | RaiseTooSmall | RaiseTooLarge | UnknownKind
    | RoundMismatch | PlayerMismatch | NoPublicKey | BadSignature
    | NotAutoFold | NoAttestors | CoSignerMismatch

  function ValidateAction(t: Table, p: nat, a: Action): Verdict
    requires t.Shaped(|t.stacks|)
  {
    if t.over then HandOver
    else if p >= |t.stacks| then OutOfRange
    else if t.folded[p] then AlreadyFolded
    else if a.kind == FOLD then if a.amount != 0 then NonZeroAmount else Ok
    else if a.kind == CHECK then
      if a.amount != 0 then NonZeroAmount else if t.contributions[p] < t.bet then MustCallOrRaise else Ok
    else if a.kind == CALL then
      if a.amount != 0 then NonZeroAmount
      else if Sub64(t.bet, t.contributions[p]) == 0 then NothingToCall else Ok
    else if a.kind == RAISE then
      if a.amount <= t.bet then RaiseTooSmall
      else if Sub64(a.amount, t.contributions[p]) > t.stacks[p] then RaiseTooLarge else Ok
    else UnknownKind
  }

  // ------------------------------------------------------------ ExpectedNextPlayer

  /** The first unfolded seat at or after `start`, cyclically; `start` itself if there is none. */
  function NextLive(folded: seq<bool>, start: nat, i: nat): (s: nat)
    requires i <= |folded| && start < |folded|
    ensures s < |folded|
    decreases |folded| - i
  {
    if i == |folded| then start
    else if !folded[(start + i) % |folded|] then (start + i) % |folded|
    else NextLive(folded, start, i + 1)
  }

  function Turn(log: seq<Entry>, n: nat, stack: uint64): (s: nat)
    requires Seated(log, n)
    ensures n > 0 ==> s < n
  {
    if n == 0 then 0 else NextLive(After(log, n, stack).folded, |log| % n, 0)
  }

  /** The seat `i` places after the one whose number the round has. */
  function SeatAt(round: nat, i: nat, n: nat): (s: nat)
    requires n > 0
    ensures s < n
  {
    (round + i) % n
  }

  /** The seat `j` places on is unfolded, and all seats before it are folded. */
  ghost predicate FirstUnfolded(folded: seq<bool>, round: nat, j: nat) {
    && j < |folded| && !folded[SeatAt(round, j, |folded|)]
    && forall i :: 0 <= i < j ==> folded[SeatAt(round, i, |folded|)]
  }

  /** Whose action a round waits for: the first unfolded seat in seat order, from the seat with the round's
      number on and around the table. */
  ghost predicate ActsNext(folded: seq<bool>, round: nat, s: nat)
    requires folded != []
  {
    if exists seat :: 0 <= seat < |folded| && !folded[seat]
    then exists j: nat :: FirstUnfolded(folded, round, j) && s == SeatAt(round, j, |folded|)
    else s == round % |folded|
  }

  /** Going on from a remainder is going on from the number. */
  lemma SeatAtRemainder(round: nat, i: nat, n: nat)
    requires n > 0
    ensures (round % n + i) % n == SeatAt(round, i, n)
  {
    var q, r, p, m := round / n, round % n, (round % n + i) / n, (round % n + i) % n;
    assert round + i == n * q + (n * p + m) == n * (q + p) + m;
    DivModUnique(round + i, n, q + p, m);
  }

  lemma {:induction false} NextLiveByPosition(folded: seq<bool>, round: nat, i: nat)
    requires folded != [] && i <= |folded|
    requires forall k :: 0 <= k < i ==> folded[SeatAt(round, k, |folded|)]
    ensures var s := NextLive(folded, round % |folded|, i);
            || (exists j: nat :: FirstUnfolded(folded, round, j) && s == SeatAt(round, j, |folded|))
            || (s == round % |folded| && forall k :: 0 <= k < |folded| ==> folded[SeatAt(round, k, |folded|)])
    decreases |folded| - i
  {
    if i < |folded| {
      SeatAtRemainder(round, i, |folded|);
      if folded[SeatAt(round, i, |folded|)] {
        NextLiveByPosition(folded, round, i + 1);
      } else {
        assert FirstUnfolded(folded, round, i);
      }
    }
  }

  /** Every seat is met on the way around. */
  lemma EverySeatMet(round: nat, seat: nat, n: nat) returns (k: nat)
    requires seat < n
    ensures k < n && SeatAt(round, k, n) == seat
  {
    var start := round % n;
    k := if seat >= start then seat - start else seat + n - start;
    ModOnce(start + k, n);
    SeatAtRemainder(round, k, n);
  }

  lemma OneFirst(folded: seq<bool>, round: nat, i: nat, j: nat)
    requires FirstUnfolded(folded, round, i) && FirstUnfolded(folded, round, j)
    ensures i == j
  {
  }

  /** The turn rule finds the seat to act, and no other seat is that. */
  lemma NextLiveIff(folded: seq<bool>, round: nat, s: nat)
    requires folded != []
    ensures ActsNext(folded, round, s) <==> s == NextLive(folded, round % |folded|, 0)
  {
    NextLiveByPosition(folded, round, 0);
    if seat :| 0 <= seat < |folded| && !folded[seat] {
      var k := EverySeatMet(round, seat, |folded|);
      var i: nat :| FirstUnfolded(folded, round, i)
        && NextLive(folded, round % |folded|, 0) == SeatAt(round, i, |folded|);
      forall j: nat | FirstUnfolded(folded, round, j) ensures j == i { OneFirst(folded, round, i, j); }
    }
  }

  method ExpectedNextPlayer(log: seq<Entry>, n: nat, stack: uint64) returns (s: nat)
    requires Seated(log, n)
    ensures s == Turn(log, n, stack)
    ensures if n == 0 then s == 0 else ActsNext(After(log, n, stack).folded, |log|, s)
  {
    if n == 0 { return 0; }
    var t := Replay(log, n, stack);
    var start := |log| % n;
    NextLiveIff(t.folded, |log|, NextLive(t.folded, start, 0));
    for i := 0 to n
      invariant NextLive(t.folded, start, i) == NextLive(t.folded, start, 0)
    {
      var cand := (start + i) % n;
      if !t.folded[cand] { return cand; }
    }
    return start;
  }

  /** Whenever some seat is unfolded, the seat to act is unfolded. */
  lemma TurnIsLive(folded: seq<bool>, start: nat, seat: nat)
    requires start < |folded| && seat < |folded| && !folded[seat]
    ensures !folded[NextLive(folded, start, 0)]
  {
    hide NextLive;
    ModOnce(start, |folded|);
    NextLiveIff(folded, start, NextLive(folded, start, 0));
  }
}

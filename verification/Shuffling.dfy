/** The in-place shuffle (internal/crypto/deck/deck.go). */
module Shuffling {
  import opened Sequences

  /** The draws of one shuffle: for every position from the last down to the second, an index at or
      below it. (Position 0 draws nothing; its entry is 0.) */
  ghost predicate Draws(n: nat, draws: seq<nat>) {
    |draws| == n && forall i :: 0 <= i < n ==> draws[i] <= i
  }

  function Swap<T>(d: seq<T>, i: nat, j: nat): (r: seq<T>)
    requires i < |d| && j < |d|
    ensures |r| == |d|
  {
    d[i := d[j]][j := d[i]]
  }

  /** The exchanges for positions `i` down to 1. */
  function Down<T>(d: seq<T>, draws: seq<nat>, i: nat): (r: seq<T>)
    requires Draws(|d|, draws) && (i < |d| || i == 0)
    ensures |r| == |d|
    decreases i
  {
    if i == 0 then d else Down(Swap(d, i, draws[i]), draws, i - 1)
  }

  function Shuffled<T>(d: seq<T>, draws: seq<nat>): (r: seq<T>)
    requires Draws(|d|, draws)
    ensures |r| == |d|
  {
    if d == [] then d else Down(d, draws, |d| - 1)
  }

  /** `Shuffle`, with the random draws as a parameter. */
  method Shuffle<T>(deck: array<T>, draws: seq<nat>)
    requires Draws(deck.Length, draws)
    modifies deck
    ensures deck[..] == Shuffled(old(deck[..]), draws)
  {
    var i := deck.Length - 1;
    while i > 0
      invariant -1 <= i < deck.Length && (i == -1 ==> deck.Length == 0)
      invariant i >= 0 ==> Down(deck[..], draws, i) == Shuffled(old(deck[..]), draws)
      invariant i == -1 ==> deck[..] == old(deck[..])
    {
      var j := draws[i];
      ghost var was := deck[..];
      deck[i], deck[j] := deck[j], deck[i];
      assert deck[..] == Swap(was, i, j);
      i := i - 1;
    }
  }

  // ------------------------------------------------------------------------ permutation

  lemma SwapPermutes<T>(d: seq<T>, i: nat, j: nat)
    requires i < |d| && j < |d|
    ensures multiset(Swap(d, i, j)) == multiset(d)
  {
  }

  lemma SwapDistinct<T(!new)>(d: seq<T>, i: nat, j: nat)
    requires i < |d| && j < |d| && Distinct(d)
    ensures Distinct(Swap(d, i, j))
  {
  }

  /** A shuffle only rearranges. */
  lemma {:induction false} DownPermutes<T>(d: seq<T>, draws: seq<nat>, i: nat)
    requires Draws(|d|, draws) && (i < |d| || i == 0)
    ensures multiset(Down(d, draws, i)) == multiset(d)
    decreases i
  {
    if i > 0 {
      SwapPermutes(d, i, draws[i]);
      DownPermutes(Swap(d, i, draws[i]), draws, i - 1);
    }
  }

  lemma {:induction false} DownDistinct<T(!new)>(d: seq<T>, draws: seq<nat>, i: nat)
    requires Draws(|d|, draws) && (i < |d| || i == 0) && Distinct(d)
    ensures Distinct(Down(d, draws, i))
    decreases i
  {
    if i > 0 {
      SwapDistinct(d, i, draws[i]);
      DownDistinct(Swap(d, i, draws[i]), draws, i - 1);
    }
  }

  /** Each exchange settles its position for good. */
  lemma {:induction false} DownSettles<T>(d: seq<T>, draws: seq<nat>, i: nat, k: nat)
    requires Draws(|d|, draws) && i < k < |d|
    ensures Down(d, draws, i)[k] == d[k]
    decreases i
  {
    if i > 0 { DownSettles(Swap(d, i, draws[i]), draws, i - 1, k); }
  }

  lemma SwapAt<T>(d: seq<T>, i: nat, j: nat)
    requires i < |d| && j < |d|
    ensures Swap(d, i, j)[i] == d[j]
  {
  }

  lemma LastCard<T>(d: seq<T>, draws: seq<nat>, i: nat)
    requires Draws(|d|, draws) && 0 < i < |d|
    ensures Down(d, draws, i)[i] == d[draws[i]]
  {
    hide Swap;
    SwapAt(d, i, draws[i]);
    DownSettles(Swap(d, i, draws[i]), draws, i - 1, i);
  }

  lemma DistinctIndex<T(!new)>(d: seq<T>, a: nat, b: nat)
    requires Distinct(d) && a < |d| && b < |d| && d[a] == d[b]
    ensures a == b
  {
  }

  /** Different draws give different orders. */
  lemma {:induction false} DrawsUnique<T(!new)>(d: seq<T>, x: seq<nat>, y: seq<nat>, i: nat)
    requires Distinct(d) && Draws(|d|, x) && Draws(|d|, y) && i < |d| && Down(d, x, i) == Down(d, y, i)
    ensures forall k :: 0 <= k <= i ==> x[k] == y[k]
    decreases i
  {
    if i > 0 {
      LastCard(d, x, i);
      LastCard(d, y, i);
      DistinctIndex(d, x[i], y[i]);
      SwapDistinct(d, i, x[i]);
      DrawsUnique(Swap(d, i, x[i]), x, y, i - 1);
    }
  }

  lemma Find<T(!new)>(d: seq<T>, target: seq<T>, i: nat) returns (j: nat)
    requires Distinct(target) && multiset(target) == multiset(d) && |d| == |target| && i < |d|
    requires forall k :: i < k < |d| ==> target[k] == d[k]
    ensures j <= i && d[j] == target[i]
  {
    assert target[i] in multiset(d);
    j :| 0 <= j < |d| && d[j] == target[i];
  }

  /** Every rearrangement of the first cards is reached by some draws. */
  lemma {:induction false} DrawsExist<T(!new)>(d: seq<T>, target: seq<T>, i: nat) returns (draws: seq<nat>)
    requires Distinct(d) && Distinct(target) && multiset(target) == multiset(d) && |d| == |target| && i < |d|
    requires forall k :: i < k < |d| ==> target[k] == d[k]
    ensures Draws(|d|, draws) && Down(d, draws, i) == target
    decreases i
  {
    if i == 0 {
      draws := seq(|d|, _ => 0);
      OnlyOneLeft(d, target);
    } else {
      var j := Find(d, target, i);
      var s := Swap(d, i, j);
      SwapPermutes(d, i, j);
      SwapDistinct(d, i, j);
      var rest := DrawsExist(s, target, i - 1);
      draws := rest[i := j];
      DownIgnores(s, rest, draws, i - 1);
    }
  }

  lemma OnlyOneLeft<T(!new)>(d: seq<T>, target: seq<T>)
    requires Distinct(target) && multiset(target) == multiset(d) && |d| == |target| > 0
    requires forall k :: 0 < k < |d| ==> target[k] == d[k]
    ensures target == d
  {
    assert target[0] in multiset(d);
    var j :| 0 <= j < |d| && d[j] == target[0];
    assert j == 0;
  }

  lemma {:induction false} DownIgnores<T>(d: seq<T>, x: seq<nat>, y: seq<nat>, i: nat)
    requires Draws(|d|, x) && Draws(|d|, y) && i < |d| && forall k :: 0 <= k <= i ==> x[k] == y[k]
    ensures Down(d, x, i) == Down(d, y, i)
    decreases i
  {
    if i > 0 { DownIgnores(Swap(d, i, x[i]), x, y, i - 1); }
  }

  /** Fisher-Yates is exact: every rearrangement of distinct cards comes from some draws, nothing else
      comes from any, and no two sequences of draws give the same one. */
  lemma ShuffleExact<T(!new)>(d: seq<T>, target: seq<T>)
    requires Distinct(d)
    ensures multiset(target) == multiset(d) <==> exists x :: Draws(|d|, x) && Shuffled(d, x) == target
    ensures forall x, y :: Draws(|d|, x) && Draws(|d|, y) && Shuffled(d, x) == target == Shuffled(d, y) ==> x == y
  {
    if d == [] {
      assert Draws(0, []) && Shuffled(d, []) == [];
      if multiset(target) == multiset(d) { DistinctPermutation(d, target); }
    } else {
      if multiset(target) == multiset(d) {
        DistinctPermutation(d, target);
        var x := DrawsExist(d, target, |d| - 1);
        assert Shuffled(d, x) == target;
      }
      forall x | Draws(|d|, x) && Shuffled(d, x) == target ensures multiset(target) == multiset(d) {
        DownPermutes(d, x, |d| - 1);
      }
      forall x, y | Draws(|d|, x) && Draws(|d|, y) && Shuffled(d, x) == target == Shuffled(d, y) ensures x == y {
        DrawsUnique(d, x, y, |d| - 1);
      }
    }
  }

  // ------------------------------------------------------------------- positions

  function Iota(n: nat): (s: seq<nat>)
    ensures |s| == n && forall i :: 0 <= i < n ==> s[i] == i
  {
    seq(n, i requires 0 <= i < n => i)
  }

  /** Where each position's card came from. */
  function Source(n: nat, draws: seq<nat>): (s: seq<nat>)
    requires Draws(n, draws)
    ensures |s| == n
  {
    Shuffled(Iota(n), draws)
  }

  ghost predicate Picks<T(!new)>(d: seq<T>, idx: seq<nat>, r: seq<T>) {
    |idx| == |r| && forall i :: 0 <= i < |r| ==> idx[i] < |d| && r[i] == d[idx[i]]
  }

  lemma {:induction false} DownPicks<T(!new)>(d: seq<T>, idx: seq<nat>, r: seq<T>, draws: seq<nat>, i: nat)
    requires Picks(d, idx, r) && Draws(|r|, draws) && i < |r|
    ensures Picks(d, Down(idx, draws, i), Down(r, draws, i))
    decreases i
  {
    if i > 0 { DownPicks(d, Swap(idx, i, draws[i]), Swap(r, i, draws[i]), draws, i - 1); }
  }

  lemma SourceDistinct(n: nat, draws: seq<nat>)
    requires n > 0 && Draws(n, draws)
    ensures Distinct(Source(n, draws))
  {
    var id := Iota(n);
    DownDistinct(id, draws, n - 1);
  }

  /** A shuffled deck is the old deck read at the source positions. */
  lemma ShuffledAt<T(!new)>(d: seq<T>, draws: seq<nat>)
    requires Draws(|d|, draws) && d != []
    ensures Picks(d, Source(|d|, draws), Shuffled(d, draws))
  {
    var id := Iota(|d|);
    assert Picks(d, id, d);
    DownPicks(d, id, d, draws, |d| - 1);
  }

  // -------------------------------------------------------------------- from the back

  lemma {:induction false} DownFront<T>(d: seq<T>, draws: seq<nat>, i: nat, k: nat)
    requires Draws(|d|, draws) && i < k <= |d|
    ensures Draws(k, draws[..k]) && Down(d, draws, i)[..k] == Down(d[..k], draws[..k], i)
    decreases i
  {
    if i > 0 {
      DownFront(Swap(d, i, draws[i]), draws, i - 1, k);
      assert Swap(d, i, draws[i])[..k] == Swap(d[..k], i, draws[..k][i]);
    }
  }

  /** The last draw decides which card comes last; that card's place goes to the old last card, and what is
      left is shuffled with the other draws. */
  lemma LastDrawFirst<T>(d: seq<T>, draws: seq<nat>)
    requires Draws(|d|, draws) && d != []
    ensures var k := |d| - 1;
            && Draws(k, draws[..k])
            && Shuffled(d, draws) == Shuffled(d[draws[k] := d[k]][..k], draws[..k]) + [d[draws[k]]]
  {
    var k := |d| - 1;
    if k > 0 {
      var e := Swap(d, k, draws[k]);
      LastCard(d, draws, k);
      DownFront(e, draws, k - 1, k);
      assert e[..k] == d[draws[k] := d[k]][..k];
      assert Shuffled(d, draws) == Shuffled(d, draws)[..k] + [Shuffled(d, draws)[k]];
    }
  }
}

/** The strength order on ranked hands (card.Compare in internal/card/eval.go). */
module HandOrder {
  import opened Cards

  const HIGH_CARD := 0
  const ONE_PAIR := 1
  const TWO_PAIR := 2
  const THREE_OF_A_KIND := 3
  const STRAIGHT := 4
  const FLUSH := 5
  const FULL_HOUSE := 6
  const FOUR_OF_A_KIND := 7
  const STRAIGHT_FLUSH := 8

  datatype HandRank = HandRank(category: nat, tie: seq<nat>, best: seq<Card>)
  {
    predicate Sized() { |tie| == 5 }

    /** Same strength: what Compare looks at is the same. */
    predicate Ties(other: HandRank) { category == other.category && tie == other.tie }
  }

  /** Lexicographic comparison, as a sign. */
  function CompareTie(a: seq<nat>, b: seq<nat>): int
    requires |a| == |b|
  {
    if a == [] then 0
    else if a[0] != b[0] then (if a[0] > b[0] then 1 else -1)
    else CompareTie(a[1..], b[1..])
  }

  function Comparison(a: HandRank, b: HandRank): int
    requires a.Sized() && b.Sized()
  {
    if a.category != b.category then (if a.category > b.category then 1 else -1)
    else CompareTie(a.tie, b.tie)
  }

  lemma {:induction false} CompareTieLaws(a: seq<nat>, b: seq<nat>)
    requires |a| == |b|
    ensures CompareTie(a, b) in {-1, 0, 1}
    ensures CompareTie(a, b) == -CompareTie(b, a)
    ensures CompareTie(a, b) == 0 <==> a == b
  {
    if a != [] {
      CompareTieLaws(a[1..], b[1..]);
      assert a == [a[0]] + a[1..] && b == [b[0]] + b[1..];
    }
  }

  /** The first tiebreaker in which the two differ, at `i`, is the higher one in `a`. */
  predicate HigherAt(a: seq<nat>, b: seq<nat>, i: nat) {
    i < |a| && i < |b| && a[..i] == b[..i] && a[i] > b[i]
  }

  /** A higher category, or the same one and a higher first different tiebreaker. */
  ghost predicate Stronger(a: HandRank, b: HandRank) {
    a.category > b.category || (a.category == b.category && exists i :: HigherAt(a.tie, b.tie, i))
  }

  lemma HigherBehind(a: seq<nat>, b: seq<nat>, i: nat)
    requires a != [] && b != [] && a[0] == b[0]
    ensures HigherAt(a[1..], b[1..], i) <==> HigherAt(a, b, i + 1)
  {
    if i < |a| - 1 && i < |b| - 1 {
      assert a[..i + 1] == [a[0]] + a[1..][..i] && b[..i + 1] == [b[0]] + b[1..][..i];
      assert a[..i + 1][1..] == a[1..][..i] && b[..i + 1][1..] == b[1..][..i];
    }
  }

  lemma SameBefore(a: seq<nat>, b: seq<nat>, i: nat)
    requires HigherAt(a, b, i) && i > 0
    ensures a[0] == b[0]
  {
    assert a[..i][0] == b[..i][0];
  }

  lemma {:induction false} CompareTieIff(a: seq<nat>, b: seq<nat>)
    requires |a| == |b|
    ensures CompareTie(a, b) == 1 <==> exists i :: HigherAt(a, b, i)
  {
    if a != [] {
      if a[0] != b[0] {
        if a[0] > b[0] { assert HigherAt(a, b, 0); }
        forall i: nat | HigherAt(a, b, i) ensures i == 0 {
          if i > 0 { SameBefore(a, b, i); }
        }
      } else {
        CompareTieIff(a[1..], b[1..]);
        if i: nat :| HigherAt(a[1..], b[1..], i) { HigherBehind(a, b, i); }
        if i: nat :| HigherAt(a, b, i) { HigherBehind(a, b, i - 1); }
      }
    }
  }

  /** What each sign means. */
  lemma ComparisonIff(a: HandRank, b: HandRank)
    requires a.Sized() && b.Sized()
    ensures Comparison(a, b) == 1 <==> Stronger(a, b)
    ensures Comparison(a, b) == -1 <==> Stronger(b, a)
    ensures Comparison(a, b) == 0 <==> a.category == b.category && a.tie == b.tie
  {
    CompareTieLaws(a.tie, b.tie);
    CompareTieIff(a.tie, b.tie);
    CompareTieIff(b.tie, a.tie);
  }

  method Compare(a: HandRank, b: HandRank) returns (sign: int)
    requires a.Sized() && b.Sized()
    ensures sign == Comparison(a, b)
    ensures sign == 1 <==> Stronger(a, b)
    ensures sign == -1 <==> Stronger(b, a)
    ensures sign == 0 <==> a.category == b.category && a.tie == b.tie
  {
    ComparisonIff(a, b);
    if a.category != b.category {
      if a.category > b.category {
        return 1;
      }
      return -1;
    }
    for i := 0 to 5
      invariant CompareTie(a.tie, b.tie) == CompareTie(a.tie[i..], b.tie[i..])
    {
      if a.tie[i] != b.tie[i] {
        if a.tie[i] > b.tie[i] {
          return 1;
        }
        return -1;
      }
    }
    return 0;
  }

  lemma {:induction false} CompareTieChain(a: seq<nat>, b: seq<nat>, c: seq<nat>)
    requires |a| == |b| == |c| && CompareTie(a, b) >= 0 && CompareTie(b, c) >= 0
    ensures CompareTie(a, c) >= 0
  {
    if a != [] && a[0] == b[0] == c[0] { CompareTieChain(a[1..], b[1..], c[1..]); }
  }

  /** A total preorder whose ties are exactly the hands of the same category and tiebreakers. */
  lemma CompareIsTotalPreorder(a: HandRank, b: HandRank, c: HandRank)
    requires a.Sized() && b.Sized() && c.Sized()
    ensures Comparison(a, b) in {-1, 0, 1} && Comparison(a, b) == -Comparison(b, a)
    ensures Comparison(a, b) == 0 <==> a.Ties(b)
    ensures Comparison(a, b) >= 0 && Comparison(b, c) >= 0 ==> Comparison(a, c) >= 0
  {
    CompareTieLaws(a.tie, b.tie);
    if CompareTie(a.tie, b.tie) >= 0 && CompareTie(b.tie, c.tie) >= 0 {
      CompareTieChain(a.tie, b.tie, c.tie);
    }
  }
}

/** The strongest five of five, six or seven cards (Best in internal/card/eval.go). */
module BestHand {
  import opened Cards
  import opened HandOrder
  import opened HandSpec
  import opened Sequences
  import opened HandRanking

  // ------------------------------------------------------------------------------------- masks

  function Pow2(n: nat): nat { if n == 0 then 1 else 2 * Pow2(n - 1) }

  function Bits(mask: nat): nat { if mask == 0 then 0 else mask % 2 + Bits(mask / 2) }

  method Popcount(mask: nat) returns (n: nat)
    ensures n == Bits(mask)
  {
    n := 0;
    var x := mask;
    while x != 0
      invariant n + Bits(x) == Bits(mask)
    {
      n := n + x % 2;
      x := x / 2;
    }
  }

  /** `mask` shifted right by `k`; its last bit is bit `k` of the mask. */
  function Shift(mask: nat, k: nat): nat { if k == 0 then mask else Shift(mask, k - 1) / 2 }

  /** The cards whose bits are set, bit 0 for the first card. */
  function Pick(cards: seq<Card>, mask: nat): seq<Card> {
    if cards == [] then [] else (if mask % 2 == 1 then [cards[0]] else []) + Pick(cards[1..], mask / 2)
  }

  lemma PickNext(cards: seq<Card>, mask: nat, k: nat)
    requires k < |cards|
    ensures Pick(cards[k..], Shift(mask, k))
         == (if Shift(mask, k) % 2 == 1 then [cards[k]] else []) + Pick(cards[k + 1..], Shift(mask, k + 1))
  {
    assert cards[k..][1..] == cards[k + 1..];
  }

  method Combination(cards: seq<Card>, mask: nat) returns (combo: seq<Card>)
    ensures combo == Pick(cards, mask)
  {
    combo := [];
    for k := 0 to |cards|
      invariant combo + Pick(cards[k..], Shift(mask, k)) == Pick(cards, mask)
    {
      PickNext(cards, mask, k);
      if Shift(mask, k) % 2 == 1 {
        combo := combo + [cards[k]];
      }
    }
  }

  lemma {:induction false} PickSize(cards: seq<Card>, mask: nat)
    requires mask < Pow2(|cards|)
    ensures |Pick(cards, mask)| == Bits(mask)
  {
    if cards != [] { PickSize(cards[1..], mask / 2); }
  }

  lemma {:induction false} PickSub(cards: seq<Card>, mask: nat)
    ensures multiset(Pick(cards, mask)) <= multiset(cards)
  {
    if cards != [] {
      PickSub(cards[1..], mask / 2);
      assert cards == [cards[0]] + cards[1..];
    }
  }

  lemma PickHead(cards: seq<Card>, rest: nat, m: multiset<Card>)
    requires cards != [] && cards[0] in m && Picks(cards[1..], rest, m - multiset{cards[0]})
    ensures Picks(cards, 2 * rest + 1, m)
  {
    assert (2 * rest + 1) / 2 == rest && (2 * rest + 1) % 2 == 1;
    assert Pick(cards, 2 * rest + 1) == [cards[0]] + Pick(cards[1..], rest);
  }

  lemma PickTail(cards: seq<Card>, rest: nat, m: multiset<Card>)
    requires cards != [] && Picks(cards[1..], rest, m)
    ensures Picks(cards, 2 * rest, m)
  {
    assert (2 * rest) / 2 == rest && (2 * rest) % 2 == 0;
  }

  lemma HeadOrTail(cards: seq<Card>, m: multiset<Card>)
    requires cards != [] && Within(m, cards)
    ensures cards[0] in m ==> Within(m - multiset{cards[0]}, cards[1..])
    ensures cards[0] !in m ==> Within(m, cards[1..])
  {
    assert cards == [cards[0]] + cards[1..];
  }

  lemma NothingIn(m: multiset<Card>)
    requires m <= multiset([])
    ensures m == multiset{}
  {
    assert forall c :: m[c] == 0;
  }

  /** The mask of a selection of cards, taking the earliest copy of each. */
  function MaskFor(cards: seq<Card>, m: multiset<Card>): nat {
    if cards == [] then 0
    else if cards[0] in m then 2 * MaskFor(cards[1..], m - multiset{cards[0]}) + 1
    else 2 * MaskFor(cards[1..], m)
  }

  lemma {:induction false} MaskForBound(cards: seq<Card>, m: multiset<Card>)
    ensures MaskFor(cards, m) < Pow2(|cards|)
  {
    if cards != [] {
      if cards[0] in m {
        MaskForBound(cards[1..], m - multiset{cards[0]});
      } else {
        MaskForBound(cards[1..], m);
      }
    }
  }

  ghost predicate Picks(cards: seq<Card>, mask: nat, m: multiset<Card>) { multiset(Pick(cards, mask)) == m }

  ghost predicate Within(m: multiset<Card>, cards: seq<Card>) { m <= multiset(cards) }

  lemma PicksNothing(m: multiset<Card>)
    requires Within(m, [])
    ensures Picks([], 0, m)
  {
    NothingIn(m);
  }

  /** Every selection of cards is picked by its mask. */
  lemma {:induction false} MaskForPicks(cards: seq<Card>, m: multiset<Card>)
    requires Within(m, cards)
    ensures Picks(cards, MaskFor(cards, m), m)
  {
    hide Picks;
    hide Within;
    if cards == [] {
      PicksNothing(m);
    } else {
      HeadOrTail(cards, m);
      if cards[0] in m {
        MaskForPicks(cards[1..], m - multiset{cards[0]});
        PickHead(cards, MaskFor(cards[1..], m - multiset{cards[0]}), m);
      } else {
        MaskForPicks(cards[1..], m);
        PickTail(cards, MaskFor(cards[1..], m), m);
      }
    }
  }

  // -------------------------------------------------------------------------- the specification

  /** Five of the cards. */
  ghost predicate From(h: seq<Card>, cards: seq<Card>) { |h| == 5 && multiset(h) <= multiset(cards) }

  ghost predicate AtLeast(b: HandRank, h: seq<Card>)
    requires b.Sized()
  {
    forall r :: Ranked(h, r) ==> Comparison(b, r) >= 0
  }

  /** Five of the cards reach `b` and no five of them are stronger. */
  ghost predicate IsBest(cards: seq<Card>, b: HandRank) {
    && b.Sized()
    && (exists h :: From(h, cards) && Ranked(h, b) && Displayed(h, b))
    && (forall h :: From(h, cards) ==> AtLeast(b, h))
  }

  lemma AtLeastOwn(b: HandRank, r: HandRank, h: seq<Card>)
    requires b.Sized() && Ranked(h, r) && Comparison(b, r) >= 0
    ensures AtLeast(b, h)
  {
    forall q | Ranked(h, q) ensures Comparison(b, q) >= 0 {
      RankingIgnoresOrder(h, h, r, q);
      CompareIsTotalPreorder(r, q, q);
      CompareIsTotalPreorder(b, r, q);
    }
  }

  lemma AtLeastStronger(b: HandRank, c: HandRank, h: seq<Card>)
    requires b.Sized() && c.Sized() && AtLeast(b, h) && Comparison(c, b) >= 0
    ensures AtLeast(c, h)
  {
    forall q | Ranked(h, q) ensures Comparison(c, q) >= 0 { CompareIsTotalPreorder(c, b, q); }
  }

  lemma AtLeastPermuted(b: HandRank, g: seq<Card>, h: seq<Card>)
    requires b.Sized() && AtLeast(b, g) && multiset(g) == multiset(h)
    ensures AtLeast(b, h)
  {
    CountsOfPermutation(g, h);
    SuitedOfPermutation(g, h);
    forall q | Ranked(h, q) ensures Comparison(b, q) >= 0 { assert Ranked(g, q); }
  }

  // ------------------------------------------------------------------------------ the search

  ghost predicate MaskBeaten(cards: seq<Card>, b: HandRank, mask: nat)
    requires b.Sized()
  {
    Bits(mask) == 5 ==> AtLeast(b, Pick(cards, mask))
  }

  ghost predicate Beaten(cards: seq<Card>, b: HandRank, limit: nat)
    requires b.Sized()
  {
    forall mask :: 1 <= mask < limit ==> MaskBeaten(cards, b, mask)
  }

  lemma BeatenStronger(cards: seq<Card>, b: HandRank, c: HandRank, limit: nat)
    requires b.Sized() && c.Sized() && Beaten(cards, b, limit) && Comparison(c, b) >= 0
    ensures Beaten(cards, c, limit)
  {
    forall mask | 1 <= mask < limit ensures MaskBeaten(cards, c, mask) {
      assert MaskBeaten(cards, b, mask);
      if Bits(mask) == 5 { AtLeastStronger(b, c, Pick(cards, mask)); }
    }
  }

  /** No mask below `limit` picks five cards. */
  ghost predicate NoneYet(limit: nat) { forall mask :: 1 <= mask < limit ==> Bits(mask) != 5 }

  lemma MaskOf(cards: seq<Card>, h: seq<Card>) returns (mask: nat)
    requires From(h, cards)
    ensures 1 <= mask < Pow2(|cards|) && Bits(mask) == 5 && multiset(Pick(cards, mask)) == multiset(h)
  {
    mask := MaskFor(cards, multiset(h));
    MaskForBound(cards, multiset(h));
    MaskForPicks(cards, multiset(h));
    PickSize(cards, mask);
    assert |multiset(Pick(cards, mask))| == |multiset(h)|;
  }

  lemma AllBeaten(cards: seq<Card>, b: HandRank)
    requires b.Sized() && Beaten(cards, b, Pow2(|cards|))
    ensures forall h :: From(h, cards) ==> AtLeast(b, h)
  {
    forall h | From(h, cards) ensures AtLeast(b, h) {
      var mask := MaskOf(cards, h);
      assert MaskBeaten(cards, b, mask);
      AtLeastPermuted(b, Pick(cards, mask), h);
    }
  }

  lemma SomeFive(cards: seq<Card>)
    requires |cards| >= 5
    ensures !NoneYet(Pow2(|cards|))
  {
    assert cards == cards[..5] + cards[5..];
    var mask := MaskOf(cards, cards[..5]);
  }

  /** The best hand among those that the masks below `limit` pick. */
  ghost predicate BestSoFar(cards: seq<Card>, first: bool, b: HandRank, limit: nat) {
    && (first ==> NoneYet(limit))
    && (!first ==>
          && b.Sized()
          && Beaten(cards, b, limit)
          && exists h :: From(h, cards) && Ranked(h, b) && Displayed(h, b))
  }

  lemma Skipped(cards: seq<Card>, first: bool, b: HandRank, mask: nat)
    requires BestSoFar(cards, first, b, mask) && mask >= 1 && Bits(mask) != 5
    ensures BestSoFar(cards, first, b, mask + 1)
  {
    hide Ranked;
    hide Displayed;
    if !first {
      forall k | 1 <= k < mask + 1 ensures MaskBeaten(cards, b, k) { }
    }
  }

  lemma Replaced(cards: seq<Card>, first: bool, b: HandRank, mask: nat, r: HandRank)
    requires BestSoFar(cards, first, b, mask) && mask >= 1
    requires From(Pick(cards, mask), cards) && Ranked(Pick(cards, mask), r) && Displayed(Pick(cards, mask), r)
    requires r.Sized() && (!first ==> Comparison(r, b) > 0)
    ensures BestSoFar(cards, false, r, mask + 1)
  {
    hide Ranked;
    hide Displayed;
    if !first { BeatenStronger(cards, b, r, mask); }
    CompareIsTotalPreorder(r, r, r);
    AtLeastOwn(r, r, Pick(cards, mask));
    forall k | 1 <= k < mask + 1 ensures MaskBeaten(cards, r, k) { }
  }

  lemma Kept(cards: seq<Card>, b: HandRank, mask: nat, r: HandRank)
    requires BestSoFar(cards, false, b, mask) && mask >= 1
    requires r.Sized() && Ranked(Pick(cards, mask), r) && Comparison(r, b) <= 0
    ensures BestSoFar(cards, false, b, mask + 1)
  {
    hide Ranked;
    hide Displayed;
    CompareIsTotalPreorder(r, b, b);
    AtLeastOwn(b, r, Pick(cards, mask));
    forall k | 1 <= k < mask + 1 ensures MaskBeaten(cards, b, k) { }
  }

  /** One turn of the search loop. */
  method Visit(cards: seq<Card>, first: bool, best: HandRank, mask: nat) returns (none: bool, top: HandRank)
    requires 1 <= mask < Pow2(|cards|) && BestSoFar(cards, first, best, mask)
    ensures BestSoFar(cards, none, top, mask + 1)
  {
    hide Displayed;
    var bits := Popcount(mask);
    if bits != 5 {
      Skipped(cards, first, best, mask);
      return first, best;
    }
    var combo := Combination(cards, mask);
    PickSize(cards, mask);
    PickSub(cards, mask);
    var r := Rank5(combo);
    var stronger := first;
    if !first {
      var sign := Compare(r, best);
      stronger := sign > 0;
    }
    if stronger {
      Replaced(cards, first, best, mask, r);
      return false, r;
    }
    Kept(cards, best, mask, r);
    return false, best;
  }

  method Search(cards: seq<Card>) returns (best: HandRank)
    requires |cards| >= 5
    ensures IsBest(cards, best)
  {
    best := HandRank(0, [0, 0, 0, 0, 0], []);
    var first := true;
    var limit := Pow2(|cards|);
    SomeFive(cards);
    for mask := 1 to limit
      invariant BestSoFar(cards, first, best, mask)
    {
      first, best := Visit(cards, first, best, mask);
    }
    AllBeaten(cards, best);
  }

  // ------------------------------------------------------------------------------------ Best

  /** Whether the card at `i` also stands before it. */
  ghost predicate Repeats(cards: seq<Card>, i: nat)
    requires i < |cards|
  {
    cards[i] in cards[..i]
  }

  /** The first card that has been seen before. */
  method FirstDuplicate(cards: seq<Card>) returns (found: bool, at: nat)
    ensures found <==> !Distinct(cards)
    ensures found ==> at < |cards| && Repeats(cards, at) && Distinct(cards[..at])
  {
    var seen: set<Card> := {};
    for i := 0 to |cards|
      invariant forall c :: c in seen <==> c in cards[..i]
      invariant Distinct(cards[..i])
    {
      if cards[i] in seen {
        var j :| 0 <= j < i && cards[j] == cards[i];
        return true, i;
      }
      seen := seen + {cards[i]};
    }
    assert cards[..|cards|] == cards;
    return false, 0;
  }

  datatype Outcome = TooFew | TooMany | Duplicate(card: Card) | Found(hand: HandRank)

  /** Exactly five to seven different cards have a best hand, and it is the best of them all. */
  method Best(cards: seq<Card>) returns (out: Outcome)
    ensures out.TooFew? <==> |cards| < 5
    ensures out.TooMany? <==> |cards| > 7
    ensures out.Duplicate? <==> 5 <= |cards| <= 7 && !Distinct(cards)
    ensures out.Duplicate? ==> multiset(cards)[out.card] >= 2
    ensures out.Found? <==> 5 <= |cards| <= 7 && Distinct(cards)
    ensures out.Found? ==> IsBest(cards, out.hand)
  {
    if |cards| < 5 {
      return TooFew;
    }
    if |cards| > 7 {
      return TooMany;
    }
    var found, at := FirstDuplicate(cards);
    if found {
      assert cards == cards[..at] + cards[at..];
      assert cards[at] in cards[at..];
      return Duplicate(cards[at]);
    }
    var best := Search(cards);
    return Found(best);
  }

  lemma {:induction false} BestCovers(cards: seq<Card>, more: seq<Card>, b: HandRank, c: HandRank)
    requires IsBest(cards, b) && IsBest(more, c) && multiset(cards) <= multiset(more)
    ensures Comparison(c, b) >= 0
  {
    hide Displayed;
    var h :| From(h, cards) && Ranked(h, b) && Displayed(h, b);
    assert From(h, more);
    assert AtLeast(c, h);
  }

  /** The strength found does not depend on the order of the cards. */
  lemma BestIgnoresOrder(cards: seq<Card>, other: seq<Card>, b: HandRank, c: HandRank)
    requires IsBest(cards, b) && IsBest(other, c) && multiset(cards) == multiset(other)
    ensures b.Ties(c)
  {
    assert b.Sized() && c.Sized();
    BestCovers(cards, other, b, c);
    BestCovers(other, cards, c, b);
    CompareIsTotalPreorder(b, c, b);
  }

  /** Another card never makes the best hand weaker. */
  lemma MoreCardsNeverWeaker(cards: seq<Card>, card: Card, b: HandRank, c: HandRank)
    requires IsBest(cards, b) && IsBest(cards + [card], c)
    ensures Comparison(c, b) >= 0
  {
    BestCovers(cards, cards + [card], b, c);
  }
}

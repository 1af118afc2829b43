/** Rank5 in internal/card/eval.go. */
module HandRanking {
  import opened Cards
  import opened Sorting
  import opened HandOrder
  import opened HandSpec
  import opened HandExact
  import opened HandEval
  import opened HandArrange

  /** The cards of the hand, strongest group first; straights from the top, a low ace last. */
  ghost predicate Displayed(h: seq<Card>, r: HandRank) {
    && multiset(r.best) == multiset(h)
    && (if r.category in {STRAIGHT, STRAIGHT_FLUSH} then
          Ranks(r.best) == [FIVE, 2, 1, 0, ACE] || (Descending(Ranks(r.best)) && Counts(h) != multiset(Wheel()))
        else if r.category in {HIGH_CARD, FLUSH} then Descending(Ranks(r.best))
        else Shown(r.best, Counts(h)))
  }

  method SortByRank(hand: seq<Card>) returns (sorted: seq<Card>)
    ensures multiset(sorted) == multiset(hand) && |sorted| == |hand|
    ensures Descending(Ranks(sorted))
  {
    var less := (a: Card, b: Card) => a.rank > b.rank;
    sorted := SortSlice(hand, less);
    assert |multiset(sorted)| == |multiset(hand)|;
    forall i, j | 0 <= i < j < |sorted| ensures sorted[i].rank >= sorted[j].rank {
      assert !less(sorted[j], sorted[i]);
    }
  }

  method AllOneSuit(h: seq<Card>) returns (flush: bool)
    requires |h| == 5
    ensures flush <==> Suited(h)
  {
    flush := h[0].suit == h[1].suit && h[1].suit == h[2].suit && h[2].suit == h[3].suit && h[3].suit == h[4].suit;
    if flush {
      assert forall i :: 0 <= i < 5 ==> h[i].suit == h[0].suit;
    } else {
      assert h[0] in h && h[1] in h && h[2] in h && h[3] in h && h[4] in h;
    }
  }

  lemma StraightTie(m: multiset<nat>, category: nat, high: nat)
    requires StraightTo(m, high) && category in {STRAIGHT, STRAIGHT_FLUSH}
    ensures TieOf(m, category, [high, 0, 0, 0, 0])
  {
    assert Padded([high, 0, 0, 0, 0], [high]);
  }

  lemma StraightShown(sorted: seq<Card>, high: nat)
    requires |sorted| == 5 && Descending(Ranks(sorted)) && StraightTo(Counts(sorted), high)
    ensures high == FIVE ==> Ranks(sorted) == Wheel()
    ensures high != FIVE ==> Counts(sorted) != multiset(Wheel())
  {
    if high == FIVE {
      StraightsDescend(high);
      SameListing(Ranks(sorted), Wheel());
    } else {
      RunIsNoWheel(Counts(sorted), high);
    }
  }

  /** The hand of a straight, plain or flush. */
  method StraightHand(category: nat, sorted: seq<Card>, high: nat) returns (r: HandRank)
    requires |sorted| == 5 && Descending(Ranks(sorted)) && StraightTo(Counts(sorted), high)
    requires category in {STRAIGHT, STRAIGHT_FLUSH}
    ensures r.category == category && r.Sized() && TieOf(Counts(sorted), category, r.tie)
    ensures Displayed(sorted, r)
  {
    StraightShown(sorted, high);
    var best := ArrangeStraight(sorted, high);
    r := HandRank(category, [high, 0, 0, 0, 0], best);
    StraightTie(Counts(sorted), category, high);
    if high == FIVE { AceLast(sorted); }
  }

  /** The ranks of the first `k` groups, then zeros. */
  method GroupTie(gs: seq<Group>, k: nat) returns (tie: seq<nat>)
    requires k == |gs| <= 5
    ensures Padded(tie, GroupRanks(gs))
  {
    tie := [0, 0, 0, 0, 0];
    for i := 0 to k
      invariant |tie| == 5
      invariant forall j :: 0 <= j < 5 ==> tie[j] == if j < i then gs[j].rank else 0
    {
      tie := tie[i := gs[i].rank];
    }
  }

  /** The hand of a category whose tiebreakers are its `k` groups. */
  method GroupHand(category: nat, sorted: seq<Card>, gs: seq<Group>, k: nat) returns (r: HandRank)
    requires Grouped(category) && IsGroups(gs, Counts(sorted)) && k == |gs| <= 5
    ensures r.category == category && r.Sized() && TieOf(Counts(sorted), category, r.tie)
    ensures Displayed(sorted, r)
  {
    var tie := GroupTie(gs, k);
    var best := ArrangeByGroups(sorted, gs);
    r := HandRank(category, tie, best);
    ByGroupsPermutes(sorted, gs);
    ByGroupsShown(sorted, gs, Counts(sorted));
  }

  /** The hand whose tiebreakers are its five ranks. */
  method PlainHand(category: nat, sorted: seq<Card>) returns (r: HandRank)
    requires |sorted| == 5 && Descending(Ranks(sorted)) && category in {HIGH_CARD, FLUSH}
    ensures r.category == category && r.Sized() && TieOf(Counts(sorted), category, r.tie)
    ensures Displayed(sorted, r)
  {
    var tie := [];
    for i := 0 to 5
      invariant tie == Ranks(sorted)[..i]
    {
      tie := tie + [sorted[i].rank];
    }
    assert Ranks(sorted)[..5] == Ranks(sorted);
    r := HandRank(category, tie, sorted);
  }

  /** From the first group count to the group hands; the guards are tried in the order of the source. */
  method RankSorted(sorted: seq<Card>) returns (r: HandRank)
    requires |sorted| == 5 && Descending(Ranks(sorted))
    ensures Ranked(sorted, r) && Displayed(sorted, r)
  {
    hide Displayed;
    hide TieOf;
    var flush := AllOneSuit(sorted);
    var straight, high := DetectStraight(Ranks(sorted));
    if straight && flush {
      r := StraightHand(STRAIGHT_FLUSH, sorted, high);
      return;
    }
    var groups := GroupByRank(sorted);
    FiveCards(groups, Counts(sorted));
    GroupTests(groups, Counts(sorted));
    if groups[0].count == 4 {
      ShapeOfCategory(groups, Counts(sorted), flush);
      r := GroupHand(FOUR_OF_A_KIND, sorted, groups, 2);
      return;
    }
    if groups[0].count == 3 && |groups| > 1 && groups[1].count == 2 {
      ShapeOfCategory(groups, Counts(sorted), flush);
      r := GroupHand(FULL_HOUSE, sorted, groups, 2);
      return;
    }
    if flush {
      r := PlainHand(FLUSH, sorted);
      return;
    }
    if straight {
      r := StraightHand(STRAIGHT, sorted, high);
      return;
    }
    r := RankUnsuited(sorted, groups);
  }

  /** The hands that are neither straight nor flush, below a full house. */
  method RankUnsuited(sorted: seq<Card>, groups: seq<Group>) returns (r: HandRank)
    requires |sorted| == 5 && Descending(Ranks(sorted)) && IsGroups(groups, Counts(sorted))
    requires CategoryOf(Counts(sorted), Suited(sorted)) <= THREE_OF_A_KIND
    ensures Ranked(sorted, r) && Displayed(sorted, r)
  {
    hide Displayed;
    hide TieOf;
    FiveCards(groups, Counts(sorted));
    GroupTests(groups, Counts(sorted));
    if Grouped(CategoryOf(Counts(sorted), Suited(sorted))) {
      ShapeOfCategory(groups, Counts(sorted), Suited(sorted));
    }
    if groups[0].count == 3 {
      r := GroupHand(THREE_OF_A_KIND, sorted, groups, 3);
      return;
    }
    if groups[0].count == 2 && |groups| > 1 && groups[1].count == 2 {
      r := GroupHand(TWO_PAIR, sorted, groups, 3);
      return;
    }
    if groups[0].count == 2 {
      r := GroupHand(ONE_PAIR, sorted, groups, 4);
      return;
    }
    r := PlainHand(HIGH_CARD, sorted);
  }

  /** Any five cards get the category and tiebreakers that their counts say, and show the same
      cards. */
  method Rank5(hand: seq<Card>) returns (r: HandRank)
    requires |hand| == 5
    ensures Ranked(hand, r) && Displayed(hand, r)
  {
    var sorted := SortByRank(hand);
    r := RankSorted(sorted);
    CountsOfPermutation(sorted, hand);
    SuitedOfPermutation(sorted, hand);
  }
}

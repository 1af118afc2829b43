/** The order of hands at the table (internal/card/eval.go): which kind of hand beats which, and what decides
    between two hands of one kind, said of the cards. */
module HandLadder {
  import opened Cards
  import opened Sequences
  import opened HandOrder
  import opened HandSpec
  import opened HandExact

  datatype Kind =
    HighCard | Pair | TwoPairs | Triple | Straight | Flush | FullHouse | Quadruple | StraightFlush

  /** From the weakest to the strongest. */
  const LADDER: seq<Kind> :=
    [HighCard, Pair, TwoPairs, Triple, Straight, Flush, FullHouse, Quadruple, StraightFlush]

  /** Five different cards. */
  ghost predicate Five(h: seq<Card>) { |h| == 5 && Distinct(h) }

  /** What makes a hand of that kind. */
  ghost predicate IsKind(h: seq<Card>, kind: Kind) {
    var m := Counts(h);
    match kind
    case HighCard => !Has(m, 2) && !Has(m, 3) && !Has(m, 4) && !Suited(h) && !IsStraight(m)
    case Pair => Has(m, 2) && !HasTwoPair(m) && !Has(m, 3)
    case TwoPairs => HasTwoPair(m)
    case Triple => Has(m, 3) && !Has(m, 2)
    case Straight => IsStraight(m) && !Suited(h)
    case Flush => Suited(h) && !IsStraight(m)
    case FullHouse => HasFullHouse(m)
    case Quadruple => Has(m, 4)
    case StraightFlush => Suited(h) && IsStraight(m)
  }

  // ----------------------------------------------------------------------------- the kinds

  lemma OneCount(m: multiset<nat>, r: nat)
    ensures m[r] <= |m|
  {
    assert |m[r := 0]| == |m| - m[r];
  }

  lemma TwoCounts(m: multiset<nat>, r: nat, s: nat)
    requires r != s
    ensures m[r] + m[s] <= |m|
  {
    var rest := m[r := 0];
    assert |rest| == |m| - m[r] && rest[s] == m[s];
    OneCount(rest, s);
  }

  lemma ThreeCounts(m: multiset<nat>, r: nat, s: nat, t: nat)
    requires r != s && s != t && r != t
    ensures m[r] + m[s] + m[t] <= |m|
  {
    var rest := m[r := 0];
    assert |rest| == |m| - m[r] && rest[s] == m[s] && rest[t] == m[t];
    TwoCounts(rest, s, t);
  }

  /** What five ranks cannot have at once. */
  lemma CountsExclude(m: multiset<nat>)
    requires |m| == 5
    ensures Has(m, 4) ==> !Has(m, 2) && !Has(m, 3)
    ensures HasTwoPair(m) ==> !Has(m, 3)
    ensures Has(m, 3) && Has(m, 2) <==> HasFullHouse(m)
  {
    forall r, s | r != s ensures m[r] + m[s] <= 5 { TwoCounts(m, r, s); }
    if HasTwoPair(m) {
      var r, s :| r != s && m[r] == 2 && m[s] == 2;
      forall t ensures m[t] != 3 {
        if t != r && t != s { ThreeCounts(m, r, s, t); }
      }
    }
  }

  lemma StraightRanksDiffer(high: nat)
    ensures |Wheel()| == 5 && Distinct(Wheel())
    ensures high >= 4 ==> |Run(high)| == 5 && Distinct(Run(high))
  {
  }

  lemma SingleRanks(m: multiset<nat>)
    requires IsStraight(m)
    ensures forall r :: m[r] <= 1
  {
    hide Run;
    hide Wheel;
    var high :| StraightTo(m, high);
    StraightRanksDiffer(high);
    var ranks := if high >= 4 then Run(high) else Wheel();
    assert m == multiset(ranks);
    forall r ensures m[r] <= 1 { AtMostOnce(ranks, r); }
  }

  lemma SuitedSingles(h: seq<Card>)
    requires Distinct(h) && Suited(h)
    ensures forall r :: Counts(h)[r] <= 1
  {
    SuitedRanksDiffer(h);
    forall r ensures Counts(h)[r] <= 1 { AtMostOnce(Ranks(h), r); }
  }

  /** The category is the place of the hand's kind on the ladder. */
  lemma CategoryIsPlace(h: seq<Card>, i: nat)
    requires Five(h) && i < |LADDER|
    ensures IsKind(h, LADDER[i]) <==> CategoryOf(Counts(h), Suited(h)) == i
  {
    var m := Counts(h);
    CountsExclude(m);
    if Suited(h) { SuitedSingles(h); }
    if IsStraight(m) { SingleRanks(m); }
  }

  lemma OnLadder(kind: Kind) returns (i: nat)
    ensures i < |LADDER| && LADDER[i] == kind
  {
    i := match kind
         case HighCard => 0
         case Pair => 1
         case TwoPairs => 2
         case Triple => 3
         case Straight => 4
         case Flush => 5
         case FullHouse => 6
         case Quadruple => 7
         case StraightFlush => 8;
  }

  lemma NineCategories(h: seq<Card>)
    ensures CategoryOf(Counts(h), Suited(h)) < |LADDER|
  {
  }

  /** Every hand is of exactly one kind. */
  lemma OneKind(h: seq<Card>) returns (i: nat)
    requires Five(h)
    ensures i < |LADDER| && IsKind(h, LADDER[i])
    ensures forall kind :: IsKind(h, kind) ==> kind == LADDER[i]
  {
    hide CategoryOf;
    hide IsKind;
    NineCategories(h);
    i := CategoryOf(Counts(h), Suited(h));
    CategoryIsPlace(h, i);
    forall kind | IsKind(h, kind) ensures kind == LADDER[i] {
      var j := OnLadder(kind);
      CategoryIsPlace(h, j);
    }
  }

  /** A hand of a kind higher on the ladder beats a hand of a lower one, whatever the ranks. */
  lemma HigherKindWins(g: seq<Card>, h: seq<Card>, a: HandRank, b: HandRank, i: nat, j: nat)
    requires Five(g) && Five(h) && Ranked(g, a) && Ranked(h, b)
    requires j < i < |LADDER| && IsKind(g, LADDER[i]) && IsKind(h, LADDER[j])
    ensures Comparison(a, b) == 1
  {
    CategoryIsPlace(g, i);
    CategoryIsPlace(h, j);
  }

  // -------------------------------------------------------------------------------- straights

  /** The ranks are `high` and the four below it. */
  ghost predicate Consecutive(h: seq<Card>, high: nat) {
    high >= 4 && forall r: nat :: r in Ranks(h) <==> high - 4 <= r <= high
  }

  /** Ace, two, three, four and five. */
  ghost predicate AceLow(h: seq<Card>) {
    forall r: nat :: r in Ranks(h) <==> r == 12 || r < 4
  }

  /** A multiset inside another one of the same size is all of it. */
  lemma SameSize(m: multiset<nat>, k: multiset<nat>)
    requires m <= k && |m| == |k|
    ensures m == k
  {
    assert k == m + (k - m);
    assert |k - m| == 0;
  }

  /** Five different ranks that are those of the hand make up the hand. */
  lemma RanksMakeUp(h: seq<Card>, ranks: seq<nat>)
    requires |h| == 5 && |ranks| == 5 && Distinct(ranks)
    ensures Counts(h) == multiset(ranks) <==> forall r :: r in Ranks(h) <==> r in ranks
  {
    var m, k := multiset(ranks), Counts(h);
    assert forall r :: (r in ranks <==> r in m) && (r in Ranks(h) <==> r in k);
    if forall r :: r in Ranks(h) <==> r in ranks {
      forall r ensures m[r] <= k[r] { AtMostOnce(ranks, r); }
      SameSize(m, k);
    }
  }

  lemma ConsecutiveIff(h: seq<Card>, high: nat)
    requires |h| == 5
    ensures Consecutive(h, high) <==> high >= 4 && Counts(h) == multiset(Run(high))
  {
    hide Run;
    if high >= 4 {
      StraightRanksDiffer(high);
      RanksMakeUp(h, Run(high));
      forall r: nat ensures r in Run(high) <==> high - 4 <= r <= high { RunRanks(high, r); }
    }
  }

  lemma AceLowIff(h: seq<Card>)
    requires |h| == 5
    ensures AceLow(h) <==> Counts(h) == multiset(Wheel())
  {
    hide Wheel;
    StraightRanksDiffer(0);
    RanksMakeUp(h, Wheel());
    forall r: nat ensures r in Wheel() <==> r == 12 || r < 4 { WheelRanks(r); }
  }

  /** A straight is five consecutive ranks, or ace to five. */
  lemma StraightIff(h: seq<Card>)
    requires |h| == 5
    ensures IsStraight(Counts(h)) <==> AceLow(h) || exists high :: Consecutive(h, high)
  {
    hide Run;
    hide Wheel;
    AceLowIff(h);
    forall high: nat ensures Consecutive(h, high) <==> high >= 4 && Counts(h) == multiset(Run(high)) {
      ConsecutiveIff(h, high);
    }
    if AceLow(h) { assert StraightTo(Counts(h), FIVE); }
    if high: nat :| Consecutive(h, high) { assert StraightTo(Counts(h), high); }
    if high :| StraightTo(Counts(h), high) {}
  }

  /** The first tiebreaker of a straight is its highest rank, the five's for ace to five. */
  lemma StraightTie(h: seq<Card>, a: HandRank, high: nat)
    requires |h| == 5 && Ranked(h, a) && StraightTo(Counts(h), high) && a.category in {STRAIGHT, STRAIGHT_FLUSH}
    ensures a.tie[0] == high
  {
    var top :| StraightTo(Counts(h), top) && Padded(a.tie, [top]);
    StraightHighUnique(Counts(h), top, high);
    assert a.tie[..1][0] == top;
  }

  /** How high a straight reaches. */
  lemma StraightHeight(h: seq<Card>, high: nat)
    requires |h| == 5
    ensures Consecutive(h, high) ==> StraightTo(Counts(h), high)
    ensures AceLow(h) ==> StraightTo(Counts(h), 3)
  {
    hide Run;
    hide Wheel;
    ConsecutiveIff(h, high);
    AceLowIff(h);
  }

  lemma StraightCategory(h: seq<Card>, high: nat)
    requires Five(h) && StraightTo(Counts(h), high)
    ensures CategoryOf(Counts(h), Suited(h)) == if Suited(h) then STRAIGHT_FLUSH else STRAIGHT
  {
    hide CategoryOf;
    hide StraightTo;
    CategoryIsPlace(h, if Suited(h) then 8 else 4);
  }

  /** Of two straights, both of one suit or neither, the higher one wins; ace to five is the lowest. */
  lemma HigherStraightWins(g: seq<Card>, h: seq<Card>, a: HandRank, b: HandRank, high: nat)
    requires Five(g) && Five(h) && Ranked(g, a) && Ranked(h, b) && Suited(g) == Suited(h)
    requires Consecutive(g, high) && (AceLow(h) || exists low: nat :: low < high && Consecutive(h, low))
    ensures Comparison(a, b) == 1
  {
    hide StraightTo;
    hide Consecutive;
    hide AceLow;
    hide Comparison;
    hide CategoryOf;
    hide TieOf;
    assert high >= 4 by { ConsecutiveIff(g, high); }
    var low: nat := if AceLow(h) then 3 else var low: nat :| low < high && Consecutive(h, low); low;
    StraightHeight(g, high);
    StraightHeight(h, low);
    StraightCategory(g, high);
    StraightCategory(h, low);
    StraightTie(g, a, high);
    StraightTie(h, b, low);
    assert HigherAt(a.tie, b.tie, 0);
    ComparisonIff(a, b);
  }

  // ------------------------------------------------------------------- hands of one kind

  /** The largest groups are looked at first, and among groups of one size the higher ranks: at the first place
      where the two hands differ, at groups of `c` cards, `m` has the group of rank `r` and `k` does not. */
  ghost predicate AheadAt(m: multiset<nat>, k: multiset<nat>, c: nat, r: nat) {
    && c > 0 && m[r] == c && k[r] != c
    && (forall q :: q > r ==> (m[q] == c <==> k[q] == c))
    && (forall q :: m[q] > c || k[q] > c ==> m[q] == k[q])
  }

  ghost predicate Ahead(m: multiset<nat>, k: multiset<nat>) { exists c, r :: AheadAt(m, k, c, r) }

  lemma NotBothAhead(m: multiset<nat>, k: multiset<nat>, c: nat, r: nat, d: nat, s: nat)
    requires AheadAt(m, k, c, r)
    ensures !AheadAt(k, m, d, s)
  {
  }

  /** The sizes of the groups of a hand that is no straight. */
  function Sizes(category: nat): seq<nat> {
    if category in {HIGH_CARD, FLUSH} then [1, 1, 1, 1, 1] else Shape(category)
  }

  /** `gs` are the groups of `m`, of the sizes that the category has, and give the tiebreakers. */
  ghost predicate Laid(gs: seq<Group>, m: multiset<nat>, a: HandRank) {
    && IsGroups(gs, m) && Padded(a.tie, GroupRanks(gs))
    && |gs| == |Sizes(a.category)| && forall i :: 0 <= i < |gs| ==> gs[i].count == Sizes(a.category)[i]
  }

  function Singles(ranks: seq<nat>): (gs: seq<Group>)
    ensures |gs| == |ranks| && forall i :: 0 <= i < |gs| ==> gs[i] == Group(ranks[i], 1)
  {
    seq(|ranks|, i requires 0 <= i < |ranks| => Group(ranks[i], 1))
  }

  lemma SinglesInOrder(ranks: seq<nat>)
    requires Descending(ranks) && Distinct(ranks)
    ensures InOrder(Singles(ranks)) && GroupRanks(Singles(ranks)) == ranks
  {
    hide Singles;
  }

  lemma SinglesListed(ranks: seq<nat>)
    requires Distinct(ranks)
    ensures Listed(Singles(ranks), multiset(ranks))
  {
    hide Singles;
    var gs, m := Singles(ranks), multiset(ranks);
    forall i | 0 <= i < |gs| ensures gs[i].count == m[gs[i].rank] > 0 {
      assert ranks[i] in m;
      AtMostOnce(ranks, ranks[i]);
    }
    forall r | r in m ensures exists i :: 0 <= i < |gs| && gs[i].rank == r {
      var i :| 0 <= i < |ranks| && ranks[i] == r;
      assert gs[i].rank == r;
    }
  }

  lemma CountedOnce(ranks: seq<nat>)
    requires forall r :: multiset(ranks)[r] <= 1
    ensures Distinct(ranks)
  {
    forall i, j | 0 <= i < j < |ranks| ensures ranks[i] != ranks[j] {
      if ranks[i] == ranks[j] { TwoPlaces(ranks, i, j); }
    }
  }

  ghost predicate OfDeck(h: seq<Card>) { Five(h) && forall i :: 0 <= i < |h| ==> h[i].Valid() }

  /** If all cards counted are of one rank, every one of them is. */
  lemma {:induction false} AllOfRank(ranks: seq<nat>, r: nat)
    requires multiset(ranks)[r] == |ranks|
    ensures forall i :: 0 <= i < |ranks| ==> ranks[i] == r
  {
    if ranks != [] {
      var k := |ranks| - 1;
      assert ranks == ranks[..k] + [ranks[k]];
      OneCount(multiset(ranks[..k]), r);
      AllOfRank(ranks[..k], r);
    }
  }

  lemma SuitsRepeat(a: nat, b: nat, c: nat, d: nat, e: nat)
    requires a < 4 && b < 4 && c < 4 && d < 4 && e < 4
    ensures a == b || a == c || a == d || a == e || b == c || b == d || b == e || c == d || c == e || d == e
  {
  }

  /** There are only four suits. */
  lemma NotFiveOfARank(h: seq<Card>, r: nat)
    requires OfDeck(h)
    ensures Counts(h)[r] < 5
  {
    OneCount(Counts(h), r);
    if Counts(h)[r] == 5 {
      AllOfRank(Ranks(h), r);
      SuitsRepeat(h[0].suit, h[1].suit, h[2].suit, h[3].suit, h[4].suit);
    }
  }

  /** High cards and flushes have five different ranks. */
  lemma HighCardSingles(h: seq<Card>, a: HandRank)
    requires OfDeck(h) && Ranked(h, a) && a.category in {HIGH_CARD, FLUSH}
    ensures forall r :: Counts(h)[r] <= 1
  {
    if Suited(h) {
      SuitedSingles(h);
    } else {
      forall r ensures Counts(h)[r] <= 1 { NotFiveOfARank(h, r); }
    }
  }

  lemma HighCardTie(h: seq<Card>, a: HandRank)
    requires Ranked(h, a) && a.category in {HIGH_CARD, FLUSH}
    ensures |a.tie| == 5 && Descending(a.tie) && multiset(a.tie) == Counts(h)
  {
  }

  lemma HighCardsLaid(h: seq<Card>, a: HandRank)
    requires OfDeck(h) && Ranked(h, a) && a.category in {HIGH_CARD, FLUSH}
    ensures Laid(Singles(a.tie), Counts(h), a)
  {
    hide Ranked;
    hide Counts;
    hide Singles;
    hide InOrder;
    hide Listed;
    HighCardTie(h, a);
    HighCardSingles(h, a);
    CountedOnce(a.tie);
    SinglesInOrder(a.tie);
    SinglesListed(a.tie);
    assert a.tie[..5] == a.tie;
  }

  lemma GroupsLaid(h: seq<Card>, a: HandRank) returns (gs: seq<Group>)
    requires OfDeck(h) && Ranked(h, a) && a.category !in {STRAIGHT, STRAIGHT_FLUSH}
    ensures Laid(gs, Counts(h), a)
  {
    if a.category in {HIGH_CARD, FLUSH} {
      HighCardsLaid(h, a);
      gs := Singles(a.tie);
    } else {
      gs :| IsGroups(gs, Counts(h)) && Padded(a.tie, GroupRanks(gs));
      ShapeOfCategory(gs, Counts(h), Suited(h));
    }
  }

  /** Where a rank stands in the groups: before place `i` if its group is ahead of the one there. */
  lemma PlaceOf(gs: seq<Group>, m: multiset<nat>, i: nat, q: nat) returns (j: nat)
    requires IsGroups(gs, m) && i < |gs| && m[q] > 0
    ensures j < |gs| && gs[j] == Group(q, m[q])
    ensures j < i <==> Before(gs[j], gs[i])
  {
    assert q in m;
    j :| 0 <= j < |gs| && gs[j].rank == q;
    assert j < i ==> Before(gs[j], gs[i]);
    assert i < j ==> Before(gs[i], gs[j]);
  }

  /** Up to the first different group the two hands are the same. */
  lemma SharedGroup(gs: seq<Group>, m: multiset<nat>, hs: seq<Group>, k: multiset<nat>, i: nat, q: nat)
    requires IsGroups(gs, m) && IsGroups(hs, k) && i < |gs| && i < |hs| && gs[..i] == hs[..i]
    requires m[q] > 0 && Before(Group(q, m[q]), gs[i])
    ensures k[q] == m[q]
  {
    var j := PlaceOf(gs, m, i, q);
    assert gs[..i][j] == hs[..i][j];
  }

  lemma FirstDifference(gs: seq<Group>, m: multiset<nat>, hs: seq<Group>, k: multiset<nat>, i: nat)
    requires IsGroups(gs, m) && IsGroups(hs, k) && i < |gs| && i < |hs| && gs[..i] == hs[..i]
    requires gs[i].count == hs[i].count && gs[i].rank > hs[i].rank
    ensures AheadAt(m, k, gs[i].count, gs[i].rank)
  {
    var c, r := gs[i].count, gs[i].rank;
    forall q | Before(Group(q, m[q]), gs[i]) && m[q] > 0 ensures k[q] == m[q] { SharedGroup(gs, m, hs, k, i, q); }
    forall q | Before(Group(q, k[q]), hs[i]) && k[q] > 0 ensures m[q] == k[q] { SharedGroup(hs, k, gs, m, i, q); }
    if k[r] == c {
      var j := PlaceOf(hs, k, i, r);
    }
  }

  lemma SameTies(gs: seq<Group>, hs: seq<Group>, s: seq<nat>, t: seq<nat>, i: nat)
    requires Padded(s, GroupRanks(gs)) && Padded(t, GroupRanks(hs)) && |gs| == |hs| && HigherAt(s, t, i)
    ensures i < |gs| && gs[i].rank > hs[i].rank
    ensures forall j :: 0 <= j < i ==> gs[j].rank == hs[j].rank
  {
    assert forall j :: 0 <= j < |gs| ==> gs[j].rank == s[..|gs|][j] && hs[j].rank == t[..|gs|][j];
    forall j | 0 <= j < i ensures s[j] == t[j] { assert s[..i][j] == t[..i][j]; }
  }

  /** The first tiebreaker that is higher belongs to the first group that differs. */
  lemma HigherTieIsAhead(gs: seq<Group>, m: multiset<nat>, a: HandRank,
                         hs: seq<Group>, k: multiset<nat>, b: HandRank, i: nat)
    requires Laid(gs, m, a) && Laid(hs, k, b) && a.category == b.category && HigherAt(a.tie, b.tie, i)
    ensures Ahead(m, k)
  {
    hide IsGroups;
    hide AheadAt;
    SameTies(gs, hs, a.tie, b.tie, i);
    forall j | 0 <= j < i ensures gs[..i][j] == hs[..i][j] {
      assert gs[j].rank == hs[j].rank && gs[j].count == hs[j].count;
    }
    assert gs[..i] == hs[..i];
    FirstDifference(gs, m, hs, k, i);
  }

  lemma StrongerIsAhead(g: seq<Card>, h: seq<Card>, a: HandRank, b: HandRank)
    requires OfDeck(g) && OfDeck(h) && Ranked(g, a) && Ranked(h, b)
    requires a.category == b.category && a.category !in {STRAIGHT, STRAIGHT_FLUSH} && Stronger(a, b)
    ensures Ahead(Counts(g), Counts(h))
  {
    hide Laid;
    hide Ahead;
    hide Counts;
    var gs := GroupsLaid(g, a);
    var hs := GroupsLaid(h, b);
    var i: nat :| HigherAt(a.tie, b.tie, i);
    HigherTieIsAhead(gs, Counts(g), a, hs, Counts(h), b, i);
  }

  lemma AheadOnce(m: multiset<nat>, k: multiset<nat>)
    requires Ahead(m, k)
    ensures !Ahead(k, m) && m != k
  {
    var c, r :| AheadAt(m, k, c, r);
    forall d, s ensures !AheadAt(k, m, d, s) { NotBothAhead(m, k, c, r, d, s); }
  }

  /** Two hands of one kind that are no straights: the one that is ahead wins, and only that one. So quadruples,
      triples and pairs decide before kickers, the triple of a full house before its pair, the higher of two pairs
      before the lower, and the higher kicker before the lower. */
  lemma AheadIff(g: seq<Card>, h: seq<Card>, a: HandRank, b: HandRank)
    requires OfDeck(g) && OfDeck(h) && Ranked(g, a) && Ranked(h, b)
    requires a.category == b.category && a.category !in {STRAIGHT, STRAIGHT_FLUSH}
    ensures Comparison(a, b) == 1 <==> Ahead(Counts(g), Counts(h))
  {
    hide TieOf;
    hide CategoryOf;
    hide Ahead;
    hide Comparison;
    hide Counts;
    ComparisonIff(a, b);
    CompareIsTotalPreorder(a, b, a);
    if Stronger(a, b) { StrongerIsAhead(g, h, a, b); }
    if Ahead(Counts(g), Counts(h)) {
      AheadOnce(Counts(g), Counts(h));
      TieIff(g, h, a, b);
      if Stronger(b, a) { StrongerIsAhead(h, g, b, a); }
    }
  }

  // ------------------------------------------------------------------------- who wins, by the cards

  ghost predicate HigherStraight(g: seq<Card>, h: seq<Card>) {
    exists high: nat :: Consecutive(g, high) && (AceLow(h) || exists low: nat :: low < high && Consecutive(h, low))
  }

  /** Two hands with the kind at place `i`: the first is the better one. */
  ghost predicate BetterOfKind(g: seq<Card>, h: seq<Card>, i: nat)
    requires i < |LADDER|
  {
    if LADDER[i] in {Straight, StraightFlush} then HigherStraight(g, h) else Ahead(Counts(g), Counts(h))
  }

  ghost predicate Wins(g: seq<Card>, h: seq<Card>, i: nat, j: nat)
    requires i < |LADDER| && j < |LADDER|
  {
    i > j || (i == j && BetterOfKind(g, h, i))
  }

  /** Two straights are the same five ranks, or one of them is the higher one. */
  lemma StraightsCompare(g: seq<Card>, h: seq<Card>)
    requires |g| == 5 && |h| == 5 && IsStraight(Counts(g)) && IsStraight(Counts(h))
    ensures HigherStraight(g, h) || HigherStraight(h, g) || Counts(g) == Counts(h)
  {
    hide Counts;
    hide Run;
    hide Wheel;
    hide Consecutive;
    hide AceLow;
    hide IsStraight;
    StraightIff(g);
    StraightIff(h);
    AceLowIff(g);
    AceLowIff(h);
    if !AceLow(g) && !AceLow(h) {
      var s: nat :| Consecutive(g, s);
      var t: nat :| Consecutive(h, t);
      ConsecutiveIff(g, s);
      ConsecutiveIff(h, t);
    }
  }

  lemma HigherStraightIff(g: seq<Card>, h: seq<Card>, a: HandRank, b: HandRank)
    requires Five(g) && Five(h) && Ranked(g, a) && Ranked(h, b) && Suited(g) == Suited(h)
    requires IsStraight(Counts(g)) && IsStraight(Counts(h))
    ensures Comparison(a, b) == 1 <==> HigherStraight(g, h)
  {
    hide Consecutive;
    hide AceLow;
    hide IsStraight;
    hide TieOf;
    hide CategoryOf;
    hide Comparison;
    hide Counts;
    CompareIsTotalPreorder(a, b, a);
    TieIff(g, h, a, b);
    StraightsCompare(g, h);
    if HigherStraight(g, h) {
      var high: nat :| Consecutive(g, high) && (AceLow(h) || exists low: nat :: low < high && Consecutive(h, low));
      HigherStraightWins(g, h, a, b, high);
    } else if HigherStraight(h, g) {
      var high: nat :| Consecutive(h, high) && (AceLow(g) || exists low: nat :: low < high && Consecutive(g, low));
      HigherStraightWins(h, g, b, a, high);
    }
  }

  lemma BetterIff(g: seq<Card>, h: seq<Card>, a: HandRank, b: HandRank, i: nat)
    requires OfDeck(g) && OfDeck(h) && Ranked(g, a) && Ranked(h, b)
    requires i < |LADDER| && IsKind(g, LADDER[i]) && IsKind(h, LADDER[i])
    ensures Comparison(a, b) == 1 <==> BetterOfKind(g, h, i)
  {
    hide TieOf;
    hide CategoryOf;
    hide Comparison;
    hide Counts;
    hide IsStraight;
    CategoryIsPlace(g, i);
    CategoryIsPlace(h, i);
    if LADDER[i] in {Straight, StraightFlush} {
      HigherStraightIff(g, h, a, b);
    } else {
      AheadIff(g, h, a, b);
    }
  }

  /** The whole order, by the cards: one hand beats another exactly when its kind is higher on the ladder, or the
      kinds are the same and it is the higher straight or is ahead. */
  lemma WinsIff(g: seq<Card>, h: seq<Card>, a: HandRank, b: HandRank, i: nat, j: nat)
    requires OfDeck(g) && OfDeck(h) && Ranked(g, a) && Ranked(h, b)
    requires i < |LADDER| && j < |LADDER| && IsKind(g, LADDER[i]) && IsKind(h, LADDER[j])
    ensures Comparison(a, b) == 1 <==> Wins(g, h, i, j)
  {
    hide TieOf;
    hide CategoryOf;
    hide Comparison;
    hide IsKind;
    hide BetterOfKind;
    CompareIsTotalPreorder(a, b, a);
    if i > j {
      HigherKindWins(g, h, a, b, i, j);
    } else if i < j {
      HigherKindWins(h, g, b, a, j, i);
    } else {
      BetterIff(g, h, a, b, i);
    }
  }
}

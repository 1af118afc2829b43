/** How much of a hand its ranking determines. */
module HandExact {
  import opened Cards
  import opened Sequences
  import opened HandOrder
  import opened HandSpec

  function Total(gs: seq<Group>): nat { if gs == [] then 0 else gs[0].count + Total(gs[1..]) }

  lemma {:induction false} TotalIsSize(gs: seq<Group>, m: multiset<nat>)
    requires IsGroups(gs, m)
    ensures Total(gs) == |m|
  {
    NoGroups(gs, m);
    if gs != [] {
      GroupsTail(gs, m);
      TotalIsSize(gs[1..], m[gs[0].rank := 0]);
    }
  }

  lemma {:induction false} TotalAtLeast(gs: seq<Group>)
    requires forall i :: 0 <= i < |gs| ==> gs[i].count > 0
    ensures Total(gs) >= |gs|
  {
    if gs != [] { TotalAtLeast(gs[1..]); }
  }

  /** The count of the group at `i`, zero past the end. */
  function Count(gs: seq<Group>, i: nat): nat { if i < |gs| then gs[i].count else 0 }

  lemma TotalOfFive(gs: seq<Group>)
    requires |gs| <= 5
    ensures Total(gs) == Count(gs, 0) + Count(gs, 1) + Count(gs, 2) + Count(gs, 3) + Count(gs, 4)
  {
    var a := if gs == [] then [] else gs[1..];
    var b := if a == [] then [] else a[1..];
    var c := if b == [] then [] else b[1..];
    var d := if c == [] then [] else c[1..];
    assert Total(d) == Count(gs, 4);
    assert Total(c) == Count(gs, 3) + Total(d);
    assert Total(b) == Count(gs, 2) + Total(c);
    assert Total(a) == Count(gs, 1) + Total(b);
  }

  /** Five cards: at most five groups, of non-increasing positive counts adding up to five. */
  lemma FiveCards(gs: seq<Group>, m: multiset<nat>)
    requires IsGroups(gs, m) && |m| == 5
    ensures 1 <= |gs| <= 5
    ensures Count(gs, 0) >= Count(gs, 1) >= Count(gs, 2) >= Count(gs, 3) >= Count(gs, 4)
    ensures Count(gs, 0) + Count(gs, 1) + Count(gs, 2) + Count(gs, 3) + Count(gs, 4) == 5
    ensures forall i :: 0 <= i < |gs| ==> Count(gs, i) > 0
  {
    TotalIsSize(gs, m);
    TotalAtLeast(gs);
    TotalOfFive(gs);
    assert forall i, j :: 0 <= i < j < |gs| ==> Before(gs[i], gs[j]);
  }

  /** The multiplicities in `m` are the counts of the groups. */
  lemma CountsAreGroups(gs: seq<Group>, m: multiset<nat>, count: nat)
    requires IsGroups(gs, m) && count > 0
    ensures Has(m, count) <==> exists i :: 0 <= i < |gs| && gs[i].count == count
  {
    if Has(m, count) {
      var r :| m[r] == count;
      assert r in m;
      var i :| 0 <= i < |gs| && gs[i].rank == r;
      assert gs[i].count == count;
    }
    if i :| 0 <= i < |gs| && gs[i].count == count {
      assert m[gs[i].rank] == count;
    }
  }

  lemma AtPlace(gs: seq<Group>, i: nat)
    requires i < |gs| <= 5
    ensures gs[i].count == Count(gs, i)
    ensures i == 0 || i == 1 || i == 2 || i == 3 || i == 4
  {
  }

  lemma FourIffFirst(gs: seq<Group>, m: multiset<nat>)
    requires IsGroups(gs, m) && |m| == 5
    ensures Has(m, 4) <==> gs != [] && gs[0].count == 4
  {
    FiveCards(gs, m);
    CountsAreGroups(gs, m, 4);
    if i :| 0 <= i < |gs| && gs[i].count == 4 { AtPlace(gs, i); }
  }

  lemma ThreeIffFirst(gs: seq<Group>, m: multiset<nat>)
    requires IsGroups(gs, m) && |m| == 5
    ensures Has(m, 3) <==> gs != [] && gs[0].count == 3
  {
    FiveCards(gs, m);
    CountsAreGroups(gs, m, 3);
    if i :| 0 <= i < |gs| && gs[i].count == 3 { AtPlace(gs, i); }
  }

  lemma FullHouseIff(gs: seq<Group>, m: multiset<nat>)
    requires IsGroups(gs, m) && |m| == 5
    ensures HasFullHouse(m) <==> |gs| > 1 && gs[0].count == 3 && gs[1].count == 2
  {
    FiveCards(gs, m);
    ThreeIffFirst(gs, m);
    if HasFullHouse(m) {
      var r, s :| m[r] == 3 && m[s] == 2;
      assert Has(m, 3) && s in m;
      var j :| 0 <= j < |gs| && gs[j].rank == s;
      AtPlace(gs, j);
    }
    if |gs| > 1 && gs[0].count == 3 && gs[1].count == 2 {
      assert m[gs[0].rank] == 3 && m[gs[1].rank] == 2;
    }
  }

  lemma TwoPairIff(gs: seq<Group>, m: multiset<nat>)
    requires IsGroups(gs, m) && |m| == 5
    ensures HasTwoPair(m) <==> |gs| > 1 && gs[0].count == 2 && gs[1].count == 2
  {
    FiveCards(gs, m);
    if HasTwoPair(m) {
      var r, s :| r != s && m[r] == 2 && m[s] == 2;
      assert r in m && s in m;
      var i :| 0 <= i < |gs| && gs[i].rank == r;
      var j :| 0 <= j < |gs| && gs[j].rank == s;
      AtPlace(gs, i);
      AtPlace(gs, j);
    }
    if |gs| > 1 && gs[0].count == 2 && gs[1].count == 2 {
      assert Before(gs[0], gs[1]);
      assert m[gs[0].rank] == 2 && m[gs[1].rank] == 2;
    }
  }

  /** Without a three or a full house, a pair shows in the first group. */
  lemma PairIffFirst(gs: seq<Group>, m: multiset<nat>)
    requires IsGroups(gs, m) && |m| == 5 && !Has(m, 3)
    ensures Has(m, 2) <==> gs != [] && gs[0].count == 2
  {
    FiveCards(gs, m);
    ThreeIffFirst(gs, m);
    CountsAreGroups(gs, m, 2);
    if i :| 0 <= i < |gs| && gs[i].count == 2 { AtPlace(gs, i); }
  }

  // --------------------------------------------------------------- from the ranking to the ranks

  /** The counts of the groups, by category, when the tiebreakers come from the groups. */
  function Shape(category: nat): seq<nat> {
    if category == FOUR_OF_A_KIND then [4, 1]
    else if category == FULL_HOUSE then [3, 2]
    else if category == THREE_OF_A_KIND then [3, 1, 1]
    else if category == TWO_PAIR then [2, 2, 1]
    else [2, 1, 1, 1]
  }

  predicate Grouped(category: nat) {
    category in {FOUR_OF_A_KIND, FULL_HOUSE, THREE_OF_A_KIND, TWO_PAIR, ONE_PAIR}
  }

  lemma GroupTests(gs: seq<Group>, m: multiset<nat>)
    requires IsGroups(gs, m) && |m| == 5
    ensures gs != []
    ensures Has(m, 4) <==> gs[0].count == 4
    ensures HasFullHouse(m) <==> |gs| > 1 && gs[0].count == 3 && gs[1].count == 2
    ensures Has(m, 3) <==> gs[0].count == 3
    ensures HasTwoPair(m) <==> |gs| > 1 && gs[0].count == 2 && gs[1].count == 2
    ensures !Has(m, 3) ==> (Has(m, 2) <==> gs[0].count == 2)
  {
    FiveCards(gs, m);
    FourIffFirst(gs, m);
    ThreeIffFirst(gs, m);
    FullHouseIff(gs, m);
    TwoPairIff(gs, m);
    if !Has(m, 3) { PairIffFirst(gs, m); }
  }

  lemma ShapeOfCategory(gs: seq<Group>, m: multiset<nat>, suited: bool)
    requires IsGroups(gs, m) && |m| == 5 && Grouped(CategoryOf(m, suited))
    ensures |gs| == |Shape(CategoryOf(m, suited))|
    ensures forall i :: 0 <= i < |gs| ==> gs[i].count == Shape(CategoryOf(m, suited))[i]
  {
    FiveCards(gs, m);
    GroupTests(gs, m);
  }

  lemma GroupsDetermine(gs: seq<Group>, m: multiset<nat>, k: multiset<nat>)
    requires IsGroups(gs, m) && IsGroups(gs, k)
    ensures m == k
  {
    forall r ensures m[r] == k[r] {
      if r in m || r in k {
        var i :| 0 <= i < |gs| && gs[i].rank == r;
      }
    }
  }

  lemma GroupedTieDetermines(m: multiset<nat>, k: multiset<nat>, s: bool, t: bool, tie: seq<nat>)
    requires |m| == 5 && |k| == 5 && CategoryOf(m, s) == CategoryOf(k, t) && Grouped(CategoryOf(m, s))
    requires TieOf(m, CategoryOf(m, s), tie) && TieOf(k, CategoryOf(m, s), tie)
    ensures m == k
  {
    var gs: seq<Group> :| IsGroups(gs, m) && Padded(tie, GroupRanks(gs));
    var hs: seq<Group> :| IsGroups(hs, k) && Padded(tie, GroupRanks(hs));
    ShapeOfCategory(gs, m, s);
    ShapeOfCategory(hs, k, t);
    assert GroupRanks(gs) == GroupRanks(hs);
    forall i | 0 <= i < |gs| ensures gs[i] == hs[i] {
      assert GroupRanks(gs)[i] == gs[i].rank && GroupRanks(hs)[i] == hs[i].rank;
    }
    assert gs == hs;
    GroupsDetermine(gs, m, k);
  }

  lemma TieDetermines(m: multiset<nat>, k: multiset<nat>, s: bool, t: bool, tie: seq<nat>)
    requires |m| == 5 && |k| == 5 && CategoryOf(m, s) == CategoryOf(k, t)
    requires TieOf(m, CategoryOf(m, s), tie) && TieOf(k, CategoryOf(m, s), tie)
    ensures m == k
  {
    if Grouped(CategoryOf(m, s)) {
      GroupedTieDetermines(m, k, s, t, tie);
    } else if CategoryOf(m, s) in {STRAIGHT, STRAIGHT_FLUSH} {
      var a :| StraightTo(m, a) && Padded(tie, [a]);
      var b :| StraightTo(k, b) && Padded(tie, [b]);
      assert a == tie[..1][0] == b;
    }
  }

  // ------------------------------------------------------------------------------- real hands

  /** Cards of one suit that are all different have different ranks. */
  lemma SuitedRanksDiffer(h: seq<Card>)
    requires Distinct(h) && Suited(h)
    ensures Distinct(Ranks(h))
  {
    forall i, j | 0 <= i < j < |h| ensures h[i].rank != h[j].rank {
      assert h[i] in h && h[j] in h;
    }
  }

  /** The category says whether a hand of different cards is of one suit. */
  lemma CategoryTellsSuited(h: seq<Card>)
    requires Distinct(h)
    ensures Suited(h) <==> CategoryOf(Counts(h), Suited(h)) in {STRAIGHT_FLUSH, FLUSH}
  {
    if Suited(h) {
      SuitedRanksDiffer(h);
      forall r ensures Counts(h)[r] <= 1 { AtMostOnce(Ranks(h), r); }
    }
  }

  /** Two hands of different cards tie exactly when their ranks agree and both or neither is of one
      suit. */
  lemma TieIff(g: seq<Card>, h: seq<Card>, a: HandRank, b: HandRank)
    requires |g| == 5 && |h| == 5 && Distinct(g) && Distinct(h)
    requires Ranked(g, a) && Ranked(h, b)
    ensures a.Ties(b) <==> Counts(g) == Counts(h) && Suited(g) == Suited(h)
  {
    if a.Ties(b) {
      CategoryTellsSuited(g);
      CategoryTellsSuited(h);
      TieDetermines(Counts(g), Counts(h), Suited(g), Suited(h), a.tie);
    }
    if Counts(g) == Counts(h) && Suited(g) == Suited(h) {
      TieUnique(Counts(g), a.category, a.tie, b.tie);
    }
  }
}

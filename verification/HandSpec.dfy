/** What a five-card hand is worth, said by counting ranks and without sorting or grouping. */
module HandSpec {
  import opened Cards
  import opened HandOrder

  const ACE := 12
  const FIVE := 3

  function Ranks(h: seq<Card>): (ranks: seq<nat>)
    ensures |ranks| == |h| && forall i :: 0 <= i < |h| ==> ranks[i] == h[i].rank
  {
    seq(|h|, i requires 0 <= i < |h| => h[i].rank)
  }

  function Counts(h: seq<Card>): multiset<nat> { multiset(Ranks(h)) }

  ghost predicate Suited(h: seq<Card>) {
    forall c, d :: c in h && d in h ==> c.suit == d.suit
  }

  function Run(high: nat): seq<nat>
    requires high >= 4
  {
    [high, high - 1, high - 2, high - 3, high - 4]
  }

  function Wheel(): seq<nat> { [ACE, FIVE, 2, 1, 0] }

  /** Five consecutive ranks up to `high`, or the ace playing low under the five. */
  predicate StraightTo(m: multiset<nat>, high: nat) {
    (high >= 4 && m == multiset(Run(high))) || (high == FIVE && m == multiset(Wheel()))
  }

  ghost predicate IsStraight(m: multiset<nat>) { exists high :: StraightTo(m, high) }

  ghost predicate Has(m: multiset<nat>, count: nat) { exists r :: m[r] == count }

  ghost predicate HasFullHouse(m: multiset<nat>) { exists r, s :: m[r] == 3 && m[s] == 2 }

  ghost predicate HasTwoPair(m: multiset<nat>) { exists r, s :: r != s && m[r] == 2 && m[s] == 2 }

  /** The strongest category that the rank counts and the suits allow. */
  ghost function CategoryOf(m: multiset<nat>, suited: bool): nat {
    if suited && IsStraight(m) then STRAIGHT_FLUSH
    else if Has(m, 4) then FOUR_OF_A_KIND
    else if HasFullHouse(m) then FULL_HOUSE
    else if suited then FLUSH
    else if IsStraight(m) then STRAIGHT
    else if Has(m, 3) then THREE_OF_A_KIND
    else if HasTwoPair(m) then TWO_PAIR
    else if Has(m, 2) then ONE_PAIR
    else HIGH_CARD
  }

  datatype Group = Group(rank: nat, count: nat)

  /** More cards first, then the higher rank. */
  predicate Before(a: Group, b: Group) {
    a.count > b.count || (a.count == b.count && a.rank > b.rank)
  }

  ghost predicate InOrder(gs: seq<Group>) { forall i, j :: 0 <= i < j < |gs| ==> Before(gs[i], gs[j]) }

  ghost predicate Listed(gs: seq<Group>, m: multiset<nat>) {
    && (forall i :: 0 <= i < |gs| ==> gs[i].count == m[gs[i].rank] > 0)
    && (forall r :: r in m ==> exists i :: 0 <= i < |gs| && gs[i].rank == r)
  }

  /** `gs` lists every rank of `m` once with its multiplicity, in order. */
  ghost predicate IsGroups(gs: seq<Group>, m: multiset<nat>) { InOrder(gs) && Listed(gs, m) }

  function GroupRanks(gs: seq<Group>): (ranks: seq<nat>)
    ensures |ranks| == |gs| && forall i :: 0 <= i < |gs| ==> ranks[i] == gs[i].rank
  {
    seq(|gs|, i requires 0 <= i < |gs| => gs[i].rank)
  }

  /** The fixed five places, unused ones zero. */
  predicate Padded(tie: seq<nat>, front: seq<nat>) {
    |tie| == 5 && |front| <= 5 && tie[..|front|] == front && forall i :: |front| <= i < 5 ==> tie[i] == 0
  }

  predicate Descending(s: seq<nat>) { forall i, j :: 0 <= i < j < |s| ==> s[i] >= s[j] }

  /** What breaks ties inside a category. */
  ghost predicate TieOf(m: multiset<nat>, category: nat, tie: seq<nat>) {
    if category in {STRAIGHT, STRAIGHT_FLUSH} then exists high :: StraightTo(m, high) && Padded(tie, [high])
    else if category in {HIGH_CARD, FLUSH} then |tie| == 5 && Descending(tie) && multiset(tie) == m
    else exists gs :: IsGroups(gs, m) && Padded(tie, GroupRanks(gs))
  }

  ghost predicate Ranked(h: seq<Card>, r: HandRank) {
    && r.Sized()
    && r.category == CategoryOf(Counts(h), Suited(h))
    && TieOf(Counts(h), r.category, r.tie)
  }

  // ---------------------------------------------------------------- the ranking is determined

  /** `s` without its element at `i`. */
  function Drop<T>(s: seq<T>, i: nat): seq<T>
    requires i < |s|
  {
    s[..i] + s[i + 1..]
  }

  lemma DropOne<T>(s: seq<T>, i: nat)
    requires i < |s|
    ensures |Drop(s, i)| == |s| - 1
    ensures multiset(Drop(s, i)) == multiset(s) - multiset{s[i]}
  {
    assert s == s[..i] + [s[i]] + s[i + 1..];
  }

  lemma CountsDropOne(h: seq<Card>, i: nat)
    requires i < |h|
    ensures Counts(h) == Counts(Drop(h, i)) + multiset{h[i].rank}
  {
    assert Ranks(h) == Ranks(h[..i]) + [h[i].rank] + Ranks(h[i + 1..]);
    assert Ranks(Drop(h, i)) == Ranks(h[..i]) + Ranks(h[i + 1..]);
  }

  lemma Located<T>(x: T, g: seq<T>, h: seq<T>) returns (i: nat)
    requires multiset(g) == multiset(h) && x in g
    ensures i < |h| && h[i] == x
  {
    assert x in multiset(g);
    i :| i < |h| && h[i] == x;
  }

  lemma {:induction false} CountsOfPermutation(g: seq<Card>, h: seq<Card>)
    requires multiset(g) == multiset(h)
    ensures Counts(g) == Counts(h)
    decreases |g|
  {
    if g == [] {
      assert |multiset(h)| == 0;
    } else {
      var i := Located(g[0], g, h);
      DropOne(g, 0);
      DropOne(h, i);
      CountsDropOne(g, 0);
      CountsDropOne(h, i);
      CountsOfPermutation(Drop(g, 0), Drop(h, i));
    }
  }

  lemma SuitedOfPermutation(g: seq<Card>, h: seq<Card>)
    requires multiset(g) == multiset(h)
    ensures Suited(g) == Suited(h)
  {
    assert forall c :: c in g <==> c in multiset(g);
    assert forall c :: c in h <==> c in multiset(h);
  }

  lemma RunRanks(high: nat, r: nat)
    requires high >= 4
    ensures r in multiset(Run(high)) <==> high - 4 <= r <= high
  {
    assert r in multiset(Run(high)) <==> r in Run(high);
    if high - 4 <= r <= high { assert Run(high)[high - r] == r; }
  }

  lemma WheelRanks(r: nat)
    ensures r in multiset(Wheel()) <==> r == ACE || r <= FIVE
  {
    assert r in multiset(Wheel()) <==> r in Wheel();
    if r <= FIVE { assert Wheel()[4 - r] == r; }
    assert Wheel()[0] == ACE;
  }

  lemma RunIsNoWheel(m: multiset<nat>, high: nat)
    requires high >= 4 && m == multiset(Run(high))
    ensures m != multiset(Wheel())
  {
    RunRanks(high, 0);
    RunRanks(high, ACE);
    WheelRanks(0);
    WheelRanks(ACE);
  }

  lemma StraightHighUnique(m: multiset<nat>, a: nat, b: nat)
    requires StraightTo(m, a) && StraightTo(m, b)
    ensures a == b
  {
    if a >= 4 { RunIsNoWheel(m, a); }
    if b >= 4 { RunIsNoWheel(m, b); }
    if a >= 4 && b >= 4 {
      RunRanks(a, a);
      RunRanks(a, b);
      RunRanks(b, b);
      RunRanks(b, a);
    }
  }

  lemma FirstIsHighest(s: seq<nat>, t: seq<nat>)
    requires Descending(s) && multiset(s) == multiset(t) && s != []
    ensures |t| == |s| && s[0] >= t[0]
  {
    assert |multiset(s)| == |multiset(t)|;
    assert t[0] in multiset(t);
    assert t[0] in s;
  }

  lemma {:induction false} DescendingUnique(s: seq<nat>, t: seq<nat>)
    requires Descending(s) && Descending(t) && multiset(s) == multiset(t)
    ensures s == t
    decreases |s|
  {
    if s == [] {
      assert |multiset(t)| == 0;
    } else {
      FirstIsHighest(s, t);
      FirstIsHighest(t, s);
      DropOne(s, 0);
      DropOne(t, 0);
      DescendingUnique(Drop(s, 0), Drop(t, 0));
      forall i | 0 <= i < |s| ensures s[i] == t[i] {
        if i > 0 { assert Drop(s, 0)[i - 1] == s[i] && Drop(t, 0)[i - 1] == t[i]; }
      }
    }
  }

  /** The ranks after the first group. */
  lemma GroupsTail(gs: seq<Group>, m: multiset<nat>)
    requires IsGroups(gs, m) && gs != []
    ensures IsGroups(gs[1..], m[gs[0].rank := 0])
  {
    var rest := m[gs[0].rank := 0];
    assert forall i, j :: 0 <= i < j < |gs| ==> Before(gs[i], gs[j]);
    forall r | r in rest ensures exists i :: 0 <= i < |gs[1..]| && gs[1..][i].rank == r {
      assert r in m;
      var i :| 0 <= i < |gs| && gs[i].rank == r;
      assert gs[1..][i - 1].rank == r;
    }
  }

  lemma FirstGroup(gs: seq<Group>, m: multiset<nat>, r: nat)
    requires IsGroups(gs, m) && r in m
    ensures gs != [] && (gs[0].rank == r || Before(gs[0], Group(r, m[r])))
  {
    var i :| 0 <= i < |gs| && gs[i].rank == r;
    assert gs[i] == Group(r, m[r]);
  }

  lemma NoGroups(gs: seq<Group>, m: multiset<nat>)
    requires IsGroups(gs, m)
    ensures gs == [] <==> m == multiset{}
  {
    if gs != [] { assert gs[0].rank in m; }
  }

  lemma SameFirst(gs: seq<Group>, hs: seq<Group>, m: multiset<nat>)
    requires IsGroups(gs, m) && IsGroups(hs, m) && gs != [] && hs != []
    ensures gs[0] == hs[0]
  {
    assert gs[0].rank in m && hs[0].rank in m;
    FirstGroup(hs, m, gs[0].rank);
    FirstGroup(gs, m, hs[0].rank);
  }

  lemma {:induction false} GroupsUnique(gs: seq<Group>, hs: seq<Group>, m: multiset<nat>)
    requires IsGroups(gs, m) && IsGroups(hs, m)
    ensures gs == hs
  {
    NoGroups(gs, m);
    NoGroups(hs, m);
    if gs != [] {
      SameFirst(gs, hs, m);
      GroupsTail(gs, m);
      GroupsTail(hs, m);
      GroupsUnique(gs[1..], hs[1..], m[gs[0].rank := 0]);
      assert gs == [gs[0]] + gs[1..] && hs == [hs[0]] + hs[1..];
    }
  }

  lemma PaddedUnique(s: seq<nat>, t: seq<nat>, front: seq<nat>)
    requires Padded(s, front) && Padded(t, front)
    ensures s == t
  {
    forall i | 0 <= i < 5 ensures s[i] == t[i] {
      if i < |front| { assert s[i] == s[..|front|][i] == t[..|front|][i]; }
    }
  }

  lemma TieUnique(m: multiset<nat>, category: nat, s: seq<nat>, t: seq<nat>)
    requires TieOf(m, category, s) && TieOf(m, category, t)
    ensures s == t
  {
    if category in {STRAIGHT, STRAIGHT_FLUSH} {
      var a :| StraightTo(m, a) && Padded(s, [a]);
      var b :| StraightTo(m, b) && Padded(t, [b]);
      StraightHighUnique(m, a, b);
      PaddedUnique(s, t, [a]);
    } else if category in {HIGH_CARD, FLUSH} {
      DescendingUnique(s, t);
    } else {
      var gs: seq<Group> :| IsGroups(gs, m) && Padded(s, GroupRanks(gs));
      var hs: seq<Group> :| IsGroups(hs, m) && Padded(t, GroupRanks(hs));
      GroupsUnique(gs, hs, m);
      PaddedUnique(s, t, GroupRanks(gs));
    }
  }

  /** The order of the cards does not matter: permuted hands rank the same. */
  lemma RankingIgnoresOrder(g: seq<Card>, h: seq<Card>, a: HandRank, b: HandRank)
    requires multiset(g) == multiset(h) && Ranked(g, a) && Ranked(h, b)
    ensures a.Ties(b)
  {
    CountsOfPermutation(g, h);
    SuitedOfPermutation(g, h);
    TieUnique(Counts(g), a.category, a.tie, b.tie);
  }
}

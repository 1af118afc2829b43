/** The order in which a ranked hand shows its five cards (arrangeByGroups and arrangeStraight in
    internal/card/eval.go). */
module HandArrange {
  import opened Cards
  import opened HandSpec

  function OfRank(h: seq<Card>, r: nat): seq<Card> {
    if h == [] then []
    else OfRank(h[..|h| - 1], r) + (if h[|h| - 1].rank == r then [h[|h| - 1]] else [])
  }

  function ByGroups(h: seq<Card>, gs: seq<Group>): seq<Card> {
    if gs == [] then [] else ByGroups(h, gs[..|gs| - 1]) + OfRank(h, gs[|gs| - 1].rank)
  }

  method ArrangeByGroups(sorted: seq<Card>, gs: seq<Group>) returns (out: seq<Card>)
    ensures out == ByGroups(sorted, gs)
  {
    out := [];
    for g := 0 to |gs|
      invariant out == ByGroups(sorted, gs[..g])
    {
      ghost var before := out;
      for i := 0 to |sorted|
        invariant out == before + OfRank(sorted[..i], gs[g].rank)
      {
        assert sorted[..i + 1][..i] == sorted[..i];
        if sorted[i].rank == gs[g].rank {
          out := out + [sorted[i]];
        }
      }
      assert sorted[..|sorted|] == sorted;
      assert gs[..g + 1][..g] == gs[..g];
    }
    assert gs[..|gs|] == gs;
  }

  lemma {:induction false} OfRankCards(h: seq<Card>, r: nat, c: Card)
    ensures multiset(OfRank(h, r))[c] == if c.rank == r then multiset(h)[c] else 0
  {
    if h != [] {
      OfRankCards(h[..|h| - 1], r, c);
      assert h == h[..|h| - 1] + [h[|h| - 1]];
    }
  }

  predicate Lists(gs: seq<Group>, r: nat) { exists i :: 0 <= i < |gs| && gs[i].rank == r }

  ghost predicate RanksDiffer(gs: seq<Group>) {
    forall i, j :: 0 <= i < j < |gs| ==> gs[i].rank != gs[j].rank
  }

  lemma ListsAppend(gs: seq<Group>, r: nat)
    requires gs != []
    ensures Lists(gs, r) <==> Lists(gs[..|gs| - 1], r) || gs[|gs| - 1].rank == r
  {
    if Lists(gs, r) {
      var i :| 0 <= i < |gs| && gs[i].rank == r;
      if i < |gs| - 1 { assert gs[..|gs| - 1][i].rank == r; }
    }
    if Lists(gs[..|gs| - 1], r) {
      var i :| 0 <= i < |gs| - 1 && gs[..|gs| - 1][i].rank == r;
      assert gs[i].rank == r;
    }
  }

  lemma {:induction false} ByGroupsCards(h: seq<Card>, gs: seq<Group>, c: Card)
    requires RanksDiffer(gs)
    ensures multiset(ByGroups(h, gs))[c] == if Lists(gs, c.rank) then multiset(h)[c] else 0
  {
    if gs != [] {
      var front := gs[..|gs| - 1];
      ByGroupsCards(h, front, c);
      OfRankCards(h, gs[|gs| - 1].rank, c);
      ListsAppend(gs, c.rank);
      assert Lists(front, gs[|gs| - 1].rank) ==> exists i :: 0 <= i < |front| && front[i].rank == gs[|gs| - 1].rank;
    }
  }

  lemma GroupsDiffer(gs: seq<Group>, m: multiset<nat>)
    requires IsGroups(gs, m)
    ensures RanksDiffer(gs)
  {
    forall i, j | 0 <= i < j < |gs| ensures gs[i].rank != gs[j].rank { assert Before(gs[i], gs[j]); }
  }

  lemma RankInCounts(h: seq<Card>, c: Card)
    requires c in h
    ensures c.rank in Counts(h)
  {
    var i :| 0 <= i < |h| && h[i] == c;
    assert Ranks(h)[i] == c.rank;
  }

  /** Arranging by groups neither loses nor repeats a card. */
  lemma ByGroupsPermutes(h: seq<Card>, gs: seq<Group>)
    requires IsGroups(gs, Counts(h))
    ensures multiset(ByGroups(h, gs)) == multiset(h)
  {
    GroupsDiffer(gs, Counts(h));
    forall c ensures multiset(ByGroups(h, gs))[c] == multiset(h)[c] {
      ByGroupsCards(h, gs, c);
      if c in multiset(h) { RankInCounts(h, c); }
    }
  }

  /** Bigger groups first, then higher ranks. */
  ghost predicate Shown(best: seq<Card>, m: multiset<nat>) {
    forall i, j :: 0 <= i < j < |best| ==>
      !Before(Group(best[j].rank, m[best[j].rank]), Group(best[i].rank, m[best[i].rank]))
  }

  lemma {:induction false} OfRankRanks(h: seq<Card>, r: nat)
    ensures forall i :: 0 <= i < |OfRank(h, r)| ==> OfRank(h, r)[i].rank == r
  {
    if h != [] { OfRankRanks(h[..|h| - 1], r); }
  }

  lemma {:induction false} ByGroupsRanks(h: seq<Card>, gs: seq<Group>)
    ensures forall i :: 0 <= i < |ByGroups(h, gs)| ==> Lists(gs, ByGroups(h, gs)[i].rank)
  {
    if gs != [] {
      ByGroupsRanks(h, gs[..|gs| - 1]);
      OfRankRanks(h, gs[|gs| - 1].rank);
      forall r ensures Lists(gs[..|gs| - 1], r) ==> Lists(gs, r) { ListsAppend(gs, r); }
      assert Lists(gs, gs[|gs| - 1].rank);
    }
  }

  lemma {:induction false} ByGroupsShown(h: seq<Card>, gs: seq<Group>, m: multiset<nat>)
    requires InOrder(gs) && forall i :: 0 <= i < |gs| ==> gs[i].count == m[gs[i].rank]
    ensures Shown(ByGroups(h, gs), m)
  {
    if gs != [] {
      var front, last := gs[..|gs| - 1], gs[|gs| - 1];
      ByGroupsShown(h, front, m);
      ByGroupsRanks(h, front);
      OfRankRanks(h, last.rank);
      forall r | Lists(front, r) ensures Before(Group(r, m[r]), Group(last.rank, m[last.rank])) {
        var i :| 0 <= i < |front| && front[i].rank == r;
        assert Before(gs[i], last);
      }
      ShownConcat(ByGroups(h, front), OfRank(h, last.rank), last, m);
    }
  }

  lemma ShownConcat(a: seq<Card>, b: seq<Card>, last: Group, m: multiset<nat>)
    requires Shown(a, m) && last.count == m[last.rank]
    requires forall i :: 0 <= i < |b| ==> b[i].rank == last.rank
    requires forall i :: 0 <= i < |a| ==> Before(Group(a[i].rank, m[a[i].rank]), last)
    ensures Shown(a + b, m)
  {
  }

  // ------------------------------------------------------------------------------- straights

  /** A straight from the top down: the wheel's ace moves behind the five. */
  method ArrangeStraight(sorted: seq<Card>, high: nat) returns (out: seq<Card>)
    requires |sorted| == 5 && (high == FIVE ==> Ranks(sorted) == Wheel())
    ensures out == if high == FIVE then sorted[1..] + [sorted[0]] else sorted
  {
    if high != FIVE {
      return sorted;
    }
    out := [];
    assert forall i :: 0 <= i < 5 ==> sorted[i].rank == Ranks(sorted)[i] == Wheel()[i];
    for i := 0 to 5
      invariant out == if i == 0 then [] else sorted[1..i]
    {
      if sorted[i].rank != ACE {
        out := out + [sorted[i]];
      }
    }
    out := out + [sorted[0]];
  }

  lemma AceLast(sorted: seq<Card>)
    requires |sorted| == 5 && Ranks(sorted) == Wheel()
    ensures multiset(sorted[1..] + [sorted[0]]) == multiset(sorted)
    ensures Ranks(sorted[1..] + [sorted[0]]) == [FIVE, 2, 1, 0, ACE]
  {
    assert sorted == [sorted[0]] + sorted[1..];
    assert Ranks(sorted[1..] + [sorted[0]]) == Ranks(sorted)[1..] + [Ranks(sorted)[0]];
  }
}

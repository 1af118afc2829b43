/** Ranking five cards (Rank5 and its helpers in internal/card/eval.go), proved against the
    counting specification of HandSpec. */
module HandEval {
  import opened Cards
  import opened Sequences
  import opened Sorting
  import opened HandSpec

  // ------------------------------------------------------------------------------- straights

  lemma StraightsDescend(high: nat)
    ensures high >= 4 ==> Descending(Run(high))
    ensures Descending(Wheel())
  {
  }

  lemma SameListing(r: seq<nat>, s: seq<nat>)
    requires Descending(r) && Descending(s)
    ensures multiset(r) == multiset(s) <==> r == s
  {
    if multiset(r) == multiset(s) { DescendingUnique(r, s); }
  }

  /** Sorted downwards, a straight reads as its run or as the wheel. */
  lemma StraightIffListing(r: seq<nat>, high: nat)
    requires |r| == 5 && Descending(r)
    ensures StraightTo(multiset(r), high) <==> (high >= 4 && r == Run(high)) || (high == FIVE && r == Wheel())
  {
    StraightsDescend(high);
    if high >= 4 {
      SameListing(r, Run(high));
    } else {
      SameListing(r, Wheel());
    }
  }

  predicate StepsDown(r: seq<nat>, n: nat)
    requires n < |r|
  {
    forall i :: 0 <= i < n ==> r[i] == r[i + 1] + 1
  }

  lemma StepsDownIffRun(r: seq<nat>)
    requires |r| == 5
    ensures StepsDown(r, 4) <==> r[0] >= 4 && r == Run(r[0])
  {
    if StepsDown(r, 4) {
      assert r[0] == r[0 + 1] + 1 && r[1] == r[1 + 1] + 1 && r[2] == r[2 + 1] + 1 && r[3] == r[3 + 1] + 1;
    }
  }

  lemma StraightIff(r: seq<nat>)
    requires |r| == 5 && Descending(r)
    ensures IsStraight(multiset(r)) <==> r == Wheel() || StepsDown(r, 4)
    ensures r == Wheel() ==> StraightTo(multiset(r), FIVE)
    ensures StepsDown(r, 4) ==> StraightTo(multiset(r), r[0])
  {
    StepsDownIffRun(r);
    forall high | StraightTo(multiset(r), high) ensures r == Wheel() || StepsDown(r, 4) {
      StraightIffListing(r, high);
    }
    StraightIffListing(r, FIVE);
    StraightIffListing(r, r[0]);
  }

  method DetectStraight(r: seq<nat>) returns (straight: bool, high: nat)
    requires |r| == 5 && Descending(r)
    ensures straight <==> IsStraight(multiset(r))
    ensures straight ==> StraightTo(multiset(r), high)
  {
    StraightIff(r);
    if r[0] == ACE && r[1] == FIVE && r[2] == 2 && r[3] == 1 && r[4] == 0 {
      assert r == Wheel();
      return true, FIVE;
    }
    for i := 0 to 4
      invariant StepsDown(r, i)
    {
      if r[i] != r[i + 1] + 1 {
        return false, 0;
      }
    }
    return true, r[0];
  }

  // ------------------------------------------------------------------------------------ groups

  /** The tally of the first cards of a hand. */
  ghost predicate Tallied(counts: map<nat, nat>, m: multiset<nat>) {
    && (forall r :: r in counts <==> r in m)
    && (forall r :: r in counts ==> counts[r] == m[r])
  }

  method Tally(h: seq<Card>) returns (counts: map<nat, nat>)
    ensures Tallied(counts, Counts(h))
  {
    counts := map[];
    assert Counts(h[..0]) == multiset{};
    for i := 0 to |h|
      invariant Tallied(counts, Counts(h[..i]))
    {
      var r := h[i].rank;
      assert Ranks(h[..i + 1]) == Ranks(h[..i]) + [r];
      counts := counts[r := (if r in counts then counts[r] else 0) + 1];
    }
    assert h[..|h|] == h;
  }

  /** The groups of a tally, in whatever order the map is walked. */
  method ListGroups(counts: map<nat, nat>) returns (gs: seq<Group>)
    ensures forall g :: g in gs <==> g.rank in counts && g.count == counts[g.rank]
    ensures forall i, j :: 0 <= i < j < |gs| ==> gs[i].rank != gs[j].rank
  {
    gs := [];
    var left := counts.Keys;
    while left != {}
      invariant left <= counts.Keys
      invariant forall g :: g in gs <==> g.rank in counts && g.rank !in left && g.count == counts[g.rank]
      invariant forall i, j :: 0 <= i < j < |gs| ==> gs[i].rank != gs[j].rank
    {
      var r :| r in left;
      assert forall g :: g in gs ==> g.rank != r;
      gs := gs + [Group(r, counts[r])];
      left := left - {r};
    }
  }

  /** Sorting groups of different ranks puts them strictly in order. */
  lemma SortedGroups(raw: seq<Group>, gs: seq<Group>)
    requires forall i, j :: 0 <= i < j < |raw| ==> raw[i].rank != raw[j].rank
    requires multiset(raw) == multiset(gs)
    requires Ordered(gs, (a: Group, b: Group) => Before(a, b))
    requires forall g, k :: g in raw && k in raw && g.rank == k.rank ==> g == k
    ensures InOrder(gs)
  {
    DistinctPermutation(raw, gs);
    forall i, j | 0 <= i < j < |gs| ensures Before(gs[i], gs[j]) {
      assert !Before(gs[j], gs[i]);
      assert gs[i] in multiset(gs) && gs[j] in multiset(gs);
    }
  }

  lemma GroupsOfTally(raw: seq<Group>, gs: seq<Group>, counts: map<nat, nat>, m: multiset<nat>)
    requires Tallied(counts, m) && InOrder(gs) && multiset(raw) == multiset(gs)
    requires forall g :: g in raw <==> g.rank in counts && g.count == counts[g.rank]
    ensures IsGroups(gs, m)
  {
    forall g ensures g in gs <==> g in raw { assert g in multiset(gs) <==> g in multiset(raw); }
    forall r | r in m ensures exists i :: 0 <= i < |gs| && gs[i].rank == r {
      assert Group(r, counts[r]) in gs;
    }
  }

  method GroupByRank(h: seq<Card>) returns (gs: seq<Group>)
    ensures IsGroups(gs, Counts(h))
  {
    var counts := Tally(h);
    var raw := ListGroups(counts);
    gs := SortSlice(raw, (a: Group, b: Group) => Before(a, b));
    SortedGroups(raw, gs);
    GroupsOfTally(raw, gs, counts, Counts(h));
  }
}

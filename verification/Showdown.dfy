/** Picking the winners (RunShowdown in internal/peer/showdown.go). */
module Showdown {
  import opened Sequences
  import opened Sorting
  import opened HandOrder

  datatype Claim = Claim(seat: nat, hand: HandRank)

  /** One verified claim per seat, with five tiebreakers each. */
  ghost predicate Claims(claims: seq<Claim>) {
    && (forall i :: 0 <= i < |claims| ==> claims[i].hand.Sized())
    && (forall i, j :: 0 <= i < j < |claims| ==> claims[i].seat != claims[j].seat)
  }

  /** No claim beats this hand. */
  ghost predicate Unbeaten(claims: seq<Claim>, hand: HandRank)
    requires hand.Sized() && Claims(claims)
  {
    forall i :: 0 <= i < |claims| ==> Comparison(hand, claims[i].hand) >= 0
  }

  ghost predicate Wins(claims: seq<Claim>, seat: nat)
    requires Claims(claims)
  {
    exists i :: 0 <= i < |claims| && claims[i].seat == seat && Unbeaten(claims, claims[i].hand)
  }

  ghost predicate Ascending(s: seq<nat>) { forall i, j :: 0 <= i < j < |s| ==> s[i] < s[j] }

  /** Exactly the unbeaten seats, each once, in seat order. */
  ghost predicate IsWinners(claims: seq<Claim>, winners: seq<nat>)
    requires Claims(claims)
  {
    Ascending(winners) && forall seat :: seat in winners <==> Wins(claims, seat)
  }

  method SortBySeat(claims: seq<Claim>) returns (sorted: seq<Claim>)
    requires Claims(claims)
    ensures multiset(sorted) == multiset(claims) && Claims(sorted)
    ensures forall i, j :: 0 <= i < j < |sorted| ==> sorted[i].seat < sorted[j].seat
  {
    var less := (a: Claim, b: Claim) => a.seat < b.seat;
    sorted := SortSlice(claims, less);
    forall i | 0 <= i < |sorted| ensures sorted[i] in claims { assert sorted[i] in multiset(sorted); }
    forall i, j | 0 <= i < j < |sorted| ensures sorted[i].seat < sorted[j].seat {
      assert !less(sorted[j], sorted[i]);
      SeatTwice(claims, sorted, i, j);
    }
  }

  lemma SeatTwice(claims: seq<Claim>, sorted: seq<Claim>, i: nat, j: nat)
    requires Claims(claims) && multiset(sorted) == multiset(claims) && i < j < |sorted|
    ensures sorted[i].seat != sorted[j].seat
  {
    DistinctPermutation(claims, sorted);
    assert sorted[i] in multiset(claims) && sorted[j] in multiset(claims);
  }

  /** Some claim among the first `k` is the seat's and ties with `best`. */
  ghost predicate TiesBest(sorted: seq<Claim>, k: nat, best: HandRank, seat: nat)
    requires Claims(sorted) && k <= |sorted| && best.Sized()
  {
    exists i :: 0 <= i < k && sorted[i].seat == seat && Comparison(best, sorted[i].hand) == 0
  }

  /** After `k` claims: `best` is one of them, unbeaten among them, and `winners` are the ties. */
  ghost predicate Leading(sorted: seq<Claim>, k: nat, best: Claim, winners: seq<nat>)
    requires Claims(sorted) && k <= |sorted|
  {
    && best in sorted[..k]
    && best.hand.Sized()
    && (forall i :: 0 <= i < k ==> Comparison(best.hand, sorted[i].hand) >= 0)
    && Ascending(winners)
    && (forall seat :: seat in winners <==> TiesBest(sorted, k, best.hand, seat))
  }

  lemma LeadingStart(sorted: seq<Claim>)
    requires Claims(sorted) && sorted != []
    ensures Leading(sorted, 1, sorted[0], [sorted[0].seat])
  {
    CompareIsTotalPreorder(sorted[0].hand, sorted[0].hand, sorted[0].hand);
  }

  lemma TakesOver(sorted: seq<Claim>, k: nat, best: Claim, winners: seq<nat>)
    requires Claims(sorted) && k < |sorted| && Leading(sorted, k, best, winners)
    requires Comparison(sorted[k].hand, best.hand) == 1
    ensures Leading(sorted, k + 1, sorted[k], [sorted[k].seat])
  {
    var c := sorted[k];
    CompareIsTotalPreorder(c.hand, c.hand, c.hand);
    forall i | 0 <= i < k ensures Comparison(c.hand, sorted[i].hand) == 1 {
      CompareIsTotalPreorder(c.hand, best.hand, sorted[i].hand);
      CompareIsTotalPreorder(best.hand, sorted[i].hand, c.hand);
      CompareIsTotalPreorder(c.hand, sorted[i].hand, c.hand);
    }
  }

  lemma Stays(sorted: seq<Claim>, k: nat, best: Claim, winners: seq<nat>)
    requires Claims(sorted) && k < |sorted| && Leading(sorted, k, best, winners)
    requires forall i, j :: 0 <= i < j < |sorted| ==> sorted[i].seat < sorted[j].seat
    requires Comparison(sorted[k].hand, best.hand) <= 0
    ensures Leading(sorted, k + 1, best,
                    if Comparison(sorted[k].hand, best.hand) == 0 then winners + [sorted[k].seat] else winners)
  {
    CompareIsTotalPreorder(sorted[k].hand, best.hand, best.hand);
    forall i | 0 <= i < |winners| ensures winners[i] < sorted[k].seat {
      assert TiesBest(sorted, k, best.hand, winners[i]);
    }
    assert sorted[..k + 1] == sorted[..k] + [sorted[k]];
    var next := if Comparison(sorted[k].hand, best.hand) == 0 then winners + [sorted[k].seat] else winners;
    assert Ascending(next);
    forall seat
      ensures seat in next <==>
              seat in winners || (sorted[k].seat == seat && Comparison(best.hand, sorted[k].hand) == 0)
    {
    }
    forall seat
      ensures TiesBest(sorted, k + 1, best.hand, seat) <==>
              TiesBest(sorted, k, best.hand, seat) || (sorted[k].seat == seat && Comparison(best.hand, sorted[k].hand) == 0)
    {
    }
  }

  lemma LeadersWin(sorted: seq<Claim>, best: Claim, winners: seq<nat>)
    requires Claims(sorted) && Leading(sorted, |sorted|, best, winners)
    ensures IsWinners(sorted, winners)
  {
    forall seat ensures seat in winners <==> Wins(sorted, seat) {
      forall i | 0 <= i < |sorted| && Comparison(best.hand, sorted[i].hand) == 0
        ensures Unbeaten(sorted, sorted[i].hand)
      {
        TieUnbeaten(sorted, best.hand, sorted[i].hand);
      }
      forall i | 0 <= i < |sorted| && Unbeaten(sorted, sorted[i].hand)
        ensures Comparison(best.hand, sorted[i].hand) == 0
      {
        assert best in sorted;
        CompareIsTotalPreorder(best.hand, sorted[i].hand, best.hand);
      }
    }
  }

  lemma TieUnbeaten(sorted: seq<Claim>, best: HandRank, hand: HandRank)
    requires Claims(sorted) && best.Sized() && hand.Sized() && Unbeaten(sorted, best)
    requires Comparison(best, hand) == 0
    ensures Unbeaten(sorted, hand)
  {
    forall i | 0 <= i < |sorted| ensures Comparison(hand, sorted[i].hand) >= 0 {
      CompareIsTotalPreorder(best, hand, best);
      CompareIsTotalPreorder(hand, best, sorted[i].hand);
    }
  }

  lemma WinnersOfPermutation(claims: seq<Claim>, other: seq<Claim>, winners: seq<nat>)
    requires Claims(claims) && Claims(other) && multiset(claims) == multiset(other)
    requires IsWinners(claims, winners)
    ensures IsWinners(other, winners)
  {
    forall c ensures c in claims <==> c in other { assert c in multiset(claims) <==> c in multiset(other); }
    forall hand: HandRank | hand.Sized() ensures Unbeaten(claims, hand) <==> Unbeaten(other, hand) {
      assert Unbeaten(claims, hand) <==> forall c :: c in claims ==> Comparison(hand, c.hand) >= 0;
      assert Unbeaten(other, hand) <==> forall c :: c in other ==> Comparison(hand, c.hand) >= 0;
    }
    forall seat ensures Wins(claims, seat) <==> Wins(other, seat) {
      assert Wins(claims, seat) <==> exists c :: c in claims && c.seat == seat && Unbeaten(claims, c.hand);
      assert Wins(other, seat) <==> exists c :: c in other && c.seat == seat && Unbeaten(other, c.hand);
    }
  }

  /** Whatever order the claims arrived in, the winners are the unbeaten seats in seat order. */
  method Winners(claims: seq<Claim>) returns (winners: seq<nat>)
    requires Claims(claims)
    ensures IsWinners(claims, winners)
    ensures claims == [] <==> winners == []
  {
    if claims == [] {
      return [];
    }
    var sorted := SortBySeat(claims);
    assert |multiset(sorted)| == |multiset(claims)|;
    var best := sorted[0];
    winners := [best.seat];
    LeadingStart(sorted);
    for k := 1 to |sorted|
      invariant Leading(sorted, k, best, winners) && winners != []
    {
      var c := sorted[k];
      var sign := Compare(c.hand, best.hand);
      if sign == 1 {
        TakesOver(sorted, k, best, winners);
        best := c;
        winners := [c.seat];
      } else {
        CompareIsTotalPreorder(c.hand, best.hand, c.hand);
        Stays(sorted, k, best, winners);
        if sign == 0 {
          winners := winners + [c.seat];
        }
      }
    }
    LeadersWin(sorted, best, winners);
    WinnersOfPermutation(sorted, claims, winners);
  }

  lemma AscendingTail(s: seq<nat>, x: nat)
    requires Ascending(s) && s != []
    ensures x in s[1..] <==> x in s && x != s[0]
  {
    if x in s && x != s[0] {
      var i :| 0 <= i < |s| && s[i] == x;
      assert s[1..][i - 1] == x;
    }
  }

  lemma {:induction false} AscendingUnique(s: seq<nat>, t: seq<nat>)
    requires Ascending(s) && Ascending(t) && forall x :: x in s <==> x in t
    ensures s == t
    decreases |s|
  {
    assert s == [] <==> t == [] by {
      assert s != [] ==> s[0] in t;
      assert t != [] ==> t[0] in s;
    }
    if s != [] {
      assert s[0] in t && t[0] in s;
      assert s == [s[0]] + s[1..] && t == [t[0]] + t[1..];
      forall x ensures x in s[1..] <==> x in s && x != s[0] { AscendingTail(s, x); }
      forall x ensures x in t[1..] <==> x in t && x != t[0] { AscendingTail(t, x); }
      AscendingUnique(s[1..], t[1..]);
    }
  }

  /** Some claim has this seat and ties with this hand. */
  ghost predicate Matched(claims: seq<Claim>, c: Claim) {
    exists e :: e in claims && e.seat == c.seat && e.hand.Ties(c.hand)
  }

  /** Seat for seat the same strengths, however they are listed and whichever cards show them. */
  ghost predicate SameStrengths(claims: seq<Claim>, other: seq<Claim>) {
    && (forall c :: c in claims ==> Matched(other, c))
    && (forall e :: e in other ==> Matched(claims, e))
  }

  lemma MatchedBeaten(claims: seq<Claim>, hand: HandRank, c: Claim)
    requires Claims(claims) && hand.Sized() && Unbeaten(claims, hand) && c.hand.Sized() && Matched(claims, c)
    ensures Comparison(hand, c.hand) >= 0
  {
    var e :| e in claims && e.seat == c.seat && e.hand.Ties(c.hand);
    assert Comparison(hand, e.hand) >= 0;
  }

  lemma MatchedIndex(claims: seq<Claim>, c: Claim) returns (k: nat)
    requires Matched(claims, c)
    ensures k < |claims| && claims[k].seat == c.seat && claims[k].hand.Ties(c.hand)
  {
    var e :| e in claims && e.seat == c.seat && e.hand.Ties(c.hand);
    k :| k < |claims| && claims[k] == e;
  }

  lemma StrengthsAgree(claims: seq<Claim>, other: seq<Claim>, seat: nat)
    requires Claims(claims) && Claims(other) && SameStrengths(claims, other) && Wins(claims, seat)
    ensures Wins(other, seat)
  {
    hide Matched;
    var i :| 0 <= i < |claims| && claims[i].seat == seat && Unbeaten(claims, claims[i].hand);
    var k := MatchedIndex(other, claims[i]);
    forall j | 0 <= j < |other| ensures Comparison(other[k].hand, other[j].hand) >= 0 {
      MatchedBeaten(claims, claims[i].hand, other[j]);
    }
    assert Unbeaten(other, other[k].hand);
  }

  /** Peers that verified the same claims name the same winners. */
  lemma WinnersAgree(claims: seq<Claim>, other: seq<Claim>, winners: seq<nat>, others: seq<nat>)
    requires Claims(claims) && Claims(other) && SameStrengths(claims, other)
    requires IsWinners(claims, winners) && IsWinners(other, others)
    ensures winners == others
  {
    forall seat ensures seat in winners <==> seat in others {
      if seat in winners { StrengthsAgree(claims, other, seat); }
      if seat in others { StrengthsAgree(other, claims, seat); }
    }
    AscendingUnique(winners, others);
  }

  /** One claim for every seat in `seats`, as strong as that seat's hand in `hands`. */
  ghost predicate ClaimsOf(claims: seq<Claim>, seats: set<nat>, hands: map<nat, HandRank>) {
    && Claims(claims) && seats <= hands.Keys
    && (forall i :: 0 <= i < |claims| ==> claims[i].seat in seats && hands[claims[i].seat].Ties(claims[i].hand))
    && (forall s :: s in seats ==> exists i :: 0 <= i < |claims| && claims[i].seat == s)
  }

  lemma ClaimAt(claims: seq<Claim>, seats: set<nat>, hands: map<nat, HandRank>, s: nat) returns (i: nat)
    requires ClaimsOf(claims, seats, hands) && s in seats
    ensures i < |claims| && claims[i].seat == s && hands[s].Ties(claims[i].hand) && hands[s].Sized()
  {
    i :| i < |claims| && claims[i].seat == s;
  }

  /** A seat wins exactly when its hand is at least as strong as every seat's. */
  lemma WinsIffStrongest(claims: seq<Claim>, seats: set<nat>, hands: map<nat, HandRank>, seat: nat)
    requires ClaimsOf(claims, seats, hands) && forall s :: s in seats ==> hands[s].Sized()
    ensures Wins(claims, seat) <==> seat in seats && forall s :: s in seats ==> Comparison(hands[seat], hands[s]) >= 0
  {
    if Wins(claims, seat) {
      var i :| 0 <= i < |claims| && claims[i].seat == seat && Unbeaten(claims, claims[i].hand);
      forall s | s in seats ensures Comparison(hands[seat], hands[s]) >= 0 {
        var j := ClaimAt(claims, seats, hands, s);
      }
    }
    if seat in seats && forall s :: s in seats ==> Comparison(hands[seat], hands[s]) >= 0 {
      var i := ClaimAt(claims, seats, hands, seat);
      forall j | 0 <= j < |claims| ensures Comparison(claims[i].hand, claims[j].hand) >= 0 {
        assert Comparison(hands[seat], hands[claims[j].seat]) >= 0;
      }
      assert Unbeaten(claims, claims[i].hand);
    }
  }
}

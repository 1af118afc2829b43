/** From the last round to the winners: the rounds open the whole board, every peer accepts every
    claim, and all name the same winners. */
module HandEnd {
  import opened MentalPoker
  import opened DealRun
  import opened DealTrace
  import opened HandOrder
  import opened ShowdownRun
  import BestHand
  import Betting
  import Cards
  import Entries
  import HandFlow
  import LogRules
  import Showdown

  // ------------------------------------------------------------------------------- the board

  lemma OpenPlaces(n: nat, street: nat, b: nat)
    ensures 2 * n + b in HandFlow.BoardUpTo(n, street) <==> b < |HandFlow.BoardUpTo(n, street)|
    ensures street >= 3 ==> |HandFlow.BoardUpTo(n, street)| == 5
  {
    var board := HandFlow.BoardUpTo(n, street);
    if b < |board| { assert board[b] == 2 * n + b; }
  }

  /** The seat has taken its own step for the board cards at `shown` and for no others. */
  ghost predicate Revealed(n: nat, acts: Steps, seat: nat, shown: seq<nat>) {
    forall b: nat :: TookPlace(n, acts, seat, b) <==> 2 * n + b in shown
  }

  lemma ShownIsFull(d: Deal, board: seq<string>)
    requires d.Ok() && BoardShows(d, board, 5)
    ensures FullBoard(board)
  {
    hide Plain;
    forall b: nat | b < 5 ensures board[b] != "" { assert ShowsDealt(d, board, b); }
  }

  /** In any run of the table, a seat that has revealed what its rounds have opened has on its board exactly
      the cards dealt there: all five from the river on, and so whenever there is a showdown. */
  lemma RoundsFillTheBoard(d: Deal, run: seq<DealRun.Table>, acts: Steps, seat: nat, s: LogRules.Session,
                           log: seq<Entries.Entry>, shown: seq<nat>)
    requires d.Ok() && Labelled(d, run, acts) && seat < |d.keys|
    requires s.Playable() && s.n == |d.keys| && HandFlow.InStep(s, log, shown) && Revealed(s.n, acts, seat, shown)
    ensures |run[|run| - 1]| == |d.keys| && BoardShows(d, run[|run| - 1][seat].board, |shown|)
    ensures var t := Betting.After(log, s.n, s.stack);
            t.street >= 3 || (t.over && Betting.Live(t.folded) >= 2) ==> FullBoard(run[|run| - 1][seat].board)
  {
    hide Labelled;
    hide TookPlace;
    hide BoardShows;
    hide FullBoard;
    hide HandFlow.InStep;
    hide HandFlow.BoardUpTo;
    hide Betting.Live;
    HandFlow.InStepShown(s, log, shown);
    LabelledSize(d, run, acts);
    var t := Betting.After(log, s.n, s.stack);
    OpenPlaces(s.n, t.street, 0);
    forall b: nat ensures TookPlace(s.n, acts, seat, b) <==> b < |shown| { OpenPlaces(s.n, t.street, b); }
    BoardIsDealt(d, run, acts, seat, |shown|);
    if t.over && Betting.Live(t.folded) >= 2 { HandFlow.BoardAtShowdown(s, log, shown); }
    if |shown| == 5 { ShownIsFull(d, run[|run| - 1][seat].board); }
  }

  // ---------------------------------------------------------------------------- the showdown

  datatype Showing = Refused | Result(winners: seq<nat>, claims: seq<Showdown.Claim>)

  /** The seat is in, and its claim holds against the polls and the board. */
  ghost predicate Stands(folded: seq<bool>, polls: seq<Polls>, board: seq<string>, p: nat, seat: nat)
    requires p > 0 && |polls| <= |folded|
  {
    && seat < |polls| && !folded[seat]
    && Acceptable(seat, |polls|, polls[seat].claim, polls[seat].relay1, polls[seat].relay2, board, p)
  }

  /** Exactly the standing claims of the first `k` seats, each with the best hand of its cards. */
  ghost predicate Gathered(folded: seq<bool>, polls: seq<Polls>, board: seq<string>, p: nat,
                           claims: seq<Showdown.Claim>, k: nat)
    requires p > 0 && |polls| <= |folded| && k <= |polls|
  {
    && (forall i :: 0 <= i < |claims| ==> GatheredClaim(folded, polls, board, p, claims[i]) && claims[i].seat < k)
    && (forall seat :: 0 <= seat < k && Stands(folded, polls, board, p, seat) ==>
          exists i :: 0 <= i < |claims| && claims[i].seat == seat)
  }

  ghost predicate GatheredClaim(folded: seq<bool>, polls: seq<Polls>, board: seq<string>, p: nat, c: Showdown.Claim)
    requires p > 0 && |polls| <= |folded|
  {
    && c.hand.Sized() && Stands(folded, polls, board, p, c.seat)
    && BestHand.IsBest(Parsed(ClaimStrings(polls[c.seat].claim.file, board)), c.hand)
  }

  lemma GatherNone(folded: seq<bool>, polls: seq<Polls>, board: seq<string>, p: nat, claims: seq<Showdown.Claim>, k: nat)
    requires p > 0 && |polls| <= |folded| && k < |polls|
    requires Gathered(folded, polls, board, p, claims, k) && !Stands(folded, polls, board, p, k)
    ensures Gathered(folded, polls, board, p, claims, k + 1)
  {
    hide Stands;
    hide GatheredClaim;
  }

  lemma GatherOne(folded: seq<bool>, polls: seq<Polls>, board: seq<string>, p: nat, claims: seq<Showdown.Claim>, k: nat,
                  hand: HandRank)
    requires p > 0 && |polls| <= |folded| && k < |polls| && Showdown.Claims(claims) && hand.Sized()
    requires Gathered(folded, polls, board, p, claims, k)
    requires GatheredClaim(folded, polls, board, p, Showdown.Claim(k, hand))
    ensures Showdown.Claims(claims + [Showdown.Claim(k, hand)])
    ensures Gathered(folded, polls, board, p, claims + [Showdown.Claim(k, hand)], k + 1)
  {
    hide Stands;
    hide GatheredClaim;
    var more := claims + [Showdown.Claim(k, hand)];
    forall seat | 0 <= seat < k + 1 && Stands(folded, polls, board, p, seat)
      ensures exists i :: 0 <= i < |more| && more[i].seat == seat
    {
      if seat < k {
        var i :| 0 <= i < |claims| && claims[i].seat == seat;
        assert more[i].seat == seat;
      } else {
        assert more[|claims|].seat == seat;
      }
    }
  }

  lemma BestIsSized(cards: seq<Cards.Card>, hand: HandRank)
    requires BestHand.IsBest(cards, hand)
    ensures hand.Sized()
  {
  }

  /** `RunShowdown`. The claims are gathered here in seat order; `Winners` accepts them in any order. */
  method RunShowdown(me: nat, folded: seq<bool>, polls: seq<Polls>, board: seq<string>, p: nat) returns (r: Showing)
    requires p > 0 && |polls| <= |folded|
    ensures r.Refused? <==> me >= |folded|
    ensures r.Result? ==> Showdown.Claims(r.claims) && Gathered(folded, polls, board, p, r.claims, |polls|)
    ensures r.Result? ==> Showdown.IsWinners(r.claims, r.winners) && (r.winners == [] <==> r.claims == [])
  {
    hide BestHand.IsBest;
    hide Gathered;
    hide Showdown.IsWinners;
    if me >= |folded| {
      return Refused;
    }
    var claims: seq<Showdown.Claim> := [];
    GatherStart(folded, polls, board, p);
    for seat := 0 to |polls|
      invariant Showdown.Claims(claims) && Gathered(folded, polls, board, p, claims, seat)
    {
      if folded[seat] {
        GatherNone(folded, polls, board, p, claims, seat);
        continue;
      }
      var v := PollAndVerifyClaim(seat, |polls|, polls[seat].claim, polls[seat].relay1, polls[seat].relay2, board, p);
      if v.Verified? {
        BestIsSized(Parsed(ClaimStrings(polls[seat].claim.file, board)), v.hand);
        GatherOne(folded, polls, board, p, claims, seat, v.hand);
        claims := claims + [Showdown.Claim(seat, v.hand)];
      } else {
        GatherNone(folded, polls, board, p, claims, seat);
      }
    }
    var winners := Showdown.Winners(claims);
    return Result(winners, claims);
  }

  lemma GatherStart(folded: seq<bool>, polls: seq<Polls>, board: seq<string>, p: nat)
    requires p > 0 && |polls| <= |folded|
    ensures Gathered(folded, polls, board, p, [], 0)
  {
  }

  // -------------------------------------------------------------------------------- in a run

  ghost predicate Polled(n: nat, run: seq<DealRun.Table>, polls: seq<Polls>)
    requires n >= 2
  {
    && |polls| == n
    && forall seat: nat :: seat < n ==>
         exists i: nat, j: nat, k: nat :: PolledAt(n, run, seat, polls[seat], i, j, k)
  }

  /** The seats that are in and whose three polls have all returned, the claim with both cards. */
  function Claimants(folded: seq<bool>, polls: seq<Polls>, k: nat): (s: set<nat>)
    requires k <= |polls| <= |folded|
    ensures forall seat :: seat in s <==> 0 <= seat < k && !folded[seat] && Whole(polls[seat])
  {
    if k == 0 then {}
    else Claimants(folded, polls, k - 1) + (if !folded[k - 1] && Whole(polls[k - 1]) then {k - 1} else {})
  }

  lemma SeatStands(d: Deal, run: seq<DealRun.Table>, folded: seq<bool>, polls: seq<Polls>, seat: nat, l: nat, v: nat)
    requires d.Ok() && Run(d, run) && |d.keys| <= 23 && Polled(|d.keys|, run, polls) && |polls| <= |folded|
    requires seat < |d.keys| && l < |run| && v < |run[l]| && FullBoard(run[l][v].board)
    ensures Stands(folded, polls, run[l][v].board, d.p, seat) <==> !folded[seat] && Whole(polls[seat])
    ensures Complete(polls[seat].claim) ==>
              var strings := ClaimStrings(polls[seat].claim.file, run[l][v].board);
              AllParse(strings) && Parsed(strings) == Seven(d, seat)
  {
    hide Run;
    hide FullBoard;
    hide Acceptable;
    hide AllParse;
    hide Parsed;
    hide Seven;
    var i: nat, j: nat, k: nat :| PolledAt(|d.keys|, run, seat, polls[seat], i, j, k);
    HonestClaimAccepted(d, run, i, j, k, seat, polls[seat], l, v);
  }

  /** What a verifier gathers: every claimant with the best of its seven cards. */
  lemma GatheredIsCollected(d: Deal, run: seq<DealRun.Table>, folded: seq<bool>, polls: seq<Polls>, l: nat, v: nat,
                            claims: seq<Showdown.Claim>)
    requires d.Ok() && Run(d, run) && |d.keys| <= 23 && Polled(|d.keys|, run, polls) && |polls| <= |folded|
    requires l < |run| && v < |run[l]| && FullBoard(run[l][v].board)
    requires Showdown.Claims(claims) && Gathered(folded, polls, run[l][v].board, d.p, claims, |polls|)
    ensures Collected(d, Claimants(folded, polls, |polls|), claims)
  {
    hide Run;
    hide Polled;
    hide FullBoard;
    hide Stands;
    hide Seven;
    hide AllParse;
    hide ClaimStrings;
    hide BestHand.IsBest;
    hide Showdown.Claims;
    PolledSize(|d.keys|, run, polls);
    var seats := Claimants(folded, polls, |polls|);
    forall i | 0 <= i < |claims|
      ensures claims[i].seat in seats && BestHand.IsBest(Seven(d, claims[i].seat), claims[i].hand)
    {
      assert GatheredClaim(folded, polls, run[l][v].board, d.p, claims[i]);
      SeatStands(d, run, folded, polls, claims[i].seat, l, v);
    }
    forall s | s in seats ensures exists i :: 0 <= i < |claims| && claims[i].seat == s {
      SeatStands(d, run, folded, polls, s, l, v);
    }
  }

  lemma PolledSize(n: nat, run: seq<DealRun.Table>, polls: seq<Polls>)
    requires n >= 2 && Polled(n, run, polls)
    ensures |polls| == n
  {
  }

  // ------------------------------------------------------------------------- what peers decide

  /** How a peer ends a hand: the moment of its showdown, the board cards its rounds opened, its polls and its
      result. */
  datatype Finish = Finish(at: nat, shown: seq<nat>, polls: seq<Polls>, r: Showing)

  /** The seat runs its showdown after `log`, in a run of the table. */
  ghost predicate Finished(d: Deal, run: seq<DealRun.Table>, acts: Steps, s: LogRules.Session, seat: nat,
                           log: seq<Entries.Entry>, f: Finish)
    requires d.Ok() && Labelled(d, run, acts)
  {
    && s.Playable() && s.n == |d.keys| && seat < s.n
    && HandFlow.InStep(s, log, f.shown)
    && Betting.After(log, s.n, s.stack).over && Betting.Live(Betting.After(log, s.n, s.stack).folded) >= 2
    && f.at < |run| && |run[f.at]| == |d.keys| && Revealed(s.n, acts[..f.at], seat, f.shown)
    && Polled(s.n, run, f.polls)
    && f.r.Result? && Showdown.Claims(f.r.claims) && Showdown.IsWinners(f.r.claims, f.r.winners)
    && Gathered(Betting.After(log, s.n, s.stack).folded, f.polls, run[f.at][seat].board, d.p, f.r.claims, s.n)
  }

  lemma FinishShape(d: Deal, run: seq<DealRun.Table>, acts: Steps, s: LogRules.Session, seat: nat,
                    log: seq<Entries.Entry>, f: Finish)
    requires d.Ok() && Labelled(d, run, acts) && Finished(d, run, acts, s, seat, log, f)
    ensures Betting.Seated(log, s.n) && s.n == |d.keys| && f.r.Result?
    ensures Polled(s.n, run, f.polls) && |f.polls| == s.n == |Betting.After(log, s.n, s.stack).folded|
  {
  }

  /** The seats whose claims this peer has seen complete. */
  ghost function Seen(s: LogRules.Session, log: seq<Entries.Entry>, f: Finish): set<nat>
    requires Betting.Seated(log, s.n) && |f.polls| <= |Betting.After(log, s.n, s.stack).folded|
  {
    Claimants(Betting.After(log, s.n, s.stack).folded, f.polls, |f.polls|)
  }

  lemma LabelledPrefix(d: Deal, run: seq<DealRun.Table>, acts: Steps, k: nat)
    requires d.Ok() && Labelled(d, run, acts) && k < |run|
    ensures Labelled(d, run[..k + 1], acts[..k])
  {
    hide Took;
    forall i | 0 <= i < k ensures Took(d, run[..k + 1][i], acts[..k][i].0, acts[..k][i].1, run[..k + 1][i + 1]) {
      assert Took(d, run[i], acts[i].0, acts[i].1, run[i + 1]);
    }
  }

  lemma LabelledSize(d: Deal, run: seq<DealRun.Table>, acts: Steps)
    requires d.Ok() && Labelled(d, run, acts)
    ensures |run| == |acts| + 1
  {
  }

  /** A peer at its showdown has the whole board, and has collected every complete claim of a seat still in. */
  lemma FinishCollects(d: Deal, run: seq<DealRun.Table>, acts: Steps, s: LogRules.Session, seat: nat,
                       log: seq<Entries.Entry>, f: Finish)
    requires d.Ok() && Labelled(d, run, acts) && |d.keys| <= 23 && Finished(d, run, acts, s, seat, log, f)
    ensures Betting.Seated(log, s.n) && |f.polls| <= |Betting.After(log, s.n, s.stack).folded| && f.r.Result?
    ensures forall q :: q in Seen(s, log, f) ==> q < |d.keys|
    ensures Collected(d, Seen(s, log, f), f.r.claims) && Showdown.IsWinners(f.r.claims, f.r.winners)
  {
    hide Labelled;
    hide Polled;
    hide Gathered;
    hide FullBoard;
    hide Collected;
    hide Showdown.IsWinners;
    hide Showdown.Claims;
    hide Betting.After;
    LabelledIsRun(d, run, acts);
    LabelledSize(d, run, acts);
    LabelledPrefix(d, run, acts, f.at);
    RoundsFillTheBoard(d, run[..f.at + 1], acts[..f.at], seat, s, log, f.shown);
    PolledSize(s.n, run, f.polls);
    GatheredIsCollected(d, run, Betting.After(log, s.n, s.stack).folded, f.polls, f.at, seat, f.r.claims);
  }

  /** In any run, any two peers that end with the same log and have seen the same claims name the same
      winners. They may run their showdowns at different moments. */
  lemma AllPeersAgree(d: Deal, run: seq<DealRun.Table>, acts: Steps, s: LogRules.Session, log: seq<Entries.Entry>,
                      v: nat, f: Finish, w: nat, g: Finish)
    requires d.Ok() && Labelled(d, run, acts) && |d.keys| <= 23
    requires Finished(d, run, acts, s, v, log, f) && Finished(d, run, acts, s, w, log, g)
    requires Seen(s, log, f) == Seen(s, log, g)
    ensures f.r.winners == g.r.winners
  {
    hide Labelled;
    hide Collected;
    hide Finished;
    hide Seen;
    hide Showdown.IsWinners;
    FinishCollects(d, run, acts, s, v, log, f);
    FinishCollects(d, run, acts, s, w, log, g);
    SameWinnersEverywhere(d, Seen(s, log, f), f.r.claims, g.r.claims, f.r.winners, g.r.winners);
  }

  /** The seat is among `seats`, and none of them was dealt a stronger hand. */
  ghost predicate Strongest(hands: seq<HandRank>, seats: set<nat>, seat: nat)
    requires forall q :: q in seats ==> q < |hands| && hands[q].Sized()
  {
    seat in seats && forall q :: q in seats ==> Comparison(hands[seat], hands[q]) >= 0
  }

  /** The best hands that the seven cards of every seat make. */
  ghost predicate BestHands(d: Deal, hands: seq<HandRank>)
    requires d.Ok() && |d.keys| <= 23
  {
    |hands| == |d.keys| && forall q :: 0 <= q < |hands| ==> hands[q].Sized() && BestHand.IsBest(Seven(d, q), hands[q])
  }

  /** A peer names exactly the strongest seats among those it has seen. */
  lemma WinnersAreStrongest(d: Deal, run: seq<DealRun.Table>, acts: Steps, s: LogRules.Session, v: nat,
                            log: seq<Entries.Entry>, f: Finish, hands: seq<HandRank>, seat: nat)
    requires d.Ok() && Labelled(d, run, acts) && |d.keys| <= 23 && Finished(d, run, acts, s, v, log, f)
    requires BestHands(d, hands)
    ensures forall q :: q in Seen(s, log, f) ==> q < |hands| && hands[q].Sized()
    ensures seat in f.r.winners <==> Strongest(hands, Seen(s, log, f), seat)
  {
    hide Labelled;
    hide Collected;
    hide Finished;
    hide Seven;
    hide BestHand.IsBest;
    hide Showdown.IsWinners;
    FinishCollects(d, run, acts, s, v, log, f);
    var seats := Seen(s, log, f);
    var all := map q: nat | q in seats :: hands[q];
    WinnersHoldTheBest(d, seats, f.r.claims, f.r.winners, seat, all);
  }

  /** In any run, two peers that end with the same log name the same winners if and only if the strongest seats
      among those each has seen are the same. */
  lemma AgreeIffSameStrongest(d: Deal, run: seq<DealRun.Table>, acts: Steps, s: LogRules.Session,
                              log: seq<Entries.Entry>, v: nat, f: Finish, w: nat, g: Finish, hands: seq<HandRank>)
    requires d.Ok() && Labelled(d, run, acts) && |d.keys| <= 23 && BestHands(d, hands)
    requires Finished(d, run, acts, s, v, log, f) && Finished(d, run, acts, s, w, log, g)
    ensures forall q :: q in Seen(s, log, f) + Seen(s, log, g) ==> q < |hands| && hands[q].Sized()
    ensures f.r.winners == g.r.winners <==>
            forall seat :: Strongest(hands, Seen(s, log, f), seat) <==> Strongest(hands, Seen(s, log, g), seat)
  {
    hide Labelled;
    hide Finished;
    hide BestHands;
    hide Seen;
    hide Strongest;
    FinishAscends(d, run, acts, s, v, log, f);
    FinishAscends(d, run, acts, s, w, log, g);
    WinnersAreStrongest(d, run, acts, s, v, log, f, hands, 0);
    WinnersAreStrongest(d, run, acts, s, w, log, g, hands, 0);
    forall seat: nat
      ensures seat in f.r.winners <==> Strongest(hands, Seen(s, log, f), seat)
      ensures seat in g.r.winners <==> Strongest(hands, Seen(s, log, g), seat)
    {
      WinnersAreStrongest(d, run, acts, s, v, log, f, hands, seat);
      WinnersAreStrongest(d, run, acts, s, w, log, g, hands, seat);
    }
    if forall seat :: Strongest(hands, Seen(s, log, f), seat) <==> Strongest(hands, Seen(s, log, g), seat) {
      forall seat: nat ensures seat in f.r.winners <==> seat in g.r.winners {
        assert Strongest(hands, Seen(s, log, f), seat) <==> Strongest(hands, Seen(s, log, g), seat);
      }
      Showdown.AscendingUnique(f.r.winners, g.r.winners);
    }
  }

  lemma FinishAscends(d: Deal, run: seq<DealRun.Table>, acts: Steps, s: LogRules.Session, seat: nat,
                      log: seq<Entries.Entry>, f: Finish)
    requires d.Ok() && Labelled(d, run, acts) && |d.keys| <= 23 && Finished(d, run, acts, s, seat, log, f)
    ensures Betting.Seated(log, s.n) && |f.polls| <= |Betting.After(log, s.n, s.stack).folded| && f.r.Result?
    ensures Showdown.Ascending(f.r.winners)
  {
    hide Labelled;
    hide Polled;
    hide Gathered;
    FinishShape(d, run, acts, s, seat, log, f);
  }
}

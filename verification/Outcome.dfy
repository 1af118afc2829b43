/** One hand as a whole: rounds, deal and showdown together give every peer the same winners. */
module Outcome {
  import opened Keys
  import opened MentalPoker
  import opened Peers
  import opened DealRun
  import opened DealSteps
  import opened DealTrace
  import opened ShowdownRun
  import opened HandEnd
  import opened HandOrder
  import Agreement
  import BestHand
  import Betting
  import Consensus
  import Entries
  import LogRules

  // ------------------------------------------------------------------------------ whole claims

  /** Nobody publishes a claim before it has both its cards: `DealHoleCards` returns before the rounds start. */
  ghost predicate PublishesWhole(run: seq<DealRun.Table>, acts: Steps) {
    |run| == |acts| + 1 && forall i :: 0 <= i < |acts| && acts[i].1 == Publish ==> HasCards(run[i], acts[i].0)
  }

  predicate HasCards(t: DealRun.Table, seat: nat) {
    seat < |t| && t[seat].card1 != "" && t[seat].card2 != ""
  }

  /** Whatever claim the seat hosts has both cards. */
  predicate WholeClaim(t: DealRun.Table, seat: nat) {
    Hosted(t, seat, ShowdownClaim(seat)) ==> Complete(Answer(Hosts(t, seat, ShowdownClaim(seat))))
  }

  lemma StepKeepsWhole(d: Deal, t: DealRun.Table, seat: nat, a: DealRun.Action, u: DealRun.Table, q: nat)
    requires d.Ok() && Took(d, t, seat, a, u) && WholeClaim(t, q) && (a == Publish ==> HasCards(t, seat))
    ensures WholeClaim(u, q)
  {
    hide Acted;
    hide Enabled;
    if a == Publish {
      PublishWrites(d, t, seat);
    } else {
      OnlyWrites(d, t, seat, a, ShowdownClaim(q));
    }
  }

  lemma {:induction false} ClaimsAreWhole(d: Deal, run: seq<DealRun.Table>, acts: Steps, k: nat, q: nat)
    requires d.Ok() && Labelled(d, run, acts) && PublishesWhole(run, acts) && k < |run|
    ensures WholeClaim(run[k], q)
  {
    hide WholeClaim;
    hide Took;
    hide HasCards;
    if k == 0 {
      NoClaims(|d.keys|, q);
    } else {
      ClaimsAreWhole(d, run, acts, k - 1, q);
      assert Took(d, run[k - 1], acts[k - 1].0, acts[k - 1].1, run[k - 1 + 1]);
      StepKeepsWhole(d, run[k - 1], acts[k - 1].0, acts[k - 1].1, run[k], q);
    }
  }

  lemma NoClaims(n: nat, q: nat)
    ensures WholeClaim(Start(n), q)
  {
  }

  /** Every poll about a seat still in came back. */
  predicate Answered(folded: seq<bool>, polls: seq<Polls>) {
    && |polls| <= |folded|
    && forall q :: 0 <= q < |polls| && !folded[q] ==>
         polls[q].claim.Answer? && polls[q].relay1.Answer? && polls[q].relay2.Answer?
  }

  lemma PolledIsWhole(d: Deal, run: seq<DealRun.Table>, acts: Steps, polls: seq<Polls>, q: nat)
    requires d.Ok() && Labelled(d, run, acts) && PublishesWhole(run, acts) && Polled(|d.keys|, run, polls)
    requires q < |d.keys| && polls[q].claim.Answer?
    ensures Complete(polls[q].claim)
  {
    hide Labelled;
    hide PublishesWhole;
    var i: nat, j: nat, k: nat :| PolledAt(|d.keys|, run, q, polls[q], i, j, k);
    ClaimsAreWhole(d, run, acts, i, q);
  }

  /** With every poll answered, the claimants are the seats still in. */
  lemma SeenIsIn(d: Deal, run: seq<DealRun.Table>, acts: Steps, folded: seq<bool>, polls: seq<Polls>, q: nat)
    requires d.Ok() && Labelled(d, run, acts) && PublishesWhole(run, acts) && Polled(|d.keys|, run, polls)
    requires Answered(folded, polls)
    ensures q in Claimants(folded, polls, |polls|) <==> q < |d.keys| && !folded[q]
  {
    hide Labelled;
    hide PublishesWhole;
    hide Complete;
    if q < |d.keys| && !folded[q] { PolledIsWhole(d, run, acts, polls, q); }
  }

  // --------------------------------------------------------------------------------- together

  /** The peer finished the hand, and everything it polled for came back. */
  ghost predicate Ended(d: Deal, run: seq<DealRun.Table>, acts: Steps, s: LogRules.Session, seat: nat,
                        log: seq<Entries.Entry>, f: Finish)
    requires d.Ok() && Labelled(d, run, acts)
  {
    Finished(d, run, acts, s, seat, log, f) && Answered(Betting.After(log, s.n, s.stack).folded, f.polls)
  }

  lemma SameSeen(d: Deal, run: seq<DealRun.Table>, acts: Steps, s: LogRules.Session, log: seq<Entries.Entry>,
                 v: nat, f: Finish, w: nat, g: Finish)
    requires d.Ok() && Labelled(d, run, acts) && PublishesWhole(run, acts)
    requires Ended(d, run, acts, s, v, log, f) && Ended(d, run, acts, s, w, log, g)
    ensures Seen(s, log, f) == Seen(s, log, g)
  {
    hide Labelled;
    hide PublishesWhole;
    hide Polled;
    hide Finished;
    hide Answered;
    FinishShape(d, run, acts, s, v, log, f);
    FinishShape(d, run, acts, s, w, log, g);
    var folded := Betting.After(log, s.n, s.stack).folded;
    forall q: nat ensures q in Seen(s, log, f) <==> q in Seen(s, log, g) {
      SeenIsIn(d, run, acts, folded, f.polls, q);
      SeenIsIn(d, run, acts, folded, g.polls, q);
    }
  }

  /** Any two peers that finish the hand, neither having folded the other, end with the same log and name the
      same winners, in every run of the rounds and every run of the deal, once all their polls are answered. */
  lemma HandIsDecided(c: Consensus.Config, trace: seq<seq<Consensus.Replica>>, t: nat, i: nat, j: nat,
                      d: Deal, run: seq<DealRun.Table>, acts: Steps, f: Finish, g: Finish)
    requires Consensus.Run(c, trace) && t < |trace| && i < |trace[t]| && j < |trace[t]| && i != j
    requires !Consensus.Out(c.s, trace[t][i].log, i) && !Consensus.Out(c.s, trace[t][i].log, j)
    requires !Consensus.Out(c.s, trace[t][j].log, i) && !Consensus.Out(c.s, trace[t][j].log, j)
    requires d.Ok() && |d.keys| <= 23 && Labelled(d, run, acts) && PublishesWhole(run, acts)
    requires Ended(d, run, acts, c.s, i, trace[t][i].log, f) && Ended(d, run, acts, c.s, j, trace[t][j].log, g)
    ensures trace[t][i].log == trace[t][j].log && f.r.winners == g.r.winners
  {
    hide Consensus.Run;
    hide Consensus.Out;
    hide Labelled;
    hide PublishesWhole;
    hide Polled;
    hide Gathered;
    Agreement.FinishedLogsAgree(c, trace, t, i, j);
    var log := trace[t][i].log;
    SameSeen(d, run, acts, c.s, log, i, f, j, g);
    AllPeersAgree(d, run, acts, c.s, log, i, f, j, g);
  }

  /** With polls that never return, the same two peers still end with the same log, and name the same winners if
      and only if the strongest seats among those each has seen are the same. */
  lemma DecidedIff(c: Consensus.Config, trace: seq<seq<Consensus.Replica>>, t: nat, i: nat, j: nat,
                   d: Deal, run: seq<DealRun.Table>, acts: Steps, f: Finish, g: Finish, hands: seq<HandRank>)
    requires Consensus.Run(c, trace) && t < |trace| && i < |trace[t]| && j < |trace[t]| && i != j
    requires !Consensus.Out(c.s, trace[t][i].log, i) && !Consensus.Out(c.s, trace[t][i].log, j)
    requires !Consensus.Out(c.s, trace[t][j].log, i) && !Consensus.Out(c.s, trace[t][j].log, j)
    requires d.Ok() && |d.keys| <= 23 && Labelled(d, run, acts) && BestHands(d, hands)
    requires Finished(d, run, acts, c.s, i, trace[t][i].log, f) && Finished(d, run, acts, c.s, j, trace[t][j].log, g)
    ensures trace[t][i].log == trace[t][j].log
    ensures var log := trace[t][i].log;
            && (forall q :: q in Seen(c.s, log, f) + Seen(c.s, log, g) ==> q < |hands| && hands[q].Sized())
            && (f.r.winners == g.r.winners <==> forall seat ::
                  Strongest(hands, Seen(c.s, log, f), seat) <==> Strongest(hands, Seen(c.s, log, g), seat))
  {
    hide Consensus.Run;
    hide Consensus.Out;
    hide Labelled;
    hide Polled;
    hide Gathered;
    hide BestHands;
    hide Strongest;
    Agreement.FinishedLogsAgree(c, trace, t, i, j);
    AgreeIffSameStrongest(d, run, acts, c.s, trace[t][i].log, i, f, j, g, hands);
  }

  /** A seat wins exactly if it is in and nobody who is in was dealt a stronger hand. */
  lemma BestHandWins(d: Deal, run: seq<DealRun.Table>, acts: Steps, s: LogRules.Session, v: nat,
                     log: seq<Entries.Entry>, f: Finish, hands: seq<HandRank>, seat: nat)
    requires d.Ok() && |d.keys| <= 23 && Labelled(d, run, acts) && PublishesWhole(run, acts)
    requires Ended(d, run, acts, s, v, log, f) && BestHands(d, hands)
    ensures var folded := Betting.After(log, s.n, s.stack).folded;
            seat in f.r.winners <==>
            && seat < |d.keys| && !folded[seat]
            && forall q :: 0 <= q < |d.keys| && !folded[q] ==> Comparison(hands[seat], hands[q]) >= 0
  {
    hide Labelled;
    hide PublishesWhole;
    hide Polled;
    hide Finished;
    hide BestHand.IsBest;
    hide Seven;
    hide Answered;
    FinishShape(d, run, acts, s, v, log, f);
    var folded := Betting.After(log, s.n, s.stack).folded;
    WinnersAreStrongest(d, run, acts, s, v, log, f, hands, seat);
    forall q: nat ensures q in Seen(s, log, f) <==> q < |d.keys| && !folded[q] {
      SeenIsIn(d, run, acts, folded, f.polls, q);
    }
  }
}

/** Verifying claims and naming winners at a table (internal/peer/showdown.go). */
module ShowdownRun {
  import opened Bytes
  import opened Sequences
  import opened Cards
  import opened Keys
  import opened MentalPoker
  import opened Peers
  import opened DealRun
  import opened DealTrace
  import opened HandOrder
  import BestHand
  import Showdown

  // --------------------------------------------------------------------- reading the cards

  /** The places of the board that are filled. */
  function Filled(board: seq<string>): seq<string> {
    if board == [] then []
    else Filled(board[..|board| - 1]) + (if board[|board| - 1] == "" then [] else [board[|board| - 1]])
  }

  predicate AllParse(strings: seq<string>) {
    forall i :: 0 <= i < |strings| ==> ParseDeckString(strings[i]).Decoded?
  }

  function Parsed(strings: seq<string>): (cards: seq<Cards.Card>)
    requires AllParse(strings)
    ensures |cards| == |strings| && forall i :: 0 <= i < |strings| ==> cards[i] == ParseDeckString(strings[i]).card
  {
    seq(|strings|, i requires 0 <= i < |strings| => ParseDeckString(strings[i]).card)
  }

  /** The strings of a claim and of the verifier's own board. */
  function ClaimStrings(claim: File, board: seq<string>): seq<string>
    requires claim.Claim?
  {
    [claim.card1, claim.card2] + Filled(board)
  }

  method ReadHoles(card1: string, card2: string) returns (ok: bool, cards: seq<Cards.Card>)
    ensures ok <==> AllParse([card1, card2])
    ensures ok ==> cards == Parsed([card1, card2])
  {
    hide ParseDeckString;
    cards := [];
    var holes := [card1, card2];
    for i := 0 to 2
      invariant AllParse(holes[..i]) && cards == Parsed(holes[..i])
    {
      var c := ParseDeckString(holes[i]);
      if c.Bad? {
        return false, [];
      }
      cards := cards + [c.card];
    }
    assert holes[..2] == holes;
    return true, cards;
  }

  method ReadBoard(board: seq<string>) returns (ok: bool, cards: seq<Cards.Card>)
    ensures ok <==> AllParse(Filled(board))
    ensures ok ==> cards == Parsed(Filled(board))
  {
    hide ParseDeckString;
    cards := [];
    for i := 0 to |board|
      invariant AllParse(Filled(board[..i])) && cards == Parsed(Filled(board[..i]))
    {
      assert board[..i + 1][..i] == board[..i];
      if board[i] == "" {
        continue;
      }
      var c := ParseDeckString(board[i]);
      if c.Bad? {
        FilledHolds(board, i);
        return false, [];
      }
      cards := cards + [c.card];
    }
    assert board[..|board|] == board;
    return true, cards;
  }

  lemma ParsedConcat(a: seq<string>, b: seq<string>)
    ensures AllParse(a + b) <==> AllParse(a) && AllParse(b)
    ensures AllParse(a + b) ==> Parsed(a + b) == Parsed(a) + Parsed(b)
  {
    hide ParseDeckString;
    if AllParse(a + b) {
      forall i | 0 <= i < |a| ensures ParseDeckString(a[i]).Decoded? { assert (a + b)[i] == a[i]; }
      forall i | 0 <= i < |b| ensures ParseDeckString(b[i]).Decoded? { assert (a + b)[|a| + i] == b[i]; }
    }
  }

  lemma {:induction false} FilledHolds(board: seq<string>, i: nat)
    requires i < |board| && board[i] != ""
    ensures board[i] in Filled(board)
  {
    if i < |board| - 1 { FilledHolds(board[..|board| - 1], i); }
  }

  // -------------------------------------------------------------------- verifying one claim

  predicate CardPoll(poll: Poll) { poll.Answer? && poll.file.Card? }

  /** What `pollAndVerifyClaim` accepts: the seat's own claim, both cards under the last relays, and
      cards that make a hand. */
  ghost predicate Acceptable(seat: nat, n: nat, claim: Poll, relay1: Poll, relay2: Poll, board: seq<string>, p: nat)
    requires p > 0
  {
    && claim.Answer? && claim.file.Claim? && claim.file.seat == seat
    && n >= 2 && CardPoll(relay1) && CardPoll(relay2)
    && VerifyClaimCard(relay1.file.data, claim.file.card1, Value(claim.file.invExp), p)
    && VerifyClaimCard(relay2.file.data, claim.file.card2, Value(claim.file.invExp), p)
    && AllParse(ClaimStrings(claim.file, board))
    && 5 <= |ClaimStrings(claim.file, board)| <= 7
    && Distinct(Parsed(ClaimStrings(claim.file, board)))
  }

  datatype Verdict = Invalid | Verified(hand: HandRank)

  /** `verifyClaimCard`, ring and poll included. */
  method CheckClaimCard(n: nat, owner: nat, relay: Poll, claimed: string, invExp: nat, p: nat) returns (ok: bool)
    requires p > 0 && owner < n
    ensures ok <==> n >= 2 && CardPoll(relay) && VerifyClaimCard(relay.file.data, claimed, invExp, p)
  {
    var ring := NonOwnerRing(n, owner);
    RingEmpty(n, owner);
    if |ring| == 0 {
      return false;
    }
    if !(relay.Answer? && relay.file.Card?) {
      return false;
    }
    return VerifyClaimCard(relay.file.data, claimed, invExp, p);
  }

  /** `pollAndVerifyClaim`: exactly the acceptable claims get a hand, the best of the claimed cards. */
  method PollAndVerifyClaim(seat: nat, n: nat, claim: Poll, relay1: Poll, relay2: Poll, board: seq<string>, p: nat)
    returns (r: Verdict)
    requires p > 0 && seat < n
    ensures r.Verified? <==> Acceptable(seat, n, claim, relay1, relay2, board, p)
    ensures r.Verified? ==> BestHand.IsBest(Parsed(ClaimStrings(claim.file, board)), r.hand)
  {
    hide VerifyClaimCard;
    hide Distinct;
    hide BestHand.IsBest;
    if !(claim.Answer? && claim.file.Claim?) {
      return Invalid;
    }
    if claim.file.seat != seat {
      return Invalid;
    }
    var invExp := Value(claim.file.invExp);
    var first := CheckClaimCard(n, seat, relay1, claim.file.card1, invExp, p);
    if !first {
      return Invalid;
    }
    var second := CheckClaimCard(n, seat, relay2, claim.file.card2, invExp, p);
    if !second {
      return Invalid;
    }
    ParsedConcat([claim.file.card1, claim.file.card2], Filled(board));
    var ok, holes := ReadHoles(claim.file.card1, claim.file.card2);
    if !ok {
      return Invalid;
    }
    var okBoard, others := ReadBoard(board);
    if !okBoard {
      return Invalid;
    }
    var out := BestHand.Best(holes + others);
    if !out.Found? {
      return Invalid;
    }
    return Verified(out.hand);
  }

  // --------------------------------------------------------------------------- at a table

  /** The card that the composed permutation puts at a slot. */
  ghost function Dealt(d: Deal, slot: nat): (c: Cards.Card)
    requires d.Ok() && slot < 52
    ensures c.Valid() && c.Int() == Origin(d, |d.keys|, slot)
  {
    OriginBound(d, |d.keys|, slot);
    CardOfIndex(Origin(d, |d.keys|, slot));
    FromInt(Origin(d, |d.keys|, slot)).card
  }

  lemma PlainParses(d: Deal, slot: nat)
    requires d.Ok() && slot < 52
    ensures ParseDeckString(Plain(d, slot)) == Decoded(Dealt(d, slot)) && Plain(d, slot) != ""
  {
    OriginBound(d, |d.keys|, slot);
    ParseIndex(Origin(d, |d.keys|, slot));
    CardOfIndex(Origin(d, |d.keys|, slot));
  }

  lemma DealtDiffer(d: Deal, slot: nat, other: nat)
    requires d.Ok() && slot < 52 && other < 52 && slot != other
    ensures Dealt(d, slot) != Dealt(d, other)
  {
    OriginInjective(d, |d.keys|, slot, other);
  }

  /** A seat's two hole slots and the five board slots. */
  function SevenSlots(n: nat, seat: nat): (slots: seq<nat>)
    ensures |slots| == 7
  {
    [2 * seat, 2 * seat + 1, 2 * n, 2 * n + 1, 2 * n + 2, 2 * n + 3, 2 * n + 4]
  }

  lemma SlotsDiffer(n: nat, seat: nat)
    requires seat < n <= 23
    ensures forall i :: 0 <= i < 7 ==> SevenSlots(n, seat)[i] < 52
    ensures forall i, j :: 0 <= i < j < 7 ==> SevenSlots(n, seat)[i] < SevenSlots(n, seat)[j]
  {
  }

  ghost function Seven(d: Deal, seat: nat): (cards: seq<Cards.Card>)
    requires d.Ok() && |d.keys| <= 23 && seat < |d.keys|
    ensures |cards| == 7
  {
    SlotsDiffer(|d.keys|, seat);
    seq(7, i requires 0 <= i < 7 => Dealt(d, SevenSlots(|d.keys|, seat)[i]))
  }

  /** Nobody is dealt a card twice. */
  lemma SevenDistinct(d: Deal, seat: nat)
    requires d.Ok() && |d.keys| <= 23 && seat < |d.keys|
    ensures Distinct(Seven(d, seat))
  {
    var slots := SevenSlots(|d.keys|, seat);
    SlotsDiffer(|d.keys|, seat);
    forall i, j | 0 <= i < j < 7 ensures Seven(d, seat)[i] != Seven(d, seat)[j] {
      assert slots[i] < slots[j];
      DealtDiffer(d, slots[i], slots[j]);
    }
  }

  /** All five board places are filled. */
  predicate FullBoard(board: seq<string>) { |board| == 5 && forall i :: 0 <= i < 5 ==> board[i] != "" }

  lemma {:induction false} FilledFull(board: seq<string>)
    requires forall i :: 0 <= i < |board| ==> board[i] != ""
    ensures Filled(board) == board
  {
    if board != [] {
      FilledFull(board[..|board| - 1]);
      assert board == board[..|board| - 1] + [board[|board| - 1]];
    }
  }

  /** A card claimed for a slot passes exactly when it is the card that was dealt there. */
  lemma ClaimedCardIff(d: Deal, t: DealRun.Table, slot: nat, claimed: string)
    requires d.Ok() && Right(d, t) && slot < 52 && slot / 2 < |d.keys|
    requires Ring(|d.keys|, slot / 2) != []
    requires var last := Previous(|d.keys|, slot / 2); HostsCard(t, last, HoleRelay(slot, last))
    ensures var last := Previous(|d.keys|, slot / 2);
            VerifyClaimCard(Hosts(t, last, HoleRelay(slot, last)).data, claimed,
                            Value(Minimal(d.keys[slot / 2].inverse)), d.p)
            <==> claimed == Plain(d, slot)
  {
    OwnerReads(d, slot);
    HostedHole(d, t, Previous(|d.keys|, slot / 2), slot);
    ValueOfMinimal(d.keys[slot / 2].inverse);
  }

  /** The strings that a complete honest claim and a complete board put together. */
  lemma HonestStrings(d: Deal, seat: nat, claim: File, board: seq<string>)
    requires d.Ok() && |d.keys| <= 23 && seat < |d.keys| && RightBoard(d, board) && FullBoard(board)
    requires claim.Claim? && claim.card1 == Plain(d, 2 * seat) && claim.card2 == Plain(d, 2 * seat + 1)
    ensures |ClaimStrings(claim, board)| == 7
    ensures forall i :: 0 <= i < 7 ==> SevenSlots(|d.keys|, seat)[i] < 52
    ensures forall i :: 0 <= i < 7 ==> ClaimStrings(claim, board)[i] == Plain(d, SevenSlots(|d.keys|, seat)[i])
  {
    hide Plain;
    FilledFull(board);
    SlotsDiffer(|d.keys|, seat);
    assert RightHole(d, 2 * |d.keys| + 0, board[0]) && RightHole(d, 2 * |d.keys| + 1, board[1])
        && RightHole(d, 2 * |d.keys| + 2, board[2]) && RightHole(d, 2 * |d.keys| + 3, board[3])
        && RightHole(d, 2 * |d.keys| + 4, board[4]);
    assert ClaimStrings(claim, board) == [claim.card1, claim.card2, board[0], board[1], board[2], board[3], board[4]];
  }

  lemma HonestCards(d: Deal, seat: nat, claim: File, board: seq<string>)
    requires d.Ok() && |d.keys| <= 23 && seat < |d.keys| && RightBoard(d, board) && FullBoard(board)
    requires claim.Claim? && claim.card1 == Plain(d, 2 * seat) && claim.card2 == Plain(d, 2 * seat + 1)
    ensures AllParse(ClaimStrings(claim, board)) && Parsed(ClaimStrings(claim, board)) == Seven(d, seat)
  {
    HonestStrings(d, seat, claim, board);
    forall i | 0 <= i < 7
      ensures ParseDeckString(ClaimStrings(claim, board)[i]) == Decoded(Dealt(d, SevenSlots(|d.keys|, seat)[i]))
    {
      PlainParses(d, SevenSlots(|d.keys|, seat)[i]);
    }
  }

  /** What a poll of `seat` for `name` may come back with: what is hosted there, or nothing before the deadline. */
  ghost predicate MayReturn(t: DealRun.Table, seat: nat, name: Name, poll: Poll) {
    poll.NoAnswer? || (Hosted(t, seat, name) && poll.file == Hosts(t, seat, name))
  }

  /** The three polls that verify one seat's claim. */
  datatype Polls = Polls(claim: Poll, relay1: Poll, relay2: Poll)

  /** The polls of one seat, each made at a table of the run. */
  ghost predicate PolledAt(n: nat, run: seq<DealRun.Table>, seat: nat, p: Polls, i: nat, j: nat, k: nat)
    requires seat < n && n >= 2
  {
    var last := LastStripper(n, seat);
    && i < |run| && j < |run| && k < |run|
    && MayReturn(run[i], seat, ShowdownClaim(seat), p.claim)
    && MayReturn(run[j], last, HoleRelay(2 * seat, last), p.relay1)
    && MayReturn(run[k], last, HoleRelay(2 * seat + 1, last), p.relay2)
  }

  /** The poll has returned a claim with both cards. */
  predicate Complete(claim: Poll) {
    claim.Answer? && claim.file.Claim? && claim.file.card1 != "" && claim.file.card2 != ""
  }

  /** All three polls have returned, the claim with both cards. */
  predicate Whole(p: Polls) { Complete(p.claim) && p.relay1.Answer? && p.relay2.Answer? }

  lemma HostedClaim(d: Deal, t: DealRun.Table, seat: nat, claim: Poll)
    requires d.Ok() && Right(d, t) && seat < |t| && MayReturn(t, seat, ShowdownClaim(seat), claim)
    requires Complete(claim)
    ensures claim.file.seat == seat && claim.file.invExp == Minimal(d.keys[seat].inverse)
    ensures 2 * seat + 1 < 52 && claim.file.card1 == Plain(d, 2 * seat) && claim.file.card2 == Plain(d, 2 * seat + 1)
  {
    RightHosted(d, t, seat, ShowdownClaim(seat));
  }

  /** Under a claim with both cards the relays are hosted, then and later: a poll that is served finds them. */
  lemma RelaysUnderClaim(d: Deal, run: seq<DealRun.Table>, i: nat, j: nat, seat: nat, slot: nat, claim: Poll)
    requires d.Ok() && Run(d, run) && i <= j < |run| && seat < |d.keys| && (slot == 2 * seat || slot == 2 * seat + 1)
    requires MayReturn(run[i], seat, ShowdownClaim(seat), claim) && Complete(claim)
    ensures var last := LastStripper(|d.keys|, seat); HostsCard(run[j], last, HoleRelay(slot, last))
  {
    hide Right;
    hide Run;
    var last := LastStripper(|d.keys|, seat);
    TableIsRight(d, run, i);
    assert HoleLinked(run[i], seat);
    StaysHosted(d, run, i, j, last, HoleRelay(slot, last));
    TableIsRight(d, run, j);
    RightHosted(d, run[j], last, HoleRelay(slot, last));
  }

  lemma RelayVerifies(d: Deal, t: DealRun.Table, seat: nat, slot: nat, last: nat, relay: Poll)
    requires d.Ok() && Right(d, t) && slot < 52 && seat == slot / 2 < |d.keys| && last == LastStripper(|d.keys|, seat)
    requires MayReturn(t, last, HoleRelay(slot, last), relay) && relay.Answer?
    ensures relay.file.Card?
    ensures VerifyClaimCard(relay.file.data, Plain(d, slot), Value(Minimal(d.keys[seat].inverse)), d.p)
  {
    hide Ring;
    hide RightPeer;
    hide Plain;
    hide VerifyClaimCard;
    LastOfRing(|d.keys|, seat);
    RightHosted(d, t, last, HoleRelay(slot, last));
    ClaimedCardIff(d, t, slot, Plain(d, slot));
  }

  lemma BoardOf(d: Deal, t: DealRun.Table, v: nat)
    requires d.Ok() && Right(d, t) && v < |t|
    ensures RightBoard(d, t[v].board)
  {
    hide RightFiles;
    assert RightPeer(d, v, t[v]);
  }

  /** A claim with an empty card does not parse. */
  lemma AcceptsWhole(seat: nat, n: nat, p: Polls, board: seq<string>, prime: nat)
    requires prime > 0 && Acceptable(seat, n, p.claim, p.relay1, p.relay2, board, prime)
    ensures Whole(p)
  {
    var strings := ClaimStrings(p.claim.file, board);
    assert strings[0] == p.claim.file.card1 && strings[1] == p.claim.file.card2;
    assert ParseDeckString(strings[0]).Decoded? && ParseDeckString(strings[1]).Decoded?;
    assert ParseDeckString("").Bad?;
  }

  lemma ClaimedCards(d: Deal, t: DealRun.Table, seat: nat, claim: Poll, board: seq<string>)
    requires d.Ok() && Right(d, t) && |d.keys| <= 23 && seat < |t| && MayReturn(t, seat, ShowdownClaim(seat), claim)
    requires Complete(claim) && RightBoard(d, board) && FullBoard(board)
    ensures AllParse(ClaimStrings(claim.file, board)) && Parsed(ClaimStrings(claim.file, board)) == Seven(d, seat)
  {
    hide Right;
    hide RightBoard;
    hide Plain;
    RightSize(d, t);
    HostedClaim(d, t, seat, claim);
    HonestCards(d, seat, claim.file, board);
  }

  lemma WholeAccepted(d: Deal, run: seq<DealRun.Table>, i: nat, j: nat, k: nat, seat: nat, p: Polls, board: seq<string>)
    requires d.Ok() && Run(d, run) && |d.keys| <= 23 && seat < |d.keys| && PolledAt(|d.keys|, run, seat, p, i, j, k)
    requires Whole(p) && RightBoard(d, board) && FullBoard(board)
    ensures Acceptable(seat, |d.keys|, p.claim, p.relay1, p.relay2, board, d.p)
  {
    hide Run;
    hide Right;
    hide Linked;
    hide RightBoard;
    hide MayReturn;
    hide VerifyClaimCard;
    hide Plain;
    hide LastStripper;
    hide AllParse;
    hide ClaimStrings;
    hide FullBoard;
    hide Distinct;
    var last := LastStripper(|d.keys|, seat);
    TableIsRight(d, run, i);
    TableIsRight(d, run, j);
    TableIsRight(d, run, k);
    HostedClaim(d, run[i], seat, p.claim);
    RelayVerifies(d, run[j], seat, 2 * seat, last, p.relay1);
    RelayVerifies(d, run[k], seat, 2 * seat + 1, last, p.relay2);
    ClaimedCards(d, run[i], seat, p.claim, board);
    assert |Parsed(ClaimStrings(p.claim.file, board))| == 7;
    SevenDistinct(d, seat);
  }

  /** In any run, whoever polls a seat's claim and the two relays under it, and has a full board, accepts exactly
      if all three polls return, the claim with both cards. Its hand is then the best of the seven cards dealt to
      that seat and to the board. */
  lemma HonestClaimAccepted(d: Deal, run: seq<DealRun.Table>, i: nat, j: nat, k: nat, seat: nat, p: Polls, l: nat,
                            v: nat)
    requires d.Ok() && Run(d, run) && |d.keys| <= 23 && seat < |d.keys| && PolledAt(|d.keys|, run, seat, p, i, j, k)
    requires l < |run| && v < |run[l]| && FullBoard(run[l][v].board)
    ensures Acceptable(seat, |d.keys|, p.claim, p.relay1, p.relay2, run[l][v].board, d.p) <==> Whole(p)
    ensures Complete(p.claim) ==>
              var strings := ClaimStrings(p.claim.file, run[l][v].board);
              AllParse(strings) && Parsed(strings) == Seven(d, seat)
  {
    hide Run;
    hide Right;
    hide Linked;
    hide MayReturn;
    hide Acceptable;
    hide FullBoard;
    TableIsRight(d, run, l);
    TableIsRight(d, run, i);
    BoardOf(d, run[l], v);
    if Complete(p.claim) { ClaimedCards(d, run[i], seat, p.claim, run[l][v].board); }
    if Whole(p) { WholeAccepted(d, run, i, j, k, seat, p, run[l][v].board); }
    if Acceptable(seat, |d.keys|, p.claim, p.relay1, p.relay2, run[l][v].board, d.p) {
      AcceptsWhole(seat, |d.keys|, p, run[l][v].board, d.p);
    }
  }

  // -------------------------------------------------------------------------------- winners

  /** The claims a verifier has collected: one for each seat in `seats`, each with the best hand of
      that seat's seven cards. */
  ghost predicate Collected(d: Deal, seats: set<nat>, claims: seq<Showdown.Claim>)
    requires d.Ok() && |d.keys| <= 23 && forall s :: s in seats ==> s < |d.keys|
  {
    && Showdown.Claims(claims)
    && (forall i :: 0 <= i < |claims| ==>
          claims[i].seat in seats && BestHand.IsBest(Seven(d, claims[i].seat), claims[i].hand))
    && (forall s :: s in seats ==> exists i :: 0 <= i < |claims| && claims[i].seat == s)
  }

  lemma CollectedMatch(d: Deal, seats: set<nat>, claims: seq<Showdown.Claim>, other: seq<Showdown.Claim>)
    requires d.Ok() && |d.keys| <= 23 && forall s :: s in seats ==> s < |d.keys|
    requires Collected(d, seats, claims) && Collected(d, seats, other)
    ensures forall c :: c in claims ==> Showdown.Matched(other, c)
  {
    hide BestHand.IsBest;
    hide Seven;
    forall i | 0 <= i < |claims| ensures Showdown.Matched(other, claims[i]) {
      var j :| 0 <= j < |other| && other[j].seat == claims[i].seat;
      BestHand.BestIgnoresOrder(Seven(d, claims[i].seat), Seven(d, claims[i].seat), other[j].hand, claims[i].hand);
      assert other[j] in other;
    }
  }

  /** All peers name the same winners. */
  lemma SameWinnersEverywhere(d: Deal, seats: set<nat>, claims: seq<Showdown.Claim>, other: seq<Showdown.Claim>,
                              winners: seq<nat>, others: seq<nat>)
    requires d.Ok() && |d.keys| <= 23 && forall s :: s in seats ==> s < |d.keys|
    requires Collected(d, seats, claims) && Collected(d, seats, other)
    requires Showdown.IsWinners(claims, winners) && Showdown.IsWinners(other, others)
    ensures winners == others
  {
    CollectedMatch(d, seats, claims, other);
    CollectedMatch(d, seats, other, claims);
    Showdown.WinnersAgree(claims, other, winners, others);
  }

  lemma CollectedHand(d: Deal, seats: set<nat>, claims: seq<Showdown.Claim>, i: nat, hand: HandRank)
    requires d.Ok() && |d.keys| <= 23 && forall s :: s in seats ==> s < |d.keys|
    requires Collected(d, seats, claims) && i < |claims| && BestHand.IsBest(Seven(d, claims[i].seat), hand)
    ensures hand.Ties(claims[i].hand)
  {
    hide BestHand.IsBest;
    hide Seven;
    BestHand.BestIgnoresOrder(Seven(d, claims[i].seat), Seven(d, claims[i].seat), hand, claims[i].hand);
  }

  /** A seat wins exactly when no seat at the showdown was dealt a stronger hand. */
  lemma WinnersHoldTheBest(d: Deal, seats: set<nat>, claims: seq<Showdown.Claim>, winners: seq<nat>, seat: nat,
                           hands: map<nat, HandRank>)
    requires d.Ok() && |d.keys| <= 23 && forall s :: s in seats ==> s < |d.keys|
    requires Collected(d, seats, claims) && Showdown.IsWinners(claims, winners)
    requires seats <= hands.Keys && forall s :: s in seats ==> BestHand.IsBest(Seven(d, s), hands[s])
    requires forall s :: s in seats ==> hands[s].Sized()
    ensures seat in winners <==> seat in seats && forall s :: s in seats ==> Comparison(hands[seat], hands[s]) >= 0
  {
    forall i | 0 <= i < |claims| ensures hands[claims[i].seat].Ties(claims[i].hand) {
      CollectedHand(d, seats, claims, i, hands[claims[i].seat]);
    }
    Showdown.WinsIffStrongest(claims, seats, hands, seat);
  }
}

/** Shuffle, deal and reveal in the order of the program: until everybody is done with what the rounds
    have opened, some seat's next step is enabled. */
module DealProgress {
  import opened Keys
  import opened MentalPoker
  import opened Peers
  import opened DealRun
  import opened DealSteps
  import opened DealTrace

  /** The step would record something that is not recorded yet. */
  ghost predicate Adds(n: nat, t: Table, seat: nat, a: Action)
    requires seat < |t|
  {
    match a
    case Shuffle => !Hosted(t, seat, ShuffleStep(seat))
    case TakeDeck => t[seat].deck == []
    case StripHole(slot) => slot < 2 * n && !Hosted(t, seat, HoleRelay(slot, seat))
    case TakeHole(slot) => if slot % 2 == 0 then t[seat].card1 == "" else t[seat].card2 == ""
    case StripBoard(idx) => !Hosted(t, seat, CommunityRelay(idx, seat))
    case TakeBoard(idx) => 2 * n <= idx && !Placed(t[seat].board, idx - 2 * n)
    case Publish => false
  }

  /** The seat has done its part in hole slot `slot`: recorded it, or hosted its relay. */
  predicate SlotDone(t: Table, seat: nat, slot: nat)
    requires seat < |t|
  {
    if seat == slot / 2 then (if slot % 2 == 0 then t[seat].card1 != "" else t[seat].card2 != "")
    else Hosted(t, seat, HoleRelay(slot, seat))
  }

  /** `DealHoleCards` has returned: all slots are done. */
  ghost predicate DealDone(t: Table, seat: nat)
    requires seat < |t|
  {
    forall slot :: 0 <= slot < 2 * |t| ==> SlotDone(t, seat, slot)
  }

  /** What the program has behind it when it comes to the step: the shuffle before the deal, the deal before
      the board, and the board card by card, as far as `open` cards are open. */
  ghost predicate InTurn(t: Table, seat: nat, a: Action, open: nat)
    requires seat < |t|
  {
    match a
    case Shuffle => true
    case TakeDeck => Hosted(t, seat, ShuffleStep(seat))
    case StripHole(_) => t[seat].deck != []
    case TakeHole(_) => t[seat].deck != []
    case StripBoard(idx) => DealDone(t, seat) && BoardTurn(t, seat, idx, open)
    case TakeBoard(idx) =>
      DealDone(t, seat) && BoardTurn(t, seat, idx, open) && Hosted(t, seat, CommunityRelay(idx, seat))
    case Publish => true
  }

  ghost predicate BoardTurn(t: Table, seat: nat, idx: nat, open: nat)
    requires seat < |t|
  {
    && 2 * |t| <= idx < 2 * |t| + open
    && forall b: nat :: 2 * |t| + b < idx ==> Placed(t[seat].board, b)
  }

  ghost predicate Useful(d: Deal, t: Table, open: nat, seat: nat, a: Action)
    requires d.Ok() && |t| == |d.keys|
  {
    seat < |t| && Enabled(d, t, seat, a) && Adds(|t|, t, seat, a) && InTurn(t, seat, a, open)
  }

  ghost predicate SomeUse(d: Deal, t: Table, open: nat)
    requires d.Ok() && |t| == |d.keys|
  {
    exists seat, a :: Useful(d, t, open, seat, a)
  }

  lemma IsUse(d: Deal, t: Table, open: nat, seat: nat, a: Action)
    requires d.Ok() && |t| == |d.keys| && Useful(d, t, open, seat, a)
    ensures SomeUse(d, t, open)
  {
  }

  // -------------------------------------------------------------------------------- shuffling

  lemma {:induction false} ShuffleMoves(d: Deal, t: Table, open: nat, seat: nat)
    requires d.Ok() && Right(d, t) && seat < |t| && !Hosted(t, seat, ShuffleStep(seat))
    ensures SomeUse(d, t, open)
  {
    hide RightPeer;
    hide SomeUse;
    if seat == 0 {
      IsUse(d, t, open, seat, Shuffle);
    } else if Hosted(t, seat - 1, ShuffleStep(seat - 1)) {
      RightHosted(d, t, seat - 1, ShuffleStep(seat - 1));
      IsUse(d, t, open, seat, Shuffle);
    } else {
      ShuffleMoves(d, t, open, seat - 1);
    }
  }

  lemma DeckMoves(d: Deal, t: Table, open: nat, seat: nat)
    requires d.Ok() && Right(d, t) && DeckLinked(t) && seat < |t| && t[seat].deck == []
    ensures SomeUse(d, t, open)
  {
    hide RightPeer;
    hide SomeUse;
    hide DeckAfter;
    var n := |t|;
    if !Hosted(t, seat, ShuffleStep(seat)) {
      ShuffleMoves(d, t, open, seat);
    } else if !Hosted(t, n - 1, ShuffleStep(n - 1)) {
      ShuffleMoves(d, t, open, n - 1);
    } else {
      RightHosted(d, t, n - 1, ShuffleStep(n - 1));
      IsUse(d, t, open, seat, TakeDeck);
    }
  }

  // ---------------------------------------------------------------------------------- dealing

  ghost predicate DecksOut(d: Deal, t: Table)
    requires d.Ok()
  {
    Right(d, t) && forall q :: 0 <= q < |t| ==> |t[q].deck| == 52
  }

  lemma HostsHole(d: Deal, t: Table, slot: nat, seat: nat)
    requires d.Ok() && Right(d, t) && Hosted(t, seat, HoleRelay(slot, seat))
    ensures HostsCard(t, seat, HoleRelay(slot, seat))
  {
    RightHosted(d, t, seat, HoleRelay(slot, seat));
  }

  lemma {:induction false} HoleMoves(d: Deal, t: Table, open: nat, slot: nat, seat: nat)
    requires d.Ok() && DecksOut(d, t) && slot < 52 && slot / 2 < |t| && seat < |t| && seat != slot / 2
    requires !Hosted(t, seat, HoleRelay(slot, seat))
    ensures SomeUse(d, t, open)
    decreases seat
  {
    hide RightPeer;
    hide SomeUse;
    var owner := slot / 2;
    if Ring(seat, owner) == [] {
      IsUse(d, t, open, seat, StripHole(slot));
    } else {
      var prev := Previous(seat, owner);
      RingToPrevious(seat, owner);
      if Hosted(t, prev, HoleRelay(slot, prev)) {
        HostsHole(d, t, slot, prev);
        IsUse(d, t, open, seat, StripHole(slot));
      } else {
        HoleMoves(d, t, open, slot, prev);
      }
    }
  }

  lemma OwnerMoves(d: Deal, t: Table, open: nat, slot: nat)
    requires d.Ok() && DecksOut(d, t) && slot < 52 && slot / 2 < |t| && !SlotDone(t, slot / 2, slot)
    ensures SomeUse(d, t, open)
  {
    hide RightPeer;
    hide SomeUse;
    var owner, n := slot / 2, |t|;
    RingEmpty(n, owner);
    RingToPrevious(n, owner);
    var last := Previous(n, owner);
    if Hosted(t, last, HoleRelay(slot, last)) {
      HostsHole(d, t, slot, last);
      IsUse(d, t, open, owner, TakeHole(slot));
    } else {
      HoleMoves(d, t, open, slot, last);
    }
  }

  lemma SlotMoves(d: Deal, t: Table, open: nat, seat: nat, slot: nat)
    requires d.Ok() && DecksOut(d, t) && slot < 2 * |t| <= 52 && seat < |t| && !SlotDone(t, seat, slot)
    ensures SomeUse(d, t, open)
  {
    hide DecksOut;
    hide SomeUse;
    if seat == slot / 2 {
      OwnerMoves(d, t, open, slot);
    } else {
      HoleMoves(d, t, open, slot, seat);
    }
  }

  // -------------------------------------------------------------------------------- the board

  /** Everybody is done with the deal and with the board places before `b`. */
  ghost predicate Ahead(d: Deal, t: Table, b: nat)
    requires d.Ok()
  {
    && DecksOut(d, t) && Linked(t)
    && forall q :: 0 <= q < |t| ==> DealDone(t, q) && forall c: nat :: c < b ==> Placed(t[q].board, c)
  }

  lemma {:induction false} RelayMoves(d: Deal, t: Table, open: nat, b: nat, seat: nat)
    requires d.Ok() && Ahead(d, t, b) && b < open && 2 * |t| + open <= 52 && seat < |t|
    requires !Hosted(t, seat, CommunityRelay(2 * |t| + b, seat))
    ensures SomeUse(d, t, open)
    decreases seat
  {
    hide RightPeer;
    hide SomeUse;
    hide BoardValue;
    hide DealDone;
    hide Linked;
    var idx := 2 * |t| + b;
    if seat == 0 {
      IsUse(d, t, open, seat, StripBoard(idx));
    } else if Hosted(t, seat - 1, CommunityRelay(idx, seat - 1)) {
      RightHosted(d, t, seat - 1, CommunityRelay(idx, seat - 1));
      IsUse(d, t, open, seat, StripBoard(idx));
    } else {
      RelayMoves(d, t, open, b, seat - 1);
    }
  }

  lemma BoardMoves(d: Deal, t: Table, open: nat, b: nat, seat: nat)
    requires d.Ok() && Ahead(d, t, b) && b < open && 2 * |t| + open <= 52 && seat < |t| && !Placed(t[seat].board, b)
    ensures SomeUse(d, t, open)
  {
    hide RightPeer;
    hide SomeUse;
    hide BoardValue;
    hide DealDone;
    var n, idx := |t|, 2 * |t| + b;
    assert CardLinked(t, idx);
    if !Hosted(t, n - 1, CommunityRelay(idx, n - 1)) {
      RelayMoves(d, t, open, b, n - 1);
    } else {
      AllRelays(t, idx, seat, n - 1);
      RightHosted(d, t, n - 1, CommunityCard(idx));
      IsUse(d, t, open, seat, TakeBoard(idx));
    }
  }

  // -------------------------------------------------------------------------------- together

  /** Deck, deal and the first `open` board cards. */
  ghost predicate SeatDone(t: Table, seat: nat, open: nat)
    requires seat < |t|
  {
    t[seat].deck != [] && DealDone(t, seat) && forall b: nat :: b < open ==> Placed(t[seat].board, b)
  }

  /** The first board place that somebody lacks. */
  lemma {:induction false} FirstMissing(t: Table, seat: nat, b: nat) returns (c: nat, q: nat)
    requires seat < |t| && !Placed(t[seat].board, b)
    ensures c <= b && q < |t| && !Placed(t[q].board, c)
    ensures forall p :: 0 <= p < |t| ==> forall e: nat :: e < c ==> Placed(t[p].board, e)
    decreases b
  {
    c, q := b, seat;
    if p, e: nat :| 0 <= p < |t| && e < b && !Placed(t[p].board, e) { c, q := FirstMissing(t, p, e); }
  }

  lemma AfterDeckMoves(d: Deal, t: Table, open: nat, seat: nat)
    requires d.Ok() && DecksOut(d, t) && Linked(t) && 2 * |t| + open <= 52 && seat < |t| && !SeatDone(t, seat, open)
    ensures SomeUse(d, t, open)
  {
    hide SomeUse;
    hide Linked;
    hide SlotDone;
    hide Right;
    RightSize(d, t);
    if q, slot :| 0 <= q < |t| && 0 <= slot < 2 * |t| && !SlotDone(t, q, slot) {
      SlotMoves(d, t, open, q, slot);
    } else {
      assert forall q :: 0 <= q < |t| ==> DealDone(t, q);
      var b: nat :| b < open && !Placed(t[seat].board, b);
      var c, q := FirstMissing(t, seat, b);
      BoardMoves(d, t, open, c, q);
    }
  }

  /** At every table of every run, with `open` board cards open: either every seat is done with shuffle, deal
      and these cards, or some seat's next step in program order is enabled and records something new. */
  lemma NeverStuck(d: Deal, run: seq<Table>, open: nat)
    requires d.Ok() && Run(d, run) && 2 * |d.keys| + open <= 52
    ensures var t := run[|run| - 1];
            |t| == |d.keys| && ((forall seat :: 0 <= seat < |t| ==> SeatDone(t, seat, open)) || SomeUse(d, t, open))
  {
    hide Right;
    hide SomeUse;
    hide Linked;
    hide SeatDone;
    var t := run[|run| - 1];
    RunIsRight(d, run);
    RightSize(d, t);
    RunIsLinked(d, run);
    if seat :| 0 <= seat < |t| && !SeatDone(t, seat, open) {
      if q :| 0 <= q < |t| && t[q].deck == [] {
        DeckIsLinked(t);
        DeckMoves(d, t, open, q);
      } else {
        forall q | 0 <= q < |t| ensures |t[q].deck| == 52 { DeckRight(d, t, q); }
        AfterDeckMoves(d, t, open, seat);
      }
    }
  }

  lemma DeckIsLinked(t: Table)
    requires Linked(t)
    ensures DeckLinked(t)
  {
  }

  /** No step adds anything twice, whatever is done in between: it adds nothing after it is taken, and what
      adds nothing now adds nothing later. */
  lemma UsedUp(d: Deal, t: Table, seat: nat, a: Action, u: Table, q: nat, b: Action)
    requires d.Ok() && Right(d, t) && Took(d, t, seat, a, u) && q < |t|
    ensures |u| == |t| && !Adds(|t|, u, seat, a) && (Adds(|t|, u, q, b) ==> Adds(|t|, t, q, b))
  {
    hide Right;
    hide Acted;
    hide Enabled;
    StepRecords(d, t, seat, a);
  }
}

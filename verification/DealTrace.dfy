/** What a run of shuffle, deal and reveal tells about the steps behind it: nobody holds a card that
    somebody has not stripped. */
module DealTrace {
  import opened Keys
  import opened MentalPoker
  import opened DealRun
  import opened DealSteps

  // ---------------------------------------------------------------------- one step, one file

  lemma HostedStays(d: Deal, t: Table, seat: nat, a: Action, u: Table, q: nat, name: Name)
    requires d.Ok() && Right(d, t) && Took(d, t, seat, a, u) && Hosted(t, q, name)
    ensures Hosted(u, q, name)
  {
    hide Right;
    hide Acted;
    hide Enabled;
    StepRecords(d, t, seat, a);
  }

  lemma NewlyHosted(d: Deal, t: Table, seat: nat, a: Action, u: Table, q: nat, name: Name)
    requires d.Ok() && Took(d, t, seat, a, u) && Hosted(u, q, name) && !Hosted(t, q, name)
    ensures q == seat && Writes(|t|, seat, a, name)
  {
    hide Acted;
    hide Enabled;
    hide Writes;
    if !Writes(|t|, seat, a, name) { OnlyWrites(d, t, seat, a, name); }
  }

  // ------------------------------------------------------------------------------------- links

  /** The last seat has its deck as soon as it hosts its shuffle. */
  ghost predicate DeckLinked(t: Table) {
    |t| > 0 && (Hosted(t, |t| - 1, ShuffleStep(|t| - 1)) ==> t[|t| - 1].deck != [])
  }

  /** Behind a seat's hole relay lies the relay of the seat before it in the ring. */
  ghost predicate HoleChained(t: Table, slot: nat, seat: nat) {
    Hosted(t, seat, HoleRelay(slot, seat)) && Ring(seat, slot / 2) != [] ==>
      Hosted(t, Previous(seat, slot / 2), HoleRelay(slot, Previous(seat, slot / 2)))
  }

  /** The relay of the last seat of the ring is there. */
  ghost predicate LastHosted(t: Table, slot: nat)
    requires |t| >= 2
  {
    var last := LastStripper(|t|, slot / 2); Hosted(t, last, HoleRelay(slot, last))
  }

  /** Behind a hole card, in the hand or in a claim, lies the relay of the last seat of its ring. */
  ghost predicate HoleLinked(t: Table, seat: nat)
    requires |t| >= 2 && seat < |t|
  {
    && (t[seat].card1 != "" ==> LastHosted(t, 2 * seat))
    && (t[seat].card2 != "" ==> LastHosted(t, 2 * seat + 1))
    && (Hosted(t, seat, ShowdownClaim(seat)) && Hosts(t, seat, ShowdownClaim(seat)).Claim? ==>
          && (Hosts(t, seat, ShowdownClaim(seat)).card1 != "" ==> LastHosted(t, 2 * seat))
          && (Hosts(t, seat, ShowdownClaim(seat)).card2 != "" ==> LastHosted(t, 2 * seat + 1)))
  }

  /** Behind a seat's board relay lies the relay of the seat before it. */
  ghost predicate RelayChained(t: Table, idx: nat, seat: nat) {
    Hosted(t, seat, CommunityRelay(idx, seat)) && seat > 0 ==> Hosted(t, seat - 1, CommunityRelay(idx, seat - 1))
  }

  /** The last seat's relay, the published card and its own record of it come together. */
  ghost predicate CardLinked(t: Table, idx: nat) {
    && |t| > 0
    && (Hosted(t, |t| - 1, CommunityCard(idx)) <==> Hosted(t, |t| - 1, CommunityRelay(idx, |t| - 1)))
    && (Hosted(t, |t| - 1, CommunityCard(idx)) && 2 * |t| <= idx ==> Placed(t[|t| - 1].board, idx - 2 * |t|))
  }

  /** Behind a filled board place lies the published card. */
  ghost predicate PlaceLinked(t: Table, seat: nat, b: nat)
    requires seat < |t|
  {
    Placed(t[seat].board, b) ==> Hosted(t, |t| - 1, CommunityCard(2 * |t| + b))
  }

  lemma DeckKept(d: Deal, t: Table, seat: nat, a: Action, u: Table)
    requires d.Ok() && Right(d, t) && Took(d, t, seat, a, u) && DeckLinked(t)
    ensures DeckLinked(u)
  {
    hide Right;
    hide Acted;
    hide Enabled;
    StepRecords(d, t, seat, a);
    if Hosted(u, |t| - 1, ShuffleStep(|t| - 1)) && !Hosted(t, |t| - 1, ShuffleStep(|t| - 1)) {
      NewlyHosted(d, t, seat, a, u, |t| - 1, ShuffleStep(|t| - 1));
    }
  }

  lemma HoleChainKept(d: Deal, t: Table, seat: nat, a: Action, u: Table, slot: nat, q: nat)
    requires d.Ok() && Right(d, t) && Took(d, t, seat, a, u) && HoleChained(t, slot, q)
    ensures HoleChained(u, slot, q)
  {
    hide Right;
    hide Acted;
    hide Ring;
    if Hosted(u, q, HoleRelay(slot, q)) && Ring(q, slot / 2) != [] {
      if !Hosted(t, q, HoleRelay(slot, q)) { NewlyHosted(d, t, seat, a, u, q, HoleRelay(slot, q)); }
      var prev := Previous(q, slot / 2);
      HostedStays(d, t, seat, a, u, prev, HoleRelay(slot, prev));
    }
  }

  lemma LastHostedStays(d: Deal, t: Table, seat: nat, a: Action, u: Table, slot: nat)
    requires d.Ok() && Right(d, t) && Took(d, t, seat, a, u) && LastHosted(t, slot)
    ensures LastHosted(u, slot)
  {
    hide Right;
    hide Acted;
    hide Enabled;
    HostedStays(d, t, seat, a, u, LastStripper(|t|, slot / 2), HoleRelay(slot, LastStripper(|t|, slot / 2)));
  }

  /** An owner can only take a card whose last relay is hosted. */
  lemma TakeNeedsRelay(d: Deal, t: Table, seat: nat, slot: nat)
    requires d.Ok() && |t| == |d.keys| && seat < |t| && Enabled(d, t, seat, TakeHole(slot))
    ensures slot / 2 == seat && LastHosted(t, slot)
  {
    LastOfRing(|t|, seat);
  }

  lemma HoleKept(d: Deal, t: Table, seat: nat, a: Action, u: Table, q: nat)
    requires d.Ok() && Right(d, t) && Took(d, t, seat, a, u) && q < |t| && HoleLinked(t, q)
    ensures HoleLinked(u, q)
  {
    hide Right;
    hide Acted;
    hide Enabled;
    hide LastHosted;
    OnlyHoles(d, t, seat, a);
    if a == TakeHole(2 * seat) { TakeNeedsRelay(d, t, seat, 2 * seat); }
    if a == TakeHole(2 * seat + 1) { TakeNeedsRelay(d, t, seat, 2 * seat + 1); }
    if LastHosted(t, 2 * q) { LastHostedStays(d, t, seat, a, u, 2 * q); }
    if LastHosted(t, 2 * q + 1) { LastHostedStays(d, t, seat, a, u, 2 * q + 1); }
    if a.Publish? {
      PublishWrites(d, t, seat);
    } else {
      OnlyWrites(d, t, seat, a, ShowdownClaim(seat));
    }
  }

  lemma PublishWrites(d: Deal, t: Table, seat: nat)
    requires d.Ok() && |t| == |d.keys| && seat < |t| && Enabled(d, t, seat, Publish)
    ensures var after := Acted(d, t, seat, Publish);
            && ShowdownClaim(seat) in after.files && after.files[ShowdownClaim(seat)].Claim?
            && after.files[ShowdownClaim(seat)].card1 == t[seat].card1
            && after.files[ShowdownClaim(seat)].card2 == t[seat].card2
  {
  }

  lemma RelayKept(d: Deal, t: Table, seat: nat, a: Action, u: Table, idx: nat, q: nat)
    requires d.Ok() && Right(d, t) && Took(d, t, seat, a, u) && RelayChained(t, idx, q)
    ensures RelayChained(u, idx, q)
  {
    hide Right;
    hide Acted;
    if Hosted(u, q, CommunityRelay(idx, q)) && q > 0 {
      if !Hosted(t, q, CommunityRelay(idx, q)) { NewlyHosted(d, t, seat, a, u, q, CommunityRelay(idx, q)); }
      HostedStays(d, t, seat, a, u, q - 1, CommunityRelay(idx, q - 1));
    }
  }

  lemma CardKept(d: Deal, t: Table, seat: nat, a: Action, u: Table, idx: nat)
    requires d.Ok() && Right(d, t) && Took(d, t, seat, a, u) && CardLinked(t, idx)
    ensures CardLinked(u, idx)
  {
    hide Right;
    hide Acted;
    hide Enabled;
    var n := |t|;
    StepRecords(d, t, seat, a);
    if Hosted(u, n - 1, CommunityCard(idx)) && !Hosted(t, n - 1, CommunityCard(idx)) {
      NewlyHosted(d, t, seat, a, u, n - 1, CommunityCard(idx));
    }
    if Hosted(u, n - 1, CommunityRelay(idx, n - 1)) && !Hosted(t, n - 1, CommunityRelay(idx, n - 1)) {
      NewlyHosted(d, t, seat, a, u, n - 1, CommunityRelay(idx, n - 1));
    }
  }

  lemma PlaceKept(d: Deal, t: Table, seat: nat, a: Action, u: Table, q: nat, b: nat)
    requires d.Ok() && Right(d, t) && Took(d, t, seat, a, u) && q < |t| && PlaceLinked(t, q, b)
    ensures PlaceLinked(u, q, b)
  {
    hide Right;
    hide Acted;
    OnlyPlace(d, t, seat, a, b);
    StepRecords(d, t, seat, a);
    var card := CommunityCard(2 * |t| + b);
    if Hosted(t, |t| - 1, card) { HostedStays(d, t, seat, a, u, |t| - 1, card); }
  }

  // ----------------------------------------------------------------------------------- every run

  ghost predicate Linked(t: Table) {
    && |t| >= 2 && DeckLinked(t)
    && (forall slot: nat, q: nat :: HoleChained(t, slot, q))
    && (forall q :: 0 <= q < |t| ==> HoleLinked(t, q))
    && (forall idx: nat, q: nat :: RelayChained(t, idx, q))
    && (forall idx: nat :: CardLinked(t, idx))
    && (forall q: nat, b: nat :: q < |t| ==> PlaceLinked(t, q, b))
  }

  lemma LinkedKept(d: Deal, t: Table, seat: nat, a: Action, u: Table)
    requires d.Ok() && Right(d, t) && Took(d, t, seat, a, u) && Linked(t)
    ensures Linked(u)
  {
    hide Right;
    hide Acted;
    hide Enabled;
    hide DeckLinked;
    hide HoleChained;
    hide HoleLinked;
    hide RelayChained;
    hide CardLinked;
    hide PlaceLinked;
    DeckKept(d, t, seat, a, u);
    forall slot: nat, q: nat ensures HoleChained(u, slot, q) { HoleChainKept(d, t, seat, a, u, slot, q); }
    forall q | 0 <= q < |u| ensures HoleLinked(u, q) { HoleKept(d, t, seat, a, u, q); }
    forall idx: nat, q: nat ensures RelayChained(u, idx, q) { RelayKept(d, t, seat, a, u, idx, q); }
    forall idx: nat ensures CardLinked(u, idx) { CardKept(d, t, seat, a, u, idx); }
    forall q: nat, b: nat | q < |u| ensures PlaceLinked(u, q, b) { PlaceKept(d, t, seat, a, u, q, b); }
  }

  lemma StartLinked(n: nat)
    requires n >= 2
    ensures Linked(Start(n))
  {
  }

  /** In every run, behind every card that anybody holds lie the steps that it takes to get it. */
  lemma {:induction false} RunIsLinked(d: Deal, run: seq<Table>)
    requires d.Ok() && Run(d, run)
    ensures Linked(run[|run| - 1])
    decreases |run|
  {
    hide Linked;
    hide Took;
    if |run| == 1 {
      StartLinked(|d.keys|);
    } else {
      RunFront(d, run);
      RunIsRight(d, run[..|run| - 1]);
      RunIsLinked(d, run[..|run| - 1]);
      var t, u := run[|run| - 2], run[|run| - 1];
      var seat: nat, a: Action :| Took(d, t, seat, a, u);
      LinkedKept(d, t, seat, a, u);
    }
  }

  lemma RunPrefix(d: Deal, run: seq<Table>, k: nat)
    requires d.Ok() && Run(d, run) && k < |run|
    ensures Run(d, run[..k + 1])
  {
    hide Follows;
  }

  lemma TableIsRight(d: Deal, run: seq<Table>, k: nat)
    requires d.Ok() && Run(d, run) && k < |run|
    ensures Right(d, run[k]) && |run[k]| == |d.keys| && Linked(run[k])
  {
    hide Linked;
    hide Run;
    RunPrefix(d, run, k);
    RunIsRight(d, run[..k + 1]);
    RunIsLinked(d, run[..k + 1]);
  }

  /** What is hosted stays hosted for the rest of the run. */
  lemma {:induction false} StaysHosted(d: Deal, run: seq<Table>, i: nat, j: nat, q: nat, name: Name)
    requires d.Ok() && Run(d, run) && i <= j < |run| && Hosted(run[i], q, name)
    ensures Hosted(run[j], q, name)
  {
    hide Right;
    hide Took;
    hide Linked;
    hide Hosted;
    if i < j {
      StaysHosted(d, run, i, j - 1, q, name);
      TableIsRight(d, run, j - 1);
      assert Follows(d, run[j - 1], run[j]);
      var seat: nat, a: Action :| Took(d, run[j - 1], seat, a, run[j]);
      HostedStays(d, run[j - 1], seat, a, run[j], q, name);
    }
  }

  lemma {:induction false} AllRelays(t: Table, idx: nat, seat: nat, q: nat)
    requires Linked(t) && seat <= q < |t| && Hosted(t, q, CommunityRelay(idx, q))
    ensures Hosted(t, seat, CommunityRelay(idx, seat))
    decreases q
  {
    assert RelayChained(t, idx, q);
    if seat < q { AllRelays(t, idx, seat, q - 1); }
  }

  /** A board card is recorded by anybody only if every seat has stripped it. A seat that is gone before
      its relay blocks the card for good. */
  lemma BoardNeedsEverySeat(d: Deal, run: seq<Table>, q: nat, b: nat, seat: nat)
    requires d.Ok() && Run(d, run) && q < |d.keys| && seat < |d.keys|
    ensures var t := run[|run| - 1];
            && |t| == |d.keys|
            && (Placed(t[q].board, b) ==> Hosted(t, seat, CommunityRelay(2 * |t| + b, seat)))
  {
    hide Right;
    var t := run[|run| - 1];
    RunIsRight(d, run);
    RightSize(d, t);
    RunIsLinked(d, run);
    if Placed(t[q].board, b) {
      assert PlaceLinked(t, q, b) && CardLinked(t, 2 * |t| + b);
      AllRelays(t, 2 * |t| + b, seat, |t| - 1);
    }
  }

  lemma RightSize(d: Deal, t: Table)
    requires d.Ok() && Right(d, t)
    ensures |t| == |d.keys|
  {
  }

  lemma {:induction false} AllHoleRelays(t: Table, slot: nat, seat: nat, q: nat)
    requires Linked(t) && seat <= q < |t| && seat != slot / 2 && q != slot / 2 && Hosted(t, q, HoleRelay(slot, q))
    ensures Hosted(t, seat, HoleRelay(slot, seat))
    decreases q
  {
    assert HoleChained(t, slot, q);
    if seat < q {
      assert seat in Ring(q, slot / 2);
      RingToPrevious(q, slot / 2);
      AllHoleRelays(t, slot, seat, Previous(q, slot / 2));
    }
  }

  /** A hole card is in its owner's hand only if every other seat has stripped it. */
  lemma HoleNeedsEverySeat(d: Deal, run: seq<Table>, owner: nat, seat: nat)
    requires d.Ok() && Run(d, run) && owner < |d.keys| && seat < |d.keys| && seat != owner
    ensures var t := run[|run| - 1];
            && |t| == |d.keys|
            && (t[owner].card1 != "" ==> Hosted(t, seat, HoleRelay(2 * owner, seat)))
            && (t[owner].card2 != "" ==> Hosted(t, seat, HoleRelay(2 * owner + 1, seat)))
  {
    hide Right;
    var t := run[|run| - 1];
    RunIsRight(d, run);
    RightSize(d, t);
    RunIsLinked(d, run);
    assert HoleLinked(t, owner);
    if t[owner].card1 != "" { AllHoleRelays(t, 2 * owner, seat, LastStripper(|t|, owner)); }
    if t[owner].card2 != "" { AllHoleRelays(t, 2 * owner + 1, seat, LastStripper(|t|, owner)); }
  }

  // ------------------------------------------------------------------------- runs with their steps

  type Steps = seq<(nat, Action)>

  /** A run together with the step that leads from each table to the next. */
  ghost predicate Labelled(d: Deal, run: seq<Table>, acts: Steps)
    requires d.Ok()
  {
    && |run| == |acts| + 1 && run[0] == Start(|d.keys|)
    && forall i :: 0 <= i < |acts| ==> Took(d, run[i], acts[i].0, acts[i].1, run[i + 1])
  }

  lemma LabelledIsRun(d: Deal, run: seq<Table>, acts: Steps)
    requires d.Ok() && Labelled(d, run, acts)
    ensures Run(d, run)
  {
    hide Took;
    forall i | 0 < i < |run| ensures Follows(d, run[i - 1], run[i]) {
      assert Took(d, run[i - 1], acts[i - 1].0, acts[i - 1].1, run[i - 1 + 1]);
    }
  }

  /** The seat took its own step for board place `b`: it stripped the card last, or took it from the last
      seat. */
  ghost predicate TookPlace(n: nat, acts: Steps, seat: nat, b: nat) {
    exists i :: 0 <= i < |acts| && acts[i].0 == seat && BoardIndex(n, seat, acts[i].1) == 2 * n + b
  }

  lemma TookPlaceNext(n: nat, acts: Steps, seat: nat, b: nat)
    requires acts != []
    ensures var step := acts[|acts| - 1];
            TookPlace(n, acts, seat, b) <==>
            TookPlace(n, acts[..|acts| - 1], seat, b) || (step.0 == seat && BoardIndex(n, seat, step.1) == 2 * n + b)
  {
    hide BoardIndex;
    var front := acts[..|acts| - 1];
    if TookPlace(n, front, seat, b) {
      var i :| 0 <= i < |front| && front[i].0 == seat && BoardIndex(n, seat, front[i].1) == 2 * n + b;
      assert acts[i] == front[i];
    }
    if TookPlace(n, acts, seat, b) {
      var i :| 0 <= i < |acts| && acts[i].0 == seat && BoardIndex(n, seat, acts[i].1) == 2 * n + b;
      if i < |front| { assert front[i] == acts[i]; }
    }
  }

  /** After any run, a seat's board place is filled exactly if the seat took the step for it. */
  lemma {:induction false} PlacedIffTook(d: Deal, run: seq<Table>, acts: Steps, seat: nat, b: nat)
    requires d.Ok() && Labelled(d, run, acts) && seat < |d.keys|
    ensures |run[|run| - 1]| == |d.keys|
    ensures Placed(run[|run| - 1][seat].board, b) <==> TookPlace(|d.keys|, acts, seat, b)
    ensures Trimmed(run[|run| - 1][seat].board)
    decreases |acts|
  {
    hide Right;
    hide Took;
    hide BoardIndex;
    if acts != [] {
      var k := |acts| - 1;
      var front := acts[..k];
      forall i | 0 <= i < k ensures Took(d, run[..k + 1][i], front[i].0, front[i].1, run[..k + 1][i + 1]) {
        assert Took(d, run[i], acts[i].0, acts[i].1, run[i + 1]);
      }
      PlacedIffTook(d, run[..k + 1], front, seat, b);
      LabelledIsRun(d, run[..k + 1], front);
      RunIsRight(d, run[..k + 1]);
      assert Took(d, run[k], acts[k].0, acts[k].1, run[k + 1]);
      StepPlaces(d, run[k], acts[k].0, acts[k].1, run[k + 1], seat, b);
      TookPlaceNext(|d.keys|, acts, seat, b);
    }
  }

  lemma StepPlaces(d: Deal, t: Table, seat: nat, a: Action, u: Table, q: nat, b: nat)
    requires d.Ok() && Right(d, t) && Took(d, t, seat, a, u) && q < |t|
    ensures |u| == |t| == |d.keys|
    ensures Placed(u[q].board, b) <==>
            Placed(t[q].board, b) || (q == seat && BoardIndex(|t|, seat, a) == 2 * |t| + b)
    ensures Trimmed(t[q].board) ==> Trimmed(u[q].board)
  {
    hide Right;
    hide Acted;
    hide Enabled;
    hide BoardIndex;
    OnlyPlace(d, t, seat, a, b);
  }

  /** The board place shows the card dealt there. */
  ghost predicate ShowsDealt(d: Deal, board: seq<string>, b: nat)
    requires d.Ok()
  {
    Placed(board, b) && 2 * |d.keys| + b < 52 && board[b] == Plain(d, 2 * |d.keys| + b)
  }

  /** The board holds the first `k` board cards and nothing else. */
  ghost predicate BoardShows(d: Deal, board: seq<string>, k: nat)
    requires d.Ok()
  {
    |board| == k && forall b: nat :: b < k ==> ShowsDealt(d, board, b)
  }

  lemma RightPlace(d: Deal, t: Table, seat: nat, b: nat)
    requires d.Ok() && Right(d, t) && seat < |t| && Placed(t[seat].board, b)
    ensures ShowsDealt(d, t[seat].board, b)
  {
    hide RightFiles;
    assert RightPeer(d, seat, t[seat]);
    assert RightHole(d, 2 * |d.keys| + b, t[seat].board[b]);
  }

  /** A seat that took exactly the steps for the first `k` board cards has exactly these cards on its board. */
  lemma BoardIsDealt(d: Deal, run: seq<Table>, acts: Steps, seat: nat, k: nat)
    requires d.Ok() && Labelled(d, run, acts) && seat < |d.keys|
    requires forall b: nat :: TookPlace(|d.keys|, acts, seat, b) <==> b < k
    ensures |run[|run| - 1]| == |d.keys| && BoardShows(d, run[|run| - 1][seat].board, k)
  {
    hide Right;
    hide Took;
    hide TookPlace;
    hide ShowsDealt;
    var t := run[|run| - 1];
    LabelledIsRun(d, run, acts);
    RunIsRight(d, run);
    PlacedIffTook(d, run, acts, seat, 0);
    forall b: nat ensures Placed(t[seat].board, b) <==> b < k { PlacedIffTook(d, run, acts, seat, b); }
    assert k > 0 ==> Placed(t[seat].board, k - 1);
    forall b: nat | b < k ensures ShowsDealt(d, t[seat].board, b) { RightPlace(d, t, seat, b); }
  }
}

/** What one step of shuffle, deal and reveal records: what it is for, nothing else, and nothing is lost. */
module DealSteps {
  import opened Bytes
  import opened Text
  import opened Keys
  import opened MentalPoker
  import opened Peers
  import opened DealRun

  /** The board place is filled. */
  predicate Placed(board: seq<string>, b: nat) { b < |board| && board[b] != "" }

  /** Nothing that was recorded is lost. */
  ghost predicate Keeps(before: Peer, after: Peer) {
    && (before.deck != [] ==> after.deck != [])
    && before.files.Keys <= after.files.Keys
    && (before.card1 != "" ==> after.card1 != "") && (before.card2 != "" ==> after.card2 != "")
    && forall b: nat :: Placed(before.board, b) ==> Placed(after.board, b)
  }

  lemma PlainIsText(d: Deal, slot: nat)
    requires d.Ok() && slot < 52
    ensures Plain(d, slot) != ""
  {
  }

  lemma BoardTakenKeeps(me: Peer, n: nat, idx: nat, plain: bytes)
    requires 2 * n <= idx && AsString(plain) != ""
    ensures Keeps(me, BoardTaken(me, n, idx, plain))
    ensures Placed(BoardTaken(me, n, idx, plain).board, idx - 2 * n)
  {
    SetBoardExactly(me.board, idx - 2 * n, AsString(plain), idx - 2 * n);
    forall b: nat | Placed(me.board, b) ensures Placed(BoardTaken(me, n, idx, plain).board, b) {
      SetBoardExactly(me.board, idx - 2 * n, AsString(plain), b);
    }
  }

  /** What the step itself records. */
  ghost predicate Recorded(n: nat, seat: nat, a: Action, after: Peer) {
    match a
    case Shuffle => ShuffleStep(seat) in after.files && (seat == n - 1 ==> after.deck != [])
    case TakeDeck => after.deck != []
    case StripHole(slot) => HoleRelay(slot, seat) in after.files
    case TakeHole(slot) => if slot % 2 == 0 then after.card1 != "" else after.card2 != ""
    case StripBoard(idx) =>
      && 2 * n <= idx && CommunityRelay(idx, seat) in after.files
      && (seat == n - 1 ==> CommunityCard(idx) in after.files && Placed(after.board, idx - 2 * n))
    case TakeBoard(idx) => 2 * n <= idx && Placed(after.board, idx - 2 * n)
    case Publish => ShowdownClaim(seat) in after.files
  }

  lemma ShuffleRecords(d: Deal, t: Table, seat: nat)
    requires d.Ok() && Right(d, t) && seat < |t| && CanShuffle(t, seat)
    ensures var after := ShuffleStepped(t[seat], seat, |t|, ShuffleInput(t, seat), d.draws[seat], d.keys[seat], d.p);
            Keeps(t[seat], after) && Recorded(|t|, seat, Shuffle, after)
  {
    hide RightPeer;
    ShuffleResult(d, t, seat);
  }

  lemma BoardValueIsText(d: Deal, idx: nat)
    requires d.Ok() && idx < 52
    ensures AsString(BoardValue(d, idx, |d.keys| - 1)) != ""
  {
    hide BoardValue;
    hide Plain;
    LastSeatReads(d, idx);
    PlainIsText(d, idx);
  }

  lemma StripBoardRecords(d: Deal, t: Table, seat: nat, idx: nat)
    requires d.Ok() && Right(d, t) && seat < |t| && CanStripBoard(t, |t|, seat, idx)
    ensures var after := BoardStripped(t[seat], seat, |t|, idx, BoardInput(t, |t|, seat, idx), d.keys[seat], d.p);
            Keeps(t[seat], after) && Recorded(|t|, seat, StripBoard(idx), after)
  {
    hide RightPeer;
    hide BoardValue;
    hide BoardInput;
    hide BoardStripped;
    hide BoardTaken;
    StripBoardResult(d, t, seat, idx);
    if seat == |t| - 1 {
      BoardValueIsText(d, idx);
      var value := BoardValue(d, idx, seat);
      var hosted := t[seat].Host(CommunityRelay(idx, seat), Card(value)).Host(CommunityCard(idx), Card(value));
      BoardTakenKeeps(hosted, |t|, idx, value);
      BoardTakenFiles(hosted, |t|, idx, value);
    }
  }

  lemma BoardTakenFiles(me: Peer, n: nat, idx: nat, plain: bytes)
    requires 2 * n <= idx
    ensures BoardTaken(me, n, idx, plain).files == me.files
  {
  }

  lemma TakeDeckRecords(d: Deal, t: Table, seat: nat)
    requires d.Ok() && Right(d, t) && seat < |t| && HostsDeck(t, |t| - 1, ShuffleStep(|t| - 1))
    ensures Hosts(t, |t| - 1, ShuffleStep(|t| - 1)).cards != []
  {
    hide RightPeer;
    RightHosted(d, t, |t| - 1, ShuffleStep(|t| - 1));
  }

  lemma TakeHoleRecords(d: Deal, t: Table, seat: nat, slot: nat)
    requires d.Ok() && Right(d, t) && seat < |t| && CanTakeHole(t, |d.keys|, seat, slot)
    ensures var last := Previous(|d.keys|, seat);
            var after := HoleTaken(t[seat], slot, Hosts(t, last, HoleRelay(slot, last)).data, d.keys[seat], d.p);
            Keeps(t[seat], after) && Recorded(|t|, seat, TakeHole(slot), after)
  {
    hide RightPeer;
    hide Ring;
    TakenHole(d, t, seat, slot);
    PlainIsText(d, slot);
  }

  lemma TakeBoardRecords(d: Deal, t: Table, seat: nat, idx: nat)
    requires d.Ok() && Right(d, t) && seat < |t| && CanTakeBoard(t, |t|, seat, idx)
    ensures var after := BoardTaken(t[seat], |t|, idx, Hosts(t, |t| - 1, CommunityCard(idx)).data);
            Keeps(t[seat], after) && Recorded(|t|, seat, TakeBoard(idx), after)
  {
    hide RightPeer;
    hide BoardTaken;
    hide BoardValue;
    DeckRight(d, t, seat);
    HostedBoard(d, t, idx);
    BoardValueIsText(d, idx);
    BoardTakenKeeps(t[seat], |t|, idx, Hosts(t, |t| - 1, CommunityCard(idx)).data);
  }

  /** A step records what it is for, and loses nothing that was recorded before. */
  lemma StepRecords(d: Deal, t: Table, seat: nat, a: Action)
    requires d.Ok() && Right(d, t) && seat < |t| && Enabled(d, t, seat, a)
    ensures Keeps(t[seat], Acted(d, t, seat, a)) && Recorded(|t|, seat, a, Acted(d, t, seat, a))
  {
    hide RightPeer;
    match a
    case Shuffle => ShuffleRecords(d, t, seat);
    case StripHole(slot) =>
    case StripBoard(idx) => StripBoardRecords(d, t, seat, idx);
    case Publish =>
    case TakeDeck => TakeDeckRecords(d, t, seat);
    case TakeHole(slot) => TakeHoleRecords(d, t, seat, slot);
    case TakeBoard(idx) => TakeBoardRecords(d, t, seat, idx);
  }

  // ------------------------------------------------------------------------- and nothing else

  /** The files that a step writes. */
  predicate Writes(n: nat, seat: nat, a: Action, name: Name) {
    match a
    case Shuffle => name == ShuffleStep(seat)
    case StripHole(slot) => name == HoleRelay(slot, seat)
    case StripBoard(idx) => name == CommunityRelay(idx, seat) || (seat == n - 1 && name == CommunityCard(idx))
    case Publish => name == ShowdownClaim(seat)
    case _ => false
  }

  /** The board index that a step records at this seat, or -1. */
  function BoardIndex(n: nat, seat: nat, a: Action): int {
    match a
    case TakeBoard(idx) => idx
    case StripBoard(idx) => if seat == n - 1 then idx else -1
    case _ => -1
  }

  lemma OnlyWrites(d: Deal, t: Table, seat: nat, a: Action, name: Name)
    requires d.Ok() && |t| == |d.keys| && seat < |t| && Enabled(d, t, seat, a)
    requires !Writes(|t|, seat, a, name)
    ensures name in Acted(d, t, seat, a).files <==> name in t[seat].files
    ensures name in t[seat].files ==> Acted(d, t, seat, a).files[name] == t[seat].files[name]
  {
    hide Enabled;
    hide SetBoard;
  }

  lemma OnlyHoles(d: Deal, t: Table, seat: nat, a: Action)
    requires d.Ok() && |t| == |d.keys| && seat < |t| && Enabled(d, t, seat, a)
    ensures Acted(d, t, seat, a).card1 == t[seat].card1 || a == TakeHole(2 * seat)
    ensures Acted(d, t, seat, a).card2 == t[seat].card2 || a == TakeHole(2 * seat + 1)
  {
    hide SetBoard;
  }

  /** Setting one board place touches no other, and the last place is always a filled one. */
  lemma SetBoardExactly(board: seq<string>, b: nat, card: string, c: nat)
    requires card != ""
    ensures Placed(SetBoard(board, b, card), c) <==> Placed(board, c) || c == b
    ensures board == [] || Placed(board, |board| - 1) ==>
              Placed(SetBoard(board, b, card), |SetBoard(board, b, card)| - 1)
  {
    var padded := PaddedBoard(board, b);
    if c < |board| { assert padded[c] == padded[..|board|][c]; }
    if board != [] { assert padded[|board| - 1] == padded[..|board|][|board| - 1]; }
  }

  /** A board whose last place, if it has any, is filled. */
  predicate Trimmed(board: seq<string>) { board == [] || Placed(board, |board| - 1) }

  lemma BoardTakenExactly(me: Peer, n: nat, idx: nat, plain: bytes, b: nat)
    requires 2 * n <= idx && AsString(plain) != ""
    ensures Placed(BoardTaken(me, n, idx, plain).board, b) <==> Placed(me.board, b) || 2 * n + b == idx
    ensures Trimmed(me.board) ==> Trimmed(BoardTaken(me, n, idx, plain).board)
  {
    hide SetBoard;
    SetBoardExactly(me.board, idx - 2 * n, AsString(plain), b);
  }

  /** A step fills the board place it is for and no other. */
  lemma OnlyPlace(d: Deal, t: Table, seat: nat, a: Action, b: nat)
    requires d.Ok() && Right(d, t) && seat < |t| && Enabled(d, t, seat, a)
    ensures Placed(Acted(d, t, seat, a).board, b) <==>
            Placed(t[seat].board, b) || BoardIndex(|t|, seat, a) == 2 * |t| + b
    ensures Trimmed(t[seat].board) ==> Trimmed(Acted(d, t, seat, a).board)
  {
    hide RightPeer;
    hide BoardTaken;
    hide BoardValue;
    match a
    case StripBoard(idx) => StripPlace(d, t, seat, idx, b);
    case TakeBoard(idx) => TakePlace(d, t, seat, idx, b);
    case _ =>
  }

  lemma StripPlace(d: Deal, t: Table, seat: nat, idx: nat, b: nat)
    requires d.Ok() && Right(d, t) && seat < |t| && CanStripBoard(t, |t|, seat, idx)
    ensures var after := BoardStripped(t[seat], seat, |t|, idx, BoardInput(t, |t|, seat, idx), d.keys[seat], d.p);
            && (Placed(after.board, b) <==> Placed(t[seat].board, b) || (seat == |t| - 1 && idx == 2 * |t| + b))
            && (Trimmed(t[seat].board) ==> Trimmed(after.board))
  {
    hide RightPeer;
    hide BoardValue;
    hide BoardInput;
    hide BoardStripped;
    hide BoardTaken;
    StripBoardResult(d, t, seat, idx);
    if seat == |t| - 1 {
      BoardValueIsText(d, idx);
      var value := BoardValue(d, idx, seat);
      var hosted := t[seat].Host(CommunityRelay(idx, seat), Card(value)).Host(CommunityCard(idx), Card(value));
      BoardTakenExactly(hosted, |t|, idx, value, b);
    }
  }

  lemma TakePlace(d: Deal, t: Table, seat: nat, idx: nat, b: nat)
    requires d.Ok() && Right(d, t) && seat < |t| && CanTakeBoard(t, |t|, seat, idx)
    ensures var after := BoardTaken(t[seat], |t|, idx, Hosts(t, |t| - 1, CommunityCard(idx)).data);
            && (Placed(after.board, b) <==> Placed(t[seat].board, b) || idx == 2 * |t| + b)
            && (Trimmed(t[seat].board) ==> Trimmed(after.board))
  {
    hide RightPeer;
    hide BoardTaken;
    hide BoardValue;
    DeckRight(d, t, seat);
    HostedBoard(d, t, idx);
    BoardValueIsText(d, idx);
    BoardTakenExactly(t[seat], |t|, idx, Hosts(t, |t| - 1, CommunityCard(idx)).data, b);
  }
}

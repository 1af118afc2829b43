/** A whole table of peers shuffling, dealing and revealing in any interleaving: nothing that is hosted
    or recorded is ever wrong. */
module DealRun {
  import opened Bytes
  import opened Text
  import opened Sra
  import opened Keys
  import opened MentalPoker
  import opened Peers
  import Shuffling

  type Table = seq<Peer>

  datatype Action =
    | Shuffle
    | TakeDeck
    | StripHole(slot: nat)
    | TakeHole(slot: nat)
    | StripBoard(idx: nat)
    | TakeBoard(idx: nat)
    | Publish

  /** Whether `seat` hosts `name`, so that a poll for it returns. */
  predicate Hosted(t: Table, seat: nat, name: Name) { seat < |t| && name in t[seat].files }

  function Hosts(t: Table, seat: nat, name: Name): File
    requires Hosted(t, seat, name)
  {
    t[seat].files[name]
  }

  predicate HostsCard(t: Table, seat: nat, name: Name) { Hosted(t, seat, name) && Hosts(t, seat, name).Card? }

  predicate HostsDeck(t: Table, seat: nat, name: Name) { Hosted(t, seat, name) && Hosts(t, seat, name).Deck? }

  /** The seat before `seat` in the ring around `owner`. */
  function Previous(seat: nat, owner: nat): nat
    requires Ring(seat, owner) != []
  {
    Ring(seat, owner)[|Ring(seat, owner)| - 1]
  }

  // What each action polls for, and what it gets.

  predicate CanShuffle(t: Table, seat: nat) {
    seat == 0 || (HostsDeck(t, seat - 1, ShuffleStep(seat - 1)) && |Hosts(t, seat - 1, ShuffleStep(seat - 1)).cards| == 52)
  }

  function ShuffleInput(t: Table, seat: nat): (cards: seq<bytes>)
    requires CanShuffle(t, seat)
    ensures |cards| == 52
  {
    if seat == 0 then WireDeck() else Hosts(t, seat - 1, ShuffleStep(seat - 1)).cards
  }

  predicate CanStripHole(t: Table, n: nat, seat: nat, slot: nat)
    requires seat < |t|
  {
    && slot < |t[seat].deck| && slot / 2 < n && seat != slot / 2
    && (Ring(seat, slot / 2) != [] ==>
          HostsCard(t, Previous(seat, slot / 2), HoleRelay(slot, Previous(seat, slot / 2))))
  }

  function HoleInput(t: Table, n: nat, seat: nat, slot: nat): bytes
    requires seat < |t| && CanStripHole(t, n, seat, slot)
  {
    if Ring(seat, slot / 2) == [] then t[seat].deck[slot]
    else Hosts(t, Previous(seat, slot / 2), HoleRelay(slot, Previous(seat, slot / 2))).data
  }

  predicate CanTakeHole(t: Table, n: nat, seat: nat, slot: nat)
    requires seat < |t|
  {
    && slot < |t[seat].deck| && seat == slot / 2 && Ring(n, seat) != []
    && HostsCard(t, Previous(n, seat), HoleRelay(slot, Previous(n, seat)))
  }

  predicate CanStripBoard(t: Table, n: nat, seat: nat, idx: nat)
    requires seat < |t|
  {
    2 * n <= idx < |t[seat].deck| && (seat > 0 ==> HostsCard(t, seat - 1, CommunityRelay(idx, seat - 1)))
  }

  function BoardInput(t: Table, n: nat, seat: nat, idx: nat): bytes
    requires seat < |t| && CanStripBoard(t, n, seat, idx)
  {
    if seat == 0 then t[seat].deck[idx] else Hosts(t, seat - 1, CommunityRelay(idx, seat - 1)).data
  }

  predicate CanTakeBoard(t: Table, n: nat, seat: nat, idx: nat)
    requires seat < |t|
  {
    2 * n <= idx < |t[seat].deck| && seat + 1 < n && HostsCard(t, n - 1, CommunityCard(idx))
  }

  ghost predicate Enabled(d: Deal, t: Table, seat: nat, a: Action)
    requires d.Ok() && |t| == |d.keys| && seat < |t|
  {
    var n := |d.keys|;
    match a
    case Shuffle => CanShuffle(t, seat)
    case TakeDeck => seat < n - 1 && HostsDeck(t, n - 1, ShuffleStep(n - 1))
    case StripHole(slot) => CanStripHole(t, n, seat, slot)
    case TakeHole(slot) => CanTakeHole(t, n, seat, slot)
    case StripBoard(idx) => CanStripBoard(t, n, seat, idx)
    case TakeBoard(idx) => CanTakeBoard(t, n, seat, idx)
    case Publish => true
  }

  /** The acting peer afterwards; every poll returns what the polled peer hosts. */
  ghost function Acted(d: Deal, t: Table, seat: nat, a: Action): Peer
    requires d.Ok() && |t| == |d.keys| && seat < |t| && Enabled(d, t, seat, a)
  {
    var n, me, key := |d.keys|, t[seat], d.keys[seat];
    match a
    case Shuffle => ShuffleStepped(me, seat, n, ShuffleInput(t, seat), d.draws[seat], key, d.p)
    case TakeDeck => me.(deck := Hosts(t, n - 1, ShuffleStep(n - 1)).cards)
    case StripHole(slot) => HoleStripped(me, seat, slot, HoleInput(t, n, seat, slot), key, d.p)
    case TakeHole(slot) =>
      HoleTaken(me, slot, Hosts(t, Previous(n, seat), HoleRelay(slot, Previous(n, seat))).data, key, d.p)
    case StripBoard(idx) => BoardStripped(me, seat, n, idx, BoardInput(t, n, seat, idx), key, d.p)
    case TakeBoard(idx) => BoardTaken(me, n, idx, Hosts(t, n - 1, CommunityCard(idx)).data)
    case Publish => ClaimPublished(me, seat, key)
  }

  // ------------------------------------------------------------------------- the invariant

  /** The card string that the composed permutation puts at a slot. */
  ghost function Plain(d: Deal, slot: nat): string
    requires d.Ok() && slot < 52
  {
    OriginBound(d, |d.keys|, slot);
    Itoa(Origin(d, |d.keys|, slot) + 1)
  }

  /** A hole card once the ring has stripped it up to and including `seat`. */
  ghost function HoleValue(d: Deal, slot: nat, seat: nat): bytes
    requires d.Ok() && slot < 52 && seat < |d.keys|
  {
    StripAll(FinalDeck(d)[slot], d.keys, Ring(seat + 1, slot / 2), d.p)
  }

  ghost function BoardValue(d: Deal, idx: nat, seat: nat): bytes
    requires d.Ok() && idx < 52 && seat < |d.keys|
  {
    StripAll(FinalDeck(d)[idx], d.keys, Shuffling.Iota(seat + 1), d.p)
  }

  /** The right content of a file that `seat` hosts. */
  ghost predicate RightFile(d: Deal, seat: nat, name: Name, f: File)
    requires d.Ok() && seat < |d.keys|
  {
    match name
    case ShuffleStep(s) => s == seat && f == Deck(DeckAfter(d, seat + 1))
    case HoleRelay(slot, s) => s == seat && slot < 52 && seat != slot / 2 && f == Card(HoleValue(d, slot, seat))
    case CommunityRelay(idx, s) => s == seat && idx < 52 && f == Card(BoardValue(d, idx, seat))
    case CommunityCard(idx) => idx < 52 && f == Card(BoardValue(d, idx, |d.keys| - 1))
    case ShowdownClaim(s) =>
      && s == seat && f.Claim? && f.seat == seat && f.invExp == Minimal(d.keys[seat].inverse)
      && RightHole(d, 2 * seat, f.card1) && RightHole(d, 2 * seat + 1, f.card2)
    case _ => true
  }

  /** A recorded card: nothing yet, or the right one. */
  ghost predicate RightHole(d: Deal, slot: nat, card: string)
    requires d.Ok()
  {
    card == "" || (slot < 52 && card == Plain(d, slot))
  }

  ghost predicate RightFiles(d: Deal, seat: nat, files: map<Name, File>)
    requires d.Ok() && seat < |d.keys|
  {
    forall name: Name :: name in files ==> RightFile(d, seat, name, files[name])
  }

  ghost predicate RightBoard(d: Deal, board: seq<string>)
    requires d.Ok()
  {
    forall b :: 0 <= b < |board| ==> RightHole(d, 2 * |d.keys| + b, board[b])
  }

  ghost predicate RightPeer(d: Deal, seat: nat, me: Peer)
    requires d.Ok() && seat < |d.keys|
  {
    && (me.deck == [] || me.deck == FinalDeck(d))
    && RightFiles(d, seat, me.files)
    && RightHole(d, 2 * seat, me.card1) && RightHole(d, 2 * seat + 1, me.card2)
    && RightBoard(d, me.board)
  }

  ghost predicate Right(d: Deal, t: Table)
    requires d.Ok()
  {
    |t| == |d.keys| && forall seat :: 0 <= seat < |t| ==> RightPeer(d, seat, t[seat])
  }

  // --------------------------------------------------------------------------- its proof

  lemma HostKeeps(d: Deal, seat: nat, files: map<Name, File>, name: Name, f: File)
    requires d.Ok() && seat < |d.keys| && RightFiles(d, seat, files) && RightFile(d, seat, name, f)
    ensures RightFiles(d, seat, files[name := f])
  {
    hide RightFile;
  }

  lemma RightHosted(d: Deal, t: Table, seat: nat, name: Name)
    requires d.Ok() && Right(d, t) && Hosted(t, seat, name)
    ensures RightFile(d, seat, name, Hosts(t, seat, name))
  {
    hide RightFile;
    assert RightPeer(d, seat, t[seat]);
  }

  /** The ring up to a seat ends with the seat; without it, with the previous one. */
  lemma RingSteps(seat: nat, owner: nat)
    requires seat != owner
    ensures Ring(seat + 1, owner) == Ring(seat, owner) + [seat]
  {
  }

  lemma {:induction false} RingToPrevious(seat: nat, owner: nat)
    requires Ring(seat, owner) != []
    ensures Previous(seat, owner) < seat && Previous(seat, owner) != owner
    ensures Ring(Previous(seat, owner) + 1, owner) == Ring(seat, owner)
  {
    assert Previous(seat, owner) in Ring(seat, owner);
    if seat - 1 == owner { RingToPrevious(seat - 1, owner); }
  }

  lemma HoleNext(d: Deal, slot: nat, seat: nat)
    requires d.Ok() && slot < 52 && seat < |d.keys| && seat != slot / 2
    ensures Ring(seat, slot / 2) == [] ==>
              HoleValue(d, slot, seat) == Decrypt(FinalDeck(d)[slot], d.keys[seat], d.p)
    ensures Ring(seat, slot / 2) != [] ==>
              && Previous(seat, slot / 2) < seat
              && HoleValue(d, slot, seat) == Decrypt(HoleValue(d, slot, Previous(seat, slot / 2)), d.keys[seat], d.p)
  {
    var owner, before := slot / 2, Ring(seat, slot / 2);
    RingSteps(seat, owner);
    StripOne(FinalDeck(d)[slot], d.keys, before, seat, d.p);
    if before != [] { RingToPrevious(seat, owner); }
  }

  // ------------------------------------------------------------------------ step by step

  lemma ShuffleInputRight(d: Deal, t: Table, seat: nat)
    requires d.Ok() && Right(d, t) && seat < |t| && CanShuffle(t, seat)
    ensures ShuffleInput(t, seat) == DeckAfter(d, seat)
  {
    hide RightFiles;
    hide RightBoard;
    if seat > 0 { RightHosted(d, t, seat - 1, ShuffleStep(seat - 1)); }
  }

  /** The acting peer's files and deck after its turn in the shuffle. */
  lemma ShuffleResult(d: Deal, t: Table, seat: nat)
    requires d.Ok() && Right(d, t) && seat < |t| && CanShuffle(t, seat)
    ensures ShuffleStepped(t[seat], seat, |t|, ShuffleInput(t, seat), d.draws[seat], d.keys[seat], d.p)
         == t[seat].Host(ShuffleStep(seat), Deck(DeckAfter(d, seat + 1)))
              .(deck := if seat == |t| - 1 then DeckAfter(d, seat + 1) else t[seat].deck)
  {
    hide RightPeer;
    ShuffleInputRight(d, t, seat);
  }

  lemma ShuffleKeeps(d: Deal, t: Table, seat: nat)
    requires d.Ok() && Right(d, t) && seat < |t| && CanShuffle(t, seat)
    ensures RightPeer(d, seat, ShuffleStepped(t[seat], seat, |t|, ShuffleInput(t, seat), d.draws[seat], d.keys[seat], d.p))
  {
    assert RightPeer(d, seat, t[seat]);
    HostKeeps(d, seat, t[seat].files, ShuffleStep(seat), Deck(DeckAfter(d, seat + 1)));
    ShuffleResult(d, t, seat);
  }

  lemma TakeDeckKeeps(d: Deal, t: Table, seat: nat)
    requires d.Ok() && Right(d, t) && seat < |t| && HostsDeck(t, |t| - 1, ShuffleStep(|t| - 1))
    ensures RightPeer(d, seat, t[seat].(deck := Hosts(t, |t| - 1, ShuffleStep(|t| - 1)).cards))
  {
    hide RightFiles;
    assert RightPeer(d, seat, t[seat]);
    RightHosted(d, t, |t| - 1, ShuffleStep(|t| - 1));
  }

  lemma DeckRight(d: Deal, t: Table, seat: nat)
    requires d.Ok() && Right(d, t) && seat < |t|
    ensures t[seat].deck == [] || t[seat].deck == FinalDeck(d)
  {
    assert RightPeer(d, seat, t[seat]);
  }

  lemma HostedHole(d: Deal, t: Table, prev: nat, slot: nat)
    requires d.Ok() && Right(d, t) && slot < 52 && HostsCard(t, prev, HoleRelay(slot, prev))
    ensures Hosts(t, prev, HoleRelay(slot, prev)).data == HoleValue(d, slot, prev)
  {
    hide RightPeer;
    hide HoleValue;
    hide BoardValue;
    hide RightHole;
    RightHosted(d, t, prev, HoleRelay(slot, prev));
  }

  lemma HoleInputRight(d: Deal, t: Table, seat: nat, slot: nat)
    requires d.Ok() && Right(d, t) && seat < |t| && CanStripHole(t, |d.keys|, seat, slot)
    ensures slot < 52 && Decrypt(HoleInput(t, |d.keys|, seat, slot), d.keys[seat], d.p) == HoleValue(d, slot, seat)
  {
    hide RightPeer;
    hide Ring;
    hide HoleValue;
    DeckRight(d, t, seat);
    HoleNext(d, slot, seat);
    if Ring(seat, slot / 2) != [] { HostedHole(d, t, Previous(seat, slot / 2), slot); }
  }

  lemma HostingKeeps(d: Deal, seat: nat, me: Peer, name: Name, f: File)
    requires d.Ok() && seat < |d.keys| && RightPeer(d, seat, me) && RightFile(d, seat, name, f)
    ensures RightPeer(d, seat, me.Host(name, f))
  {
    hide RightFile;
    hide RightBoard;
    hide RightHole;
    HostKeeps(d, seat, me.files, name, f);
  }

  lemma StripHoleKeeps(d: Deal, t: Table, seat: nat, slot: nat)
    requires d.Ok() && Right(d, t) && seat < |t| && CanStripHole(t, |d.keys|, seat, slot)
    ensures RightPeer(d, seat, HoleStripped(t[seat], seat, slot, HoleInput(t, |d.keys|, seat, slot), d.keys[seat], d.p))
  {
    hide RightPeer;
    hide HoleValue;
    hide Ring;
    HoleInputRight(d, t, seat, slot);
    HostingKeeps(d, seat, t[seat], HoleRelay(slot, seat), Card(HoleValue(d, slot, seat)));
  }

  /** The last seat of the ring around `owner`. */
  function LastStripper(n: nat, owner: nat): nat
    requires n >= 2
  {
    if owner == n - 1 then n - 2 else n - 1
  }

  lemma LastOfRing(n: nat, owner: nat)
    requires owner < n && n >= 2
    ensures Ring(n, owner) != [] && Previous(n, owner) == LastStripper(n, owner)
  {
    RingEmpty(n, owner);
    if owner == n - 1 { assert Ring(n, owner) == Ring(n - 1, owner); }
  }

  lemma RingDone(d: Deal, slot: nat)
    requires d.Ok() && slot < 52 && slot / 2 < |d.keys|
    ensures Ring(|d.keys|, slot / 2) != [] && Previous(|d.keys|, slot / 2) < |d.keys|
    ensures HoleValue(d, slot, Previous(|d.keys|, slot / 2))
         == StripAll(FinalDeck(d)[slot], d.keys, Ring(|d.keys|, slot / 2), d.p)
  {
    RingEmpty(|d.keys|, slot / 2);
    RingToPrevious(|d.keys|, slot / 2);
  }

  lemma OwnerStrips(d: Deal, slot: nat, owner: nat)
    requires d.Ok() && slot < 52 && owner < |d.keys|
    ensures AsString(Decrypt(StripAll(FinalDeck(d)[slot], d.keys, Ring(|d.keys|, owner), d.p), d.keys[owner], d.p))
         == Plain(d, slot)
  {
    hide Ring;
    hide FinalDeck;
    hide Decrypt;
    RingThenOwner(|d.keys|, owner);
    StripOne(FinalDeck(d)[slot], d.keys, Ring(|d.keys|, owner), owner, d.p);
    FullyStripped(d, slot, Ring(|d.keys|, owner) + [owner]);
    WireCard(Origin(d, |d.keys|, slot));
  }

  /** The owner, last in turn, reads the plain card. */
  lemma OwnerReads(d: Deal, slot: nat)
    requires d.Ok() && slot < 52 && slot / 2 < |d.keys|
    ensures Ring(|d.keys|, slot / 2) != [] && Previous(|d.keys|, slot / 2) < |d.keys|
    ensures AsString(Decrypt(HoleValue(d, slot, Previous(|d.keys|, slot / 2)), d.keys[slot / 2], d.p)) == Plain(d, slot)
  {
    hide Ring;
    hide HoleValue;
    hide Plain;
    hide StripAll;
    RingDone(d, slot);
    OwnerStrips(d, slot, slot / 2);
  }

  lemma TakenHole(d: Deal, t: Table, seat: nat, slot: nat)
    requires d.Ok() && Right(d, t) && seat < |t| && CanTakeHole(t, |d.keys|, seat, slot)
    ensures var last := Previous(|d.keys|, seat);
            slot < 52 && AsString(Decrypt(Hosts(t, last, HoleRelay(slot, last)).data, d.keys[seat], d.p)) == Plain(d, slot)
  {
    hide RightPeer;
    hide Ring;
    hide HoleValue;
    hide Plain;
    DeckRight(d, t, seat);
    OwnerReads(d, slot);
    HostedHole(d, t, Previous(|d.keys|, seat), slot);
  }

  lemma SetHoleKeeps(d: Deal, seat: nat, me: Peer, slot: nat)
    requires d.Ok() && seat < |d.keys| && RightPeer(d, seat, me) && slot < 52 && seat == slot / 2
    ensures RightPeer(d, seat, me.SetHole(slot, Plain(d, slot)))
  {
    hide RightFiles;
    hide RightBoard;
    hide Plain;
    assert slot == 2 * seat || slot == 2 * seat + 1;
  }

  lemma TakeHoleKeeps(d: Deal, t: Table, seat: nat, slot: nat)
    requires d.Ok() && Right(d, t) && seat < |t| && CanTakeHole(t, |d.keys|, seat, slot)
    ensures var last := Previous(|d.keys|, seat);
            RightPeer(d, seat, HoleTaken(t[seat], slot, Hosts(t, last, HoleRelay(slot, last)).data, d.keys[seat], d.p))
  {
    hide RightPeer;
    hide Plain;
    TakenHole(d, t, seat, slot);
    SetHoleKeeps(d, seat, t[seat], slot);
  }

  lemma BoardNext(d: Deal, idx: nat, seat: nat)
    requires d.Ok() && idx < 52 && seat < |d.keys|
    ensures seat == 0 ==> BoardValue(d, idx, seat) == Decrypt(FinalDeck(d)[idx], d.keys[seat], d.p)
    ensures seat > 0 ==> BoardValue(d, idx, seat) == Decrypt(BoardValue(d, idx, seat - 1), d.keys[seat], d.p)
  {
    assert Shuffling.Iota(seat + 1) == Shuffling.Iota(seat) + [seat];
    StripOne(FinalDeck(d)[idx], d.keys, Shuffling.Iota(seat), seat, d.p);
    assert Shuffling.Iota(0) == [];
  }

  lemma LastSeatReads(d: Deal, idx: nat)
    requires d.Ok() && idx < 52
    ensures AsString(BoardValue(d, idx, |d.keys| - 1)) == Plain(d, idx)
  {
    InTurnIsEveryone(|d.keys|);
    FullyStripped(d, idx, Shuffling.Iota(|d.keys|));
    WireCard(Origin(d, |d.keys|, idx));
  }

  lemma BoardInputRight(d: Deal, t: Table, seat: nat, idx: nat)
    requires d.Ok() && Right(d, t) && seat < |t| && CanStripBoard(t, |d.keys|, seat, idx)
    ensures idx < 52 && Decrypt(BoardInput(t, |d.keys|, seat, idx), d.keys[seat], d.p) == BoardValue(d, idx, seat)
  {
    hide RightFiles;
    assert RightPeer(d, seat, t[seat]);
    BoardNext(d, idx, seat);
    if seat > 0 { RightHosted(d, t, seat - 1, CommunityRelay(idx, seat - 1)); }
  }

  lemma SetBoardKeeps(d: Deal, board: seq<string>, b: nat, card: string)
    requires d.Ok() && RightBoard(d, board) && RightHole(d, 2 * |d.keys| + b, card)
    ensures RightBoard(d, SetBoard(board, b, card))
  {
    hide RightHole;
    var padded := PaddedBoard(board, b);
    forall i | 0 <= i < |padded| ensures padded[i] == "" || RightHole(d, 2 * |d.keys| + i, padded[i]) {
      if i < |board| { assert padded[..|board|][i] == board[i]; }
    }
    EmptyIsRight(d, board, b);
  }

  lemma EmptyIsRight(d: Deal, board: seq<string>, b: nat)
    requires d.Ok()
    ensures forall i :: 0 <= i < |PaddedBoard(board, b)| && PaddedBoard(board, b)[i] == "" ==>
              RightHole(d, 2 * |d.keys| + i, PaddedBoard(board, b)[i])
  {
  }

  /** The acting peer after stripping a board card: right value in, right value out. */
  ghost function BoardHosted(d: Deal, me: Peer, seat: nat, idx: nat): Peer
    requires d.Ok() && seat < |d.keys| && 2 * |d.keys| <= idx < 52
  {
    var value := BoardValue(d, idx, seat);
    var hosted := me.Host(CommunityRelay(idx, seat), Card(value));
    if seat == |d.keys| - 1 then BoardTaken(hosted.Host(CommunityCard(idx), Card(value)), |d.keys|, idx, value) else hosted
  }

  lemma StripBoardResult(d: Deal, t: Table, seat: nat, idx: nat)
    requires d.Ok() && Right(d, t) && seat < |t| && CanStripBoard(t, |t|, seat, idx)
    ensures idx < 52
    ensures BoardStripped(t[seat], seat, |t|, idx, BoardInput(t, |t|, seat, idx), d.keys[seat], d.p)
         == BoardHosted(d, t[seat], seat, idx)
  {
    hide RightPeer;
    hide BoardValue;
    hide BoardInput;
    hide BoardTaken;
    BoardInputRight(d, t, seat, idx);
  }

  lemma BoardTakenRight(d: Deal, seat: nat, me: Peer, idx: nat)
    requires d.Ok() && seat < |d.keys| && 2 * |d.keys| <= idx < 52 && RightPeer(d, seat, me)
    ensures RightPeer(d, seat, BoardTaken(me, |d.keys|, idx, BoardValue(d, idx, |d.keys| - 1)))
  {
    hide RightFiles;
    hide RightBoard;
    hide BoardValue;
    hide SetBoard;
    hide Plain;
    LastSeatReads(d, idx);
    SetBoardKeeps(d, me.board, idx - 2 * |d.keys|, Plain(d, idx));
  }

  lemma StripBoardKeeps(d: Deal, t: Table, seat: nat, idx: nat)
    requires d.Ok() && Right(d, t) && seat < |t| && CanStripBoard(t, |t|, seat, idx)
    ensures RightPeer(d, seat, BoardStripped(t[seat], seat, |t|, idx, BoardInput(t, |t|, seat, idx), d.keys[seat], d.p))
  {
    hide RightPeer;
    hide BoardValue;
    hide BoardInput;
    hide BoardStripped;
    hide BoardTaken;
    StripBoardResult(d, t, seat, idx);
    var me, value := t[seat], BoardValue(d, idx, seat);
    HostingKeeps(d, seat, me, CommunityRelay(idx, seat), Card(value));
    if seat == |d.keys| - 1 {
      var hosted := me.Host(CommunityRelay(idx, seat), Card(value));
      HostingKeeps(d, seat, hosted, CommunityCard(idx), Card(value));
      BoardTakenRight(d, seat, hosted.Host(CommunityCard(idx), Card(value)), idx);
    }
  }

  lemma HostedBoard(d: Deal, t: Table, idx: nat)
    requires d.Ok() && Right(d, t) && idx < 52 && HostsCard(t, |t| - 1, CommunityCard(idx))
    ensures Hosts(t, |t| - 1, CommunityCard(idx)).data == BoardValue(d, idx, |t| - 1)
  {
    hide RightPeer;
    hide BoardValue;
    RightHosted(d, t, |t| - 1, CommunityCard(idx));
  }

  lemma TakeBoardKeeps(d: Deal, t: Table, seat: nat, idx: nat)
    requires d.Ok() && Right(d, t) && seat < |t| && CanTakeBoard(t, |t|, seat, idx)
    ensures RightPeer(d, seat, BoardTaken(t[seat], |t|, idx, Hosts(t, |t| - 1, CommunityCard(idx)).data))
  {
    hide RightPeer;
    hide BoardValue;
    hide BoardTaken;
    DeckRight(d, t, seat);
    HostedBoard(d, t, idx);
    BoardTakenRight(d, seat, t[seat], idx);
  }

  lemma PublishKeeps(d: Deal, t: Table, seat: nat)
    requires d.Ok() && Right(d, t) && seat < |t|
    ensures RightPeer(d, seat, ClaimPublished(t[seat], seat, d.keys[seat]))
  {
    hide RightFiles;
    hide RightBoard;
    assert RightPeer(d, seat, t[seat]);
    HostKeeps(d, seat, t[seat].files, ShowdownClaim(seat),
              Claim(seat, t[seat].card1, t[seat].card2, Minimal(d.keys[seat].inverse)));
  }

  lemma StepKeeps(d: Deal, t: Table, seat: nat, a: Action)
    requires d.Ok() && Right(d, t) && seat < |t| && Enabled(d, t, seat, a)
    ensures Right(d, t[seat := Acted(d, t, seat, a)])
  {
    hide RightPeer;
    match a {
      case Shuffle => ShuffleKeeps(d, t, seat);
      case TakeDeck => TakeDeckKeeps(d, t, seat);
      case StripHole(slot) => StripHoleKeeps(d, t, seat, slot);
      case TakeHole(slot) => TakeHoleKeeps(d, t, seat, slot);
      case StripBoard(idx) => StripBoardKeeps(d, t, seat, idx);
      case TakeBoard(idx) => TakeBoardKeeps(d, t, seat, idx);
      case Publish => PublishKeeps(d, t, seat);
    }
  }

  // ------------------------------------------------------------------------------ whole runs

  function Start(n: nat): Table { seq(n, _ => NOTHING) }

  /** `seat` takes step `a`. */
  ghost predicate Took(d: Deal, t: Table, seat: nat, a: Action, u: Table)
    requires d.Ok()
  {
    |t| == |d.keys| && seat < |t| && Enabled(d, t, seat, a) && u == t[seat := Acted(d, t, seat, a)]
  }

  ghost predicate Follows(d: Deal, t: Table, u: Table)
    requires d.Ok()
  {
    exists seat: nat, a: Action :: Took(d, t, seat, a, u)
  }

  /** A run: every table follows from the one before by one seat's step. */
  ghost predicate Run(d: Deal, run: seq<Table>)
    requires d.Ok()
  {
    && run != [] && run[0] == Start(|d.keys|)
    && forall i :: 0 < i < |run| ==> Follows(d, run[i - 1], run[i])
  }

  lemma FollowsKeeps(d: Deal, t: Table, u: Table)
    requires d.Ok() && Right(d, t) && Follows(d, t, u)
    ensures Right(d, u)
  {
    hide Right;
    var seat: nat, a: Action :| Took(d, t, seat, a, u);
    StepKeeps(d, t, seat, a);
  }

  /** All but the last table of a run are a run. */
  lemma RunFront(d: Deal, run: seq<Table>)
    requires d.Ok() && Run(d, run) && |run| > 1
    ensures Run(d, run[..|run| - 1]) && Follows(d, run[|run| - 2], run[|run| - 1])
  {
    hide Follows;
    var front := run[..|run| - 1];
    forall i | 0 < i < |front| ensures Follows(d, front[i - 1], front[i]) { assert Follows(d, run[i - 1], run[i]); }
    assert Follows(d, run[|run| - 1 - 1], run[|run| - 1]);
  }

  lemma StartIsRight(d: Deal)
    requires d.Ok()
    ensures Right(d, Start(|d.keys|))
  {
  }

  /** Whatever the interleaving, every deck, relay, card, board and claim at a table is right. */
  lemma {:induction false} RunIsRight(d: Deal, run: seq<Table>)
    requires d.Ok() && Run(d, run)
    ensures Right(d, run[|run| - 1])
    decreases |run|
  {
    hide Right;
    hide Follows;
    if |run| == 1 {
      StartIsRight(d);
    } else {
      RunFront(d, run);
      RunIsRight(d, run[..|run| - 1]);
      FollowsKeeps(d, run[|run| - 2], run[|run| - 1]);
    }
  }
}

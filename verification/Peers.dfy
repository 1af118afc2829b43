/** One peer's part in shuffle, deal and reveal (internal/peer/shuffle.go, deal.go, community.go). */
module Peers {
  import opened Bytes
  import opened Text
  import opened Sra
  import opened Keys
  import Shuffling
  import MentalPoker

  /** What a peer hosts: a gob-encoded deck, a card under its remaining layers, or a claim. */
  datatype File =
    | Deck(cards: seq<bytes>)
    | Card(data: bytes)
    | Claim(seat: nat, card1: string, card2: string, invExp: bytes)

  datatype Peer = Peer(files: map<Name, File>, deck: seq<bytes>, card1: string, card2: string, board: seq<string>)
  {
    function Host(name: Name, file: File): Peer { this.(files := files[name := file]) }

    /** `setHole` */
    function SetHole(slot: nat, card: string): Peer {
      if slot % 2 == 0 then this.(card1 := card) else this.(card2 := card)
    }
  }

  const NOTHING: Peer := Peer(map[], [], "", "", [])

  /** `community` with empty places up to and including `b`. */
  function PaddedBoard(board: seq<string>, b: nat): (r: seq<string>)
    ensures |r| >= |board| && b < |r| && r[..|board|] == board
    ensures forall i :: |board| <= i < |r| ==> r[i] == ""
    ensures |r| == if b < |board| then |board| else b + 1
  {
    if b < |board| then board else board + seq(b + 1 - |board|, _ => "")
  }

  /** `setCommunity`: a place that is taken stays as it is. */
  function SetBoard(board: seq<string>, b: nat, card: string): seq<string> {
    var padded := PaddedBoard(board, b);
    if padded[b] != "" then padded else padded[b := card]
  }

  // ------------------------------------------------------------------- what one call changes

  function ShuffleStepped(me: Peer, seat: nat, n: nat, prev: seq<bytes>, draws: seq<nat>, key: Key, p: nat): Peer
    requires p > 0 && Shuffling.Draws(|prev|, draws)
  {
    var d := Encrypted(Shuffling.Shuffled(prev, draws), key, p);
    var hosted := me.Host(ShuffleStep(seat), Deck(d));
    if seat == n - 1 then hosted.(deck := d) else hosted
  }

  function HoleStripped(me: Peer, seat: nat, slot: nat, layered: bytes, key: Key, p: nat): Peer
    requires p > 0
  {
    me.Host(HoleRelay(slot, seat), Card(Decrypt(layered, key, p)))
  }

  function HoleTaken(me: Peer, slot: nat, layered: bytes, key: Key, p: nat): Peer
    requires p > 0
  {
    me.SetHole(slot, AsString(Decrypt(layered, key, p)))
  }

  function BoardTaken(me: Peer, n: nat, idx: nat, plain: bytes): Peer
    requires 2 * n <= idx
  {
    me.(board := SetBoard(me.board, idx - 2 * n, AsString(plain)))
  }

  function BoardStripped(me: Peer, seat: nat, n: nat, idx: nat, layered: bytes, key: Key, p: nat): Peer
    requires p > 0 && 2 * n <= idx
  {
    var stripped := Decrypt(layered, key, p);
    var hosted := me.Host(CommunityRelay(idx, seat), Card(stripped));
    if seat == n - 1 then BoardTaken(hosted.Host(CommunityCard(idx), Card(stripped)), n, idx, stripped) else hosted
  }

  function ClaimPublished(me: Peer, seat: nat, key: Key): Peer {
    me.Host(ShowdownClaim(seat), Claim(seat, me.card1, me.card2, Minimal(key.inverse)))
  }

  // --------------------------------------------------------------------------- the node

  datatype Step = Done | Failed

  /** A poll: what the other peer hosts, or nothing before the context is cancelled. */
  datatype Poll = Answer(file: File) | NoAnswer

  /** Whether a seat's part in a hole slot starts with a poll: it owns the slot, or another seat of the
      ring comes before it. */
  predicate Polls(seat: nat, slot: nat) { seat == slot / 2 || MentalPoker.Ring(seat, slot / 2) != [] }

  class Node {
    const seat: nat
    const n: nat
    const key: Key
    const p: nat
    var files: map<Name, File>
    var deck: seq<bytes>
    var card1: string
    var card2: string
    var board: seq<string>

    ghost predicate Valid() { seat < n && p > 0 }

    function State(): Peer
      reads this
    {
      Peer(files, deck, card1, card2, board)
    }

    constructor (seat: nat, n: nat, key: Key, p: nat)
      requires seat < n && p > 0
      ensures Valid() && this.seat == seat && this.n == n && this.key == key && this.p == p
      ensures State() == NOTHING
    {
      this.seat, this.n, this.key, this.p := seat, n, key, p;
      files, deck, card1, card2, board := map[], [], "", "", [];
    }

    method Put(name: Name, file: File)
      modifies this
      ensures State() == old(State()).Host(name, file)
    {
      files := files[name := file];
    }

    /** The first half of `RunShuffle`: what the previous seat hosts, shuffled and encrypted. */
    method ShuffleTurn(prev: Poll, draws: seq<nat>) returns (r: Step)
      requires Valid()
      requires seat > 0 && prev.Answer? && prev.file.Deck? ==> Shuffling.Draws(|prev.file.cards|, draws)
      requires seat == 0 ==> Shuffling.Draws(52, draws)
      modifies this
      ensures r.Done? <==> n >= 2 && (seat == 0 || (prev.Answer? && prev.file.Deck?))
      ensures r.Done? ==> State() == ShuffleStepped(old(State()), seat, n,
                if seat == 0 then MentalPoker.WireDeck() else prev.file.cards, draws, key, p)
      ensures r.Failed? ==> State() == old(State())
    {
      if n < 2 {
        return Failed;
      }
      var cards;
      if seat == 0 {
        cards := MentalPoker.BuildOrderedDeck();
      } else {
        if !(prev.Answer? && prev.file.Deck?) {
          return Failed;
        }
        cards := prev.file.cards;
      }
      var work := new bytes[|cards|](i requires 0 <= i < |cards| => cards[i]);
      assert work[..] == cards;
      Shuffling.Shuffle(work, draws);
      var d := EncryptDeck(work[..], key, p);
      Put(ShuffleStep(seat), Deck(d));
      if seat == n - 1 {
        deck := d;
      }
      return Done;
    }

    /** The second half of `RunShuffle`, on every seat but the last. */
    method TakeDeck(final: Poll) returns (r: Step)
      modifies this
      ensures r.Done? <==> final.Answer? && final.file.Deck?
      ensures State() == if r.Done? then old(State()).(deck := final.file.cards) else old(State())
    {
      if !(final.Answer? && final.file.Deck?) {
        return Failed;
      }
      deck := final.file.cards;
      return Done;
    }

    /** `dealHoleSlot`. `relay` is the answer to its one poll, if it makes one. */
    method DealHoleSlot(slot: int, relay: Poll) returns (r: Step)
      requires Valid()
      modifies this
      ensures r.Done? <==> 0 <= slot < |old(deck)| && slot / 2 < n && n >= 2
                           && (Polls(seat, slot) ==> relay.Answer? && relay.file.Card?)
      ensures r.Done? && seat == slot / 2 ==>
                State() == HoleTaken(old(State()), slot, relay.file.data, key, p)
      ensures r.Done? && seat != slot / 2 ==>
                State() == HoleStripped(old(State()), seat, slot,
                  if Polls(seat, slot) then relay.file.data else old(deck)[slot], key, p)
      ensures r.Failed? ==> State() == old(State())
    {
      if slot < 0 || slot >= |deck| {
        return Failed;
      }
      var owner := slot / 2;
      if owner >= n {
        return Failed;
      }
      var ring := MentalPoker.NonOwnerRing(n, owner);
      RingEmpty(n, owner);
      if |ring| == 0 {
        return Failed;
      }
      if seat == owner {
        if !(relay.Answer? && relay.file.Card?) {
          return Failed;
        }
        SetHole(slot, AsString(Decrypt(relay.file.data, key, p)));
        return Done;
      }
      var at := MentalPoker.RingPosition(ring, seat);
      FirstInRing(n, owner, seat);
      if at < 0 {
        return Failed;
      }
      var layered;
      if at == 0 {
        layered := deck[slot];
      } else {
        if !(relay.Answer? && relay.file.Card?) {
          return Failed;
        }
        layered := relay.file.data;
      }
      Put(HoleRelay(slot, seat), Card(Decrypt(layered, key, p)));
      return Done;
    }

    method SetHole(slot: nat, card: string)
      modifies this
      ensures State() == old(State()).SetHole(slot, card)
    {
      if slot % 2 == 0 {
        card1 := card;
      } else {
        card2 := card;
      }
    }

    method SetCommunity(idx: nat, card: string)
      requires 2 * n <= idx
      modifies this
      ensures State() == old(State()).(board := SetBoard(old(board), idx - 2 * n, card))
      ensures |board| == if idx - 2 * n < |old(board)| then |old(board)| else idx - 2 * n + 1
      ensures forall i :: 0 <= i < |board| ==>
                board[i] == if i < |old(board)| && (old(board)[i] != "" || i != idx - 2 * n) then old(board)[i]
                            else if i == idx - 2 * n then card else ""
    {
      var b := idx - 2 * n;
      while |board| <= b
        invariant files == old(files) && deck == old(deck) && card1 == old(card1) && card2 == old(card2)
        invariant |old(board)| <= |board| && board[..|old(board)|] == old(board)
        invariant |board| <= b + 1 || board == old(board)
        invariant forall i :: |old(board)| <= i < |board| ==> board[i] == ""
        decreases b + 1 - |board|
      {
        board := board + [""];
      }
      assert board == PaddedBoard(old(board), b);
      if board[b] != "" {
        return;
      }
      board := board[b := card];
    }

    /** `RevealCommunityCard` up to the poll for the plaintext. */
    method StripCommunity(idx: nat, relay: Poll) returns (r: Step)
      requires Valid() && 2 * n <= idx
      modifies this
      ensures r.Done? <==> idx < |old(deck)| && (seat == 0 || (relay.Answer? && relay.file.Card?))
      ensures r.Done? ==> State() == BoardStripped(old(State()), seat, n, idx,
                if seat == 0 then old(deck)[idx] else relay.file.data, key, p)
      ensures r.Failed? ==> State() == old(State())
    {
      if idx >= |deck| {
        return Failed;
      }
      var layered;
      if seat == 0 {
        layered := deck[idx];
      } else {
        if !(relay.Answer? && relay.file.Card?) {
          return Failed;
        }
        layered := relay.file.data;
      }
      var stripped := Decrypt(layered, key, p);
      Put(CommunityRelay(idx, seat), Card(stripped));
      if seat == n - 1 {
        Put(CommunityCard(idx), Card(stripped));
        SetCommunity(idx, AsString(stripped));
      }
      return Done;
    }

    /** The rest of `RevealCommunityCard`, on every seat but the last. */
    method TakeCommunity(idx: nat, plain: Poll) returns (r: Step)
      requires 2 * n <= idx
      modifies this
      ensures r.Done? <==> plain.Answer? && plain.file.Card?
      ensures State() == if r.Done? then BoardTaken(old(State()), n, idx, plain.file.data) else old(State())
    {
      if !(plain.Answer? && plain.file.Card?) {
        return Failed;
      }
      SetCommunity(idx, AsString(plain.file.data));
      return Done;
    }

    method PublishShowdownClaim()
      modifies this
      ensures State() == ClaimPublished(old(State()), seat, key)
    {
      Put(ShowdownClaim(seat), Claim(seat, card1, card2, Minimal(key.inverse)));
    }
  }

  lemma RingEmpty(n: nat, owner: nat)
    requires owner < n
    ensures MentalPoker.Ring(n, owner) == [] <==> n < 2
  {
    if n >= 2 { assert (if owner == 0 then 1 else 0) in MentalPoker.Ring(n, owner); }
  }

  /** A seat comes first in the ring exactly when no other non-owner seat is below it. */
  lemma FirstInRing(n: nat, owner: nat, seat: nat)
    requires owner < n && seat < n && seat != owner
    ensures seat in MentalPoker.Ring(n, owner)
    ensures MentalPoker.Ring(n, owner)[0] == seat <==> MentalPoker.Ring(seat, owner) == []
  {
    var ring, before := MentalPoker.Ring(n, owner), MentalPoker.Ring(seat, owner);
    assert seat in ring;
    if before != [] {
      assert before[0] in before;
      assert before[0] in ring;
    }
    if ring[0] != seat {
      var i :| 0 <= i < |ring| && ring[i] == seat;
      assert ring[0] in ring;
      assert ring[0] in before;
    }
  }
}

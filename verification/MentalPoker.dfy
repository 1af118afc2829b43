/** Shuffle, deal and reveal (internal/peer/shuffle.go, deal.go, community.go, showdown.go): what every
    card decrypts to. */
module MentalPoker {
  import opened Bytes
  import opened Arith
  import opened NumberTheory
  import opened Text
  import opened Sequences
  import opened Sra
  import Shuffling

  // --------------------------------------------------------------------- the plain deck

  /** The cards "1" to "52". */
  function WireDeck(): (d: seq<bytes>)
    ensures |d| == 52 && forall i :: 0 <= i < 52 ==> d[i] == AsBytes(Itoa(i + 1))
  {
    seq(52, i requires 0 <= i < 52 => AsBytes(Itoa(i + 1)))
  }

  method BuildOrderedDeck() returns (d: seq<bytes>)
    ensures d == WireDeck()
  {
    d := [];
    for i := 0 to 52
      invariant |d| == i && forall j :: 0 <= j < i ==> d[j] == AsBytes(Itoa(j + 1))
    {
      d := d + [AsBytes(Itoa(i + 1))];
    }
  }

  /** The largest plaintext, "52", is 13618: every card is below the prime 13619, and no card has a
      leading zero byte. */
  lemma WireCard(i: nat)
    requires i < 52
    ensures var b := WireDeck()[i];
            && b != [] && b[0] != 0 && Value(b) <= 13618 && AsString(b) == Itoa(i + 1)
            && (i == 51 ==> Value(b) == 13618)
  {
    var n := i + 1;
    StringOfBytes(Itoa(n));
    var b := AsBytes(Itoa(n));
    if n < 10 {
      assert Itoa(n) == [Digit(n)];
      assert b == [48 + n];
      assert b[..0] == [];
    } else {
      assert Itoa(n) == [Digit(n / 10), Digit(n % 10)];
      assert b == [48 + n / 10, 48 + n % 10];
      assert b[..1] == [48 + n / 10] && b[..1][..0] == [];
      assert Value(b[..1]) == 48 + n / 10;
    }
  }

  // ------------------------------------------------------------------------ the shuffle

  /** Keys and draws of all seats, and the prime. */
  datatype Deal = Deal(keys: seq<Key>, draws: seq<seq<nat>>, p: nat)
  {
    ghost predicate Ok() {
      && 2 <= |keys| == |draws| && Prime(p) && p > 13618 && Keys(keys, p)
      && forall i :: 0 <= i < |draws| ==> Shuffling.Draws(52, draws[i])
    }
  }

  /** The deck that seat `k - 1` hosts: every seat in turn shuffles and encrypts. */
  ghost function DeckAfter(d: Deal, k: nat): (r: seq<bytes>)
    requires d.Ok() && k <= |d.keys|
    ensures |r| == 52
  {
    if k == 0 then WireDeck()
    else Encrypted(Shuffling.Shuffled(DeckAfter(d, k - 1), d.draws[k - 1]), d.keys[k - 1], d.p)
  }

  ghost function FinalDeck(d: Deal): (r: seq<bytes>)
    requires d.Ok()
    ensures |r| == 52
  {
    DeckAfter(d, |d.keys|)
  }

  /** The composed permutation: which card lies at position `i` after `k` seats. */
  ghost function Origin(d: Deal, k: nat, i: nat): nat
    requires d.Ok() && k <= |d.keys| && i < 52
  {
    if k == 0 then i
    else
      Shuffling.ShuffledAt(WireDeck(), d.draws[k - 1]);
      Origin(d, k - 1, Shuffling.Source(52, d.draws[k - 1])[i])
  }

  lemma {:induction false} OriginBound(d: Deal, k: nat, i: nat)
    requires d.Ok() && k <= |d.keys| && i < 52
    ensures Origin(d, k, i) < 52
  {
    if k > 0 {
      Shuffling.ShuffledAt(WireDeck(), d.draws[k - 1]);
      OriginBound(d, k - 1, Shuffling.Source(52, d.draws[k - 1])[i]);
    }
  }

  /** Different positions hold different cards. */
  lemma {:induction false} OriginInjective(d: Deal, k: nat, i: nat, j: nat)
    requires d.Ok() && k <= |d.keys| && i < 52 && j < 52 && i != j
    ensures Origin(d, k, i) != Origin(d, k, j)
  {
    if k > 0 {
      var s := Shuffling.Source(52, d.draws[k - 1]);
      Shuffling.ShuffledAt(WireDeck(), d.draws[k - 1]);
      Shuffling.SourceDistinct(52, d.draws[k - 1]);
      OriginInjective(d, k - 1, s[i], s[j]);
    }
  }

  /** The seats 0 to k - 1. */
  ghost function Below(k: nat): (b: set<nat>)
    ensures forall i :: i in b <==> 0 <= i < k
  {
    if k == 0 then {} else Below(k - 1) + {k - 1}
  }

  /** The card at position `i` after `k` seats, under the layers of those seats. */
  ghost predicate LayeredAt(d: Deal, k: nat, i: nat)
    requires d.Ok() && k <= |d.keys| && i < 52
  {
    && Origin(d, k, i) < 52
    && DeckAfter(d, k)[i] == Minimal(Layered(d.keys, Below(k), Value(WireDeck()[Origin(d, k, i)]), d.p))
  }

  lemma PlainLayers(d: Deal, i: nat)
    requires d.Ok() && i < 52
    ensures LayeredAt(d, 0, i)
  {
    var b := WireDeck()[i];
    WireCard(i);
    assert Below(0) == {};
    NoLayers(d.keys, Value(b), d.p);
    DivModUnique(Value(b), d.p, 0, Value(b));
    MinimalOfValue(b);
  }

  /** One seat's turn: the card at `i` comes from position `j` and gets that seat's encryption. */
  lemma OneTurn(d: Deal, k: nat, i: nat) returns (j: nat)
    requires d.Ok() && 0 < k <= |d.keys| && i < 52
    ensures j < 52 && Origin(d, k, i) == Origin(d, k - 1, j)
    ensures DeckAfter(d, k)[i] == Encrypt(DeckAfter(d, k - 1)[j], d.keys[k - 1], d.p)
  {
    hide Encrypt;
    j := Shuffling.Source(52, d.draws[k - 1])[i];
    Shuffling.ShuffledAt(WireDeck(), d.draws[k - 1]);
    Shuffling.ShuffledAt(DeckAfter(d, k - 1), d.draws[k - 1]);
  }

  lemma OneMoreLayer(d: Deal, k: nat, card: bytes, m: nat)
    requires d.Ok() && 0 < k <= |d.keys| && card == Minimal(Layered(d.keys, Below(k - 1), m, d.p))
    ensures Encrypt(card, d.keys[k - 1], d.p) == Minimal(Layered(d.keys, Below(k), m, d.p))
  {
    EncryptAddsLayer(d.keys, Below(k - 1), k - 1, m, d.p);
  }

  lemma NextLayered(d: Deal, k: nat, i: nat, j: nat)
    requires d.Ok() && 0 < k <= |d.keys| && i < 52 && j < 52 && Origin(d, k, i) == Origin(d, k - 1, j)
    requires DeckAfter(d, k)[i] == Encrypt(DeckAfter(d, k - 1)[j], d.keys[k - 1], d.p) && LayeredAt(d, k - 1, j)
    ensures LayeredAt(d, k, i)
  {
    hide DeckAfter;
    hide Origin;
    hide Encrypt;
    hide Below;
    OneMoreLayer(d, k, DeckAfter(d, k - 1)[j], Value(WireDeck()[Origin(d, k - 1, j)]));
  }

  /** Position `i` holds the card the permutation put there, under the layers of all seats so far. */
  lemma {:induction false} DeckLayers(d: Deal, k: nat, i: nat)
    requires d.Ok() && k <= |d.keys| && i < 52
    ensures LayeredAt(d, k, i)
  {
    hide LayeredAt;
    hide DeckAfter;
    hide Origin;
    hide Encrypt;
    if k == 0 {
      PlainLayers(d, i);
    } else {
      var j := OneTurn(d, k, i);
      DeckLayers(d, k - 1, j);
      NextLayered(d, k, i, j);
    }
  }

  /** Whoever strips first, once every seat has stripped its layer the card is exactly the one the
      composed permutation put at that position. */
  lemma FullyStripped(d: Deal, slot: nat, order: seq<nat>)
    requires d.Ok() && slot < 52 && Distinct(order) && Members(order) == Below(|d.keys|)
    requires forall i :: 0 <= i < |order| ==> order[i] < |d.keys|
    ensures Origin(d, |d.keys|, slot) < 52
    ensures StripAll(FinalDeck(d)[slot], d.keys, order, d.p) == WireDeck()[Origin(d, |d.keys|, slot)]
  {
    DeckLayers(d, |d.keys|, slot);
    var card := WireDeck()[Origin(d, |d.keys|, slot)];
    WireCard(Origin(d, |d.keys|, slot));
    AllLayersOff(d.keys, Below(|d.keys|), order, card, d.p);
  }

  // -------------------------------------------------------------------------- hole cards

  /** All seats but the owner, ascending. */
  function Ring(n: nat, owner: nat): (r: seq<nat>)
    ensures forall x :: x in r <==> 0 <= x < n && x != owner
    ensures forall i, j :: 0 <= i < j < |r| ==> r[i] < r[j]
    ensures forall i :: 0 <= i < |r| ==> r[i] < n
  {
    if n == 0 then []
    else if n - 1 == owner then Ring(n - 1, owner) else Ring(n - 1, owner) + [n - 1]
  }

  method NonOwnerRing(n: nat, owner: nat) returns (out: seq<nat>)
    ensures out == Ring(n, owner)
  {
    out := [];
    for i := 0 to n
      invariant out == Ring(i, owner)
    {
      if i != owner { out := out + [i]; }
    }
  }

  method RingPosition(ring: seq<nat>, seat: nat) returns (k: int)
    ensures k == -1 <==> seat !in ring
    ensures k != -1 ==> 0 <= k < |ring| && ring[k] == seat && seat !in ring[..k]
  {
    for i := 0 to |ring|
      invariant seat !in ring[..i]
    {
      if ring[i] == seat { return i; }
    }
    return -1;
  }

  lemma RingThenOwner(n: nat, owner: nat)
    requires owner < n
    ensures var order := Ring(n, owner) + [owner];
            Distinct(order) && Members(order) == Below(n) && forall i :: 0 <= i < |order| ==> order[i] < n
    ensures n >= 2 ==> Ring(n, owner) != []
  {
    var ring := Ring(n, owner);
    assert n >= 2 ==> (if owner == 0 then 1 else 0) in ring;
    AppendOwner(ring, n, owner);
  }

  lemma AppendOwner(ring: seq<nat>, n: nat, owner: nat)
    requires owner < n && forall x :: x in ring <==> 0 <= x < n && x != owner
    requires forall i, j :: 0 <= i < j < |ring| ==> ring[i] < ring[j]
    ensures Distinct(ring + [owner]) && Members(ring + [owner]) == Below(n)
    ensures forall i :: 0 <= i < |ring + [owner]| ==> (ring + [owner])[i] < n
  {
    var order := ring + [owner];
    forall i | 0 <= i < |ring| ensures ring[i] != owner && ring[i] < n { assert ring[i] in ring; }
    forall x ensures x in Members(order) <==> x in Below(n) { assert x in order <==> x in ring || x == owner; }
  }

  lemma StripOne(card: bytes, keys: seq<Key>, order: seq<nat>, seat: nat, p: nat)
    requires p > 0 && seat < |keys| && forall i :: 0 <= i < |order| ==> order[i] < |keys|
    ensures StripAll(card, keys, order + [seat], p) == Decrypt(StripAll(card, keys, order, p), keys[seat], p)
  {
    assert (order + [seat])[..|order|] == order;
  }

  // ----------------------------------------------------------------------- community cards

  /** Seat 0 to the last seat in turn is everybody once. */
  lemma InTurnIsEveryone(n: nat)
    ensures Distinct(Shuffling.Iota(n)) && Members(Shuffling.Iota(n)) == Below(n)
  {
    forall x | x in Below(n) ensures x in Members(Shuffling.Iota(n)) { assert Shuffling.Iota(n)[x] == x; }
  }

  // ------------------------------------------------------------------------- showdown

  /** `verifyClaimCard`, given the last relay it fetched. */
  predicate VerifyClaimCard(data: bytes, claimed: string, invExp: nat, p: nat)
    requires p > 0
  {
    AsString(Minimal(Pow(Value(data), invExp) % p)) == claimed
  }
}

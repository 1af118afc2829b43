/** Commutative encryption of the deck (internal/crypto/deck/deck.go). */
module Sra {
  import opened Bytes
  import opened Arith
  import opened NumberTheory
  import opened Sequences

  /** The prime of internal/peer/node.go. */
  const PRIME: nat := 13619

  lemma NotAProduct(d: nat, q: nat)
    requires 2 <= d < 117
    ensures d * q != PRIME
  {
  }

  lemma PrimeIsPrime()
    ensures Prime(PRIME)
  {
    forall d | 2 <= d < PRIME ensures !Divides(d, PRIME) {
      var q := PRIME / d;
      assert PRIME == d * q + PRIME % d;
      if d < 117 {
        NotAProduct(d, q);
      } else {
        MulMono(117, d, q);
        if q >= 2 { NotAProduct(q, d); }
        assert q == 1 ==> d * q == d;
      }
    }
  }

  datatype Key = Key(exponent: nat, inverse: nat)

  /** What `GenerateKey` returns: exponents inverse to each other modulo p - 1. */
  ghost predicate KeyOk(key: Key, p: nat) {
    p > 2 && (key.exponent * key.inverse) % (p - 1) == 1
  }

  ghost predicate Keys(keys: seq<Key>, p: nat) {
    forall i :: 0 <= i < |keys| ==> KeyOk(keys[i], p)
  }

  function Encrypt(card: bytes, key: Key, p: nat): bytes
    requires p > 0
  {
    Minimal(Pow(Value(card), key.exponent) % p)
  }

  /** `DecryptCard` */
  function Decrypt(card: bytes, key: Key, p: nat): bytes
    requires p > 0
  {
    Minimal(Pow(Value(card), key.inverse) % p)
  }

  function Encrypted(deck: seq<bytes>, key: Key, p: nat): (r: seq<bytes>)
    requires p > 0
    ensures |r| == |deck| && forall i :: 0 <= i < |deck| ==> r[i] == Encrypt(deck[i], key, p)
  {
    seq(|deck|, i requires 0 <= i < |deck| => Encrypt(deck[i], key, p))
  }

  method EncryptDeck(deck: seq<bytes>, key: Key, p: nat) returns (r: seq<bytes>)
    requires p > 0
    ensures r == Encrypted(deck, key, p)
  {
    r := [];
    for i := 0 to |deck|
      invariant |r| == i && forall j :: 0 <= j < i ==> r[j] == Encrypt(deck[j], key, p)
    {
      r := r + [Encrypt(deck[i], key, p)];
    }
  }

  // --------------------------------------------------------------------------- layers

  /** The product of the exponents of the seats in `on`. */
  function Product(keys: seq<Key>, on: set<nat>): nat {
    if keys == [] then 1
    else
      var k := |keys| - 1;
      Product(keys[..k], on) * (if k in on then keys[k].exponent else 1)
  }

  lemma {:induction false} ProductIgnores(keys: seq<Key>, on: set<nat>, seat: nat)
    requires seat >= |keys|
    ensures Product(keys, on - {seat}) == Product(keys, on)
  {
    if keys != [] { ProductIgnores(keys[..|keys| - 1], on, seat); }
  }

  lemma {:induction false} ProductSplit(keys: seq<Key>, on: set<nat>, seat: nat)
    requires seat < |keys| && seat in on
    ensures Product(keys, on) == Product(keys, on - {seat}) * keys[seat].exponent
  {
    var k := |keys| - 1;
    if seat < k {
      ProductSplit(keys[..k], on, seat);
      var a, b, c := Product(keys[..k], on - {seat}), keys[seat].exponent, if k in on then keys[k].exponent else 1;
      MulSwap(a, b, c);
    } else {
      ProductIgnores(keys[..k], on, seat);
    }
  }

  lemma {:induction false} ProductEmpty(keys: seq<Key>)
    ensures Product(keys, {}) == 1
  {
    if keys != [] { ProductEmpty(keys[..|keys| - 1]); }
  }

  /** The number `m` under the layers of the seats in `on`. */
  function Layered(keys: seq<Key>, on: set<nat>, m: nat, p: nat): nat
    requires p > 0
  {
    Pow(m, Product(keys, on)) % p
  }

  lemma NoLayers(keys: seq<Key>, m: nat, p: nat)
    requires p > 0
    ensures Layered(keys, {}, m, p) == m % p
  {
    ProductEmpty(keys);
    assert Pow(m, 1) == m * Pow(m, 0);
  }

  lemma AddLayer(keys: seq<Key>, on: set<nat>, seat: nat, m: nat, p: nat)
    requires p > 0 && seat < |keys| && seat !in on
    ensures Pow(Layered(keys, on, m, p), keys[seat].exponent) % p == Layered(keys, on + {seat}, m, p)
  {
    var q, k := Product(keys, on), keys[seat].exponent;
    PowMod(p, Pow(m, q), k);
    PowMul(m, q, k);
    ProductSplit(keys, on + {seat}, seat);
    assert on + {seat} - {seat} == on;
  }

  lemma EncryptAddsLayer(keys: seq<Key>, on: set<nat>, seat: nat, m: nat, p: nat)
    requires p > 0 && seat < |keys| && seat !in on
    ensures Encrypt(Minimal(Layered(keys, on, m, p)), keys[seat], p) == Minimal(Layered(keys, on + {seat}, m, p))
  {
    ValueOfMinimal(Layered(keys, on, m, p));
    AddLayer(keys, on, seat, m, p);
  }

  /** Raising to a key's exponent and then to its inverse changes nothing modulo the prime. */
  lemma KeyCancels(key: Key, x: nat, p: nat)
    requires Prime(p) && KeyOk(key, p)
    ensures Pow(x, key.exponent * key.inverse) % p == x % p
  {
    var e := key.exponent * key.inverse;
    var t := e / (p - 1);
    assert e == (p - 1) * t + 1;
    assert (p - 1) * t == t * (p - 1);
    MulNonNeg(key.exponent, key.inverse);
    FermatPower(p, x, t);
  }

  /** Any one layer can be taken off, whatever other layers there are. */
  lemma StripLayer(keys: seq<Key>, on: set<nat>, seat: nat, m: nat, p: nat)
    requires Prime(p) && seat < |keys| && seat in on && KeyOk(keys[seat], p)
    ensures Pow(Layered(keys, on, m, p), keys[seat].inverse) % p == Layered(keys, on - {seat}, m, p)
  {
    var q, k, i := Product(keys, on - {seat}), keys[seat].exponent, keys[seat].inverse;
    ProductSplit(keys, on, seat);
    PowMod(p, Pow(m, q * k), i);
    PowMul(m, q, k);
    PowMul(Pow(m, q), k, i);
    KeyCancels(keys[seat], Pow(m, q), p);
  }

  // ------------------------------------------------------------------- stripping a card

  /** The seats of `order` strip their layers one after the other. */
  function StripAll(card: bytes, keys: seq<Key>, order: seq<nat>, p: nat): bytes
    requires p > 0 && forall i :: 0 <= i < |order| ==> order[i] < |keys|
  {
    if order == [] then card
    else Decrypt(StripAll(card, keys, order[..|order| - 1], p), keys[order[|order| - 1]], p)
  }

  ghost function Members(order: seq<nat>): set<nat> {
    set x | x in order
  }

  /** Layers come off in any order: what is left is the card under the other seats' layers. */
  lemma {:induction false} StripAllLayers(keys: seq<Key>, on: set<nat>, order: seq<nat>, m: nat, p: nat)
    requires Prime(p) && Keys(keys, p) && Distinct(order)
    requires forall i :: 0 <= i < |order| ==> order[i] < |keys| && order[i] in on
    ensures StripAll(Minimal(Layered(keys, on, m, p)), keys, order, p)
         == Minimal(Layered(keys, on - Members(order), m, p))
  {
    if order == [] {
      assert on - Members(order) == on;
    } else {
      var front, last := order[..|order| - 1], order[|order| - 1];
      StripAllLayers(keys, on, front, m, p);
      assert order == front + [last];
      assert on - Members(front) - {last} == on - Members(order);
      assert last !in Members(front);
      StripLayer(keys, on - Members(front), last, m, p);
      ValueOfMinimal(Layered(keys, on - Members(front), m, p));
    }
  }

  /** Every seat encrypts, every seat strips, in any order: the card comes back byte for byte exactly
      when its bytes have no leading zero and its number is below the prime. */
  lemma AllLayersOff(keys: seq<Key>, on: set<nat>, order: seq<nat>, card: bytes, p: nat)
    requires Prime(p) && Keys(keys, p) && Distinct(order) && Members(order) == on
    requires forall i :: 0 <= i < |order| ==> order[i] < |keys|
    ensures StripAll(Minimal(Layered(keys, on, Value(card), p)), keys, order, p) == card <==>
            (card == [] || card[0] != 0) && Value(card) < p
  {
    var m := Value(card);
    StripAllLayers(keys, on, order, m, p);
    assert on - Members(order) == {};
    NoLayers(keys, m, p);
    MinimalOfValue(card);
    ValueOfMinimal(m % p);
    if m < p { DivModUnique(m, p, 0, m); }
  }
}

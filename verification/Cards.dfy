/** Cards and their wire format (internal/card/card.go). */
module Cards {
  import opened Arith
  import opened Text

  datatype Card = Card(suit: nat, rank: nat)
  {
    predicate Valid() { suit < 4 && rank < 13 }

    function Int(): nat { suit * 13 + rank }

    /** The 1-based decimal string on the wire. */
    function DeckString(): string { Itoa(Int() + 1) }
  }

  datatype Decoded = Bad | Decoded(card: Card)

  function FromInt(i: int): Decoded {
    if i < 0 || i >= 52 then Bad else Decoded(Card(i / 13, i % 13))
  }

  function FromNumber(v: Number): Decoded {
    if v.Number? then FromInt(v.value - 1) else Bad
  }

  function ParseDeckString(s: string): Decoded {
    FromNumber(Atoi(s))
  }

  /** Deck indices from 0 to 51 and valid cards correspond one to one; every other index is refused. */
  lemma IndexOfCard(c: Card, i: int)
    ensures FromInt(i) == Decoded(c) <==> c.Valid() && c.Int() == i
    ensures FromInt(i).Decoded? <==> 0 <= i < 52
  {
    if c.Valid() { DivModUnique(c.Int(), 13, c.suit, c.rank); }
  }

  lemma CardOfIndex(i: int)
    ensures FromInt(i).Decoded? <==> 0 <= i < 52
    ensures FromInt(i).Decoded? ==> FromInt(i).card.Valid() && FromInt(i).card.Int() == i
  {
  }

  lemma NumberExact(v: Number)
    ensures FromNumber(v).Decoded? <==> v.Number? && 1 <= v.value <= 52
    ensures FromNumber(v).Decoded? ==> FromNumber(v).card.Valid() && FromNumber(v).card.Int() + 1 == v.value
  {
    if v.Number? { CardOfIndex(v.value - 1); }
  }

  /** Exactly the strings that read as a number from 1 to 52 parse, and what they parse to is the
      valid card with that index. */
  lemma ParseExact(s: string)
    ensures ParseDeckString(s).Decoded? <==> Atoi(s).Number? && 1 <= Atoi(s).value <= 52
    ensures ParseDeckString(s).Decoded? ==>
              ParseDeckString(s).card.Valid() && ParseDeckString(s).card.Int() + 1 == Atoi(s).value
  {
    NumberExact(Atoi(s));
  }

  /** The wire string of deck index `i` parses to the card with that index. */
  lemma ParseIndex(i: nat)
    requires i < 52
    ensures ParseDeckString(Itoa(i + 1)) == FromInt(i)
  {
    AtoiOfItoa(i + 1);
  }

  lemma WireRoundTrip(c: Card)
    requires c.Valid()
    ensures ParseDeckString(c.DeckString()) == Decoded(c)
  {
    IndexOfCard(c, c.Int());
    ParseIndex(c.Int());
  }

  /** The wire is suit after suit, thirteen ranks each, counted from one. */
  lemma WireLayout(suit: nat, rank: nat)
    requires suit < 4 && rank < 13
    ensures ParseDeckString(Itoa(13 * suit + rank + 1)) == Decoded(Card(suit, rank))
  {
    ParseIndex(13 * suit + rank);
    DivModUnique(13 * suit + rank, 13, suit, rank);
  }

  /** The strings at the ends of the first and the last suit. */
  lemma WireCorners()
    ensures ParseDeckString("1") == Decoded(Card(0, 0)) && ParseDeckString("13") == Decoded(Card(0, 12))
    ensures ParseDeckString("40") == Decoded(Card(3, 0)) && ParseDeckString("52") == Decoded(Card(3, 12))
    ensures ParseDeckString("0") == Bad && ParseDeckString("53") == Bad && ParseDeckString("") == Bad
  {
    assert Itoa(1) == "1" && Itoa(13) == "13" && Itoa(40) == "40" && Itoa(52) == "52";
    assert Itoa(0) == "0" && Itoa(53) == "53";
    WireLayout(0, 0);
    WireLayout(0, 12);
    WireLayout(3, 0);
    WireLayout(3, 12);
    AtoiOfItoa(0);
    AtoiOfItoa(53);
  }
}

/** Decimal text (Go's `strconv` and `fmt` with `%d`) and its bytes. */
module Text {
  import opened Bytes

  predicate IsDigit(c: char) { '0' <= c <= '9' }

  function Digit(d: nat): (c: char)
    requires d < 10
    ensures IsDigit(c) && c as int == 48 + d
  {
    (48 + d) as char
  }

  predicate AllDigits(s: string) {
    forall i :: 0 <= i < |s| ==> IsDigit(s[i])
  }

  function Itoa(n: nat): (s: string)
    ensures s != [] && AllDigits(s)
  {
    if n < 10 then [Digit(n)] else Itoa(n / 10) + [Digit(n % 10)]
  }

  function DigitsValue(s: string): nat
    requires AllDigits(s)
  {
    if s == [] then 0 else 10 * DigitsValue(s[..|s| - 1]) + (s[|s| - 1] as int - 48)
  }

  lemma {:induction false} DigitsOfItoa(n: nat)
    ensures DigitsValue(Itoa(n)) == n
  {
    var s := Itoa(n);
    if n >= 10 {
      DigitsOfItoa(n / 10);
      assert s[..|s| - 1] == Itoa(n / 10);
    } else {
      assert s[..|s| - 1] == [];
    }
  }

  lemma ItoaInjective(m: nat, n: nat)
    requires Itoa(m) == Itoa(n)
    ensures m == n
  {
    DigitsOfItoa(m);
    DigitsOfItoa(n);
  }

  // --------------------------------------------------------------------------- Atoi

  datatype Number = NotANumber | Number(value: int)

  const MAX_INT: nat := 0x7fff_ffff_ffff_ffff

  /** `strconv.Atoi`: an optional sign and at least one digit, within 64-bit range. */
  function Atoi(s: string): Number {
    if s == [] then NotANumber
    else
      var negative, signed := s[0] == '-', s[0] == '-' || s[0] == '+';
      var digits := if signed then s[1..] else s;
      if digits == [] || !AllDigits(digits) then NotANumber
      else
        var v: int := DigitsValue(digits);
        if negative then if v <= MAX_INT + 1 then Number(-v) else NotANumber
        else if v <= MAX_INT then Number(v) else NotANumber
  }

  lemma AtoiOfItoa(n: nat)
    requires n <= MAX_INT
    ensures Atoi(Itoa(n)) == Number(n)
  {
    assert IsDigit(Itoa(n)[0]);
    DigitsOfItoa(n);
  }

  /** A sign may come before the digits. */
  lemma AtoiSigned(n: nat)
    requires n <= MAX_INT
    ensures Atoi("+" + Itoa(n)) == Number(n) && Atoi("-" + Itoa(n)) == Number(-(n as int))
  {
    assert ("+" + Itoa(n))[1..] == Itoa(n) && ("-" + Itoa(n))[1..] == Itoa(n);
    DigitsOfItoa(n);
  }

  // -------------------------------------------------------------------------- bytes

  function AsBytes(s: string): (b: bytes)
    ensures |b| == |s|
  {
    seq(|s|, i requires 0 <= i < |s| => (s[i] as int) % 256)
  }

  function AsString(b: bytes): (s: string)
    ensures |s| == |b|
  {
    seq(|b|, i requires 0 <= i < |b| => b[i] as char)
  }

  lemma StringOfBytes(s: string)
    requires AllDigits(s)
    ensures AsString(AsBytes(s)) == s
  {
    forall i | 0 <= i < |s| ensures AsString(AsBytes(s))[i] == s[i] { assert IsDigit(s[i]); }
  }
}

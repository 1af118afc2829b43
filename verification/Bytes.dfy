/** Bytes, fixed-width big-endian integers (Go's `encoding/binary`) and minimal
    big-endian integers (Go's `big.Int.Bytes` and `SetBytes`). */
module Bytes {
  import opened Arith

  type byte = x: int | 0 <= x < 256
  type bytes = seq<byte>

  const TWO64: nat := 0x1_0000_0000_0000_0000
  type uint64 = x: int | 0 <= x < TWO64

  function Pow256(w: nat): (p: nat)
    ensures p > 0
  {
    if w == 0 then 1 else 256 * Pow256(w - 1)
  }

  /** The `w` low-order bytes of `v`, most significant first: a value that does not
      fit is truncated, as Go's integer conversions do. */
  function BigEndian(w: nat, v: nat): (b: bytes)
    ensures |b| == w
  {
    if w == 0 then [] else BigEndian(w - 1, v / 256) + [v % 256]
  }

  /** The big-endian value of a byte string. */
  function Value(b: bytes): nat {
    if b == [] then 0 else 256 * Value(b[..|b| - 1]) + b[|b| - 1]
  }

  /** The shortest big-endian form; zero is the empty string. */
  function Minimal(v: nat): (b: bytes)
    ensures v == 0 <==> b == []
  {
    if v == 0 then [] else Minimal(v / 256) + [v % 256]
  }

  /** Cutting off high-order bytes is taking the remainder. */
  lemma {:induction false} ValueOfTruncated(w: nat, v: nat)
    ensures Value(BigEndian(w, v)) == v % Pow256(w)
  {
    if w > 0 {
      ValueOfTruncated(w - 1, v / 256);
      assert BigEndian(w, v)[..w - 1] == BigEndian(w - 1, v / 256);
      ModByDigit(v, 256, Pow256(w - 1));
    }
  }

  lemma {:induction false} ValueOfBigEndian(w: nat, v: nat)
    requires v < Pow256(w)
    ensures Value(BigEndian(w, v)) == v
  {
    if w > 0 {
      ValueOfBigEndian(w - 1, v / 256);
      assert BigEndian(w, v)[..w - 1] == BigEndian(w - 1, v / 256);
    }
  }

  lemma BigEndianInjective(w: nat, u: nat, v: nat)
    requires u < Pow256(w) && v < Pow256(w) && BigEndian(w, u) == BigEndian(w, v)
    ensures u == v
  {
    ValueOfBigEndian(w, u);
    ValueOfBigEndian(w, v);
  }

  lemma {:induction false} ValueOfMinimal(v: nat)
    ensures Value(Minimal(v)) == v
  {
    if v > 0 {
      ValueOfMinimal(v / 256);
      assert Minimal(v)[..|Minimal(v)| - 1] == Minimal(v / 256);
    }
  }

  /** Reading a byte string as a number and writing it back returns the same string
      exactly when it has no leading zero byte. */
  lemma {:induction false} MinimalOfValue(b: bytes)
    ensures Minimal(Value(b)) == b <==> b == [] || b[0] != 0
  {
    if b == [] {
    } else {
      var front, last := b[..|b| - 1], b[|b| - 1];
      MinimalOfValue(front);
      assert Value(b) / 256 == Value(front) && Value(b) % 256 == last;
      assert b == front + [last];
      if Value(b) != 0 {
        assert Minimal(Value(b)) == Minimal(Value(front)) + [last];
        assert Minimal(Value(b))[..|Minimal(Value(b))| - 1] == Minimal(Value(front));
        assert Minimal(Value(b)) == b <==> Minimal(Value(front)) == front;
        if front != [] { assert front[0] == b[0]; }
      } else {
        assert last == 0 && Value(front) == 0;
        if front != [] { assert front[0] == b[0]; assert Minimal(0) == []; }
      }
    }
  }
}

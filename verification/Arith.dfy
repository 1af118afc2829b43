/** Division with remainder by a variable divisor. */
module Arith {
  lemma MulNonNeg(a: int, b: int)
    requires a >= 0 && b >= 0
    ensures a * b >= 0
  {
  }

  lemma MulMono(a: nat, b: nat, c: nat)
    requires a <= b
    ensures a * c <= b * c
  {
    MulNonNeg(b - a, c);
    assert b * c == (a + (b - a)) * c == a * c + (b - a) * c;
  }

  lemma MulSwap(a: int, b: int, c: int)
    ensures a * b * c == a * c * b
  {
  }

  lemma MulLess(n: int, a: int, b: int)
    requires n > 0 && a < b
    ensures n * a + n <= n * b
  {
    var d := b - a - 1;
    MulNonNeg(n, d);
    assert n * b == n * (a + 1 + d) == n * a + n + n * d;
  }

  /** Quotient and remainder are unique. */
  lemma DivModUnique(x: int, n: int, q: int, r: int)
    requires n > 0 && x == n * q + r && 0 <= r < n
    ensures x / n == q && x % n == r
  {
    var p, m := x / n, x % n;
    assert x == n * p + m && 0 <= m < n;
    if p < q { MulLess(n, p, q); }
    if q < p { MulLess(n, q, p); }
  }

  lemma MulAssoc(a: int, b: int, c: int)
    ensures a * (b * c) == a * b * c
  {
  }

  lemma MulSpread(a: int, b: int, c: int)
    ensures a * (b + c) == a * b + a * c
  {
  }

  /** A quotient and remainder by `p` of all but the last digit give those by `b * p`. */
  lemma DivModDigit(v: int, b: int, p: int, q: int, r: int, d: int)
    requires b > 0 && b * p > 0 && v == b * (p * q + r) + d && 0 <= r < p && 0 <= d < b
    ensures v % (b * p) == b * r + d
  {
    MulSpread(b, p * q, r);
    MulAssoc(b, p, q);
    MulLess(b, r, p);
    MulNonNeg(b, r);
    DivModUnique(v, b * p, q, b * r + d);
  }

  /** The remainder by a product, last digit split off. */
  lemma ModByDigit(v: nat, b: nat, p: nat)
    requires b > 0 && p > 0 && b * p > 0
    ensures b * (v / b % p) + v % b == v % (b * p)
  {
    var u := v / b;
    assert u == p * (u / p) + u % p;
    DivModDigit(v, b, p, u / p, u % p, v % b);
  }

  /** Wrapping around once. */
  lemma ModOnce(x: nat, n: nat)
    requires n > 0 && x < 2 * n
    ensures x % n == if x < n then x else x - n
  {
    if x < n { DivModUnique(x, n, 0, x); } else { DivModUnique(x, n, 1, x - n); }
  }

  /** Fewer than `n` steps never lead back to the same remainder. */
  lemma ModDiffers(n: nat, x: nat, y: nat)
    requires x < y < x + n
    ensures x % n != y % n
  {
    var q, a, d := x / n, x % n, y - x;
    assert x == n * q + a;
    if a + d < n {
      DivModUnique(y, n, q, a + d);
    } else {
      assert n * (q + 1) == n * q + n;
      DivModUnique(y, n, q + 1, a + d - n);
    }
  }
}

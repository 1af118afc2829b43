/** Powers modulo a prime: Euclid's lemma and Fermat's little theorem. */
module NumberTheory {
  import opened Arith

  // ------------------------------------------------------------------------ remainders

  lemma ModPlusMultiple(p: int, k: int, x: int)
    requires p > 0
    ensures (p * k + x) % p == x % p
  {
    assert p * k + x == p * (k + x / p) + x % p;
    DivModUnique(p * k + x, p, k + x / p, x % p);
  }

  lemma ModMul(p: int, a: int, b: int)
    requires p > 0
    ensures (a % p * b) % p == (a * b) % p
  {
    var q, r := a / p, a % p;
    assert a * b == (p * q + r) * b == p * (q * b) + r * b;
    ModPlusMultiple(p, q * b, r * b);
  }

  lemma ModAdd(p: int, a: int, b: int)
    requires p > 0
    ensures (a % p + b) % p == (a + b) % p
  {
    assert a + b == p * (a / p) + (a % p + b);
    ModPlusMultiple(p, a / p, a % p + b);
  }

  lemma ZeroTimes(p: int, a: int, b: int)
    requires p > 0 && a % p == 0
    ensures (a * b) % p == 0
  {
    ModMul(p, a, b);
    DivModUnique(0, p, 0, 0);
  }

  // ---------------------------------------------------------------------------- primes

  predicate Divides(d: nat, n: nat)
    requires d > 0
  {
    n % d == 0
  }

  ghost predicate Prime(p: nat) {
    p >= 2 && forall d :: 2 <= d < p ==> !Divides(d, p)
  }

  /** The least positive multiplier of `b` that `p` divides divides every other one. */
  lemma LeastDivides(p: nat, b: nat, m: nat, s: nat)
    requires p > 0 && m > 0 && (m * b) % p == 0 && (s * b) % p == 0
    requires forall k :: 1 <= k < m ==> (k * b) % p != 0
    ensures s % m == 0
  {
    var q, r := s / m, s % m;
    assert s * b == (m * q + r) * b == (m * b) * q + r * b;
    ZeroTimes(p, m * b, q);
    AddZero(p, r * b, (m * b) * q);
  }

  /** Euclid: a prime that divides a product divides one of its factors. */
  lemma Euclid(p: nat, a: nat, b: nat)
    requires Prime(p) && (a * b) % p == 0 && a % p != 0
    ensures b % p == 0
  {
    ModMul(p, a, b);
    var s := a % p;
    var m: nat := 1;
    while (m * b) % p != 0
      invariant 1 <= m <= s && forall k :: 1 <= k < m ==> (k * b) % p != 0
      decreases s - m
    {
      m := m + 1;
    }
    ModPlusMultiple(p, b, 0);
    assert p * b + 0 == p * b;
    LeastDivides(p, b, m, p);
    assert Divides(m, p);
    assert m == 1;
  }

  // ---------------------------------------------------------------------------- powers

  function Pow(b: nat, e: nat): nat {
    if e == 0 then 1 else b * Pow(b, e - 1)
  }

  lemma {:induction false} PowAdd(b: nat, x: nat, y: nat)
    ensures Pow(b, x + y) == Pow(b, x) * Pow(b, y)
  {
    if x > 0 {
      PowAdd(b, x - 1, y);
      assert Pow(b, x + y) == b * Pow(b, x - 1 + y);
      assert b * (Pow(b, x - 1) * Pow(b, y)) == (b * Pow(b, x - 1)) * Pow(b, y);
    }
  }

  lemma {:induction false} PowMul(b: nat, x: nat, y: nat)
    ensures Pow(Pow(b, x), y) == Pow(b, x * y)
  {
    if y > 0 {
      PowMul(b, x, y - 1);
      PowAdd(b, x, x * (y - 1));
      assert x * y == x + x * (y - 1);
    } else {
      assert x * y == 0;
    }
  }

  lemma {:induction false} PowMod(p: nat, b: nat, e: nat)
    requires p > 0
    ensures Pow(b % p, e) % p == Pow(b, e) % p
  {
    if e > 0 {
      PowMod(p, b, e - 1);
      var x, y := Pow(b % p, e - 1), Pow(b, e - 1);
      ModMul(p, b, x);
      ModMul(p, x, b);
      ModMul(p, y, b);
      assert b * x == x * b && b * y == y * b;
    }
  }

  // -------------------------------------------------------------- binomial coefficients

  function Choose(n: nat, k: nat): nat {
    if k == 0 then 1 else if n == 0 then 0 else Choose(n - 1, k - 1) + Choose(n - 1, k)
  }

  lemma {:induction false} ChooseBeyond(n: nat, k: nat)
    requires k > n
    ensures Choose(n, k) == 0
  {
    if n > 0 {
      ChooseBeyond(n - 1, k - 1);
      ChooseBeyond(n - 1, k);
    }
  }

  lemma AbsorbStep(n: int, k: int, a: int, b: int, u: int, v: int)
    requires u == a + b && (k - 1) * u == (n - 1) * a && k * v == (n - 1) * b
    ensures k * (u + v) == n * u
  {
    calc {
      k * (u + v);
      (k - 1) * u + u + k * v;
      (n - 1) * a + (n - 1) * b + u;
      (n - 1) * (a + b) + u;
      n * u;
    }
  }

  lemma {:induction false} Absorb(n: nat, k: nat)
    requires n >= 1 && k >= 1
    ensures k * Choose(n, k) == n * Choose(n - 1, k - 1)
  {
    if n == 1 {
      if k > 1 {
        ChooseBeyond(1, k);
        ChooseBeyond(0, k - 1);
      }
    } else {
      Absorb(n - 1, k);
      if k == 1 {
        AbsorbStep(n, 1, 0, 1, 1, Choose(n - 1, 1));
      } else {
        Absorb(n - 1, k - 1);
        AbsorbStep(n, k, Choose(n - 2, k - 2), Choose(n - 2, k - 1), Choose(n - 1, k - 1), Choose(n - 1, k));
      }
    }
  }

  /** A prime divides its inner binomial coefficients. */
  lemma PrimeDividesChoose(p: nat, k: nat)
    requires Prime(p) && 1 <= k < p
    ensures Choose(p, k) % p == 0
  {
    Absorb(p, k);
    ModPlusMultiple(p, Choose(p - 1, k - 1), 0);
    assert p * Choose(p - 1, k - 1) + 0 == k * Choose(p, k);
    DivModUnique(k, p, 0, k);
    Euclid(p, k, Choose(p, k));
  }

  /** The first `m` terms of the expansion of (x + 1)^n. */
  function Expansion(n: nat, x: nat, m: nat): nat {
    if m == 0 then 0 else Expansion(n, x, m - 1) + Choose(n, m - 1) * Pow(x, m - 1)
  }

  lemma PascalStep(x: int, u: int, v: int, q: int, e: int)
    ensures (u + v) * (x * q) + x * e == v * (x * q) + x * (e + u * q)
  {
    assert (u + v) * (x * q) == u * (x * q) + v * (x * q);
    assert u * (x * q) == x * (u * q);
    assert x * (e + u * q) == x * e + x * (u * q);
  }

  lemma {:induction false} ExpansionPascal(n: nat, x: nat, m: nat)
    ensures Expansion(n + 1, x, m + 1) == Expansion(n, x, m + 1) + x * Expansion(n, x, m)
  {
    if m == 0 {
      assert Expansion(n + 1, x, 1) == 1 * Pow(x, 0) && Expansion(n, x, 1) == 1 * Pow(x, 0);
    } else {
      ExpansionPascal(n, x, m - 1);
      PascalStep(x, Choose(n, m - 1), Choose(n, m), Pow(x, m - 1), Expansion(n, x, m - 1));
    }
  }

  lemma {:induction false} Binomial(n: nat, x: nat)
    ensures Pow(x + 1, n) == Expansion(n, x, n + 1)
  {
    if n == 0 {
      assert Expansion(0, x, 1) == Choose(0, 0) * Pow(x, 0);
    } else {
      Binomial(n - 1, x);
      ExpansionPascal(n - 1, x, n);
      ChooseBeyond(n - 1, n);
      var s := Expansion(n - 1, x, n);
      assert Expansion(n - 1, x, n + 1) == s + 0 * Pow(x, n);
      assert (x + 1) * s == s + x * s;
    }
  }

  lemma AddZero(p: int, s: int, t: int)
    requires p > 0 && t % p == 0
    ensures (s + t) % p == s % p
  {
    assert s + t == p * (t / p) + s;
    ModPlusMultiple(p, t / p, s);
  }

  lemma {:induction false} InnerTermsVanish(p: nat, x: nat, m: nat)
    requires Prime(p) && 1 <= m <= p
    ensures Expansion(p, x, m) % p == 1
  {
    if m == 1 {
      assert Expansion(p, x, 1) == 1 * Pow(x, 0);
      DivModUnique(1, p, 0, 1);
    } else {
      InnerTermsVanish(p, x, m - 1);
      PrimeDividesChoose(p, m - 1);
      ZeroTimes(p, Choose(p, m - 1), Pow(x, m - 1));
      AddZero(p, Expansion(p, x, m - 1), Choose(p, m - 1) * Pow(x, m - 1));
    }
  }

  /** Fermat's little theorem. */
  lemma {:induction false} Fermat(p: nat, x: nat)
    requires Prime(p)
    ensures Pow(x, p) % p == x % p
  {
    if x == 0 {
      assert Pow(0, p) == 0 * Pow(0, p - 1);
    } else {
      Fermat(p, x - 1);
      Binomial(p, x - 1);
      InnerTermsVanish(p, x - 1, p);
      var s, t := Expansion(p, x - 1, p), Pow(x - 1, p);
      ChooseSelf(p);
      assert Pow(x, p) == s + 1 * t;
      ModAdd(p, s, t);
      ModAdd(p, t, 1);
      ModAdd(p, x - 1, 1);
    }
  }

  lemma {:induction false} ChooseSelf(n: nat)
    ensures Choose(n, n) == 1
  {
    if n > 0 { ChooseSelf(n - 1); ChooseBeyond(n - 1, n); }
  }

  /** Raising to any exponent that is one more than a multiple of p - 1 changes nothing modulo p. */
  lemma {:induction false} FermatPower(p: nat, x: nat, t: nat)
    requires Prime(p)
    ensures Pow(x, 1 + t * (p - 1)) % p == x % p
  {
    if t == 0 {
      assert 1 + t * (p - 1) == 1;
      assert Pow(x, 1) == x * Pow(x, 0);
    } else {
      FermatPower(p, x, t - 1);
      var e := 1 + (t - 1) * (p - 1);
      assert 1 + t * (p - 1) == e + (p - 1);
      PowAdd(x, e, p - 1);
      var u, v := Pow(x, e), Pow(x, p - 1);
      ModMul(p, u, v);
      ModMul(p, x, v);
      assert x * v == Pow(x, p);
      Fermat(p, x);
    }
  }
}

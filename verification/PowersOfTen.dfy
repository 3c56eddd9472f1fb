/** Powers of ten and the decimal fractions `c / 10^s` they denominate. */
module PowersOfTen {

  function Pow10(n: nat): (p: nat)
    ensures p >= 1
  {
    if n == 0 then 1 else 10 * Pow10(n - 1)
  }

  /** The real quotient, as a term of its own. */
  ghost function Quotient(x: real, p: real): (z: real)
    requires p > 0.0
  {
    x / p
  }

  /** The real number `coefficient / 10^scale`. */
  ghost function Fraction(coefficient: int, scale: nat): (x: real) {
    Quotient(coefficient as real, Pow10(scale) as real)
  }

  /** The real number `coefficient * 10^exponent`, for an exponent of either sign. */
  ghost function Scaled(coefficient: int, exponent: int): (x: real) {
    if exponent >= 0 then (coefficient * Pow10(exponent)) as real
    else Fraction(coefficient, -exponent)
  }

  lemma {:induction false} Pow10Sum(m: nat, n: nat)
    ensures Pow10(m + n) == Pow10(m) * Pow10(n)
  {
    if m == 0 {
    } else {
      Pow10Sum(m - 1, n);
      calc {
        Pow10(m + n);
        10 * Pow10(m - 1 + n);
        10 * (Pow10(m - 1) * Pow10(n));
        (10 * Pow10(m - 1)) * Pow10(n);
        Pow10(m) * Pow10(n);
      }
    }
  }

  lemma Pow10Step(n: nat)
    ensures Pow10(n + 1) == 10 * Pow10(n)
  {
  }

  lemma Pow10Monotone(m: nat, n: nat)
    requires m <= n
    ensures Pow10(m) <= Pow10(n)
  {
    Pow10Sum(m, n - m);
    assert Pow10(m) * 1 <= Pow10(m) * Pow10(n - m);
  }

  /** A quotient is the number that gives the dividend back. */
  lemma QuotientUnique(x: real, p: real, z: real)
    requires p > 0.0
    ensures x / p == z <==> x == z * p
  {
  }

  lemma QuotientProduct(x: real, p: real, y: real, q: real)
    requires p > 0.0 && q > 0.0
    ensures p * q > 0.0
    ensures Quotient(x, p) * Quotient(y, q) == Quotient(x * y, p * q)
  {
    var u, v := x / p, y / q;
    assert x == u * p && y == v * q;
    assert x * y == (u * v) * (p * q) by {
      MultiplyPairs(u, p, v, q);
    }
    QuotientUnique(x * y, p * q, u * v);
  }

  lemma MultiplyPairs(u: real, p: real, v: real, q: real)
    ensures (u * p) * (v * q) == (u * v) * (p * q)
  {
    calc {
      (u * p) * (v * q);
      u * (p * (v * q));
      u * (v * (p * q));
      (u * v) * (p * q);
    }
  }

  /** A product of two fractions is the fraction of the products. */
  lemma FractionProduct(a: int, s: nat, b: int, t: nat)
    ensures Fraction(a, s) * Fraction(b, t) == Fraction(a * b, s + t)
  {
    hide Pow10, Quotient, Fraction;
    var x, y, p, q := a as real, b as real, Pow10(s) as real, Pow10(t) as real;
    FractionIs(a, s, x, p);
    FractionIs(b, t, y, q);
    QuotientProduct(x, p, y, q);
    RealProduct(a, b);
    Pow10Sum(s, t);
    RealProduct(Pow10(s), Pow10(t));
    FractionIs(a * b, s + t, x * y, p * q);
  }

  lemma FractionIs(c: int, s: nat, x: real, p: real)
    requires p > 0.0 && x == c as real && p == Pow10(s) as real
    ensures Fraction(c, s) == Quotient(x, p)
  {
  }

  lemma RealProduct(a: int, b: int)
    ensures (a * b) as real == a as real * b as real
  {
  }

  lemma FractionOfOne(k: nat)
    ensures Fraction(Pow10(k), k) == 1.0
  {
    QuotientUnique(Pow10(k) as real, Pow10(k) as real, 1.0);
  }

  /** Multiplying coefficient and denominator by a power of ten changes nothing. */
  lemma FractionExpand(c: int, s: nat, k: nat)
    ensures Fraction(c * Pow10(k), s + k) == Fraction(c, s)
  {
    hide Pow10;
    FractionProduct(c, s, Pow10(k), k);
    FractionOfOne(k);
  }

  /** Equal fractions have equal cross products. */
  lemma FractionEqual(a: int, s: nat, b: int, t: nat)
    ensures Fraction(a, s) == Fraction(b, t) <==> a * Pow10(t) == b * Pow10(s)
  {
    hide Pow10, Fraction;
    FractionExpand(a, s, t);
    FractionExpand(b, t, s);
    SameDenominator(a * Pow10(t), b * Pow10(s), s + t);
  }

  lemma SameDenominator(a: int, b: int, s: nat)
    ensures Fraction(a, s) == Fraction(b, s) <==> a == b
    ensures Fraction(a, s) + Fraction(b, s) == Fraction(a + b, s)
    ensures Fraction(-a, s) == -Fraction(a, s)
    ensures Fraction(a, s) <= Fraction(b, s) <==> a <= b
  {
    hide Pow10;
    var p, x, y := Pow10(s) as real, a as real, b as real;
    assert x / p * p == x;
    assert y / p * p == y;
    assert (x + y) / p == x / p + y / p;
    assert (-x) / p == -(x / p);
    if x / p <= y / p {
      assert x / p * p <= y / p * p;
    } else {
      assert x / p * p >= y / p * p;
    }
  }

  lemma FractionStep(c: int, s: nat)
    ensures Fraction(10 * c, s + 1) == Fraction(c, s)
  {
    assert Pow10(1) == 10;
    FractionExpand(c, s, 1);
  }
}

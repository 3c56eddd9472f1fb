/**
 The fixed-width decimal of the `rust_decimal` library, by its documented behaviour: a signed
 mantissa of at most 96 bits over a power of ten of at most 28.
 */
module Decimals {
  import opened Wrappers
  import opened PowersOfTen

  const MAX_SCALE: nat := 28

  /** 2^96: every mantissa is strictly below it in magnitude. */
  const MANTISSA_BOUND: int := 0x1_0000_0000_0000_0000_0000_0000

  /** 2^127: the magnitude at which `i128` arithmetic overflows. */
  const I128_BOUND: int := 0x8000_0000_0000_0000_0000_0000_0000_0000

  datatype RawDecimal = RawDecimal(mantissa: int, scale: nat)

  type Decimal = d: RawDecimal | -MANTISSA_BOUND < d.mantissa < MANTISSA_BOUND && d.scale <= MAX_SCALE
    witness RawDecimal(0, 0)

  const ZERO: Decimal := RawDecimal(0, 0)

  /** The number a decimal stands for. */
  ghost function Value(d: Decimal): (x: real) {
    Fraction(d.mantissa, d.scale)
  }

  /** The real product, as a term of its own. */
  ghost function Times(x: real, y: real): (z: real) {
    x * y
  }

  /** One percent of a real number, as a term of its own. */
  ghost function Hundredth(x: real): (z: real) {
    x / 100.0
  }

  /** Some decimal stands for exactly `x`. */
  ghost predicate Representable(x: real) {
    exists d: Decimal :: Value(d) == x
  }

  /** No smaller scale denotes the same coefficient. */
  predicate Canonical(d: RawDecimal) {
    d.scale == 0 || d.mantissa % 10 != 0
  }

  predicate InI128(x: int) {
    -I128_BOUND <= x < I128_BOUND
  }

  /** The checked `i128` operations: the exact integer, or nothing when it overflows. */
  function Checked(x: int): (r: Option<int>)
    ensures r.Some? <==> InI128(x)
    ensures r.Some? ==> r.value == x
  {
    if InI128(x) then Some(x) else None
  }

  /** `Decimal::try_from_i128_with_scale`. */
  function TryFromI128WithScale(coefficient: int, scale: nat): (r: Option<Decimal>)
    ensures r.Some? ==> Value(r.value) == Fraction(coefficient, scale)
  {
    if scale <= MAX_SCALE && -MANTISSA_BOUND < coefficient < MANTISSA_BOUND
    then Some(RawDecimal(coefficient, scale)) else None
  }

  /** `Decimal::normalize`: strips the zeros that end the fraction, keeping the number. */
  function Normalize(d: Decimal): (r: Decimal)
    ensures Canonical(r)
    ensures Value(r) == Value(d)
    ensures r.scale <= d.scale
    decreases d.scale
  {
    if d.scale > 0 && d.mantissa % 10 == 0 then
      FractionStep(d.mantissa / 10, d.scale - 1);
      Normalize(RawDecimal(d.mantissa / 10, d.scale - 1))
    else d
  }

  /** Negation. */
  function Negate(d: Decimal): (r: Decimal)
    ensures Value(r) == -Value(d)
  {
    SameDenominator(d.mantissa, d.mantissa, d.scale);
    RawDecimal(-d.mantissa, d.scale)
  }

  /**
   `Decimal::rescale` towards a larger scale: appends zeros to the fraction until the scale is
   reached or the next zero would not fit the mantissa.
   */
  function RescaleUp(d: Decimal, scale: nat): (r: Decimal)
    requires d.scale <= scale <= MAX_SCALE
    ensures Value(r) == Value(d)
    ensures d.scale <= r.scale <= scale
    ensures r.scale == scale || -MANTISSA_BOUND >= 10 * r.mantissa || 10 * r.mantissa >= MANTISSA_BOUND
    decreases scale - d.scale
  {
    if d.scale < scale && -MANTISSA_BOUND < 10 * d.mantissa < MANTISSA_BOUND then
      FractionStep(d.mantissa, d.scale);
      RescaleUp(RawDecimal(10 * d.mantissa, d.scale + 1), scale)
    else d
  }

  lemma {:induction false} CoefficientOfSmallerScale(m: int, ds: nat, c: int, s: nat)
    requires m * Pow10(s) == c * Pow10(ds)
    requires ds < s
    ensures c % 10 == 0
  {
    hide Pow10;
    var k := s - ds - 1;
    Pow10Sum(ds, k + 1);
    Pow10Step(k);
    var p, q := Pow10(ds), m * Pow10(k);
    RegroupFactors(m, p, Pow10(k));
    CancelFactor(c, 10 * q, p);
  }

  lemma RegroupFactors(m: int, p: int, k: int)
    ensures m * (p * (10 * k)) == (10 * (m * k)) * p
  {
    assert m * (p * (10 * k)) == (m * p) * (10 * k);
    assert (m * p) * (10 * k) == 10 * ((m * p) * k);
    assert (m * p) * k == (m * k) * p;
  }

  lemma CancelFactor(a: int, b: int, p: int)
    requires p > 0 && a * p == b * p
    ensures a == b
  {
    assert (a - b) * p == 0;
  }

  lemma CoefficientOfLargerScale(m: int, ds: nat, c: int, s: nat)
    requires m * Pow10(s) == c * Pow10(ds)
    requires ds >= s
    ensures m == c * Pow10(ds - s)
    ensures Magnitude(c) <= Magnitude(m)
  {
    hide Pow10;
    var k := Pow10(ds - s);
    Pow10Sum(s, ds - s);
    SwapFactors(c, Pow10(s), k);
    CancelFactor(m, c * k, Pow10(s));
    MagnitudeGrows(c, k);
  }

  lemma SwapFactors(c: int, p: int, k: int)
    ensures c * (p * k) == (c * k) * p
  {
  }

  lemma MagnitudeGrows(c: int, k: int)
    requires k >= 1
    ensures Magnitude(c) <= Magnitude(c * k)
  {
    if c >= 0 {
      assert c * 1 <= c * k;
    } else {
      assert (-c) * 1 <= (-c) * k;
      assert (-c) * k == -(c * k);
    }
  }

  function Magnitude(x: int): nat {
    if x < 0 then -x else x
  }

  /**
   A coefficient whose fraction cannot be shortened is representable exactly when it fits the
   mantissa and its scale is within bounds.
   */
  lemma RepresentableFraction(c: int, s: nat)
    requires s == 0 || c % 10 != 0
    ensures Representable(Fraction(c, s)) <==> Magnitude(c) < MANTISSA_BOUND && s <= MAX_SCALE
  {
    if Magnitude(c) < MANTISSA_BOUND && s <= MAX_SCALE {
      var d: Decimal := RawDecimal(c, s);
      assert Value(d) == Fraction(c, s);
    }
    if Representable(Fraction(c, s)) {
      var d: Decimal :| Value(d) == Fraction(c, s);
      FractionEqual(d.mantissa, d.scale, c, s);
      if d.scale < s {
        CoefficientOfSmallerScale(d.mantissa, d.scale, c, s);
        assert false;
      }
      CoefficientOfLargerScale(d.mantissa, d.scale, c, s);
    }
  }

  /** Two canonical decimals of one value are the same decimal. */
  lemma CanonicalUnique(d: Decimal, e: Decimal)
    requires Canonical(d) && Canonical(e) && Value(d) == Value(e)
    ensures d == e
  {
    FractionEqual(d.mantissa, d.scale, e.mantissa, e.scale);
    if d.scale < e.scale {
      CoefficientOfSmallerScale(d.mantissa, d.scale, e.mantissa, e.scale);
    } else if e.scale < d.scale {
      CoefficientOfSmallerScale(e.mantissa, e.scale, d.mantissa, d.scale);
    } else {
      SameDenominator(d.mantissa, e.mantissa, d.scale);
    }
  }

  /** The canonical decimal that stands for exactly `x`, when there is one. */
  ghost function Exact(x: real): (r: Option<Decimal>)
    ensures r.Some? <==> Representable(x)
    ensures r.Some? ==> Canonical(r.value) && Value(r.value) == x
  {
    if Representable(x) then
      var d: Decimal :| Value(d) == x;
      Some(Normalize(d))
    else None
  }

  /** `Exact` is determined by the value it must have. */
  lemma ExactIs(x: real, d: Decimal)
    requires Canonical(d) && Value(d) == x
    ensures Exact(x) == Some(d)
  {
    assert Representable(x);
    CanonicalUnique(Exact(x).value, d);
  }

  lemma RepresentableNegation(x: real)
    ensures Representable(-x) <==> Representable(x)
  {
    if Representable(x) {
      var d: Decimal :| Value(d) == x;
      assert Value(Negate(d)) == -x;
    }
    if Representable(-x) {
      var d: Decimal :| Value(d) == -x;
      assert Value(Negate(d)) == x;
    }
  }
}

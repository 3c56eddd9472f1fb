/**
 Exact decimal arithmetic over integer coefficients. Each operation answers the canonical decimal
 of the true real result, and refuses exactly when no decimal stands for it: the early `i128`
 overflow exits never refuse a representable result.
 */
module ExactArithmetic {
  import opened Wrappers
  import opened PowersOfTen
  import opened Decimals

  /** Shortens the fraction of a coefficient and stores it, if it fits. */
  method ExactCoefficient(coefficient: int, scale: nat) returns (r: Option<Decimal>)
    requires InI128(coefficient)
    ensures r == Exact(Fraction(coefficient, scale))
  {
    var c: int, s: nat := coefficient, scale;
    while s > 0 && c % 10 == 0
      invariant InI128(c)
      invariant Fraction(c, s) == Fraction(coefficient, scale)
    {
      FractionStep(c / 10, s - 1);
      c, s := c / 10, s - 1;
    }
    RepresentableFraction(c, s);
    if s > MAX_SCALE {
      return None;
    }
    r := TryFromI128WithScale(c, s);
    if r.Some? {
      ExactIs(Fraction(coefficient, scale), r.value);
    }
  }

  /** The remainder of a product by ten is that of the product of the remainders. */
  lemma ProductModTen(a: int, b: int)
    ensures (a * b) % 10 == ((a % 10) * (b % 10)) % 10
  {
    var q, r, p, t := a / 10, a % 10, b / 10, b % 10;
    assert a == 10 * q + r && b == 10 * p + t;
    ExpandProduct(q, r, p, t);
    TenMod(10 * (q * p) + q * t + r * p, r * t);
  }

  lemma TenMod(x: int, y: int)
    ensures (10 * x + y) % 10 == y % 10
  {
  }

  lemma ResidueModTen(a: int)
    ensures (a % 10) % 2 == a % 2 && (a % 10) % 5 == a % 5
  {
    var q, r := a / 10, a % 10;
    assert a == 2 * (5 * q) + r;
    assert a == 5 * (2 * q) + r;
    ModTwo(5 * q, r);
    ModFive(2 * q, r);
  }

  lemma ModTwo(k: int, r: int)
    ensures (2 * k + r) % 2 == r % 2
  {
  }

  lemma ModFive(k: int, r: int)
    ensures (5 * k + r) % 5 == r % 5
  {
  }

  lemma ExpandProduct(q: int, r: int, p: int, t: int)
    ensures (10 * q + r) * (10 * p + t) == 10 * (10 * (q * p) + q * t + r * p) + r * t
  {
    calc {
      (10 * q + r) * (10 * p + t);
      (10 * q) * (10 * p + t) + r * (10 * p + t);
      (10 * q) * (10 * p) + (10 * q) * t + r * (10 * p) + r * t;
    }
  }

  /** When no factor of ten is left in either operand or across them, the product has none. */
  lemma NoFactorOfTen(a: int, b: int)
    requires a % 10 != 0 && b % 10 != 0
    requires !(a % 2 == 0 && b % 5 == 0) && !(a % 5 == 0 && b % 2 == 0)
    ensures (a * b) % 10 != 0
  {
    ProductModTen(a, b);
    ResidueModTen(a);
    ResidueModTen(b);
    ResidueTable(a % 10, b % 10);
  }

  lemma ResidueTable(r: int, t: int)
    requires 0 < r < 10 && 0 < t < 10
    requires !(r % 2 == 0 && t % 5 == 0) && !(r % 5 == 0 && t % 2 == 0)
    ensures (r * t) % 10 != 0
  {
    if
    case r == 1 =>
    case r == 2 =>
    case r == 3 =>
    case r == 4 =>
    case r == 5 =>
    case r == 6 =>
    case r == 7 =>
    case r == 8 =>
    case r == 9 =>
  }

  /** `number.rs: exact_mul`. Cancels powers of ten, also across the operands, before multiplying. */
  method ExactMul(left: Decimal, right: Decimal) returns (r: Option<Decimal>)
    ensures r == Exact(Times(Value(left), Value(right)))
  {
    hide Fraction, Representable, Pow10;
    var l, m := Normalize(left), Normalize(right);
    var a, b := l.mantissa, m.mantissa;
    var scale: nat := l.scale + m.scale;
    FractionProduct(a, l.scale, b, m.scale);
    while scale > 0
      invariant -MANTISSA_BOUND < a < MANTISSA_BOUND && -MANTISSA_BOUND < b < MANTISSA_BOUND
      invariant Fraction(a * b, scale) == Value(left) * Value(right)
      decreases scale
    {
      ghost var product := a * b;
      if a % 10 == 0 {
        CancelOneSide(a, b);
        a := a / 10;
      } else if b % 10 == 0 {
        CancelOneSide(b, a);
        b := b / 10;
      } else if a % 2 == 0 && b % 5 == 0 {
        CancelAcross(a, b);
        a, b := a / 2, b / 5;
      } else if a % 5 == 0 && b % 2 == 0 {
        CancelAcross(b, a);
        a, b := a / 5, b / 2;
      } else {
        NoFactorOfTen(a, b);
        break;
      }
      assert product == 10 * (a * b);
      FractionStep(a * b, scale - 1);
      scale := scale - 1;
    }
    RepresentableFraction(a * b, scale);
    var coefficient := Checked(a * b);
    if coefficient.None? {
      return None;
    }
    r := ExactCoefficient(coefficient.value, scale);
  }

  lemma CancelOneSide(a: int, b: int)
    requires a % 10 == 0
    ensures a * b == 10 * ((a / 10) * b) && b * a == 10 * (b * (a / 10))
  {
    assert a == 10 * (a / 10);
  }

  lemma CancelAcross(a: int, b: int)
    requires a % 2 == 0 && b % 5 == 0
    ensures a * b == 10 * ((a / 2) * (b / 5)) && b * a == 10 * ((b / 5) * (a / 2))
  {
    var x, y := a / 2, b / 5;
    assert a == 2 * x && b == 5 * y;
    assert (2 * x) * (5 * y) == 10 * (x * y);
  }

  lemma OnePercent(m: int, scale: nat)
    ensures Hundredth(Fraction(m, scale)) == Fraction(m, scale + 2)
  {
    assert Pow10(2) == 100 by {
      assert Pow10(1) == 10;
    }
    FractionProduct(m, scale, 1, 2);
    assert Fraction(1, 2) == 0.01;
    hide Pow10;
    var x := Fraction(m, scale);
    assert x / 100.0 == x * 0.01;
  }

  /** `number.rs: exact_div_100`. */
  method ExactDiv100(value: Decimal) returns (r: Option<Decimal>)
    ensures r == Exact(Hundredth(Value(value)))
  {
    OnePercent(value.mantissa, value.scale);
    r := ExactCoefficient(value.mantissa, value.scale + 2);
  }

  /** Aligning two canonical decimals of different scale leaves a sum that cannot be shortened. */
  lemma AlignedSum(coarse: Decimal, fine: Decimal)
    requires Canonical(fine) && coarse.scale < fine.scale
    ensures var sum := coarse.mantissa * Pow10(fine.scale - coarse.scale) + fine.mantissa;
            && sum % 10 != 0
            && Fraction(sum, fine.scale) == Value(coarse) + Value(fine)
  {
    hide Pow10, Fraction;
    var k := fine.scale - coarse.scale;
    FractionExpand(coarse.mantissa, coarse.scale, k);
    SameDenominator(coarse.mantissa * Pow10(k), fine.mantissa, fine.scale);
    Pow10Step(k - 1);
    TenfoldRemainder(coarse.mantissa, Pow10(k - 1), fine.mantissa);
  }

  lemma TenfoldRemainder(m: int, p: int, f: int)
    ensures (m * (10 * p) + f) % 10 == f % 10
  {
    assert m * (10 * p) == 10 * (m * p);
    TenMod(m * p, f);
  }

  /** An alignment or a sum beyond `i128` cannot come back into the mantissa. */
  lemma OverflowingSum(coarse: Decimal, fine: Decimal)
    requires Canonical(coarse) && Canonical(fine) && coarse.scale <= fine.scale
    ensures var aligned := coarse.mantissa * Pow10(fine.scale - coarse.scale);
            && Fraction(aligned + fine.mantissa, fine.scale) == Value(coarse) + Value(fine)
            && (!InI128(aligned) || !InI128(aligned + fine.mantissa) ==> !Representable(Value(coarse) + Value(fine)))
  {
    hide Fraction, Representable;
    if coarse.scale < fine.scale {
      AlignedSum(coarse, fine);
      RepresentableFraction(coarse.mantissa * Pow10(fine.scale - coarse.scale) + fine.mantissa, fine.scale);
    } else {
      SameDenominator(coarse.mantissa, fine.mantissa, fine.scale);
    }
  }

  function Aligned(mantissa: int, places: nat): int {
    mantissa * Pow10(places)
  }

  lemma AlignedToCommonScale(l: Decimal, m: Decimal, scale: nat)
    requires Canonical(l) && Canonical(m) && scale == if l.scale >= m.scale then l.scale else m.scale
    ensures var a, b := Aligned(l.mantissa, scale - l.scale), Aligned(m.mantissa, scale - m.scale);
            && Fraction(a + b, scale) == Value(l) + Value(m)
            && (!InI128(a) || !InI128(b) || !InI128(a + b) ==> !Representable(Value(l) + Value(m)))
  {
    assert Aligned(l.mantissa, 0) == l.mantissa && Aligned(m.mantissa, 0) == m.mantissa;
    hide Pow10, Fraction, Representable;
    if l.scale <= m.scale {
      OverflowingSum(l, m);
    } else {
      OverflowingSum(m, l);
    }
  }

  /** `number.rs: exact_add`. */
  method ExactAdd(left: Decimal, right: Decimal) returns (r: Option<Decimal>)
    ensures r == Exact(Value(left) + Value(right))
  {
    hide Aligned, Fraction, Representable;
    var l, m := Normalize(left), Normalize(right);
    var scale := if l.scale >= m.scale then l.scale else m.scale;
    AlignedToCommonScale(l, m, scale);
    var a := Checked(Aligned(l.mantissa, scale - l.scale));
    if a.None? {
      return None;
    }
    var b := Checked(Aligned(m.mantissa, scale - m.scale));
    if b.None? {
      return None;
    }
    var coefficient := Checked(a.value + b.value);
    if coefficient.None? {
      return None;
    }
    r := ExactCoefficient(coefficient.value, scale);
  }
}

/**
 The derived amounts of a line item (`item.rs`): net from price and quantity, VAT from the rounded
 net, gross as their sum. The specification is over real numbers; the method works on decimals.
 */
module LineItems {
  import opened Wrappers
  import opened PowersOfTen
  import opened Decimals
  import opened ExactArithmetic
  import NumberGrammar
  import NumberParser
  import Texts

  datatype Rounding = Scale(places: nat) | Unrounded

  /** A percentage, a code without one, or an open token that may spell a number. */
  datatype VatRate = Percent(rate: Decimal) | SpecialCode | Other(token: string)

  datatype ArithmeticError = NetOverflow | VatOverflow | GrossOverflow | UnrepresentableVatRate

  datatype Amounts = Amounts(net: Decimal, vat: Decimal, gross: Decimal)

  // ---------------------------------------------------------------- rounding

  /** Half away from zero at `places` decimals, as a real number. */
  ghost function HalfAway(x: real, places: nat): real {
    if x >= 0.0 then Fraction(HalfUp(x, places), places) else -Fraction(HalfUp(-x, places), places)
  }

  /** The nearest number of units of `places` decimals, half upwards. */
  ghost function HalfUp(x: real, places: nat): int {
    (Times(x, Pow10(places) as real) + 0.5).Floor
  }

  ghost function Rounded(rounding: Rounding, x: real): real {
    match rounding
    case Scale(places) => HalfAway(x, places)
    case Unrounded => x
  }

  function RoundedQuotient(m: int, p: nat): (q: int)
    requires p > 0
    ensures Magnitude(q) <= Magnitude(m)
  {
    RoundedQuotientBound(m, p);
    if m >= 0 then (2 * m + p) / (2 * p) else -((-2 * m + p) / (2 * p))
  }

  lemma RoundedQuotientBound(m: int, p: nat)
    requires p > 0
    ensures m >= 0 ==> 0 <= (2 * m + p) / (2 * p) <= m
    ensures m < 0 ==> 0 <= (-2 * m + p) / (2 * p) <= -m
  {
    var a := Magnitude(m);
    if a > 0 {
      assert (2 * a + p) <= 2 * p * a + p;
      assert 2 * p * a + p < 2 * p * (a + 1);
      QuotientBelow(2 * a + p, 2 * p, a + 1);
    } else {
      QuotientBelow(p, 2 * p, 1);
    }
  }

  lemma QuotientBelow(a: nat, b: nat, k: nat)
    requires b > 0 && a < b * k
    ensures 0 <= a / b < k
  {
    var q := a / b;
    assert a == b * q + a % b;
    assert b * q < b * k;
  }

  lemma FloorOfQuotient(a: int, b: nat)
    requires b > 0
    ensures (a as real / b as real).Floor == a / b
  {
    var q, r := a / b, a % b;
    var x, y := a as real, b as real;
    assert a == b * q + r;
    assert x == y * q as real + r as real;
    assert x / y == q as real + r as real / y by {
      QuotientUnique(x, y, q as real + r as real / y);
    }
    assert 0.0 <= r as real / y < 1.0;
  }

  lemma ScaleDown(x: real, p: real, q: real)
    requires p > 0.0 && q > 0.0
    ensures p * q > 0.0 && x / (p * q) * p == x / q
  {
    QuotientProduct(x, q, p, p);
    QuotientUnique(p, p, 1.0);
    QuotientProduct(x, p * q, p, 1.0);
    assert (p * q) * 1.0 == p * q && q * p == p * q;
  }

  lemma HalfMore(x: real, q: real)
    requires q > 0.0
    ensures x / q + 0.5 == (2.0 * x + q) / (2.0 * q)
  {
    var z := x / q;
    assert x == z * q;
    QuotientUnique(2.0 * x + q, 2.0 * q, z + 0.5);
  }

  lemma RealDouble(m: int, p: int)
    ensures (2 * m + p) as real == 2.0 * m as real + p as real
    ensures (2 * p) as real == 2.0 * p as real
  {
  }

  lemma FloorHalf(x: real, a: int, b: nat)
    requires b > 0 && x == a as real / b as real
    ensures (x + 0.5).Floor == (2 * a + b) / (2 * b)
  {
    HalfMore(a as real, b as real);
    RealDouble(a, b);
    FloorOfQuotient(2 * a + b, 2 * b);
  }

  lemma ScaledFraction(m: int, scale: nat, places: nat)
    requires places <= scale
    ensures Times(Fraction(m, scale), Pow10(places) as real) == m as real / Pow10(scale - places) as real
  {
    hide Pow10;
    Pow10Sum(places, scale - places);
    RealProduct(Pow10(places), Pow10(scale - places));
    ScaleDown(m as real, Pow10(places) as real, Pow10(scale - places) as real);
  }

  /** Of a fraction with more than `places` decimals, that is an integer quotient. */
  lemma HalfUpQuotient(m: nat, scale: nat, places: nat)
    requires places < scale
    ensures HalfUp(Fraction(m, scale), places)
            == (2 * m + Pow10(scale - places)) / (2 * Pow10(scale - places))
  {
    hide Fraction;
    ScaledFraction(m, scale, places);
    FloorHalf(Times(Fraction(m, scale), Pow10(places) as real), m, Pow10(scale - places));
  }

  /** Of a fraction with at most `places` decimals, it is that fraction. */
  lemma HalfUpWhole(m: nat, scale: nat, places: nat)
    requires scale <= places
    ensures HalfUp(Fraction(m, scale), places) == m * Pow10(places - scale)
  {
    hide Fraction;
    var k := m * Pow10(places - scale);
    FractionExpand(m, scale, places - scale);
    ScaledFraction(k, places, places);
    assert Pow10(0) == 1;
    FloorOfWhole(Times(Fraction(m, scale), Pow10(places) as real), k);
  }

  lemma FloorOfWhole(x: real, k: int)
    requires x == k as real
    ensures (x + 0.5).Floor == k
  {
  }

  /** `Rounding::apply` at a scale: `round_dp_with_strategy` with midpoints away from zero. */
  function RoundDp(d: Decimal, places: nat): (r: Decimal)
    ensures Value(r) == HalfAway(Value(d), places)
    ensures r.scale <= places
  {
    RoundDpValue(d, places);
    if d.scale <= places then d
    else RawDecimal(RoundedQuotient(d.mantissa, Pow10(d.scale - places)), places)
  }

  /** Half away from zero is odd, so a magnitude decides it. */
  lemma HalfAwayOfFraction(m: int, scale: nat, places: nat, rounded: int)
    requires rounded == HalfUp(Fraction(Magnitude(m), scale), places)
    ensures HalfAway(Fraction(m, scale), places) == Fraction(if m >= 0 then rounded else -rounded, places)
  {
    hide HalfUp;
    SameDenominator(m, 0, scale);
    SameDenominator(rounded, 0, places);
    assert Fraction(0, scale) == 0.0;
  }

  lemma RoundDpValue(d: Decimal, places: nat)
    ensures d.scale <= places ==> Value(d) == HalfAway(Value(d), places)
    ensures d.scale > places ==>
              Fraction(RoundedQuotient(d.mantissa, Pow10(d.scale - places)), places) == HalfAway(Value(d), places)
  {
    hide HalfUp, HalfAway;
    var m := Magnitude(d.mantissa);
    if d.scale <= places {
      HalfUpWhole(m, d.scale, places);
      HalfAwayOfFraction(d.mantissa, d.scale, places, m * Pow10(places - d.scale));
      FractionExpand(d.mantissa, d.scale, places - d.scale);
      NumberParser.SignedProduct(d.mantissa < 0, m, Pow10(places - d.scale));
    } else {
      HalfUpQuotient(m, d.scale, places);
      HalfAwayOfFraction(d.mantissa, d.scale, places, HalfUp(Fraction(m, d.scale), places));
    }
  }

  function Apply(rounding: Rounding, d: Decimal): (r: Decimal)
    ensures Value(r) == Rounded(rounding, Value(d))
  {
    match rounding
    case Scale(places) => RoundDp(d, places)
    case Unrounded => d
  }

  // ---------------------------------------------------------------- the calculation

  datatype RealAmounts = RealAmounts(net: real, vat: real, gross: real)

  /** The percentage a rate stands for, if any; an unrepresentable numeral is an error. */
  ghost function Percentage(rate: VatRate): (r: Result<Option<real>, ArithmeticError>) {
    match rate
    case Percent(d) => Ok(Some(Value(d)))
    case SpecialCode => Ok(None)
    case Other(token) =>
      match NumberGrammar.Scan(Texts.Trim(token, Texts.IsXmlSpace))
      case None => Ok(None)
      case Some(l) =>
        if NumberGrammar.WellFormed(l) && NumberParser.Reading(l).Some?
        then Ok(Some(NumberGrammar.Denotes(l))) else Err(UnrepresentableVatRate)
  }

  /** The amounts over the reals, or the first step whose exact intermediate no decimal holds. */
  ghost function Calculation(quantity: real, price: real, rate: VatRate, rounding: Rounding)
    : (r: Result<RealAmounts, ArithmeticError>)
  {
    if !Representable(Times(price, quantity)) then Err(NetOverflow)
    else
      var net := Rounded(rounding, Times(price, quantity));
      match Percentage(rate)
      case Err(e) => Err(e)
      case Ok(None) =>
        if !Representable(net) then Err(GrossOverflow) else Ok(RealAmounts(net, 0.0, net))
      case Ok(Some(percent)) =>
        if !Representable(Times(net, percent)) || !Representable(Hundredth(Times(net, percent))) then Err(VatOverflow)
        else
          var vat := Rounded(rounding, Hundredth(Times(net, percent)));
          if !Representable(net + vat) then Err(GrossOverflow) else Ok(RealAmounts(net, vat, net + vat))
  }

  /** What the parser's reading of a VAT token gives. */
  method ReadPercentage(rate: VatRate) returns (r: Result<Option<Decimal>, ArithmeticError>)
    requires rate.Other? ==> |rate.token| < NumberParser.I64_BOUND
    ensures match Percentage(rate)
            case Err(e) => r == Err(e)
            case Ok(None) => r == Ok(None)
            case Ok(Some(x)) => r.Ok? && r.value.Some? && Value(r.value.value) == x
  {
    match rate
    case Percent(d) => r := Ok(Some(d));
    case SpecialCode => r := Ok(None);
    case Other(token) =>
      var text := Texts.Trim(token, Texts.IsXmlSpace);
      var n := NumberParser.Numeric(text);
      if n.None? {
        return Ok(None);
      }
      if n.value.Err? {
        return Err(UnrepresentableVatRate);
      }
      r := Ok(Some(n.value.value));
  }

  method CalculateVat(net: Decimal, percentage: Option<Decimal>, rounding: Rounding) returns (r: Option<Decimal>)
    ensures percentage.None? ==> r.Some? && Value(r.value) == 0.0
    ensures percentage.Some? ==>
              var x := Times(Value(net), Value(percentage.value));
              && (r.Some? <==> Representable(x) && Representable(Hundredth(x)))
              && (r.Some? ==> Value(r.value) == Rounded(rounding, Hundredth(x)))
  {
    hide HalfAway, Times, Hundredth, Representable;
    if percentage.None? {
      return Some(ZERO);
    }
    var product := ExactMul(net, percentage.value);
    if product.None? {
      return None;
    }
    var quotient := ExactDiv100(product.value);
    if quotient.None? {
      return None;
    }
    return Some(Apply(rounding, quotient.value));
  }

  /** `LineItem::try_calculated`. */
  method TryCalculated(quantity: Decimal, unitPrice: Decimal, rate: VatRate, rounding: Rounding)
    returns (r: Result<Amounts, ArithmeticError>)
    requires rate.Other? ==> |rate.token| < NumberParser.I64_BOUND
    ensures match Calculation(Value(quantity), Value(unitPrice), rate, rounding)
            case Err(e) => r == Err(e)
            case Ok(amounts) =>
              && r.Ok?
              && Value(r.value.net) == amounts.net
              && Value(r.value.vat) == amounts.vat
              && Value(r.value.gross) == amounts.gross
  {
    hide HalfAway, Times, Hundredth, Representable, Value, Rounded, Percentage;
    var product := ExactMul(unitPrice, quantity);
    if product.None? {
      return Err(NetOverflow);
    }
    var net := Apply(rounding, product.value);
    var percentage := ReadPercentage(rate);
    if percentage.Err? {
      return Err(percentage.error);
    }
    var vat := CalculateVat(net, percentage.value, rounding);
    if vat.None? {
      return Err(VatOverflow);
    }
    var gross := ExactAdd(net, vat.value);
    if gross.None? {
      return Err(GrossOverflow);
    }
    return Ok(Amounts(net, vat.value, gross.value));
  }
}

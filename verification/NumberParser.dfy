/**
 The exact conversion of wire numbers (`number.rs: numeric`, `parse`). The parser never expands an
 exponent beyond 29 digits, yet answers the exact decimal whenever there is one.
 */
module NumberParser {
  import opened Wrappers
  import opened PowersOfTen
  import opened DecimalDigits
  import opened Decimals
  import opened NumberGrammar
  import Texts

  /** 2^63. No string is longer than `isize::MAX == I64_BOUND - 1` bytes. */
  const I64_BOUND: int := 0x8000_0000_0000_0000

  const U32_BOUND: int := 0x1_0000_0000

  /** The digits a 96-bit mantissa can have. */
  const MAX_DIGITS: nat := 29

  datatype NumberError = Underflow | ExceedsMaximumPossibleValue | ExpectedFiniteDecimal

  predicate InI64(x: int) {
    -I64_BOUND <= x < I64_BOUND
  }

  /** A conversion or a checked step in `i64`: the integer, or nothing when it does not fit. */
  function ToI64(x: int): (r: Option<int>)
    ensures r.Some? <==> InI64(x)
    ensures r.Some? ==> r.value == x
  {
    if InI64(x) then Some(x) else None
  }

  predicate IsExponentText(s: string) {
    var digits := s[|SignOf(s)|..];
    digits != "" && AllDigits(digits)
  }

  function ExponentTextValue(s: string): int
    requires IsExponentText(s)
  {
    SignedValue(SignOf(s), s[|SignOf(s)|..])
  }

  /** The scale the literal was written with; negative when its exponent outruns its fraction. */
  function SourceScale(l: Literal): int
    requires WellFormed(l)
  {
    |FractionDigits(l)| - ExponentValue(l)
  }

  /** The only numerals refused for their spelling: not zero, with an exponent outside `i64`. */
  predicate ExponentOverflow(l: Literal)
    requires WellFormed(l)
  {
    DigitsValue(l.integer + FractionDigits(l)) != 0 && !InI64(ExponentValue(l))
  }

  /** The decimal at the scale it was written with, or as close to it as the mantissa allows. */
  function WithDisplayScale(d: Decimal, source: int): (r: Decimal)
    ensures Value(r) == Value(d)
  {
    var target := if source < MAX_SCALE then source else MAX_SCALE;
    if 0 <= source < U32_BOUND && d.scale <= target then RescaleUp(d, target) else d
  }

  /**
   What reading a literal gives: the exact decimal at its display scale when one exists; nothing
   exactly when none does, or when a nonzero numeral's exponent is outside `i64`.
   */
  ghost function Reading(l: Literal): (r: Option<Decimal>)
    requires WellFormed(l)
  {
    if Representable(Denotes(l)) && !ExponentOverflow(l)
    then Some(WithDisplayScale(Exact(Denotes(l)).value, SourceScale(l))) else None
  }

  predicate IsZero(c: char) {
    c == '0'
  }

  /** The digits without the zeros they start with. */
  function Significant(s: string): string {
    Texts.TrimStart(s, IsZero)
  }

  /** The digits without the zeros around them. */
  function Coefficient(s: string): string {
    Texts.Trim(s, IsZero)
  }

  lemma {:induction false} LeadingZeros(s: string)
    requires AllDigits(s)
    ensures AllDigits(Significant(s)) && DigitsValue(Significant(s)) == DigitsValue(s)
  {
    if s == "" || s[0] != '0' {
    } else {
      PrependZeros(1, s[1..]);
      assert s == Zeros(1) + s[1..];
      LeadingZeros(s[1..]);
    }
  }

  lemma {:induction false} TrailingZeros(s: string)
    requires AllDigits(s)
    ensures var r := Texts.TrimEnd(s, IsZero);
            && AllDigits(r) && DigitsValue(s) == DigitsValue(r) * Pow10(|s| - |r|)
            && (r != "" ==> DigitsValue(r) % 10 != 0)
            && (s != "" && s[0] != '0' ==> r != "" && r[0] == s[0])
  {
    if s == "" || s[|s| - 1] != '0' {
    } else {
      var front := s[..|s| - 1];
      var r := Texts.TrimEnd(front, IsZero);
      TrailingZeros(front);
      TenTimes(DigitsValue(r), Pow10(|front| - |r|), 0);
    }
  }

  /** A nonzero digit string through its coefficient, whose first and last digits are not zero. */
  lemma CoefficientFacts(s: string)
    requires AllDigits(s)
    ensures var c := Coefficient(s);
            && AllDigits(c) && |c| <= |Significant(s)| <= |s|
            && (c == "" <==> Significant(s) == "") && (c == "" <==> DigitsValue(s) == 0)
            && DigitsValue(s) == DigitsValue(c) * Pow10(|Significant(s)| - |c|)
            && (c != "" ==> DigitsValue(c) % 10 != 0 && DigitsValue(c) >= Pow10(|c| - 1))
  {
    hide Pow10;
    LeadingZeros(s);
    TrailingZeros(Significant(s));
    var c := Coefficient(s);
    if c != "" {
      DigitsValueLower(c);
      PositiveProduct(DigitsValue(c), Pow10(|Significant(s)| - |c|));
    }
  }

  lemma PositiveProduct(a: int, b: int)
    requires a > 0 && b > 0
    ensures a * b > 0
  {
  }

  // ---------------------------------------------------------------- representability of c * 10^e

  lemma BeyondTheMantissa()
    ensures Pow10(MAX_DIGITS) > MANTISSA_BOUND
    ensures Pow10(MAX_DIGITS) < I128_BOUND
  {
    assert Pow10(10) == 10000000000;
    Pow10Sum(10, 10);
    assert Pow10(9) == 1000000000;
    Pow10Sum(20, 9);
  }

  /** A coefficient without a final zero, as the fraction that is stored for it. */
  lemma StoredForm(c: int, e: int, extra: nat, s: nat)
    requires c % 10 != 0
    requires extra == (if e >= 0 then e else 0) && s == (if e >= 0 then 0 else -e)
    ensures Scaled(c, e) == Fraction(c * Pow10(extra), s)
    ensures Representable(Scaled(c, e)) <==> Magnitude(c * Pow10(extra)) < MANTISSA_BOUND && s <= MAX_SCALE
  {
    RepresentableFraction(c * Pow10(extra), s);
  }

  lemma TooManyDigits(c: int, len: nat, e: int)
    requires c % 10 != 0 && len > 0 && Magnitude(c) >= Pow10(len - 1)
    requires len > MAX_DIGITS || (e >= 0 && len + e > MAX_DIGITS)
    ensures !Representable(Scaled(c, e))
  {
    hide Pow10, Fraction;
    var extra: nat := if e >= 0 then e else 0;
    StoredForm(c, e, extra, if e >= 0 then 0 else -e);
    Pow10Sum(len - 1, extra);
    Pow10Monotone(MAX_DIGITS, len - 1 + extra);
    BeyondTheMantissa();
    MagnitudeProduct(c, Pow10(len - 1), Pow10(extra));
  }

  /** A coefficient shifted past either end of the mantissa's window. */
  lemma OutOfWindow(c: int, len: nat, e: int)
    requires c % 10 != 0 && len > 0 && Magnitude(c) >= Pow10(len - 1)
    requires -e > MAX_SCALE || e >= MAX_DIGITS
    ensures !Representable(Scaled(c, e))
  {
    if e >= 0 {
      TooManyDigits(c, len, e);
    } else {
      StoredForm(c, e, 0, -e);
    }
  }

  lemma MagnitudeProduct(c: int, lower: nat, p: nat)
    requires Magnitude(c) >= lower
    ensures Magnitude(c * p) >= lower * p
  {
    if c >= 0 {
      assert c * p >= lower * p;
    } else {
      assert (-c) * p >= lower * p;
      assert c * p == -((-c) * p);
    }
  }

  lemma Associate(a: int, b: int, c: int)
    ensures (a * b) * c == a * (b * c)
  {
  }

  lemma ScaledShift(c: int, t: nat, e: int)
    ensures Scaled(c * Pow10(t), e) == Scaled(c, e + t)
  {
    if e >= 0 {
      Pow10Sum(t, e);
      Associate(c, Pow10(t), Pow10(e));
    } else if e + t >= 0 {
      Pow10Sum(e + t, -e);
      Associate(c, Pow10(e + t), Pow10(-e));
      FractionExpand(c * Pow10(e + t), 0, -e);
    } else {
      FractionExpand(c, -e - t, t);
    }
  }

  /** The number `±digits * 10^e`, through its coefficient. */
  lemma ThroughCoefficient(negative: bool, n: int, c: int, t: nat, e: int)
    requires n == c * Pow10(t)
    ensures Scaled(Signed(negative, n), e) == Scaled(Signed(negative, c), e + t)
  {
    SignedProduct(negative, c, Pow10(t));
    ScaledShift(Signed(negative, c), t, e);
  }

  lemma SignedFacts(negative: bool, n: nat)
    ensures Magnitude(Signed(negative, n)) == n
    ensures n % 10 != 0 ==> Signed(negative, n) % 10 != 0
  {
  }

  lemma SignedProduct(negative: bool, n: int, p: int)
    ensures Signed(negative, n) * p == Signed(negative, n * p)
  {
  }

  function Signed(negative: bool, n: int): int {
    if negative then -n else n
  }

  // ---------------------------------------------------------------- the parser

  lemma AllDigitsParts(a: string, b: string)
    requires AllDigits(a + b)
    ensures AllDigits(a) && AllDigits(b)
  {
    assert forall i | 0 <= i < |a| :: a[i] == (a + b)[i];
    assert forall i | 0 <= i < |b| :: b[i] == (a + b)[|a| + i];
  }

  lemma WholeMantissa(mantissa: string, digits: string, point: Option<nat>, dot: nat)
    requires dot <= |mantissa|
    requires point.None? ==> |mantissa| <= dot && digits == mantissa[..|mantissa|]
    requires point.Some? ==> dot < |mantissa| && digits == mantissa[..dot] + mantissa[dot + 1..|mantissa|]
    ensures digits == mantissa[..dot] + if dot == |mantissa| then "" else mantissa[dot + 1..]
  {
    if point.None? {
      assert mantissa[..|mantissa|] == mantissa[..dot] + "";
    } else {
      assert mantissa[dot + 1..|mantissa|] == mantissa[dot + 1..];
    }
  }

  /** The digit loop: collects the digits of the mantissa and where its point was. */
  method ScanDigits(mantissa: string) returns (r: Option<(string, Option<nat>)>)
    ensures DigitsScanned(mantissa, r)
    ensures r.Some? ==> |r.value.0| <= |mantissa|
  {
    var digits: string, point: Option<nat> := "", None;
    ghost var dot := Span(mantissa, ".");
    ghost var fraction := if dot == |mantissa| then "" else mantissa[dot + 1..];
    for i := 0 to |mantissa|
      invariant AllDigits(digits)
      invariant point.None? ==> i <= dot && digits == mantissa[..i]
      invariant point.Some? ==> point.value == dot < i && digits == mantissa[..dot] + mantissa[dot + 1..i]
    {
      if IsDigit(mantissa[i]) {
        digits := digits + [mantissa[i]];
      } else if mantissa[i] == '.' && point.None? {
        point := Some(|digits|);
      } else {
        assert i < dot ==> mantissa[..dot][i] == mantissa[i];
        assert i > dot ==> fraction[i - dot - 1] == mantissa[i];
        return None;
      }
    }
    WholeMantissa(mantissa, digits, point, dot);
    if digits == "" {
      return None;
    }
    AllDigitsParts(mantissa[..dot], fraction);
    return Some((digits, point));
  }

  /** The value of an admitted numeral, or the refusal of one no decimal stands for. */
  method Convert(negative: bool, digits: string, fractional: nat, exponent: string)
    returns (r: Result<Decimal, NumberError>)
    requires AllDigits(digits) && fractional <= |digits| < I64_BOUND && IsExponentText(exponent)
    ensures var e := ExponentTextValue(exponent);
            var x := Scaled(Signed(negative, DigitsValue(digits)), e - fractional);
            && (r.Ok? <==> Representable(x) && (DigitsValue(digits) != 0 ==> InI64(e)))
            && (r.Ok? ==> r.value == WithDisplayScale(Exact(x).value, fractional - e))
  {
    var significant := Significant(digits);
    CoefficientFacts(digits);
    if significant == "" {
      r := ConvertZero(negative, fractional, exponent);
    } else {
      var coefficient := Coefficient(digits);
      var trailing: nat := |significant| - |coefficient|;
      ThroughCoefficient(negative, DigitsValue(digits), DigitsValue(coefficient), trailing,
                         ExponentTextValue(exponent) - fractional);
      r := ConvertNonzero(negative, coefficient, trailing, fractional, exponent);
    }
  }

  method ConvertZero(ghost negative: bool, fractional: nat, exponent: string) returns (r: Result<Decimal, NumberError>)
    requires fractional < I64_BOUND && IsExponentText(exponent)
    ensures var e := ExponentTextValue(exponent);
            var x := Scaled(Signed(negative, 0), e - fractional);
            Representable(x) && r == Ok(WithDisplayScale(Exact(x).value, fractional - e))
  {
    var e := ToI64(ExponentTextValue(exponent));
    assert Scaled(0, ExponentTextValue(exponent) - fractional) == Value(ZERO);
    ExactIs(Value(ZERO), ZERO);
    var zero: Decimal := ZERO;
    if e.Some? {
      var source := ToI64(fractional - e.value);
      if source.Some? && 0 <= source.value < U32_BOUND {
        zero := RescaleUp(zero, if source.value < MAX_SCALE then source.value else MAX_SCALE);
      }
    }
    return Ok(zero);
  }

  method ConvertNonzero(negative: bool, coefficient: string, trailing: nat, fractional: nat, exponent: string)
    returns (r: Result<Decimal, NumberError>)
    requires coefficient != "" && AllDigits(coefficient) && IsExponentText(exponent)
    requires Pow10(|coefficient| - 1) <= DigitsValue(coefficient) && DigitsValue(coefficient) % 10 != 0
    requires trailing < I64_BOUND && fractional < I64_BOUND
    ensures var e := ExponentTextValue(exponent);
            var x := Scaled(Signed(negative, DigitsValue(coefficient)), e - fractional + trailing);
            && (r.Ok? <==> Representable(x) && InI64(e))
            && (r.Ok? ==> r.value == WithDisplayScale(Exact(x).value, fractional - e))
  {
    hide Pow10, Fraction, DigitsValue, AllDigits, Scaled, Representable;
    var e := ToI64(ExponentTextValue(exponent));
    if e.None? {
      return Err(Underflow);
    }
    ghost var c := Signed(negative, DigitsValue(coefficient));
    ghost var power := e.value - fractional + trailing;
    SignedFacts(negative, DigitsValue(coefficient));
    // The inner difference of two lengths always fits, so one check covers both subtractions.
    var scale := ToI64(fractional - trailing - e.value);
    if scale.None? || scale.value > MAX_SCALE {
      OutOfWindow(c, |coefficient|, power);
      return Err(Underflow);
    }
    var extra: nat := if scale.value < 0 then -scale.value else 0;
    if |coefficient| > MAX_DIGITS || extra > MAX_DIGITS - |coefficient| {
      TooManyDigits(c, |coefficient|, power);
      return Err(ExceedsMaximumPossibleValue);
    }
    var stored := Store(negative, coefficient, extra, if scale.value < 0 then 0 else scale.value);
    StoredForm(c, power, extra, if scale.value < 0 then 0 else scale.value);
    if stored.None? {
      return Err(ExceedsMaximumPossibleValue);
    }
    var result := stored.value;
    ExactIs(Scaled(c, power), result);
    var source := ToI64(fractional - e.value);
    if source.Some? && 0 <= source.value < U32_BOUND {
      result := RescaleUp(result, if source.value < MAX_SCALE then source.value else MAX_SCALE);
    }
    return Ok(result);
  }

  method PadWithZeros(coefficient: string, extra: nat) returns (normalized: string)
    requires |coefficient| + extra <= MAX_DIGITS
    ensures normalized == coefficient + Zeros(extra)
  {
    normalized := coefficient;
    for i := 0 to extra
      invariant normalized == coefficient + Zeros(i)
    {
      assert Zeros(i) + ['0'] == Zeros(i + 1);
      normalized := normalized + ['0'];
    }
  }

  /** Writes the zeros an exponent asks for, never more than 29 digits in all, and stores the integer. */
  method Store(negative: bool, coefficient: string, extra: nat, scale: nat) returns (r: Option<Decimal>)
    requires AllDigits(coefficient) && DigitsValue(coefficient) % 10 != 0
    requires |coefficient| + extra <= MAX_DIGITS && (scale == 0 || extra == 0)
    ensures var integer := Signed(negative, DigitsValue(coefficient)) * Pow10(extra);
            && (r.Some? <==> Magnitude(integer) < MANTISSA_BOUND && scale <= MAX_SCALE)
            && (r.Some? ==> r.value == RawDecimal(integer, scale) && Canonical(r.value))
  {
    var normalized := PadWithZeros(coefficient, extra);
    PaddedInteger(negative, coefficient, extra);
    hide Pow10, DigitsValue, AllDigits, Zeros, Fraction;
    var integer: int := DigitsValue(normalized);
    if negative {
      integer := -integer;
    }
    r := TryFromI128WithScale(integer, scale);
  }

  /** The padded digits read as the shifted coefficient, which 128 bits hold. */
  lemma PaddedInteger(negative: bool, coefficient: string, extra: nat)
    requires AllDigits(coefficient) && DigitsValue(coefficient) % 10 != 0
    requires |coefficient| + extra <= MAX_DIGITS
    ensures var integer := Signed(negative, DigitsValue(coefficient + Zeros(extra)));
            && AllDigits(coefficient + Zeros(extra))
            && integer == Signed(negative, DigitsValue(coefficient)) * Pow10(extra)
            && Magnitude(integer) < I128_BOUND
            && (extra == 0 ==> integer % 10 != 0)
  {
    assert Pow10(0) == 1;
    hide Pow10, DigitsValue, AllDigits;
    var normalized := coefficient + Zeros(extra);
    AppendZeros(coefficient, extra);
    DigitsValueUpper(normalized);
    Pow10Monotone(|normalized|, MAX_DIGITS);
    BeyondTheMantissa();
    SignedProduct(negative, DigitsValue(coefficient), Pow10(extra));
    SignedFacts(negative, DigitsValue(coefficient));
    assert extra == 0 ==> DigitsValue(normalized) == DigitsValue(coefficient) * 1;
  }

  /** The exponent text the parser works on, which reads `0` when there is none, is the literal's. */
  lemma ExponentPart(s: string, at: nat, exponent: string)
    requires at == Span(s, "eE")
    requires exponent == if at == |s| then "0" else s[at + 1..]
    ensures var e := ScanExponent(s[at..]);
            && (IsExponentText(exponent) <==> (e.Some? ==> AllDigits(e.value.digits) && e.value.digits != ""))
            && (e.Some? ==> IsMarker(e.value.marker) && IsSign(e.value.sign))
            && (IsExponentText(exponent) ==>
                  ExponentTextValue(exponent) == if e.Some? then SignedValue(e.value.sign, e.value.digits) else 0)
  {
    hide AllDigits, DigitsValue;
    if at == |s| {
      ZeroExponent();
    } else {
      assert s[at..][1..] == exponent;
    }
  }

  lemma ZeroExponent()
    ensures IsExponentText("0") && ExponentTextValue("0") == 0
  {
    assert SignOf("0") == "" && "0"[0..] == "0";
    assert DigitsValue("0") == 0 by {
      assert "0"[..0] == "";
    }
  }

  /** What the digit loop must answer for a mantissa. */
  ghost predicate DigitsScanned(mantissa: string, r: Option<(string, Option<nat>)>) {
    var dot := Span(mantissa, ".");
    var integer, fraction := mantissa[..dot], if dot == |mantissa| then "" else mantissa[dot + 1..];
    && (r.Some? <==> AllDigits(integer) && AllDigits(fraction) && integer + fraction != "")
    && (r.Some? ==> r.value == (integer + fraction, if dot == |mantissa| then None else Some(dot)))
  }

  function Fractional(digits: string, point: Option<nat>): nat {
    if point.Some? && point.value <= |digits| then |digits| - point.value else 0
  }

  /** The mantissa part of a scanned literal, against what the digit loop answered. */
  lemma MantissaPart(sign: string, s: string, scanned: Option<(string, Option<nat>)>)
    requires DigitsScanned(s[..Span(s, "eE")], scanned)
    ensures var l := ScanUnsigned(sign, s);
            && (scanned.Some? <==>
                  AllDigits(l.integer) && AllDigits(FractionDigits(l)) && l.integer + FractionDigits(l) != "")
            && (scanned.Some? ==>
                  && l.integer + FractionDigits(l) == scanned.value.0
                  && |FractionDigits(l)| == Fractional(scanned.value.0, scanned.value.1))
  {
  }

  lemma AllDigitsConcat(a: string, b: string)
    requires AllDigits(a) && AllDigits(b)
    ensures AllDigits(a + b)
  {
  }

  /** How a literal relates to the pieces a text was cut into. */
  ghost predicate MadeOf(literal: Option<Literal>, negative: bool, exponent: string,
                         scanned: Option<(string, Option<nat>)>)
  {
    && (literal.Some? <==> IsExponentText(exponent) && scanned.Some?)
    && (literal.Some? ==>
          var l, digits := literal.value, scanned.value.0;
          && WellFormed(l)
          && l.integer + FractionDigits(l) == digits && AllDigits(digits)
          && |FractionDigits(l)| == Fractional(digits, scanned.value.1) <= |digits|
          && (l.sign == "-" <==> negative)
          && ExponentValue(l) == ExponentTextValue(exponent))
  }

  lemma LiteralParts(sign: string, s: string, at: nat, exponent: string, scanned: Option<(string, Option<nat>)>)
    requires IsSign(sign) && at == Span(s, "eE")
    requires exponent == if at == |s| then "0" else s[at + 1..]
    requires DigitsScanned(s[..at], scanned)
    ensures var l := ScanUnsigned(sign, s);
            MadeOf(if WellFormed(l) then Some(l) else None, sign == "-", exponent, scanned)
  {
    ExponentPart(s, at, exponent);
    MantissaPart(sign, s, scanned);
    var l := ScanUnsigned(sign, s);
    if scanned.Some? {
      AllDigitsConcat(l.integer, FractionDigits(l));
    }
  }

  lemma LiteralMeaning(l: Literal, negative: bool, digits: string, fractional: nat, e: int)
    requires WellFormed(l) && l.integer + FractionDigits(l) == digits && AllDigits(digits)
    requires fractional == |FractionDigits(l)| && (l.sign == "-" <==> negative) && ExponentValue(l) == e
    ensures Denotes(l) == Scaled(Signed(negative, DigitsValue(digits)), e - fractional)
    ensures SourceScale(l) == fractional - e
    ensures ExponentOverflow(l) <==> DigitsValue(digits) != 0 && !InI64(e)
  {
  }

  /**
   `number.rs: numeric`. Nothing for a text outside the grammar; otherwise what reading its literal
   gives, or an error when that is nothing.
   */
  method Numeric(text: string) returns (r: Option<Result<Decimal, NumberError>>)
    requires |text| < I64_BOUND
    ensures r.None? <==> Scan(text).None?
    ensures r.Some? ==>
              var l := Scan(text).value;
              && (r.value.Ok? <==> Reading(l).Some?)
              && (r.value.Ok? ==> r.value.value == Reading(l).value)
  {
    var sign := SignOf(text);
    var unsigned := text[|sign|..];
    var at := Span(unsigned, "eE");
    var exponent := if at == |unsigned| then "0" else unsigned[at + 1..];
    var scanned := ScanDigits(unsigned[..at]);
    LiteralParts(sign, unsigned, at, exponent, scanned);
    r := Finish(Scan(text), sign == "-", exponent, scanned);
  }

  method Finish(ghost literal: Option<Literal>, negative: bool, exponent: string,
                scanned: Option<(string, Option<nat>)>)
    returns (r: Option<Result<Decimal, NumberError>>)
    requires MadeOf(literal, negative, exponent, scanned)
    requires scanned.Some? ==> |scanned.value.0| < I64_BOUND
    ensures r.None? <==> literal.None?
    ensures r.Some? ==>
              var l := literal.value;
              && (r.value.Ok? <==> Reading(l).Some?)
              && (r.value.Ok? ==> r.value.value == Reading(l).value)
  {
    if !IsExponentText(exponent) || scanned.None? {
      return None;
    }
    var (digits, point) := scanned.value;
    LiteralMeaning(literal.value, negative, digits, Fractional(digits, point), ExponentTextValue(exponent));
    var converted := Convert(negative, digits, Fractional(digits, point), exponent);
    return Some(converted);
  }

  /** `number.rs: parse`. */
  method Parse(text: string) returns (r: Result<Decimal, NumberError>)
    requires |text| < I64_BOUND
    ensures r.Ok? <==>
              Scan(text).Some? && Representable(Denotes(Scan(text).value)) && !ExponentOverflow(Scan(text).value)
    ensures r.Ok? ==> Value(r.value) == Denotes(Scan(text).value)
  {
    var n := Numeric(text);
    r := match n
      case Some(converted) => converted
      case None => Err(ExpectedFiniteDecimal);
  }
}

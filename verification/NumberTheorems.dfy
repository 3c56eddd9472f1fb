/** What the parser's contract amounts to, over every text and every decimal. */
module NumberTheorems {
  import opened Wrappers
  import opened PowersOfTen
  import opened DecimalDigits
  import opened Decimals
  import opened NumberGrammar
  import opened NumberParser

  /** A text is refused as no number exactly when no well-formed literal is written that way. */
  lemma GrammarDecided(text: string)
    ensures Scan(text).None? <==> forall l | WellFormed(l) :: Text(l) != text
  {
    if Scan(text).Some? {
      ScanSound(text);
    } else {
      forall l | WellFormed(l)
        ensures Text(l) != text
      {
        ScanText(l);
      }
    }
  }

  /** A numeral that is not zero, through its coefficient. */
  lemma NonzeroNumeral(l: Literal, digits: string) returns (coefficient: string, trailing: nat)
    requires WellFormed(l) && AllDigits(digits) && digits == l.integer + FractionDigits(l)
    requires DigitsValue(digits) != 0
    ensures coefficient != "" && AllDigits(coefficient) && trailing <= |digits|
    ensures var c := Signed(l.sign == "-", DigitsValue(coefficient));
            && c % 10 != 0 && Magnitude(c) >= Pow10(|coefficient| - 1)
            && Denotes(l) == Scaled(c, ExponentValue(l) - |FractionDigits(l)| + trailing)
  {
    CoefficientFacts(digits);
    coefficient := Coefficient(digits);
    trailing := |Significant(digits)| - |coefficient|;
    SignedFacts(l.sign == "-", DigitsValue(coefficient));
    ThroughCoefficient(l.sign == "-", DigitsValue(digits), DigitsValue(coefficient), trailing,
                       ExponentValue(l) - |FractionDigits(l)|);
  }

  /** An exponent outside `i64` takes nineteen digits to write. */
  lemma OverflowingExponentIsLong(l: Literal)
    requires WellFormed(l) && !InI64(ExponentValue(l))
    ensures l.exponent.Some? && |l.exponent.value.digits| >= 19
  {
    var digits := l.exponent.value.digits;
    assert Pow10(9) == 1000000000;
    Pow10Sum(9, 9);
    DigitsValueUpper(digits);
    hide Pow10, DigitsValue;
    if |digits| <= 18 {
      Pow10Monotone(|digits|, 18);
    }
  }

  /** The bytes left for the digits when the exponent takes at least twenty. */
  lemma TextLength(l: Literal)
    requires WellFormed(l) && l.exponent.Some?
    ensures |Text(l)| >= |l.integer| + |FractionDigits(l)| + 1 + |l.exponent.value.digits|
    ensures FractionDigits(l) != "" ==>
              |Text(l)| >= |l.integer| + 1 + |FractionDigits(l)| + 1 + |l.exponent.value.digits|
  {
  }

  /** The digits a text has room for beside such an exponent cannot bring its power back. */
  lemma OverflowingPower(l: Literal, trailing: nat)
    requires WellFormed(l) && |Text(l)| <= I64_BOUND - 8 && !InI64(ExponentValue(l))
    requires trailing <= |l.integer| + |FractionDigits(l)|
    ensures var power := ExponentValue(l) - |FractionDigits(l)| + trailing;
            -power > MAX_SCALE || power >= MAX_DIGITS
  {
    OverflowingExponentIsLong(l);
    TextLength(l);
    hide Text, ExponentValue, FractionDigits;
    assert FractionDigits(l) == "" ==> |FractionDigits(l)| == 0;
  }

  /** Eight bytes short of the address space, the exponent refusal never loses a number. */
  lemma AddressableTextsAreComplete(l: Literal)
    requires WellFormed(l) && |Text(l)| <= I64_BOUND - 8
    ensures Reading(l).Some? <==> Representable(Denotes(l))
  {
    if ExponentOverflow(l) {
      var digits := l.integer + FractionDigits(l);
      AllDigitsConcat(l.integer, FractionDigits(l));
      var coefficient, trailing := NonzeroNumeral(l, digits);
      OverflowingPower(l, trailing);
      hide Text, FractionDigits, Denotes, Representable, Pow10, DigitsValue, AllDigits, Scaled, ExponentValue, Fraction;
      OutOfWindow(Signed(l.sign == "-", DigitsValue(coefficient)), |coefficient|,
                  ExponentValue(l) - |FractionDigits(l)| + trailing);
    }
  }

  /** The literal `.00…01e` followed by the exponent: a one after `zeros` zeros. */
  function LongLiteral(zeros: nat, exponent: nat): (l: Literal)
    ensures WellFormed(l)
    ensures |Text(l)| == zeros + |Digits(exponent)| + 3
  {
    Literal("", "", Some(Zeros(zeros) + "1"), Some(Exponent('e', "", Digits(exponent))))
  }

  lemma LongLiteralDenotes(zeros: nat, exponent: nat)
    ensures Denotes(LongLiteral(zeros, exponent)) == Scaled(1, exponent - zeros - 1)
    ensures ExponentOverflow(LongLiteral(zeros, exponent)) <==> exponent >= I64_BOUND
  {
    assert DigitsValue("1") == 1 by {
      assert "1"[..0] == "";
    }
    PrependZeros(zeros, "1");
    var fraction := Zeros(zeros) + "1";
    assert "" + fraction == fraction;
  }

  lemma PowerFits(power: nat)
    requires power <= MAX_SCALE
    ensures Pow10(power) < MANTISSA_BOUND
  {
    Pow10Monotone(power, MAX_SCALE);
    assert Pow10(10) == 10000000000;
    Pow10Sum(10, 10);
    assert Pow10(8) == 100000000;
    Pow10Sum(20, 8);
  }

  /** The refused numerals that denote a decimal: a fraction long enough to bring the exponent back. */
  lemma LongTextsAreRefused(zeros: nat, exponent: nat)
    requires exponent >= I64_BOUND && 0 <= exponent - zeros - 1 <= MAX_SCALE
    ensures var l := LongLiteral(zeros, exponent);
            Representable(Denotes(l)) && Reading(l).None?
  {
    hide LongLiteral, Denotes, ExponentOverflow, Representable, Text, Reading;
    LongLiteralDenotes(zeros, exponent);
    PowerRepresentable(exponent - zeros - 1);
    OverflowIsRefused(LongLiteral(zeros, exponent));
  }

  lemma PowerRepresentable(power: nat)
    requires power <= MAX_SCALE
    ensures Representable(Scaled(1, power))
  {
    hide Pow10, Fraction, Scaled;
    StoredForm(1, power, power, 0);
    PowerFits(power);
  }

  lemma OverflowIsRefused(l: Literal)
    requires WellFormed(l) && ExponentOverflow(l)
    ensures Reading(l).None?
  {
  }

  /** One of each length beyond the bound, up to `limit - 1` for `limit` = 2^63, the longest a string can be. */
  lemma LongTextOfLength(n: nat, limit: nat)
    requires limit == I64_BOUND && limit - 7 <= n < limit
    ensures var l := LongLiteral(n - 22, limit);
            |Text(l)| == n && Representable(Denotes(l)) && Reading(l).None?
  {
    hide LongLiteral, Denotes, Representable, Text, Reading, Digits;
    NineteenDigits(limit);
    LongTextsAreRefused(n - 22, limit);
  }

  lemma NineteenDigits(limit: nat)
    requires limit == I64_BOUND
    ensures |Digits(limit)| == 19
  {
    assert Pow10(9) == 1000000000;
    Pow10Sum(9, 9);
    Pow10Sum(18, 1);
    hide Digits;
    DigitsLength(limit, 19);
  }

  /** Every representable numeral of this length is read. */
  ghost predicate CompleteAtLength(n: nat) {
    forall l | WellFormed(l) && |Text(l)| == n :: Reading(l).Some? <==> Representable(Denotes(l))
  }

  /** No numeral is lost at a length exactly when the length stays eight bytes short of 2^63. */
  lemma LengthDecidesCompleteness(n: nat)
    requires n < I64_BOUND
    ensures CompleteAtLength(n) <==> n <= I64_BOUND - 8
  {
    hide Text, Denotes, Representable, Reading;
    if n <= I64_BOUND - 8 {
      forall l | WellFormed(l) && |Text(l)| == n
        ensures Reading(l).Some? <==> Representable(Denotes(l))
      {
        AddressableTextsAreComplete(l);
      }
    } else {
      LongTextOfLength(n, I64_BOUND);
    }
  }

  /** Exactly `width` digits for a number that fits them. */
  function Padded(n: nat, width: nat): (s: string)
    requires width > 0 && n < Pow10(width)
    ensures AllDigits(s) && |s| == width && DigitsValue(s) == n
  {
    DigitsLength(n, width);
    PrependZeros(width - |Digits(n)|, Digits(n));
    Zeros(width - |Digits(n)|) + Digits(n)
  }

  lemma DivMod(m: nat, p: nat)
    requires p > 0
    ensures 0 <= m / p && 0 <= m % p < p
    ensures m == (m / p) * p + m % p
  {
  }

  /** How `Display` writes a decimal: fixed point, with as many fraction digits as its scale. */
  function Display(d: Decimal): (l: Literal)
    ensures WellFormed(l)
  {
    var m := Magnitude(d.mantissa);
    var sign := if d.mantissa < 0 then "-" else "";
    DivMod(m, Pow10(d.scale));
    if d.scale == 0 then Literal(sign, Digits(m), None, None)
    else Literal(sign, Digits(m / Pow10(d.scale)), Some(Padded(m % Pow10(d.scale), d.scale)), None)
  }

  lemma DisplayDenotes(d: Decimal)
    ensures Denotes(Display(d)) == Value(d)
    ensures SourceScale(Display(d)) == d.scale && !ExponentOverflow(Display(d))
  {
    var l := Display(d);
    DisplayedDigits(d);
    hide Display, Pow10, Fraction, DigitsValue, AllDigits;
    var scale: int := d.scale;
    assert Denotes(l) == Scaled(d.mantissa, -scale);
    if d.scale == 0 {
      PlainInteger(d.mantissa);
    }
  }

  /** The digits of the two sides of the point, read as one number, are the mantissa. */
  lemma DisplayedDigits(d: Decimal)
    ensures var l := Display(d);
            && l.exponent.None? && |FractionDigits(l)| == d.scale
            && AllDigits(l.integer + FractionDigits(l))
            && SignedValue(l.sign, l.integer + FractionDigits(l)) == d.mantissa
  {
    var l, m := Display(d), Magnitude(d.mantissa);
    if d.scale == 0 {
      assert l.integer + "" == l.integer;
    } else {
      DivMod(m, Pow10(d.scale));
      DigitsValueConcat(l.integer, l.fraction.value);
    }
  }

  lemma PlainInteger(m: int)
    ensures Scaled(m, 0) == Fraction(m, 0)
  {
    assert Pow10(0) == 1;
    QuotientUnique(m as real, 1.0, m as real);
  }

  /** Scaling the shortest form of a decimal up to its own scale gives the decimal itself. */
  lemma RescaleRestores(shortest: Decimal, d: Decimal)
    requires Canonical(shortest) && Value(shortest) == Value(d)
    ensures shortest.scale <= d.scale && RescaleUp(shortest, d.scale) == d
  {
    hide Pow10, Fraction, RescaleUp;
    FractionEqual(shortest.mantissa, shortest.scale, d.mantissa, d.scale);
    if d.scale < shortest.scale {
      CoefficientOfSmallerScale(d.mantissa, d.scale, shortest.mantissa, shortest.scale);
    }
    var r := RescaleUp(shortest, d.scale);
    FractionEqual(d.mantissa, d.scale, r.mantissa, r.scale);
    CoefficientOfLargerScale(d.mantissa, d.scale, r.mantissa, r.scale);
    if r.scale < d.scale {
      FractionStep(r.mantissa, r.scale);
      FractionEqual(d.mantissa, d.scale, 10 * r.mantissa, r.scale + 1);
      CoefficientOfLargerScale(d.mantissa, d.scale, 10 * r.mantissa, r.scale + 1);
    }
    SameDenominator(d.mantissa, r.mantissa, d.scale);
  }

  /** Every decimal, written as the wire writes it, reads back as itself, scale included. */
  lemma DisplayRoundTrip(d: Decimal)
    ensures var text := Text(Display(d));
            Scan(text) == Some(Display(d)) && Reading(Scan(text).value) == Some(d)
  {
    hide *;
    ScanText(Display(d));
    DisplayDenotes(d);
    ReadsAs(Display(d), d);
  }

  lemma ReadsAs(l: Literal, d: Decimal)
    requires WellFormed(l) && Denotes(l) == Value(d) && SourceScale(l) == d.scale && !ExponentOverflow(l)
    ensures Reading(l) == Some(d)
  {
    hide Pow10, Fraction, DigitsValue, AllDigits, Denotes, SourceScale, ExponentOverflow, RescaleUp, WellFormed;
    assert Representable(Value(d));
    RescaleRestores(Exact(Value(d)).value, d);
  }
}

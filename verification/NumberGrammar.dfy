/**
 The finite decimal literals of the wire: what is written, and the number it denotes. `Text` writes a
 literal down and `Scan` reads it back; the two are inverse on well-formed literals, so a text
 denotes at most one number.
 */
module NumberGrammar {
  import opened Wrappers
  import opened PowersOfTen
  import opened DecimalDigits

  datatype Exponent = Exponent(marker: char, sign: string, digits: string)

  datatype Literal = Literal(sign: string, integer: string, fraction: Option<string>, exponent: Option<Exponent>)

  predicate IsSign(s: string) {
    s == "" || s == "+" || s == "-"
  }

  predicate IsMarker(c: char) {
    c == 'e' || c == 'E'
  }

  function FractionDigits(l: Literal): string {
    if l.fraction.Some? then l.fraction.value else ""
  }

  predicate WellFormed(l: Literal) {
    && IsSign(l.sign)
    && AllDigits(l.integer) && AllDigits(FractionDigits(l))
    && l.integer + FractionDigits(l) != ""
    && (l.exponent.Some? ==>
          var e := l.exponent.value;
          IsMarker(e.marker) && IsSign(e.sign) && AllDigits(e.digits) && e.digits != "")
  }

  function MantissaText(l: Literal): string {
    l.integer + if l.fraction.Some? then "." + l.fraction.value else ""
  }

  function ExponentText(l: Literal): string {
    if l.exponent.Some? then [l.exponent.value.marker] + l.exponent.value.sign + l.exponent.value.digits else ""
  }

  /** How a literal is written. */
  function Text(l: Literal): string {
    l.sign + MantissaText(l) + ExponentText(l)
  }

  function SignedValue(sign: string, digits: string): int
    requires AllDigits(digits)
  {
    var n: int := DigitsValue(digits);
    if sign == "-" then -n else n
  }

  function ExponentValue(l: Literal): int
    requires WellFormed(l)
  {
    if l.exponent.Some? then SignedValue(l.exponent.value.sign, l.exponent.value.digits) else 0
  }

  /** The number a literal denotes. */
  ghost function Denotes(l: Literal): (x: real)
    requires WellFormed(l)
  {
    Scaled(SignedValue(l.sign, l.integer + FractionDigits(l)), ExponentValue(l) - |FractionDigits(l)|)
  }

  /** The length of the longest prefix without a character of `stops`. */
  function Span(s: string, stops: string): (n: nat)
    ensures n <= |s|
    ensures forall i | 0 <= i < n :: s[i] !in stops
    ensures n < |s| ==> s[n] in stops
  {
    if s == "" || s[0] in stops then 0 else 1 + Span(s[1..], stops)
  }

  lemma SpanConcat(a: string, b: string, stops: string)
    requires forall i | 0 <= i < |a| :: a[i] !in stops
    requires b == "" || b[0] in stops
    ensures Span(a + b, stops) == |a|
  {
    assert forall i | 0 <= i < |a| :: (a + b)[i] == a[i];
    assert b != "" ==> (a + b)[|a|] == b[0];
  }

  /** The leading sign, or nothing. */
  function SignOf(s: string): (sign: string)
    ensures IsSign(sign) && |sign| <= |s| && s[..|sign|] == sign
  {
    if s != "" && (s[0] == '+' || s[0] == '-') then s[..1] else ""
  }

  lemma SignOfConcat(sign: string, rest: string)
    requires IsSign(sign)
    requires rest != "" && rest[0] != '+' && rest[0] != '-'
    ensures SignOf(sign + rest) == sign && (sign + rest)[|sign|..] == rest
  {
    if sign != "" {
      assert (sign + rest)[0] == sign[0];
      assert (sign + rest)[..1] == sign;
    } else {
      assert sign + rest == rest;
    }
  }

  function ScanExponent(s: string): Option<Exponent> {
    if s == "" then None
    else Some(Exponent(s[0], SignOf(s[1..]), s[1..][|SignOf(s[1..])|..]))
  }

  function ScanUnsigned(sign: string, s: string): (l: Literal)
    ensures l.sign == sign
  {
    var mantissa, exponent := s[..Span(s, "eE")], s[Span(s, "eE")..];
    var dot := Span(mantissa, ".");
    Literal(sign, mantissa[..dot],
            if dot == |mantissa| then None else Some(mantissa[dot + 1..]),
            ScanExponent(exponent))
  }

  /** The literal a text spells, or nothing when it is outside the grammar. */
  function Scan(text: string): (r: Option<Literal>) {
    var sign := SignOf(text);
    var l := ScanUnsigned(sign, text[|sign|..]);
    if WellFormed(l) then Some(l) else None
  }

  lemma ScanUnsignedText(sign: string, s: string)
    ensures MantissaText(ScanUnsigned(sign, s)) + ExponentText(ScanUnsigned(sign, s)) == s
  {
    var n := Span(s, "eE");
    MantissaOfScan(sign, s);
    ExponentOfScan(sign, s);
    hide ScanUnsigned, MantissaText, ExponentText, Span;
    assert s == s[..n] + s[n..];
  }

  lemma MantissaOfScan(sign: string, s: string)
    ensures MantissaText(ScanUnsigned(sign, s)) == s[..Span(s, "eE")]
  {
    hide Span, SignOf, ScanExponent;
    var mantissa := s[..Span(s, "eE")];
    MantissaPieces(mantissa, Span(mantissa, "."));
  }

  lemma MantissaPieces(mantissa: string, dot: nat)
    requires dot <= |mantissa| && (dot < |mantissa| ==> mantissa[dot] in ".")
    ensures mantissa[..dot] + (if dot == |mantissa| then "" else "." + mantissa[dot + 1..]) == mantissa
  {
    if dot < |mantissa| {
      assert "." + mantissa[dot + 1..] == mantissa[dot..];
      assert mantissa[..dot] + mantissa[dot..] == mantissa;
    }
  }

  lemma ExponentOfScan(sign: string, s: string)
    ensures ExponentText(ScanUnsigned(sign, s)) == s[Span(s, "eE")..]
  {
    hide Span, SignOf;
    var exponent := s[Span(s, "eE")..];
    if exponent != "" {
      ExponentPieces(exponent);
    }
  }

  lemma ExponentPieces(exponent: string)
    requires exponent != ""
    ensures ScanExponent(exponent).Some?
    ensures var e := ScanExponent(exponent).value; [e.marker] + e.sign + e.digits == exponent
  {
    hide SignOf;
    var tail := exponent[1..];
    var sign := SignOf(tail);
    assert [exponent[0]] + sign + tail[|sign|..] == [exponent[0]] + (sign + tail[|sign|..]);
    assert tail[..|sign|] + tail[|sign|..] == tail;
    assert exponent == [exponent[0]] + tail;
  }

  /** Reading is sound: what was scanned is well formed and spells the text. */
  lemma ScanSound(text: string)
    requires Scan(text).Some?
    ensures WellFormed(Scan(text).value) && Text(Scan(text).value) == text
  {
    hide ScanUnsigned, MantissaText, ExponentText, WellFormed, SignOf;
    var sign := SignOf(text);
    var rest := text[|sign|..];
    ScanUnsignedText(sign, rest);
    assert text == sign + rest;
    var l := ScanUnsigned(sign, rest);
    assert sign + MantissaText(l) + ExponentText(l) == sign + (MantissaText(l) + ExponentText(l));
  }

  lemma ScanExponentText(l: Literal)
    requires WellFormed(l)
    ensures ScanExponent(ExponentText(l)) == l.exponent
  {
    if l.exponent.Some? {
      var e := l.exponent.value;
      SignOfConcat(e.sign, e.digits);
      assert ExponentText(l)[1..] == e.sign + e.digits;
    }
  }

  lemma MantissaHasNoMarker(l: Literal)
    requires WellFormed(l)
    ensures forall i | 0 <= i < |MantissaText(l)| :: MantissaText(l)[i] !in "eE"
    ensures MantissaText(l) != "" && MantissaText(l)[0] != '+' && MantissaText(l)[0] != '-'
  {
    var m := MantissaText(l);
    forall i | 0 <= i < |m|
      ensures IsDigit(m[i]) || m[i] == '.'
    {
      if i > |l.integer| {
        assert m[i] == l.fraction.value[i - |l.integer| - 1];
      }
    }
  }

  lemma ScanUnsignedOf(l: Literal)
    requires WellFormed(l)
    ensures ScanUnsigned(l.sign, MantissaText(l) + ExponentText(l)) == l
  {
    var m, e := MantissaText(l), ExponentText(l);
    MantissaHasNoMarker(l);
    assert e != "" ==> e[0] in "eE";
    ScanExponentText(l);
    ScanMantissaText(l);
    hide WellFormed, MantissaText, ExponentText, ScanExponent, Span;
    SpanConcat(m, e, "eE");
    assert (m + e)[..|m|] == m && (m + e)[|m|..] == e;
  }

  lemma ScanMantissaText(l: Literal)
    requires WellFormed(l)
    ensures var m, dot := MantissaText(l), Span(MantissaText(l), ".");
            && m[..dot] == l.integer
            && l.fraction == if dot == |m| then None else Some(m[dot + 1..])
  {
    hide Span;
    var m := MantissaText(l);
    if l.fraction.Some? {
      SpanConcat(l.integer, "." + l.fraction.value, ".");
      assert m[..|l.integer|] == l.integer;
      assert m[|l.integer| + 1..] == l.fraction.value;
    } else {
      assert m == l.integer + "";
      SpanConcat(l.integer, "", ".");
      assert m[..|l.integer|] == l.integer;
    }
  }

  /** Reading is complete: every well-formed literal is read back from its spelling. */
  lemma ScanText(l: Literal)
    requires WellFormed(l)
    ensures Scan(Text(l)) == Some(l)
  {
    var rest := MantissaText(l) + ExponentText(l);
    MantissaHasNoMarker(l);
    assert rest[0] == MantissaText(l)[0];
    SignOfConcat(l.sign, rest);
    assert Text(l) == l.sign + rest;
    ScanUnsignedOf(l);
  }
}

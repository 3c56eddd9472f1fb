/** What the derived amounts of a line item guarantee, over every quantity, price, rate and rounding. */
module LineItemTheorems {
  import opened Wrappers
  import opened PowersOfTen
  import opened Decimals
  import opened LineItems
  import NumberGrammar
  import NumberParser
  import NumberTheorems
  import DecimalDigits
  import Texts

  ghost function Abs(x: real): real {
    if x < 0.0 then -x else x
  }

  /** A number with at most `places` decimals. */
  ghost predicate HasPlaces(x: real, places: nat) {
    exists k: int :: x == Fraction(k, places)
  }

  /** `h` units are as near to `u` as `k` units, and no nearer to zero when equally near. */
  ghost predicate AtLeastAsNear(u: real, h: int, k: int) {
    && Abs(u - h as real) <= Abs(u - k as real)
    && (Abs(u - h as real) == Abs(u - k as real) ==> Magnitude(k) <= Magnitude(h))
  }

  ghost predicate NearestUnit(u: real, h: int) {
    forall k: int :: AtLeastAsNear(u, h, k)
  }

  lemma NearestUnitHalfUp(u: real)
    requires u >= 0.0
    ensures NearestUnit(u, (u + 0.5).Floor) && Abs(u - (u + 0.5).Floor as real) <= 0.5
  {
    var h := (u + 0.5).Floor;
    assert h as real <= u + 0.5 < h as real + 1.0;
    forall k: int
      ensures AtLeastAsNear(u, h, k)
    {
      if k < h {
        assert k as real <= h as real - 1.0;
      } else if k > h {
        assert k as real >= h as real + 1.0;
      }
    }
  }

  lemma NearestUnitNegated(u: real, v: real, h: int)
    requires NearestUnit(u, h) && v == -u
    ensures NearestUnit(v, -h)
  {
    var g := -h;
    forall k: int
      ensures AtLeastAsNear(v, g, k)
    {
      assert AtLeastAsNear(u, h, -k);
      assert (-h) as real == -(h as real) && (-k) as real == -(k as real);
    }
  }

  /** Rounding answers the nearest unit, half away from zero, within half a unit of the number. */
  lemma RoundingIsNearest(x: real, places: nat) returns (h: int)
    ensures HalfAway(x, places) == Fraction(h, places)
    ensures NearestUnit(Times(x, Pow10(places) as real), h)
    ensures Abs(Times(x, Pow10(places) as real) - h as real) <= 0.5
  {
    hide Fraction, NearestUnit, Pow10, Times;
    var p := Pow10(places) as real;
    if x >= 0.0 {
      h := HalfUp(x, places);
      ProductSign(x, p);
      NearestUnitHalfUp(Times(x, p));
    } else {
      h := -HalfUp(-x, places);
      ProductSign(-x, p);
      NearestUnitHalfUp(Times(-x, p));
      NearestUnitNegated(Times(-x, p), Times(x, p), -h);
      SameDenominator(-h, -h, places);
    }
  }

  lemma ProductSign(x: real, p: real)
    requires x >= 0.0 && p > 0.0
    ensures Times(x, p) >= 0.0 && Times(-x, p) == -Times(x, p)
  {
  }

  /** A number that already has the places is kept: rounding twice is rounding once. */
  lemma RoundingKeepsRounded(k: int, places: nat)
    ensures HalfAway(Fraction(k, places), places) == Fraction(k, places)
  {
    HalfUpWhole(Magnitude(k), places, places);
    assert Magnitude(k) * Pow10(0) == Magnitude(k);
    HalfAwayOfFraction(k, places, places, Magnitude(k));
  }

  lemma RoundedNegation(rounding: Rounding, x: real)
    ensures Rounded(rounding, -x) == -Rounded(rounding, x)
  {
    if rounding.Scale? && x == 0.0 {
      RoundingKeepsRounded(0, rounding.places);
      SameDenominator(0, 0, rounding.places);
      assert Fraction(0, rounding.places) == 0.0;
    }
  }

  /** Negating the quantity, for a credit line, negates all three amounts and keeps every error. */
  lemma NegatedQuantity(quantity: real, price: real, rate: VatRate, rounding: Rounding)
    ensures match Calculation(quantity, price, rate, rounding)
            case Err(e) => Calculation(-quantity, price, rate, rounding) == Err(e)
            case Ok(a) => Calculation(-quantity, price, rate, rounding) == Ok(RealAmounts(-a.net, -a.vat, -a.gross))
  {
    hide Rounded, Representable, Percentage;
    assert Times(price, -quantity) == -Times(price, quantity);
    RepresentableNegation(Times(price, quantity));
    RoundedNegation(rounding, Times(price, quantity));
    var net := Rounded(rounding, Times(price, quantity));
    match Percentage(rate)
    case Err(_) =>
    case Ok(None) =>
      RepresentableNegation(net);
    case Ok(Some(percent)) =>
      var x := Times(net, percent);
      assert Times(-net, percent) == -x;
      assert Hundredth(-x) == -Hundredth(x);
      RepresentableNegation(x);
      RepresentableNegation(Hundredth(x));
      RoundedNegation(rounding, Hundredth(x));
      var vat := Rounded(rounding, Hundredth(x));
      assert -net + -vat == -(net + vat);
      RepresentableNegation(net + vat);
  }

  lemma PlacesAdd(x: real, y: real, places: nat)
    requires HasPlaces(x, places) && HasPlaces(y, places)
    ensures HasPlaces(x + y, places)
  {
    var k: int :| x == Fraction(k, places);
    var j: int :| y == Fraction(j, places);
    SameDenominator(k, j, places);
    assert x + y == Fraction(k + j, places);
  }

  /** Gross is net plus VAT, and rounding to `places` leaves no more decimals in any of the three. */
  lemma RoundedAmountsReconcile(quantity: real, price: real, rate: VatRate, places: nat)
    ensures match Calculation(quantity, price, rate, Scale(places))
            case Err(_) => true
            case Ok(a) =>
              && a.gross == a.net + a.vat
              && HasPlaces(a.net, places) && HasPlaces(a.vat, places) && HasPlaces(a.gross, places)
  {
    hide HalfAway, Representable, Percentage, Times, Hundredth;
    match Calculation(quantity, price, rate, Scale(places))
    case Err(_) =>
    case Ok(a) =>
      var n := RoundingIsNearest(Times(price, quantity), places);
      var percentage := Percentage(rate);
      if percentage == Ok(None) {
        assert Fraction(0, places) == 0.0;
      } else {
        var _ := RoundingIsNearest(Hundredth(Times(a.net, percentage.value.value)), places);
      }
      PlacesAdd(a.net, a.vat, places);
  }

  lemma WithPercent(price: real, quantity: real, percent: real)
    ensures Times(price, quantity) + Hundredth(Times(Times(price, quantity), percent))
            == price * quantity * (1.0 + percent / 100.0)
  {
    var net := price * quantity;
    assert net * (1.0 + percent / 100.0) == net + net * (percent / 100.0);
  }

  /** Without rounding the amounts are the exact ones. */
  lemma UnroundedAmountsAreExact(quantity: real, price: real, rate: VatRate)
    ensures match Calculation(quantity, price, rate, Unrounded)
            case Err(_) => true
            case Ok(a) =>
              var percent := match Percentage(rate) case Ok(Some(x)) => x case _ => 0.0;
              a.net == price * quantity && a.gross == price * quantity * (1.0 + percent / 100.0)
  {
    hide Representable, Percentage;
    match Percentage(rate)
    case Ok(Some(percent)) =>
      WithPercent(price, quantity, percent);
    case _ =>
  }

  // ---------------------------------------------------------------- the amounts at a scale

  /** `x` is the nearest number of `places` decimals to `y`, ties away from zero, within half a unit: `h` units. */
  ghost predicate IsNearest(x: real, y: real, places: nat, h: int) {
    && x == Fraction(h, places)
    && NearestUnit(Times(y, Pow10(places) as real), h) && Abs(Times(y, Pow10(places) as real) - h as real) <= 0.5
  }

  lemma HalfAwayIsNearest(y: real, places: nat) returns (h: int)
    ensures IsNearest(HalfAway(y, places), y, places, h)
  {
    h := RoundingIsNearest(y, places);
    hide HalfAway, Fraction, NearestUnit, Pow10, Abs, Times;
  }

  /**
   The amounts of every line that is calculated at a scale: net is the nearest number to price times quantity, VAT
   the nearest to the percentage of that net, not of the product, and nothing without one; gross is their sum.
   */
  lemma AmountsAtScale(quantity: real, price: real, rate: VatRate, places: nat) returns (n: int, v: int)
    ensures match Calculation(quantity, price, rate, Scale(places))
            case Err(_) => true
            case Ok(a) =>
              && IsNearest(a.net, Times(price, quantity), places, n)
              && a.gross == a.net + a.vat
              && match Percentage(rate)
                 case Err(_) => false
                 case Ok(None) => a.vat == 0.0
                 case Ok(Some(percent)) => IsNearest(a.vat, Hundredth(Times(a.net, percent)), places, v)
  {
    hide HalfAway, Representable, Percentage, IsNearest, Times, Hundredth;
    n := HalfAwayIsNearest(Times(price, quantity), places);
    v := 0;
    match Calculation(quantity, price, rate, Scale(places))
    case Err(_) =>
    case Ok(a) =>
      match Percentage(rate)
      case Ok(Some(percent)) =>
        v := HalfAwayIsNearest(Hundredth(Times(a.net, percent)), places);
      case _ =>
  }

  /** Each error is the first step whose exact intermediate is no decimal. */
  lemma ErrorsAreFirstSteps(quantity: real, price: real, rate: VatRate, rounding: Rounding)
    ensures var product := Times(price, quantity);
            var net := Rounded(rounding, product);
            var c := Calculation(quantity, price, rate, rounding);
            var percent := Percentage(rate);
            && (c == Err(NetOverflow) <==> !Representable(product))
            && (c == Err(UnrepresentableVatRate) <==> Representable(product) && percent.Err?)
            && (c == Err(VatOverflow) <==>
                  && Representable(product) && percent.Ok? && percent.value.Some?
                  && (!Representable(Times(net, percent.value.value))
                      || !Representable(Hundredth(Times(net, percent.value.value)))))
            && (c == Err(GrossOverflow) <==>
                  && Representable(product) && percent.Ok? && c != Err(VatOverflow)
                  && var vat := if percent.value.None? then 0.0
                                else Rounded(rounding, Hundredth(Times(net, percent.value.value)));
                     !Representable(net + vat))
  {
    OnlyRateErrors(rate);
    hide Rounded, Representable, Percentage, Times, Hundredth;
    var net := Rounded(rounding, Times(price, quantity));
    assert net + 0.0 == net;
  }

  lemma OnlyRateErrors(rate: VatRate)
    ensures Percentage(rate).Err? ==> Percentage(rate) == Err(UnrepresentableVatRate)
  {
  }

  // ---------------------------------------------------------------- the percentage of an open token

  predicate IsNumeralChar(c: char) {
    DecimalDigits.IsDigit(c) || c == '+' || c == '-' || c == '.' || c == 'e' || c == 'E'
  }

  lemma NumeralChars(l: NumberGrammar.Literal)
    requires NumberGrammar.WellFormed(l)
    ensures var text := NumberGrammar.Text(l);
            text != "" && forall i | 0 <= i < |text| :: IsNumeralChar(text[i])
  {
    assert forall i | 0 <= i < |l.integer| :: DecimalDigits.IsDigit(l.integer[i]);
  }

  /** A token that spells a numeral, with spaces around it, is that percentage, or an error when no decimal is. */
  lemma PercentageOfNumeral(before: string, l: NumberGrammar.Literal, after: string)
    requires forall i | 0 <= i < |before| :: Texts.IsXmlSpace(before[i])
    requires forall i | 0 <= i < |after| :: Texts.IsXmlSpace(after[i])
    requires NumberGrammar.WellFormed(l)
    ensures Percentage(Other(before + NumberGrammar.Text(l) + after))
            == if NumberParser.Reading(l).Some? then Ok(Some(NumberGrammar.Denotes(l))) else Err(UnrepresentableVatRate)
  {
    hide *;
    var text := NumberGrammar.Text(l);
    NumeralEnds(l);
    NumberGrammar.ScanText(l);
    Texts.TrimSurrounded(before, text, after, Texts.IsXmlSpace);
    PercentageByScan(before + text + after, l);
  }

  lemma NumeralEnds(l: NumberGrammar.Literal)
    requires NumberGrammar.WellFormed(l)
    ensures var text := NumberGrammar.Text(l);
            text != "" && !Texts.IsXmlSpace(text[0]) && !Texts.IsXmlSpace(text[|text| - 1])
  {
    var text := NumberGrammar.Text(l);
    NumeralChars(l);
    hide NumberGrammar.Text, NumberGrammar.WellFormed;
    assert IsNumeralChar(text[0]) && IsNumeralChar(text[|text| - 1]);
  }

  lemma PercentageByScan(token: string, l: NumberGrammar.Literal)
    ensures NumberGrammar.WellFormed(l) && NumberGrammar.Scan(Texts.Trim(token, Texts.IsXmlSpace)) == Some(l) ==>
              Percentage(Other(token))
              == if NumberParser.Reading(l).Some? then Ok(Some(NumberGrammar.Denotes(l)))
                 else Err(UnrepresentableVatRate)
  {
    hide NumberGrammar.Text, NumberGrammar.Scan, NumberParser.Reading, NumberGrammar.Denotes, Texts.Trim;
    hide NumberGrammar.WellFormed;
  }

  /** Any other token has no percentage; neither has a code, and a number is its own. */
  lemma PercentageOfOthers(token: string, d: Decimal)
    ensures Percentage(Other(token)) == Ok(None) <==>
            forall l | NumberGrammar.WellFormed(l) :: NumberGrammar.Text(l) != Texts.Trim(token, Texts.IsXmlSpace)
    ensures Percentage(SpecialCode) == Ok(None) && Percentage(Percent(d)) == Ok(Some(Value(d)))
  {
    OtherByScan(token);
    hide NumberGrammar.Text, NumberGrammar.Scan, NumberParser.Reading, NumberGrammar.Denotes, Texts.Trim;
    hide NumberGrammar.WellFormed;
    NumberTheorems.GrammarDecided(Texts.Trim(token, Texts.IsXmlSpace));
  }

  lemma OtherByScan(token: string)
    ensures Percentage(Other(token)) == Ok(None) <==> NumberGrammar.Scan(Texts.Trim(token, Texts.IsXmlSpace)).None?
  {
    hide NumberGrammar.Text, NumberGrammar.Scan, NumberParser.Reading, NumberGrammar.Denotes, Texts.Trim;
    hide NumberGrammar.WellFormed, Texts.IsXmlSpace;
    ScannedIsWellFormed(Texts.Trim(token, Texts.IsXmlSpace));
  }

  lemma ScannedIsWellFormed(text: string)
    ensures NumberGrammar.Scan(text).Some? ==> NumberGrammar.WellFormed(NumberGrammar.Scan(text).value)
  {
    hide NumberGrammar.WellFormed;
  }
}

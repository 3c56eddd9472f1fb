/** Decimal digit strings: the numbers they spell and the spelling of a number. */
module DecimalDigits {
  import opened PowersOfTen

  predicate IsDigit(c: char) {
    '0' <= c <= '9'
  }

  predicate AllDigits(s: string) {
    forall i | 0 <= i < |s| :: IsDigit(s[i])
  }

  /** The number a digit string spells; leading zeros are allowed and the empty string is zero. */
  function DigitsValue(s: string): (n: nat)
    requires AllDigits(s)
  {
    if s == "" then 0 else 10 * DigitsValue(s[..|s| - 1]) + (s[|s| - 1] - '0') as nat
  }

  lemma {:induction false} DigitsValueConcat(a: string, b: string)
    requires AllDigits(a) && AllDigits(b)
    ensures AllDigits(a + b)
    ensures DigitsValue(a + b) == DigitsValue(a) * Pow10(|b|) + DigitsValue(b)
  {
    if b == "" {
      assert a + b == a;
    } else {
      var front, last := b[..|b| - 1], b[|b| - 1];
      DigitsValueConcat(a, front);
      assert (a + b)[..|a + b| - 1] == a + front;
      TenTimes(DigitsValue(a), Pow10(|front|), DigitsValue(front));
    }
  }

  lemma TenTimes(x: int, p: int, y: int)
    ensures 10 * (x * p + y) == x * (10 * p) + 10 * y
  {
  }

  lemma {:induction false} DigitsValueUpper(s: string)
    requires AllDigits(s)
    ensures DigitsValue(s) < Pow10(|s|)
  {
    if s == "" {
    } else {
      DigitsValueUpper(s[..|s| - 1]);
    }
  }

  /** A first digit other than zero bounds the value from below. */
  lemma {:induction false} DigitsValueLower(s: string)
    requires AllDigits(s) && s != "" && s[0] != '0'
    ensures DigitsValue(s) >= Pow10(|s| - 1)
  {
    if |s| == 1 {
      assert s[..|s| - 1] == "";
    } else {
      DigitsValueLower(s[..|s| - 1]);
    }
  }

  function Zeros(n: nat): (s: string)
    ensures |s| == n && AllDigits(s)
    ensures forall i | 0 <= i < n :: s[i] == '0'
  {
    seq(n, _ => '0')
  }

  lemma {:induction false} ZerosValue(n: nat)
    ensures DigitsValue(Zeros(n)) == 0
  {
    if n == 0 {
    } else {
      ZerosValue(n - 1);
      assert Zeros(n)[..n - 1] == Zeros(n - 1);
    }
  }

  lemma AppendZeros(s: string, n: nat)
    requires AllDigits(s)
    ensures AllDigits(s + Zeros(n)) && DigitsValue(s + Zeros(n)) == DigitsValue(s) * Pow10(n)
  {
    DigitsValueConcat(s, Zeros(n));
    ZerosValue(n);
  }

  lemma PrependZeros(n: nat, s: string)
    requires AllDigits(s)
    ensures AllDigits(Zeros(n) + s) && DigitsValue(Zeros(n) + s) == DigitsValue(s)
  {
    DigitsValueConcat(Zeros(n), s);
    ZerosValue(n);
  }

  /** The shortest spelling of a number, as the standard formatter writes it. */
  function Digits(n: nat): (s: string)
    ensures AllDigits(s) && s != ""
    ensures DigitsValue(s) == n
    ensures s[0] == '0' ==> n == 0
  {
    if n < 10 then
      assert DigitsValue([n as char + '0']) == n by {
        assert [n as char + '0'][..0] == "";
      }
      [n as char + '0']
    else
      var front := Digits(n / 10);
      var s := front + [(n % 10) as char + '0'];
      assert s[..|s| - 1] == front;
      s
  }

  /** The number of digits written is the least that can hold the number. */
  lemma DigitsLength(n: nat, k: nat)
    requires n < Pow10(k) && k > 0
    ensures |Digits(n)| <= k
    ensures n >= Pow10(k - 1) ==> |Digits(n)| == k
  {
    var s := Digits(n);
    DigitsValueUpper(s);
    if |s| < k {
      Pow10Monotone(|s|, k - 1);
    }
    if |s| > 1 {
      assert |Digits(0)| == 1;
      DigitsValueLower(s);
      if |s| > k {
        Pow10Monotone(k, |s| - 1);
      }
    }
  }
}

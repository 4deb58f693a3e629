/**
 The scalar values found in the controller's decoded JSON records, and the
 way Python's `str()` renders them when the plugin builds its messages and
 performance data.
 */
module Values {

  /** A scalar field of a decoded JSON record. */
  datatype Value = Int(i: int) | Str(s: string)

  predicate IsDigit(c: char) {
    '0' <= c <= '9'
  }

  function DigitChar(d: int): (c: char)
    requires 0 <= d < 10
    ensures IsDigit(c) && c as int - '0' as int == d
  {
    ('0' as int + d) as char
  }

  /** The decimal digits of a natural number, as `str()` writes them. */
  function Natural(n: nat): (s: string)
    ensures |s| > 0
    ensures forall i :: 0 <= i < |s| ==> IsDigit(s[i])
    ensures s[0] == '0' <==> n == 0
  {
    if n < 10 then [DigitChar(n)] else Natural(n / 10) + [DigitChar(n % 10)]
  }

  /** `str()` of an integer: a minus sign before the digits of a negative one. */
  function Decimal(n: int): (s: string)
    ensures |s| > 0
    ensures s[0] == '-' <==> n < 0
  {
    if n < 0 then "-" + Natural(-n) else Natural(n)
  }

  /** `str()` of a record value. */
  function Text(v: Value): (r: string)
    ensures v.Str? ==> r == v.s
    ensures v.Int? ==> |r| > 0 && (r[0] == '-' <==> v.i < 0)
    ensures v.Int? ==> forall k :: 0 <= k < |r| ==> r[k] != ','
  {
    match v
    case Int(i) => DecimalCommaFree(i); Decimal(i)
    case Str(s) => s
  }

  /** The number a string of decimal digits stands for. */
  function DigitsValue(s: string): nat
    requires forall i :: 0 <= i < |s| ==> IsDigit(s[i])
  {
    if s == [] then 0
    else
      assert IsDigit(s[|s| - 1]);
      DigitsValue(s[..|s| - 1]) * 10 + (s[|s| - 1] as int - '0' as int)
  }

  /** Reading back the digits `str()` writes gives the number again. */
  lemma {:induction false} NaturalRoundTrip(n: nat)
    ensures DigitsValue(Natural(n)) == n
  {
    if n >= 10 {
      var s := Natural(n);
      assert s[..|s| - 1] == Natural(n / 10);
      NaturalRoundTrip(n / 10);
    }
  }

  /** Distinct integers are rendered as distinct strings. */
  lemma DecimalInjective(m: int, n: int)
    requires Decimal(m) == Decimal(n)
    ensures m == n
  {
    if m < 0 {
      assert Natural(-m) == Decimal(m)[1..] == Decimal(n)[1..] == Natural(-n);
      NaturalRoundTrip(-m);
      NaturalRoundTrip(-n);
    } else {
      NaturalRoundTrip(m);
      NaturalRoundTrip(n);
    }
  }

  /** The digits of a three-digit number, one character each. */
  lemma ThreeDigits(n: nat)
    requires 100 <= n < 1000
    ensures Natural(n) == [DigitChar(n / 100), DigitChar(n / 10 % 10), DigitChar(n % 10)]
  {
    assert Natural(n / 10) == Natural(n / 100) + [DigitChar(n / 10 % 10)];
  }

  /** A number of three or more digits is at least its leading digit times one hundred. */
  lemma {:induction false} LeadingDigitBound(n: nat)
    requires |Natural(n)| >= 3
    ensures n >= (Natural(n)[0] as int - '0' as int) * 100
  {
    if n >= 1000 {
      assert Natural(n / 10) == Natural(n / 100) + [DigitChar(n / 10 % 10)];
      assert Natural(n / 100) == Natural(n / 1000) + [DigitChar(n / 100 % 10)];
      LeadingDigitBound(n / 10);
    } else if n >= 100 {
      ThreeDigits(n);
    } else {
      FewDigits(n);
    }
  }

  /** `str()` of an integer holds no comma. */
  lemma DecimalCommaFree(n: int)
    ensures forall i :: 0 <= i < |Decimal(n)| ==> Decimal(n)[i] != ','
  {
    if n < 0 {
      var s := Decimal(n);
      forall i | 1 <= i < |s|
        ensures s[i] != ','
      {
        assert s[i] == Natural(-n)[i - 1];
      }
    }
  }

  /** Numbers below one hundred have at most two digits. */
  lemma FewDigits(n: nat)
    requires n < 100
    ensures |Natural(n)| <= 2
  {
  }
}

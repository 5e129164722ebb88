/**
 `IntegerData.number_as_text`: Python's `str` of an int, i.e. base-10 digits
 with no leading zeros and a leading '-' for negative values. `Parse` is an
 independent reader of that plain decimal notation, used to state the round
 trip.
 */
module IntegerText {
  import opened NumericData

  predicate IsDigit(c: char) {
    '0' <= c <= '9'
  }

  predicate AllDigits(s: string) {
    forall i :: 0 <= i < |s| ==> IsDigit(s[i])
  }

  /** A non-empty digit string with no superfluous leading zero. */
  predicate Canonical(s: string) {
    |s| > 0 && AllDigits(s) && (s[0] == '0' ==> |s| == 1)
  }

  function DigitChar(d: int): (c: char)
    requires 0 <= d < 10
    ensures IsDigit(c) && (c == '0' <==> d == 0)
  {
    (('0' as int) + d) as char
  }

  function DigitValue(c: char): (d: nat)
    requires IsDigit(c)
    ensures d < 10
  {
    (c as int) - ('0' as int)
  }

  /** The digits of a natural number, most significant first. */
  function NatText(n: nat): (s: string)
    ensures Canonical(s)
    ensures s == "0" <==> n == 0
    decreases n
  {
    if n < 10 then [DigitChar(n)] else NatText(n / 10) + [DigitChar(n % 10)]
  }

  /** `IntegerData.number_as_text()`. */
  function NumberAsText(n: int): (s: string)
    ensures |s| > 0
    ensures s[0] == '-' <==> n < 0
    ensures n < 0 ==> Canonical(s[1..]) && s[1..] != "0"
    ensures n >= 0 ==> Canonical(s)
    ensures s == "0" <==> n == 0
  {
    if n < 0 then "-" + NatText(-n) else NatText(n)
  }

  /** The value of a digit string, read most significant digit first. */
  function DigitsValue(s: string): nat
    requires AllDigits(s)
    decreases |s|
  {
    if |s| == 0 then 0 else DigitsValue(s[..|s| - 1]) * 10 + DigitValue(s[|s| - 1])
  }

  /** Reads an optional '-' followed by one or more decimal digits. */
  function Parse(s: string): (r: Option<int>)
    ensures r.Some? ==> |s| > 0 && (r.value < 0 ==> s[0] == '-') && (s[0] == '-' ==> r.value <= 0)
  {
    if |s| > 1 && s[0] == '-' && AllDigits(s[1..]) then Some(0 - DigitsValue(s[1..]) as int)
    else if |s| > 0 && AllDigits(s) then Some(DigitsValue(s))
    else None
  }

  lemma {:induction false} DigitsOfNatText(n: nat)
    ensures DigitsValue(NatText(n)) == n
    decreases n
  {
    if n < 10 {
      assert NatText(n) == [DigitChar(n)];
      assert NatText(n)[..0] == [];
    } else {
      var p := NatText(n / 10);
      var s := p + [DigitChar(n % 10)];
      assert s[..|s| - 1] == p;
      DigitsOfNatText(n / 10);
      assert DigitsValue(s) == DigitsValue(p) * 10 + n % 10;
    }
  }

  /** Reading back the text of any integer yields that integer. */
  lemma {:induction false} NumberAsTextRoundTrip(n: int)
    ensures Parse(NumberAsText(n)) == Some(n)
  {
    if n < 0 {
      var s := NumberAsText(n);
      assert s[1..] == NatText(-n);
      DigitsOfNatText(-n);
    } else {
      DigitsOfNatText(n);
    }
  }

  /** Distinct integers never share a text, so the rendering loses nothing. */
  lemma NumberAsTextInjective(m: int, n: int)
    requires NumberAsText(m) == NumberAsText(n)
    ensures m == n
  {
    NumberAsTextRoundTrip(m);
    NumberAsTextRoundTrip(n);
  }
}

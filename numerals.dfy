/** How a number is rendered when JavaScript concatenates it into a string,
    for the integer ids the crawler formats, together with the reading that
    undoes it. */
module Numerals {
  import opened Payload

  predicate IsDigit(c: char)
  {
    '0' <= c <= '9'
  }

  predicate AllDigits(s: string)
  {
    forall k :: 0 <= k < |s| ==> IsDigit(s[k])
  }

  function DigitChar(d: nat): (c: char)
    requires d < 10
    ensures IsDigit(c)
  {
    ('0' as int + d) as char
  }

  function DigitValue(c: char): nat
    requires IsDigit(c)
  {
    c as int - '0' as int
  }

  /** The decimal digits of `n`, most significant first, without leading
      zeros. */
  function NatDigits(n: nat): (s: string)
    ensures |s| >= 1 && AllDigits(s)
    ensures n > 0 ==> s[0] != '0'
    decreases n
  {
    if n < 10 then [DigitChar(n)] else NatDigits(n / 10) + [DigitChar(n % 10)]
  }

  /** The text of an integer in a string concatenation: a minus sign for a
      negative value, then its digits. */
  function Decimal(n: int): (s: string)
    ensures |s| >= 1
    ensures '(' !in s && ')' !in s && '\t' !in s
  {
    if n < 0 then "-" + NatDigits(-n) else NatDigits(n)
  }

  /** The value of a string of decimal digits. */
  function DigitsValue(s: string): nat
    requires AllDigits(s)
  {
    if s == [] then 0 else DigitsValue(s[..|s| - 1]) * 10 + DigitValue(s[|s| - 1])
  }

  /** Reads back an integer written by `Decimal`; `None` for any text that
      is not an optional minus sign followed by at least one digit. */
  function ParseDecimal(s: string): Option<int>
  {
    if |s| >= 2 && s[0] == '-' && AllDigits(s[1..]) then Some(0 - DigitsValue(s[1..]) as int)
    else if |s| >= 1 && AllDigits(s) then Some(DigitsValue(s))
    else None
  }

  lemma {:induction false} DigitsRoundTrip(n: nat)
    ensures DigitsValue(NatDigits(n)) == n
    decreases n
  {
    if n >= 10 {
      var s := NatDigits(n);
      assert s[..|s| - 1] == NatDigits(n / 10);
      DigitsRoundTrip(n / 10);
    }
  }

  /** Reading back the text of an integer gives that integer. */
  lemma DecimalRoundTrip(n: int)
    ensures ParseDecimal(Decimal(n)) == Some(n)
  {
    if n < 0 {
      var digits := NatDigits(-n);
      var s := "-" + digits;
      assert s[0] == '-' && s[1..] == digits;
      DigitsRoundTrip(-n);
    } else {
      var digits := NatDigits(n);
      assert digits[0] != '-' by {
        assert IsDigit(digits[0]);
      }
      DigitsRoundTrip(n);
    }
  }

  /** Distinct integers have distinct texts. */
  lemma DecimalInjective(a: int, b: int)
    requires Decimal(a) == Decimal(b)
    ensures a == b
  {
    DecimalRoundTrip(a);
    DecimalRoundTrip(b);
  }
}

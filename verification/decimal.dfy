/** Decimal text of integers, as Java renders an `int` in string
    concatenation (`Integer.toString`) and reads one back with
    `Long.parseLong` (ASCII digits only). */
module Decimal {
  import opened Results
  import opened JavaInts

  predicate IsDigit(c: char) { '0' <= c <= '9' }

  predicate AllDigits(s: string) { forall i :: 0 <= i < |s| ==> IsDigit(s[i]) }

  function DigitChar(d: int): (c: char)
    requires 0 <= d < 10
    ensures IsDigit(c)
  {
    (('0' as int) + d) as char
  }

  function DigitValue(c: char): (d: nat)
    requires IsDigit(c)
    ensures d < 10
  {
    (c as int) - ('0' as int)
  }

  /** The decimal digits of `n`, most significant first, without leading zeros. */
  function NatDigits(n: nat): (s: string)
    ensures |s| >= 1
    ensures AllDigits(s)
    ensures n > 0 ==> s[0] != '0'
    decreases n
  {
    if n < 10 then [DigitChar(n)] else NatDigits(n / 10) + [DigitChar(n % 10)]
  }

  /** The number a non-empty run of decimal digits denotes. */
  function DigitsValue(s: string): nat
    requires AllDigits(s)
    decreases |s|
  {
    if |s| == 0 then 0 else 10 * DigitsValue(s[..|s| - 1]) + DigitValue(s[|s| - 1])
  }

  /** `Integer.toString(n)` / `Long.toString(n)`: a minus sign for negatives. */
  function Show(n: int): (s: string)
    ensures |s| >= 1
    ensures n < 0 <==> s[0] == '-'
    ensures forall i :: 0 <= i < |s| ==> s[i] != ','
  {
    if n < 0 then "-" + NatDigits(-n) else NatDigits(n)
  }

  /** The integer an optionally signed digit run denotes, or `None` when the
      text is not of that shape.  This is the syntax `Long.parseLong` accepts. */
  function ParseInteger(s: string): (r: Option<int>)
    ensures r.Some? ==> |s| >= 1
  {
    if |s| >= 2 && s[0] == '-' && AllDigits(s[1..]) then Some(-(DigitsValue(s[1..]) as int))
    else if |s| >= 2 && s[0] == '+' && AllDigits(s[1..]) then Some(DigitsValue(s[1..]))
    else if |s| >= 1 && AllDigits(s) then Some(DigitsValue(s))
    else None
  }

  /** `Long.parseLong(s)`: a `null` or malformed string and a value outside
      the `long` range raise `NumberFormatException`. */
  function ParseLong(s: Option<string>): (r: Result<Int64>)
    ensures r.Ok? <==> s.Some? && ParseInteger(s.value).Some?
                       && LONG_MIN <= ParseInteger(s.value).value <= LONG_MAX
    ensures r.Ok? ==> r.value == ParseInteger(s.value).value
  {
    if s.None? then Err("NumberFormatException")
    else match ParseInteger(s.value)
      case None => Err("NumberFormatException")
      case Some(n) =>
        if LONG_MIN <= n <= LONG_MAX then Ok(n) else Err("NumberFormatException")
  }

  lemma {:induction false} NatDigitsRoundTrip(n: nat)
    ensures DigitsValue(NatDigits(n)) == n
    decreases n
  {
    if n >= 10 {
      var s := NatDigits(n);
      assert s[..|s| - 1] == NatDigits(n / 10);
      NatDigitsRoundTrip(n / 10);
    }
  }

  /** Rendering an integer and reading it back gives the same integer. */
  lemma ShowRoundTrip(n: int)
    ensures ParseInteger(Show(n)) == Some(n)
  {
    if n < 0 {
      assert Show(n)[1..] == NatDigits(-n);
      NatDigitsRoundTrip(-n);
    } else {
      NatDigitsRoundTrip(n);
    }
  }
}

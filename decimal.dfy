/**
 * Decimal text: the digits of a natural number, and the integer parsers
 * the server uses for 64-bit signed ids and unsigned settings.
 */
module Decimal {
  import opened Wrappers

  predicate IsDigit(c: char)
  {
    '0' <= c <= '9'
  }

  predicate AllDigits(d: string)
  {
    forall k :: 0 <= k < |d| ==> IsDigit(d[k])
  }

  /** The value of a string of decimal digits, most significant first. */
  function DigitsValue(d: string): nat
    requires AllDigits(d)
    decreases |d|
  {
    if |d| == 0 then 0 else DigitsValue(d[..|d| - 1]) * 10 + (d[|d| - 1] as int - '0' as int)
  }

  const I64Min: int := -0x8000_0000_0000_0000
  const I64Max: int := 0x7FFF_FFFF_FFFF_FFFF

  /**
   * Parsing a 64-bit signed integer: an optional '+' or '-', then at least
   * one decimal digit and nothing else, with a value that fits.
   */
  function ParseI64(s: string): (r: Option<int>)
    ensures r.Some? ==> I64Min <= r.value <= I64Max
    ensures |s| == 0 ==> r.None?
  {
    var negative := |s| > 0 && s[0] == '-';
    var digits := if |s| > 0 && (s[0] == '+' || s[0] == '-') then s[1..] else s;
    if |digits| == 0 || !AllDigits(digits) then None
    else
      var n: int := if negative then -(DigitsValue(digits) as int) else DigitsValue(digits);
      if I64Min <= n <= I64Max then Some(n) else None
  }

  /** The decimal digits of a natural number, without leading zeros. */
  function NatToDigits(n: nat): (d: string)
    ensures |d| >= 1 && AllDigits(d)
    decreases n
  {
    if n < 10 then [('0' as int + n) as char] else NatToDigits(n / 10) + [('0' as int + n % 10) as char]
  }

  const U64Max: int := 0xFFFF_FFFF_FFFF_FFFF

  /** Parsing a 64-bit unsigned integer: an optional '+', then digits only, with a value that fits. */
  function ParseU64(s: string): (r: Option<nat>)
    ensures r.Some? ==> r.value <= U64Max
    ensures |s| == 0 ==> r.None?
  {
    var digits := if |s| > 0 && s[0] == '+' then s[1..] else s;
    if |digits| == 0 || !AllDigits(digits) then None
    else if DigitsValue(digits) <= U64Max then Some(DigitsValue(digits))
    else None
  }

  /** The decimal text of an integer, with '-' for a negative one. */
  function IntToString(n: int): (s: string)
    ensures ':' !in s
  {
    if n < 0 then "-" + NatToDigits(-n) else NatToDigits(n)
  }

  lemma {:induction false} DigitsRoundTrip(n: nat)
    ensures DigitsValue(NatToDigits(n)) == n
    decreases n
  {
    if n >= 10 {
      var d := NatToDigits(n);
      assert d[..|d| - 1] == NatToDigits(n / 10);
      DigitsRoundTrip(n / 10);
    }
  }

  /** Printing an integer and parsing it back gives it again. */
  lemma ParseRoundTrip(n: int)
    requires I64Min <= n <= I64Max
    ensures ParseI64(IntToString(n)) == Some(n)
  {
    if n < 0 {
      var d := NatToDigits(-n);
      var s := "-" + d;
      assert s[0] == '-';
      assert s[1..] == d;
      DigitsRoundTrip(-n);
      assert ParseI64(s) == Some(-(DigitsValue(d) as int));
    } else {
      var d := NatToDigits(n);
      assert IsDigit(d[0]);
      DigitsRoundTrip(n);
      assert ParseI64(d) == Some(DigitsValue(d));
    }
  }

  /** Printing a natural number that fits and parsing it as unsigned gives it again. */
  lemma ParseU64RoundTrip(n: nat)
    requires n <= U64Max
    ensures ParseU64(NatToDigits(n)) == Some(n)
  {
    var d := NatToDigits(n);
    assert IsDigit(d[0]);
    DigitsRoundTrip(n);
  }

  /** A minus sign is never accepted by the unsigned parser. */
  lemma ParseU64RejectsSign(s: string)
    requires |s| > 0 && s[0] == '-'
    ensures ParseU64(s).None?
  {
    assert !IsDigit(s[0]);
  }
}

/**
 * Decimal rendering of integers as Go's `%d` verb writes them, the `0%d`
 * padding the school search applies to small location codes, and a reader
 * that inverts both.
 */
module Decimal {
  import opened Wrappers

  predicate IsDigit(c: char) {
    '0' <= c <= '9'
  }

  predicate AllDigits(s: string) {
    forall i :: 0 <= i < |s| ==> IsDigit(s[i])
  }

  function DigitValue(c: char): (d: nat)
    requires IsDigit(c)
    ensures d <= 9
  {
    c as int - '0' as int
  }

  function DigitChar(d: nat): (c: char)
    requires d <= 9
    ensures IsDigit(c) && DigitValue(c) == d
  {
    ('0' as int + d) as char
  }

  /** The decimal digits of `n`, most significant first, with no leading zero. */
  function FormatNat(n: nat): (s: string)
    ensures 1 <= |s| && AllDigits(s)
    ensures |s| == 1 <==> n < 10
    ensures 10 <= n < 100 ==> |s| == 2
    ensures s[0] == '0' <==> n == 0
  {
    if n < 10 then [DigitChar(n)] else FormatNat(n / 10) + [DigitChar(n % 10)]
  }

  /** Go's `%d`: a minus sign before the digits of a negative number. */
  function FormatInt(n: int): (s: string)
    ensures 1 <= |s|
    ensures n >= 0 ==> AllDigits(s)
    ensures n < 0 ==> 2 <= |s| && s[0] == '-' && AllDigits(s[1..])
    ensures n >= 0 ==> (s[0] == '0' <==> n == 0)
    ensures n >= 0 ==> (|s| == 1 <==> n < 10)
    ensures n == 0 ==> s == "0"
    ensures n < 0 ==> s[1] != '0'
    ensures '&' !in s
  {
    if n < 0 then "-" + FormatNat(-n) else FormatNat(n)
  }

  /** The value of a string of decimal digits; the empty string reads as 0. */
  function ParseNat(s: string): nat
    requires AllDigits(s)
  {
    if s == [] then 0 else ParseNat(s[..|s| - 1]) * 10 + DigitValue(s[|s| - 1])
  }

  /** Reads an optionally negative decimal integer, as `FormatInt` writes it. */
  function ParseInt(s: string): (r: Option<int>)
    ensures r.Some? ==> 1 <= |s|
  {
    if 2 <= |s| && s[0] == '-' && AllDigits(s[1..]) then Some(-(ParseNat(s[1..]) as int))
    else if 1 <= |s| && AllDigits(s) then Some(ParseNat(s))
    else None
  }

  /** Reading back the digits `FormatNat` wrote gives the number. */
  lemma {:induction false} ParseFormatNat(n: nat)
    ensures ParseNat(FormatNat(n)) == n
  {
    if n >= 10 {
      var s := FormatNat(n);
      assert s[..|s| - 1] == FormatNat(n / 10);
      ParseFormatNat(n / 10);
    }
  }

  /** A minus sign and the digits of `-n` read back as `n`. */
  lemma ParseFormatNegative(n: int)
    requires n < 0
    ensures ParseInt("-" + FormatNat(-n)) == Some(n)
  {
    var digits := FormatNat(-n);
    assert ("-" + digits)[1..] == digits;
    ParseFormatNat(-n);
  }

  /** `%d` is read back exactly, for negative numbers too. */
  lemma ParseFormatInt(n: int)
    ensures ParseInt(FormatInt(n)) == Some(n)
  {
    if n < 0 {
      ParseFormatNegative(n);
    } else {
      var s := FormatNat(n);
      assert IsDigit(s[0]);
      ParseFormatNat(n);
    }
  }

  /**
   * The school-search rendering of a location code: `0%d` below 10, `%d`
   * otherwise. Every code from 0 to 99 comes out as exactly two digits whose
   * value is the code.
   */
  function PadTwoDigits(code: int): (field: string)
    ensures 0 <= code < 100 ==> |field| == 2 && AllDigits(field) && ParseNat(field) == code
    ensures 10 <= code ==> field == FormatInt(code)
    ensures code < 10 ==> 2 <= |field| && field[0] == '0' && field[1..] == FormatInt(code)
  {
    var field := if code < 10 then "0" + FormatInt(code) else FormatInt(code);
    if 0 <= code < 100 then
      ParseFormatNat(code);
      assert code < 10 ==> field[..1] == "0" && field[1..] == FormatNat(code);
      field
    else
      field
  }
}

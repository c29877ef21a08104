/**
 * Decimal numerals: the digit tests, the integer value of a digit string
 * (what Python's `int(...)` gives for such a string) and the `%02d` /
 * `str(...)` renderings that the report, the time fields and the date
 * picker use.
 */
module Numerals {

  /** An ASCII decimal digit. */
  predicate IsDigit(c: char) {
    '0' <= c <= '9'
  }

  /** A non-empty string of digits: Python's `str.isdigit()` on ASCII text. */
  predicate IsDigitString(s: string) {
    |s| > 0 && forall i :: 0 <= i < |s| ==> IsDigit(s[i])
  }

  function DigitValue(c: char): (d: nat)
    requires IsDigit(c)
    ensures d < 10
  {
    c as int - '0' as int
  }

  function DigitChar(d: nat): (c: char)
    requires d < 10
    ensures IsDigit(c) && DigitValue(c) == d
  {
    ('0' as int + d) as char
  }

  /** The value of a string of digits, most significant first. */
  function ValueOf(s: string): (v: nat)
    requires forall i :: 0 <= i < |s| ==> IsDigit(s[i])
    ensures |s| <= 1 ==> v < 10
    ensures |s| <= 2 ==> v < 100
  {
    if s == [] then 0 else ValueOf(s[..|s| - 1]) * 10 + DigitValue(s[|s| - 1])
  }

  /** `str(n)` for a natural number: its digits without leading zeros. */
  function Decimal(n: nat): (s: string)
    ensures IsDigitString(s)
    ensures ValueOf(s) == n
    ensures n < 10 <==> |s| == 1
    ensures 10 <= n < 100 ==> |s| == 2
    ensures 1000 <= n < 10000 ==> |s| == 4
    ensures |s| == 1 || s[0] != '0'
  {
    if n < 10 then [DigitChar(n)]
    else
      var prefix := Decimal(n / 10);
      var s := prefix + [DigitChar(n % 10)];
      assert s[..|s| - 1] == prefix;
      s
  }

  /** `f"{n:02d}"`: the decimal numeral, left-padded with zeros to two characters. */
  function Pad2(n: nat): (s: string)
    ensures IsDigitString(s) && |s| >= 2
    ensures ValueOf(s) == n
    ensures n < 100 <==> |s| == 2
  {
    if n < 10 then
      var s := ['0'] + Decimal(n);
      assert s[..|s| - 1] == ['0'];
      s
    else Decimal(n)
  }

  /** The value of two digit characters read as a two-digit number. */
  lemma TwoDigitValue(s: string)
    requires IsDigitString(s) && |s| == 2
    ensures ValueOf(s) == 10 * DigitValue(s[0]) + DigitValue(s[1])
  {
    var head := s[..1];
    assert head[..0] == [];
    assert ValueOf(head) == DigitValue(s[0]);
  }

  /** Two digits are their own `%02d` rendering. */
  lemma Pad2OfTwoDigits(s: string)
    requires IsDigitString(s) && |s| == 2
    ensures Pad2(ValueOf(s)) == s
  {
    var r := Pad2(ValueOf(s));
    TwoDigitValue(s);
    TwoDigitValue(r);
    assert DigitValue(r[0]) == DigitValue(s[0]) && DigitValue(r[1]) == DigitValue(s[1]);
  }
}

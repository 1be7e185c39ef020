/** Decimal numerals: the rendering `std::to_string` gives an unsigned
    integer (used for the `carrier_channel_index` tag), and its inverse. */
module Decimal {

  predicate IsDigit(c: char) {
    '0' <= c <= '9'
  }

  predicate IsDigits(s: string) {
    forall i :: 0 <= i < |s| ==> IsDigit(s[i])
  }

  /** What `std::to_string` yields for an unsigned value: at least one digit,
      and no leading zero unless the numeral is "0" itself. */
  predicate IsCanonical(s: string) {
    1 <= |s| && IsDigits(s) && (1 < |s| ==> s[0] != '0')
  }

  function DigitChar(d: nat): (c: char)
    requires d < 10
    ensures IsDigit(c) && c as int - '0' as int == d
  {
    ('0' as int + d) as char
  }

  function DigitValue(c: char): (d: nat)
    requires IsDigit(c)
    ensures d < 10 && DigitChar(d) == c
  {
    c as int - '0' as int
  }

  /** `std::to_string(n)`: most significant digit first. */
  function DecimalString(n: nat): (s: string)
    ensures IsCanonical(s)
    decreases n
  {
    if n < 10 then [DigitChar(n)] else DecimalString(n / 10) + [DigitChar(n % 10)]
  }

  /** The number a string of digits denotes. */
  function DecimalValue(s: string): nat
    requires IsDigits(s)
    decreases |s|
  {
    if s == [] then 0 else DecimalValue(s[..|s| - 1]) * 10 + DigitValue(s[|s| - 1])
  }

  /** Reading back a rendered numeral gives the number. */
  lemma {:induction false} DecimalRoundTrip(n: nat)
    ensures DecimalValue(DecimalString(n)) == n
    decreases n
  {
    if 10 <= n {
      var s := DecimalString(n);
      assert s[..|s| - 1] == DecimalString(n / 10);
      DecimalRoundTrip(n / 10);
    }
  }

  /** Distinct numbers render as distinct numerals. */
  lemma DecimalStringInjective(a: nat, b: nat)
    ensures DecimalString(a) == DecimalString(b) <==> a == b
  {
    if DecimalString(a) == DecimalString(b) {
      DecimalRoundTrip(a);
      DecimalRoundTrip(b);
    }
  }

  /** A numeral's value is at least its leading digit. */
  lemma {:induction false} LeadingDigitBound(s: string)
    requires 1 <= |s| && IsDigits(s)
    ensures DigitValue(s[0]) <= DecimalValue(s)
    decreases |s|
  {
    if 1 < |s| {
      var p := s[..|s| - 1];
      assert p[0] == s[0];
      LeadingDigitBound(p);
    }
  }

  /** Every canonical numeral is the rendering of its value, so the rendering
      is a bijection between numbers and canonical numerals. */
  lemma {:induction false} CanonicalRoundTrip(s: string)
    requires IsCanonical(s)
    ensures DecimalString(DecimalValue(s)) == s
    decreases |s|
  {
    if 1 < |s| {
      var p := s[..|s| - 1];
      var last := s[|s| - 1];
      assert p[0] == s[0];
      assert IsCanonical(p);
      LeadingDigitBound(p);
      CanonicalRoundTrip(p);
      var n := DecimalValue(s);
      assert n == DecimalValue(p) * 10 + DigitValue(last);
      assert n / 10 == DecimalValue(p) && n % 10 == DigitValue(last);
      assert s == p + [last];
    }
  }
}

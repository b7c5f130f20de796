/**
  Base-10 conversion between strings and signed 64-bit integers, as the annotation
  parser uses it to read integer-valued annotations such as
  `healthcheck-interval-seconds`.
*/
module Decimal {
  import opened Wrappers

  const MaxInt64: int := 0x7FFF_FFFF_FFFF_FFFF
  const MinInt64: int := -0x8000_0000_0000_0000

  /** Go's `int64`. */
  type Int64 = x: int | MinInt64 <= x <= MaxInt64

  predicate IsDigit(c: char) {
    '0' <= c <= '9'
  }

  predicate AllDigits(s: string) {
    forall i :: 0 <= i < |s| ==> IsDigit(s[i])
  }

  function DigitValue(c: char): (d: nat)
    requires IsDigit(c)
    ensures d < 10
  {
    (c - '0') as nat
  }

  function DigitChar(d: nat): (c: char)
    requires d < 10
    ensures IsDigit(c) && DigitValue(c) == d
  {
    '0' + d as char
  }

  /** The number a string of decimal digits denotes, most significant digit first. */
  function Value(s: string): nat
    requires AllDigits(s)
  {
    if s == [] then 0 else Value(s[..|s| - 1]) * 10 + DigitValue(s[|s| - 1])
  }

  /** The canonical decimal spelling of `n`: digits only, no leading zero. */
  function Format(n: nat): (s: string)
    ensures |s| > 0 && AllDigits(s)
    ensures |s| > 1 ==> s[0] != '0'
    decreases n
  {
    if n < 10 then [DigitChar(n)] else Format(n / 10) + [DigitChar(n % 10)]
  }

  /**
    Reads a non-negative base-10 integer. Fails on the empty string, on any character
    that is not a digit (signs included) and on values beyond the 64-bit range.
  */
  function ParseInt64(s: string): (r: Option<Int64>)
    ensures r.Some? <==> |s| > 0 && AllDigits(s) && Value(s) <= MaxInt64
    ensures r.Some? ==> 0 <= r.value
  {
    if |s| > 0 && AllDigits(s) && Value(s) <= MaxInt64 then Some(Value(s)) else None
  }

  /** Reading back the spelling of a number gives the number. */
  lemma {:induction false} ValueOfFormat(n: nat)
    ensures Value(Format(n)) == n
    decreases n
  {
    if n >= 10 {
      var s := Format(n);
      assert s[..|s| - 1] == Format(n / 10);
      ValueOfFormat(n / 10);
    }
  }

  /** A canonical digit string is the spelling of its own value. */
  lemma {:induction false} FormatOfValue(s: string)
    requires |s| > 0 && AllDigits(s)
    requires |s| > 1 ==> s[0] != '0'
    ensures Format(Value(s)) == s
    decreases |s|
  {
    if |s| > 1 {
      var init := s[..|s| - 1];
      assert init[0] == s[0];
      ValueAtLeastOne(init);
      FormatOfValue(init);
      var n := Value(s);
      assert n / 10 == Value(init) && n % 10 == DigitValue(s[|s| - 1]);
      assert Format(n) == Format(Value(init)) + [DigitChar(DigitValue(s[|s| - 1]))];
    } else {
      assert Value(s) == DigitValue(s[0]) by { assert s[..0] == []; }
    }
  }

  /** A digit string that does not start with '0' denotes a positive number. */
  lemma {:induction false} ValueAtLeastOne(s: string)
    requires |s| > 0 && AllDigits(s) && s[0] != '0'
    ensures Value(s) >= 1
    decreases |s|
  {
    if |s| > 1 {
      var init := s[..|s| - 1];
      assert init[0] == s[0];
      ValueAtLeastOne(init);
    } else {
      assert s[..0] == [];
    }
  }

  /** Every 64-bit non-negative value survives a format/parse round trip. */
  lemma ParseInt64OfFormat(n: nat)
    requires n <= MaxInt64
    ensures ParseInt64(Format(n)) == Some(n)
  {
    ValueOfFormat(n);
  }
}

/**
 * The string operations of the .NET base library that the modelled code relies on:
 * `Int32.ToString()` under a culture whose negative sign is `-` (the invariant culture and most
 * others), and `String.TrimEnd`/`String.TrimStart` with a single character.
 */
module Strings {
  import opened Wrappers

  predicate IsDigit(c: char) {
    '0' <= c <= '9'
  }

  predicate IsDigits(s: string) {
    forall i :: 0 <= i < |s| ==> IsDigit(s[i])
  }

  function DigitChar(d: int): (c: char)
    requires 0 <= d < 10
    ensures IsDigit(c) && c as int - '0' as int == d
  {
    ('0' as int + d) as char
  }

  /** The number a string of decimal digits denotes, most significant digit first. */
  function DigitsValue(s: string): nat
    requires IsDigits(s)
  {
    if s == [] then 0 else 10 * DigitsValue(s[..|s| - 1]) + (s[|s| - 1] as int - '0' as int)
  }

  /** A digit string as `Int32.ToString()` writes one: non-empty, no leading zero except "0" itself. */
  predicate IsCanonicalDigits(s: string) {
    |s| > 0 && IsDigits(s) && (s[0] == '0' ==> |s| == 1)
  }

  /** The decimal digits of a natural number. */
  function NaturalString(n: nat): (r: string)
    ensures IsCanonicalDigits(r)
    ensures DigitsValue(r) == n
    decreases n
  {
    if n < 10 then [DigitChar(n)]
    else
      var prefix := NaturalString(n / 10);
      var r := prefix + [DigitChar(n % 10)];
      assert r[..|r| - 1] == prefix;
      r
  }

  /**
   * `n.ToString()` for a C# `int`: the culture's negative sign, taken here to be `-`, for
   * negative numbers, then the digits.
   */
  function DecimalString(n: int): string {
    if n < 0 then "-" + NaturalString(-n) else NaturalString(n)
  }

  /** The inverse of DecimalString: accepts exactly the canonical renderings of integers. */
  function ParseDecimal(s: string): Option<int> {
    if |s| > 0 && s[0] == '-' then
      if IsCanonicalDigits(s[1..]) && s[1..] != "0" then var v: int := DigitsValue(s[1..]); Some(-v) else None
    else if IsCanonicalDigits(s) then Some(DigitsValue(s))
    else None
  }

  lemma {:induction false} LeadingDigitPositive(s: string)
    requires IsDigits(s) && |s| > 0 && s[0] != '0'
    ensures DigitsValue(s) > 0
  {
    if |s| > 1 {
      LeadingDigitPositive(s[..|s| - 1]);
    }
  }

  /** Rendering a canonical digit string's value gives back the same string. */
  lemma {:induction false} NaturalStringOfValue(s: string)
    requires IsCanonicalDigits(s)
    ensures NaturalString(DigitsValue(s)) == s
  {
    if |s| > 1 {
      var prefix := s[..|s| - 1];
      LeadingDigitPositive(prefix);
      NaturalStringOfValue(prefix);
      var d := s[|s| - 1] as int - '0' as int;
      var v := DigitsValue(s);
      assert v == 10 * DigitsValue(prefix) + d;
      assert v / 10 == DigitsValue(prefix) && v % 10 == d;
      assert s == prefix + [s[|s| - 1]];
    }
  }

  /** DecimalString and ParseDecimal are inverse: every integer has exactly one rendering. */
  lemma DecimalRoundTrip(n: int, s: string)
    ensures ParseDecimal(DecimalString(n)) == Some(n)
    ensures ParseDecimal(s) == Some(n) <==> s == DecimalString(n)
  {
    var t := DecimalString(n);
    if n < 0 {
      assert t[1..] == NaturalString(-n);
    }
    if ParseDecimal(s) == Some(n) {
      if |s| > 0 && s[0] == '-' {
        NaturalStringOfValue(s[1..]);
        assert s == "-" + s[1..];
      } else {
        NaturalStringOfValue(s);
      }
    }
  }

  /** `s.TrimEnd(c)`: `s` without every trailing occurrence of `c`. */
  function TrimEnd(s: string, c: char): (r: string)
    ensures r <= s
    ensures r == [] || r[|r| - 1] != c
    ensures forall i :: |r| <= i < |s| ==> s[i] == c
  {
    if s != [] && s[|s| - 1] == c then TrimEnd(s[..|s| - 1], c) else s
  }

  /** `s.TrimStart(c)`: `s` without every leading occurrence of `c`. */
  function TrimStart(s: string, c: char): (r: string)
    ensures |r| <= |s| && r == s[|s| - |r|..]
    ensures r == [] || r[0] != c
    ensures forall i :: 0 <= i < |s| - |r| ==> s[i] == c
  {
    if s != [] && s[0] == c then TrimStart(s[1..], c) else s
  }

  /** Appending one more `c` does not change what TrimEnd leaves. */
  lemma TrimEndAbsorbs(s: string, c: char)
    ensures TrimEnd(s + [c], c) == TrimEnd(s, c)
  {
    assert (s + [c])[..|s|] == s;
  }

  /** Prepending one more `c` does not change what TrimStart leaves. */
  lemma TrimStartAbsorbs(s: string, c: char)
    ensures TrimStart([c] + s, c) == TrimStart(s, c)
  {
    assert ([c] + s)[1..] == s;
  }
}

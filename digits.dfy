/**
 * Digit runs as the lexer reads them (src/lexer.js): the digit classes of
 * the three radixes it scans, and the value parseInt gives a run of digits,
 * which is the run folded from the left.
 */
module Digits {
  import opened TextUtils

  /** The radixes the lexer scans: octal, decimal and hexadecimal. */
  predicate IsRadix(radix: int)
  {
    radix == 8 || radix == 10 || radix == 16
  }

  /** u is a digit of the radix, by the TextUtils class the lexer tests. */
  predicate IsDigitOf(radix: int, u: int)
  {
    if radix == 8 then IsOctalDigit(Ch(u))
    else if radix == 10 then IsDigit(Ch(u))
    else IsHexDigit(Ch(u))
  }

  /** A digit of any of the radixes is a hex digit whose value is below the
      radix. */
  lemma DigitOfValue(radix: int, u: int)
    requires IsRadix(radix) && IsDigitOf(radix, u)
    ensures IsHexDigit(Ch(u)) && DigitValue(u) < radix
  {
    ClassInclusions(Ch(u));
  }

  predicate AllDigitsOf(radix: int, s: seq<int>)
  {
    forall i :: 0 <= i < |s| ==> IsDigitOf(radix, s[i])
  }

  function Pow(r: int, n: nat): int
  {
    if n == 0 then 1 else r * Pow(r, n - 1)
  }

  /** parseInt(s, radix) for a non-empty run of digits of the radix: the
      digits folded from the left. */
  function DigitFold(s: seq<int>, radix: int): (v: int)
    requires IsRadix(radix) && AllDigitsOf(radix, s)
    ensures |s| == 1 ==> v == DigitValue(s[0])
    ensures 0 <= v
  {
    if s == [] then 0
    else
      DigitOfValue(radix, s[|s| - 1]);
      DigitFold(s[..|s| - 1], radix) * radix + DigitValue(s[|s| - 1])
  }

  /** A run of n digits has a value below radix^n. */
  lemma {:induction false} DigitFoldBounds(s: seq<int>, radix: int)
    requires IsRadix(radix) && AllDigitsOf(radix, s)
    ensures 0 <= DigitFold(s, radix) < Pow(radix, |s|)
  {
    if s != [] {
      var init := s[..|s| - 1];
      DigitFoldBounds(init, radix);
      DigitOfValue(radix, s[|s| - 1]);
      var v := DigitFold(init, radix);
      assert v + 1 <= Pow(radix, |init|);
      assert v * radix + radix <= Pow(radix, |init|) * radix;
    }
  }

  /** Appending a digit scales the value by the radix and adds the digit. */
  lemma DigitFoldSnoc(s: seq<int>, d: int, radix: int)
    requires IsRadix(radix) && AllDigitsOf(radix, s) && IsDigitOf(radix, d)
    ensures AllDigitsOf(radix, s + [d])
    ensures DigitFold(s + [d], radix) == DigitFold(s, radix) * radix + DigitValue(d)
  {
    assert (s + [d])[..|s|] == s;
  }

  /** A leading '0' does not change the value: the legacy octal literal
      0157 has the value of 157 in base 8. */
  lemma {:induction false} LeadingZero(s: seq<int>, radix: int)
    requires IsRadix(radix) && AllDigitsOf(radix, s)
    ensures AllDigitsOf(radix, ['0' as int] + s)
    ensures DigitFold(['0' as int] + s, radix) == DigitFold(s, radix)
  {
    var z := ['0' as int] + s;
    assert AllDigitsOf(radix, z) by {
      forall i | 0 <= i < |z| ensures IsDigitOf(radix, z[i]) {
        if i > 0 { assert z[i] == s[i - 1]; }
      }
    }
    if s != [] {
      var init := s[..|s| - 1];
      LeadingZero(init, radix);
      assert z[..|z| - 1] == ['0' as int] + init;
    }
  }
}

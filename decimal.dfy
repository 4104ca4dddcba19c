/** Decimal text of non-negative integers, as .NET formats them with
    `ToString()` (shortest form) and with the `D<width>` format (zero-padded
    to at least `width` digits). Parsing the text back is the tool that shows
    both formats are injective, which is what makes the generated ids unique. */
module Decimal {

  predicate IsDigit(c: char) {
    '0' <= c <= '9'
  }

  predicate AllDigits(s: string) {
    forall i :: 0 <= i < |s| ==> IsDigit(s[i])
  }

  function DigitChar(d: nat): (c: char)
    requires d < 10
    ensures IsDigit(c)
  {
    ('0' as int + d) as char
  }

  function DigitValue(c: char): (d: nat)
    requires IsDigit(c)
    ensures d < 10
  {
    c as int - '0' as int
  }

  /** `n.ToString()` for a non-negative `int`. */
  function Dec(n: nat): (s: string)
    ensures 1 <= |s| && AllDigits(s)
  {
    if n < 10 then [DigitChar(n)] else Dec(n / 10) + [DigitChar(n % 10)]
  }

  /** The value of a string of decimal digits (leading zeros allowed). */
  function ParseDecimal(s: string): nat
    requires AllDigits(s)
  {
    if s == [] then 0 else ParseDecimal(s[..|s| - 1]) * 10 + DigitValue(s[|s| - 1])
  }

  function Zeros(k: nat): (z: string)
    ensures |z| == k && AllDigits(z)
  {
    if k == 0 then [] else Zeros(k - 1) + ['0']
  }

  /** The .NET `D<width>` format of a digit string: left-padded with zeros. */
  function PadLeft(s: string, width: nat): (r: string)
    requires AllDigits(s)
    ensures AllDigits(r) && |r| >= width && |r| >= |s|
    ensures r[|r| - |s|..] == s
  {
    if |s| >= width then s else Zeros(width - |s|) + s
  }

  /** `i.ToString("D3")`, the suffix of the synthetic property names. */
  function D3(i: nat): (s: string)
    ensures AllDigits(s) && |s| >= 3
  {
    PadLeft(Dec(i), 3)
  }

  /** Parsing undoes `ToString()`. */
  lemma {:induction false} ParseDec(n: nat)
    ensures ParseDecimal(Dec(n)) == n
  {
    if n >= 10 {
      var s := Dec(n);
      assert s[..|s| - 1] == Dec(n / 10);
      ParseDec(n / 10);
    }
  }

  lemma {:induction false} ParseZeros(k: nat)
    ensures ParseDecimal(Zeros(k)) == 0
  {
    if k > 0 {
      assert Zeros(k)[..k - 1] == Zeros(k - 1);
      ParseZeros(k - 1);
    }
  }

  /** Leading zeros do not change the value. */
  lemma {:induction false} ParseLeadingZeros(k: nat, s: string)
    requires AllDigits(s)
    ensures ParseDecimal(Zeros(k) + s) == ParseDecimal(s)
    decreases |s|
  {
    if s == [] {
      assert Zeros(k) + s == Zeros(k);
      ParseZeros(k);
    } else {
      var t := Zeros(k) + s;
      assert t[..|t| - 1] == Zeros(k) + s[..|s| - 1];
      ParseLeadingZeros(k, s[..|s| - 1]);
    }
  }

  lemma {:induction false} ParsePadLeft(s: string, width: nat)
    requires AllDigits(s)
    ensures ParseDecimal(PadLeft(s, width)) == ParseDecimal(s)
  {
    if |s| < width {
      assert PadLeft(s, width) == Zeros(width - |s|) + s;
      ParseLeadingZeros(width - |s|, s);
    }
  }

  /** Padded text parses back to the number it was made from. */
  lemma ParsePadded(n: nat, width: nat)
    ensures ParseDecimal(PadLeft(Dec(n), width)) == n
  {
    ParsePadLeft(Dec(n), width);
    ParseDec(n);
  }

  /** Distinct numbers have distinct `ToString()` texts. */
  lemma DecInjective(a: nat, b: nat)
    ensures Dec(a) == Dec(b) <==> a == b
  {
    if Dec(a) == Dec(b) {
      ParseDec(a);
      ParseDec(b);
    }
  }

  /** Distinct numbers have distinct `D<width>` texts. */
  lemma PaddedInjective(a: nat, b: nat, width: nat)
    ensures PadLeft(Dec(a), width) == PadLeft(Dec(b), width) <==> a == b
  {
    if PadLeft(Dec(a), width) == PadLeft(Dec(b), width) {
      ParsePadded(a, width);
      ParsePadded(b, width);
    }
  }
}

/** The string handling the controllers rely on: .NET integer formatting
    ("D<n>" and plain ToString), its inverse, and the checks that the
    validation attributes make of strings. */
module Text {
  import opened Wrappers

  predicate IsDigit(c: char) { '0' <= c <= '9' }

  predicate AllDigits(s: string) { forall i :: 0 <= i < |s| ==> IsDigit(s[i]) }

  function DigitChar(d: nat): (c: char)
    requires d < 10
    ensures IsDigit(c)
  {
    (48 + d) as char
  }

  function DigitValue(c: char): (d: nat)
    requires IsDigit(c)
    ensures d < 10
  {
    (c as int) - 48
  }

  function Pow10(k: nat): (p: nat)
    ensures p >= 1
  {
    if k == 0 then 1 else 10 * Pow10(k - 1)
  }

  /** The decimal digits of n, without leading zeros ("0" for zero). */
  function Digits(n: nat): (s: string)
    ensures |s| >= 1 && AllDigits(s)
    ensures n > 0 ==> s[0] != '0'
    decreases n
  {
    if n < 10 then [DigitChar(n)] else Digits(n / 10) + [DigitChar(n % 10)]
  }

  /** The number that a string of decimal digits denotes (leading zeros allowed). */
  function ValueOf(s: string): nat
    requires AllDigits(s)
    decreases |s|
  {
    if s == [] then 0 else ValueOf(s[..|s| - 1]) * 10 + DigitValue(s[|s| - 1])
  }

  function Zeros(k: nat): (z: string)
    ensures |z| == k && AllDigits(z)
    ensures forall i :: 0 <= i < k ==> z[i] == '0'
  {
    if k == 0 then "" else "0" + Zeros(k - 1)
  }

  /** The digits of n padded on the left with zeros to at least `width` characters. */
  function ZeroPadded(n: nat, width: nat): (s: string)
    ensures |s| == Max(width, |Digits(n)|) && AllDigits(s)
  {
    var digits := Digits(n);
    if |digits| < width then Zeros(width - |digits|) + digits else digits
  }

  /** .NET's "D<width>" format of an int: at least `width` digits, padded
      with zeros on the left, after a '-' when the number is negative. */
  function FormatD(i: int, width: nat): string {
    if i < 0 then "-" + ZeroPadded(-i, width) else ZeroPadded(i, width)
  }

  /** int.ToString(): the "D" format with no minimum width. */
  function IntToString(i: int): string {
    FormatD(i, 0)
  }

  /** Reads back what FormatD writes: an optional '-' and decimal digits. */
  function ParseInt(s: string): Option<int> {
    if |s| > 1 && s[0] == '-' && AllDigits(s[1..]) then (var v: int := ValueOf(s[1..]); Some(-v))
    else if |s| > 0 && AllDigits(s) then Some(ValueOf(s))
    else None
  }

  lemma {:induction false} DigitsRoundTrip(n: nat)
    ensures ValueOf(Digits(n)) == n
    decreases n
  {
    if n >= 10 {
      DigitsRoundTrip(n / 10);
      var s := Digits(n);
      assert s[..|s| - 1] == Digits(n / 10);
    }
  }

  lemma {:induction false} ZerosValue(k: nat)
    ensures ValueOf(Zeros(k)) == 0
  {
    if k > 0 {
      assert Zeros(k)[..k - 1] == Zeros(k - 1);
      ZerosValue(k - 1);
    }
  }

  lemma {:induction false} LeadingZeros(k: nat, s: string)
    requires AllDigits(s)
    ensures AllDigits(Zeros(k) + s)
    ensures ValueOf(Zeros(k) + s) == ValueOf(s)
    decreases |s|
  {
    var t := Zeros(k) + s;
    if s == [] {
      assert t == Zeros(k);
      ZerosValue(k);
    } else {
      assert t[..|t| - 1] == Zeros(k) + s[..|s| - 1];
      LeadingZeros(k, s[..|s| - 1]);
    }
  }

  lemma ZeroPaddedValue(n: nat, width: nat)
    ensures ValueOf(ZeroPadded(n, width)) == n
  {
    var digits := Digits(n);
    DigitsRoundTrip(n);
    if |digits| < width {
      LeadingZeros(width - |digits|, digits);
      assert ZeroPadded(n, width) == Zeros(width - |digits|) + digits;
    } else {
      assert ZeroPadded(n, width) == digits;
    }
  }

  /** Formatting an int with any minimum width and parsing it back gives the int. */
  lemma FormatDRoundTrip(i: int, width: nat)
    ensures ParseInt(FormatD(i, width)) == Some(i)
  {
    var n: nat := if i < 0 then -i else i;
    var padded := ZeroPadded(n, width);
    ZeroPaddedValue(n, width);
    if i < 0 {
      var t := "-" + padded;
      assert t[1..] == padded;
      assert !IsDigit(t[0]);
    } else {
      assert IsDigit(padded[0]);
    }
  }

  /** The formatted text has exactly max(width, number of digits) digits. */
  lemma FormatDLength(i: int, width: nat)
    ensures |FormatD(i, width)| == (if i < 0 then 1 else 0) + Max(width, |Digits(if i < 0 then -i else i)|)
  {
  }

  /** Distinct ints never share a formatted text. */
  lemma FormatDInjective(a: int, b: int, width: nat)
    requires FormatD(a, width) == FormatD(b, width)
    ensures a == b
  {
    FormatDRoundTrip(a, width);
    FormatDRoundTrip(b, width);
  }

  lemma {:induction false} DigitsLengthBound(n: nat, k: nat)
    requires k >= 1 && n < Pow10(k)
    ensures |Digits(n)| <= k
    decreases n
  {
    if n >= 10 {
      DigitsLengthBound(n / 10, k - 1);
    }
  }

  /** White space as char.IsWhiteSpace sees it, which String.Trim and
      string.IsNullOrWhiteSpace use: the control characters 9 to 13 and
      U+0085, and the Unicode space and line and paragraph separators. */
  predicate IsWhiteSpace(c: char) {
    var k := c as int;
    9 <= k <= 13 || k == 0x20 || k == 0x85 || k == 0xA0 || k == 0x1680 ||
    0x2000 <= k <= 0x200A || k == 0x2028 || k == 0x2029 || k == 0x202F ||
    k == 0x205F || k == 0x3000
  }

  predicate IsBlank(s: string) { forall i :: 0 <= i < |s| ==> IsWhiteSpace(s[i]) }

  /** [Required] on a string: not null, not empty, not only white space. */
  predicate RequiredString(s: Option<string>) { s.Some? && !IsBlank(s.value) }

  /** [StringLength(n)]: null, or at most n characters. */
  predicate WithinLength(s: Option<string>, n: nat) { s.None? || |s.value| <= n }

  predicate IsNullOrEmpty(s: Option<string>) { s.None? || s.value == "" }

  /** string.Replace(a, b) for single characters. */
  function ReplaceChar(s: string, a: char, b: char): (r: string)
    ensures |r| == |s|
    ensures forall i :: 0 <= i < |s| ==> r[i] == (if s[i] == a then b else s[i])
  {
    if s == [] then "" else [if s[0] == a then b else s[0]] + ReplaceChar(s[1..], a, b)
  }

  /** string.Replace(c, "") for a single character. */
  function RemoveChar(s: string, c: char): (r: string)
    ensures |r| <= |s|
    ensures forall i :: 0 <= i < |r| ==> r[i] != c
  {
    if s == [] then "" else (if s[0] == c then "" else [s[0]]) + RemoveChar(s[1..], c)
  }

  /** The upper-case form used by StringComparison.OrdinalIgnoreCase (ASCII letters). */
  function UpperAscii(c: char): char {
    if 'a' <= c <= 'z' then (c as int - 32) as char else c
  }

  predicate EqualsIgnoreCase(a: string, b: string) {
    |a| == |b| && forall i :: 0 <= i < |a| ==> UpperAscii(a[i]) == UpperAscii(b[i])
  }
}

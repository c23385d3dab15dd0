/**
 * Decimal formatting and parsing as the filesystem's names use them:
 * `%02d`, `%03d`, `{:04d}`, `%i` and `int()` of a run of ASCII digits.
 */
module Numbers {

  predicate IsDigit(c: char)
  {
    '0' <= c <= '9'
  }

  predicate AllDigits(s: string)
  {
    forall i :: 0 <= i < |s| ==> IsDigit(s[i])
  }

  function DigitChar(d: nat): char
    requires d < 10
  {
    ('0' as int + d) as char
  }

  function DigitValue(c: char): nat
    requires IsDigit(c)
  {
    c as int - '0' as int
  }

  /** Decimal digits of `n` without leading zeros ("0" for zero). */
  function Digits(n: nat): string
  {
    if n < 10 then [DigitChar(n)] else Digits(n / 10) + [DigitChar(n % 10)]
  }

  /** `int(s)` for a string of ASCII digits. */
  function ParseDigits(s: string): nat
    requires AllDigits(s)
  {
    if s == [] then 0 else ParseDigits(s[..|s| - 1]) * 10 + DigitValue(s[|s| - 1])
  }

  function Zeros(k: nat): string
  {
    seq(k, _ => '0')
  }

  /** Python's `'%0<w>d' % n` (and `'{:0<w>d}'.format(n)`): the decimal
      digits, padded with zeros after any sign up to `w` characters. */
  function ZeroPad(n: int, w: nat): string
  {
    if n >= 0 then
      var d := Digits(n);
      Zeros(if w > |d| then w - |d| else 0) + d
    else
      var d := Digits(-n);
      "-" + Zeros(if w > |d| + 1 then w - |d| - 1 else 0) + d
  }

  /** Python's `'%i' % n`. */
  function IntToString(n: int): string
  {
    ZeroPad(n, 0)
  }

  lemma {:induction false} DigitsAreDigits(n: nat)
    ensures AllDigits(Digits(n)) && 1 <= |Digits(n)|
  {
    if n >= 10 {
      DigitsAreDigits(n / 10);
    }
  }

  /** Parsing the digits of a number gives the number back. */
  lemma {:induction false} ParseDigitsOf(n: nat)
    ensures AllDigits(Digits(n)) && ParseDigits(Digits(n)) == n
  {
    DigitsAreDigits(n);
    if n >= 10 {
      ParseDigitsOf(n / 10);
      var d := Digits(n);
      assert d[..|d| - 1] == Digits(n / 10);
    }
  }

  /** Leading zeros do not change the parsed value. */
  lemma {:induction false} ParseLeadingZeros(k: nat, s: string)
    requires AllDigits(s)
    ensures AllDigits(Zeros(k) + s) && ParseDigits(Zeros(k) + s) == ParseDigits(s)
    decreases |s|
  {
    var z := Zeros(k) + s;
    assert forall i :: 0 <= i < |z| ==> IsDigit(z[i]) by {
      forall i | 0 <= i < |z| ensures IsDigit(z[i]) {
        if i >= k { assert z[i] == s[i - k]; }
      }
    }
    if s == [] {
      assert z == Zeros(k);
      AllZerosParse(k);
    } else {
      ParseLeadingZeros(k, s[..|s| - 1]);
      assert z[..|z| - 1] == Zeros(k) + s[..|s| - 1];
    }
  }

  lemma {:induction false} AllZerosParse(k: nat)
    ensures AllDigits(Zeros(k)) && ParseDigits(Zeros(k)) == 0
  {
    if k > 0 {
      AllZerosParse(k - 1);
      assert Zeros(k)[..k - 1] == Zeros(k - 1);
    }
  }

  /** `'%0<w>d' % n` of a non-negative number is all digits, at least `w`
      of them, and `int()` reads the number back. */
  lemma ZeroPadRoundTrip(n: nat, w: nat)
    ensures AllDigits(ZeroPad(n, w))
    ensures |ZeroPad(n, w)| >= w && |ZeroPad(n, w)| >= 1
    ensures ParseDigits(ZeroPad(n, w)) == n
  {
    var d := Digits(n);
    ParseDigitsOf(n);
    ParseLeadingZeros(if w > |d| then w - |d| else 0, d);
  }

  /** The padded form of a number below `10^w` has exactly `w` characters. */
  lemma ZeroPadWidth(n: nat, w: nat)
    requires n < Pow10(w)
    ensures |ZeroPad(n, w)| == w || (w == 0 && |ZeroPad(n, w)| == 1)
  {
    DigitsLength(n, w);
  }

  function Pow10(w: nat): nat
  {
    if w == 0 then 1 else 10 * Pow10(w - 1)
  }

  lemma {:induction false} DigitsLength(n: nat, w: nat)
    requires n < Pow10(w)
    ensures |Digits(n)| <= w || (w == 0 && |Digits(n)| == 1)
  {
    if n >= 10 {
      assert w >= 1;
      DigitsLength(n / 10, w - 1);
    }
  }

  /** A number of at least `10^w` has more than `w` digits. */
  lemma {:induction false} DigitsTooLong(n: nat, w: nat)
    requires n >= Pow10(w)
    ensures |Digits(n)| > w
  {
    if w > 0 {
      DigitsTooLong(n / 10, w - 1);
    }
  }

  /** The longest prefix of ASCII digits. */
  function LeadingDigits(s: string): (k: nat)
    ensures k <= |s| && AllDigits(s[..k]) && (k < |s| ==> !IsDigit(s[k]))
  {
    if s == [] || !IsDigit(s[0]) then 0
    else
      var k := 1 + LeadingDigits(s[1..]);
      assert s[..k] == [s[0]] + s[1..][..k - 1];
      k
  }

  /** The digit run at the head of `d + rest` is `d` itself when `rest`
      starts with a non-digit. */
  lemma {:induction false} LeadingDigitsOf(d: string, rest: string)
    requires AllDigits(d)
    requires rest != [] && !IsDigit(rest[0])
    ensures LeadingDigits(d + rest) == |d|
  {
    if d != [] {
      assert (d + rest)[1..] == d[1..] + rest;
      LeadingDigitsOf(d[1..], rest);
    }
  }

  /** Cutting `d + rest` after its digit run gives back `d` and `rest`. */
  lemma LeadingDigitsSplit(d: string, rest: string)
    requires AllDigits(d)
    requires rest != [] && !IsDigit(rest[0])
    ensures var k := LeadingDigits(d + rest);
            k == |d| && (d + rest)[..k] == d && (d + rest)[k..] == rest
  {
    LeadingDigitsOf(d, rest);
  }
}

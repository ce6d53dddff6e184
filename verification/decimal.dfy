/**
 Decimal text of non-negative integers: Python's `"%d"` and `"%06d"`
 conversions, and the value a string of digits denotes.
 */
module Decimal {
  import opened Text

  predicate AllDigits(s: string)
  {
    forall i :: 0 <= i < |s| ==> IsDigit(s[i])
  }

  function DigitChar(d: nat): (c: char)
    requires d < 10
  {
    ('0' as int + d) as char
  }

  function DigitValue(c: char): nat
    requires IsDigit(c)
  {
    c as int - '0' as int
  }

  /** The number a string of decimal digits denotes, most significant digit first. */
  function ValueOf(s: string): nat
    requires AllDigits(s)
  {
    if s == [] then 0 else 10 * ValueOf(s[..|s| - 1]) + DigitValue(s[|s| - 1])
  }

  function Pow10(k: nat): nat
  {
    if k == 0 then 1 else 10 * Pow10(k - 1)
  }

  function Zeros(k: nat): (z: string)
  {
    if k == 0 then [] else Zeros(k - 1) + ['0']
  }

  /** `"%d" % n`: the shortest digit string denoting n, without leading zeros. */
  function Decimal(n: nat): (s: string)
    ensures |s| >= 1 && AllDigits(s)
    ensures ValueOf(s) == n
    ensures |s| > 1 ==> s[0] != '0'
  {
    if n < 10 then [DigitChar(n)]
    else
      var prefix := Decimal(n / 10);
      var s := prefix + [DigitChar(n % 10)];
      assert s[..|s| - 1] == prefix;
      s
  }

  /** `"%0<width>d"` padding: left-fill with '0' up to width characters. */
  function ZeroPad(s: string, width: nat): (r: string)
  {
    if |s| >= width then s else Zeros(width - |s|) + s
  }

  /** `"%06d" % n`, the SMS code text for the random number n. */
  function Format06d(n: nat): (r: string)
    ensures AllDigits(r) && ValueOf(r) == n
    ensures |r| >= 6
    ensures n < Pow10(6) ==> |r| == 6
  {
    var d := Decimal(n);
    assert n < Pow10(6) ==> |d| <= 6 by {
      if n < Pow10(6) {
        DecimalLength(n, 6);
      }
    }
    var r := ZeroPad(d, 6);
    assert AllDigits(r) && ValueOf(r) == n by {
      if |d| < 6 {
        ZerosDoNotCount(6 - |d|, d);
      }
    }
    r
  }

  lemma {:induction false} ZerosAreDigits(k: nat)
    ensures |Zeros(k)| == k && AllDigits(Zeros(k)) && ValueOf(Zeros(k)) == 0
  {
    if k > 0 {
      ZerosAreDigits(k - 1);
      assert Zeros(k)[..k - 1] == Zeros(k - 1);
    }
  }

  /** Leading zeros do not change the value of a digit string. */
  lemma {:induction false} ZerosDoNotCount(k: nat, s: string)
    requires AllDigits(s)
    ensures AllDigits(Zeros(k) + s)
    ensures ValueOf(Zeros(k) + s) == ValueOf(s)
  {
    ZerosAreDigits(k);
    if s == [] {
      assert Zeros(k) + s == Zeros(k);
    } else {
      var t := Zeros(k) + s;
      assert t[..|t| - 1] == Zeros(k) + s[..|s| - 1];
      ZerosDoNotCount(k, s[..|s| - 1]);
    }
  }

  /** A number below 10^k needs at most k digits. */
  lemma {:induction false} DecimalLength(n: nat, k: nat)
    requires 1 <= k && n < Pow10(k)
    ensures |Decimal(n)| <= k
  {
    if n >= 10 {
      assert k >= 2;
      DecimalLength(n / 10, k - 1);
    }
  }

  /** A digit string of length k denotes a number below 10^k. */
  lemma {:induction false} ValueBound(s: string)
    requires AllDigits(s)
    ensures ValueOf(s) < Pow10(|s|)
  {
    if s != [] {
      ValueBound(s[..|s| - 1]);
    }
  }

  /** Digit strings of equal length denoting the same number are equal. */
  lemma {:induction false} ValueInjective(a: string, b: string)
    requires AllDigits(a) && AllDigits(b) && |a| == |b|
    requires ValueOf(a) == ValueOf(b)
    ensures a == b
  {
    if a != [] {
      var n := |a| - 1;
      assert DigitValue(a[n]) == ValueOf(a) % 10 == DigitValue(b[n]);
      ValueInjective(a[..n], b[..n]);
      assert a == a[..n] + [a[n]] && b == b[..n] + [b[n]];
    }
  }

  /**
   `"%06d"` is a bijection between [0, 999999] and the six-digit strings:
   every six-digit string is the formatting of exactly the number it denotes.
   */
  lemma SixDigitStringsAreFormatted(s: string)
    requires |s| == 6 && AllDigits(s)
    ensures ValueOf(s) < Pow10(6)
    ensures Format06d(ValueOf(s)) == s
  {
    ValueBound(s);
    ValueInjective(Format06d(ValueOf(s)), s);
  }

  /** Different random numbers give different SMS code texts. */
  lemma Format06dInjective(m: nat, n: nat)
    ensures Format06d(m) == Format06d(n) <==> m == n
  {
  }
}

/** Decimal numerals as text: the readings of Python's int() and the texts of str() and {:0Nd}. */
module Decimals {

  predicate IsDigit(c: char) { '0' <= c <= '9' }

  predicate AllDigits(s: string) { forall i :: 0 <= i < |s| ==> IsDigit(s[i]) }

  function DigitOf(d: nat): (c: char)
    requires d < 10
    ensures IsDigit(c)
  {
    '0' + d as char
  }

  function DigitValue(c: char): (d: nat)
    requires IsDigit(c)
    ensures d < 10 && DigitOf(d) == c
  {
    (c - '0') as nat
  }

  function Pow10(k: nat): (p: nat)
    ensures p >= 1
  {
    if k == 0 then 1 else 10 * Pow10(k - 1)
  }

  lemma {:induction false} Pow10Add(a: nat, b: nat)
    ensures Pow10(a + b) == Pow10(a) * Pow10(b)
    decreases a
  {
    if a != 0 { Pow10Add(a - 1, b); }
  }

  /** The number a digit string names; the empty string names 0. */
  function DigitsValue(s: string): nat
    requires AllDigits(s)
  {
    if s == [] then 0 else 10 * DigitsValue(s[..|s| - 1]) + DigitValue(s[|s| - 1])
  }

  function Zeros(k: nat): (z: string)
    ensures |z| == k && AllDigits(z) && forall i :: 0 <= i < k ==> z[i] == '0'
  {
    seq(k, i => '0')
  }

  /** str(n) for n >= 0. */
  function NatText(n: nat): (s: string)
    ensures s != [] && AllDigits(s)
  {
    if n < 10 then [DigitOf(n)] else NatText(n / 10) + [DigitOf(n % 10)]
  }

  /** str(i). */
  function IntText(i: int): string {
    if i < 0 then "-" + NatText(-i) else NatText(i)
  }

  /** format(n, "0<width>d"). */
  function Padded(n: nat, width: nat): string {
    var t := NatText(n);
    if |t| >= width then t else Zeros(width - |t|) + t
  }

  lemma {:induction false} DigitsValueConcat(a: string, b: string)
    requires AllDigits(a) && AllDigits(b)
    ensures AllDigits(a + b)
    ensures DigitsValue(a + b) == DigitsValue(a) * Pow10(|b|) + DigitsValue(b)
    decreases |b|
  {
    if b == [] {
      assert a + b == a;
    } else {
      var init, last := b[..|b| - 1], DigitValue(b[|b| - 1]);
      assert (a + b)[..|a + b| - 1] == a + init;
      DigitsValueConcat(a, init);
      ShiftInDigit(DigitsValue(a), Pow10(|init|), DigitsValue(init), last);
    }
  }

  lemma ShiftInDigit(a: nat, p: nat, b: nat, d: nat)
    ensures 10 * (a * p + b) + d == a * (10 * p) + (10 * b + d)
  {
  }

  lemma {:induction false} ZerosValue(k: nat)
    ensures DigitsValue(Zeros(k)) == 0
    decreases k
  {
    if k != 0 {
      ZerosValue(k - 1);
      assert Zeros(k)[..k - 1] == Zeros(k - 1);
    }
  }

  lemma {:induction false} DigitsBound(s: string)
    requires AllDigits(s)
    ensures DigitsValue(s) < Pow10(|s|)
    decreases |s|
  {
    if s != [] { DigitsBound(s[..|s| - 1]); }
  }

  /** A digit string with no leading zero names a number of exactly its length. */
  lemma {:induction false} DigitsLowerBound(s: string)
    requires AllDigits(s) && s != [] && s[0] != '0'
    ensures DigitsValue(s) >= Pow10(|s| - 1)
    decreases |s|
  {
    if |s| > 1 {
      DigitsLowerBound(s[..|s| - 1]);
    } else {
      assert DigitsValue(s[..0]) == 0;
    }
  }

  /** int(str(n)) == n, and str(n) has no leading zero unless it is "0". */
  lemma {:induction false} NatTextRoundTrip(n: nat)
    ensures DigitsValue(NatText(n)) == n
    ensures NatText(n)[0] == '0' <==> n == 0
    ensures n != 0 ==> Pow10(|NatText(n)| - 1) <= n < Pow10(|NatText(n)|)
    decreases n
  {
    if n < 10 {
      assert NatText(n)[..0] == [];
      if n != 0 { assert IsDigit(NatText(n)[0]) && DigitValue(NatText(n)[0]) == n; }
    } else {
      NatTextRoundTrip(n / 10);
      assert NatText(n)[..|NatText(n)| - 1] == NatText(n / 10);
      assert DigitValue(DigitOf(n % 10)) == n % 10;
      DigitsBound(NatText(n));
      DigitsLowerBound(NatText(n));
    }
  }

  /** str(int(s)) == s for a digit string with no superfluous leading zero. */
  lemma {:induction false} TextOfValue(s: string)
    requires AllDigits(s) && s != [] && (s[0] != '0' || |s| == 1)
    ensures NatText(DigitsValue(s)) == s
    decreases |s|
  {
    var init, last := s[..|s| - 1], DigitValue(s[|s| - 1]);
    assert s == init + [s[|s| - 1]];
    if init == [] {
      assert DigitsValue(init) == 0;
    } else {
      TextOfValue(init);
      DigitsLowerBound(init);
      assert DigitsValue(s) / 10 == DigitsValue(init);
      assert DigitsValue(s) % 10 == last;
    }
  }

  lemma ZerosInFront(k: nat, t: string)
    requires AllDigits(t)
    ensures AllDigits(Zeros(k) + t) && DigitsValue(Zeros(k) + t) == DigitsValue(t)
  {
    DigitsValueConcat(Zeros(k), t);
    ZerosValue(k);
    assert 0 * Pow10(|t|) == 0;
  }

  lemma TextFits(n: nat, width: nat)
    requires width >= 1 && n < Pow10(width)
    ensures |NatText(n)| <= width
  {
    NatTextRoundTrip(n);
    if n != 0 { Pow10Order(|NatText(n)| - 1, width); }
  }

  lemma Pow10Order(a: nat, b: nat)
    requires Pow10(a) < Pow10(b)
    ensures a < b
  {
    if b <= a { Pow10Monotone(b, a); }
  }

  lemma PaddedShape(n: nat, width: nat)
    requires |NatText(n)| <= width
    ensures Padded(n, width) == Zeros(width - |NatText(n)|) + NatText(n)
  {
  }

  /** A zero-padded field that is wide enough has exactly its width and reads back. */
  lemma PaddedRoundTrip(n: nat, width: nat)
    requires width >= 1 && n < Pow10(width)
    ensures |Padded(n, width)| == width && AllDigits(Padded(n, width))
    ensures DigitsValue(Padded(n, width)) == n
  {
    TextFits(n, width);
    PaddedShape(n, width);
    PaddedValue(n, width);
  }

  lemma PaddedValue(n: nat, width: nat)
    requires |NatText(n)| <= width && Padded(n, width) == Zeros(width - |NatText(n)|) + NatText(n)
    ensures AllDigits(Padded(n, width)) && DigitsValue(Padded(n, width)) == n
  {
    ZerosInFront(width - |NatText(n)|, NatText(n));
    NatTextRoundTrip(n);
  }

  lemma {:induction false} Pow10Monotone(a: nat, b: nat)
    requires a <= b
    ensures Pow10(a) <= Pow10(b)
    decreases b
  {
    if a < b { Pow10Monotone(a, b - 1); }
  }
}

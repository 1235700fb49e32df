/**
 * Numbers in canonical JSON (src/insurance/crypto/jcs.py; section 3.2.2.3 of RFC 8785).
 * A double is taken as its repr text; a decimal is a mantissa and a power of ten.
 */
module JcsNumbers {
  import opened Wrappers
  import opened Decimals

  // ------------------------------------------------------------------ decimals as values

  /** mantissa * 10^exponent */
  datatype Decimal = Decimal(mantissa: int, exponent: int)

  function Min(a: int, b: int): int { if a <= b then a else b }

  function Abs(a: int): nat { if a < 0 then -a else a }

  /** Two decimals name the same number: brought to the smaller exponent, their mantissas agree. */
  predicate SameValue(a: Decimal, b: Decimal) {
    var low := Min(a.exponent, b.exponent);
    a.mantissa * Pow10(a.exponent - low) == b.mantissa * Pow10(b.exponent - low)
  }

  /** The form without trailing zeros; zero is 0 * 10^0. */
  function Normal(d: Decimal): Decimal
    decreases Abs(d.mantissa)
  {
    if d.mantissa == 0 then Decimal(0, 0)
    else if d.mantissa % 10 == 0 then Normal(Decimal(d.mantissa / 10, d.exponent + 1))
    else d
  }

  lemma {:induction false} NormalShape(d: Decimal)
    ensures var n := Normal(d);
            (n.mantissa == 0 <==> d.mantissa == 0) && (n.mantissa == 0 ==> n.exponent == 0)
            && (n.mantissa != 0 ==> n.mantissa % 10 != 0)
            && (d.mantissa > 0 <==> n.mantissa > 0)
    decreases Abs(d.mantissa)
  {
    if d.mantissa != 0 && d.mantissa % 10 == 0 { NormalShape(Decimal(d.mantissa / 10, d.exponent + 1)); }
  }

  /** Moving a power of ten between mantissa and exponent keeps the normal form. */
  lemma {:induction false} NormalShift(m: int, k: nat, e: int)
    ensures Normal(Decimal(m * Pow10(k), e)) == Normal(Decimal(m, e + k))
    decreases k
  {
    if k > 0 && m != 0 {
      var m' := m * Pow10(k - 1);
      TimesTen(m, Pow10(k - 1));
      NonzeroProduct(m, Pow10(k - 1));
      assert m * Pow10(k) == 10 * m';
      assert Normal(Decimal(10 * m', e)) == Normal(Decimal(m', e + 1));
      NormalShift(m, k - 1, e + 1);
    }
  }

  lemma TimesTen(m: int, p: int)
    ensures m * (10 * p) == 10 * (m * p)
  {
  }

  lemma NonzeroProduct(m: int, p: int)
    requires m != 0 && p > 0
    ensures m * p != 0
  {
  }

  /** The normal form names the same number, and equal normal forms are exactly equal numbers. */
  lemma NormalIffSameValue(a: Decimal, b: Decimal)
    ensures Normal(a) == Normal(b) <==> SameValue(a, b)
  {
    var low := Min(a.exponent, b.exponent);
    var ma, mb := a.mantissa * Pow10(a.exponent - low), b.mantissa * Pow10(b.exponent - low);
    NormalShift(a.mantissa, a.exponent - low, low);
    NormalShift(b.mantissa, b.exponent - low, low);
    assert Normal(a) == Normal(Decimal(ma, low)) && Normal(b) == Normal(Decimal(mb, low));
    if Normal(a) == Normal(b) {
      NormalInjective(ma, mb, low);
    }
  }

  lemma {:induction false} NormalInjective(m: int, m': int, e: int)
    requires Normal(Decimal(m, e)) == Normal(Decimal(m', e))
    ensures m == m'
  {
    var k := NormalExponent(m, e);
    var k' := NormalExponent(m', e);
    NormalShape(Decimal(m, e));
    NormalShape(Decimal(m', e));
  }

  /** How far normalising moved the exponent. */
  lemma {:induction false} NormalExponent(m: int, e: int) returns (k: nat)
    ensures m != 0 ==> Normal(Decimal(m, e)).exponent == e + k && m == Normal(Decimal(m, e)).mantissa * Pow10(k)
    decreases Abs(m)
  {
    k := 0;
    if m != 0 && m % 10 == 0 {
      var j := NormalExponent(m / 10, e + 1);
      k := j + 1;
      TimesTen(Normal(Decimal(m, e)).mantissa, Pow10(j));
    }
  }

  // ---------------------------------------------------------------------- numeral texts

  /** str.partition: what precedes the first c, whether there is one, and what follows it. */
  function Cut(s: string, c: char): (r: (string, bool, string)) {
    if s == [] then ("", false, "")
    else if s[0] == c then ("", true, s[1..])
    else var (head, found, tail) := Cut(s[1..], c); ([s[0]] + head, found, tail)
  }

  /** Cut splits at the first occurrence. */
  lemma {:induction false} CutSplits(s: string, c: char)
    ensures var (head, found, tail) := Cut(s, c);
            c !in head && s == (if found then head + [c] + tail else head)
    decreases |s|
  {
    if s != [] && s[0] != c {
      CutSplits(s[1..], c);
      assert s == [s[0]] + s[1..];
    }
  }

  lemma {:induction false} CutAt(a: string, c: char, b: string)
    requires c !in a
    ensures Cut(a + [c] + b, c) == (a, true, b)
    decreases |a|
  {
    if a != [] {
      var s := a + [c] + b;
      assert s[0] == a[0] && s[1..] == a[1..] + [c] + b;
      CutAt(a[1..], c, b);
      assert [a[0]] + a[1..] == a;
    }
  }

  lemma {:induction false} CutNowhere(a: string, c: char)
    requires c !in a
    ensures Cut(a, c) == (a, false, "")
    decreases |a|
  {
    if a != [] {
      CutNowhere(a[1..], c);
      assert [a[0]] + a[1..] == a;
    }
  }

  /** An exponent text: optional sign, at least one digit. */
  predicate IsExponent(t: string) {
    t != [] && if t[0] == '+' || t[0] == '-' then |t| > 1 && AllDigits(t[1..]) else AllDigits(t)
  }

  function ExponentValue(t: string): int
    requires IsExponent(t)
  {
    if t[0] == '-' then 0 - DigitsValue(t[1..]) else if t[0] == '+' then DigitsValue(t[1..]) else DigitsValue(t)
  }

  function Signed(neg: bool, n: int): int { if neg then -n else n }

  /** The number a numeral text denotes: sign, digits, optional fraction, optional exponent. */
  function Denote(text: string): Option<Decimal> {
    var neg := text != [] && text[0] == '-';
    var (mant, hasExp, expText) := Cut(if neg then text[1..] else text, 'e');
    var (whole, hasDot, frac) := Cut(mant, '.');
    if whole == [] || !AllDigits(whole) || !AllDigits(frac) || (hasDot && frac == []) then None
    else if hasExp && !IsExponent(expText) then None
    else Some(Decimal(Signed(neg, DigitsValue(whole + frac)),
                      (if hasExp then ExponentValue(expText) else 0) - |frac|))
  }

  function SignText(neg: bool): string { if neg then "-" else "" }

  lemma DigitsAvoid(s: string, c: char)
    requires AllDigits(s) && !IsDigit(c)
    ensures c !in s
  {
  }

  /** The unsigned numeral with the given digits before and after the point and exponent text. */
  function NumeralBody(whole: string, frac: string, expText: string): string {
    var mant := if frac == [] then whole else whole + "." + frac;
    if expText == [] then mant else mant + "e" + expText
  }

  /** The number an unsigned numeral with these parts names. */
  function PartsValue(whole: string, frac: string, expText: string): Decimal
    requires AllDigits(whole) && AllDigits(frac) && (expText == [] || IsExponent(expText))
  {
    Decimal(DigitsValue(whole + frac), (if expText == [] then 0 else ExponentValue(expText)) - |frac|)
  }

  lemma BodyCuts(whole: string, frac: string, expText: string)
    requires whole != [] && AllDigits(whole) && AllDigits(frac)
    ensures var body := NumeralBody(whole, frac, expText);
            var mant := Cut(body, 'e').0;
            && Cut(body, 'e') == (mant, expText != [], expText)
            && Cut(mant, '.') == (whole, frac != [], frac)
            && body != [] && IsDigit(body[0])
  {
    var mant := if frac == [] then whole else whole + "." + frac;
    DigitsAvoid(whole, '.');
    DigitsAvoid(whole, 'e');
    DigitsAvoid(frac, 'e');
    assert 'e' !in mant;
    if expText == [] { CutNowhere(mant, 'e'); } else { CutAt(mant, 'e', expText); }
    if frac == [] { CutNowhere(whole, '.'); } else { CutAt(whole, '.', frac); }
  }

  /** Reading an assembled numeral gives its parts back. */
  /** What a body cut into its parts denotes, under a sign. */
  lemma DenoteCut(neg: bool, text: string, body: string, whole: string, frac: string, expText: string)
    requires text != [] && (text[0] == '-') == neg && (if neg then text[1..] else text) == body
    requires Cut(body, 'e').1 == (expText != []) && Cut(body, 'e').2 == expText
    requires Cut(Cut(body, 'e').0, '.') == (whole, frac != [], frac)
    requires whole != [] && AllDigits(whole) && AllDigits(frac) && (expText == [] || IsExponent(expText))
    ensures var p := PartsValue(whole, frac, expText);
            Denote(text) == Some(Decimal(Signed(neg, p.mantissa), p.exponent))
  {
  }

  lemma DenoteAssembled(neg: bool, whole: string, frac: string, expText: string)
    requires whole != [] && AllDigits(whole) && AllDigits(frac) && (expText == [] || IsExponent(expText))
    ensures var p := PartsValue(whole, frac, expText);
            Denote(SignText(neg) + NumeralBody(whole, frac, expText))
              == Some(Decimal(Signed(neg, p.mantissa), p.exponent))
  {
    var body := NumeralBody(whole, frac, expText);
    BodyCuts(whole, frac, expText);
    SignedText(neg, body);
    DenoteCut(neg, SignText(neg) + body, body, whole, frac, expText);
  }

  lemma SignedText(neg: bool, body: string)
    requires body != [] && IsDigit(body[0])
    ensures var text := SignText(neg) + body;
            text != [] && (text[0] == '-') == neg && (if neg then text[1..] else text) == body
  {
  }

  // --------------------------------------------------------------- doubles as repr texts

  /** The shape of repr(abs(x)) for a finite double: a numeral without a sign. */
  predicate ReprShaped(rep: string) {
    rep != [] && IsDigit(rep[0]) && Denote(rep).Some?
  }

  /** The number a double is, from its sign and the repr of its magnitude. */
  function DoubleValue(neg: bool, rep: string): Decimal
    requires ReprShaped(rep)
  {
    var d := Denote(rep).value;
    Decimal(Signed(neg, d.mantissa), d.exponent)
  }

  function LStripZeros(s: string): string {
    if s != [] && s[0] == '0' then LStripZeros(s[1..]) else s
  }

  function RStripZeros(s: string): string {
    if s != [] && s[|s| - 1] == '0' then RStripZeros(s[..|s| - 1]) else s
  }

  /** _shortest_digits: the significant digits of a repr text and their power of ten. */
  function ShortestDigits(rep: string): (string, int)
    requires ReprShaped(rep)
  {
    var (mant, hasExp, expText) := Cut(rep, 'e');
    var e := if hasExp then ExponentValue(expText) else 0;
    var (whole, _, frac) := Cut(mant, '.');
    var digits := LStripZeros(whole + frac);
    var trailing := |digits| - |RStripZeros(digits)|;
    (if RStripZeros(digits) == [] then "0" else RStripZeros(digits), e - |frac| + trailing)
  }

  /** The notation for digits * 10^exp10: integer, fixed, 0.000ddd or exponential. */
  function LayoutBody(digits: string, exp10: int): string
    requires digits != []
  {
    var k := |digits|;
    var n := k + exp10;
    if k <= n <= 21 then digits + Zeros(n - k)
    else if 0 < n <= 21 then digits[..n] + "." + digits[n..]
    else if -6 < n <= 0 then "0." + Zeros(-n) + digits
    else
      var mant := if k == 1 then digits else digits[..1] + "." + digits[1..];
      mant + "e" + ExponentText(n - 1)
  }

  function ExponentText(x: int): string { (if x >= 0 then "+" else "") + IntText(x) }

  function Layout(neg: bool, digits: string, exp10: int): string
    requires digits != []
  {
    SignText(neg) + LayoutBody(digits, exp10)
  }

  /** _number_to_string for a finite double. */
  function NumberToString(neg: bool, rep: string): string
    requires ReprShaped(rep)
  {
    if Denote(rep).value.mantissa == 0 then "0"
    else
      var (digits, exp10) := ShortestDigits(rep);
      ShortestDigitsNonempty(rep);
      Layout(neg, digits, exp10)
  }

  lemma ShortestDigitsNonempty(rep: string)
    requires ReprShaped(rep)
    ensures ShortestDigits(rep).0 != []
  {
  }

  // ------------------------------------------------------------------- exactness

  lemma {:induction false} LStripZerosValue(s: string)
    requires AllDigits(s)
    ensures AllDigits(LStripZeros(s)) && DigitsValue(LStripZeros(s)) == DigitsValue(s)
    ensures LStripZeros(s) != [] ==> LStripZeros(s)[0] != '0'
    decreases |s|
  {
    if s != [] && s[0] == '0' {
      LStripZerosValue(s[1..]);
      assert s == [s[0]] + s[1..];
      DigitsValueConcat([s[0]], s[1..]);
      assert DigitsValue([s[0]]) == 0 by { assert [s[0]][..0] == []; }
    }
  }

  lemma {:induction false} RStripZerosValue(s: string)
    requires AllDigits(s)
    ensures var t := RStripZeros(s);
            && AllDigits(t) && |t| <= |s| && t == s[..|t|]
            && DigitsValue(s) == DigitsValue(t) * Pow10(|s| - |t|)
            && (t != [] ==> t[|t| - 1] != '0')
    decreases |s|
  {
    if s != [] && s[|s| - 1] == '0' {
      var init := s[..|s| - 1];
      RStripZerosValue(init);
      var t := RStripZeros(init);
      TimesTen(DigitsValue(t), Pow10(|init| - |t|));
    }
  }

  lemma TrailingDigit(s: string)
    requires AllDigits(s) && s != []
    ensures DigitsValue(s) % 10 == DigitValue(s[|s| - 1])
  {
  }

  /** The shape of significant digits: no leading zero, no trailing zero. */
  predicate Significant(digits: string) {
    digits != [] && AllDigits(digits) && digits[0] != '0' && digits[|digits| - 1] != '0'
  }

  lemma ReprParts(rep: string)
    requires ReprShaped(rep)
    ensures var (mant, hasExp, expText) := Cut(rep, 'e');
            var (whole, hasDot, frac) := Cut(mant, '.');
            && AllDigits(whole + frac) && (hasExp ==> IsExponent(expText))
            && Denote(rep) == Some(Decimal(DigitsValue(whole + frac),
                                           (if hasExp then ExponentValue(expText) else 0) - |frac|))
  {
    assert !IsDigit('-');
  }

  /**
   * For every nonzero double the digits have no leading or trailing zero, and
   * digits * 10^exp10 is its magnitude.
   */
  lemma ShortestDigitsExact(rep: string)
    requires ReprShaped(rep) && Denote(rep).value.mantissa != 0
    ensures var (digits, exp10) := ShortestDigits(rep);
            Significant(digits) && Decimal(DigitsValue(digits), exp10) == Normal(Denote(rep).value)
  {
    ReprParts(rep);
    var (mant, hasExp, expText) := Cut(rep, 'e');
    var e := if hasExp then ExponentValue(expText) else 0;
    var (whole, _, frac) := Cut(mant, '.');
    var all := whole + frac;
    var stripped := LStripZeros(all);
    var digits := RStripZeros(stripped);
    LStripZerosValue(all);
    RStripZerosValue(stripped);
    assert digits != [];
    assert digits[0] == stripped[0];
    TrailingDigit(digits);
    NormalShift(DigitsValue(digits), |stripped| - |digits|, e - |frac|);
  }

  lemma DigitsOfValue(digits: string)
    requires Significant(digits)
    ensures NatText(DigitsValue(digits)) == digits
  {
    TextOfValue(digits);
  }

  /** The text of a number that is not a safe integer depends only on the number. */
  lemma NumberToStringOfValue(neg: bool, rep: string)
    requires ReprShaped(rep) && Denote(rep).value.mantissa != 0
    ensures var d := Normal(DoubleValue(neg, rep));
            NumberToString(neg, rep) == Layout(d.mantissa < 0, NatText(Abs(d.mantissa)), d.exponent)
  {
    ShortestDigitsExact(rep);
    var (digits, exp10) := ShortestDigits(rep);
    DigitsOfValue(digits);
    ReprNonNegative(rep);
    SignOfValue(neg, Denote(rep).value);
    assert NumberToString(neg, rep) == Layout(neg, digits, exp10);
  }

  lemma ReprNonNegative(rep: string)
    requires ReprShaped(rep)
    ensures Denote(rep).value.mantissa >= 0
  {
    ReprParts(rep);
  }

  lemma SignOfValue(neg: bool, d: Decimal)
    requires d.mantissa > 0
    ensures var n := Normal(Decimal(Signed(neg, d.mantissa), d.exponent));
            (n.mantissa < 0 <==> neg) && Abs(n.mantissa) == Normal(d).mantissa && n.exponent == Normal(d).exponent
  {
    NormalOfNegated(d);
    NormalShape(d);
  }

  lemma {:induction false} NormalOfNegated(d: Decimal)
    ensures Normal(Decimal(-d.mantissa, d.exponent)) == Decimal(-Normal(d).mantissa, Normal(d).exponent)
    decreases Abs(d.mantissa)
  {
    if d.mantissa != 0 && d.mantissa % 10 == 0 {
      assert -d.mantissa / 10 == -(d.mantissa / 10);
      NormalOfNegated(Decimal(d.mantissa / 10, d.exponent + 1));
    }
  }

  lemma ValueWithZeros(digits: string, k: nat)
    requires AllDigits(digits)
    ensures AllDigits(digits + Zeros(k)) && DigitsValue(digits + Zeros(k)) == DigitsValue(digits) * Pow10(k)
    ensures AllDigits(Zeros(k) + digits) && DigitsValue(Zeros(k) + digits) == DigitsValue(digits)
  {
    DigitsValueConcat(digits, Zeros(k));
    DigitsValueConcat(Zeros(k), digits);
    ZerosValue(k);
  }

  lemma ExponentTextReads(x: int)
    ensures IsExponent(ExponentText(x)) && ExponentValue(ExponentText(x)) == x
  {
    var t := ExponentText(x);
    NatTextRoundTrip(Abs(x));
    if x >= 0 { assert t == "+" + NatText(x); } else { assert t == "-" + NatText(-x); }
    assert t[1..] == NatText(Abs(x));
  }

  /** The digits before and after the point and the exponent text of a layout. */
  function LayoutParts(digits: string, exp10: int): (string, string, string)
    requires digits != []
  {
    var n := |digits| + exp10;
    if |digits| <= n <= 21 then (digits + Zeros(n - |digits|), "", "")
    else if 0 < n <= 21 then (digits[..n], digits[n..], "")
    else if -6 < n <= 0 then (Zeros(1), Zeros(-n) + digits, "")
    else (digits[..1], digits[1..], ExponentText(n - 1))
  }

  lemma LayoutIsItsParts(digits: string, exp10: int)
    requires Significant(digits)
    ensures var (whole, frac, expText) := LayoutParts(digits, exp10);
            LayoutBody(digits, exp10) == NumeralBody(whole, frac, expText)
  {
    var n := |digits| + exp10;
    var (whole, frac, expText) := LayoutParts(digits, exp10);
    if !(-6 < n <= 21) {
      assert |digits| == 1 ==> digits[..1] == digits;
    } else if n <= 0 {
      assert Zeros(1) + "." == "0.";
    }
  }

  lemma IntegerParts(digits: string, exp10: nat)
    requires Significant(digits)
    ensures AllDigits(digits + Zeros(exp10))
    ensures Normal(PartsValue(digits + Zeros(exp10), "", "")) == Normal(Decimal(DigitsValue(digits), exp10))
  {
    ValueWithZeros(digits, exp10);
    assert digits + Zeros(exp10) + "" == digits + Zeros(exp10);
    NormalShift(DigitsValue(digits), exp10, 0);
  }

  lemma FractionParts(digits: string, zeros: nat)
    requires Significant(digits)
    ensures AllDigits(Zeros(zeros) + digits)
    ensures PartsValue(Zeros(1), Zeros(zeros) + digits, "") == Decimal(DigitsValue(digits), 0 - |digits| - zeros)
  {
    ValueWithZeros(digits, zeros);
    ValueWithZeros(Zeros(zeros) + digits, 1);
  }

  lemma SplitDigits(digits: string, n: nat)
    requires AllDigits(digits) && n <= |digits|
    ensures AllDigits(digits[..n]) && AllDigits(digits[n..]) && digits[..n] + digits[n..] == digits
  {
  }

  lemma SplitParts(digits: string, n: nat, expText: string)
    requires Significant(digits) && 0 < n <= |digits| && (expText == [] || IsExponent(expText))
    ensures AllDigits(digits[..n]) && AllDigits(digits[n..])
    ensures PartsValue(digits[..n], digits[n..], expText)
            == Decimal(DigitsValue(digits), (if expText == [] then 0 else ExponentValue(expText)) - (|digits| - n))
  {
    SplitDigits(digits, n);
    assert |digits[n..]| == |digits| - n;
  }

  predicate PartsName(parts: (string, string, string), d: Decimal) {
    && parts.0 != [] && AllDigits(parts.0) && AllDigits(parts.1) && (parts.2 == [] || IsExponent(parts.2))
    && Normal(PartsValue(parts.0, parts.1, parts.2)) == Normal(d)
  }

  lemma IntegerLayout(digits: string, exp10: int)
    requires Significant(digits) && |digits| <= |digits| + exp10 <= 21
    ensures PartsName(LayoutParts(digits, exp10), Decimal(DigitsValue(digits), exp10))
  {
    assert LayoutParts(digits, exp10) == (digits + Zeros(exp10), "", "");
    IntegerParts(digits, exp10);
  }

  lemma FixedLayout(digits: string, exp10: int)
    requires Significant(digits) && 0 < |digits| + exp10 <= 21 && exp10 < 0
    ensures PartsName(LayoutParts(digits, exp10), Decimal(DigitsValue(digits), exp10))
  {
    var n := |digits| + exp10;
    assert LayoutParts(digits, exp10) == (digits[..n], digits[n..], "");
    SplitParts(digits, n, "");
  }

  lemma SmallLayout(digits: string, exp10: int)
    requires Significant(digits) && -6 < |digits| + exp10 <= 0
    ensures PartsName(LayoutParts(digits, exp10), Decimal(DigitsValue(digits), exp10))
  {
    var n := |digits| + exp10;
    assert LayoutParts(digits, exp10) == (Zeros(1), Zeros(-n) + digits, "");
    FractionParts(digits, -n);
  }

  lemma ExponentParts(digits: string, expText: string, exp10: int)
    requires Significant(digits) && IsExponent(expText) && ExponentValue(expText) == |digits| + exp10 - 1
    ensures PartsName((digits[..1], digits[1..], expText), Decimal(DigitsValue(digits), exp10))
  {
    SplitParts(digits, 1, expText);
  }

  lemma ExponentLayout(digits: string, exp10: int)
    requires Significant(digits) && (|digits| + exp10 > 21 || |digits| + exp10 <= -6)
    ensures PartsName(LayoutParts(digits, exp10), Decimal(DigitsValue(digits), exp10))
  {
    var expText := ExponentText(|digits| + exp10 - 1);
    ExponentTextReads(|digits| + exp10 - 1);
    ExponentParts(digits, expText, exp10);
    assert LayoutParts(digits, exp10) == (digits[..1], digits[1..], expText);
  }

  /** The parts of a layout name digits * 10^exp10. */
  lemma LayoutPartsValue(digits: string, exp10: int)
    requires Significant(digits)
    ensures PartsName(LayoutParts(digits, exp10), Decimal(DigitsValue(digits), exp10))
  {
    var n := |digits| + exp10;
    if |digits| <= n <= 21 { IntegerLayout(digits, exp10); }
    else if 0 < n <= 21 { FixedLayout(digits, exp10); }
    else if -6 < n <= 0 { SmallLayout(digits, exp10); }
    else { ExponentLayout(digits, exp10); }
  }

  /** Every notation denotes exactly the signed number it was laid out from. */
  lemma LayoutDenotes(neg: bool, digits: string, exp10: int)
    requires Significant(digits)
    ensures var d := Denote(Layout(neg, digits, exp10));
            d.Some? && Normal(d.value) == Normal(Decimal(Signed(neg, DigitsValue(digits)), exp10))
  {
    var parts := LayoutParts(digits, exp10);
    LayoutIsItsParts(digits, exp10);
    LayoutPartsValue(digits, exp10);
    DenoteAssembled(neg, parts.0, parts.1, parts.2);
    SameNormalSigned(neg, PartsValue(parts.0, parts.1, parts.2), Decimal(DigitsValue(digits), exp10));
  }

  lemma SameNormalSigned(neg: bool, a: Decimal, b: Decimal)
    requires Normal(a) == Normal(b)
    ensures Normal(Decimal(Signed(neg, a.mantissa), a.exponent)) == Normal(Decimal(Signed(neg, b.mantissa), b.exponent))
  {
    NormalOfNegated(a);
    NormalOfNegated(b);
  }

  /**
   * The emitted text of a nonzero double denotes exactly the double's own signed decimal value,
   * in whichever of the four notations it comes out.
   */
  lemma NumberToStringExact(neg: bool, rep: string)
    requires ReprShaped(rep) && Denote(rep).value.mantissa != 0
    ensures var d := Denote(NumberToString(neg, rep));
            d.Some? && SameValue(d.value, DoubleValue(neg, rep))
  {
    ShortestDigitsExact(rep);
    var (digits, exp10) := ShortestDigits(rep);
    LayoutDenotes(neg, digits, exp10);
    NormalIdempotent(Denote(rep).value);
    SameNormalSigned(neg, Denote(rep).value, Decimal(DigitsValue(digits), exp10));
    NormalIffSameValue(Denote(NumberToString(neg, rep)).value, DoubleValue(neg, rep));
  }

  lemma NormalIdempotent(a: Decimal)
    ensures Normal(Normal(a)) == Normal(a)
  {
    NormalShape(a);
  }

  /** The notation switches: plain integers below 10^21, fractions down to 10^-6, exponents outside. */
  lemma NotationThresholds(digits: string, exp10: int)
    requires Significant(digits)
    ensures 'e' in LayoutBody(digits, exp10) <==> !(-6 < |digits| + exp10 <= 21)
    ensures '.' in LayoutBody(digits, exp10) && 'e' !in LayoutBody(digits, exp10)
            <==> -6 < |digits| + exp10 <= 21 && exp10 < 0
  {
    DigitsAvoid(digits, 'e');
    DigitsAvoid(digits, '.');
    var k := |digits|;
    var n := k + exp10;
    var body := LayoutBody(digits, exp10);
    if k <= n <= 21 {
    } else if 0 < n <= 21 {
      assert body[n] == '.';
    } else if -6 < n <= 0 {
      assert body[1] == '.';
    } else {
      var mant := if k == 1 then digits else digits[..1] + "." + digits[1..];
      assert body[|mant|] == 'e';
    }
  }
}

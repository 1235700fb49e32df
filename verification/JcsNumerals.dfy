/**
 * Which numeral canonical JSON writes for a number (section 3.2.2.3 of RFC 8785): the rules of its text, and that a
 * number has exactly one numeral that keeps them.
 */
module JcsNumerals {
  import opened Wrappers
  import opened Decimals
  import opened JcsNumbers
  import opened Jcs

  /** The digits before the point, those after it, and the exponent. */
  datatype Numeral = Numeral(whole: string, frac: string, expText: string)

  function TextOf(neg: bool, n: Numeral): string { SignText(neg) + NumeralBody(n.whole, n.frac, n.expText) }

  /** No superfluous zero before or after the digits, and a decimal point only with digits on both sides. */
  predicate NoSpareZeros(n: Numeral) {
    && n.whole != "" && AllDigits(n.whole) && AllDigits(n.frac)
    && (n.whole[0] == '0' ==> |n.whole| == 1)
    && (n.frac != "" ==> n.frac[|n.frac| - 1] != '0')
  }

  /** At most 21 digits before the point, and a digit other than zero among the first six after "0.". */
  predicate PlainRange(n: Numeral) {
    |n.whole| <= 21 && (n.whole == "0" && n.frac != "" ==> exists i :: 0 <= i < 6 && i < |n.frac| && n.frac[i] != '0')
  }

  /** One digit, not zero, before the point; a signed exponent without leading zeros, below -6 or above 20. */
  predicate ScientificForm(n: Numeral) {
    && |n.whole| == 1 && n.whole != "0"
    && |n.expText| > 1 && (n.expText[0] == '+' || n.expText[0] == '-')
    && AllDigits(n.expText[1..]) && n.expText[1] != '0'
    && (n.expText[0] == '+' ==> DigitsValue(n.expText[1..]) >= 21)
    && (n.expText[0] == '-' ==> DigitsValue(n.expText[1..]) >= 7)
  }

  predicate Canonical(n: Numeral) { NoSpareZeros(n) && if n.expText == "" then PlainRange(n) else ScientificForm(n) }

  /** The magnitude a numeral names. */
  function Value(n: Numeral): Decimal
    requires Canonical(n)
  {
    PartsValue(n.whole, n.frac, n.expText)
  }

  function LaidOut(digits: string, exp10: int): Numeral
    requires digits != []
  {
    var (whole, frac, expText) := LayoutParts(digits, exp10);
    Numeral(whole, frac, expText)
  }

  // ------------------------------------------------------------ a canonical numeral is laid out

  /** The digits and the exponent a numeral must be laid out from. */
  predicate LaidOutFrom(n: Numeral, digits: string, exp10: int)
    requires Canonical(n)
  {
    Significant(digits) && Normal(Value(n)) == Decimal(DigitsValue(digits), exp10) && n == LaidOut(digits, exp10)
  }

  lemma SignificantIsNormal(digits: string, exp10: int)
    requires Significant(digits)
    ensures Normal(Decimal(DigitsValue(digits), exp10)) == Decimal(DigitsValue(digits), exp10)
    ensures DigitsValue(digits) > 0
  {
    TrailingDigit(digits);
    assert IsDigit(digits[|digits| - 1]) && DigitValue(digits[|digits| - 1]) != 0;
  }

  lemma {:induction false} RStripLeavesZeros(s: string)
    ensures |RStripZeros(s)| <= |s| && s == RStripZeros(s) + Zeros(|s| - |RStripZeros(s)|)
    decreases |s|
  {
    if s != [] && s[|s| - 1] == '0' { RStripLeavesZeros(s[..|s| - 1]); }
  }

  lemma {:induction false} LStripLeavesZeros(s: string)
    ensures |LStripZeros(s)| <= |s| && s == Zeros(|s| - |LStripZeros(s)|) + LStripZeros(s)
    decreases |s|
  {
    if s != [] && s[0] == '0' {
      LStripLeavesZeros(s[1..]);
      assert s == ['0'] + s[1..];
    }
  }

  lemma {:induction false} HeadSurvives(s: string)
    requires s != [] && s[0] != '0'
    ensures RStripZeros(s) != []
    decreases |s|
  {
    if s[|s| - 1] == '0' { HeadSurvives(s[..|s| - 1]); }
  }

  lemma IntegerIsLaidOut(n: Numeral) returns (digits: string, exp10: int)
    requires Canonical(n) && n.expText == "" && n.frac == "" && n.whole != "0"
    ensures LaidOutFrom(n, digits, exp10)
  {
    RStripLeavesZeros(n.whole);
    RStripZerosValue(n.whole);
    digits := RStripZeros(n.whole);
    exp10 := |n.whole| - |digits|;
    assert n.whole[0] != '0';
    HeadSurvives(n.whole);
    assert digits[0] == n.whole[0];
    assert n.whole + "" == n.whole;
    NormalShift(DigitsValue(digits), exp10, 0);
    SignificantIsNormal(digits, exp10);
  }

  lemma FixedIsLaidOut(n: Numeral) returns (digits: string, exp10: int)
    requires Canonical(n) && n.expText == "" && n.frac != "" && n.whole != "0"
    ensures LaidOutFrom(n, digits, exp10)
  {
    digits, exp10 := n.whole + n.frac, 0 - |n.frac|;
    SignificantIsNormal(digits, exp10);
    assert digits[..|n.whole|] == n.whole && digits[|n.whole|..] == n.frac;
  }

  lemma FewZeros(frac: string)
    requires exists i :: 0 <= i < 6 && i < |frac| && frac[i] != '0'
    ensures |LStripZeros(frac)| > |frac| - 6
  {
    LStripLeavesZeros(frac);
    var i :| 0 <= i < 6 && i < |frac| && frac[i] != '0';
    assert i >= |frac| - |LStripZeros(frac)|;
  }

  lemma SmallValue(frac: string)
    requires frac != "" && AllDigits(frac) && frac[|frac| - 1] != '0'
    ensures Significant(LStripZeros(frac))
    ensures PartsValue(Zeros(1), frac, "") == Decimal(DigitsValue(LStripZeros(frac)), 0 - |frac|)
  {
    LStripLeavesZeros(frac);
    LStripZerosValue(frac);
    var digits := LStripZeros(frac);
    assert digits != [] && digits[|digits| - 1] == frac[|frac| - 1];
    ZerosInFront(1, frac);
  }

  lemma SmallIsLaidOut(n: Numeral) returns (digits: string, exp10: int)
    requires Canonical(n) && n.expText == "" && n.frac != "" && n.whole == "0"
    ensures LaidOutFrom(n, digits, exp10)
  {
    assert "0" == Zeros(1);
    SmallValue(n.frac);
    LStripLeavesZeros(n.frac);
    FewZeros(n.frac);
    digits, exp10 := LStripZeros(n.frac), 0 - |n.frac|;
    SignificantIsNormal(digits, exp10);
    assert LaidOut(digits, exp10) == Numeral("0", n.frac, "");
  }

  lemma ExponentIsItsText(expText: string)
    requires |expText| > 1 && (expText[0] == '+' || expText[0] == '-') && AllDigits(expText[1..]) && expText[1] != '0'
    ensures IsExponent(expText) && ExponentText(ExponentValue(expText)) == expText
    ensures expText[0] == '-' <==> ExponentValue(expText) < 0
  {
    TextOfValue(expText[1..]);
    DigitsLowerBound(expText[1..]);
    assert expText == [expText[0]] + expText[1..];
  }

  lemma ScientificLayout(whole: string, frac: string, x: int)
    requires |whole| == 1 && (x >= 21 || x <= -7)
    ensures LaidOut(whole + frac, x - |frac|) == Numeral(whole, frac, ExponentText(x))
  {
    var digits := whole + frac;
    assert digits[..1] == whole && digits[1..] == frac;
  }

  lemma DigitsSignificant(whole: string, frac: string)
    requires whole != "" && whole[0] != '0' && AllDigits(whole) && AllDigits(frac)
    requires frac != "" ==> frac[|frac| - 1] != '0'
    requires frac == "" ==> |whole| == 1
    ensures Significant(whole + frac)
  {
  }

  lemma ScientificValue(n: Numeral)
    requires Canonical(n) && n.expText != ""
    ensures IsExponent(n.expText) && Significant(n.whole + n.frac)
    ensures Normal(Value(n)) == Decimal(DigitsValue(n.whole + n.frac), ExponentValue(n.expText) - |n.frac|)
  {
    ExponentIsItsText(n.expText);
    DigitsSignificant(n.whole, n.frac);
    SignificantIsNormal(n.whole + n.frac, ExponentValue(n.expText) - |n.frac|);
  }

  lemma ScientificIsLaidOut(n: Numeral) returns (digits: string, exp10: int)
    requires Canonical(n) && n.expText != ""
    ensures LaidOutFrom(n, digits, exp10)
  {
    ScientificValue(n);
    ExponentIsItsText(n.expText);
    var x := ExponentValue(n.expText);
    digits, exp10 := n.whole + n.frac, x - |n.frac|;
    ScientificLayout(n.whole, n.frac, x);
  }

  /** Every canonical numeral but zero is a layout of the digits and exponent of its value. */
  lemma CanonicalIsLaidOut(n: Numeral) returns (digits: string, exp10: int)
    requires Canonical(n) && n != Numeral("0", "", "")
    ensures LaidOutFrom(n, digits, exp10)
  {
    if n.expText != "" { digits, exp10 := ScientificIsLaidOut(n); }
    else if n.frac == "" { digits, exp10 := IntegerIsLaidOut(n); }
    else if n.whole != "0" { digits, exp10 := FixedIsLaidOut(n); }
    else { digits, exp10 := SmallIsLaidOut(n); }
  }

  /** A value other than zero has one canonical numeral. */
  lemma CanonicalIsUnique(a: Numeral, b: Numeral)
    requires Canonical(a) && Canonical(b) && a != Numeral("0", "", "") && b != Numeral("0", "", "")
    requires Normal(Value(a)) == Normal(Value(b))
    ensures a == b
  {
    var d, e := CanonicalIsLaidOut(a);
    var f, g := CanonicalIsLaidOut(b);
    DigitsOfValue(d);
    DigitsOfValue(f);
  }

  // ------------------------------------------------------------ what is laid out is canonical

  lemma ExponentTextForm(x: int)
    requires x >= 21 || x <= -7
    ensures var t := ExponentText(x);
            && |t| > 1 && (t[0] == '+' || t[0] == '-') && AllDigits(t[1..]) && t[1] != '0'
            && (t[0] == '+' ==> DigitsValue(t[1..]) >= 21) && (t[0] == '-' ==> DigitsValue(t[1..]) >= 7)
  {
    NatTextRoundTrip(Abs(x));
    var t := ExponentText(x);
    assert t == [if x >= 0 then '+' else '-'] + NatText(Abs(x));
    assert t[1..] == NatText(Abs(x));
  }

  lemma IntegerLaidOut(digits: string, exp10: int)
    requires Significant(digits) && |digits| <= |digits| + exp10 <= 21
    ensures Canonical(LaidOut(digits, exp10)) && LaidOut(digits, exp10) != Numeral("0", "", "")
  {
    assert (digits + Zeros(exp10))[0] == digits[0];
  }

  lemma FixedLaidOut(digits: string, exp10: int)
    requires Significant(digits) && 0 < |digits| + exp10 <= 21 && exp10 < 0
    ensures Canonical(LaidOut(digits, exp10)) && LaidOut(digits, exp10) != Numeral("0", "", "")
  {
    var n := |digits| + exp10;
    SplitDigits(digits, n);
    assert digits[..n][0] == digits[0] && digits[n..][|digits| - n - 1] == digits[|digits| - 1];
  }

  lemma SmallLaidOut(digits: string, exp10: int)
    requires Significant(digits) && -6 < |digits| + exp10 <= 0
    ensures Canonical(LaidOut(digits, exp10)) && LaidOut(digits, exp10) != Numeral("0", "", "")
  {
    var zeros := 0 - |digits| - exp10;
    var frac := Zeros(zeros) + digits;
    assert frac[zeros] == digits[0] && frac[|frac| - 1] == digits[|digits| - 1];
    assert Zeros(1) == "0";
    assert LaidOut(digits, exp10) == Numeral("0", frac, "");
  }

  lemma ScientificLaidOut(digits: string, exp10: int)
    requires Significant(digits) && (|digits| + exp10 > 21 || |digits| + exp10 <= -6)
    ensures Canonical(LaidOut(digits, exp10)) && LaidOut(digits, exp10) != Numeral("0", "", "")
  {
    ExponentTextForm(|digits| + exp10 - 1);
    SplitDigits(digits, 1);
    assert LaidOut(digits, exp10) == Numeral(digits[..1], digits[1..], ExponentText(|digits| + exp10 - 1));
    assert |digits| > 1 ==> digits[1..][|digits| - 2] == digits[|digits| - 1];
  }

  /** Whatever is laid out from significant digits keeps the rules. */
  lemma LaidOutIsCanonical(digits: string, exp10: int)
    requires Significant(digits)
    ensures Canonical(LaidOut(digits, exp10)) && LaidOut(digits, exp10) != Numeral("0", "", "")
  {
    var n := |digits| + exp10;
    if |digits| <= n <= 21 { IntegerLaidOut(digits, exp10); }
    else if 0 < n <= 21 { FixedLaidOut(digits, exp10); }
    else if -6 < n <= 0 { SmallLaidOut(digits, exp10); }
    else { ScientificLaidOut(digits, exp10); }
  }

  lemma LaidOutValue(digits: string, exp10: int)
    requires Significant(digits) && Canonical(LaidOut(digits, exp10))
    ensures Normal(Value(LaidOut(digits, exp10))) == Decimal(DigitsValue(digits), exp10)
  {
    LayoutPartsValue(digits, exp10);
    SignificantIsNormal(digits, exp10);
  }

  lemma LayoutNumeral(d: Decimal) returns (n: Numeral)
    requires d == Normal(d) && d.mantissa != 0
    ensures Canonical(n) && n != Numeral("0", "", "")
    ensures Layout(d.mantissa < 0, NatText(Abs(d.mantissa)), d.exponent) == TextOf(d.mantissa < 0, n)
    ensures Normal(Value(n)) == Decimal(Abs(d.mantissa), d.exponent)
  {
    NormalShape(d);
    NatTextRoundTrip(Abs(d.mantissa));
    var digits := NatText(Abs(d.mantissa));
    TrailingDigit(digits);
    assert Abs(d.mantissa) % 10 != 0;
    LaidOutIsCanonical(digits, d.exponent);
    LaidOutValue(digits, d.exponent);
    LayoutIsItsParts(digits, d.exponent);
    n := LaidOut(digits, d.exponent);
  }

  lemma FourZeros()
    ensures Pow10(4) == 10_000
  {
  }

  lemma SixteenDigits(i: nat)
    requires i <= MAX_SAFE
    ensures |NatText(i)| <= 16
  {
    FourZeros();
    var p := Pow10(4);
    Pow10Add(4, 4);
    assert Pow10(8) == p * p == 100_000_000;
    var q := Pow10(8);
    Pow10Add(8, 8);
    assert Pow10(16) == q * q;
    TextFits(i, 16);
  }

  lemma IntegerNumeral(i: nat) returns (n: Numeral)
    requires 0 < i <= MAX_SAFE
    ensures n == Numeral(NatText(i), "", "") && Canonical(n) && n != Numeral("0", "", "")
    ensures Normal(Value(n)) == Normal(Decimal(i, 0))
  {
    n := Numeral(NatText(i), "", "");
    NatTextRoundTrip(i);
    SixteenDigits(i);
    assert NatText(i) + "" == NatText(i);
  }

  lemma SafeIntegerNumeral(d: Decimal) returns (n: Numeral)
    requires d == Normal(d) && d.mantissa != 0 && d.exponent >= 0 && Abs(d.mantissa * Pow10(d.exponent)) <= MAX_SAFE
    ensures Canonical(n) && n != Numeral("0", "", "")
    ensures IntText(d.mantissa * Pow10(d.exponent)) == TextOf(d.mantissa < 0, n)
    ensures Normal(Value(n)) == Decimal(Abs(d.mantissa), d.exponent)
  {
    var i := d.mantissa * Pow10(d.exponent);
    NonzeroProduct(d.mantissa, Pow10(d.exponent));
    SignOfProduct(d.mantissa, Pow10(d.exponent));
    n := IntegerNumeral(Abs(i));
    NormalShift(Abs(d.mantissa), d.exponent, 0);
    NormalOfNegated(d);
  }

  lemma SignOfProduct(m: int, p: nat)
    requires p > 0
    ensures (m * p < 0 <==> m < 0) && Abs(m * p) == Abs(m) * p
  {
    if m < 0 { assert (0 - m) * p > 0 && m * p == 0 - (0 - m) * p; } else { assert m * p >= 0; }
  }

  /**
   * The text of a number other than zero is its sign and the one canonical numeral of its magnitude, whichever Python
   * type it came from; zero is "0".
   */
  lemma NumberTextIsCanonical(d: Decimal)
    requires d == Normal(d)
    ensures d.mantissa == 0 ==> NumberText(d) == "0"
    ensures d.mantissa != 0 ==>
              (exists n: Numeral :: Canonical(n) && n != Numeral("0", "", "")
                                    && Normal(Value(n)) == Decimal(Abs(d.mantissa), d.exponent))
              && forall n: Numeral :: Canonical(n) && n != Numeral("0", "", "")
                                      && Normal(Value(n)) == Decimal(Abs(d.mantissa), d.exponent)
                   ==> NumberText(d) == TextOf(d.mantissa < 0, n)
  {
    NormalShape(d);
    if d.mantissa != 0 {
      var n;
      if d.exponent >= 0 && Abs(d.mantissa * Pow10(d.exponent)) <= MAX_SAFE { n := SafeIntegerNumeral(d); }
      else { n := LayoutNumeral(d); }
      forall m: Numeral | Canonical(m) && m != Numeral("0", "", "")
                          && Normal(Value(m)) == Decimal(Abs(d.mantissa), d.exponent)
        ensures NumberText(d) == TextOf(d.mantissa < 0, m)
      {
        CanonicalIsUnique(m, n);
      }
    }
  }
}

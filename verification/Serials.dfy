/**
 * Policy numbers NG-<KIND3>-<YYYY>-<SEQ10>-<CHECK> with a Luhn mod-34 check character
 * (src/insurance/domain/serials.py).
 */
module Serials {
  import opened Wrappers
  import opened Decimals

  const ALPHABET := "0123456789ABCDEFGHJKLMNPQRSTUVWXYZ"

  predicate IsUpper(c: char) { 'A' <= c <= 'Z' }

  predicate InAlphabet(c: char) { IsDigit(c) || (IsUpper(c) && c != 'I' && c != 'O') }

  predicate AllInAlphabet(s: string) { forall i :: 0 <= i < |s| ==> InAlphabet(s[i]) }

  /** The symbol at a position of ALPHABET. */
  function Symbol(i: nat): (c: char)
    requires i < 34
    ensures InAlphabet(c)
  {
    if i < 10 then '0' + i as char
    else if i < 18 then 'A' + (i - 10) as char
    else if i < 23 then 'J' + (i - 18) as char
    else 'P' + (i - 23) as char
  }

  lemma SymbolsSpellAlphabet(i: nat)
    requires i < |ALPHABET|
    ensures |ALPHABET| == 34 && ALPHABET[i] == Symbol(i)
  {
  }

  /** The position of a symbol in ALPHABET. */
  function CodePoint(c: char): (cp: nat)
    requires InAlphabet(c)
    ensures cp < 34
  {
    if IsDigit(c) then (c - '0') as nat
    else if c < 'I' then (c - 'A') as nat + 10
    else if c < 'O' then (c - 'J') as nat + 18
    else (c - 'P') as nat + 23
  }

  lemma SymbolCodePoint(i: nat, c: char)
    requires i < 34 && InAlphabet(c)
    ensures CodePoint(Symbol(i)) == i && Symbol(CodePoint(c)) == c
  {
  }

  // ------------------------------------------------------------------ the check character

  /** What a symbol adds to the total: every second symbol from the right is doubled, digit sum base 34. */
  function Weight(doubled: bool, cp: nat): nat {
    if !doubled then cp else if cp < 17 then 2 * cp else 2 * cp - 33
  }

  /** The Luhn total of a text, whose rightmost symbol is doubled or not. */
  function LuhnTotal(body: string, doubled: bool): nat
    requires AllInAlphabet(body)
  {
    if body == [] then 0
    else Weight(doubled, CodePoint(body[|body| - 1])) + LuhnTotal(body[..|body| - 1], !doubled)
  }

  function CheckOf(body: string): char
    requires AllInAlphabet(body)
  {
    Symbol((34 - LuhnTotal(body, true) % 34) % 34)
  }

  /** Quotient plus remainder base 34 of the multiplied code point is the symbol's weight. */
  lemma AddendIsWeight(factor: nat, cp: nat)
    requires cp < 34 && 1 <= factor <= 2
    ensures factor * cp / 34 + factor * cp % 34 == Weight(factor == 2, cp)
  {
    if factor == 1 { DivMod34(factor * cp, 0, cp); }
    else if cp < 17 { DivMod34(factor * cp, 0, 2 * cp); }
    else { DivMod34(factor * cp, 1, 2 * cp - 34); }
  }

  lemma DivMod34(x: int, q: int, r: int)
    requires x == 34 * q + r && 0 <= r < 34
    ensures x / 34 == q && x % 34 == r
  {
  }

  method LuhnCheck(body: string) returns (r: Result<char>)
    ensures r.Ok? <==> AllInAlphabet(body)
    ensures r.Ok? ==> r.value == CheckOf(body)
  {
    var codePoints: seq<nat> := [];
    for k := 0 to |body|
      invariant AllInAlphabet(body[..k])
      invariant |codePoints| == k
      invariant forall j :: 0 <= j < k ==> codePoints[j] == CodePoint(body[j])
    {
      if !InAlphabet(body[k]) { return Err(NotInAlphabet); }
      codePoints := codePoints + [CodePoint(body[k])];
    }
    assert body[..|body|] == body;
    var factor, total, i := 2, 0, |body|;
    while i > 0
      invariant 0 <= i <= |body|
      invariant 1 <= factor <= 2
      invariant AllInAlphabet(body[..i])
      invariant total + LuhnTotal(body[..i], factor == 2) == LuhnTotal(body, true)
    {
      i := i - 1;
      assert body[..i + 1][..i] == body[..i];
      AddendIsWeight(factor, codePoints[i]);
      var addend := factor * codePoints[i];
      factor := if factor == 2 then 1 else 2;
      addend := addend / 34 + addend % 34;
      total := total + addend;
    }
    var remainder := total % 34;
    return Ok(Symbol((34 - remainder) % 34));
  }

  predicate Validate(body: string, check: string) {
    |check| == 1 && InAlphabet(check[0]) && AllInAlphabet(body) && CheckOf(body) == check[0]
  }

  /** Adding what is missing to a multiple of 34, and nothing else below 34, gives a multiple of 34. */
  lemma Complement34(total: nat, cp: nat)
    requires cp < 34
    ensures (34 - total % 34) % 34 == cp <==> (cp + total) % 34 == 0
  {
    var q, r := total / 34, total % 34;
    if cp + r < 34 { DivMod34(cp + total, q, cp + r); } else { DivMod34(cp + total, q + 1, cp + r - 34); }
  }

  lemma SmallShiftsShow(t: int, d: int)
    requires -34 < d < 34
    ensures t % 34 == (t + d) % 34 <==> d == 0
  {
    var q, r := t / 34, t % 34;
    if r + d < 0 { DivMod34(t + d, q - 1, r + d + 34); }
    else if r + d < 34 { DivMod34(t + d, q, r + d); }
    else { DivMod34(t + d, q + 1, r + d - 34); }
  }

  /** A checked text is valid exactly when its whole Luhn total, check symbol included, is 0 mod 34. */
  lemma ValidIffTotalZero(body: string, check: char)
    requires AllInAlphabet(body) && InAlphabet(check)
    ensures AllInAlphabet(body + [check])
    ensures Validate(body, [check]) <==> LuhnTotal(body + [check], false) % 34 == 0
  {
    assert (body + [check])[..|body|] == body;
    var total, cp := LuhnTotal(body, true), CodePoint(check);
    SymbolCodePoint((34 - total % 34) % 34, check);
    Complement34(total, cp);
  }

  // -------------------------------------------------------------------- error detection

  /** Whether the symbol at position i is doubled. */
  predicate DoubledAt(body: string, i: nat, doubled: bool)
    requires i < |body|
  {
    ((|body| - 1 - i) % 2 == 0) == doubled
  }

  lemma TotalSnoc(init: string, c: char, doubled: bool)
    requires AllInAlphabet(init) && InAlphabet(c)
    ensures AllInAlphabet(init + [c])
    ensures LuhnTotal(init + [c], doubled) == Weight(doubled, CodePoint(c)) + LuhnTotal(init, !doubled)
  {
    assert (init + [c])[..|init|] == init;
  }

  lemma {:induction false} TotalAfterReplacing(body: string, i: nat, c: char, doubled: bool)
    requires AllInAlphabet(body) && i < |body| && InAlphabet(c)
    ensures AllInAlphabet(body[i := c])
    ensures var w := DoubledAt(body, i, doubled);
            LuhnTotal(body[i := c], doubled)
            == LuhnTotal(body, doubled) + Weight(w, CodePoint(c)) - Weight(w, CodePoint(body[i]))
    decreases |body|
  {
    var init, last := body[..|body| - 1], body[|body| - 1];
    TotalSnoc(init, last, doubled);
    assert body == init + [last];
    if i == |body| - 1 {
      TotalSnoc(init, c, doubled);
      assert body[i := c] == init + [c];
    } else {
      TotalAfterReplacing(init, i, c, !doubled);
      TotalSnoc(init[i := c], last, doubled);
      assert body[i := c] == init[i := c] + [last];
      DoubledShifts(body, i, doubled);
    }
  }

  lemma DoubledShifts(body: string, i: nat, doubled: bool)
    requires i < |body| - 1
    ensures DoubledAt(body[..|body| - 1], i, !doubled) == DoubledAt(body, i, doubled)
  {
  }

  lemma WeightsDiffer(doubled: bool, c: char, d: char)
    requires InAlphabet(c) && InAlphabet(d) && c != d
    ensures Weight(doubled, CodePoint(c)) != Weight(doubled, CodePoint(d))
    ensures -34 < Weight(doubled, CodePoint(c)) - Weight(doubled, CodePoint(d)) < 34
  {
    SymbolCodePoint(0, c);
    SymbolCodePoint(0, d);
  }

  lemma ReplacementChangesTotal(body: string, i: nat, c: char, doubled: bool)
    requires AllInAlphabet(body) && i < |body| && InAlphabet(c) && c != body[i]
    ensures AllInAlphabet(body[i := c])
    ensures LuhnTotal(body[i := c], doubled) % 34 != LuhnTotal(body, doubled) % 34
  {
    TotalAfterReplacing(body, i, c, doubled);
    var w := DoubledAt(body, i, doubled);
    WeightsDiffer(w, c, body[i]);
    SmallShiftsShow(LuhnTotal(body, doubled), Weight(w, CodePoint(c)) - Weight(w, CodePoint(body[i])));
  }

  function Swapped(s: string, i: nat): string
    requires i + 1 < |s|
  {
    s[i := s[i + 1]][i + 1 := s[i]]
  }

  /** The one confusion the scheme cannot see. */
  predicate ZeroAndZ(a: char, b: char) { (a == '0' && b == 'Z') || (a == 'Z' && b == '0') }

  lemma TotalAfterSwapping(body: string, i: nat, doubled: bool)
    requires AllInAlphabet(body) && i + 1 < |body|
    ensures AllInAlphabet(Swapped(body, i))
    ensures var a, b, w := CodePoint(body[i]), CodePoint(body[i + 1]), DoubledAt(body, i, doubled);
            LuhnTotal(Swapped(body, i), doubled)
            == LuhnTotal(body, doubled) + Weight(w, b) - Weight(w, a) + Weight(!w, a) - Weight(!w, b)
  {
    var mid := body[i := body[i + 1]];
    TotalAfterReplacing(body, i, body[i + 1], doubled);
    assert mid[i + 1] == body[i + 1] && mid[i + 1 := body[i]] == Swapped(body, i);
    TotalAfterReplacing(mid, i + 1, body[i], doubled);
    assert DoubledAt(mid, i + 1, doubled) == !DoubledAt(body, i, doubled);
  }

  /** Swapping two unequal neighbours keeps the total mod 34 exactly when they are '0' and 'Z'. */
  lemma SwapChangesTotal(body: string, i: nat, doubled: bool)
    requires AllInAlphabet(body) && i + 1 < |body| && body[i] != body[i + 1]
    ensures AllInAlphabet(Swapped(body, i))
    ensures LuhnTotal(Swapped(body, i), doubled) % 34 == LuhnTotal(body, doubled) % 34
            <==> ZeroAndZ(body[i], body[i + 1])
  {
    var a, b, w := CodePoint(body[i]), CodePoint(body[i + 1]), DoubledAt(body, i, doubled);
    TotalAfterSwapping(body, i, doubled);
    SymbolCodePoint(0, body[i]);
    SymbolCodePoint(33, body[i + 1]);
    DoublingShifts(a, b);
    SmallShiftsShow(LuhnTotal(body, doubled), Weight(w, b) - Weight(w, a) + Weight(!w, a) - Weight(!w, b));
  }

  /** Doubling moves code points a and b equally far only when they are equal, or 0 and 33. */
  lemma DoublingShifts(a: nat, b: nat)
    requires a < 34 && b < 34 && a != b
    ensures var d := Weight(true, b) - b - (Weight(true, a) - a);
            -34 < d < 34 && (d == 0 <==> (a == 0 && b == 33) || (a == 33 && b == 0))
  {
  }

  lemma ComplementPins(a: nat, b: nat)
    requires a < 34 && b < 34 && (34 - a) % 34 == (34 - b) % 34
    ensures a == b
  {
  }

  lemma CheckDeterminesTotal(s: string, t: string)
    requires AllInAlphabet(s) && AllInAlphabet(t)
    ensures CheckOf(s) == CheckOf(t) <==> LuhnTotal(s, true) % 34 == LuhnTotal(t, true) % 34
  {
    var a, b := LuhnTotal(s, true) % 34, LuhnTotal(t, true) % 34;
    SymbolCodePoint((34 - a) % 34, '0');
    SymbolCodePoint((34 - b) % 34, '0');
    if CheckOf(s) == CheckOf(t) { ComplementPins(a, b); }
  }

  /** Replacing any one character of a body, of any length, changes its check character. */
  lemma CheckDetectsSubstitution(body: string, i: nat, c: char)
    requires AllInAlphabet(body) && i < |body| && InAlphabet(c) && c != body[i]
    ensures AllInAlphabet(body[i := c]) && CheckOf(body[i := c]) != CheckOf(body)
  {
    ReplacementChangesTotal(body, i, c, true);
    CheckDeterminesTotal(body[i := c], body);
  }

  /** Swapping unequal neighbours of a body escapes the check exactly for '0' and 'Z'. */
  lemma CheckDetectsSwap(body: string, i: nat)
    requires AllInAlphabet(body) && i + 1 < |body| && body[i] != body[i + 1]
    ensures AllInAlphabet(Swapped(body, i))
    ensures CheckOf(Swapped(body, i)) == CheckOf(body) <==> ZeroAndZ(body[i], body[i + 1])
  {
    SwapChangesTotal(body, i, true);
    CheckDeterminesTotal(Swapped(body, i), body);
  }

  // -------------------------------------------------------------- building and parsing

  /** str.isspace, the characters str.strip() removes. */
  predicate IsSpace(c: char) {
    var k := c as int;
    9 <= k <= 13 || 28 <= k <= 32 || k == 133 || k == 160 || k == 5760 || 8192 <= k <= 8202
    || k == 8232 || k == 8233 || k == 8239 || k == 8287 || k == 12288
  }

  function LStrip(s: string): string {
    if s != [] && IsSpace(s[0]) then LStrip(s[1..]) else s
  }

  function RStrip(s: string): string {
    if s != [] && IsSpace(s[|s| - 1]) then RStrip(s[..|s| - 1]) else s
  }

  /** str.upper() on ASCII text. */
  function Upper(s: string): (u: string)
    ensures |u| == |s|
  {
    seq(|s|, i requires 0 <= i < |s| => if 'a' <= s[i] <= 'z' then s[i] - 'a' + 'A' else s[i])
  }

  predicate AllUpper(s: string) { forall i :: 0 <= i < |s| ==> IsUpper(s[i]) }

  /** The shape NG-[A-Z]{3}-\d{4}-\d{10}-[0-9A-Z]. */
  predicate Matches(t: string) {
    && |t| == 24
    && t[..3] == "NG-" && t[6] == '-' && t[11] == '-' && t[22] == '-'
    && AllUpper(t[3..6]) && AllDigits(t[7..11]) && AllDigits(t[12..22])
    && (IsDigit(t[23]) || IsUpper(t[23]))
  }

  datatype Parts = Parts(familyCode: string, year: nat, sequence: nat, check: char, number: string)

  function BodyOf(t: string): string
    requires |t| == 24
  {
    "NG" + t[3..6] + t[7..11] + t[12..22]
  }

  function ParsePolicyNumber(number: string): Result<Parts> {
    var t := Upper(RStrip(LStrip(number)));
    if !Matches(t) then Err(MalformedPolicyNumber)
    else if !Validate(BodyOf(t), t[23..24]) then Err(CheckDigitMismatch)
    else Ok(Parts(t[3..6], DigitsValue(t[7..11]), DigitsValue(t[12..22]), t[23], t))
  }

  function Body(fam: string, year: nat, sequence: nat): string {
    "NG" + fam + Padded(year, 4) + Padded(sequence, 10)
  }

  function BuildPolicyNumber(familyCode: string, year: int, sequence: int): Result<string> {
    var fam := Upper(familyCode);
    if |fam| != 3 || !AllUpper(fam) then Err(InvalidFamilyCode)
    else if !(1900 <= year <= 9999) then Err(InvalidYear)
    else if !(0 <= sequence <= 9_999_999_999) then Err(SequenceOutOfRange)
    else if !AllInAlphabet(Body(fam, year, sequence)) then Err(NotInAlphabet)
    else Ok("NG-" + fam + "-" + Padded(year, 4) + "-" + Padded(sequence, 10) + "-"
            + [CheckOf(Body(fam, year, sequence))])
  }

  /** The separator-free form: body followed by check character. */
  function Compact(t: string): string
    requires |t| == 24
  {
    BodyOf(t) + t[23..24]
  }

  function CompactOf(familyCode: string, year: int, sequence: int): (c: string)
    requires BuildPolicyNumber(familyCode, year, sequence).Ok?
    ensures |c| == 20
  {
    BuiltNumber(familyCode, year, sequence);
    Compact(BuildPolicyNumber(familyCode, year, sequence).value)
  }

  /** A separator-free form with the separators put back. */
  function Dashed(c: string): string
    requires |c| == 20
  {
    c[..2] + "-" + c[2..5] + "-" + c[5..9] + "-" + c[9..19] + "-" + c[19..20]
  }

  predicate CompactShape(c: string) {
    && |c| == 20 && c[0] == 'N' && c[1] == 'G'
    && (forall i :: 2 <= i < 5 ==> IsUpper(c[i]))
    && (forall i :: 5 <= i < 19 ==> IsDigit(c[i]))
    && (IsDigit(c[19]) || IsUpper(c[19]))
  }

  lemma DashedLetters(c: string)
    requires |c| == 20
    ensures |Dashed(c)| == 24
    ensures Dashed(c)[0] == c[0] && Dashed(c)[1] == c[1] && Dashed(c)[23] == c[19]
    ensures Dashed(c)[2] == Dashed(c)[6] == Dashed(c)[11] == Dashed(c)[22] == '-'
    ensures Dashed(c)[3..6] == c[2..5] && Dashed(c)[7..11] == c[5..9] && Dashed(c)[12..22] == c[9..19]
  {
  }

  lemma DashedMatches(c: string)
    requires |c| == 20
    ensures Matches(Dashed(c)) <==> CompactShape(c)
    ensures CompactShape(c) ==> Compact(Dashed(c)) == c
  {
    var t := Dashed(c);
    DashedLetters(c);
    assert t[..3] == [t[0], t[1], t[2]];
    assert AllUpper(t[3..6]) <==> forall i :: 2 <= i < 5 ==> IsUpper(c[i]) by {
      if AllUpper(t[3..6]) {
        forall i | 2 <= i < 5 ensures IsUpper(c[i]) { assert c[i] == t[3..6][i - 2]; }
      }
    }
    assert AllDigits(t[7..11]) && AllDigits(t[12..22]) <==> forall i :: 5 <= i < 19 ==> IsDigit(c[i]) by {
      if AllDigits(t[7..11]) && AllDigits(t[12..22]) {
        forall i | 5 <= i < 19 ensures IsDigit(c[i]) {
          if i < 9 { assert c[i] == t[7..11][i - 5]; } else { assert c[i] == t[12..22][i - 9]; }
        }
      }
    }
  }

  lemma NoSpacesNoLowerCase(t: string)
    requires t != [] && !IsSpace(t[0]) && !IsSpace(t[|t| - 1])
    requires forall i :: 0 <= i < |t| ==> !('a' <= t[i] <= 'z')
    ensures Upper(RStrip(LStrip(t))) == t
  {
  }

  lemma DashedIsTrimmed(c: string)
    requires |c| == 20 && AllInAlphabet(c)
    ensures Upper(RStrip(LStrip(Dashed(c)))) == Dashed(c)
  {
    var t := Dashed(c);
    DashedLetters(c);
    forall i | 0 <= i < |t| ensures !('a' <= t[i] <= 'z') {
      if 3 <= i < 6 { assert t[i] == t[3..6][i - 3] == c[i - 1]; }
      else if 7 <= i < 11 { assert t[i] == t[7..11][i - 7] == c[i - 2]; }
      else if 12 <= i < 22 { assert t[i] == t[12..22][i - 12] == c[i - 3]; }
    }
    NoSpacesNoLowerCase(t);
  }

  /**
   * A separator-free text over the alphabet, dashed, is accepted exactly when it has the shape and
   * its Luhn total is 0 mod 34.
   */
  lemma ParseAcceptsIff(c: string)
    requires |c| == 20 && AllInAlphabet(c)
    ensures ParsePolicyNumber(Dashed(c)).Ok? <==> CompactShape(c) && LuhnTotal(c, false) % 34 == 0
  {
    var t := Dashed(c);
    DashedLetters(c);
    DashedIsTrimmed(c);
    DashedMatches(c);
    if CompactShape(c) {
      SplitCompact(t, c);
      ValidIffTotalZero(c[..19], c[19]);
    }
  }

  /** A number with lower-case letters anywhere. */
  predicate SpelledAs(s: string, t: string) {
    |s| == |t| && forall i :: 0 <= i < |t| ==> s[i] == t[i] || ('A' <= t[i] <= 'Z' && s[i] == t[i] - 'A' + 'a')
  }

  predicate AllSpace(s: string) { forall i :: 0 <= i < |s| ==> IsSpace(s[i]) }

  lemma {:induction false} SpaceStripsLeft(left: string, s: string)
    requires AllSpace(left) && s != "" && !IsSpace(s[0])
    ensures LStrip(left + s) == s
    decreases |left|
  {
    if left == "" { assert left + s == s; }
    else {
      assert (left + s)[1..] == left[1..] + s;
      SpaceStripsLeft(left[1..], s);
    }
  }

  lemma {:induction false} SpaceStripsRight(s: string, right: string)
    requires AllSpace(right) && s != "" && !IsSpace(s[|s| - 1])
    ensures RStrip(s + right) == s
    decreases |right|
  {
    if right == "" { assert s + right == s; }
    else {
      assert (s + right)[..|s + right| - 1] == s + right[..|right| - 1];
      SpaceStripsRight(s, right[..|right| - 1]);
    }
  }

  lemma UpperOfSpelled(s: string, t: string)
    requires SpelledAs(s, t) && Upper(t) == t
    ensures Upper(s) == t
  {
    forall i | 0 <= i < |t| ensures Upper(s)[i] == t[i] { assert Upper(t)[i] == t[i]; }
  }

  /** Neither the case of the letters nor white space around a number matters. */
  lemma ParseIgnoresCaseAndSpace(left: string, s: string, right: string, t: string)
    requires AllSpace(left) && AllSpace(right) && SpelledAs(s, t) && Upper(t) == t
    requires t != "" && !IsSpace(t[0]) && !IsSpace(t[|t| - 1])
    ensures ParsePolicyNumber(left + s + right) == ParsePolicyNumber(t)
  {
    SpaceStripsLeft(left, s + right);
    assert left + s + right == left + (s + right);
    SpaceStripsRight(s, right);
    UpperOfSpelled(s, t);
    SpaceStripsLeft("", t);
    SpaceStripsRight(t, "");
    assert "" + t == t && t + "" == t;
  }

  lemma SplitCompact(t: string, c: string)
    requires |c| == 20 && |t| == 24 && Compact(t) == c
    ensures BodyOf(t) == c[..19] && t[23..24] == [c[19]] && c == c[..19] + [c[19]]
  {
  }

  /** What a built number looks like: 24 characters, valid, and dashed from its separator-free form. */
  lemma BuiltNumber(familyCode: string, year: int, sequence: int)
    requires BuildPolicyNumber(familyCode, year, sequence).Ok?
    ensures var t := BuildPolicyNumber(familyCode, year, sequence).value;
            && |t| == 24 && AllInAlphabet(Compact(t)) && CompactShape(Compact(t))
            && Dashed(Compact(t)) == t && LuhnTotal(Compact(t), false) % 34 == 0
            && t[3..6] == Upper(familyCode) && t[7..11] == Padded(year, 4) && t[12..22] == Padded(sequence, 10)
  {
    var fam := Upper(familyCode);
    YearField(year);
    SequenceField(sequence);
    var body := Body(fam, year, sequence);
    var check := CheckOf(body);
    ValidIffTotalZero(body, check);
    SymbolCodePoint((34 - LuhnTotal(body, true) % 34) % 34, check);
    CompactOfBuilt(BuildPolicyNumber(familyCode, year, sequence).value, fam, Padded(year, 4), Padded(sequence, 10),
                   check);
  }

  lemma YearField(year: nat)
    requires year <= 9999
    ensures |Padded(year, 4)| == 4 && AllDigits(Padded(year, 4)) && DigitsValue(Padded(year, 4)) == year
  {
    assert Pow10(4) == 10_000;
    PaddedRoundTrip(year, 4);
  }

  lemma SequenceField(sequence: nat)
    requires sequence <= 9_999_999_999
    ensures |Padded(sequence, 10)| == 10 && AllDigits(Padded(sequence, 10))
    ensures DigitsValue(Padded(sequence, 10)) == sequence
  {
    assert Pow10(5) == 100_000;
    Pow10Add(5, 5);
    PaddedRoundTrip(sequence, 10);
  }

  lemma CompactOfBuilt(t: string, fam: string, y: string, s: string, check: char)
    requires |fam| == 3 && AllUpper(fam) && |y| == 4 && AllDigits(y) && |s| == 10 && AllDigits(s)
    requires InAlphabet(check)
    requires t == "NG-" + fam + "-" + y + "-" + s + "-" + [check]
    ensures Compact(t) == "NG" + fam + y + s + [check]
    ensures CompactShape(Compact(t)) && Dashed(Compact(t)) == t
    ensures t[3..6] == fam && t[7..11] == y && t[12..22] == s
  {
    var c := "NG" + fam + y + s + [check];
    assert t[3..6] == fam && t[7..11] == y && t[12..22] == s && t[23..24] == [check];
    assert Compact(t) == c;
    assert c[2..5] == fam && c[5..9] == y && c[9..19] == s && c[19..20] == [check];
    forall i | 2 <= i < 5 ensures IsUpper(c[i]) { assert c[i] == fam[i - 2]; }
    forall i | 5 <= i < 19 ensures IsDigit(c[i]) {
      if i < 9 { assert c[i] == y[i - 5]; } else { assert c[i] == s[i - 9]; }
    }
  }

  /** Parsing a built number gives back the family, the year and the sequence it was built from. */
  lemma ParseInvertsBuild(familyCode: string, year: int, sequence: int)
    requires BuildPolicyNumber(familyCode, year, sequence).Ok?
    ensures var t := BuildPolicyNumber(familyCode, year, sequence).value;
            var p := ParsePolicyNumber(t);
            && p.Ok? && p.value.number == t
            && p.value.familyCode == Upper(familyCode)
            && p.value.year == year && p.value.sequence == sequence
  {
    var t := BuildPolicyNumber(familyCode, year, sequence).value;
    BuiltNumber(familyCode, year, sequence);
    ParseAcceptsIff(Compact(t));
    DashedIsTrimmed(Compact(t));
    YearField(year);
    SequenceField(sequence);
  }

  /** Different (family, year, sequence) triples get different policy numbers. */
  lemma BuildInjective(f1: string, y1: int, s1: int, f2: string, y2: int, s2: int)
    requires BuildPolicyNumber(f1, y1, s1).Ok?
    requires BuildPolicyNumber(f1, y1, s1) == BuildPolicyNumber(f2, y2, s2)
    ensures Upper(f1) == Upper(f2) && y1 == y2 && s1 == s2
  {
    ParseInvertsBuild(f1, y1, s1);
    ParseInvertsBuild(f2, y2, s2);
  }

  /** Every single-character substitution over the alphabet, in body or check, is rejected. */
  lemma ParseRejectsSubstitution(familyCode: string, year: int, sequence: int, i: nat, c: char)
    requires BuildPolicyNumber(familyCode, year, sequence).Ok?
    requires i < 20 && InAlphabet(c)
    requires c != CompactOf(familyCode, year, sequence)[i]
    ensures var compact := CompactOf(familyCode, year, sequence);
            ParsePolicyNumber(Dashed(compact)).Ok? && ParsePolicyNumber(Dashed(compact[i := c])).Err?
  {
    BuiltNumber(familyCode, year, sequence);
    var compact := CompactOf(familyCode, year, sequence);
    ReplacementChangesTotal(compact, i, c, false);
    ParseAcceptsIff(compact);
    ParseAcceptsIff(compact[i := c]);
  }

  /**
   * Every swap of unequal neighbours of the separator-free form is rejected, the last digit with the
   * check character included: where the pair is '0' and 'Z', a letter lands among the digits.
   */
  lemma ParseRejectsSwap(familyCode: string, year: int, sequence: int, i: nat)
    requires BuildPolicyNumber(familyCode, year, sequence).Ok?
    requires i + 1 < 20
    requires CompactOf(familyCode, year, sequence)[i] != CompactOf(familyCode, year, sequence)[i + 1]
    ensures var compact := CompactOf(familyCode, year, sequence);
            ParsePolicyNumber(Dashed(compact)).Ok? && ParsePolicyNumber(Dashed(Swapped(compact, i))).Err?
  {
    BuiltNumber(familyCode, year, sequence);
    var compact := CompactOf(familyCode, year, sequence);
    SwapChangesTotal(compact, i, false);
    ParseAcceptsIff(compact);
    var swapped := Swapped(compact, i);
    ParseAcceptsIff(swapped);
    if ZeroAndZ(compact[i], compact[i + 1]) {
      assert swapped[i] == compact[i + 1] && swapped[i + 1] == compact[i];
      assert !CompactShape(swapped);
    }
  }
}

/** base58btc, the multibase coding of proof values (src/insurance/crypto/vc.py). */
module Base58 {
  import opened Wrappers
  import opened Positional

  const DIGITS_AND_UPPER := "123456789ABCDEFGHJKLMNPQRSTUVWXYZ"
  const LOWER := "abcdefghijkmnopqrstuvwxyz"
  const ALPHABET := DIGITS_AND_UPPER + LOWER

  predicate IsBytes(data: seq<int>) { Digits(data, 256) }

  predicate IsSymbol(c: char) {
    '1' <= c <= '9' || ('A' <= c <= 'Z' && c != 'I' && c != 'O') || ('a' <= c <= 'z' && c != 'l')
  }

  /** The symbol at a position of ALPHABET. */
  function Symbol(i: int): (c: char)
    requires 0 <= i < 58
    ensures IsSymbol(c)
  {
    if i < 9 then '1' + i as char
    else if i < 17 then 'A' + (i - 9) as char
    else if i < 22 then 'J' + (i - 17) as char
    else if i < 33 then 'P' + (i - 22) as char
    else if i < 44 then 'a' + (i - 33) as char
    else 'm' + (i - 44) as char
  }

  function IndexOf(c: char): (i: int)
    requires IsSymbol(c)
    ensures 0 <= i < 58 && Symbol(i) == c
  {
    if c <= '9' then (c - '1') as int
    else if c < 'I' then (c - 'A') as int + 9
    else if c < 'O' then (c - 'J') as int + 17
    else if c <= 'Z' then (c - 'P') as int + 22
    else if c < 'l' then (c - 'a') as int + 33
    else (c - 'm') as int + 44
  }

  lemma SymbolsSpellAlphabet(i: nat)
    requires i < |ALPHABET|
    ensures |ALPHABET| == 58 && ALPHABET[i] == Symbol(i)
  {
    if i < 33 { UpperSymbols(i); } else { LowerSymbols(i - 33); }
  }

  lemma UpperSymbols(i: nat)
    requires i < 33
    ensures DIGITS_AND_UPPER[i] == Symbol(i)
  {
  }

  lemma LowerSymbols(i: nat)
    requires i < 25
    ensures LOWER[i] == Symbol(33 + i)
  {
  }

  function TextOf(ds: seq<int>): (t: string)
    requires Digits(ds, 58)
    ensures |t| == |ds| && forall i :: 0 <= i < |t| ==> t[i] == Symbol(ds[i])
  {
    seq(|ds|, i requires 0 <= i < |ds| => Symbol(ds[i]))
  }

  predicate AllSymbols(text: string) { forall i :: 0 <= i < |text| ==> IsSymbol(text[i]) }

  function DigitsOf(text: string): (ds: seq<int>)
    requires AllSymbols(text)
    ensures |ds| == |text| && Digits(ds, 58) && forall i :: 0 <= i < |ds| ==> ds[i] == IndexOf(text[i])
  {
    seq(|text|, i requires 0 <= i < |text| => IndexOf(text[i]))
  }

  /** The coding: the base-58 digits of the number, after one '1' for every leading zero byte. */
  function Encoded(data: seq<int>): string
    requires IsBytes(data)
  {
    TextOf(ZeroDigits(LeadingZeros(data)) + ToDigits(FromDigits(data, 256), 58))
  }

  function Decoded(text: string): Result<seq<int>> {
    if !AllSymbols(text) then Err(MalformedProof)
    else
      var ds := DigitsOf(text);
      Ok(ZeroDigits(LeadingZeros(ds)) + ToDigits(FromDigits(ds, 58), 256))
  }

  lemma TextSnoc(ds: seq<int>, d: int)
    requires Digits(ds, 58) && 0 <= d < 58
    ensures Digits(ds + [d], 58) && TextOf(ds + [d]) == TextOf(ds) + [Symbol(d)]
  {
  }

  lemma TextGroups(text: string, c: char, out: string)
    ensures text + [c] + out == text + ([c] + out)
  {
  }

  /** The text of a number is that of its quotient by 58 followed by the symbol of its remainder. */
  lemma TextStep(num: nat, out: string)
    requires num > 0
    ensures num / 58 < num
    ensures TextOf(ToDigits(num, 58)) + out == TextOf(ToDigits(num / 58, 58)) + ([Symbol(num % 58)] + out)
  {
    DivisionShrinks(num, 58);
    TextSnoc(ToDigits(num / 58, 58), num % 58);
    TextGroups(TextOf(ToDigits(num / 58, 58)), Symbol(num % 58), out);
  }

  lemma PadText(pad: nat, ds: seq<int>)
    requires Digits(ds, 58)
    ensures Digits(ZeroDigits(pad) + ds, 58) && seq(pad, i => '1') + TextOf(ds) == TextOf(ZeroDigits(pad) + ds)
  {
  }

  method Base58btcEncode(data: seq<int>) returns (text: string)
    requires IsBytes(data)
    ensures text == Encoded(data)
  {
    var num := FromDigits(data, 256);
    var out := "";
    assert [] == ToDigits(0, 58);
    while num > 0
      invariant num >= 0
      invariant TextOf(ToDigits(num, 58)) + out == TextOf(ToDigits(FromDigits(data, 256), 58))
    {
      TextStep(num, out);
      var rem := num % 58;
      num := num / 58;
      out := [Symbol(rem)] + out;
    }
    var pad := 0;
    while pad < |data| && data[pad] == 0
      invariant 0 <= pad <= |data|
      invariant forall i :: 0 <= i < pad ==> data[i] == 0
    {
      pad := pad + 1;
    }
    assert pad == LeadingZeros(data);
    assert TextOf(ToDigits(0, 58)) + out == out;
    PadText(pad, ToDigits(FromDigits(data, 256), 58));
    text := seq(pad, i => '1') + out;
  }

  method Base58btcDecode(text: string) returns (r: Result<seq<int>>)
    ensures r == Decoded(text)
    ensures r.Err? <==> exists i :: 0 <= i < |text| && !IsSymbol(text[i])
  {
    var num := 0;
    for k := 0 to |text|
      invariant AllSymbols(text[..k])
      invariant num == FromDigits(DigitsOf(text[..k]), 58)
    {
      if !IsSymbol(text[k]) { return Err(MalformedProof); }
      num := num * 58 + IndexOf(text[k]);
      NextDigit(text, k);
    }
    assert text[..|text|] == text;
    LeadingOnes(text);
    var body := if num > 0 then ToDigits(num, 256) else [];
    var stripped := 0;
    while stripped < |text| && text[stripped] == '1'
      invariant 0 <= stripped <= |text|
      invariant stripped <= LeadingZeros(DigitsOf(text))
    {
      stripped := stripped + 1;
    }
    return Ok(ZeroDigits(stripped) + body);
  }

  lemma NextDigit(text: string, k: nat)
    requires k < |text| && AllSymbols(text[..k]) && IsSymbol(text[k])
    ensures AllSymbols(text[..k + 1])
    ensures FromDigits(DigitsOf(text[..k + 1]), 58) == FromDigits(DigitsOf(text[..k]), 58) * 58 + IndexOf(text[k])
  {
    assert text[..k + 1] == text[..k] + [text[k]];
    assert DigitsOf(text[..k + 1])[..k] == DigitsOf(text[..k]);
  }

  lemma LeadingOnes(text: string)
    requires AllSymbols(text)
    ensures var z := LeadingZeros(DigitsOf(text));
            && (forall i :: 0 <= i < z ==> text[i] == '1')
            && (z < |text| ==> text[z] != '1')
  {
    var z := LeadingZeros(DigitsOf(text));
    forall i | 0 <= i < z ensures text[i] == '1' { assert DigitsOf(text)[i] == 0; }
    if z < |text| { assert DigitsOf(text)[z] != 0; }
  }

  lemma DigitsOfTextOf(ds: seq<int>)
    requires Digits(ds, 58)
    ensures AllSymbols(TextOf(ds)) && DigitsOf(TextOf(ds)) == ds
  {
    forall i | 0 <= i < |ds| ensures IsSymbol(TextOf(ds)[i]) && IndexOf(TextOf(ds)[i]) == ds[i] {
      SymbolIndex(ds[i]);
    }
  }

  lemma SymbolIndex(i: int)
    requires 0 <= i < 58
    ensures IndexOf(Symbol(i)) == i
  {
  }

  /** Decoding an encoding gives the bytes back, for every byte string. */
  lemma DecodeInvertsEncode(data: seq<int>)
    requires IsBytes(data)
    ensures Decoded(Encoded(data)) == Ok(data)
  {
    var n, z := FromDigits(data, 256), LeadingZeros(data);
    var ds := ToDigits(n, 58);
    DigitsOfTextOf(ZeroDigits(z) + ds);
    LeadingZerosOf(z, ds);
    FromPadded(z, ds, 58);
    FromToDigits(n, 58);
    DigitsOfStripped(data, 256);
    SplitLeadingZeros(data);
  }

  /** Encoding a decoding gives the text back, for every text over the alphabet. */
  lemma EncodeInvertsDecode(text: string)
    requires AllSymbols(text)
    ensures Decoded(text).Ok? && IsBytes(Decoded(text).value) && Encoded(Decoded(text).value) == text
  {
    var ds := DigitsOf(text);
    var n, z := FromDigits(ds, 58), LeadingZeros(ds);
    var body := ToDigits(n, 256);
    LeadingZerosOf(z, body);
    FromPadded(z, body, 256);
    FromToDigits(n, 256);
    DigitsOfStripped(ds, 58);
    SplitLeadingZeros(ds);
    assert TextOf(ds) == text;
  }

  ghost predicate IsAnEncoding(text: string) { exists data: seq<int> :: IsBytes(data) && Encoded(data) == text }

  /** Decoding accepts exactly the texts that some byte string encodes to. */
  lemma AcceptsExactlyEncodings(text: string)
    ensures Decoded(text).Ok? <==> IsAnEncoding(text)
  {
    if Decoded(text).Ok? { EncodeInvertsDecode(text); }
    if data: seq<int> :| IsBytes(data) && Encoded(data) == text { DecodeInvertsEncode(data); }
  }

  function BitLength(n: nat): nat { |ToDigits(n, 2)| }

  /** The byte count computed from the bit length is the number of base-256 digits. */
  lemma {:induction false} ByteCountFromBits(n: nat)
    ensures |ToDigits(n, 256)| == (BitLength(n) + 7) / 8
    decreases n
  {
    if n >= 256 {
      ByteCountFromBits(n / 256);
      EightBits(n);
    } else if n > 0 {
      SmallBitLength(n);
      assert ToDigits(n / 256, 256) == [];
    }
  }

  lemma EightBits(n: nat)
    requires n >= 256
    ensures BitLength(n) == BitLength(n / 256) + 8
  {
    var a := n / 2; var b := a / 2; var c := b / 2; var d := c / 2;
    var e := d / 2; var f := e / 2; var g := f / 2; var h := g / 2;
    FourBits(n);
    FourBits(d);
    assert h == n / 256;
  }

  lemma FourBits(n: nat)
    requires n >= 16
    ensures BitLength(n) == BitLength(n / 2 / 2 / 2 / 2) + 4
  {
    assert n / 2 > 0 && n / 2 / 2 > 0 && n / 2 / 2 / 2 > 0;
    assert BitLength(n) == BitLength(n / 2) + 1;
    assert BitLength(n / 2) == BitLength(n / 2 / 2) + 1;
    assert BitLength(n / 2 / 2) == BitLength(n / 2 / 2 / 2) + 1;
    assert BitLength(n / 2 / 2 / 2) == BitLength(n / 2 / 2 / 2 / 2) + 1;
  }

  lemma SmallBitLength(n: nat)
    requires 0 < n < 256
    ensures 1 <= BitLength(n) <= 8
  {
    assert BitLength(n) == BitLength(n / 2) + 1;
    if n >= 16 {
      FourBits(n);
      NibbleBits(n / 2 / 2 / 2 / 2);
    } else {
      NibbleBits(n);
    }
  }

  lemma NibbleBits(n: nat)
    requires n < 16
    ensures BitLength(n) <= 4
  {
    assert BitLength(0) == 0;
    if n > 0 { assert BitLength(n) == BitLength(n / 2) + 1; }
    if n / 2 > 0 { assert BitLength(n / 2) == BitLength(n / 2 / 2) + 1; }
    if n / 2 / 2 > 0 { assert BitLength(n / 2 / 2) == BitLength(n / 2 / 2 / 2) + 1; }
    if n / 2 / 2 / 2 > 0 { assert BitLength(n / 2 / 2 / 2) == BitLength(n / 2 / 2 / 2 / 2) + 1; }
  }
}

/**
 * Strings in canonical JSON: escaping (section 3.2.2.2 of RFC 8785), its reading, and the
 * UTF-16 order of object keys (section 3.2.3 of RFC 8785). Source: src/insurance/crypto/jcs.py.
 */
module JcsStrings {
  import opened Wrappers

  // ---------------------------------------------------------------------------- escaping

  function HexDigit(d: nat): char
    requires d < 16
  {
    if d < 10 then '0' + d as char else 'a' + (d - 10) as char
  }

  /** The escape of one character: two-letter escapes, \u00xx for other controls, or itself. */
  function EscapeChar(c: char): (e: string)
    ensures e != []
  {
    var k := c as int;
    if c == '"' then "\\\""
    else if c == '\\' then "\\\\"
    else if k == 8 then "\\b"
    else if k == 12 then "\\f"
    else if k == 10 then "\\n"
    else if k == 13 then "\\r"
    else if k == 9 then "\\t"
    else if k < 0x20 then ['\\', 'u', '0', '0', HexDigit(k / 16), HexDigit(k % 16)]
    else [c]
  }

  function EscapeBody(s: string): string {
    if s == [] then [] else EscapeChar(s[0]) + EscapeBody(s[1..])
  }

  function Quoted(s: string): string { "\"" + EscapeBody(s) + "\"" }

  lemma {:induction false} EscapeBodySnoc(s: string, c: char)
    ensures EscapeBody(s + [c]) == EscapeBody(s) + EscapeChar(c)
    decreases |s|
  {
    if s == [] {
      assert EscapeBody([c]) == EscapeChar(c) + EscapeBody([c][1..]);
    } else {
      assert (s + [c])[1..] == s[1..] + [c];
      EscapeBodySnoc(s[1..], c);
    }
  }

  method EscapeString(value: string) returns (text: string)
    ensures text == Quoted(value)
  {
    var out := "\"";
    for i := 0 to |value|
      invariant out == "\"" + EscapeBody(value[..i])
    {
      EscapeBodySnoc(value[..i], value[i]);
      assert value[..i + 1] == value[..i] + [value[i]];
      out := out + EscapeChar(value[i]);
    }
    assert value[..|value|] == value;
    out := out + "\"";
    return out;
  }

  // ----------------------------------------------------------------------------- reading

  function HexValue(c: char): Option<nat> {
    if '0' <= c <= '9' then Some((c - '0') as nat)
    else if 'a' <= c <= 'f' then Some((c - 'a') as nat + 10)
    else if 'A' <= c <= 'F' then Some((c - 'A') as nat + 10)
    else None
  }

  /** Four hexadecimal digits naming a character that is not a surrogate. */
  function ReadHex4(s: string): Option<char> {
    if |s| < 4 then None
    else match (HexValue(s[0]), HexValue(s[1]), HexValue(s[2]), HexValue(s[3]))
      case (Some(a), Some(b), Some(c), Some(d)) =>
        var k := ((a * 16 + b) * 16 + c) * 16 + d;
        if k < 0xD800 || 0xE000 <= k < 0x10000 then Some(k as char) else None
      case _ => None
  }

  /** The character an escape names and the length of the escape, the text starting at its backslash. */
  function ReadEscape(s: string): Option<(char, nat)> {
    if |s| < 2 then None
    else if s[1] == '"' || s[1] == '\\' || s[1] == '/' then Some((s[1], 2))
    else if s[1] == 'b' then Some((8 as char, 2))
    else if s[1] == 'f' then Some((12 as char, 2))
    else if s[1] == 'n' then Some((10 as char, 2))
    else if s[1] == 'r' then Some((13 as char, 2))
    else if s[1] == 't' then Some((9 as char, 2))
    else if s[1] == 'u' then
      match ReadHex4(s[2..])
      case Some(c) => Some((c, 6))
      case None => None
    else None
  }

  /** Reads a string body up to its closing quote: the string and what follows the quote. */
  function ReadString(s: string): (r: Option<(string, string)>)
    ensures r.Some? ==> |r.value.1| < |s|
    decreases |s|
  {
    if s == [] || s[0] < ' ' then None
    else if s[0] == '"' then Some(("", s[1..]))
    else if s[0] != '\\' then
      match ReadString(s[1..])
      case Some((t, rest)) => Some(([s[0]] + t, rest))
      case None => None
    else
      match ReadEscape(s)
      case None => None
      case Some((c, n)) =>
        if n > |s| then None
        else match ReadString(s[n..])
          case Some((t, rest)) => Some(([c] + t, rest))
          case None => None
  }

  lemma ReadEscapedControl(c: char, rest: string)
    requires (c as int) < 0x20
    ensures ReadEscape(EscapeChar(c) + rest) == Some((c, |EscapeChar(c)|))
    ensures (EscapeChar(c) + rest)[0] == '\\'
  {
    var k := c as int;
    var t := EscapeChar(c) + rest;
    if |EscapeChar(c)| == 6 {
      assert k == k / 16 * 16 + k % 16 && k / 16 < 2;
      assert t[2] == '0' && t[3] == '0' && t[4] == HexDigit(k / 16) && t[5] == HexDigit(k % 16);
      assert t[2..][0] == '0' && t[2..][1] == '0' && t[2..][2] == HexDigit(k / 16) && t[2..][3] == HexDigit(k % 16);
      assert ReadHex4(t[2..]) == Some(c);
    }
  }

  lemma ReadEscapedChar(c: char, rest: string)
    ensures var e := EscapeChar(c);
            if e == [c] then c != '"' && c != '\\' && c >= ' '
            else (e + rest)[0] == '\\' && ReadEscape(e + rest) == Some((c, |e|))
  {
    if (c as int) < 0x20 { ReadEscapedControl(c, rest); }
  }

  /** Reading an escaped string back gives the string and whatever followed it. */
  lemma {:induction false} ReadInvertsEscape(s: string, rest: string)
    ensures ReadString(EscapeBody(s) + "\"" + rest) == Some((s, rest))
    decreases |s|
  {
    var t := EscapeBody(s) + "\"" + rest;
    if s == [] {
      assert t == ['"'] + rest;
      assert t[1..] == rest;
    } else {
      var e, tail := EscapeChar(s[0]), EscapeBody(s[1..]) + "\"" + rest;
      assert t == e + tail;
      ReadInvertsEscape(s[1..], rest);
      ReadEscapedChar(s[0], tail);
      assert t[|e|..] == tail;
      assert [s[0]] + s[1..] == s;
    }
  }

  // ------------------------------------------------------------------------- the shortest body

  predicate LowerHexDigit(c: char) { '0' <= c <= '9' || 'a' <= c <= 'f' }

  /** Every \u escape is \u00 and two lower-case digits. */
  predicate PlainEscapes(t: string) {
    if t == "" then true
    else if t[0] != '\\' then PlainEscapes(t[1..])
    else if |t| < 2 then false
    else if t[1] != 'u' then PlainEscapes(t[2..])
    else |t| >= 6 && t[2] == '0' && t[3] == '0' && LowerHexDigit(t[4]) && LowerHexDigit(t[5]) && PlainEscapes(t[6..])
  }

  lemma HexDigitOf(c: char)
    requires LowerHexDigit(c)
    ensures HexValue(c).Some? && HexValue(c).value < 16 && HexDigit(HexValue(c).value) == c
  {
  }

  /** No escape that reads as a character is shorter than the one written for it. */
  lemma EscapeIsShortest(t: string)
    requires t != "" && t[0] == '\\' && ReadEscape(t).Some?
    ensures var (c, n) := ReadEscape(t).value; |EscapeChar(c)| <= n <= |t|
  {
  }

  /** One as short is the one written, if its hexadecimal digits are. */
  lemma ShortestEscapeIs(t: string)
    requires t != "" && t[0] == '\\' && ReadEscape(t).Some? && PlainEscapes(t)
    requires |EscapeChar(ReadEscape(t).value.0)| == ReadEscape(t).value.1
    ensures var (c, n) := ReadEscape(t).value; t[..n] == EscapeChar(c)
  {
    if t[1] == 'u' {
      HexDigitOf(t[4]);
      HexDigitOf(t[5]);
      var u := t[2..];
      assert u[0] == '0' && u[1] == '0' && u[2] == t[4] && u[3] == t[5];
      var a, b := HexValue(t[4]).value, HexValue(t[5]).value;
      assert ReadEscape(t).value.0 as int == a * 16 + b;
      assert (a * 16 + b) / 16 == a && (a * 16 + b) % 16 == b;
      assert t[..6] == ['\\', 'u', '0', '0', t[4], t[5]];
    }
  }

  /** No body that reads as a string is shorter than its escaped text. */
  lemma {:induction false} EscapedIsShortest(x: string, s: string, rest: string)
    requires ReadString(x) == Some((s, rest))
    ensures |x| >= |EscapeBody(s)| + 1 + |rest|
    decreases |x|
  {
    if x[0] == '"' {
    } else if x[0] != '\\' {
      EscapedIsShortest(x[1..], s[1..], rest);
    } else {
      EscapeIsShortest(x);
      EscapedIsShortest(x[ReadEscape(x).value.1..], s[1..], rest);
    }
  }

  /** A body, its closing quote and what follows. */
  function Closed(t: string, rest: string): string { t + "\"" + rest }

  lemma ClosedParts(t: string, rest: string, n: nat)
    requires 0 < n <= |t|
    ensures Closed(t, rest)[0] == t[0] && Closed(t, rest)[n..] == Closed(t[n..], rest)
    ensures Closed(t, rest) == t + ("\"" + rest)
  {
  }

  /** An escape is read the same whatever follows it. */
  lemma EscapeReadsAlone(t: string, tail: string)
    requires t != "" && t[0] == '\\' && PlainEscapes(t)
    ensures ReadEscape(t + tail) == ReadEscape(t)
  {
    var x := t + tail;
    assert x[1] == t[1];
    if t[1] == 'u' { assert x[2..][..4] == t[2..][..4]; }
  }

  lemma ReadPastEscape(x: string, s: string, rest: string)
    requires x != "" && x[0] == '\\' && ReadString(x) == Some((s, rest))
    ensures s != "" && ReadEscape(x).Some?
    ensures var (c, n) := ReadEscape(x).value; s[0] == c && n <= |x| && ReadString(x[n..]) == Some((s[1..], rest))
  {
    var (c, n) := ReadEscape(x).value;
    assert s == [c] + s[1..];
  }

  lemma ReadPastPlain(x: string, s: string, rest: string)
    requires x != "" && x[0] != '\\' && ReadString(x) == Some((s, rest)) && s != ""
    ensures s[0] == x[0] && EscapeChar(s[0]) == [s[0]] && ReadString(x[1..]) == Some((s[1..], rest))
  {
    assert s == [x[0]] + s[1..];
  }

  lemma EscapeLength(t: string)
    requires t != "" && t[0] == '\\' && ReadEscape(t).Some?
    ensures 0 < ReadEscape(t).value.1 <= |t|
  {
  }

  /** Reading goes on after the first character, whose text is no longer than what was read. */
  lemma ReadsOn(s: string, t: string, rest: string) returns (n: nat)
    requires s != "" && t != "" && PlainEscapes(t) && ReadString(Closed(t, rest)) == Some((s, rest))
    ensures 0 < n <= |t| && ReadString(Closed(t[n..], rest)) == Some((s[1..], rest)) && |EscapeChar(s[0])| <= n
    ensures |EscapeChar(s[0])| == n ==> t[..n] == EscapeChar(s[0])
    ensures PlainEscapes(t[n..])
  {
    ClosedParts(t, rest, 1);
    if t[0] != '\\' {
      ReadPastPlain(Closed(t, rest), s, rest);
      n := 1;
    } else {
      EscapeReadsAlone(t, "\"" + rest);
      ReadPastEscape(Closed(t, rest), s, rest);
      n := ReadEscape(t).value.1;
      EscapeLength(t);
      ClosedParts(t, rest, n);
      EscapeIsShortest(t);
      if |EscapeChar(s[0])| == n { ShortestEscapeIs(t); }
      PlainTail(t);
    }
  }

  lemma {:induction false} ShortestBodyIs(s: string, t: string, rest: string)
    requires ReadString(Closed(t, rest)) == Some((s, rest)) && |t| == |EscapeBody(s)| && PlainEscapes(t)
    ensures t == EscapeBody(s)
    decreases |t|
  {
    if s != "" {
      var n := ReadsOn(s, t, rest);
      EscapedIsShortest(Closed(t[n..], rest), s[1..], rest);
      ShortestBodyIs(s[1..], t[n..], rest);
      assert t == t[..n] + t[n..];
    }
  }

  lemma PlainTail(t: string)
    requires t != "" && t[0] == '\\' && PlainEscapes(t) && ReadEscape(t).Some?
    ensures ReadEscape(t).value.1 <= |t| && PlainEscapes(t[ReadEscape(t).value.1..])
  {
  }

  lemma {:induction false} EscapesArePlain(s: string)
    ensures PlainEscapes(EscapeBody(s))
    decreases |s|
  {
    if s != "" {
      EscapesArePlain(s[1..]);
      EscapeIsPlain(s[0], EscapeBody(s[1..]));
    }
  }

  lemma EscapeIsPlain(c: char, t: string)
    requires PlainEscapes(t)
    ensures PlainEscapes(EscapeChar(c) + t)
  {
    var e, x := EscapeChar(c), EscapeChar(c) + t;
    assert x[|e|..] == t;
    if |e| == 6 { assert x[2] == '0' && x[3] == '0' && x[4] == e[4] && x[5] == e[5]; }
  }

  /**
   * The escaped text of a string is a shortest body that reads as it, and the only one of that length that writes its
   * \u escapes as \u00 and lower-case digits, which it does.
   */
  lemma EscapedIsCanonical(s: string, t: string, rest: string)
    requires ReadString(Closed(t, rest)) == Some((s, rest))
    ensures |EscapeBody(s)| <= |t| && PlainEscapes(EscapeBody(s))
    ensures |t| == |EscapeBody(s)| && PlainEscapes(t) ==> t == EscapeBody(s)
  {
    EscapedIsShortest(Closed(t, rest), s, rest);
    EscapesArePlain(s);
    if |t| == |EscapeBody(s)| && PlainEscapes(t) { ShortestBodyIs(s, t, rest); }
  }

  predicate HasPair(t: string, a: char, b: char) { exists i :: 0 < i < |t| && t[i - 1] == a && t[i] == b }

  lemma PairAcross(e: string, t: string, a: char, b: char)
    requires e != ""
    ensures HasPair(e + t, a, b) <==> HasPair(e, a, b) || HasPair(t, a, b)
                                      || (t != "" && e[|e| - 1] == a && t[0] == b)
  {
    var x := e + t;
    if HasPair(e, a, b) {
      var i :| 0 < i < |e| && e[i - 1] == a && e[i] == b;
      assert x[i - 1] == a && x[i] == b;
    }
    if HasPair(t, a, b) {
      var i :| 0 < i < |t| && t[i - 1] == a && t[i] == b;
      assert x[|e| + i - 1] == a && x[|e| + i] == b;
    }
    if t != "" && e[|e| - 1] == a && t[0] == b { assert x[|e| - 1] == a && x[|e|] == b; }
    if HasPair(x, a, b) {
      var i :| 0 < i < |x| && x[i - 1] == a && x[i] == b;
      if i < |e| { assert e[i - 1] == a && e[i] == b; }
      if i > |e| { assert t[i - |e| - 1] == a && t[i - |e|] == b; }
    }
  }

  /** The solidus is never escaped: a backslash stands before one exactly when one does in the string itself. */
  lemma {:induction false} SolidusIsNotEscaped(s: string)
    ensures HasPair(EscapeBody(s), '\\', '/') <==> HasPair(s, '\\', '/')
    decreases |s|
  {
    if s != "" {
      var e, body := EscapeChar(s[0]), EscapeBody(s[1..]);
      SolidusIsNotEscaped(s[1..]);
      PairAcross(e, body, '\\', '/');
      PairAcross([s[0]], s[1..], '\\', '/');
      assert [s[0]] + s[1..] == s;
      if s[1..] != "" { assert body == EscapeChar(s[1]) + EscapeBody(s[1..][1..]); }
    }
  }

  // -------------------------------------------------------------------------- UTF-16 order

  /** The UTF-16 code units of a character: one, or a surrogate pair. */
  function Units(c: char): (u: seq<int>)
    ensures 1 <= |u| <= 2 && forall i :: 0 <= i < |u| ==> 0 <= u[i] < 0x10000
  {
    var k := c as int;
    if k < 0x10000 then [k] else [0xD800 + (k - 0x10000) / 0x400, 0xDC00 + (k - 0x10000) % 0x400]
  }

  predicate AreUnits(u: seq<int>) { forall i :: 0 <= i < |u| ==> 0 <= u[i] < 0x10000 }

  function Utf16(s: string): (u: seq<int>)
    ensures AreUnits(u)
    ensures u == [] <==> s == []
  {
    if s == [] then [] else Units(s[0]) + Utf16(s[1..])
  }

  /** Big-endian bytes of code units: value.encode("utf-16-be"). */
  function BigEndian(u: seq<int>): seq<int>
    requires AreUnits(u)
  {
    if u == [] then [] else [u[0] / 256, u[0] % 256] + BigEndian(u[1..])
  }

  function SortKey(s: string): seq<int> { BigEndian(Utf16(s)) }

  /** Lexicographic order, a proper prefix being smaller: the order of bytes objects. */
  predicate LexLess(a: seq<int>, b: seq<int>) {
    if b == [] then false
    else if a == [] then true
    else a[0] < b[0] || (a[0] == b[0] && LexLess(a[1..], b[1..]))
  }

  predicate KeyLess(s: string, t: string) { LexLess(SortKey(s), SortKey(t)) }

  /** Comparing big-endian bytes is comparing code units. */
  lemma {:induction false} ByteOrderIsUnitOrder(u: seq<int>, v: seq<int>)
    requires AreUnits(u) && AreUnits(v)
    ensures LexLess(BigEndian(u), BigEndian(v)) <==> LexLess(u, v)
    decreases |u|
  {
    if u != [] && v != [] {
      ByteOrderIsUnitOrder(u[1..], v[1..]);
      TwoBytes(u[0], v[0], BigEndian(u[1..]), BigEndian(v[1..]));
    }
  }

  lemma TwoBytes(a: int, b: int, s: seq<int>, t: seq<int>)
    requires 0 <= a < 0x10000 && 0 <= b < 0x10000
    ensures LexLess([a / 256, a % 256] + s, [b / 256, b % 256] + t) <==> a < b || (a == b && LexLess(s, t))
  {
    var x, y := [a / 256, a % 256] + s, [b / 256, b % 256] + t;
    assert x[1..] == [a % 256] + s && y[1..] == [b % 256] + t;
    assert x[1..][1..] == s && y[1..][1..] == t;
    assert a == a / 256 * 256 + a % 256 && b == b / 256 * 256 + b % 256;
    assert LexLess(x, y) <==> a / 256 < b / 256 || (a / 256 == b / 256 && LexLess(x[1..], y[1..]));
    assert LexLess(x[1..], y[1..]) <==> a % 256 < b % 256 || (a % 256 == b % 256 && LexLess(s, t));
  }

  /** Keys are ordered by their UTF-16 code units. */
  lemma KeyOrderIsUnitOrder(s: string, t: string)
    ensures KeyLess(s, t) <==> LexLess(Utf16(s), Utf16(t))
  {
    ByteOrderIsUnitOrder(Utf16(s), Utf16(t));
  }

  lemma {:induction false} LexIrreflexive(a: seq<int>)
    ensures !LexLess(a, a)
    decreases |a|
  {
    if a != [] { LexIrreflexive(a[1..]); }
  }

  lemma {:induction false} LexTransitive(a: seq<int>, b: seq<int>, c: seq<int>)
    requires LexLess(a, b) && LexLess(b, c)
    ensures LexLess(a, c)
    decreases |a|
  {
    if a != [] && a[0] == b[0] && b[0] == c[0] { LexTransitive(a[1..], b[1..], c[1..]); }
  }

  lemma {:induction false} LexTotal(a: seq<int>, b: seq<int>)
    ensures a == b || LexLess(a, b) || LexLess(b, a)
    decreases |a|
  {
    if a != [] && b != [] && a[0] == b[0] {
      LexTotal(a[1..], b[1..]);
      if a[1..] == b[1..] { assert a == [a[0]] + a[1..] && b == [b[0]] + b[1..]; }
    }
  }

  lemma UnitsInjective(c: char, d: char, u: seq<int>, v: seq<int>)
    requires Units(c) + u == Units(d) + v
    ensures c == d && u == v
  {
    var x := Units(c) + u;
    assert x[0] == Units(c)[0] == Units(d)[0];
    PairInjective(c as int, d as int, x);
    assert x[|Units(c)|..] == u && x[|Units(d)|..] == v;
  }

  lemma PairInjective(j: int, k: int, x: seq<int>)
    requires 0 <= j < 0x110000 && 0 <= k < 0x110000 && !(0xD800 <= j < 0xE000) && !(0xD800 <= k < 0xE000)
    requires |x| >= 1
    requires j < 0x10000 ==> x[0] == j
    requires j >= 0x10000 ==>
               |x| >= 2 && x[0] == 0xD800 + (j - 0x10000) / 0x400 && x[1] == 0xDC00 + (j - 0x10000) % 0x400
    requires k < 0x10000 ==> x[0] == k
    requires k >= 0x10000 ==>
               |x| >= 2 && x[0] == 0xD800 + (k - 0x10000) / 0x400 && x[1] == 0xDC00 + (k - 0x10000) % 0x400
    ensures j == k
  {
  }

  /** Different strings have different sort keys, so no two keys of an object tie. */
  lemma {:induction false} Utf16Injective(s: string, t: string)
    requires Utf16(s) == Utf16(t)
    ensures s == t
    decreases |s|
  {
    if s != [] {
      UnitsInjective(s[0], t[0], Utf16(s[1..]), Utf16(t[1..]));
      Utf16Injective(s[1..], t[1..]);
      assert s == [s[0]] + s[1..] && t == [t[0]] + t[1..];
    }
  }

  /** The order of keys is a strict total order. */
  lemma KeyTotal(s: string, t: string)
    ensures s == t || KeyLess(s, t) || KeyLess(t, s)
  {
    KeyOrderIsUnitOrder(s, t);
    KeyOrderIsUnitOrder(t, s);
    LexTotal(Utf16(s), Utf16(t));
    if Utf16(s) == Utf16(t) { Utf16Injective(s, t); }
  }

  lemma KeyTransitive(s: string, t: string, u: string)
    requires KeyLess(s, t) && KeyLess(t, u)
    ensures KeyLess(s, u)
  {
    LexTransitive(SortKey(s), SortKey(t), SortKey(u));
  }

  lemma KeyIrreflexive(s: string)
    ensures !KeyLess(s, s)
  {
    LexIrreflexive(SortKey(s));
  }
}

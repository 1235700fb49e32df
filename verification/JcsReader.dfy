/**
 * A reader for JSON text, and what it proves about the canonicaliser: reading a canonical text
 * gives back the value, so the text determines the value and the value determines the text.
 */
module JcsReader {
  import opened Wrappers
  import opened Decimals
  import opened JcsNumbers
  import opened JcsStrings
  import opened Jcs

  // --------------------------------------------------------------------------- the reader

  predicate IsNumberChar(c: char) { IsDigit(c) || c == '-' || c == '+' || c == '.' || c == 'e' || c == 'E' }

  /** How many characters at the front can belong to a number. */
  function NumberRun(s: string): (n: nat)
    ensures n <= |s|
  {
    if s == [] || !IsNumberChar(s[0]) then 0 else 1 + NumberRun(s[1..])
  }

  predicate StartsWith(s: string, w: string) { |w| <= |s| && s[..|w|] == w }

  /** Reads one JSON value off the front: the value and the text after it. */
  function ReadValue(s: string): (r: Option<(Value, string)>)
    ensures r.Some? ==> |r.value.1| < |s|
    decreases |s|, 0
  {
    if s == [] then None
    else if StartsWith(s, "null") then Some((VNull, s[4..]))
    else if StartsWith(s, "true") then Some((VBool(true), s[4..]))
    else if StartsWith(s, "false") then Some((VBool(false), s[5..]))
    else if s[0] == '"' then
      match ReadString(s[1..])
      case Some((t, rest)) => Some((VText(t), rest))
      case None => None
    else if s[0] == '[' then
      if |s| > 1 && s[1] == ']' then Some((VList([]), s[2..]))
      else match ReadItems(s[1..])
        case Some((items, rest)) => Some((VList(items), rest))
        case None => None
    else if s[0] == '{' then
      if |s| > 1 && s[1] == '}' then Some((VObject(map[]), s[2..]))
      else match ReadMembers(s[1..])
        case Some((members, rest)) => Some((VObject(members), rest))
        case None => None
    else
      var n := NumberRun(s);
      if n == 0 then None
      else match Denote(s[..n])
        case Some(d) => Some((VNumber(Normal(d)), s[n..]))
        case None => None
  }

  /** Reads comma-separated values up to and including the closing bracket. */
  function ReadItems(s: string): (r: Option<(seq<Value>, string)>)
    ensures r.Some? ==> |r.value.1| < |s|
    decreases |s|, 1
  {
    match ReadValue(s)
    case None => None
    case Some((v, rest)) =>
      if rest == [] then None
      else if rest[0] == ']' then Some(([v], rest[1..]))
      else if rest[0] != ',' then None
      else match ReadItems(rest[1..])
        case Some((vs, after)) => Some(([v] + vs, after))
        case None => None
  }

  /** Reads comma-separated members up to and including the closing brace; a later key wins. */
  function ReadMembers(s: string): (r: Option<(map<string, Value>, string)>)
    ensures r.Some? ==> |r.value.1| < |s|
    decreases |s|, 1
  {
    if s == [] || s[0] != '"' then None
    else match ReadString(s[1..])
      case None => None
      case Some((k, afterKey)) =>
        if afterKey == [] || afterKey[0] != ':' then None
        else match ReadValue(afterKey[1..])
          case None => None
          case Some((v, rest)) =>
            if rest == [] then None
            else if rest[0] == '}' then Some((map[k := v], rest[1..]))
            else if rest[0] != ',' then None
            else match ReadMembers(rest[1..])
              case Some((m, after)) => Some((if k in m then m else m[k := v], after))
              case None => None
  }

  /** A continuation that cannot extend a number. */
  predicate Delimited(rest: string) { rest == [] || !IsNumberChar(rest[0]) }

  // ------------------------------------------------------------------------- number texts

  predicate AllNumberChars(s: string) { forall i :: 0 <= i < |s| ==> IsNumberChar(s[i]) }

  lemma {:induction false} RunOfNumber(t: string, rest: string)
    requires AllNumberChars(t) && Delimited(rest)
    ensures NumberRun(t + rest) == |t|
    decreases |t|
  {
    if t == [] {
      assert t + rest == rest;
    } else {
      assert (t + rest)[1..] == t[1..] + rest;
      RunOfNumber(t[1..], rest);
    }
  }

  lemma DigitsAreNumberChars(s: string)
    requires AllDigits(s)
    ensures AllNumberChars(s)
  {
  }

  lemma CharsJoin(a: string, b: string)
    requires AllNumberChars(a) && AllNumberChars(b)
    ensures AllNumberChars(a + b)
  {
  }

  lemma ExponentChars(expText: string)
    requires IsExponent(expText)
    ensures AllNumberChars(expText)
  {
    if expText[0] == '+' || expText[0] == '-' {
      assert forall i :: 0 < i < |expText| ==> expText[i] == expText[1..][i - 1];
    }
  }

  lemma NumeralChars(whole: string, frac: string, expText: string)
    requires whole != [] && AllDigits(whole) && AllDigits(frac) && (expText == [] || IsExponent(expText))
    ensures AllNumberChars(NumeralBody(whole, frac, expText)) && IsDigit(NumeralBody(whole, frac, expText)[0])
  {
    DigitsAreNumberChars(whole);
    DigitsAreNumberChars(frac);
    CharsJoin(whole, ".");
    CharsJoin(whole + ".", frac);
    var mant := if frac == [] then whole else whole + "." + frac;
    CharsJoin(mant, "e");
    if expText != [] {
      ExponentChars(expText);
      CharsJoin(mant + "e", expText);
    }
  }

  lemma LayoutChars(neg: bool, digits: string, exp10: int)
    requires Significant(digits)
    ensures AllNumberChars(Layout(neg, digits, exp10))
    ensures Layout(neg, digits, exp10)[0] == '-' || IsDigit(Layout(neg, digits, exp10)[0])
  {
    var parts := LayoutParts(digits, exp10);
    LayoutIsItsParts(digits, exp10);
    LayoutPartsValue(digits, exp10);
    NumeralChars(parts.0, parts.1, parts.2);
    SignedChars(neg, NumeralBody(parts.0, parts.1, parts.2));
  }

  lemma SignedChars(neg: bool, body: string)
    requires AllNumberChars(body) && body != [] && IsDigit(body[0])
    ensures AllNumberChars(SignText(neg) + body) && (SignText(neg) + body)[0] in {'-', body[0]}
  {
  }

  lemma IntTextDenotes(i: int)
    ensures Denote(IntText(i)) == Some(Decimal(i, 0))
    ensures AllNumberChars(IntText(i)) && (IntText(i)[0] == '-' || IsDigit(IntText(i)[0]))
  {
    var t := NatText(Abs(i));
    NatTextRoundTrip(Abs(i));
    DenoteAssembled(i < 0, t, "", "");
    assert t + "" == t;
    assert NumeralBody(t, "", "") == t;
    assert SignText(i < 0) + t == IntText(i);
  }

  lemma NatTextSignificant(m: int)
    requires m != 0 && m % 10 != 0
    ensures Significant(NatText(Abs(m))) && DigitsValue(NatText(Abs(m))) == Abs(m)
  {
    NatTextRoundTrip(Abs(m));
    TrailingDigit(NatText(Abs(m)));
    assert Abs(m) % 10 != 0;
  }

  predicate ReadsAs(t: string, d: Decimal) {
    && AllNumberChars(t) && t != [] && (t[0] == '-' || IsDigit(t[0]))
    && Denote(t).Some? && Normal(Denote(t).value) == d
  }

  lemma IntegerTextReads(i: int, d: Decimal)
    requires Normal(Decimal(i, 0)) == d
    ensures ReadsAs(IntText(i), d)
  {
    IntTextDenotes(i);
  }

  lemma LaidOutReads(neg: bool, digits: string, exp10: int, d: Decimal)
    requires Significant(digits) && Normal(Decimal(Signed(neg, DigitsValue(digits)), exp10)) == d
    ensures ReadsAs(Layout(neg, digits, exp10), d)
  {
    LayoutDenotes(neg, digits, exp10);
    LayoutChars(neg, digits, exp10);
  }

  lemma LayoutReads(d: Decimal)
    requires d == Normal(d) && d.mantissa != 0
    ensures ReadsAs(Layout(d.mantissa < 0, NatText(Abs(d.mantissa)), d.exponent), d)
  {
    NormalShape(d);
    NatTextSignificant(d.mantissa);
    assert Signed(d.mantissa < 0, Abs(d.mantissa)) == d.mantissa;
    LaidOutReads(d.mantissa < 0, NatText(Abs(d.mantissa)), d.exponent, d);
  }

  /** The text of a number reads back as that number. */
  lemma NumberTextReads(d: Decimal)
    requires d == Normal(d)
    ensures ReadsAs(NumberText(d), d)
  {
    NormalShape(d);
    if d.exponent >= 0 && Abs(d.mantissa * Pow10(d.exponent)) <= MAX_SAFE {
      NormalShift(d.mantissa, d.exponent, 0);
      IntegerTextReads(d.mantissa * Pow10(d.exponent), d);
    } else {
      LayoutReads(d);
    }
  }

  lemma ReadNumber(d: Decimal, rest: string)
    requires d == Normal(d) && Delimited(rest)
    ensures ReadValue(NumberText(d) + rest) == Some((VNumber(d), rest))
  {
    NumberTextReads(d);
    var t := NumberText(d);
    var s := t + rest;
    RunOfNumber(t, rest);
    assert s[..|t|] == t && s[|t|..] == rest;
    assert s[0] == t[0];
    assert !StartsWith(s, "null") by { assert "null"[0] == 'n'; }
    assert !StartsWith(s, "true") by { assert "true"[0] == 't'; }
    assert !StartsWith(s, "false") by { assert "false"[0] == 'f'; }
  }

  // ------------------------------------------------------------------------ the round trip

  lemma NotAKeyword(s: string)
    requires s != [] && (s[0] == '"' || s[0] == '[' || s[0] == '{')
    ensures !StartsWith(s, "null") && !StartsWith(s, "true") && !StartsWith(s, "false")
  {
    assert "null"[0] == 'n' && "true"[0] == 't' && "false"[0] == 'f';
  }

  lemma ReadQuoted(s: string, rest: string)
    ensures ReadValue(Quoted(s) + rest) == Some((VText(s), rest))
    ensures (Quoted(s) + rest)[0] == '"' && ReadString((Quoted(s) + rest)[1..]) == Some((s, rest))
  {
    var t := Quoted(s) + rest;
    assert t[0] == '"' && t[1..] == EscapeBody(s) + "\"" + rest;
    ReadInvertsEscape(s, rest);
    NotAKeyword(t);
  }

  lemma NumberIsNormal(v: Json)
    requires Proper(v) && (v.Int? || v.Double?)
    ensures NumberOf(v) == Normal(NumberOf(v))
  {
    if v.Int? { NormalIdempotent(Decimal(v.n, 0)); } else { NormalIdempotent(DoubleValue(v.neg, v.rep)); }
  }

  lemma CanonStart(v: Json)
    requires Canonicalizable(v)
    ensures Canon(v) != [] && Canon(v)[0] != ']' && Canon(v)[0] != '}'
  {
    if v.Int? || v.Double? {
      NumberIsNormal(v);
      NumberTextReads(NumberOf(v));
    }
  }

  /** Reading a canonical text, whatever follows it, gives the value it means and what followed. */
  lemma {:induction false} ReadInvertsCanon(v: Json, rest: string)
    requires Canonicalizable(v) && Delimited(rest)
    ensures ReadValue(Canon(v) + rest) == Some((Meaning(v), rest))
    decreases v, 3
  {
    var s := Canon(v) + rest;
    match v
    case Null => assert s[..4] == "null" && s[4..] == rest;
    case Bool(b) =>
      if b { assert s[..4] == "true" && s[4..] == rest && !StartsWith(s, "null"); }
      else { ReadFalse(rest); }
    case Text(t) => ReadQuoted(t, rest);
    case Int(_) => NumberIsNormal(v); ReadNumber(NumberOf(v), rest);
    case Double(_, _) => NumberIsNormal(v); ReadNumber(NumberOf(v), rest);
    case List(items) =>
      if items == [] {
        ReadEmpty(rest);
        assert Meaning(v).items == [];
      } else {
        CanonStart(items[0]);
        ReadInvertsItems(v, items, rest);
        ReadBracketed(CanonItems(v, items), rest);
      }
    case Dict(ms) =>
      var sorted := SortByKey(ms);
      SortSorts(ms);
      SortedKeysDistinct(sorted);
      if sorted == [] {
        ReadEmpty(rest);
      } else {
        ReadInvertsMembers(v, sorted, rest);
        ReadBraced(CanonMembers(v, sorted), rest);
        SameMembersSameMeaning(v, ms, sorted);
      }
  }

  lemma ReadEmpty(rest: string)
    ensures ReadValue("[" + "" + "]" + rest) == Some((VList([]), rest))
    ensures ReadValue("{" + "" + "}" + rest) == Some((VObject(map[]), rest))
  {
    var s, t := "[" + "" + "]" + rest, "{" + "" + "}" + rest;
    NotAKeyword(s);
    NotAKeyword(t);
    assert s[1] == ']' && s[2..] == rest;
    assert t[1] == '}' && t[2..] == rest;
  }

  lemma ReadBracketed(inner: string, rest: string)
    requires inner != [] && inner[0] != ']'
    requires ReadItems(inner + "]" + rest).Some?
    ensures var r := ReadItems(inner + "]" + rest).value;
            ReadValue("[" + inner + "]" + rest) == Some((VList(r.0), r.1))
  {
    var s := "[" + inner + "]" + rest;
    NotAKeyword(s);
    assert s[1..] == inner + "]" + rest;
    assert s[1] == inner[0];
  }

  lemma ReadBraced(inner: string, rest: string)
    requires inner != [] && inner[0] != '}'
    requires ReadMembers(inner + "}" + rest).Some?
    ensures var r := ReadMembers(inner + "}" + rest).value;
            ReadValue("{" + inner + "}" + rest) == Some((VObject(r.0), r.1))
  {
    var s := "{" + inner + "}" + rest;
    NotAKeyword(s);
    assert s[1..] == inner + "}" + rest;
    assert s[1] == inner[0];
  }

  lemma ReadFalse(rest: string)
    ensures ReadValue("false" + rest) == Some((VBool(false), rest))
  {
    var s := "false" + rest;
    assert s[0] == 'f' && s[..5] == "false" && s[5..] == rest;
    assert "null"[0] == 'n' && "true"[0] == 't';
  }

  lemma SameMembersSameMeaning(v: Json, ms: seq<Member>, sorted: seq<Member>)
    requires Canonicalizable(v) && v.Dict? && v.members == ms
    requires DistinctKeys(sorted) && forall m :: m in sorted <==> m in ms
    ensures MembersMeaning(v, sorted) == MembersMeaning(v, ms)
  {
    MembersMeaningLookup(v, ms);
    MembersMeaningLookup(v, sorted);
    var a, b := MembersMeaning(v, sorted), MembersMeaning(v, ms);
    forall k | k in a ensures k in b && a[k] == b[k] {
      var m :| m in sorted && m.key == k;
      assert m in ms;
    }
    forall k | k in b ensures k in a {
      var m :| m in ms && m.key == k;
      assert m in sorted;
    }
  }

  lemma SortedKeysDistinct(ms: seq<Member>)
    requires KeysSorted(ms)
    ensures DistinctKeys(ms)
  {
    forall i, j | 0 <= i < j < |ms| ensures ms[i].key != ms[j].key { KeyIrreflexive(ms[i].key); }
  }

  function Meanings(items: seq<Json>): seq<Value>
    requires forall x :: x in items ==> Canonicalizable(x)
  {
    seq(|items|, i requires 0 <= i < |items| => Meaning(items[i]))
  }

  lemma MeaningsStep(items: seq<Json>)
    requires items != [] && forall x :: x in items ==> Canonicalizable(x)
    ensures Meanings(items) == [Meaning(items[0])] + Meanings(items[1..])
  {
  }

  lemma LastItem(m: string, rest: string)
    ensures m + "" + "]" + rest == m + ("]" + rest)
    ensures ("]" + rest)[0] == ']' && ("]" + rest)[1..] == rest
  {
  }

  lemma NextItem(m: string, tail: string, rest: string)
    ensures m + ("," + tail) + "]" + rest == m + ("," + (tail + "]" + rest))
    ensures ("," + (tail + "]" + rest))[0] == ',' && ("," + (tail + "]" + rest))[1..] == tail + "]" + rest
  {
  }

  lemma {:induction false} ReadInvertsItems(v: Json, items: seq<Json>, rest: string)
    requires Canonicalizable(v) && v.List? && items != [] && forall x :: x in items ==> x in v.items
    ensures ReadItems(CanonItems(v, items) + "]" + rest) == Some((Meanings(items), rest))
    decreases v, 1, |items|
  {
    assert items[0] in v.items;
    var head := Canon(items[0]);
    MeaningsStep(items);
    if |items| == 1 {
      LastItem(head, rest);
      ReadInvertsCanon(items[0], "]" + rest);
      assert Meanings(items) == [Meaning(items[0])];
    } else {
      NextItem(head, CanonItems(v, items[1..]), rest);
      ReadInvertsCanon(items[0], "," + (CanonItems(v, items[1..]) + "]" + rest));
      ReadInvertsItems(v, items[1..], rest);
    }
  }

  /** Reading the last member of an object. */
  lemma {:induction false} ReadLastMember(v: Json, ms: seq<Member>, rest: string)
    requires Canonicalizable(v) && v.Dict? && |ms| == 1 && forall m :: m in ms ==> m in v.members
    ensures ReadMembers(CanonMembers(v, ms) + "}" + rest) == Some((MembersMeaning(v, ms), rest))
    decreases v, 1, 1
  {
    assert ms[0] in v.members;
    LastMember(MemberText(v, ms[0]), rest);
    ReadFirstMember(CanonMembers(v, ms) + "}" + rest, ms[0].key, ms[0].value, "}" + rest);
    assert MembersMeaning(v, ms[1..]) == map[];
  }

  /** Reading one member more than is already known to read back. */
  lemma {:induction false} ReadNextMember(v: Json, ms: seq<Member>, rest: string)
    requires Canonicalizable(v) && v.Dict? && |ms| > 1 && DistinctKeys(ms) && forall m :: m in ms ==> m in v.members
    requires ReadMembers(CanonMembers(v, ms[1..]) + "}" + rest) == Some((MembersMeaning(v, ms[1..]), rest))
    ensures ReadMembers(CanonMembers(v, ms) + "}" + rest) == Some((MembersMeaning(v, ms), rest))
    decreases v, 1, |ms|
  {
    assert ms[0] in v.members;
    var after := "," + (CanonMembers(v, ms[1..]) + "}" + rest);
    NextMember(MemberText(v, ms[0]), CanonMembers(v, ms[1..]), rest);
    ReadFirstMember(CanonMembers(v, ms) + "}" + rest, ms[0].key, ms[0].value, after);
    KeyNotLater(v, ms);
  }

  lemma {:induction false} ReadInvertsMembers(v: Json, ms: seq<Member>, rest: string)
    requires Canonicalizable(v) && v.Dict? && ms != [] && forall m :: m in ms ==> m in v.members
    requires DistinctKeys(ms)
    ensures ReadMembers(CanonMembers(v, ms) + "}" + rest) == Some((MembersMeaning(v, ms), rest))
    decreases v, 2, |ms|
  {
    if |ms| == 1 {
      ReadLastMember(v, ms, rest);
    } else {
      ReadInvertsMembers(v, ms[1..], rest);
      ReadNextMember(v, ms, rest);
    }
  }

  lemma LastMember(m: string, rest: string)
    ensures m + "" + "}" + rest == m + ("}" + rest)
    ensures ("}" + rest)[0] == '}' && ("}" + rest)[1..] == rest
  {
  }

  lemma NextMember(m: string, tail: string, rest: string)
    ensures m + ("," + tail) + "}" + rest == m + ("," + (tail + "}" + rest))
    ensures ("," + (tail + "}" + rest))[0] == ',' && ("," + (tail + "}" + rest))[1..] == tail + "}" + rest
  {
  }

  lemma KeyNotLater(v: Json, ms: seq<Member>)
    requires Canonicalizable(v) && v.Dict? && ms != [] && DistinctKeys(ms)
    requires forall m :: m in ms ==> m in v.members
    ensures ms[0].key !in MembersMeaning(v, ms[1..])
  {
    MembersMeaningLookup(v, ms[1..]);
  }

  lemma {:induction false} ReadFirstMember(s: string, key: string, x: Json, after: string)
    requires Canonicalizable(x) && Delimited(after)
    requires s == Quoted(key) + ":" + Canon(x) + after
    ensures s[0] == '"'
    ensures ReadString(s[1..]) == Some((key, ":" + (Canon(x) + after)))
    ensures (":" + (Canon(x) + after))[1..] == Canon(x) + after
    ensures ReadValue(Canon(x) + after) == Some((Meaning(x), after))
    decreases x, 4
  {
    MemberGrouping(Quoted(key), Canon(x), after);
    ReadQuoted(key, ":" + (Canon(x) + after));
    ReadInvertsCanon(x, after);
  }

  lemma MemberGrouping(q: string, c: string, after: string)
    ensures q + ":" + c + after == q + (":" + (c + after))
    ensures (":" + (c + after))[1..] == c + after
  {
  }

  // ----------------------------------------------------- the text and the value determine each other

  function KeySet(ms: seq<Member>): set<string> { set m | m in ms :: m.key }

  lemma MeaningKeys(v: Json, ms: seq<Member>)
    requires Canonicalizable(v) && v.Dict? && DistinctKeys(ms) && forall m :: m in ms ==> m in v.members
    ensures MembersMeaning(v, ms).Keys == KeySet(ms)
  {
    MembersMeaningLookup(v, ms);
    var meaning := MembersMeaning(v, ms);
    forall k | k in KeySet(ms) ensures k in meaning.Keys {
      var m :| m in ms && m.key == k;
    }
  }

  /** The least of a set of keys comes first in any sorted arrangement of it. */
  lemma LeastKeyFirst(ms: seq<Member>, ns: seq<Member>)
    requires ms != [] && ns != [] && KeysSorted(ms) && KeysSorted(ns) && KeySet(ms) == KeySet(ns)
    ensures ms[0].key == ns[0].key
  {
    var a, b := ms[0].key, ns[0].key;
    assert a in KeySet(ms) && b in KeySet(ns);
    var m :| m in ms && m.key == b;
    var n :| n in ns && n.key == a;
    if a != b {
      assert KeyLess(a, b);
      assert KeyLess(b, a);
      KeyTransitive(a, b, a);
      KeyIrreflexive(a);
    }
  }

  lemma TailKeys(ms: seq<Member>)
    requires ms != [] && KeysSorted(ms)
    ensures KeysSorted(ms[1..]) && KeySet(ms[1..]) == KeySet(ms) - {ms[0].key}
  {
    SortedKeysDistinct(ms);
    var tail := ms[1..];
    forall k | k in KeySet(ms) - {ms[0].key} ensures k in KeySet(tail) {
      var m :| m in ms && m.key == k;
      var i :| 0 <= i < |ms| && ms[i] == m;
      assert tail[i - 1] == m;
    }
  }

  lemma EmptyKeySet(ms: seq<Member>)
    ensures KeySet(ms) == {} <==> ms == []
  {
    if ms != [] { assert ms[0].key in KeySet(ms); }
  }

  /** A set of keys has one sorted arrangement. */
  lemma {:induction false} SortedKeysUnique(ms: seq<Member>, ns: seq<Member>)
    requires KeysSorted(ms) && KeysSorted(ns) && KeySet(ms) == KeySet(ns)
    ensures |ms| == |ns| && forall i :: 0 <= i < |ms| ==> ms[i].key == ns[i].key
    decreases |ms|
  {
    if ms == [] || ns == [] {
      EmptyKeySet(ms);
      EmptyKeySet(ns);
    } else {
      LeastKeyFirst(ms, ns);
      TailKeys(ms);
      TailKeys(ns);
      SortedKeysUnique(ms[1..], ns[1..]);
      forall i | 0 <= i < |ms| ensures ms[i].key == ns[i].key {
        if i > 0 { assert ms[i] == ms[1..][i - 1] && ns[i] == ns[1..][i - 1]; }
      }
    }
  }

  /** Values that mean the same JSON value have the same text, whatever the insertion order. */
  lemma {:induction false} MeaningDeterminesCanon(v: Json, w: Json)
    requires Canonicalizable(v) && Canonicalizable(w) && Meaning(v) == Meaning(w)
    ensures Canon(v) == Canon(w)
    decreases v, 2
  {
    match v
    case List(items) =>
      forall i | 0 <= i < |items| ensures Meaning(items[i]) == Meaning(w.items[i]) {
        assert Meaning(v).items[i] == Meaning(items[i]) && Meaning(w).items[i] == Meaning(w.items[i]);
      }
      ItemsDetermineText(v, items, w, w.items);
    case Dict(ms) =>
      SortSorts(ms);
      SortSorts(w.members);
      MeaningKeys(v, ms);
      MeaningKeys(w, w.members);
      var s, t := SortByKey(ms), SortByKey(w.members);
      assert KeySet(s) == KeySet(ms) && KeySet(t) == KeySet(w.members);
      SortedKeysUnique(s, t);
      MembersDetermineText(v, s, w, t);
    case _ =>
  }

  lemma {:induction false} ItemsDetermineText(v: Json, items: seq<Json>, w: Json, jtems: seq<Json>)
    requires Canonicalizable(v) && v.List? && forall x :: x in items ==> x in v.items
    requires Canonicalizable(w) && w.List? && forall x :: x in jtems ==> x in w.items
    requires |items| == |jtems| && forall i :: 0 <= i < |items| ==> Meaning(items[i]) == Meaning(jtems[i])
    ensures CanonItems(v, items) == CanonItems(w, jtems)
    decreases v, 1, |items|
  {
    if items != [] {
      assert items[0] in v.items && jtems[0] in w.items;
      MeaningDeterminesCanon(items[0], jtems[0]);
      if |items| > 1 { ItemsDetermineText(v, items[1..], w, jtems[1..]); }
    }
  }

  lemma {:induction false} MembersDetermineText(v: Json, ms: seq<Member>, w: Json, ns: seq<Member>)
    requires Canonicalizable(v) && v.Dict? && forall m :: m in ms ==> m in v.members
    requires Canonicalizable(w) && w.Dict? && forall m :: m in ns ==> m in w.members
    requires MembersMeaning(v, v.members) == MembersMeaning(w, w.members)
    requires |ms| == |ns| && forall i :: 0 <= i < |ms| ==> ms[i].key == ns[i].key
    ensures CanonMembers(v, ms) == CanonMembers(w, ns)
    decreases v, 1, |ms|
  {
    if ms != [] {
      assert ms[0] in v.members && ns[0] in w.members;
      MembersMeaningLookup(v, v.members);
      MembersMeaningLookup(w, w.members);
      MeaningDeterminesCanon(ms[0].value, ns[0].value);
      if |ms| > 1 { MembersDetermineText(v, ms[1..], w, ns[1..]); }
    }
  }

  /** Two values have the same canonical text exactly when they are the same JSON value. */
  lemma CanonEqualIffSameValue(v: Json, w: Json)
    requires Canonicalizable(v) && Canonicalizable(w)
    ensures Canon(v) == Canon(w) <==> Meaning(v) == Meaning(w)
  {
    if Canon(v) == Canon(w) {
      ReadInvertsCanon(v, "");
      ReadInvertsCanon(w, "");
    }
    if Meaning(v) == Meaning(w) { MeaningDeterminesCanon(v, w); }
  }

  /** No canonical text is a proper prefix of another followed by a delimiter. */
  lemma CanonUniquelyDecodable(v: Json, rest: string, w: Json, rest': string)
    requires Canonicalizable(v) && Canonicalizable(w) && Delimited(rest) && Delimited(rest')
    requires Canon(v) + rest == Canon(w) + rest'
    ensures Meaning(v) == Meaning(w) && rest == rest'
  {
    ReadInvertsCanon(v, rest);
    ReadInvertsCanon(w, rest');
  }

  /** Object keys come out strictly increasing in UTF-16 code-unit order, each exactly once. */
  lemma KeysInCodeUnitOrder(v: Json)
    requires Canonicalizable(v) && v.Dict?
    ensures var sorted := SortByKey(v.members);
            && multiset(sorted) == multiset(v.members)
            && Canon(v) == "{" + CanonMembers(v, sorted) + "}"
            && forall i, j :: 0 <= i < j < |sorted| ==> LexLess(Utf16(sorted[i].key), Utf16(sorted[j].key))
  {
    var sorted := SortByKey(v.members);
    SortMultiset(v.members);
    SortSorts(v.members);
    forall i, j | 0 <= i < j < |sorted| ensures LexLess(Utf16(sorted[i].key), Utf16(sorted[j].key)) {
      KeyOrderIsUnitOrder(sorted[i].key, sorted[j].key);
    }
  }
}

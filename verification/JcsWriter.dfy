/** The canonicaliser as it runs: pieces appended to an output list (src/insurance/crypto/jcs.py:121-172). */
module JcsWriter {
  import opened Wrappers
  import opened Decimals
  import opened JcsNumbers
  import opened JcsStrings
  import opened Jcs

  function Joined(pieces: seq<string>): string {
    if pieces == [] then "" else Joined(pieces[..|pieces| - 1]) + pieces[|pieces| - 1]
  }

  /** The text of an integer is the text of the number it is. */
  lemma IntegerText(n: int)
    requires -MAX_SAFE <= n <= MAX_SAFE
    ensures IntText(n) == NumberText(Normal(Decimal(n, 0)))
  {
    var k := NormalExponent(n, 0);
    NormalShape(Decimal(n, 0));
  }

  /** float.is_integer() */
  predicate IsInteger(d: Decimal) { Normal(d).exponent >= 0 }

  /** int(value) of an integral float. */
  function IntegerOf(d: Decimal): int
    requires IsInteger(d)
  {
    Normal(d).mantissa * Pow10(Normal(d).exponent)
  }

  /** Both float branches give the text of the number. */
  lemma DoubleText(neg: bool, rep: string)
    requires ReprShaped(rep)
    ensures var d := DoubleValue(neg, rep);
            NumberText(Normal(d)) == if IsInteger(d) && Abs(IntegerOf(d)) <= MAX_SAFE then IntText(IntegerOf(d))
                                     else NumberToString(neg, rep)
  {
    var d := DoubleValue(neg, rep);
    NormalShape(d);
    ReprIsUnsigned(rep);
    if d.mantissa != 0 { NumberToStringOfValue(neg, rep); }
  }

  lemma ReprIsUnsigned(rep: string)
    requires ReprShaped(rep)
    ensures Denote(rep).value.mantissa >= 0
  {
    ReprParts(rep);
  }

  lemma {:induction false} ItemsSnoc(v: Json, items: seq<Json>, x: Json)
    requires Canonicalizable(v) && v.List? && x in v.items && forall y :: y in items ==> y in v.items
    ensures CanonItems(v, items + [x]) == CanonItems(v, items) + (if items == [] then "" else ",") + Canon(x)
    decreases |items|
  {
    var all := items + [x];
    if items == [] {
      assert all == [x];
    } else {
      assert all[1..] == items[1..] + [x];
      ItemsSnoc(v, items[1..], x);
    }
  }

  lemma {:induction false} MembersSnoc(v: Json, ms: seq<Member>, m: Member)
    requires Canonicalizable(v) && v.Dict? && m in v.members && forall n :: n in ms ==> n in v.members
    ensures CanonMembers(v, ms + [m])
            == CanonMembers(v, ms) + (if ms == [] then "" else ",") + MemberText(v, m)
    decreases |ms|
  {
    var all := ms + [m];
    if ms == [] {
      assert all == [m];
    } else {
      assert all[1..] == ms[1..] + [m];
      MembersSnoc(v, ms[1..], m);
    }
  }

  /** Appending one more item after what is written so far. */
  lemma AppendItem(v: Json, items: seq<Json>, i: nat, start: string, written: string)
    requires Canonicalizable(v) && v == List(items) && i < |items|
    requires written == start + CanonItems(v, items[..i])
    ensures (if i != 0 then written + "," else written) + Canon(items[i]) == start + CanonItems(v, items[..i + 1])
  {
    assert items[..i + 1] == items[..i] + [items[i]];
    ItemsSnoc(v, items[..i], items[i]);
    Regroup(start, CanonItems(v, items[..i]), if i == 0 then "" else ",", Canon(items[i]));
  }

  lemma Regroup(a: string, b: string, c: string, d: string)
    ensures a + b + c + d == a + (b + c + d) == (a + b) + (c + d)
    ensures a + b + "" == a + b
  {
  }

  /** Appending one more member after what is written so far. */
  lemma AppendMember(v: Json, ms: seq<Member>, i: nat, start: string, written: string)
    requires Canonicalizable(v) && v.Dict? && i < |ms| && forall m :: m in ms ==> m in v.members
    requires written == start + CanonMembers(v, ms[..i])
    ensures (if i != 0 then written + "," else written) + (Quoted(ms[i].key) + ":" + Canon(ms[i].value))
            == start + CanonMembers(v, ms[..i + 1])
  {
    assert ms[..i + 1] == ms[..i] + [ms[i]];
    MembersSnoc(v, ms[..i], ms[i]);
    Regroup(start, CanonMembers(v, ms[..i]), if i == 0 then "" else ",", MemberText(v, ms[i]));
  }

  class Writer {
    var out: seq<string>

    function Written(): string
      reads this
    {
      Joined(out)
    }

    constructor ()
      ensures Written() == ""
    {
      out := [];
    }

    method Append(piece: string)
      modifies this
      ensures Written() == old(Written()) + piece
    {
      out := out + [piece];
    }

    /** _encode: appends the canonical text, or refuses exactly the values that have none. */
    method Encode(value: Json) returns (ok: bool)
      requires Proper(value)
      modifies this
      ensures ok <==> Representable(value)
      ensures ok ==> Written() == old(Written()) + Canon(value)
      decreases value
    {
      ok := true;
      match value {
        case Null => Append("null");
        case Bool(b) => Append(if b then "true" else "false");
        case Text(s) =>
          var text := EscapeString(s);
          Append(text);
        case Int(n) =>
          if Abs(n) > MAX_SAFE { return false; }
          IntegerText(n);
          Append(IntText(n));
        case Double(neg, rep) =>
          var d := DoubleValue(neg, rep);
          DoubleText(neg, rep);
          if IsInteger(d) && Abs(IntegerOf(d)) <= MAX_SAFE {
            Append(IntText(IntegerOf(d)));
          } else {
            Append(NumberToString(neg, rep));
          }
        case NonFinite => return false;
        case List(items) => ok := EncodeList(value, items);
        case Dict(members) => ok := EncodeDict(value, members);
      }
    }

    method EncodeList(ghost value: Json, items: seq<Json>) returns (ok: bool)
      requires value == List(items) && Proper(value)
      modifies this
      ensures ok <==> Representable(value)
      ensures ok ==> Written() == old(Written()) + Canon(value)
      decreases value, 1
    {
      Append("[");
      ok := EncodeItems(value, items);
      if !ok { return; }
      Append("]");
      Regroup(old(Written()), "[", CanonItems(value, items), "]");
    }

    method EncodeItems(ghost value: Json, items: seq<Json>) returns (ok: bool)
      requires value == List(items) && Proper(value)
      modifies this
      ensures ok <==> Representable(value)
      ensures ok ==> Written() == old(Written()) + CanonItems(value, items)
      decreases value, 0
    {
      ghost var start := Written();
      for i := 0 to |items|
        invariant forall x :: x in items[..i] ==> Representable(x)
        invariant Representable(value) ==> Written() == start + CanonItems(value, items[..i])
      {
        ghost var written := Written();
        if i != 0 { Append(","); }
        assert items[i] in items;
        var done := Encode(items[i]);
        if !done { return false; }
        assert items[..i + 1] == items[..i] + [items[i]];
        if Representable(value) { AppendItem(value, items, i, start, written); }
      }
      assert items[..|items|] == items;
      return true;
    }

    method EncodeMember(m: Member) returns (ok: bool)
      requires Proper(m.value)
      modifies this
      ensures ok <==> Representable(m.value)
      ensures ok ==> Written() == old(Written()) + (Quoted(m.key) + ":" + Canon(m.value))
      decreases m
    {
      ghost var written := Written();
      var key := EscapeString(m.key);
      Append(key);
      Append(":");
      ok := Encode(m.value);
      if ok { Regroup(written, Quoted(m.key), ":", Canon(m.value)); }
    }

    method EncodeDict(ghost value: Json, members: seq<Member>) returns (ok: bool)
      requires value == Dict(members) && Proper(value)
      modifies this
      ensures ok <==> Representable(value)
      ensures ok ==> Written() == old(Written()) + Canon(value)
      decreases value, 1
    {
      var items := SortByKey(members);
      Append("{");
      ok := EncodeSorted(value, items);
      if !ok { return; }
      Append("}");
      Regroup(old(Written()), "{", CanonMembers(value, items), "}");
    }

    method EncodeSorted(ghost value: Json, items: seq<Member>) returns (ok: bool)
      requires value.Dict? && Proper(value) && forall m :: m in items <==> m in value.members
      modifies this
      ensures ok <==> Representable(value)
      ensures ok ==> Written() == old(Written()) + CanonMembers(value, items)
      decreases value, 0
    {
      ghost var start := Written();
      for i := 0 to |items|
        invariant forall m :: m in items[..i] ==> Representable(m.value)
        invariant Representable(value) ==> Written() == start + CanonMembers(value, items[..i])
      {
        ghost var written := Written();
        if i != 0 { Append(","); }
        assert items[i] in items;
        var done := EncodeMember(items[i]);
        if !done { return false; }
        assert items[..i + 1] == items[..i] + [items[i]];
        if Representable(value) { AppendMember(value, items, i, start, written); }
      }
      assert items[..|items|] == items;
      return true;
    }
  }

  method Canonicalize(value: Json) returns (r: Result<string>)
    requires Proper(value)
    ensures r.Ok? <==> Representable(value)
    ensures r.Ok? ==> r.value == Canon(value)
  {
    var writer := new Writer();
    var ok := writer.Encode(value);
    if !ok { return Err(NotCanonicalizable); }
    return Ok(Joined(writer.out));
  }
}

/**
 * The RFC 8785 canonicaliser (src/insurance/crypto/jcs.py): Python JSON values, the JSON values
 * they mean, and the canonical text.
 */
module Jcs {
  import opened Decimals
  import opened JcsNumbers
  import opened JcsStrings

  /** A Python value: dict members are kept in insertion order; a float is its sign and repr text. */
  datatype Json =
    | Null
    | Bool(b: bool)
    | Text(s: string)
    | Int(n: int)
    | Double(neg: bool, rep: string)
    | NonFinite
    | List(items: seq<Json>)
    | Dict(members: seq<Member>)

  datatype Member = Member(key: string, value: Json)

  /** A JSON value: numbers are numbers whatever their Python type, objects have no member order. */
  datatype Value =
    | VNull
    | VBool(b: bool)
    | VText(s: string)
    | VNumber(d: Decimal)
    | VList(items: seq<Value>)
    | VObject(members: map<string, Value>)

  const MAX_SAFE := 9007199254740991

  // ------------------------------------------------------------------------------ values

  predicate DistinctKeys(ms: seq<Member>) {
    forall i, j :: 0 <= i < j < |ms| ==> ms[i].key != ms[j].key
  }

  /** What a Python process can hold: dicts have distinct keys, floats have the shape of a repr. */
  predicate Proper(v: Json)
    decreases v
  {
    match v
    case Double(_, rep) => ReprShaped(rep)
    case List(items) => forall x :: x in items ==> Proper(x)
    case Dict(ms) => DistinctKeys(ms) && forall m :: m in ms ==> Proper(m.value)
    case _ => true
  }

  /** What the canonicaliser accepts: integers in the IEEE-754 safe range, no NaN or Infinity. */
  predicate Representable(v: Json)
    decreases v
  {
    match v
    case Int(n) => -MAX_SAFE <= n <= MAX_SAFE
    case NonFinite => false
    case List(items) => forall x :: x in items ==> Representable(x)
    case Dict(ms) => forall m :: m in ms ==> Representable(m.value)
    case _ => true
  }

  predicate Canonicalizable(v: Json) { Proper(v) && Representable(v) }

  /** The number a number value is. */
  function NumberOf(v: Json): Decimal
    requires Proper(v) && (v.Int? || v.Double?)
  {
    if v.Int? then Normal(Decimal(v.n, 0)) else Normal(DoubleValue(v.neg, v.rep))
  }

  /** The JSON value a Python value means. */
  function Meaning(v: Json): Value
    requires Canonicalizable(v)
    decreases v, 2
  {
    match v
    case Null => VNull
    case Bool(b) => VBool(b)
    case Text(s) => VText(s)
    case Int(_) => VNumber(NumberOf(v))
    case Double(_, _) => VNumber(NumberOf(v))
    case List(items) => VList(seq(|items|, i requires 0 <= i < |items| => Meaning(items[i])))
    case Dict(ms) => VObject(MembersMeaning(v, ms))
  }

  /** The key-to-value map that members of a dict mean. */
  function MembersMeaning(v: Json, ms: seq<Member>): map<string, Value>
    requires Canonicalizable(v) && v.Dict? && forall m :: m in ms ==> m in v.members
    decreases v, 1, |ms|
  {
    if ms == [] then map[]
    else
      assert ms[0] in v.members;
      MembersMeaning(v, ms[1..])[ms[0].key := Meaning(ms[0].value)]
  }

  /** Every member is in the map under its key, and nothing else is. */
  lemma {:induction false} MembersMeaningLookup(v: Json, ms: seq<Member>)
    requires Canonicalizable(v) && v.Dict? && DistinctKeys(ms) && forall m :: m in ms ==> m in v.members
    ensures forall m :: m in ms ==> m.key in MembersMeaning(v, ms) && MembersMeaning(v, ms)[m.key] == Meaning(m.value)
    ensures forall k :: k in MembersMeaning(v, ms) ==> exists m :: m in ms && m.key == k
    decreases |ms|
  {
    if ms != [] {
      MembersMeaningLookup(v, ms[1..]);
      forall m | m in ms ensures m.key in MembersMeaning(v, ms) && MembersMeaning(v, ms)[m.key] == Meaning(m.value) {
        if m != ms[0] {
          var i :| 0 <= i < |ms| && ms[i] == m;
          assert ms[1..][i - 1] == m;
        }
      }
    }
  }

  // ---------------------------------------------------------------------------- key sorting

  predicate KeysSorted(ms: seq<Member>) {
    forall i, j :: 0 <= i < j < |ms| ==> KeyLess(ms[i].key, ms[j].key)
  }

  function Insert(m: Member, ms: seq<Member>): (r: seq<Member>)
    ensures |r| == |ms| + 1 && forall x :: x in r <==> x == m || x in ms
  {
    if ms == [] || KeyLess(m.key, ms[0].key) then [m] + ms else [ms[0]] + Insert(m, ms[1..])
  }

  /** sorted(value.items(), key=utf16) */
  function SortByKey(ms: seq<Member>): (r: seq<Member>)
    ensures |r| == |ms| && forall x :: x in r <==> x in ms
  {
    if ms == [] then [] else Insert(ms[0], SortByKey(ms[1..]))
  }

  lemma {:induction false} InsertMultiset(m: Member, ms: seq<Member>)
    ensures multiset(Insert(m, ms)) == multiset{m} + multiset(ms)
    decreases |ms|
  {
    if ms != [] && !KeyLess(m.key, ms[0].key) {
      InsertMultiset(m, ms[1..]);
      assert ms == [ms[0]] + ms[1..];
    }
  }

  lemma HeadMultiset(ms: seq<Member>)
    requires ms != []
    ensures multiset(ms) == multiset{ms[0]} + multiset(ms[1..])
  {
    assert ms == [ms[0]] + ms[1..];
  }

  lemma {:induction false} SortMultiset(ms: seq<Member>)
    ensures multiset(SortByKey(ms)) == multiset(ms)
    decreases |ms|
  {
    if ms != [] {
      SortMultiset(ms[1..]);
      InsertMultiset(ms[0], SortByKey(ms[1..]));
      HeadMultiset(ms);
    }
  }

  lemma {:induction false} InsertSorted(m: Member, ms: seq<Member>)
    requires KeysSorted(ms) && forall i :: 0 <= i < |ms| ==> ms[i].key != m.key
    ensures KeysSorted(Insert(m, ms))
    decreases |ms|
  {
    if ms == [] {
    } else if KeyLess(m.key, ms[0].key) {
      forall j | 0 <= j < |ms| ensures KeyLess(m.key, ms[j].key) {
        if j > 0 { KeyTransitive(m.key, ms[0].key, ms[j].key); }
      }
    } else {
      var rest := Insert(m, ms[1..]);
      InsertSorted(m, ms[1..]);
      KeyTotal(m.key, ms[0].key);
      forall j | 0 <= j < |rest| ensures KeyLess(ms[0].key, rest[j].key) {
        assert rest[j] in rest;
      }
    }
  }

  /** Distinct keys come out strictly increasing. */
  lemma {:induction false} SortSorts(ms: seq<Member>)
    requires DistinctKeys(ms)
    ensures KeysSorted(SortByKey(ms))
    decreases |ms|
  {
    if ms != [] {
      SortSorts(ms[1..]);
      var rest := SortByKey(ms[1..]);
      forall i | 0 <= i < |rest| ensures rest[i].key != ms[0].key {
        assert rest[i] in ms[1..];
      }
      InsertSorted(ms[0], rest);
    }
  }

  // --------------------------------------------------------------------- the canonical text

  /** The text of a number, which depends on the number alone. */
  function NumberText(d: Decimal): string {
    if d.exponent >= 0 && Abs(d.mantissa * Pow10(d.exponent)) <= MAX_SAFE
    then IntText(d.mantissa * Pow10(d.exponent))
    else if d.mantissa == 0 then "0"
    else Layout(d.mantissa < 0, NatText(Abs(d.mantissa)), d.exponent)
  }

  /** The canonical text. */
  function Canon(v: Json): string
    requires Canonicalizable(v)
    decreases v, 2
  {
    match v
    case Null => "null"
    case Bool(b) => if b then "true" else "false"
    case Text(s) => Quoted(s)
    case Int(_) => NumberText(NumberOf(v))
    case Double(_, _) => NumberText(NumberOf(v))
    case List(items) => "[" + CanonItems(v, items) + "]"
    case Dict(ms) => "{" + CanonMembers(v, SortByKey(ms)) + "}"
  }

  /** The items of a list, comma-separated. */
  function CanonItems(v: Json, items: seq<Json>): string
    requires Canonicalizable(v) && v.List? && forall x :: x in items ==> x in v.items
    decreases v, 1, |items|
  {
    if items == [] then ""
    else
      assert items[0] in v.items;
      Canon(items[0]) + (if |items| == 1 then "" else "," + CanonItems(v, items[1..]))
  }

  function MemberText(v: Json, m: Member): string
    requires Canonicalizable(v) && v.Dict? && m in v.members
    decreases v, 0
  {
    Quoted(m.key) + ":" + Canon(m.value)
  }

  /** The members of an object, in the given order, comma-separated. */
  function CanonMembers(v: Json, ms: seq<Member>): string
    requires Canonicalizable(v) && v.Dict? && forall m :: m in ms ==> m in v.members
    decreases v, 1, |ms|
  {
    if ms == [] then ""
    else MemberText(v, ms[0]) + (if |ms| == 1 then "" else "," + CanonMembers(v, ms[1..]))
  }
}

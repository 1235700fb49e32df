/** Sums over sequences of rows, and the facts about them the other modules use. */
module Sequences {

  function Sum<T>(s: seq<T>, f: T -> int): int {
    if s == [] then 0 else Sum(s[..|s| - 1], f) + f(s[|s| - 1])
  }

  lemma SumSnoc<T>(s: seq<T>, x: T, f: T -> int)
    ensures Sum(s + [x], f) == Sum(s, f) + f(x)
  {
    assert (s + [x])[..|s|] == s;
  }

  lemma {:induction false} SumConcat<T>(s: seq<T>, t: seq<T>, f: T -> int)
    ensures Sum(s + t, f) == Sum(s, f) + Sum(t, f)
    decreases |t|
  {
    if t == [] {
      assert s + t == s;
    } else {
      assert (s + t)[..|s + t| - 1] == s + t[..|t| - 1];
      SumConcat(s, t[..|t| - 1], f);
    }
  }

  /** Replacing one row changes the sum by the difference of the two rows. */
  lemma {:induction false} SumUpdate<T>(s: seq<T>, i: nat, x: T, f: T -> int)
    requires i < |s|
    ensures Sum(s[i := x], f) == Sum(s, f) - f(s[i]) + f(x)
    decreases |s|
  {
    var init := s[..|s| - 1];
    if i == |s| - 1 {
      assert s[i := x][..|s| - 1] == init;
    } else {
      assert s[i := x][..|s| - 1] == init[i := x];
      SumUpdate(init, i, x, f);
    }
  }

  lemma {:induction false} SumNonNegative<T>(s: seq<T>, f: T -> int)
    requires forall i :: 0 <= i < |s| ==> f(s[i]) >= 0
    ensures Sum(s, f) >= 0
    decreases |s|
  {
    if s != [] { SumNonNegative(s[..|s| - 1], f); }
  }

  lemma {:induction false} SumMonotone<T>(s: seq<T>, f: T -> int, g: T -> int)
    requires forall i :: 0 <= i < |s| ==> f(s[i]) <= g(s[i])
    ensures Sum(s, f) <= Sum(s, g)
    decreases |s|
  {
    if s != [] { SumMonotone(s[..|s| - 1], f, g); }
  }

  lemma {:induction false} SumAgree<T>(s: seq<T>, f: T -> int, g: T -> int)
    requires forall i :: 0 <= i < |s| ==> f(s[i]) == g(s[i])
    ensures Sum(s, f) == Sum(s, g)
    decreases |s|
  {
    if s != [] { SumAgree(s[..|s| - 1], f, g); }
  }

  /** Pointwise comparison of two tables of the same length. */
  lemma {:induction false} SumCompare<T>(s: seq<T>, t: seq<T>, f: T -> int)
    requires |s| == |t|
    requires forall i :: 0 <= i < |s| ==> f(s[i]) <= f(t[i])
    ensures Sum(s, f) <= Sum(t, f)
    decreases |s|
  {
    if s != [] { SumCompare(s[..|s| - 1], t[..|t| - 1], f); }
  }

  lemma SumSame<T>(a: seq<T>, b: seq<T>, f: T -> int)
    requires |a| == |b| && forall i :: 0 <= i < |a| ==> f(a[i]) == f(b[i])
    ensures Sum(a, f) == Sum(b, f)
  {
    SumCompare(a, b, f);
    SumCompare(b, a, f);
  }

  /** Extra rows that count for nothing do not change the sum. */
  lemma {:induction false} SumPadded<T>(a: seq<T>, b: seq<T>, f: T -> int)
    requires |a| <= |b| && forall i :: 0 <= i < |a| ==> f(a[i]) == f(b[i])
    requires forall i :: |a| <= i < |b| ==> f(b[i]) == 0
    ensures Sum(a, f) == Sum(b, f)
    decreases |b|
  {
    if |a| == |b| { SumSame(a, b, f); }
    else { SumPadded(a, b[..|b| - 1], f); }
  }

  function Without<T>(s: seq<T>, i: nat): seq<T>
    requires i < |s|
  {
    s[..i] + s[i + 1..]
  }

  lemma SplitAt<T>(s: seq<T>, i: nat)
    requires i < |s|
    ensures s == (s[..i] + [s[i]]) + s[i + 1..]
  {
  }

  lemma SumWithout<T>(s: seq<T>, i: nat, f: T -> int)
    requires i < |s|
    ensures Sum(s, f) == Sum(Without(s, i), f) + f(s[i])
  {
    SplitAt(s, i);
    SumConcat(s[..i] + [s[i]], s[i + 1..], f);
    SumSnoc(s[..i], s[i], f);
    SumConcat(s[..i], s[i + 1..], f);
  }

  lemma MultisetWithout<T>(s: seq<T>, i: nat)
    requires i < |s|
    ensures multiset(Without(s, i)) == multiset(s) - multiset{s[i]}
  {
    SplitAt(s, i);
    var before, x, after := s[..i], s[i], s[i + 1..];
    assert multiset(s) == multiset((before + [x]) + after) == multiset(before) + multiset{x} + multiset(after);
  }

  /** A sum does not depend on the order of the rows. */
  lemma {:induction false} SumPermutation<T>(s: seq<T>, t: seq<T>, f: T -> int)
    requires multiset(s) == multiset(t)
    ensures Sum(s, f) == Sum(t, f)
    decreases |s|
  {
    assert |s| == |multiset(s)| == |multiset(t)| == |t|;
    if s != [] {
      var x := s[|s| - 1];
      assert x in multiset(t);
      var i :| 0 <= i < |t| && t[i] == x;
      SumWithout(s, |s| - 1, f);
      SumWithout(t, i, f);
      MultisetWithout(s, |s| - 1);
      MultisetWithout(t, i);
      SumPermutation(Without(s, |s| - 1), Without(t, i), f);
    }
  }

  // ----------------------------------------------------------------- what the rows hold together

  function Gather<T, U>(s: seq<T>, f: T -> multiset<U>): multiset<U> {
    if s == [] then multiset{} else Gather(s[..|s| - 1], f) + f(s[|s| - 1])
  }

  /** A new row that holds nothing. */
  lemma GatherSnocNothing<T, U>(s: seq<T>, x: T, f: T -> multiset<U>)
    requires f(x) == multiset{}
    ensures Gather(s + [x], f) == Gather(s, f)
  {
    assert (s + [x])[..|s|] == s;
  }

  lemma GatherSnoc<T, U>(s: seq<T>, x: T, f: T -> multiset<U>, u: U)
    requires f(x) == multiset{u}
    ensures Gather(s + [x], f) == Gather(s, f) + multiset{u}
  {
    assert (s + [x])[..|s|] == s;
  }

  /** A row replaced by one that holds the same. */
  lemma {:induction false} GatherReplaceSame<T, U>(s: seq<T>, i: nat, x: T, f: T -> multiset<U>)
    requires i < |s| && f(s[i]) == f(x)
    ensures Gather(s[i := x], f) == Gather(s, f)
    decreases |s|
  {
    var init := s[..|s| - 1];
    if i == |s| - 1 {
      assert s[i := x][..|s| - 1] == init;
    } else {
      assert s[i := x][..|s| - 1] == init[i := x];
      GatherReplaceSame(init, i, x, f);
    }
  }

  /** A row that held nothing replaced by one that holds one thing. */
  lemma {:induction false} GatherReplaceNew<T, U>(s: seq<T>, i: nat, x: T, f: T -> multiset<U>, u: U)
    requires i < |s| && f(s[i]) == multiset{} && f(x) == multiset{u}
    ensures Gather(s[i := x], f) == Gather(s, f) + multiset{u}
    decreases |s|
  {
    var init := s[..|s| - 1];
    if i == |s| - 1 {
      assert s[i := x][..|s| - 1] == init;
    } else {
      assert s[i := x][..|s| - 1] == init[i := x];
      GatherReplaceNew(init, i, x, f, u);
    }
  }

  lemma {:induction false} GatherAgree<T, U>(s: seq<T>, t: seq<T>, f: T -> multiset<U>, g: T -> multiset<U>)
    requires |s| == |t| && forall i :: 0 <= i < |s| ==> f(s[i]) == g(t[i])
    ensures Gather(s, f) == Gather(t, g)
    decreases |s|
  {
    if s != [] { GatherAgree(s[..|s| - 1], t[..|t| - 1], f, g); }
  }

  lemma {:induction false} GatherMember<T, U>(s: seq<T>, f: T -> multiset<U>, u: U) returns (i: nat)
    requires u in Gather(s, f)
    ensures i < |s| && u in f(s[i])
    decreases |s|
  {
    var init := s[..|s| - 1];
    if u in f(s[|s| - 1]) { i := |s| - 1; }
    else { i := GatherMember(init, f, u); }
  }
}

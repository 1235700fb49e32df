/** Positional notation in any base: the two directions and their uniqueness. */
module Positional {

  predicate Digits(ds: seq<int>, base: nat) { forall i :: 0 <= i < |ds| ==> 0 <= ds[i] < base }

  /** The number a digit sequence names, most significant digit first. */
  function FromDigits(ds: seq<int>, base: nat): (n: nat)
    requires base >= 2 && Digits(ds, base)
  {
    if ds == [] then 0 else FromDigits(ds[..|ds| - 1], base) * base + ds[|ds| - 1]
  }

  /** The digits of a number with no leading zero; no digits at all for 0. */
  function ToDigits(n: nat, base: nat): (ds: seq<int>)
    requires base >= 2
    ensures Digits(ds, base)
    ensures ds != [] ==> ds[0] != 0
    decreases n
  {
    if n == 0 then []
    else
      DivisionShrinks(n, base);
      ToDigits(n / base, base) + [n % base]
  }

  lemma DivisionShrinks(n: nat, base: nat)
    requires n > 0 && base >= 2
    ensures n / base < n && 0 <= n / base && 0 <= n % base < base
    ensures n / base * base + n % base == n
    ensures n / base == 0 ==> n % base == n
  {
    assert n == base * (n / base) + n % base;
    Multiples(base, n / base);
  }

  /** A nonzero multiple of a base lies at least the base away from 0. */
  lemma Multiples(base: int, d: int)
    requires base >= 2
    ensures d >= 1 ==> base * d >= base && base * d >= 2 * d
    ensures d <= -1 ==> base * d <= -base
  {
    if d >= 1 { assert base * d == base + base * (d - 1); }
    if d <= -1 { assert base * d == -base + base * (d + 1); }
  }

  lemma QuotientAndRemainder(q: nat, base: nat, r: nat)
    requires base >= 2 && r < base
    ensures (q * base + r) / base == q && (q * base + r) % base == r
  {
    var n := q * base + r;
    var d := n / base - q;
    assert n == base * (n / base) + n % base;
    assert base * d == r - n % base;
    Multiples(base, d);
  }

  lemma {:induction false} FromToDigits(n: nat, base: nat)
    requires base >= 2
    ensures FromDigits(ToDigits(n, base), base) == n
    decreases n
  {
    if n != 0 {
      DivisionShrinks(n, base);
      FromToDigits(n / base, base);
      assert ToDigits(n, base)[..|ToDigits(n, base)| - 1] == ToDigits(n / base, base);
    }
  }

  lemma {:induction false} ToFromDigits(ds: seq<int>, base: nat)
    requires base >= 2 && Digits(ds, base) && (ds != [] ==> ds[0] != 0)
    ensures ToDigits(FromDigits(ds, base), base) == ds
    decreases |ds|
  {
    if ds != [] {
      var init, last := ds[..|ds| - 1], ds[|ds| - 1];
      ToFromDigits(init, base);
      QuotientAndRemainder(FromDigits(init, base), base, last);
      if init != [] { assert FromDigits(init, base) != 0; }
      PositiveStep(FromDigits(init, base), base, last);
      assert ds == init + [last];
    }
  }

  lemma PositiveStep(q: nat, base: nat, r: nat)
    requires base >= 2 && (q != 0 || r != 0)
    ensures q * base + r > 0
  {
    if q != 0 { assert q * base >= base; }
  }

  function LeadingZeros(ds: seq<int>): (k: nat)
    ensures k <= |ds|
    ensures forall i :: 0 <= i < k ==> ds[i] == 0
    ensures k < |ds| ==> ds[k] != 0
  {
    if ds == [] || ds[0] != 0 then 0
    else
      var k := LeadingZeros(ds[1..]);
      assert forall i :: 1 <= i < k + 1 ==> ds[i] == ds[1..][i - 1];
      k + 1
  }

  function ZeroDigits(k: nat): (z: seq<int>)
    ensures |z| == k && forall i :: 0 <= i < k ==> z[i] == 0
  {
    seq(k, i => 0)
  }

  lemma {:induction false} LeadingZerosOf(k: nat, ds: seq<int>)
    requires ds != [] ==> ds[0] != 0
    ensures LeadingZeros(ZeroDigits(k) + ds) == k
  {
    var all := ZeroDigits(k) + ds;
    assert forall i :: 0 <= i < k ==> all[i] == 0;
    assert ds != [] ==> all[k] == ds[0];
  }

  /** Leading zeros do not change the number. */
  lemma {:induction false} FromPadded(k: nat, ds: seq<int>, base: nat)
    requires base >= 2 && Digits(ds, base)
    ensures Digits(ZeroDigits(k) + ds, base)
    ensures FromDigits(ZeroDigits(k) + ds, base) == FromDigits(ds, base)
    decreases k + |ds|
  {
    var all := ZeroDigits(k) + ds;
    if ds != [] {
      assert all[..|all| - 1] == ZeroDigits(k) + ds[..|ds| - 1];
      FromPadded(k, ds[..|ds| - 1], base);
    } else if k != 0 {
      assert all[..|all| - 1] == ZeroDigits(k - 1) + ds;
      FromPadded(k - 1, ds, base);
    }
  }

  lemma SplitLeadingZeros(ds: seq<int>)
    ensures var k := LeadingZeros(ds);
            ds == ZeroDigits(k) + ds[k..] && (ds[k..] != [] ==> ds[k..][0] != 0)
  {
  }

  /** Stripping the zeros and re-reading: the digits after the leading zeros are the number's own. */
  lemma DigitsOfStripped(ds: seq<int>, base: nat)
    requires base >= 2 && Digits(ds, base)
    ensures ToDigits(FromDigits(ds, base), base) == ds[LeadingZeros(ds)..]
  {
    var k := LeadingZeros(ds);
    SplitLeadingZeros(ds);
    FromPadded(k, ds[k..], base);
    ToFromDigits(ds[k..], base);
  }
}

/** The lapse sweep (src/insurance/services/lifecycle.py: lapse_sweep): what one sweep does, and that sweeping ends. */
module Sweep {
  import opened Wrappers
  import opened Records
  import opened Bitstrings
  import opened StatusLists
  import opened Lifecycle
  import Machine
  import StatusIndex
  import Invariants

  // ------------------------------------------------------------------- counting lapsable policies

  function One(policy: Policy, now: int): nat { if Lapsable(policy, now) then 1 else 0 }

  lemma {:induction false} CountUpdate(policies: seq<Policy>, p: nat, policy: Policy, now: int)
    requires p < |policies|
    ensures EligibleCount(policies[p := policy], now)
            == EligibleCount(policies, now) - One(policies[p], now) + One(policy, now)
    decreases |policies|
  {
    var init := policies[..|policies| - 1];
    if p == |policies| - 1 {
      assert policies[p := policy][..|policies| - 1] == init;
    } else {
      assert policies[p := policy][..|policies| - 1] == init[p := policy];
      CountUpdate(init, p, policy, now);
    }
  }

  // ---------------------------------------------------------------------------- the selection

  predicate SortedByExpiry(policies: seq<Policy>, picked: seq<nat>)
    requires InRange(picked, |policies|)
  {
    forall i, j :: 0 <= i < j < |picked| ==> policies[picked[i]].expiryAt <= policies[picked[j]].expiryAt
  }

  predicate Distinct(picked: seq<nat>) { forall i, j :: 0 <= i < j < |picked| ==> picked[i] != picked[j] }

  function Insert(policies: seq<Policy>, x: nat, sorted: seq<nat>): (r: seq<nat>)
    requires x < |policies| && InRange(sorted, |policies|)
    ensures multiset(r) == multiset(sorted) + multiset{x} && InRange(r, |policies|)
  {
    if sorted == [] then [x]
    else if policies[x].expiryAt <= policies[sorted[0]].expiryAt then [x] + sorted
    else
      assert sorted == [sorted[0]] + sorted[1..];
      [sorted[0]] + Insert(policies, x, sorted[1..])
  }

  lemma {:induction false} InsertSorts(policies: seq<Policy>, x: nat, sorted: seq<nat>)
    requires x < |policies| && InRange(sorted, |policies|) && SortedByExpiry(policies, sorted)
    ensures SortedByExpiry(policies, Insert(policies, x, sorted))
    decreases |sorted|
  {
    if sorted != [] && policies[x].expiryAt > policies[sorted[0]].expiryAt {
      var tail := Insert(policies, x, sorted[1..]);
      InsertSorts(policies, x, sorted[1..]);
      forall j | 0 <= j < |tail| ensures policies[sorted[0]].expiryAt <= policies[tail[j]].expiryAt {
        assert tail[j] in multiset(tail);
        assert tail[j] == x || tail[j] in sorted[1..];
      }
    }
  }

  /** The lapsable policies, earliest expiry first. */
  function Eligible(policies: seq<Policy>, now: int): (r: seq<nat>)
    ensures InRange(r, |policies|)
  {
    if policies == [] then []
    else
      var k := |policies| - 1;
      var rest := Eligible(policies[..k], now);
      if Lapsable(policies[k], now) then Insert(policies, k, rest) else rest
  }

  lemma {:induction false} EligibleIsAll(policies: seq<Policy>, now: int)
    ensures var r := Eligible(policies, now);
            && |r| == EligibleCount(policies, now) && Distinct(r) && SortedByExpiry(policies, r)
            && forall p: nat :: p in r <==> p < |policies| && Lapsable(policies[p], now)
    decreases |policies|
  {
    if policies != [] {
      var k := |policies| - 1;
      var rest := Eligible(policies[..k], now);
      EligibleIsAll(policies[..k], now);
      assert SortedByExpiry(policies, rest);
      assert k !in rest;
      if Lapsable(policies[k], now) {
        InsertSorts(policies, k, rest);
        InsertedOnce(policies, k, rest);
      }
    }
  }

  lemma InsertedOnce(policies: seq<Policy>, x: nat, sorted: seq<nat>)
    requires x < |policies| && InRange(sorted, |policies|) && Distinct(sorted) && x !in sorted
    ensures var r := Insert(policies, x, sorted);
            |r| == |sorted| + 1 && Distinct(r) && forall y: nat :: y in r <==> y == x || y in sorted
  {
    var r := Insert(policies, x, sorted);
    assert |multiset(r)| == |r|;
    forall y: nat ensures y in r <==> y == x || y in sorted { assert y in r <==> y in multiset(r); }
    forall y | y in multiset(r) ensures multiset(r)[y] == 1 { OnceEach(sorted, y); }
    DistinctFromMultiset(r);
  }

  lemma {:induction false} OnceEach(s: seq<nat>, y: nat)
    requires Distinct(s)
    ensures multiset(s)[y] <= 1
    decreases |s|
  {
    if s != [] {
      assert s == s[..|s| - 1] + [s[|s| - 1]];
      OnceEach(s[..|s| - 1], y);
    }
  }

  lemma DistinctFromMultiset(s: seq<nat>)
    requires forall y :: y in multiset(s) ==> multiset(s)[y] == 1
    ensures Distinct(s)
  {
    forall i, j | 0 <= i < j < |s| ensures s[i] != s[j] {
      assert s == s[..j] + s[j..];
      assert s[..j][i] == s[i] && s[j..][0] == s[j];
      assert multiset(s) == multiset(s[..j]) + multiset(s[j..]);
      assert s[i] in multiset(s[..j]) && s[j] in multiset(s[j..]);
      assert s[j] in multiset(s);
    }
  }

  function Smaller(a: nat, b: nat): nat { if a < b then a else b }

  /** Whatever the first n leave out expires no earlier than any of them. */
  lemma LaterOnesExpireLater(policies: seq<Policy>, all: seq<nat>, n: nat, i: nat, p: nat)
    requires InRange(all, |policies|) && SortedByExpiry(policies, all) && i < n <= |all| && p in all && p !in all[..n]
    ensures policies[all[i]].expiryAt <= policies[p].expiryAt
  {
    assert all == all[..n] + all[n..];
    var j :| 0 <= j < |all[n..]| && all[n..][j] == p;
    assert all[n + j] == p;
  }

  /** The query always has an answer. */
  lemma SelectionExists(policies: seq<Policy>, now: int, batch: nat)
    ensures IsSweepSelection(policies, now, batch, Eligible(policies, now)[..Smaller(batch, |Eligible(policies, now)|)])
  {
    var all := Eligible(policies, now);
    EligibleIsAll(policies, now);
    var n := Smaller(batch, |all|);
    var picked := all[..n];
    forall i, p: nat | 0 <= i < |picked| && p < |policies| && Lapsable(policies[p], now) && p !in picked
      ensures policies[picked[i]].expiryAt <= policies[p].expiryAt
    {
      LaterOnesExpireLater(policies, all, n, i, p);
    }
    forall i | 0 <= i < |picked| ensures Lapsable(policies[picked[i]], now) { assert picked[i] in all; }
  }

  // ------------------------------------------------------------------------------ one sweep

  /** The picked policies lapsed, every other row exactly as it was. */
  predicate LapsedExactly(a: seq<Policy>, b: seq<Policy>, picked: seq<nat>) {
    |a| == |b| && forall p :: 0 <= p < |a| ==> b[p] == if p in picked then a[p].(status := Lapsed) else a[p]
  }

  /** The picked bits set, every other bit exactly as it was. */
  predicate SetExactly(a: seq<bv8>, b: seq<bv8>, picked: seq<nat>) {
    |a| == |b| && forall i :: 0 <= i < 8 * |a| ==> GetBit(b, i) == (i in picked || GetBit(a, i))
  }

  predicate Sweepable(policies: seq<Policy>, picked: seq<nat>) {
    InRange(picked, |policies|) && Distinct(picked) && forall i :: 0 <= i < |picked| ==>
      policies[picked[i]].status == Active
  }

  ghost predicate Swept(a: Database, b: Database, picked: seq<nat>) {
    && LapsedExactly(a.policies, b.policies, picked)
    && SetExactly(CurrentList(a.snapshots, Revocation), CurrentList(b.snapshots, Revocation), picked)
    && CurrentList(b.snapshots, Suspension) == CurrentList(a.snapshots, Suspension)
    && |b.snapshots| == |a.snapshots| + |picked|
    && b == a.(policies := b.policies, snapshots := b.snapshots)
  }

  predicate ListsSized(snapshots: seq<Snapshot>) {
    |CurrentList(snapshots, Revocation)| == DEFAULT_SIZE_BITS / 8
      && |CurrentList(snapshots, Suspension)| == DEFAULT_SIZE_BITS / 8
  }

  lemma OneLapses(db: Database, p: nat)
    requires StatusIndex.Placed(db.policies) && ListsSized(db.snapshots) && p < |db.policies|
             && db.policies[p].status == Active
    ensures CancelOrLapse(db, p, Lapsed).Ok?
    ensures Swept(db, CancelOrLapse(db, p, Lapsed).value, [p])
    ensures StatusIndex.Placed(CancelOrLapse(db, p, Lapsed).value.policies)
            && ListsSized(CancelOrLapse(db, p, Lapsed).value.snapshots)
  {
    var bytes := CurrentList(db.snapshots, Revocation);
    var s := Snapshot(Revocation, SetBit(bytes, p, true));
    StatusIndex.CurrentAfter(db.snapshots, s, Revocation);
    StatusIndex.CurrentAfter(db.snapshots, s, Suspension);
    SetBitSetsOneBit(bytes, p, true);
    forall i | 0 <= i < 8 * |bytes| ensures GetBit(s.bytes, i) == (i in [p] || GetBit(bytes, i)) {
      assert Bits(s.bytes)[i] == Bits(bytes)[p := true][i];
    }
  }

  lemma SweptThenOne(a: Database, b: Database, c: Database, init: seq<nat>, p: nat)
    requires Swept(a, b, init) && Swept(b, c, [p])
    ensures Swept(a, c, init + [p])
  {
    var picked := init + [p];
    forall q | 0 <= q < |a.policies| ensures c.policies[q] == if q in picked then a.policies[q].(status := Lapsed)
      else a.policies[q] {
      assert q in picked <==> q in init || q in [p];
    }
    var before, after := CurrentList(a.snapshots, Revocation), CurrentList(c.snapshots, Revocation);
    forall i | 0 <= i < 8 * |before| ensures GetBit(after, i) == (i in picked || GetBit(before, i)) {
      assert i in picked <==> i in init || i in [p];
    }
  }

  /** Sweeping any active selection succeeds, lapses exactly it, and sets exactly its revocation bits. */
  lemma {:induction false} SweepLapsesExactly(db: Database, picked: seq<nat>)
    requires StatusIndex.Placed(db.policies) && ListsSized(db.snapshots) && Sweepable(db.policies, picked)
    ensures LapseSweep(db, picked).Ok? && Swept(db, LapseSweep(db, picked).value, picked)
    ensures StatusIndex.Placed(LapseSweep(db, picked).value.policies)
            && ListsSized(LapseSweep(db, picked).value.snapshots)
    decreases |picked|
  {
    if picked != [] {
      var init, p := picked[..|picked| - 1], picked[|picked| - 1];
      SweepLapsesExactly(db, init);
      var before := LapseSweep(db, init).value;
      assert p !in init;
      OneLapses(before, p);
      SweptThenOne(db, before, CancelOrLapse(before, p, Lapsed).value, init, p);
      assert init + [p] == picked;
    }
  }

  lemma ReachableIsSweepable(db: Database)
    requires Invariants.Inv(db)
    ensures StatusIndex.Placed(db.policies) && ListsSized(db.snapshots)
  {
    Invariants.PoliciesPlaced(db);
  }

  /** The policies still ACTIVE whose cover window has ended. */
  function Expired(policies: seq<Policy>, now: int): set<nat> {
    set p: nat | p < |policies| && policies[p].status == Active && policies[p].expiryAt <= now
  }

  lemma {:induction false} CountIsExpired(policies: seq<Policy>, now: int)
    ensures EligibleCount(policies, now) == |Expired(policies, now)|
    decreases |policies|
  {
    if policies != [] {
      var k := |policies| - 1;
      CountIsExpired(policies[..k], now);
      if k in Expired(policies, now) { assert Expired(policies, now) == Expired(policies[..k], now) + {k}; }
      else { assert Expired(policies, now) == Expired(policies[..k], now); }
    } else { assert Expired(policies, now) == {}; }
  }

  /** The rows a sweep changed. */
  function Changed(a: seq<Policy>, b: seq<Policy>): set<nat>
    requires |a| == |b|
  {
    set p: nat | p < |a| && a[p] != b[p]
  }

  /** What a sweep does to the policies: it lapses expired ones, at most a batch of them, earliest expiry first. */
  predicate SweepsPolicies(a: seq<Policy>, b: seq<Policy>, now: int, batch: nat) {
    && |a| == |b|
    && (forall p :: 0 <= p < |a| && a[p] != b[p] ==>
          a[p].status == Active && a[p].expiryAt <= now && b[p] == a[p].(status := Lapsed))
    && |Changed(a, b)| == Smaller(batch, |Expired(a, now)|)
    && (|Changed(a, b)| < batch ==> forall p :: 0 <= p < |b| ==> !(b[p].status == Active && b[p].expiryAt <= now))
    && (forall p, q :: 0 <= p < |a| && 0 <= q < |a| && a[p] != b[p] && b[q].status == Active && b[q].expiryAt <= now ==>
          a[p].expiryAt <= a[q].expiryAt)
  }

  function Elements(picked: seq<nat>): set<nat> { set p | p in picked }

  lemma {:induction false} DistinctCount(picked: seq<nat>)
    requires Distinct(picked)
    ensures |Elements(picked)| == |picked|
    decreases |picked|
  {
    if picked != [] {
      var init, last := picked[..|picked| - 1], picked[|picked| - 1];
      DistinctCount(init);
      assert picked == init + [last];
      assert Elements(picked) == Elements(init) + {last};
      forall i | 0 <= i < |init| ensures init[i] != last { assert picked[i] != picked[|picked| - 1]; }
      assert last !in Elements(init);
    }
  }

  lemma ChangedIsPicked(a: seq<Policy>, b: seq<Policy>, picked: seq<nat>)
    requires LapsedExactly(a, b, picked) && Sweepable(a, picked)
    ensures Changed(a, b) == Elements(picked) && |Changed(a, b)| == |picked|
  {
    DistinctCount(picked);
    forall p ensures p in Changed(a, b) <==> p in Elements(picked) {
      if p in picked { assert a[p].status == Active; }
    }
  }

  lemma AllExpiredPicked(policies: seq<Policy>, now: int, picked: seq<nat>)
    requires InRange(picked, |policies|) && Distinct(picked) && |picked| == |Expired(policies, now)|
    requires forall i :: 0 <= i < |picked| ==> picked[i] in Expired(policies, now)
    ensures forall p :: p in Expired(policies, now) ==> p in picked
  {
    DistinctCount(picked);
    SameSizeSubset(Elements(picked), Expired(policies, now));
  }

  lemma SameSizeSubset(a: set<nat>, b: set<nat>)
    requires a <= b && |a| == |b|
    ensures a == b
  {
    assert b == a + (b - a);
    assert |b| == |a| + |b - a|;
  }

  lemma SelectionSweeps(a: seq<Policy>, b: seq<Policy>, now: int, batch: nat, picked: seq<nat>)
    requires IsSweepSelection(a, now, batch, picked) && LapsedExactly(a, b, picked)
    ensures SweepsPolicies(a, b, now, batch)
  {
    CountIsExpired(a, now);
    assert Sweepable(a, picked);
    ChangedIsPicked(a, b, picked);
    if |picked| < batch { AllExpiredPicked(a, now, picked); }
    forall p | 0 <= p < |a| && a[p] != b[p] ensures p in picked {}
    forall p, q | 0 <= p < |a| && 0 <= q < |a| && a[p] != b[p] && b[q].status == Active && b[q].expiryAt <= now
      ensures a[p].expiryAt <= a[q].expiryAt
    {
      var i :| 0 <= i < |picked| && picked[i] == p;
      assert q !in picked && Lapsable(a[q], now);
    }
  }

  /**
   * In every reachable database a sweep succeeds: it lapses exactly min(batch, k) of the k ACTIVE policies whose cover
   * has ended, none of them expiring later than one left behind, and touches nothing else.
   */
  lemma SweepOutcome(ops: seq<Machine.Op>, now: int, batch: nat, picked: seq<nat>)
    requires IsSweepSelection(Machine.Run(ops).policies, now, batch, picked)
    ensures var db := Machine.Run(ops);
            && LapseSweep(db, picked).Ok? && Swept(db, LapseSweep(db, picked).value, picked)
            && SweepsPolicies(db.policies, LapseSweep(db, picked).value.policies, now, batch)
  {
    var db := Machine.Run(ops);
    Invariants.RunHolds(ops);
    ReachableIsSweepable(db);
    SweepLapsesExactly(db, picked);
    SelectionSweeps(db.policies, LapseSweep(db, picked).value.policies, now, batch, picked);
  }

  // -------------------------------------------------------------------------- repeated sweeps

  lemma {:induction false} SweepCounts(db: Database, now: int, picked: seq<nat>)
    requires StatusIndex.Placed(db.policies) && ListsSized(db.snapshots) && Sweepable(db.policies, picked)
    requires forall i :: 0 <= i < |picked| ==> Lapsable(db.policies[picked[i]], now)
    ensures LapseSweep(db, picked).Ok?
    ensures EligibleCount(LapseSweep(db, picked).value.policies, now) == EligibleCount(db.policies, now) - |picked|
    decreases |picked|
  {
    SweepLapsesExactly(db, picked);
    if picked != [] {
      var init, p := picked[..|picked| - 1], picked[|picked| - 1];
      SweepCounts(db, now, init);
      SweepLapsesExactly(db, init);
      var before := LapseSweep(db, init).value;
      assert p !in init;
      CountUpdate(before.policies, p, before.policies[p].(status := Lapsed), now);
    }
  }

  /** One sweep, whatever its selection. */
  ghost predicate OneSweep(db: Database, now: int, batch: nat, after: Database) {
    exists picked: seq<nat> :: IsSweepSelection(db.policies, now, batch, picked) && LapseSweep(db, picked) == Ok(after)
  }

  /** Consecutive sweeps at one time. */
  ghost predicate Sweeps(dbs: seq<Database>, now: int, batch: nat) {
    |dbs| > 0 && forall i :: 0 < i < |dbs| ==> OneSweep(dbs[i - 1], now, batch, dbs[i])
  }

  function Less(k: int, n: int): int { if k < n then 0 else k - n }

  predicate Ready(db: Database) { StatusIndex.Placed(db.policies) && ListsSized(db.snapshots) }

  lemma PickedSweepLeaves(db: Database, now: int, picked: seq<nat>, after: Database)
    requires Ready(db) && Sweepable(db.policies, picked) && LapseSweep(db, picked) == Ok(after)
    requires forall i :: 0 <= i < |picked| ==> Lapsable(db.policies[picked[i]], now)
    ensures Ready(after) && EligibleCount(after.policies, now) == EligibleCount(db.policies, now) - |picked|
  {
    SweepLapsesExactly(db, picked);
    SweepCounts(db, now, picked);
  }

  lemma OneSweepLeaves(db: Database, now: int, batch: nat, after: Database)
    requires Ready(db) && OneSweep(db, now, batch, after)
    ensures Ready(after) && EligibleCount(after.policies, now) == Less(EligibleCount(db.policies, now), batch)
  {
    var picked: seq<nat> :| IsSweepSelection(db.policies, now, batch, picked) && LapseSweep(db, picked) == Ok(after);
    PickedSweepLeaves(db, now, picked, after);
  }

  lemma LessTwice(k: nat, n: nat, batch: nat)
    ensures Less(Less(k, n * batch), batch) == Less(k, (n + 1) * batch)
  {
    assert (n + 1) * batch == n * batch + batch;
  }

  lemma {:induction false} SweepsCount(dbs: seq<Database>, now: int, batch: nat)
    requires Sweeps(dbs, now, batch) && Ready(dbs[0])
    ensures var last := dbs[|dbs| - 1];
            Ready(last) && EligibleCount(last.policies, now)
              == Less(EligibleCount(dbs[0].policies, now), (|dbs| - 1) * batch)
    decreases |dbs|
  {
    if |dbs| > 1 {
      SweepsCount(dbs[..|dbs| - 1], now, batch);
      OneSweepLeaves(dbs[|dbs| - 2], now, batch, dbs[|dbs| - 1]);
      LessTwice(EligibleCount(dbs[0].policies, now), |dbs| - 2, batch);
    }
  }

  lemma ReachableIsReady(ops: seq<Machine.Op>)
    ensures Ready(Machine.Run(ops))
  {
    Invariants.RunHolds(ops);
    ReachableIsSweepable(Machine.Run(ops));
  }

  /** From any reachable database, n sweeps leave max(k - n * batch, 0) of the k ACTIVE policies past their cover. */
  lemma SweepsLeave(ops: seq<Machine.Op>, dbs: seq<Database>, now: int, batch: nat)
    requires Sweeps(dbs, now, batch) && dbs[0] == Machine.Run(ops)
    ensures |Expired(dbs[|dbs| - 1].policies, now)| == Less(|Expired(dbs[0].policies, now)|, (|dbs| - 1) * batch)
  {
    ReachableIsReady(ops);
    SweepsCount(dbs, now, batch);
    CountIsExpired(dbs[0].policies, now);
    CountIsExpired(dbs[|dbs| - 1].policies, now);
  }

  lemma AtLeast(n: nat, batch: nat)
    requires batch > 0
    ensures n * batch >= n
  {
  }

  /** Sweeping a positive batch as often as there are such policies leaves none. */
  lemma SweepsDrain(ops: seq<Machine.Op>, dbs: seq<Database>, now: int, batch: nat)
    requires Sweeps(dbs, now, batch) && dbs[0] == Machine.Run(ops) && batch > 0
    requires |dbs| > |Expired(dbs[0].policies, now)|
    ensures var last := dbs[|dbs| - 1].policies;
            forall p :: 0 <= p < |last| ==> !(last[p].status == Active && last[p].expiryAt <= now)
  {
    SweepsLeave(ops, dbs, now, batch);
    AtLeast(|dbs| - 1, batch);
    var last := dbs[|dbs| - 1].policies;
    forall p | 0 <= p < |last| ensures !(last[p].status == Active && last[p].expiryAt <= now) {
      assert p !in Expired(last, now);
    }
  }
}

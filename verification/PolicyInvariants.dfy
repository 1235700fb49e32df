/** Policies in every reachable database: their quotes, serial numbers and status-list indexes. */
module PolicyInvariants {
  import opened Wrappers
  import opened Records
  import Lifecycle
  import Serials
  import StatusLists
  import opened Bitstrings
  import opened Machine
  import opened Effects
  import opened Frames
  import Quotes = QuoteInvariants

  predicate InSeries(policy: Policy, family: Family, year: int) { policy.family == family && policy.year == year }

  /** How many policies a (family, year) series has. */
  function CountOf(policies: seq<Policy>, family: Family, year: int): nat {
    if policies == [] then 0
    else CountOf(policies[..|policies| - 1], family, year)
         + (if InSeries(policies[|policies| - 1], family, year) then 1 else 0)
  }

  /** A policy carries the number of its serial and the terms of its issued quote. */
  predicate PolicyFits(quotes: seq<Quote>, policy: Policy, index: nat) {
    && policy.quote < |quotes| && quotes[policy.quote].status == Issued
    && Lifecycle.FamilyOf(quotes[policy.quote].kind) == policy.family
    && policy.insuredValue == Lifecycle.SumValues(quotes[policy.quote].lineValues) && policy.insuredValue > 0
    && policy.inceptionAt < policy.expiryAt
    && policy.statusIndex == index
    && Lifecycle.PolicyNumber(policy.family, policy.year, policy.sequence) == Ok(policy.number)
  }

  predicate PoliciesFit(quotes: seq<Quote>, policies: seq<Policy>) {
    forall i :: 0 <= i < |policies| ==> PolicyFits(quotes, policies[i], i)
  }

  predicate OnePolicyEach(policies: seq<Policy>) {
    forall i, j :: 0 <= i < j < |policies| ==> policies[i].quote != policies[j].quote
  }

  predicate HasPolicy(policies: seq<Policy>, q: nat) {
    exists i :: 0 <= i < |policies| && policies[i].quote == q
  }

  predicate EveryIssueRecorded(quotes: seq<Quote>, policies: seq<Policy>) {
    forall q :: 0 <= q < |quotes| && quotes[q].status == Issued ==> HasPolicy(policies, q)
  }

  /** Within its series a policy's sequence is the number of earlier policies. */
  predicate SerialFits(policies: seq<Policy>, i: nat)
    requires i < |policies|
  {
    policies[i].sequence == CountOf(policies[..i], policies[i].family, policies[i].year)
  }

  predicate SerialsFit(policies: seq<Policy>) { forall i :: 0 <= i < |policies| ==> SerialFits(policies, i) }

  ghost predicate CountersFit(policies: seq<Policy>, counters: map<(Family, int), nat>) {
    forall family: Family, year: int :: Lifecycle.Counter(counters, family, year) == CountOf(policies, family, year)
  }

  /** Premiums are not negative, and every policy's events can be signed. */
  predicate PremiumsFit(policies: seq<Policy>) {
    forall i :: 0 <= i < |policies| ==> policies[i].premium >= 0 && Publishable(policies[i])
  }

  ghost predicate Holds(db: Database) {
    && PoliciesFit(db.quotes, db.policies) && OnePolicyEach(db.policies) && EveryIssueRecorded(db.quotes, db.policies)
    && SerialsFit(db.policies) && CountersFit(db.policies, db.counters)
    && PremiumsFit(db.policies) && |db.policies| <= DEFAULT_SIZE_BITS
  }

  // ------------------------------------------------------------------- when no policy is issued

  /** The fields of a policy that nothing changes. */
  predicate SameIdentity(a: Policy, b: Policy) {
    a.(status := Active, premium := 0, premiumPaidAt := None)
      == b.(status := Active, premium := 0, premiumPaidAt := None)
  }

  predicate IdentitiesKept(a: seq<Policy>, b: seq<Policy>) {
    |a| == |b| && forall i :: 0 <= i < |a| ==> SameIdentity(a[i], b[i])
  }

  lemma {:induction false} CountKept(a: seq<Policy>, b: seq<Policy>, family: Family, year: int)
    requires IdentitiesKept(a, b)
    ensures CountOf(a, family, year) == CountOf(b, family, year)
    decreases |a|
  {
    if a != [] {
      assert SameIdentity(a[|a| - 1], b[|b| - 1]);
      CountKept(a[..|a| - 1], b[..|b| - 1], family, year);
    }
  }

  lemma SerialsKept(a: seq<Policy>, b: seq<Policy>)
    requires IdentitiesKept(a, b) && SerialsFit(a)
    ensures SerialsFit(b)
  {
    forall i | 0 <= i < |b| ensures SerialFits(b, i) {
      assert SerialFits(a, i) && SameIdentity(a[i], b[i]);
      CountKept(a[..i], b[..i], b[i].family, b[i].year);
    }
  }

  lemma CountersKept(a: seq<Policy>, b: seq<Policy>, counters: map<(Family, int), nat>)
    requires IdentitiesKept(a, b) && CountersFit(a, counters)
    ensures CountersFit(b, counters)
  {
    forall family: Family, year: int ensures Lifecycle.Counter(counters, family, year) == CountOf(b, family, year) {
      CountKept(a, b, family, year);
    }
  }

  /** No quote becomes issued, and issued ones stay. */
  predicate IssuesKept(a: seq<Quote>, b: seq<Quote>) {
    && |a| <= |b|
    && (forall q :: 0 <= q < |b| && b[q].status == Issued ==> q < |a| && a[q].status == Issued)
    && (forall q :: 0 <= q < |a| && a[q].status == Issued ==> a[q] == b[q])
  }

  lemma FitsKept(quotesA: seq<Quote>, quotesB: seq<Quote>, a: seq<Policy>, b: seq<Policy>)
    requires IdentitiesKept(a, b) && IssuesKept(quotesA, quotesB) && PoliciesFit(quotesA, a)
    ensures PoliciesFit(quotesB, b)
  {
    forall i | 0 <= i < |b| ensures PolicyFits(quotesB, b[i], i) {
      assert SameIdentity(a[i], b[i]) && PolicyFits(quotesA, a[i], i);
    }
  }

  lemma IssuedStaysRecorded(quotesA: seq<Quote>, quotesB: seq<Quote>, a: seq<Policy>, b: seq<Policy>)
    requires IdentitiesKept(a, b) && IssuesKept(quotesA, quotesB)
    requires OnePolicyEach(a) && EveryIssueRecorded(quotesA, a)
    ensures OnePolicyEach(b) && EveryIssueRecorded(quotesB, b)
  {
    forall i, j | 0 <= i < j < |b| ensures b[i].quote != b[j].quote {
      assert SameIdentity(a[i], b[i]) && SameIdentity(a[j], b[j]);
    }
    forall q | 0 <= q < |quotesB| && quotesB[q].status == Issued ensures HasPolicy(b, q) {
      assert HasPolicy(a, q);
      var i :| 0 <= i < |a| && a[i].quote == q;
      assert SameIdentity(a[i], b[i]);
    }
  }

  lemma OtherOpFrame(db: Database, op: Op)
    requires !op.IssuePolicy?
    ensures IdentitiesKept(db.policies, Step(db, op).policies) && IssuesKept(db.quotes, Step(db, op).quotes)
    ensures Step(db, op).counters == db.counters
  {
    TablesUntouched(db, op);
    if op.ApproveEndorsement? && Apply(db, op).Ok? { ApproveEndorsementEffect(db, op.p, op.no, op.principal); }
    if op.RecordPremiumReceipt? && Apply(db, op).Ok? {
      PremiumReceiptEffect(db, op.external, op.number, op.amount, op.currency, op.now);
    }
    OtherOpQuotes(db, op);
    forall i | 0 <= i < |db.policies| ensures SameIdentity(db.policies[i], Step(db, op).policies[i]) {
    }
  }

  lemma OtherOpQuotes(db: Database, op: Op)
    requires !op.IssuePolicy?
    ensures IssuesKept(db.quotes, Step(db, op).quotes) && Step(db, op).counters == db.counters
  {
    TablesUntouched(db, op);
    if op.DecideBind? && Apply(db, op).Ok? { DecideBindEffect(db, op.q, op.decision, op.principal); }
    if QuoteOp(op) { QuoteFrame(db, op); }
  }

  lemma PremiumsKept(db: Database, op: Op)
    requires PremiumsFit(db.policies) && !op.IssuePolicy?
    ensures PremiumsFit(Step(db, op).policies)
  {
    TablesUntouched(db, op);
    if op.ApproveEndorsement? && Apply(db, op).Ok? { ApproveEndorsementEffect(db, op.p, op.no, op.principal); }
    if op.RecordPremiumReceipt? && Apply(db, op).Ok? {
      PremiumReceiptEffect(db, op.external, op.number, op.amount, op.currency, op.now);
    }
    forall i | 0 <= i < |db.policies|
      ensures Step(db, op).policies[i].premium >= 0 && Publishable(Step(db, op).policies[i])
    {
      assert TermsKept(db.policies, Step(db, op).policies) ==> SameTerms(db.policies[i], Step(db, op).policies[i]);
    }
  }

  lemma OtherOpKeeps(db: Database, op: Op)
    requires Holds(db) && !op.IssuePolicy?
    ensures Holds(Step(db, op))
  {
    var after := Step(db, op);
    OtherOpFrame(db, op);
    FitsKept(db.quotes, after.quotes, db.policies, after.policies);
    IssuedStaysRecorded(db.quotes, after.quotes, db.policies, after.policies);
    SerialsKept(db.policies, after.policies);
    CountersKept(db.policies, after.policies, db.counters);
    PremiumsKept(db, op);
  }

  // ------------------------------------------------------------------------- when one is issued

  lemma {:induction false} MaxIndexIsLast(policies: seq<Policy>)
    requires forall i :: 0 <= i < |policies| ==> policies[i].statusIndex == i
    ensures StatusLists.MaxIndex(policies) == |policies| - 1
    decreases |policies|
  {
    if policies != [] { MaxIndexIsLast(policies[..|policies| - 1]); }
  }

  lemma IndexIsCount(quotes: seq<Quote>, policies: seq<Policy>)
    requires PoliciesFit(quotes, policies)
    ensures StatusLists.AllocatedIndex(policies).Ok? ==> StatusLists.AllocatedIndex(policies).value == |policies|
    ensures StatusLists.AllocatedIndex(policies).Ok? <==> |policies| < DEFAULT_SIZE_BITS
  {
    forall i | 0 <= i < |policies| ensures policies[i].statusIndex == i { assert PolicyFits(quotes, policies[i], i); }
    MaxIndexIsLast(policies);
  }

  lemma SerialAdded(policies: seq<Policy>, counters: map<(Family, int), nat>, policy: Policy)
    requires SerialsFit(policies) && CountersFit(policies, counters)
    requires policy.sequence == Lifecycle.Counter(counters, policy.family, policy.year)
    ensures SerialsFit(policies + [policy])
    ensures CountersFit(policies + [policy], counters[(policy.family, policy.year) := policy.sequence + 1])
  {
    var after := policies + [policy];
    forall i | 0 <= i < |after| ensures SerialFits(after, i) {
      assert i < |policies| ==> SerialFits(policies, i) && after[..i] == policies[..i];
      assert i == |policies| ==> after[..i] == policies;
    }
    assert after[..|after| - 1] == policies;
    var now := counters[(policy.family, policy.year) := policy.sequence + 1];
    forall family: Family, year: int ensures Lifecycle.Counter(now, family, year) == CountOf(after, family, year) {
      assert Lifecycle.Counter(counters, family, year) == CountOf(policies, family, year);
    }
  }

  lemma FitUnmoved(quotes: seq<Quote>, q: nat, policy: Policy, index: nat)
    requires q < |quotes| && quotes[q].status == Bound && PolicyFits(quotes, policy, index)
    ensures policy.quote != q && PolicyFits(quotes[q := quotes[q].(status := Issued)], policy, index)
  {
  }

  lemma FitAdded(quotes: seq<Quote>, policies: seq<Policy>, q: nat, policy: Policy)
    requires PoliciesFit(quotes, policies)
    requires q < |quotes| && quotes[q].status == Bound
    requires PolicyFits(quotes[q := quotes[q].(status := Issued)], policy, |policies|)
    ensures PoliciesFit(quotes[q := quotes[q].(status := Issued)], policies + [policy])
    ensures forall i :: 0 <= i < |policies| ==> policies[i].quote != q
  {
    forall i | 0 <= i < |policies|
      ensures PolicyFits(quotes[q := quotes[q].(status := Issued)], policies[i], i) && policies[i].quote != q
    {
      FitUnmoved(quotes, q, policies[i], i);
    }
  }

  lemma IssueRecorded(quotes: seq<Quote>, policies: seq<Policy>, q: nat, policy: Policy)
    requires OnePolicyEach(policies) && EveryIssueRecorded(quotes, policies)
    requires q < |quotes| && policy.quote == q
    requires forall i :: 0 <= i < |policies| ==> policies[i].quote != q
    ensures OnePolicyEach(policies + [policy])
    ensures EveryIssueRecorded(quotes[q := quotes[q].(status := Issued)], policies + [policy])
  {
    var after, now := quotes[q := quotes[q].(status := Issued)], policies + [policy];
    forall k | 0 <= k < |after| && after[k].status == Issued ensures HasPolicy(now, k) {
      if k == q { assert now[|policies|].quote == k; }
      else {
        assert HasPolicy(policies, k);
        var i :| 0 <= i < |policies| && policies[i].quote == k;
        assert now[i].quote == k;
      }
    }
  }

  /** What issuing a policy on quote q does. */
  predicate Issues(db: Database, q: nat, policy: Policy, after: Database) {
    && q < |db.quotes| && db.quotes[q].status == Bound
    && Lifecycle.PolicyNumber(policy.family, policy.year, policy.sequence) == Ok(policy.number)
    && policy.quote == q && Lifecycle.FamilyOf(db.quotes[q].kind) == policy.family
    && policy.sequence == Lifecycle.Counter(db.counters, policy.family, policy.year)
    && StatusLists.AllocatedIndex(db.policies) == Ok(policy.statusIndex)
    && policy.insuredValue == Lifecycle.SumValues(db.quotes[q].lineValues) && policy.insuredValue > 0
    && policy.inceptionAt < policy.expiryAt && policy.premium == db.quotes[q].premium && Publishable(policy)
    && policy.status == Active && policy.premiumPaidAt == None
    && after == db.(counters := db.counters[(policy.family, policy.year) := policy.sequence + 1],
                    policies := db.policies + [policy],
                    quotes := db.quotes[q := db.quotes[q].(status := Issued)])
  }

  lemma IssuePolicyEffect(db: Database, op: Op)
    requires op.IssuePolicy? && Apply(db, op).Ok?
    ensures |Step(db, op).policies| == |db.policies| + 1
    ensures Issues(db, op.q, Step(db, op).policies[|db.policies|], Step(db, op))
  {
  }

  lemma IssueFits(db: Database, q: nat, policy: Policy, after: Database)
    requires PoliciesFit(db.quotes, db.policies) && Issues(db, q, policy, after)
    ensures PolicyFits(after.quotes, policy, |db.policies|) && |db.policies| < DEFAULT_SIZE_BITS
  {
    IndexIsCount(db.quotes, db.policies);
  }

  lemma IssueKeepsSerials(db: Database, q: nat, policy: Policy, after: Database)
    requires SerialsFit(db.policies) && CountersFit(db.policies, db.counters) && Issues(db, q, policy, after)
    ensures SerialsFit(after.policies) && CountersFit(after.policies, after.counters)
  {
    SerialAdded(db.policies, db.counters, policy);
  }

  lemma IssueKeepsLinks(db: Database, q: nat, policy: Policy, after: Database)
    requires PoliciesFit(db.quotes, db.policies) && OnePolicyEach(db.policies)
             && EveryIssueRecorded(db.quotes, db.policies)
    requires Issues(db, q, policy, after)
    ensures PoliciesFit(after.quotes, after.policies) && OnePolicyEach(after.policies)
    ensures EveryIssueRecorded(after.quotes, after.policies) && |after.policies| <= DEFAULT_SIZE_BITS
  {
    IssueFits(db, q, policy, after);
    FitAdded(db.quotes, db.policies, q, policy);
    IssueRecorded(db.quotes, db.policies, q, policy);
  }

  lemma IssueKeepsPremiums(db: Database, q: nat, policy: Policy, after: Database)
    requires PremiumsFit(db.policies) && Quotes.QuotesOk(db.quotes) && Issues(db, q, policy, after)
    ensures PremiumsFit(after.policies)
  {
    assert Quotes.QuoteOk(db.quotes[q]);
  }

  lemma IssueKeeps(db: Database, q: nat, policy: Policy, after: Database)
    requires Holds(db) && Quotes.Holds(db) && Issues(db, q, policy, after)
    ensures Holds(after)
  {
    IssueKeepsSerials(db, q, policy, after);
    IssueKeepsLinks(db, q, policy, after);
    IssueKeepsPremiums(db, q, policy, after);
  }

  lemma StepKeeps(db: Database, op: Op)
    requires Holds(db) && Quotes.Holds(db)
    ensures Holds(Step(db, op))
  {
    if !op.IssuePolicy? { OtherOpKeeps(db, op); }
    else if Apply(db, op).Ok? {
      IssuePolicyEffect(db, op);
      IssueKeeps(db, op.q, Step(db, op).policies[|db.policies|], Step(db, op));
    }
  }

  // -------------------------------------------------------------------------- what follows

  lemma {:induction false} CountGrows(policies: seq<Policy>, i: nat, family: Family, year: int)
    requires i <= |policies|
    ensures CountOf(policies[..i], family, year) <= CountOf(policies, family, year)
    decreases |policies|
  {
    if i == |policies| { assert policies[..i] == policies; }
    else {
      assert policies[..|policies| - 1][..i] == policies[..i];
      CountGrows(policies[..|policies| - 1], i, family, year);
    }
  }

  lemma EarlierSerialIsSmaller(policies: seq<Policy>, i: nat, j: nat)
    requires SerialsFit(policies) && i < j < |policies| && InSeries(policies[i], policies[j].family, policies[j].year)
    ensures policies[i].sequence < policies[j].sequence
  {
    assert SerialFits(policies, i) && SerialFits(policies, j);
    assert policies[..i + 1][..i] == policies[..i] && policies[..j][..i + 1] == policies[..i + 1];
    CountGrows(policies[..j], i + 1, policies[j].family, policies[j].year);
  }

  lemma SerialBelowCount(policies: seq<Policy>, i: nat)
    requires SerialsFit(policies) && i < |policies|
    ensures policies[i].sequence < CountOf(policies, policies[i].family, policies[i].year)
  {
    assert SerialFits(policies, i);
    assert policies[..i + 1][..i] == policies[..i];
    CountGrows(policies, i + 1, policies[i].family, policies[i].year);
  }

  /** Every count below the total is some policy's sequence. */
  lemma {:induction false} EverySerialUsed(policies: seq<Policy>, family: Family, year: int, s: nat)
    requires SerialsFit(policies) && s < CountOf(policies, family, year)
    ensures exists i :: 0 <= i < |policies| && InSeries(policies[i], family, year) && policies[i].sequence == s
    decreases |policies|
  {
    var init, k := policies[..|policies| - 1], |policies| - 1;
    if InSeries(policies[k], family, year) && s == CountOf(init, family, year) {
      assert SerialFits(policies, k);
    } else {
      forall i | 0 <= i < |init| ensures SerialFits(init, i) {
        assert SerialFits(policies, i) && init[..i] == policies[..i];
      }
      EverySerialUsed(init, family, year, s);
      var i :| 0 <= i < |init| && InSeries(init[i], family, year) && init[i].sequence == s;
      assert policies[i] == init[i];
    }
  }

  lemma CodesDistinct(a: Family, b: Family)
    requires Serials.Upper(Lifecycle.FamilyCode(a)) == Serials.Upper(Lifecycle.FamilyCode(b))
    ensures a == b
  {
    UpperCode(a);
    UpperCode(b);
    assert "CRG"[0] == 'C' && "FRY"[0] == 'F' && "PRT"[0] == 'P' && "HUL"[0] == 'H';
  }

  lemma UpperCode(family: Family)
    ensures Serials.Upper(Lifecycle.FamilyCode(family)) == Lifecycle.FamilyCode(family)
  {
    var code := Lifecycle.FamilyCode(family);
    assert |code| == 3;
    assert forall i :: 0 <= i < 3 ==> 'A' <= code[i] <= 'Z';
  }

  /** The sequence of a series determines the number and the number the series and sequence. */
  lemma NumberDeterminesSerial(f1: Family, y1: int, s1: int, f2: Family, y2: int, s2: int)
    requires Lifecycle.PolicyNumber(f1, y1, s1).Ok?
             && Lifecycle.PolicyNumber(f1, y1, s1) == Lifecycle.PolicyNumber(f2, y2, s2)
    ensures f1 == f2 && y1 == y2 && s1 == s2
  {
    Serials.BuildInjective(Lifecycle.FamilyCode(f1), y1, s1, Lifecycle.FamilyCode(f2), y2, s2);
    CodesDistinct(f1, f2);
  }

  /** Distinct policies have distinct numbers, since a number determines its series and sequence. */
  lemma NumbersDistinct(db: Database, i: nat, j: nat)
    requires Holds(db) && i < j < |db.policies|
    ensures db.policies[i].number != db.policies[j].number
  {
    var a, b := db.policies[i], db.policies[j];
    assert PolicyFits(db.quotes, a, i) && PolicyFits(db.quotes, b, j);
    if a.number == b.number {
      NumberDeterminesSerial(a.family, a.year, a.sequence, b.family, b.year, b.sequence);
      EarlierSerialIsSmaller(db.policies, i, j);
    }
  }
}

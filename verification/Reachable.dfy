/** What a caller may rely on after any run of the service: the laws of every reachable database. */
module Reachable {
  import opened Sequences
  import opened Records
  import opened Bitstrings
  import opened StatusLists
  import Journals
  import Lifecycle
  import Claims
  import Serials
  import opened Machine
  import opened Invariants
  import History
  import Quotes = QuoteInvariants
  import Policies = PolicyInvariants
  import Endorsements = EndorsementInvariants
  import ClaimRows = ClaimInvariants
  import Receipts = ReceiptInvariants
  import Cover = CoverInvariants
  import opened Ledger
  import Owners = JournalOwners
  import StatusIndex
  import Totals = ClaimTotals
  import References

  // ---------------------------------------------------------------------------- the ledger

  /** The four balances are sums over quotes, policies, premium receipts and claims. */
  lemma BalancesAreEntitySums(ops: seq<Op>)
    ensures var db := Run(ops);
            var recognised := Sum(db.quotes, BoundPremium()) + Sum(db.policies, PolicyPremium());
            var received := Sum(db.premiumReceipts, AppliedAmount());
            var settled := Sum(db.claims, SettledAmount());
            && Journals.Balance(db.journals, PremiumIncome) == 0 - recognised
            && Journals.Balance(db.journals, PremiumReceivable) == recognised - received
            && Journals.Balance(db.journals, ClaimsPayable) == settled
            && Journals.Balance(db.journals, InsurerClearing) == received - settled
  {
    RunHolds(ops);
    BooksBalance(Run(ops));
  }

  lemma BooksBalance(db: Database)
    requires Ledger.Holds(db)
    ensures Journals.Balance(db.journals, PremiumIncome) == 0 - Recognised(db)
    ensures Journals.Balance(db.journals, PremiumReceivable) == Recognised(db) - Received(db)
    ensures Journals.Balance(db.journals, ClaimsPayable) == SettledTotal(db)
    ensures Journals.Balance(db.journals, InsurerClearing) == Received(db) - SettledTotal(db)
  {
  }

  lemma {:induction false} BalancedNet(legs: seq<Leg>)
    ensures Sum(legs, Journals.NetLeg(PremiumIncome)) + Sum(legs, Journals.NetLeg(PremiumReceivable))
            + Sum(legs, Journals.NetLeg(ClaimsPayable)) + Sum(legs, Journals.NetLeg(InsurerClearing))
            == Sum(legs, Journals.Debit()) - Sum(legs, Journals.Credit())
    decreases |legs|
  {
    if legs != [] { BalancedNet(legs[..|legs| - 1]); }
  }

  /** Double entry: the four balances add up to nothing whenever every journal balances. */
  lemma {:induction false} TrialBalance(journals: seq<Journal>)
    requires AllBalanced(journals)
    ensures Journals.Balance(journals, PremiumIncome) + Journals.Balance(journals, PremiumReceivable)
            + Journals.Balance(journals, ClaimsPayable) + Journals.Balance(journals, InsurerClearing) == 0
    decreases |journals|
  {
    if journals != [] {
      TrialBalance(journals[..|journals| - 1]);
      BalancedNet(journals[|journals| - 1].legs);
    }
  }

  /** A row has a journal exactly when its status says it moved money. */
  predicate JournalsFollowStatuses(db: Database) {
    && (forall q :: 0 <= q < |db.quotes| ==>
          (db.quotes[q].journal != "" <==> Quotes.IsBound(db.quotes[q]) && db.quotes[q].premium > 0))
    && (forall k :: 0 <= k < |db.endorsements| ==>
          (db.endorsements[k].journal != ""
           <==> db.endorsements[k].status == Approved && db.endorsements[k].delta != 0))
    && (forall i :: 0 <= i < |db.premiumReceipts| ==>
          (db.premiumReceipts[i].journal != ""
           <==> db.premiumReceipts[i].status == Applied && db.premiumReceipts[i].amount > 0))
    && (forall c :: 0 <= c < |db.claims| ==> (db.claims[c].journal != "" <==> ClaimRows.IsSettled(db.claims[c])))
  }

  /**
   * The journals are exactly those of the bound quotes with a premium, approved premium changes, applied receipts of
   * money and settled claims, one each, under references no two share.
   */
  lemma JournalsBelongToRows(ops: seq<Op>)
    ensures var db := Run(ops);
            && multiset(db.journals) == Owners.QuoteJournals(db) + Owners.EndorsementJournals(db)
                                        + Owners.ReceiptJournals(db) + Owners.ClaimJournals(db)
            && Owners.ReferencesDistinct(db.journals) && JournalsFollowStatuses(db)
  {
    RunHolds(ops);
    StatusesDecideJournals(Run(ops));
  }

  lemma StatusesDecideJournals(db: Database)
    requires Quotes.QuotesOk(db.quotes) && Endorsements.EndorsementsOk(db.policies, db.endorsements)
    requires Receipts.PremiumRowsOk(db.policies, db.premiumReceipts) && ClaimRows.ClaimsOk(db.policies, db.claims)
    ensures JournalsFollowStatuses(db)
  {
    forall q | 0 <= q < |db.quotes|
      ensures db.quotes[q].journal != "" <==> Quotes.IsBound(db.quotes[q]) && db.quotes[q].premium > 0
    {
      References.BindShape(db.quotes[q].ref);
    }
    forall k | 0 <= k < |db.endorsements|
      ensures db.endorsements[k].journal != ""
              <==> db.endorsements[k].status == Approved && db.endorsements[k].delta != 0
    {
      assert Endorsements.EndorsementOk(db.policies, db.endorsements[k]);
      References.EndorsementShape(db.policies[db.endorsements[k].policy].number, db.endorsements[k].no);
    }
    forall i | 0 <= i < |db.premiumReceipts|
      ensures db.premiumReceipts[i].journal != ""
              <==> db.premiumReceipts[i].status == Applied && db.premiumReceipts[i].amount > 0
    {
      ReceiptDecides(db.policies, db.premiumReceipts[i]);
    }
    forall c | 0 <= c < |db.claims| ensures db.claims[c].journal != "" <==> ClaimRows.IsSettled(db.claims[c]) {
      assert ClaimRows.ClaimOk(db.policies, db.claims[c]);
      References.SettlementShape(db.claims[c].ref);
    }
  }

  lemma ReceiptDecides(policies: seq<Policy>, r: Receipt)
    requires Receipts.PremiumRowOk(policies, r)
    ensures r.journal != "" <==> r.status == Applied && r.amount > 0
  {
    if r.status == Applied { References.ReceiptShape(policies[r.owner.value].number); }
  }

  // -------------------------------------------------------------------------- dual control

  predicate IsBindOf(decisions: seq<BindDecision>, i: nat, q: nat, who: string) {
    i < |decisions| && decisions[i] == BindDecision(q, Bind, who)
  }

  /** A bound or issued quote was bound once, by the recorded principal, who did not request it. */
  lemma BoundQuoteHistory(ops: seq<Op>, q: nat)
    requires q < |Run(ops).quotes| && Quotes.IsBound(Run(ops).quotes[q])
    ensures var db := Run(ops);
            && db.quotes[q].boundBy != db.quotes[q].bindRequestedBy
            && exists i: nat :: IsBindOf(db.decisions, i, q, db.quotes[q].boundBy)
                  && forall k :: 0 <= k < |db.decisions| && db.decisions[k].quote == q ==> k == i
  {
    RunHolds(ops);
    BoundHistory(Run(ops).quotes, Run(ops).decisions, q);
  }

  lemma OneDecision(decisions: seq<BindDecision>, i: nat, k: nat)
    requires Quotes.OneDecisionEach(decisions) && i < |decisions| && k < |decisions|
             && decisions[i].quote == decisions[k].quote
    ensures i == k
  {
  }

  lemma BoundHistory(quotes: seq<Quote>, decisions: seq<BindDecision>, q: nat)
    requires Quotes.DecisionsOk(quotes, decisions) && q < |quotes| && Quotes.IsBound(quotes[q])
    ensures quotes[q].boundBy != quotes[q].bindRequestedBy
    ensures exists i: nat :: IsBindOf(decisions, i, q, quotes[q].boundBy)
                  && forall k :: 0 <= k < |decisions| && decisions[k].quote == q ==> k == i
  {
    assert Lifecycle.DecisionTaken(decisions, q);
    var i :| 0 <= i < |decisions| && decisions[i].quote == q;
    assert Quotes.DecisionFits(quotes[decisions[i].quote], decisions[i]);
    forall k | 0 <= k < |decisions| && decisions[k].quote == q ensures k == i { OneDecision(decisions, i, k); }
    assert IsBindOf(decisions, i, q, quotes[q].boundBy);
  }

  /** A settled or paid claim carries its whole dual-control history, its journal, and a paid premium. */
  lemma SettledClaimHistory(ops: seq<Op>, c: nat)
    requires c < |Run(ops).claims| && ClaimRows.IsSettled(Run(ops).claims[c])
    ensures var db, claim := Run(ops), Run(ops).claims[c];
            && claim.assignmentConfirmedBy != claim.assignmentProposedBy
            && claim.settlementProposedBy == claim.adjuster
            && claim.settlementApprovedBy != claim.settlementProposedBy
            && 0 < claim.settled <= claim.claimed
            && claim.policy < |db.policies| && db.policies[claim.policy].premiumPaidAt.Some?
            && Journal(Claims.SettlementRef(claim.ref),
                       Journals.Transfer(ClaimsPayable, InsurerClearing, claim.settled)) in db.journals
  {
    RunHolds(ops);
    assert ClaimRows.ClaimOk(Run(ops).policies, Run(ops).claims[c]);
    SettlementIsPosted(Run(ops), c);
  }

  lemma {:induction false} GatherHas<A, B>(s: seq<A>, f: A -> multiset<B>, i: nat, u: B)
    requires i < |s| && u in f(s[i])
    ensures u in Gather(s, f)
    decreases |s|
  {
    if i < |s| - 1 { GatherHas(s[..|s| - 1], f, i, u); }
  }

  lemma SettlementIsPosted(db: Database, c: nat)
    requires Owners.Holds(db) && c < |db.claims| && db.claims[c].journal != ""
    ensures Journal(Claims.SettlementRef(db.claims[c].ref),
                    Journals.Transfer(ClaimsPayable, InsurerClearing, db.claims[c].settled)) in db.journals
  {
    var j := Journal(Claims.SettlementRef(db.claims[c].ref),
                     Journals.Transfer(ClaimsPayable, InsurerClearing, db.claims[c].settled));
    assert j in Owners.OfClaim()(db.claims[c]);
    GatherHas(db.claims, Owners.OfClaim(), c, j);
    assert j in multiset(db.journals);
  }

  /** An approved premium change was approved by someone other than its author and has its own journal. */
  lemma ApprovedEndorsementHistory(ops: seq<Op>, k: nat)
    requires k < |Run(ops).endorsements|
    requires Run(ops).endorsements[k].status == Approved && Run(ops).endorsements[k].delta != 0
    ensures var db, e := Run(ops), Run(ops).endorsements[k];
            && e.approvedBy != e.createdBy && e.policy < |db.policies|
            && Journal(Lifecycle.EndorsementRef(db.policies[e.policy].number, e.no),
                       Lifecycle.DeltaLegs(e.delta)) in db.journals
  {
    RunHolds(ops);
    assert Endorsements.EndorsementOk(Run(ops).policies, Run(ops).endorsements[k]);
    EndorsementIsPosted(Run(ops), k);
  }

  lemma EndorsementIsPosted(db: Database, k: nat)
    requires Owners.Holds(db) && k < |db.endorsements| && db.endorsements[k].journal != ""
             && db.endorsements[k].policy < |db.policies|
    ensures Journal(Lifecycle.EndorsementRef(db.policies[db.endorsements[k].policy].number, db.endorsements[k].no),
                    Lifecycle.DeltaLegs(db.endorsements[k].delta)) in db.journals
  {
    var e := db.endorsements[k];
    var j := Journal(Lifecycle.EndorsementRef(db.policies[e.policy].number, e.no), Lifecycle.DeltaLegs(e.delta));
    assert j in Owners.OfEndorsement(db.policies)(e);
    GatherHas(db.endorsements, Owners.OfEndorsement(db.policies), k, j);
    assert j in multiset(db.journals);
  }

  /** ISSUED, DECLINED, REJECTED and PAID rows and decided endorsements never change again, whatever is called later. */
  lemma FinalRowsStay(ops: seq<Op>, n: nat)
    requires n <= |ops|
    ensures var before, after := Run(ops[..n]), Run(ops);
            && |before.quotes| <= |after.quotes| && |before.claims| <= |after.claims|
            && |before.endorsements| <= |after.endorsements|
            && (forall q :: 0 <= q < |before.quotes| ==>
                  before.quotes[q].status == Issued || before.quotes[q].status == Declined
                  ==> after.quotes[q] == before.quotes[q])
            && (forall c :: 0 <= c < |before.claims| ==>
                  before.claims[c].status == Refused || before.claims[c].status == Paid
                  ==> after.claims[c] == before.claims[c])
            && (forall k :: 0 <= k < |before.endorsements| && before.endorsements[k].status != Proposed
                  ==> after.endorsements[k] == before.endorsements[k])
  {
    History.RunEvolves(ops, n);
    FinalRows(Run(ops[..n]), Run(ops));
  }

  lemma FinalRows(before: Database, after: Database)
    requires History.Evolves(before, after)
    ensures forall q :: 0 <= q < |before.quotes| && (before.quotes[q].status == Issued
                                                     || before.quotes[q].status == Declined)
                  ==> after.quotes[q] == before.quotes[q]
    ensures forall c :: 0 <= c < |before.claims| && (before.claims[c].status == Refused
                                                     || before.claims[c].status == Paid)
                  ==> after.claims[c] == before.claims[c]
    ensures forall k :: 0 <= k < |before.endorsements| && before.endorsements[k].status != Proposed
                  ==> after.endorsements[k] == before.endorsements[k]
  {
    forall q | 0 <= q < |before.quotes| && (before.quotes[q].status == Issued || before.quotes[q].status == Declined)
      ensures after.quotes[q] == before.quotes[q]
    {
      assert History.QuoteEvolves(before.quotes[q], after.quotes[q]);
    }
    forall c | 0 <= c < |before.claims| && (before.claims[c].status == Refused || before.claims[c].status == Paid)
      ensures after.claims[c] == before.claims[c]
    {
      assert History.ClaimEvolves(before.claims[c], after.claims[c]);
    }
    forall k | 0 <= k < |before.endorsements| && before.endorsements[k].status != Proposed
      ensures after.endorsements[k] == before.endorsements[k]
    {
      assert History.EndorsementEvolves(before.endorsements[k], after.endorsements[k]);
    }
  }

  /** EXPIRED is never stored: the refusal that writes it rolls it back. */
  lemma NothingEverExpires(ops: seq<Op>, q: nat)
    requires q < |Run(ops).quotes|
    ensures Run(ops).quotes[q].status != Expired
  {
    RunHolds(ops);
    assert Quotes.QuoteOk(Run(ops).quotes[q]);
  }

  // ------------------------------------------------------------------------ serial numbers

  /** Policies have distinct numbers, each reading back as the row's own series and sequence. */
  lemma PolicyNumbersIdentify(ops: seq<Op>, i: nat, j: nat)
    requires i < |Run(ops).policies| && j < |Run(ops).policies|
    ensures var a, b := Run(ops).policies[i], Run(ops).policies[j];
            && (i != j ==> a.number != b.number)
            && var parsed := Serials.ParsePolicyNumber(a.number);
               parsed.Ok? && parsed.value.familyCode == Lifecycle.FamilyCode(a.family)
               && parsed.value.year == a.year && parsed.value.sequence == a.sequence
  {
    RunHolds(ops);
    var db := Run(ops);
    if i < j { Policies.NumbersDistinct(db, i, j); }
    if j < i { Policies.NumbersDistinct(db, j, i); }
    NumberParses(db, i);
  }

  lemma NumberParses(db: Database, i: nat)
    requires Policies.Holds(db) && i < |db.policies|
    ensures var a := db.policies[i];
            var parsed := Serials.ParsePolicyNumber(a.number);
            parsed.Ok? && parsed.value.familyCode == Lifecycle.FamilyCode(a.family)
            && parsed.value.year == a.year && parsed.value.sequence == a.sequence
  {
    var a := db.policies[i];
    assert Policies.PolicyFits(db.quotes, a, i);
    Serials.ParseInvertsBuild(Lifecycle.FamilyCode(a.family), a.year, a.sequence);
    Policies.UpperCode(a.family);
  }

  /** The family a product kind is numbered under. */
  predicate KindInFamily(kind: ProductKind, code: string) {
    && (kind == MarineCargoSingle || kind == MarineCargoOpen ==> code == "CRG")
    && (kind == FerryParametric ==> code == "FRY")
    && (kind == ProtectionIndemnity ==> code == "PRT")
    && (kind == Hull ==> code == "HUL")
  }

  /** A policy has the insured value of its own issued quote and a number of the family of that quote's kind. */
  lemma PolicyHasItsQuotesTerms(ops: seq<Op>, i: nat)
    requires i < |Run(ops).policies|
    ensures var db, policy := Run(ops), Run(ops).policies[i];
            && policy.quote < |db.quotes| && db.quotes[policy.quote].status == Issued
            && policy.insuredValue == Lifecycle.SumValues(db.quotes[policy.quote].lineValues)
            && var parsed := Serials.ParsePolicyNumber(policy.number);
               parsed.Ok? && KindInFamily(db.quotes[policy.quote].kind, parsed.value.familyCode)
  {
    RunHolds(ops);
    TermsOfQuote(Run(ops), i);
  }

  lemma TermsOfQuote(db: Database, i: nat)
    requires Policies.Holds(db) && i < |db.policies|
    ensures var policy := db.policies[i];
            && policy.quote < |db.quotes| && db.quotes[policy.quote].status == Issued
            && policy.insuredValue == Lifecycle.SumValues(db.quotes[policy.quote].lineValues)
            && var parsed := Serials.ParsePolicyNumber(policy.number);
               parsed.Ok? && KindInFamily(db.quotes[policy.quote].kind, parsed.value.familyCode)
  {
    assert Policies.PolicyFits(db.quotes, db.policies[i], i);
    NumberParses(db, i);
  }

  predicate UsesSerial(policy: Policy, family: Family, year: int, s: nat) {
    policy.family == family && policy.year == year && policy.sequence == s
  }

  predicate SerialUsed(policies: seq<Policy>, family: Family, year: int, s: nat) {
    exists i :: 0 <= i < |policies| && UsesSerial(policies[i], family, year, s)
  }

  predicate SerialsIncrease(policies: seq<Policy>, family: Family, year: int) {
    forall i, j :: 0 <= i < j < |policies| ==>
      Policies.InSeries(policies[i], family, year) && Policies.InSeries(policies[j], family, year) ==>
        policies[i].sequence < policies[j].sequence
  }

  /** The sequences of a series are exactly 0 .. counter - 1, each used once: refused calls leave no gap. */
  lemma SequencesAreExact(ops: seq<Op>, family: Family, year: int, s: nat)
    ensures s < Lifecycle.Counter(Run(ops).counters, family, year) <==> SerialUsed(Run(ops).policies, family, year, s)
    ensures SerialsIncrease(Run(ops).policies, family, year)
  {
    RunHolds(ops);
    SequenceExact(Run(ops).policies, Run(ops).counters, family, year, s);
    SequencesIncrease(Run(ops).policies, family, year);
  }

  lemma SequenceExact(policies: seq<Policy>, counters: map<(Family, int), nat>, family: Family, year: int, s: nat)
    requires Policies.SerialsFit(policies) && Policies.CountersFit(policies, counters)
    ensures s < Lifecycle.Counter(counters, family, year) <==> SerialUsed(policies, family, year, s)
  {
    assert Lifecycle.Counter(counters, family, year) == Policies.CountOf(policies, family, year);
    if s < Policies.CountOf(policies, family, year) {
      Policies.EverySerialUsed(policies, family, year, s);
      var i :| 0 <= i < |policies| && Policies.InSeries(policies[i], family, year) && policies[i].sequence == s;
      assert UsesSerial(policies[i], family, year, s);
    }
    if i :| 0 <= i < |policies| && UsesSerial(policies[i], family, year, s) { Policies.SerialBelowCount(policies, i); }
  }

  lemma SequencesIncrease(policies: seq<Policy>, family: Family, year: int)
    requires Policies.SerialsFit(policies)
    ensures SerialsIncrease(policies, family, year)
  {
    forall i, j | 0 <= i < j < |policies| && Policies.InSeries(policies[i], family, year)
      && Policies.InSeries(policies[j], family, year)
      ensures policies[i].sequence < policies[j].sequence
    {
      Policies.EarlierSerialIsSmaller(policies, i, j);
    }
  }

  // -------------------------------------------------------------------------- status lists

  /** The newest lists index the policies: revoked iff CANCELLED or LAPSED, suspended iff SUSPENDED, else clear. */
  lemma StatusListsIndexPolicies(ops: seq<Op>, i: nat)
    requires i < DEFAULT_SIZE_BITS
    ensures ListsIndex(Run(ops).snapshots, Run(ops).policies, i)
  {
    RunHolds(ops);
    IndexedAt(Run(ops).snapshots, Run(ops).policies, i);
  }

  predicate ListsIndex(snapshots: seq<Snapshot>, policies: seq<Policy>, i: nat) {
    var revocation, suspension := CurrentList(snapshots, Revocation), CurrentList(snapshots, Suspension);
    && |revocation| == |suspension| == DEFAULT_SIZE_BITS / 8 && i < 8 * |revocation|
    && (Bits(revocation)[i] <==> i < |policies| && (policies[i].status == Cancelled || policies[i].status == Lapsed))
    && (Bits(suspension)[i] <==> i < |policies| && policies[i].status == Suspended)
  }

  lemma IndexedAt(snapshots: seq<Snapshot>, policies: seq<Policy>, i: nat)
    requires StatusIndex.Holds(snapshots, policies) && i < DEFAULT_SIZE_BITS
    ensures ListsIndex(snapshots, policies, i)
  {
  }

  /** Allocated indexes are exactly 0 .. n - 1, and the list has room for them. */
  lemma IndexesAreExact(ops: seq<Op>)
    ensures var policies := Run(ops).policies;
            |policies| <= DEFAULT_SIZE_BITS && forall i :: 0 <= i < |policies| ==> policies[i].statusIndex == i
  {
    RunHolds(ops);
    PoliciesPlaced(Run(ops));
  }

  // -------------------------------------------------------------------------- claim totals

  /** A claim's loss is within its policy's cover, and no claim is adjusted, settled or paid without a document. */
  lemma ClaimsAreCovered(ops: seq<Op>, c: nat)
    requires c < |Run(ops).claims|
    ensures var db, claim := Run(ops), Run(ops).claims[c];
            && claim.policy < |db.policies|
            && db.policies[claim.policy].inceptionAt <= claim.lossAt <= db.policies[claim.policy].expiryAt
            && 0 < claim.claimed <= db.policies[claim.policy].insuredValue
            && (db.policies[claim.policy].family == FRY ==> claim.trigger != "")
            && (claim.status != Fnol && claim.status != Refused ==>
                  exists i :: 0 <= i < |db.documents| && db.documents[i].claim == c
                    && Claims.IsDigest(db.documents[i].sha256))
  {
    RunHolds(ops);
    CoverHolds(Run(ops), c);
  }

  lemma CoverHolds(db: Database, c: nat)
    requires Cover.Holds(db) && c < |db.claims|
    ensures Cover.Covered(db.policies, db.claims[c])
    ensures Cover.Examined(db.claims[c]) ==>
              exists i :: 0 <= i < |db.documents| && db.documents[i].claim == c
                && Claims.IsDigest(db.documents[i].sha256)
  {
    if Cover.Examined(db.claims[c]) {
      assert Cover.HasDocument(db.documents, c);
      var i :| 0 <= i < |db.documents| && db.documents[i].claim == c;
      assert Claims.IsDigest(db.documents[i].sha256);
    }
  }

  /** Per policy: paid out within settled within claimed within insured; and the payouts are exactly what is PAID. */
  lemma ClaimTotalsBounded(ops: seq<Op>, p: nat)
    requires p < |Run(ops).policies|
    ensures var db := Run(ops);
            && Sum(db.claims, Totals.SettledOn(p)) <= Sum(db.claims, Claims.ClaimedOn(p)) <= db.policies[p].insuredValue
            && Sum(db.payoutReceipts, Totals.AppliedOn(db.claims, p)) == Sum(db.claims, Totals.PaidOn(p))
            && Sum(db.claims, Totals.PaidOn(p)) <= Sum(db.claims, Totals.SettledOn(p))
  {
    RunHolds(ops);
    var db := Run(ops);
    Totals.SettledWithinClaimed(db.policies, db.claims, p);
    assert Totals.WithinCap(db.policies, db.claims, p);
    assert Totals.PaidExactly(db.claims, db.payoutReceipts, p);
  }

  /** Receipt i is the one receipt applied to a claim, and for exactly its settled amount. */
  predicate OnePayout(claims: seq<Claim>, receipts: seq<Receipt>, c: nat, i: nat) {
    && c < |claims| && i < |receipts| && Receipts.AppliedTo(receipts[i], c) && receipts[i].amount == claims[c].settled
    && forall k :: 0 <= k < |receipts| && Receipts.AppliedTo(receipts[k], c) ==> k == i
  }

  /** A claim has one applied receipt when it is PAID, and none otherwise. */
  ghost predicate PaidOnce(claims: seq<Claim>, receipts: seq<Receipt>, c: nat)
    requires c < |claims|
  {
    if claims[c].status == Paid then exists i: nat :: OnePayout(claims, receipts, c, i)
      else !Receipts.HasApplied(receipts, c)
  }

  /** A PAID claim has exactly one applied receipt, of exactly its settled amount; no other claim has any. */
  lemma PaidExactlyOnce(ops: seq<Op>, c: nat)
    requires c < |Run(ops).claims|
    ensures PaidOnce(Run(ops).claims, Run(ops).payoutReceipts, c)
  {
    RunHolds(ops);
    ReceiptsPayOnce(Run(ops).claims, Run(ops).payoutReceipts, c);
  }

  lemma ReceiptsPayOnce(claims: seq<Claim>, receipts: seq<Receipt>, c: nat)
    requires Receipts.PayoutsOk(claims, receipts) && c < |claims|
    ensures PaidOnce(claims, receipts, c)
  {
    if claims[c].status == Paid {
      assert Receipts.HasApplied(receipts, c);
      var i :| 0 <= i < |receipts| && Receipts.AppliedTo(receipts[i], c);
      assert Receipts.PayoutRowOk(claims, receipts[i]);
      assert OnePayout(claims, receipts, c, i);
    } else {
      forall i | 0 <= i < |receipts| ensures !Receipts.AppliedTo(receipts[i], c) {
        assert Receipts.PayoutRowOk(claims, receipts[i]);
      }
    }
  }

  /** Every policy's premium and insured value stay within what its signed events can carry. */
  lemma PolicyAmountsBounded(ops: seq<Op>, p: nat)
    requires p < |Run(ops).policies|
    ensures var policy := Run(ops).policies[p];
            0 <= policy.premium <= 9_007_199_254_740_991 && 0 < policy.insuredValue <= 9_007_199_254_740_991
  {
    RunHolds(ops);
    AmountsBounded(Run(ops), p);
  }

  lemma AmountsBounded(db: Database, p: nat)
    requires Policies.Holds(db) && p < |db.policies|
    ensures db.policies[p].premium >= 0 && db.policies[p].insuredValue > 0 && Publishable(db.policies[p])
  {
    assert Policies.PolicyFits(db.quotes, db.policies[p], p);
  }

  /** A premium is marked paid exactly when one receipt was applied to the policy, and only one ever is. */
  lemma PremiumPaidExactlyOnce(ops: seq<Op>, p: nat)
    requires p < |Run(ops).policies|
    ensures var db := Run(ops);
            && (db.policies[p].premiumPaidAt.Some? <==> Receipts.HasApplied(db.premiumReceipts, p))
            && AppliedAtMostOnce(db.premiumReceipts, p)
  {
    RunHolds(ops);
    PremiumOnce(Run(ops).policies, Run(ops).premiumReceipts, p);
  }

  predicate AppliedAtMostOnce(receipts: seq<Receipt>, owner: nat) {
    forall i, k :: 0 <= i < k < |receipts| ==> !(Receipts.AppliedTo(receipts[i], owner)
                                                 && Receipts.AppliedTo(receipts[k], owner))
  }

  lemma PremiumOnce(policies: seq<Policy>, receipts: seq<Receipt>, p: nat)
    requires Receipts.PremiumsOk(policies, receipts) && p < |policies|
    ensures policies[p].premiumPaidAt.Some? <==> Receipts.HasApplied(receipts, p)
    ensures AppliedAtMostOnce(receipts, p)
  {
    if Receipts.HasApplied(receipts, p) {
      var i :| 0 <= i < |receipts| && Receipts.AppliedTo(receipts[i], p);
      assert Receipts.PremiumRowOk(policies, receipts[i]);
    }
  }
}

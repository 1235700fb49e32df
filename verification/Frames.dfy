/** Which tables each operation leaves alone. */
module Frames {
  import opened Records
  import Lifecycle
  import opened Machine
  import opened Effects

  predicate Posts(op: Op) {
    op.DecideBind? || op.ApproveEndorsement? || op.RecordPremiumReceipt? || op.ApproveSettlement?
  }

  /** Two policies that differ at most in status. */
  predicate SameTerms(a: Policy, b: Policy) { a.(status := Active) == b.(status := Active) }

  predicate TermsKept(a: seq<Policy>, b: seq<Policy>) {
    |a| == |b| && forall i :: 0 <= i < |a| ==> SameTerms(a[i], b[i])
  }

  /** Only policy statuses and snapshots change. */
  predicate OnlyStatuses(a: Database, b: Database) {
    TermsKept(a.policies, b.policies) && b == a.(policies := b.policies, snapshots := b.snapshots)
  }

  lemma TermsKeptTransitive(a: seq<Policy>, b: seq<Policy>, c: seq<Policy>)
    requires TermsKept(a, b) && TermsKept(b, c)
    ensures TermsKept(a, c)
  {
    forall i | 0 <= i < |a| ensures SameTerms(a[i], c[i]) {
      assert SameTerms(a[i], b[i]) && SameTerms(b[i], c[i]);
    }
  }

  lemma {:induction false} SweepFrame(db: Database, picked: seq<nat>)
    requires Lifecycle.InRange(picked, |db.policies|) && Lifecycle.LapseSweep(db, picked).Ok?
    ensures OnlyStatuses(db, Lifecycle.LapseSweep(db, picked).value)
    decreases |picked|
  {
    if picked != [] {
      var before := Lifecycle.LapseSweep(db, picked[..|picked| - 1]).value;
      SweepFrame(db, picked[..|picked| - 1]);
      TermsKeptTransitive(db.policies, before.policies,
                          Lifecycle.CancelOrLapse(before, picked[|picked| - 1], Lapsed).value.policies);
    }
  }

  lemma StatusFrame(db: Database, op: Op)
    requires StatusOp(op)
    ensures OnlyStatuses(db, Step(db, op))
  {
    if op.LapseSweep? && Apply(db, op).Ok? { SweepFrame(db, op.picked); }
  }

  lemma EndorsementFrame(db: Database, op: Op)
    requires EndorsementOp(op)
    ensures var after := Step(db, op);
            && after == db.(endorsements := after.endorsements, policies := after.policies, journals := after.journals)
            && (!op.ApproveEndorsement? ==> after.policies == db.policies && after.journals == db.journals)
  {
    if op.ApproveEndorsement? && Apply(db, op).Ok? { ApproveEndorsementEffect(db, op.p, op.no, op.principal); }
  }

  lemma QuoteFrame(db: Database, op: Op)
    requires QuoteOp(op)
    ensures var after := Step(db, op);
            && after == db.(quotes := after.quotes, decisions := after.decisions, counters := after.counters,
                            policies := after.policies, journals := after.journals)
            && (!op.DecideBind? ==> after.decisions == db.decisions && after.journals == db.journals)
            && (!op.IssuePolicy? ==> after.policies == db.policies && after.counters == db.counters)
  {
    if op.DecideBind? && Apply(db, op).Ok? { DecideBindEffect(db, op.q, op.decision, op.principal); }
  }

  lemma ClaimFrame(db: Database, op: Op)
    requires ClaimOp(op)
    ensures var after := Step(db, op);
            && after == db.(claims := after.claims, documents := after.documents, journals := after.journals)
            && (!op.ApproveSettlement? ==> after.journals == db.journals)
  {
    if op.ApproveSettlement? && Apply(db, op).Ok? { ApproveSettlementEffect(db, op.c, op.principal); }
  }

  lemma ReceiptFrame(db: Database, op: Op)
    requires op.RecordPremiumReceipt? || op.RecordPayoutReceipt?
    ensures var after := Step(db, op);
            if op.RecordPayoutReceipt? then after == db.(payoutReceipts := after.payoutReceipts, claims := after.claims)
            else after == db.(premiumReceipts := after.premiumReceipts, policies := after.policies,
                              journals := after.journals)
  {
    if Apply(db, op).Ok? {
      match op
      case RecordPremiumReceipt(external, number, amount, currency, now) =>
        PremiumReceiptEffect(db, external, number, amount, currency, now);
      case RecordPayoutReceipt(external, claimRef, amount, currency) =>
        PayoutReceiptEffect(db, external, claimRef, amount, currency);
      case _ =>
    }
  }

  /** Each table is written only by the operations that own it. */
  lemma TablesUntouched(db: Database, op: Op)
    ensures var after := Step(db, op);
            && (!QuoteOp(op) ==>
                  after.quotes == db.quotes && after.decisions == db.decisions && after.counters == db.counters)
            && (!EndorsementOp(op) ==> after.endorsements == db.endorsements)
            && (!ClaimOp(op) && !op.RecordPayoutReceipt? ==> after.claims == db.claims)
            && (!op.RecordPremiumReceipt? ==> after.premiumReceipts == db.premiumReceipts)
            && (!op.RecordPayoutReceipt? ==> after.payoutReceipts == db.payoutReceipts)
            && (!StatusOp(op) ==> after.snapshots == db.snapshots)
            && (!Posts(op) ==> after.journals == db.journals)
            && (!op.IssuePolicy? && !op.ApproveEndorsement? && !op.RecordPremiumReceipt? ==>
                TermsKept(db.policies, after.policies))
  {
    if StatusOp(op) { StatusFrame(db, op); }
    else if EndorsementOp(op) { EndorsementFrame(db, op); }
    else if QuoteOp(op) { QuoteFrame(db, op); }
    else if ClaimOp(op) { ClaimFrame(db, op); }
    else { ReceiptFrame(db, op); }
  }
}

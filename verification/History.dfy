/**
 * What no operation undoes: identities are fixed, records only accumulate, and final states are final.
 */
module History {
  import opened Wrappers
  import opened Records
  import Lifecycle
  import Claims
  import Premiums
  import opened Machine
  import opened Effects

  /** A quote keeps its identity and terms; ISSUED and DECLINED are final. */
  predicate QuoteEvolves(a: Quote, b: Quote) {
    && a.ref == b.ref && a.kind == b.kind && a.premium == b.premium && a.lineValues == b.lineValues
    && a.expiresAt == b.expiresAt
    && (a.status == Issued || a.status == Declined ==> a == b)
    && (a.status == Bound ==> b.status == Bound || b.status == Issued)
    && (a.status != Quoted ==> a.bindRequestedBy == b.bindRequestedBy && b.status != Quoted)
    && (a.status == Bound ==> a.boundBy == b.boundBy && a.journal == b.journal)
  }

  /** A policy keeps its identity and terms other than the premium; a paid premium stays paid. */
  predicate PolicyEvolves(a: Policy, b: Policy) {
    && a.number == b.number && a.quote == b.quote && a.family == b.family && a.year == b.year
    && a.sequence == b.sequence && a.insuredValue == b.insuredValue && a.statusIndex == b.statusIndex
    && a.inceptionAt == b.inceptionAt && a.expiryAt == b.expiryAt
    && (a.premiumPaidAt.Some? ==> a.premiumPaidAt == b.premiumPaidAt)
    && (a.status == Lapsed || a.status == Cancelled ==> a.status == b.status)
  }

  /** An endorsement keeps its terms; once decided it never changes. */
  predicate EndorsementEvolves(a: Endorsement, b: Endorsement) {
    && a.policy == b.policy && a.no == b.no && a.delta == b.delta && a.createdBy == b.createdBy
    && (a.status != Proposed ==> a == b)
  }

  /** A claim keeps its terms; REJECTED and PAID are final, and SETTLED can only become PAID. */
  predicate ClaimEvolves(a: Claim, b: Claim) {
    && a.ref == b.ref && a.policy == b.policy && a.lossAt == b.lossAt && a.trigger == b.trigger
       && a.claimed == b.claimed
    && (a.status == Refused || a.status == Paid ==> a == b)
    && (a.status == Settled ==> b == a || b == a.(status := Paid))
  }

  predicate IsPrefix<T(==)>(a: seq<T>, b: seq<T>) { |a| <= |b| && a == b[..|a|] }

  predicate QuotesEvolve(a: seq<Quote>, b: seq<Quote>) {
    |a| <= |b| && forall i :: 0 <= i < |a| ==> QuoteEvolves(a[i], b[i])
  }

  predicate PoliciesEvolve(a: seq<Policy>, b: seq<Policy>) {
    |a| <= |b| && forall i :: 0 <= i < |a| ==> PolicyEvolves(a[i], b[i])
  }

  predicate EndorsementsEvolve(a: seq<Endorsement>, b: seq<Endorsement>) {
    |a| <= |b| && forall i :: 0 <= i < |a| ==> EndorsementEvolves(a[i], b[i])
  }

  predicate ClaimsEvolve(a: seq<Claim>, b: seq<Claim>) {
    |a| <= |b| && forall i :: 0 <= i < |a| ==> ClaimEvolves(a[i], b[i])
  }

  predicate Evolves(a: Database, b: Database) {
    && QuotesEvolve(a.quotes, b.quotes) && PoliciesEvolve(a.policies, b.policies)
    && EndorsementsEvolve(a.endorsements, b.endorsements) && ClaimsEvolve(a.claims, b.claims)
    && IsPrefix(a.decisions, b.decisions) && IsPrefix(a.documents, b.documents)
    && IsPrefix(a.premiumReceipts, b.premiumReceipts) && IsPrefix(a.payoutReceipts, b.payoutReceipts)
    && IsPrefix(a.journals, b.journals) && IsPrefix(a.snapshots, b.snapshots)
  }

  lemma EvolvesReflexive(a: Database)
    ensures Evolves(a, a)
  {
  }

  lemma QuotesTransitive(a: seq<Quote>, b: seq<Quote>, c: seq<Quote>)
    requires QuotesEvolve(a, b) && QuotesEvolve(b, c)
    ensures QuotesEvolve(a, c)
  {
    forall i | 0 <= i < |a| ensures QuoteEvolves(a[i], c[i]) {
      assert QuoteEvolves(a[i], b[i]) && QuoteEvolves(b[i], c[i]);
    }
  }

  lemma PoliciesTransitive(a: seq<Policy>, b: seq<Policy>, c: seq<Policy>)
    requires PoliciesEvolve(a, b) && PoliciesEvolve(b, c)
    ensures PoliciesEvolve(a, c)
  {
    forall i | 0 <= i < |a| ensures PolicyEvolves(a[i], c[i]) {
      assert PolicyEvolves(a[i], b[i]) && PolicyEvolves(b[i], c[i]);
    }
  }

  lemma EndorsementsTransitive(a: seq<Endorsement>, b: seq<Endorsement>, c: seq<Endorsement>)
    requires EndorsementsEvolve(a, b) && EndorsementsEvolve(b, c)
    ensures EndorsementsEvolve(a, c)
  {
    forall i | 0 <= i < |a| ensures EndorsementEvolves(a[i], c[i]) {
      assert EndorsementEvolves(a[i], b[i]) && EndorsementEvolves(b[i], c[i]);
    }
  }

  lemma ClaimsTransitive(a: seq<Claim>, b: seq<Claim>, c: seq<Claim>)
    requires ClaimsEvolve(a, b) && ClaimsEvolve(b, c)
    ensures ClaimsEvolve(a, c)
  {
    forall i | 0 <= i < |a| ensures ClaimEvolves(a[i], c[i]) {
      assert ClaimEvolves(a[i], b[i]) && ClaimEvolves(b[i], c[i]);
    }
  }

  lemma EvolvesTransitive(a: Database, b: Database, c: Database)
    requires Evolves(a, b) && Evolves(b, c)
    ensures Evolves(a, c)
  {
    QuotesTransitive(a.quotes, b.quotes, c.quotes);
    PoliciesTransitive(a.policies, b.policies, c.policies);
    EndorsementsTransitive(a.endorsements, b.endorsements, c.endorsements);
    ClaimsTransitive(a.claims, b.claims, c.claims);
  }

  lemma SweepEvolves(db: Database, picked: seq<nat>)
    requires Lifecycle.InRange(picked, |db.policies|) && Lifecycle.LapseSweep(db, picked).Ok?
    ensures Evolves(db, Lifecycle.LapseSweep(db, picked).value)
    decreases |picked|
  {
    if picked != [] {
      var before := Lifecycle.LapseSweep(db, picked[..|picked| - 1]).value;
      SweepEvolves(db, picked[..|picked| - 1]);
      EvolvesTransitive(db, before, Lifecycle.CancelOrLapse(before, picked[|picked| - 1], Lapsed).value);
    }
  }

  lemma DecideBindEvolves(db: Database, q: nat, decision: Decision, principal: string)
    requires q < |db.quotes| && Lifecycle.DecideBind(db, q, decision, principal).Ok?
    ensures Evolves(db, Lifecycle.DecideBind(db, q, decision, principal).value)
  {
    DecideBindEffect(db, q, decision, principal);
  }

  lemma IssuePolicyEvolves(db: Database, q: nat, inceptionAt: int, expiryAt: int, year: int, now: int)
    requires q < |db.quotes| && Lifecycle.IssuePolicy(db, q, inceptionAt, expiryAt, year, now).Ok?
    ensures Evolves(db, Lifecycle.IssuePolicy(db, q, inceptionAt, expiryAt, year, now).value)
  {
  }

  lemma QuoteOpEvolves(db: Database, op: Op)
    requires op.CreateQuote? || op.RequestBind? || op.DecideBind? || op.IssuePolicy?
    ensures Evolves(db, Step(db, op))
  {
    if Apply(db, op).Ok? {
      match op
      case DecideBind(q, decision, principal) => DecideBindEvolves(db, q, decision, principal);
      case IssuePolicy(q, inceptionAt, expiryAt, year, now) =>
        IssuePolicyEvolves(db, q, inceptionAt, expiryAt, year, now);
      case _ =>
    }
  }

  lemma ApproveEndorsementEvolves(db: Database, p: nat, no: nat, principal: string)
    requires p < |db.policies| && Lifecycle.ApproveEndorsement(db, p, no, principal).Ok?
    ensures Evolves(db, Lifecycle.ApproveEndorsement(db, p, no, principal).value)
  {
    ApproveEndorsementEffect(db, p, no, principal);
  }

  lemma EndorsementOpEvolves(db: Database, op: Op)
    requires op.AddEndorsement? || op.ApproveEndorsement? || op.RejectEndorsement?
    ensures Evolves(db, Step(db, op))
  {
    if op.ApproveEndorsement? && Apply(db, op).Ok? { ApproveEndorsementEvolves(db, op.p, op.no, op.principal); }
  }

  lemma MoveEvolves(db: Database, p: nat, from: PolicyStatus, to: PolicyStatus, purpose: Purpose, bit: bool,
                    after: Database)
    requires p < |db.policies| && Lifecycle.MoveStatus(db, p, from, to, purpose, bit) == Ok(after)
    requires from != Lapsed && from != Cancelled
    ensures Evolves(db, after)
  {
  }

  lemma StatusOpEvolves(db: Database, op: Op)
    requires StatusOp(op)
    ensures Evolves(db, Step(db, op))
  {
    if Apply(db, op).Ok? {
      match op
      case CancelOrLapse(p, newStatus) => MoveEvolves(db, p, Active, newStatus, Revocation, true, Step(db, op));
      case SuspendPolicy(p) => MoveEvolves(db, p, Active, Suspended, Suspension, true, Step(db, op));
      case ReinstatePolicy(p) => MoveEvolves(db, p, Suspended, Active, Suspension, false, Step(db, op));
      case LapseSweep(_, _, picked) => SweepEvolves(db, picked);
      case _ =>
    }
  }

  lemma PremiumReceiptEvolves(db: Database, external: string, number: string, amount: int, currency: string, now: int)
    requires Premiums.RecordPremiumReceipt(db, external, number, amount, currency, now).Ok?
    ensures Evolves(db, Premiums.RecordPremiumReceipt(db, external, number, amount, currency, now).value)
  {
    PremiumReceiptEffect(db, external, number, amount, currency, now);
  }

  lemma PayoutReceiptEvolves(db: Database, external: string, claimRef: string, amount: int, currency: string)
    requires Claims.RecordPayoutReceipt(db, external, claimRef, amount, currency).Ok?
    ensures Evolves(db, Claims.RecordPayoutReceipt(db, external, claimRef, amount, currency).value)
  {
    PayoutReceiptEffect(db, external, claimRef, amount, currency);
  }

  lemma ReceiptOpEvolves(db: Database, op: Op)
    requires op.RecordPremiumReceipt? || op.RecordPayoutReceipt?
    ensures Evolves(db, Step(db, op))
  {
    if Apply(db, op).Ok? {
      if op.RecordPremiumReceipt? { PremiumReceiptEvolves(db, op.external, op.number, op.amount, op.currency, op.now); }
      else { PayoutReceiptEvolves(db, op.external, op.claimRef, op.amount, op.currency); }
    }
  }

  /** One claim moved forward, with documents and journals only added. */
  lemma OneClaimEvolves(a: Database, b: Database, c: nat, claim: Claim)
    requires c < |a.claims| && ClaimEvolves(a.claims[c], claim)
    requires b == a.(claims := a.claims[c := claim], documents := b.documents, journals := b.journals)
    requires IsPrefix(a.documents, b.documents) && IsPrefix(a.journals, b.journals)
    ensures Evolves(a, b)
  {
  }

  lemma FilingEvolves(db: Database, p: nat, ref: string, lossAt: int, claimed: int, trigger: string, after: Database)
    requires p < |db.policies| && Claims.FileFnol(db, p, ref, lossAt, claimed, trigger) == Ok(after)
    ensures Evolves(db, after)
  {
  }

  lemma AttachmentEvolves(db: Database, c: nat, vaultRef: string, sha256: string, after: Database)
    requires c < |db.claims| && Claims.AttachDocument(db, c, vaultRef, sha256) == Ok(after)
    ensures Evolves(db, after)
  {
    OneClaimEvolves(db, after, c, after.claims[c]);
  }

  lemma ProposalEvolves(db: Database, c: nat, adjuster: string, principal: string, after: Database)
    requires c < |db.claims| && Claims.ProposeAdjuster(db, c, adjuster, principal) == Ok(after)
    ensures Evolves(db, after)
  {
    OneClaimEvolves(db, after, c, after.claims[c]);
  }

  lemma ConfirmationEvolves(db: Database, c: nat, principal: string, after: Database)
    requires c < |db.claims| && Claims.ConfirmAdjuster(db, c, principal) == Ok(after)
    ensures Evolves(db, after)
  {
    OneClaimEvolves(db, after, c, after.claims[c]);
  }

  lemma SettlementProposalEvolves(db: Database, c: nat, settled: int, principal: string, after: Database)
    requires c < |db.claims| && Claims.ProposeSettlement(db, c, settled, principal) == Ok(after)
    ensures Evolves(db, after)
  {
    OneClaimEvolves(db, after, c, after.claims[c]);
  }

  lemma SettlementEvolves(db: Database, c: nat, principal: string, after: Database)
    requires c < |db.claims| && db.claims[c].policy < |db.policies|
             && Claims.ApproveSettlement(db, c, principal) == Ok(after)
    ensures Evolves(db, after)
  {
    ApproveSettlementEffect(db, c, principal);
    OneClaimEvolves(db, after, c, after.claims[c]);
  }

  lemma RejectionEvolves(db: Database, c: nat, after: Database)
    requires c < |db.claims| && Claims.RejectClaim(db, c) == Ok(after)
    ensures Evolves(db, after)
  {
    OneClaimEvolves(db, after, c, after.claims[c]);
  }

  lemma ClaimOpEvolves(db: Database, op: Op)
    requires ClaimOp(op)
    ensures Evolves(db, Step(db, op))
  {
    if Apply(db, op).Ok? {
      var after := Step(db, op);
      match op
      case FileFnol(p, ref, lossAt, claimed, trigger) => FilingEvolves(db, p, ref, lossAt, claimed, trigger, after);
      case AttachDocument(c, vaultRef, sha256) => AttachmentEvolves(db, c, vaultRef, sha256, after);
      case ProposeAdjuster(c, adjuster, principal) => ProposalEvolves(db, c, adjuster, principal, after);
      case ConfirmAdjuster(c, principal) => ConfirmationEvolves(db, c, principal, after);
      case ProposeSettlement(c, settled, principal) => SettlementProposalEvolves(db, c, settled, principal, after);
      case ApproveSettlement(c, principal) => SettlementEvolves(db, c, principal, after);
      case RejectClaim(c) => RejectionEvolves(db, c, after);
      case _ =>
    }
  }

  /** Every call, accepted or refused, only moves rows forward. */
  lemma StepEvolves(db: Database, op: Op)
    ensures Evolves(db, Step(db, op))
  {
    if op.CreateQuote? || op.RequestBind? || op.DecideBind? || op.IssuePolicy? { QuoteOpEvolves(db, op); }
    else if op.AddEndorsement? || op.ApproveEndorsement? || op.RejectEndorsement? { EndorsementOpEvolves(db, op); }
    else if op.CancelOrLapse? || op.SuspendPolicy? || op.ReinstatePolicy? || op.LapseSweep? { StatusOpEvolves(db, op); }
    else if op.RecordPremiumReceipt? || op.RecordPayoutReceipt? { ReceiptOpEvolves(db, op); }
    else { ClaimOpEvolves(db, op); }
  }

  /** Over whole runs: whatever held of the rows at some point still holds of them later. */
  lemma {:induction false} RunEvolves(ops: seq<Op>, n: nat)
    requires n <= |ops|
    ensures Evolves(Run(ops[..n]), Run(ops))
    decreases |ops|
  {
    if n == |ops| {
      assert ops[..n] == ops;
      EvolvesReflexive(Run(ops));
    } else {
      var init := ops[..|ops| - 1];
      assert init[..n] == ops[..n];
      RunEvolves(init, n);
      StepEvolves(Run(init), ops[|ops| - 1]);
      EvolvesTransitive(Run(ops[..n]), Run(init), Run(ops));
    }
  }
}

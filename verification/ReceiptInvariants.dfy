/** Receipts in every reachable database: one applied receipt for each paid premium and each paid claim. */
module ReceiptInvariants {
  import opened Wrappers
  import opened Records
  import Claims
  import Premiums
  import opened Machine
  import opened Effects
  import opened Frames
  import Policies = PolicyInvariants

  predicate ExternalsDistinct(receipts: seq<Receipt>) {
    forall i, j :: 0 <= i < j < |receipts| ==> receipts[i].external != receipts[j].external
  }

  predicate AppliedTo(r: Receipt, owner: nat) { r.status == Applied && r.owner == Some(owner) }

  predicate OneAppliedEach(receipts: seq<Receipt>) {
    forall i, j :: 0 <= i < j < |receipts| && receipts[i].status == Applied && receipts[j].status == Applied
                   ==> receipts[i].owner != receipts[j].owner
  }

  predicate HasApplied(receipts: seq<Receipt>, owner: nat) {
    exists i :: 0 <= i < |receipts| && AppliedTo(receipts[i], owner)
  }

  lemma HasAppliedGrows(receipts: seq<Receipt>, r: Receipt, owner: nat)
    requires HasApplied(receipts, owner) || AppliedTo(r, owner)
    ensures HasApplied(receipts + [r], owner)
  {
    var after := receipts + [r];
    assert after[|receipts|] == r;
    if HasApplied(receipts, owner) {
      var i :| 0 <= i < |receipts| && AppliedTo(receipts[i], owner);
      assert after[i] == receipts[i];
    }
  }

  /** An applied premium receipt paid a policy and, if it carried money, has that policy's own journal. */
  predicate PremiumRowOk(policies: seq<Policy>, r: Receipt) {
    && r.amount >= 0
    && (r.status == Applied ==>
          r.owner.Some? && r.owner.value < |policies| && policies[r.owner.value].premiumPaidAt.Some?)
    && (r.status == Applied ==> r.currency == "NGN")
    && r.journal == if r.status == Applied && r.amount > 0 && r.owner.Some? && r.owner.value < |policies|
                    then Premiums.PremiumReceiptRef(policies[r.owner.value].number) else ""
  }

  predicate PremiumRowsOk(policies: seq<Policy>, receipts: seq<Receipt>) {
    forall i :: 0 <= i < |receipts| ==> PremiumRowOk(policies, receipts[i])
  }

  predicate PaidHaveReceipts(policies: seq<Policy>, receipts: seq<Receipt>) {
    forall p :: 0 <= p < |policies| && policies[p].premiumPaidAt.Some? ==> HasApplied(receipts, p)
  }

  predicate PremiumsOk(policies: seq<Policy>, receipts: seq<Receipt>) {
    && ExternalsDistinct(receipts) && PremiumRowsOk(policies, receipts)
    && OneAppliedEach(receipts) && PaidHaveReceipts(policies, receipts)
  }

  /** An applied payout receipt paid exactly the settled amount of a claim that is now PAID. */
  predicate PayoutRowOk(claims: seq<Claim>, r: Receipt) {
    && r.amount >= 0
    && (r.status == Applied ==> r.owner.Some? && r.owner.value < |claims|
                                && claims[r.owner.value].status == Paid && r.amount == claims[r.owner.value].settled
                                && r.currency == "NGN")
  }

  predicate PayoutRowsOk(claims: seq<Claim>, receipts: seq<Receipt>) {
    forall i :: 0 <= i < |receipts| ==> PayoutRowOk(claims, receipts[i])
  }

  predicate PaidClaimsHaveReceipts(claims: seq<Claim>, receipts: seq<Receipt>) {
    forall c :: 0 <= c < |claims| && claims[c].status == Paid ==> HasApplied(receipts, c)
  }

  predicate PayoutsOk(claims: seq<Claim>, receipts: seq<Receipt>) {
    && ExternalsDistinct(receipts) && PayoutRowsOk(claims, receipts)
    && OneAppliedEach(receipts) && PaidClaimsHaveReceipts(claims, receipts)
  }

  predicate Holds(db: Database) {
    PremiumsOk(db.policies, db.premiumReceipts) && PayoutsOk(db.claims, db.payoutReceipts)
  }

  // ------------------------------------------------------------------------- premium receipts

  /** Policies keep identity and payment; new ones are unpaid. */
  predicate PaymentsKept(a: seq<Policy>, b: seq<Policy>) {
    && |a| <= |b|
    && (forall p :: 0 <= p < |a| ==> a[p].number == b[p].number && a[p].premiumPaidAt == b[p].premiumPaidAt)
    && (forall p :: |a| <= p < |b| ==> b[p].premiumPaidAt.None?)
  }

  lemma PremiumsStay(a: seq<Policy>, b: seq<Policy>, receipts: seq<Receipt>)
    requires PremiumsOk(a, receipts) && PaymentsKept(a, b)
    ensures PremiumsOk(b, receipts)
  {
    forall i | 0 <= i < |receipts| ensures PremiumRowOk(b, receipts[i]) {
      assert PremiumRowOk(a, receipts[i]);
    }
  }

  lemma OtherOpKeepsPayments(db: Database, op: Op)
    requires !op.RecordPremiumReceipt?
    ensures PaymentsKept(db.policies, Step(db, op).policies)
  {
    TablesUntouched(db, op);
    if Apply(db, op).Ok? {
      if op.ApproveEndorsement? { ApproveEndorsementEffect(db, op.p, op.no, op.principal); }
      if op.IssuePolicy? { Policies.IssuePolicyEffect(db, op); }
    }
    if !op.ApproveEndorsement? && !op.IssuePolicy? {
      forall p | 0 <= p < |db.policies|
        ensures db.policies[p].number == Step(db, op).policies[p].number
        ensures db.policies[p].premiumPaidAt == Step(db, op).policies[p].premiumPaidAt
      {
        assert SameTerms(db.policies[p], Step(db, op).policies[p]);
      }
    }
  }

  lemma RowQuarantined(policies: seq<Policy>, receipts: seq<Receipt>, r: Receipt)
    requires PremiumsOk(policies, receipts) && r.status == Quarantined && !Claims.ExternalTaken(receipts, r.external)
    requires r.amount >= 0 && r.journal == ""
    ensures PremiumsOk(policies, receipts + [r])
  {
    forall p | 0 <= p < |policies| && policies[p].premiumPaidAt.Some? ensures HasApplied(receipts + [r], p) {
      HasAppliedGrows(receipts, r, p);
    }
  }

  lemma RowApplied(policies: seq<Policy>, receipts: seq<Receipt>, r: Receipt, p: nat, now: int)
    requires PremiumsOk(policies, receipts) && !Claims.ExternalTaken(receipts, r.external)
    requires p < |policies| && policies[p].premiumPaidAt.None? && AppliedTo(r, p) && r.amount >= 0
             && r.currency == "NGN"
    requires r.journal == if r.amount > 0 then Premiums.PremiumReceiptRef(policies[p].number) else ""
    ensures PremiumsOk(policies[p := policies[p].(premiumPaidAt := Some(now))], receipts + [r])
  {
    var after := policies[p := policies[p].(premiumPaidAt := Some(now))];
    forall i | 0 <= i < |receipts|
      ensures PremiumRowOk(after, receipts[i]) && (receipts[i].status == Applied ==> receipts[i].owner != Some(p))
    {
      assert PremiumRowOk(policies, receipts[i]);
    }
    forall k | 0 <= k < |after| && after[k].premiumPaidAt.Some? ensures HasApplied(receipts + [r], k) {
      HasAppliedGrows(receipts, r, k);
    }
  }

  lemma PremiumReceiptKeeps(db: Database, op: Op)
    requires PremiumsOk(db.policies, db.premiumReceipts) && op.RecordPremiumReceipt? && Apply(db, op).Ok?
    ensures PremiumsOk(Step(db, op).policies, Step(db, op).premiumReceipts)
  {
    PremiumReceiptEffect(db, op.external, op.number, op.amount, op.currency, op.now);
    var row := PremiumReceiptRow(db.policies, op.external, op.number, op.amount, op.currency);
    if row.status == Applied { RowApplied(db.policies, db.premiumReceipts, row, row.owner.value, op.now); }
    else { RowQuarantined(db.policies, db.premiumReceipts, row); }
  }

  // -------------------------------------------------------------------------- payout receipts

  /** PAID claims stay and nothing else becomes PAID. */
  predicate PaidClaimsKept(a: seq<Claim>, b: seq<Claim>) {
    && |a| <= |b|
    && (forall c :: 0 <= c < |a| && a[c].status == Paid ==> b[c] == a[c])
    && (forall c :: 0 <= c < |b| && b[c].status == Paid ==> c < |a| && a[c].status == Paid)
  }

  lemma PayoutsStay(a: seq<Claim>, b: seq<Claim>, receipts: seq<Receipt>)
    requires PayoutsOk(a, receipts) && PaidClaimsKept(a, b)
    ensures PayoutsOk(b, receipts)
  {
    forall i | 0 <= i < |receipts| ensures PayoutRowOk(b, receipts[i]) {
      assert PayoutRowOk(a, receipts[i]);
    }
  }

  lemma FilingKeepsPaidClaims(db: Database, op: Op)
    requires op.FileFnol? || op.AttachDocument?
    ensures PaidClaimsKept(db.claims, Step(db, op).claims)
  {
  }

  lemma AssignmentKeepsPaidClaims(db: Database, op: Op)
    requires op.ProposeAdjuster? || op.ConfirmAdjuster?
    ensures PaidClaimsKept(db.claims, Step(db, op).claims)
  {
  }

  lemma DecisionKeepsPaidClaims(db: Database, op: Op)
    requires op.ProposeSettlement? || op.RejectClaim?
    ensures PaidClaimsKept(db.claims, Step(db, op).claims)
  {
  }

  lemma ApprovalKeepsPaidClaims(db: Database, c: nat, principal: string, after: Database)
    requires c < |db.claims| && db.claims[c].policy < |db.policies|
             && Claims.ApproveSettlement(db, c, principal) == Ok(after)
    ensures PaidClaimsKept(db.claims, after.claims)
  {
    ApproveSettlementEffect(db, c, principal);
  }

  lemma OtherOpKeepsPaidClaims(db: Database, op: Op)
    requires !op.RecordPayoutReceipt?
    ensures PaidClaimsKept(db.claims, Step(db, op).claims)
  {
    if !ClaimOp(op) { TablesUntouched(db, op); }
    else if op.FileFnol? || op.AttachDocument? { FilingKeepsPaidClaims(db, op); }
    else if op.ProposeAdjuster? || op.ConfirmAdjuster? { AssignmentKeepsPaidClaims(db, op); }
    else if op.ProposeSettlement? || op.RejectClaim? { DecisionKeepsPaidClaims(db, op); }
    else if Apply(db, op).Ok? { ApprovalKeepsPaidClaims(db, op.c, op.principal, Step(db, op)); }
  }

  lemma PayoutQuarantined(claims: seq<Claim>, receipts: seq<Receipt>, r: Receipt)
    requires PayoutsOk(claims, receipts) && r.status == Quarantined && !Claims.ExternalTaken(receipts, r.external)
             && r.amount >= 0
    ensures PayoutsOk(claims, receipts + [r])
  {
    forall c | 0 <= c < |claims| && claims[c].status == Paid ensures HasApplied(receipts + [r], c) {
      HasAppliedGrows(receipts, r, c);
    }
  }

  lemma PayoutApplied(claims: seq<Claim>, receipts: seq<Receipt>, r: Receipt, c: nat)
    requires PayoutsOk(claims, receipts) && !Claims.ExternalTaken(receipts, r.external) && r.amount >= 0
    requires c < |claims| && claims[c].status == Settled && AppliedTo(r, c) && r.amount == claims[c].settled
             && r.currency == "NGN"
    ensures PayoutsOk(claims[c := claims[c].(status := Paid)], receipts + [r])
  {
    var after := claims[c := claims[c].(status := Paid)];
    forall i | 0 <= i < |receipts|
      ensures PayoutRowOk(after, receipts[i]) && (receipts[i].status == Applied ==> receipts[i].owner != Some(c))
    {
      assert PayoutRowOk(claims, receipts[i]);
    }
    forall k | 0 <= k < |after| && after[k].status == Paid ensures HasApplied(receipts + [r], k) {
      HasAppliedGrows(receipts, r, k);
    }
  }

  lemma PayoutReceiptKeeps(db: Database, op: Op)
    requires PayoutsOk(db.claims, db.payoutReceipts) && op.RecordPayoutReceipt? && Apply(db, op).Ok?
    ensures PayoutsOk(Step(db, op).claims, Step(db, op).payoutReceipts)
  {
    PayoutReceiptEffect(db, op.external, op.claimRef, op.amount, op.currency);
    var row := PayoutRow(db.claims, op.external, op.claimRef, op.amount, op.currency);
    if row.status == Applied { PayoutApplied(db.claims, db.payoutReceipts, row, row.owner.value); }
    else { PayoutQuarantined(db.claims, db.payoutReceipts, row); }
  }

  lemma StepKeeps(db: Database, op: Op)
    requires Holds(db)
    ensures Holds(Step(db, op))
  {
    var after := Step(db, op);
    TablesUntouched(db, op);
    if !op.RecordPremiumReceipt? {
      OtherOpKeepsPayments(db, op);
      PremiumsStay(db.policies, after.policies, db.premiumReceipts);
    } else if Apply(db, op).Ok? {
      PremiumReceiptKeeps(db, op);
    }
    if !op.RecordPayoutReceipt? {
      OtherOpKeepsPaidClaims(db, op);
      PayoutsStay(db.claims, after.claims, db.payoutReceipts);
    } else if Apply(db, op).Ok? {
      PayoutReceiptKeeps(db, op);
    }
  }
}

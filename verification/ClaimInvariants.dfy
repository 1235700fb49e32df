/** Claims and receipts in every reachable database: dual control, and payment exactly once. */
module ClaimInvariants {
  import opened Wrappers
  import opened Records
  import Claims
  import opened Machine
  import opened Effects
  import opened Frames
  import History

  predicate IsSettled(claim: Claim) { claim.status == Settled || claim.status == Paid }

  predicate Assigned(claim: Claim) {
    claim.status == AdjusterAssigned || claim.status == SettlementPending || IsSettled(claim)
  }

  /** The history a claim's status stands for. */
  predicate HistoryOk(claim: Claim) {
    && 0 <= claim.settled <= claim.claimed && claim.claimed > 0 && Auditable(claim.claimed)
    && (Assigned(claim) ==> claim.assignmentConfirmedBy != claim.assignmentProposedBy)
    && (claim.status == SettlementPending || IsSettled(claim) ==>
          claim.settled > 0 && claim.settlementProposedBy == claim.adjuster)
    && (IsSettled(claim) ==> claim.settlementApprovedBy != claim.settlementProposedBy)
    && claim.journal == if IsSettled(claim) then Claims.SettlementRef(claim.ref) else ""
  }

  /** A settled claim's policy had its premium paid. */
  predicate ClaimOk(policies: seq<Policy>, claim: Claim) {
    claim.policy < |policies| && HistoryOk(claim) && (IsSettled(claim) ==> policies[claim.policy].premiumPaidAt.Some?)
  }

  predicate ClaimsOk(policies: seq<Policy>, claims: seq<Claim>) {
    forall i :: 0 <= i < |claims| ==> ClaimOk(policies, claims[i])
  }

  predicate RefsDistinct(claims: seq<Claim>) {
    forall i, j :: 0 <= i < j < |claims| ==> claims[i].ref != claims[j].ref
  }

  predicate Holds(db: Database) { ClaimsOk(db.policies, db.claims) && RefsDistinct(db.claims) }

  predicate PaidStays(a: seq<Policy>, b: seq<Policy>) {
    |a| <= |b| && forall p :: 0 <= p < |a| && a[p].premiumPaidAt.Some? ==> b[p].premiumPaidAt.Some?
  }

  lemma PaidAlwaysStays(db: Database, op: Op)
    ensures PaidStays(db.policies, Step(db, op).policies)
  {
    History.StepEvolves(db, op);
    forall p | 0 <= p < |db.policies| && db.policies[p].premiumPaidAt.Some?
      ensures Step(db, op).policies[p].premiumPaidAt.Some?
    {
      assert History.PolicyEvolves(db.policies[p], Step(db, op).policies[p]);
    }
  }

  lemma ClaimsStay(a: seq<Policy>, b: seq<Policy>, claims: seq<Claim>)
    requires ClaimsOk(a, claims) && PaidStays(a, b)
    ensures ClaimsOk(b, claims)
  {
    forall i | 0 <= i < |claims| ensures ClaimOk(b, claims[i]) {
      assert ClaimOk(a, claims[i]);
    }
  }

  lemma ClaimReplaced(policies: seq<Policy>, claims: seq<Claim>, c: nat, claim: Claim)
    requires ClaimsOk(policies, claims) && RefsDistinct(claims)
    requires c < |claims| && ClaimOk(policies, claim) && claim.ref == claims[c].ref
    ensures ClaimsOk(policies, claims[c := claim]) && RefsDistinct(claims[c := claim])
  {
    var after := claims[c := claim];
    forall i | 0 <= i < |after| ensures ClaimOk(policies, after[i]) {
      assert i != c ==> ClaimOk(policies, claims[i]);
    }
  }

  lemma Filed(db: Database, p: nat, ref: string, lossAt: int, claimed: int, trigger: string, after: Database)
    requires Holds(db) && p < |db.policies| && Claims.FileFnol(db, p, ref, lossAt, claimed, trigger) == Ok(after)
    ensures Holds(after)
  {
    assert ClaimOk(db.policies, after.claims[|db.claims|]);
  }

  lemma FileKeeps(db: Database, op: Op)
    requires Holds(db) && op.FileFnol? && Apply(db, op).Ok?
    ensures Holds(Step(db, op))
  {
    Filed(db, op.p, op.ref, op.lossAt, op.claimed, op.trigger, Step(db, op));
  }

  lemma AssignmentKeeps(db: Database, op: Op)
    requires Holds(db) && (op.AttachDocument? || op.ProposeAdjuster? || op.ConfirmAdjuster?) && Apply(db, op).Ok?
    ensures Holds(Step(db, op))
  {
    assert ClaimOk(db.policies, db.claims[op.c]);
    ClaimReplaced(db.policies, db.claims, op.c, Step(db, op).claims[op.c]);
  }

  lemma SettlementKeeps(db: Database, op: Op)
    requires Holds(db) && (op.ProposeSettlement? || op.RejectClaim?) && Apply(db, op).Ok?
    ensures Holds(Step(db, op))
  {
    assert ClaimOk(db.policies, db.claims[op.c]);
    ClaimReplaced(db.policies, db.claims, op.c, Step(db, op).claims[op.c]);
  }

  lemma ApprovalKeeps(db: Database, op: Op)
    requires Holds(db) && op.ApproveSettlement? && Apply(db, op).Ok?
    ensures Holds(Step(db, op))
  {
    ApproveSettlementEffect(db, op.c, op.principal);
    assert ClaimOk(db.policies, db.claims[op.c]);
    ClaimReplaced(db.policies, db.claims, op.c, SettledClaim(db.claims[op.c], op.principal));
  }

  lemma PayoutKeeps(db: Database, op: Op)
    requires Holds(db) && op.RecordPayoutReceipt? && Apply(db, op).Ok?
    ensures Holds(Step(db, op))
  {
    PayoutReceiptEffect(db, op.external, op.claimRef, op.amount, op.currency);
    var row := PayoutRow(db.claims, op.external, op.claimRef, op.amount, op.currency);
    if row.status == Applied {
      var c := row.owner.value;
      assert ClaimOk(db.policies, db.claims[c]);
      ClaimReplaced(db.policies, db.claims, c, db.claims[c].(status := Paid));
    }
  }

  lemma StepKeeps(db: Database, op: Op)
    requires Holds(db)
    ensures Holds(Step(db, op))
  {
    if !ClaimOp(op) && !op.RecordPayoutReceipt? {
      TablesUntouched(db, op);
      PaidAlwaysStays(db, op);
      ClaimsStay(db.policies, Step(db, op).policies, db.claims);
    } else if Apply(db, op).Ok? {
      if op.FileFnol? { FileKeeps(db, op); }
      else if op.AttachDocument? || op.ProposeAdjuster? || op.ConfirmAdjuster? { AssignmentKeeps(db, op); }
      else if op.ProposeSettlement? || op.RejectClaim? { SettlementKeeps(db, op); }
      else if op.ApproveSettlement? { ApprovalKeeps(db, op); }
      else { PayoutKeeps(db, op); }
    }
  }
}

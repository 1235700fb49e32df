/** Claim totals in every reachable database: settled within claimed within insured, and paid out exactly. */
module ClaimTotals {
  import opened Wrappers
  import opened Sequences
  import opened Records
  import opened Claims
  import Machine
  import opened Effects
  import opened Frames
  import History
  import Policies = PolicyInvariants
  import Endorsements = EndorsementInvariants
  import ClaimRows = ClaimInvariants
  import Receipts = ReceiptInvariants

  function SettledOn(p: nat): Claim -> int {
    (c: Claim) => if c.policy == p && ClaimRows.IsSettled(c) then c.settled else 0
  }

  function PaidOn(p: nat): Claim -> int { (c: Claim) => if c.policy == p && c.status == Paid then c.settled else 0 }

  function AppliedOn(claims: seq<Claim>, p: nat): Receipt -> int {
    (r: Receipt) => if r.status == Applied && r.owner.Some? && r.owner.value < |claims|
      && claims[r.owner.value].policy == p
                    then r.amount else 0
  }

  predicate WithinCap(policies: seq<Policy>, claims: seq<Claim>, p: nat)
    requires p < |policies|
  {
    Sum(claims, ClaimedOn(p)) <= policies[p].insuredValue
  }

  predicate CapsHold(policies: seq<Policy>, claims: seq<Claim>) {
    forall p :: 0 <= p < |policies| ==> WithinCap(policies, claims, p)
  }

  predicate PaidExactly(claims: seq<Claim>, receipts: seq<Receipt>, p: nat) {
    Sum(receipts, AppliedOn(claims, p)) == Sum(claims, PaidOn(p))
  }

  ghost predicate PayoutsExact(claims: seq<Claim>, receipts: seq<Receipt>) {
    forall p: nat :: PaidExactly(claims, receipts, p)
  }

  predicate ClaimsPlaced(policies: seq<Policy>, claims: seq<Claim>) {
    forall c :: 0 <= c < |claims| ==> claims[c].policy < |policies|
  }

  // --------------------------------------------------------------------------------- the cap

  /** A claim that counts for no more than before. */
  lemma CountsNoMore(policies: seq<Policy>, claims: seq<Claim>, c: nat, claim: Claim)
    requires CapsHold(policies, claims) && c < |claims| && claim.policy == claims[c].policy
    requires claim.status == Refused || claims[c].status != Refused
    requires claim.claimed == claims[c].claimed && claim.claimed >= 0
    ensures CapsHold(policies, claims[c := claim])
  {
    var after := claims[c := claim];
    forall p | 0 <= p < |policies| ensures WithinCap(policies, after, p) {
      assert WithinCap(policies, claims, p);
      SumUpdate(claims, c, claim, ClaimedOn(p));
    }
  }

  lemma FilingKeepsCap(policies: seq<Policy>, claims: seq<Claim>, claim: Claim)
    requires CapsHold(policies, claims) && claim.policy < |policies| && claim.status != Refused
    requires Sum(claims, ClaimedOn(claim.policy)) + claim.claimed <= policies[claim.policy].insuredValue
    ensures CapsHold(policies, claims + [claim])
  {
    var after := claims + [claim];
    forall p | 0 <= p < |policies| ensures WithinCap(policies, after, p) {
      assert WithinCap(policies, claims, p);
      SumSnoc(claims, claim, ClaimedOn(p));
    }
  }

  lemma {:induction false} NoClaimsYet(claims: seq<Claim>, p: nat)
    requires forall c :: 0 <= c < |claims| ==> claims[c].policy != p
    ensures Sum(claims, ClaimedOn(p)) == 0
    decreases |claims|
  {
    if claims != [] { NoClaimsYet(claims[..|claims| - 1], p); }
  }

  lemma PoliciesKeepCap(a: seq<Policy>, b: seq<Policy>, claims: seq<Claim>)
    requires CapsHold(a, claims) && ClaimsPlaced(a, claims)
    requires |a| <= |b| && Policies.IdentitiesKept(a, b[..|a|])
    requires forall p :: |a| <= p < |b| ==> b[p].insuredValue >= 0
    ensures CapsHold(b, claims) && ClaimsPlaced(b, claims)
  {
    forall p | 0 <= p < |b| ensures WithinCap(b, claims, p) {
      if p < |a| { assert WithinCap(a, claims, p) && Policies.SameIdentity(a[p], b[..|a|][p]); }
      else { NoClaimsYet(claims, p); }
    }
  }

  predicate Holds(db: Database) { CapsHold(db.policies, db.claims) && ClaimsPlaced(db.policies, db.claims) }

  lemma FilingKeeps(db: Database, op: Machine.Op)
    requires Holds(db) && op.FileFnol? && Machine.Apply(db, op).Ok?
    ensures Holds(Machine.Step(db, op))
  {
    FilingKeepsCap(db.policies, db.claims, Machine.Step(db, op).claims[|db.claims|]);
  }

  lemma ClaimOpKeeps(db: Database, op: Machine.Op)
    requires Holds(db) && ClaimRows.ClaimsOk(db.policies, db.claims) && Machine.ClaimOp(op) && !op.ApproveSettlement?
             && Machine.Apply(db, op).Ok?
    ensures Holds(Machine.Step(db, op))
  {
    if op.FileFnol? {
      FilingKeeps(db, op);
    } else {
      assert ClaimRows.ClaimOk(db.policies, db.claims[op.c]);
      CountsNoMore(db.policies, db.claims, op.c, Machine.Step(db, op).claims[op.c]);
    }
  }

  lemma SettlementKeeps(db: Database, op: Machine.Op)
    requires Holds(db) && ClaimRows.ClaimsOk(db.policies, db.claims) && op.ApproveSettlement?
             && Machine.Apply(db, op).Ok?
    ensures Holds(Machine.Step(db, op))
  {
    ApproveSettlementEffect(db, op.c, op.principal);
    assert ClaimRows.ClaimOk(db.policies, db.claims[op.c]);
    CountsNoMore(db.policies, db.claims, op.c, Machine.Step(db, op).claims[op.c]);
  }

  lemma PayoutKeeps(db: Database, op: Machine.Op)
    requires Holds(db) && ClaimRows.ClaimsOk(db.policies, db.claims) && op.RecordPayoutReceipt?
             && Machine.Apply(db, op).Ok?
    ensures Holds(Machine.Step(db, op))
  {
    PayoutReceiptEffect(db, op.external, op.claimRef, op.amount, op.currency);
    var row := PayoutRow(db.claims, op.external, op.claimRef, op.amount, op.currency);
    if row.status == Applied {
      assert ClaimRows.ClaimOk(db.policies, db.claims[row.owner.value]);
      CountsNoMore(db.policies, db.claims, row.owner.value, Machine.Step(db, op).claims[row.owner.value]);
    }
  }

  lemma NewPoliciesInsure(db: Database, op: Machine.Op)
    ensures |db.policies| <= |Machine.Step(db, op).policies|
    ensures forall p :: |db.policies| <= p < |Machine.Step(db, op).policies| ==>
            Machine.Step(db, op).policies[p].insuredValue >= 0
  {
    Endorsements.IdentitiesStay(db, op);
    if op.IssuePolicy? && Machine.Apply(db, op).Ok? { Policies.IssuePolicyEffect(db, op); }
    else if !op.IssuePolicy? { Policies.OtherOpFrame(db, op); }
  }

  lemma StepKeeps(db: Database, op: Machine.Op)
    requires Holds(db) && ClaimRows.ClaimsOk(db.policies, db.claims)
    ensures Holds(Machine.Step(db, op))
  {
    if Machine.Apply(db, op).Ok? {
      if op.ApproveSettlement? { SettlementKeeps(db, op); }
      else if Machine.ClaimOp(op) { ClaimOpKeeps(db, op); }
      else if op.RecordPayoutReceipt? { PayoutKeeps(db, op); }
      else {
        TablesUntouched(db, op);
        Endorsements.IdentitiesStay(db, op);
        NewPoliciesInsure(db, op);
        PoliciesKeepCap(db.policies, Machine.Step(db, op).policies, db.claims);
      }
    }
  }

  /** Settled stays within claimed, claim by claim and so in total. */
  lemma SettledWithinClaimed(policies: seq<Policy>, claims: seq<Claim>, p: nat)
    requires ClaimRows.ClaimsOk(policies, claims)
    ensures Sum(claims, PaidOn(p)) <= Sum(claims, SettledOn(p)) <= Sum(claims, ClaimedOn(p))
  {
    forall c | 0 <= c < |claims|
      ensures PaidOn(p)(claims[c]) <= SettledOn(p)(claims[c]) <= ClaimedOn(p)(claims[c])
    {
      assert ClaimRows.ClaimOk(policies, claims[c]);
    }
    SumMonotone(claims, PaidOn(p), SettledOn(p));
    SumMonotone(claims, SettledOn(p), ClaimedOn(p));
  }

  // ------------------------------------------------------------------------------ the payouts

  /** Claims that are PAID stay as they are, no other becomes PAID, and none moves to another policy. */
  predicate PaidUnmoved(a: seq<Claim>, b: seq<Claim>) {
    Receipts.PaidClaimsKept(a, b) && forall c :: 0 <= c < |a| ==> a[c].policy == b[c].policy
  }

  lemma PayoutsStayExact(a: seq<Claim>, b: seq<Claim>, receipts: seq<Receipt>)
    requires PayoutsExact(a, receipts) && PaidUnmoved(a, b) && Receipts.PayoutRowsOk(a, receipts)
    ensures PayoutsExact(b, receipts)
  {
    forall p: nat ensures PaidExactly(b, receipts, p) {
      assert PaidExactly(a, receipts, p);
      SumPadded(a, b, PaidOn(p));
      forall i | 0 <= i < |receipts| ensures AppliedOn(a, p)(receipts[i]) == AppliedOn(b, p)(receipts[i]) {
        assert Receipts.PayoutRowOk(a, receipts[i]);
      }
      SumAgree(receipts, AppliedOn(a, p), AppliedOn(b, p));
    }
  }

  lemma PayoutCounts(claims: seq<Claim>, receipts: seq<Receipt>, r: Receipt, c: nat)
    requires PayoutsExact(claims, receipts) && c < |claims| && claims[c].status == Settled
    requires r.status == Applied && r.owner == Some(c) && r.amount == claims[c].settled
    ensures PayoutsExact(claims[c := claims[c].(status := Paid)], receipts + [r])
  {
    var after := claims[c := claims[c].(status := Paid)];
    forall p: nat ensures PaidExactly(after, receipts + [r], p) {
      assert PaidExactly(claims, receipts, p);
      SumUpdate(claims, c, after[c], PaidOn(p));
      SumAgree(receipts, AppliedOn(claims, p), AppliedOn(after, p));
      SumSnoc(receipts, r, AppliedOn(after, p));
    }
  }

  lemma QuarantineCountsNothing(claims: seq<Claim>, receipts: seq<Receipt>, r: Receipt)
    requires PayoutsExact(claims, receipts) && r.status == Quarantined
    ensures PayoutsExact(claims, receipts + [r])
  {
    forall p: nat ensures PaidExactly(claims, receipts + [r], p) {
      assert PaidExactly(claims, receipts, p);
      SumSnoc(receipts, r, AppliedOn(claims, p));
    }
  }

  lemma OtherOpMovesNoPaid(db: Database, op: Machine.Op)
    requires !op.RecordPayoutReceipt?
    ensures PaidUnmoved(db.claims, Machine.Step(db, op).claims)
  {
    Receipts.OtherOpKeepsPaidClaims(db, op);
    History.StepEvolves(db, op);
    forall c | 0 <= c < |db.claims| ensures db.claims[c].policy == Machine.Step(db, op).claims[c].policy {
      assert History.ClaimEvolves(db.claims[c], Machine.Step(db, op).claims[c]);
    }
  }

  lemma PayoutReceiptKeepsExact(db: Database, op: Machine.Op)
    requires PayoutsExact(db.claims, db.payoutReceipts) && op.RecordPayoutReceipt? && Machine.Apply(db, op).Ok?
    ensures PayoutsExact(Machine.Step(db, op).claims, Machine.Step(db, op).payoutReceipts)
  {
    PayoutReceiptEffect(db, op.external, op.claimRef, op.amount, op.currency);
    var row := PayoutRow(db.claims, op.external, op.claimRef, op.amount, op.currency);
    if row.status == Applied { PayoutCounts(db.claims, db.payoutReceipts, row, row.owner.value); }
    else { QuarantineCountsNothing(db.claims, db.payoutReceipts, row); }
  }

  lemma StepKeepsExact(db: Database, op: Machine.Op)
    requires PayoutsExact(db.claims, db.payoutReceipts) && Receipts.PayoutRowsOk(db.claims, db.payoutReceipts)
    ensures PayoutsExact(Machine.Step(db, op).claims, Machine.Step(db, op).payoutReceipts)
  {
    if !op.RecordPayoutReceipt? {
      TablesUntouched(db, op);
      OtherOpMovesNoPaid(db, op);
      PayoutsStayExact(db.claims, Machine.Step(db, op).claims, db.payoutReceipts);
    } else if Machine.Apply(db, op).Ok? {
      PayoutReceiptKeepsExact(db, op);
    }
  }
}

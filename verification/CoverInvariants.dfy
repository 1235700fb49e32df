/**
 * In every reachable database claims are within their policy's cover, and a claim under adjustment has its documents.
 */
module CoverInvariants {
  import opened Wrappers
  import opened Records
  import Claims
  import opened Machine
  import opened Effects
  import opened Frames
  import History

  /** The loss is within the cover window, the amount within the value, and a ferry claim names its trigger. */
  predicate Covered(policies: seq<Policy>, claim: Claim) {
    && claim.policy < |policies|
    && var policy := policies[claim.policy];
    && policy.inceptionAt <= claim.lossAt <= policy.expiryAt
    && 0 < claim.claimed <= policy.insuredValue
    && (policy.family == FRY ==> claim.trigger != "")
  }

  predicate AllCovered(policies: seq<Policy>, claims: seq<Claim>) {
    forall c :: 0 <= c < |claims| ==> Covered(policies, claims[c])
  }

  /** Past first notice, and not rejected. */
  predicate Examined(claim: Claim) { claim.status != Fnol && claim.status != Refused }

  predicate HasDocument(documents: seq<Document>, c: nat) {
    exists i :: 0 <= i < |documents| && documents[i].claim == c
  }

  predicate DocumentsOk(documents: seq<Document>) {
    && (forall i :: 0 <= i < |documents| ==> Claims.IsDigest(documents[i].sha256))
    && (forall i, j :: 0 <= i < j < |documents| ==>
          !(documents[i].claim == documents[j].claim && documents[i].vaultRef == documents[j].vaultRef))
  }

  predicate AllDocumented(claims: seq<Claim>, documents: seq<Document>) {
    forall c :: 0 <= c < |claims| && Examined(claims[c]) ==> HasDocument(documents, c)
  }

  predicate Holds(db: Database) {
    AllCovered(db.policies, db.claims) && DocumentsOk(db.documents) && AllDocumented(db.claims, db.documents)
  }

  // ----------------------------------------------------------------------------------- cover

  /** Neither a policy's window, value and family nor a claim's terms ever change. */
  lemma CoverLasts(a: Database, b: Database, c: nat)
    requires History.PoliciesEvolve(a.policies, b.policies) && History.ClaimsEvolve(a.claims, b.claims)
    requires c < |a.claims| && Covered(a.policies, a.claims[c])
    ensures Covered(b.policies, b.claims[c])
  {
    assert History.ClaimEvolves(a.claims[c], b.claims[c]);
    assert History.PolicyEvolves(a.policies[a.claims[c].policy], b.policies[a.claims[c].policy]);
  }

  lemma OnlyFilingAddsClaims(db: Database, op: Op)
    ensures !op.FileFnol? ==> |Step(db, op).claims| == |db.claims|
  {
    TablesUntouched(db, op);
    if op.ApproveSettlement? && Apply(db, op).Ok? { ApproveSettlementEffect(db, op.c, op.principal); }
    if op.RecordPayoutReceipt? && Apply(db, op).Ok? {
      PayoutReceiptEffect(db, op.external, op.claimRef, op.amount, op.currency);
    }
  }

  lemma FiledIsCovered(db: Database, p: nat, ref: string, lossAt: int, claimed: int, trigger: string, after: Database)
    requires p < |db.policies| && Claims.FileFnol(db, p, ref, lossAt, claimed, trigger) == Ok(after)
    ensures after.claims == db.claims + [Claims.NewClaim(p, ref, lossAt, claimed, trigger)]
            && after.policies == db.policies
    ensures Covered(after.policies, Claims.NewClaim(p, ref, lossAt, claimed, trigger))
  {
  }

  lemma StepKeepsCover(db: Database, op: Op)
    requires AllCovered(db.policies, db.claims)
    ensures AllCovered(Step(db, op).policies, Step(db, op).claims)
  {
    var after := Step(db, op);
    History.StepEvolves(db, op);
    OnlyFilingAddsClaims(db, op);
    if op.FileFnol? && Apply(db, op).Ok? { FiledIsCovered(db, op.p, op.ref, op.lossAt, op.claimed, op.trigger, after); }
    forall c | 0 <= c < |after.claims| ensures Covered(after.policies, after.claims[c]) {
      if c < |db.claims| { CoverLasts(db, after, c); }
    }
  }

  // ------------------------------------------------------------------------------- documents

  /** No claim becomes examined. */
  predicate NoneNewlyExamined(a: seq<Claim>, b: seq<Claim>) {
    forall c :: 0 <= c < |b| && Examined(b[c]) ==> c < |a| && Examined(a[c])
  }

  lemma StillDocumented(a: seq<Claim>, b: seq<Claim>, documents: seq<Document>)
    requires AllDocumented(a, documents) && NoneNewlyExamined(a, b)
    ensures AllDocumented(b, documents)
  {
  }

  lemma OtherClaimOpExaminesNone(db: Database, op: Op)
    requires ClaimOp(op) && !op.AttachDocument? && !op.ApproveSettlement?
    ensures NoneNewlyExamined(db.claims, Step(db, op).claims) && Step(db, op).documents == db.documents
  {
  }

  lemma SettlingExaminesNone(db: Database, op: Op)
    requires op.ApproveSettlement? || op.RecordPayoutReceipt?
    ensures NoneNewlyExamined(db.claims, Step(db, op).claims) && Step(db, op).documents == db.documents
  {
    if Apply(db, op).Ok? {
      if op.ApproveSettlement? { ApproveSettlementEffect(db, op.c, op.principal); }
      else { PayoutReceiptEffect(db, op.external, op.claimRef, op.amount, op.currency); }
    }
  }

  lemma OtherOpKeepsDocuments(db: Database, op: Op)
    requires !ClaimOp(op) && !op.RecordPayoutReceipt?
    ensures Step(db, op).documents == db.documents && Step(db, op).claims == db.claims
  {
    TablesUntouched(db, op);
    if StatusOp(op) { StatusFrame(db, op); }
    else if EndorsementOp(op) { EndorsementFrame(db, op); }
    else if QuoteOp(op) { QuoteFrame(db, op); }
    else { ReceiptFrame(db, op); }
  }

  lemma Attaches(db: Database, c: nat, vaultRef: string, sha256: string, after: Database)
    requires c < |db.claims| && Claims.AttachDocument(db, c, vaultRef, sha256) == Ok(after)
    requires DocumentsOk(db.documents) && AllDocumented(db.claims, db.documents)
    ensures DocumentsOk(after.documents) && AllDocumented(after.claims, after.documents)
  {
    assert after.documents == db.documents + [Document(c, vaultRef, sha256)];
    assert after.documents[|db.documents|].claim == c;
    forall k | 0 <= k < |after.claims| && Examined(after.claims[k]) ensures HasDocument(after.documents, k) {
      if k != c {
        assert HasDocument(db.documents, k);
        var i :| 0 <= i < |db.documents| && db.documents[i].claim == k;
        assert after.documents[i].claim == k;
      }
    }
  }

  lemma StepKeepsDocuments(db: Database, op: Op)
    requires DocumentsOk(db.documents) && AllDocumented(db.claims, db.documents)
    ensures DocumentsOk(Step(db, op).documents) && AllDocumented(Step(db, op).claims, Step(db, op).documents)
  {
    if op.AttachDocument? {
      if Apply(db, op).Ok? { Attaches(db, op.c, op.vaultRef, op.sha256, Step(db, op)); }
    } else {
      if op.ApproveSettlement? || op.RecordPayoutReceipt? { SettlingExaminesNone(db, op); }
      else if ClaimOp(op) { OtherClaimOpExaminesNone(db, op); }
      else { OtherOpKeepsDocuments(db, op); }
      StillDocumented(db.claims, Step(db, op).claims, db.documents);
    }
  }

  lemma StepKeeps(db: Database, op: Op)
    requires Holds(db)
    ensures Holds(Step(db, op))
  {
    StepKeepsCover(db, op);
    StepKeepsDocuments(db, op);
  }
}

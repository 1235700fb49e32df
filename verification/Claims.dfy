/** What each claim operation does to the database (src/insurance/services/claims.py). */
module Claims {
  import opened Wrappers
  import opened Sequences
  import opened Records
  import opened Journals

  /** What a claim contributes to its policy's aggregate. */
  function ClaimedOn(p: nat): Claim -> int {
    (c: Claim) => if c.policy == p && c.status != Refused then c.claimed else 0
  }

  predicate ClaimRefTaken(claims: seq<Claim>, ref: string) {
    exists i :: 0 <= i < |claims| && claims[i].ref == ref
  }

  function NewClaim(p: nat, ref: string, lossAt: int, claimed: int, trigger: string): Claim {
    Claim(ref, p, Fnol, lossAt, trigger, claimed, 0, "", "", "", "", "", "")
  }

  /** file_fnol: cover in force at the loss, and the aggregate cap. */
  function FileFnol(db: Database, p: nat, ref: string, lossAt: int, claimed: int, trigger: string): Result<Database>
    requires p < |db.policies|
  {
    var policy := db.policies[p];
    if policy.status != Active then Err(PolicyNotActive)
    else if !(policy.inceptionAt <= lossAt <= policy.expiryAt) then Err(LossOutsideCover)
    else if claimed <= 0 || claimed > policy.insuredValue then Err(AmountOutOfRange)
    else if Sum(db.claims, ClaimedOn(p)) + claimed > policy.insuredValue then Err(AggregateCapExceeded)
    else if policy.family == FRY && trigger == "" then Err(TriggerRequired)
    else if ClaimRefTaken(db.claims, ref) then Err(ClaimRefExists)
    else if !Auditable(claimed) then Err(NotCanonicalizable)
    else Ok(db.(claims := db.claims + [NewClaim(p, ref, lossAt, claimed, trigger)]))
  }

  predicate IsDigest(s: string) {
    |s| == 64 && forall i :: 0 <= i < |s| ==> '0' <= s[i] <= '9' || 'a' <= s[i] <= 'f'
  }

  predicate DocumentTaken(documents: seq<Document>, c: nat, vaultRef: string) {
    exists i :: 0 <= i < |documents| && documents[i].claim == c && documents[i].vaultRef == vaultRef
  }

  function AttachDocument(db: Database, c: nat, vaultRef: string, sha256: string): Result<Database>
    requires c < |db.claims|
  {
    var claim := db.claims[c];
    if claim.status != Fnol && claim.status != UnderReview then Err(BadState)
    else if !IsDigest(sha256) then Err(MalformedDigest)
    else if DocumentTaken(db.documents, c, vaultRef) then Err(DocumentExists)
    else Ok(db.(documents := db.documents + [Document(c, vaultRef, sha256)],
                claims := db.claims[c := if claim.status == Fnol then claim.(status := UnderReview) else claim]))
  }

  function ProposeAdjuster(db: Database, c: nat, adjuster: string, principal: string): Result<Database>
    requires c < |db.claims|
  {
    var claim := db.claims[c];
    if claim.status != UnderReview then Err(BadState)
    else Ok(db.(claims := db.claims[c := claim.(status := AdjusterPending, adjuster := adjuster,
                                                assignmentProposedBy := principal)]))
  }

  function ConfirmAdjuster(db: Database, c: nat, principal: string): Result<Database>
    requires c < |db.claims|
  {
    var claim := db.claims[c];
    if claim.status != AdjusterPending then Err(BadState)
    else if principal == claim.assignmentProposedBy then Err(DualControlViolation)
    else Ok(db.(claims := db.claims[c := claim.(status := AdjusterAssigned, assignmentConfirmedBy := principal)]))
  }

  function ProposeSettlement(db: Database, c: nat, settled: int, principal: string): Result<Database>
    requires c < |db.claims|
  {
    var claim := db.claims[c];
    if claim.status != AdjusterAssigned then Err(BadState)
    else if principal != claim.adjuster then Err(NotAssignedAdjuster)
    else if settled <= 0 || settled > claim.claimed then Err(AmountOutOfRange)
    else if !Auditable(settled) then Err(NotCanonicalizable)
    else Ok(db.(claims := db.claims[c := claim.(status := SettlementPending, settled := settled,
                                                settlementProposedBy := principal)]))
  }

  function SettlementRef(claimRef: string): string { "settlement:" + claimRef }

  /** approve_settlement: blocked until the premium is received; posts the payable. */
  function ApproveSettlement(db: Database, c: nat, principal: string): Result<Database>
    requires c < |db.claims| && db.claims[c].policy < |db.policies|
  {
    var claim := db.claims[c];
    if claim.status != SettlementPending then Err(BadState)
    else if principal == claim.settlementProposedBy then Err(DualControlViolation)
    else if db.policies[claim.policy].premiumPaidAt.None? then Err(PremiumUnpaid)
    else
      var reference := SettlementRef(claim.ref);
      match Posted(db.journals, reference, Transfer(ClaimsPayable, InsurerClearing, claim.settled))
      case Err(reason) => Err(reason)
      case Ok(journals) =>
        if !Auditable(claim.settled) || !Auditable(claim.claimed) then Err(NotCanonicalizable)
        else
          var settled := claim.(status := Settled, settlementApprovedBy := principal, journal := reference);
          Ok(db.(journals := journals, claims := db.claims[c := settled]))
  }

  function RejectClaim(db: Database, c: nat): Result<Database>
    requires c < |db.claims|
  {
    var claim := db.claims[c];
    if claim.status == Settled || claim.status == Paid || claim.status == Refused then Err(BadState)
    else Ok(db.(claims := db.claims[c := claim.(status := Refused)]))
  }

  function FindClaim(claims: seq<Claim>, ref: string): (r: Option<nat>)
    ensures r.Some? ==> r.value < |claims| && claims[r.value].ref == ref
    ensures r.None? ==> forall k :: 0 <= k < |claims| ==> claims[k].ref != ref
  {
    if claims == [] then None
    else if claims[|claims| - 1].ref == ref then Some(|claims| - 1)
    else FindClaim(claims[..|claims| - 1], ref)
  }

  predicate ExternalTaken(receipts: seq<Receipt>, external: string) {
    exists i :: 0 <= i < |receipts| && receipts[i].external == external
  }

  /** Storing a receipt: its external reference is new and its amount fits the column and its check. */
  function Stored(receipts: seq<Receipt>, r: Receipt): Result<seq<Receipt>> {
    if r.amount < 0 then Err(ReceiptAmountCheck)
    else if !FitsBigint(r.amount) then Err(BigintOutOfRange)
    else if ExternalTaken(receipts, r.external) then Err(ExternalReferenceExists)
    else Ok(receipts + [r])
  }

  /** record_payout_receipt: an exact match pays the claim, anything else is quarantined. */
  function RecordPayoutReceipt(db: Database, external: string, claimRef: string, amount: int,
                               currency: string): Result<Database> {
    match FindClaim(db.claims, claimRef)
    case None => StorePayout(db, Receipt(None, external, amount, currency, Quarantined, ""))
    case Some(c) =>
      var claim := db.claims[c];
      if claim.status != Settled then Err(BadState)
      else if currency != "NGN" || amount != claim.settled then
        StorePayout(db, Receipt(Some(c), external, amount, currency, Quarantined, ""))
      else
        Audited(Auditable(amount) && Auditable(claim.claimed),
                StorePayout(db.(claims := db.claims[c := claim.(status := Paid)]),
                            Receipt(Some(c), external, amount, currency, Applied, "")))
  }

  /** A call that has stored its receipt is undone when one of its events cannot be written. */
  function Audited(writable: bool, stored: Result<Database>): Result<Database> {
    if stored.Ok? && !writable then Err(NotCanonicalizable) else stored
  }

  function StorePayout(db: Database, r: Receipt): Result<Database> {
    match Stored(db.payoutReceipts, r)
    case Err(reason) => Err(reason)
    case Ok(receipts) => Ok(db.(payoutReceipts := receipts))
  }
}

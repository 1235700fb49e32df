/** The rows of the insurance database (src/insurance/models.py) and the database as a value. */
module Records {
  import opened Wrappers

  /** products.kind, which the database restricts to these five (ck_product_kind). */
  datatype ProductKind = MarineCargoSingle | MarineCargoOpen | FerryParametric | ProtectionIndemnity | Hull

  datatype Family = CRG | FRY | PRT | HUL

  datatype QuoteStatus = Quoted | BindPending | Bound | Issued | Declined | Expired

  /** A quote; lineValues are the insured values in its rating trace. */
  datatype Quote = Quote(
    ref: string, kind: ProductKind, status: QuoteStatus, premium: int, lineValues: seq<int>,
    expiresAt: int, bindRequestedBy: string, boundBy: string, journal: string)

  datatype Decision = Bind | Decline

  datatype BindDecision = BindDecision(quote: nat, decision: Decision, decidedBy: string)

  datatype PolicyStatus = Active | Suspended | Lapsed | Cancelled

  datatype Policy = Policy(
    number: string, quote: nat, family: Family, year: int, sequence: nat, status: PolicyStatus,
    premium: int, insuredValue: int, statusIndex: nat, inceptionAt: int, expiryAt: int,
    premiumPaidAt: Option<int>)

  datatype EndorsementStatus = Proposed | Approved | Rejected

  datatype Endorsement = Endorsement(
    policy: nat, no: nat, delta: int, status: EndorsementStatus, journal: string,
    createdBy: string, approvedBy: string)

  datatype ClaimStatus =
    | Fnol | UnderReview | AdjusterPending | AdjusterAssigned
    | SettlementPending | Settled | Paid | Refused

  datatype Claim = Claim(
    ref: string, policy: nat, status: ClaimStatus, lossAt: int, trigger: string, claimed: int, settled: int,
    adjuster: string,
    assignmentProposedBy: string, assignmentConfirmedBy: string,
    settlementProposedBy: string, settlementApprovedBy: string, journal: string)

  datatype Document = Document(claim: nat, vaultRef: string, sha256: string)

  datatype ReceiptStatus = Applied | Quarantined

  /** A payment receipt for an owner: a policy's premium or a claim's payout. */
  datatype Receipt = Receipt(owner: Option<nat>, external: string, amount: int, currency: string,
                             status: ReceiptStatus, journal: string)

  datatype Account = ClaimsPayable | InsurerClearing | PremiumIncome | PremiumReceivable

  datatype Leg = Leg(account: Account, debit: int, credit: int)

  /** A journal with its ledger entries. */
  datatype Journal = Journal(reference: string, legs: seq<Leg>)

  datatype Purpose = Revocation | Suspension

  /** A published status list: its purpose and its raw bytes. */
  datatype Snapshot = Snapshot(purpose: Purpose, bytes: seq<bv8>)

  /** The committed database; rows refer to one another by position. */
  datatype Database = Database(
    quotes: seq<Quote>, decisions: seq<BindDecision>, counters: map<(Family, int), nat>,
    policies: seq<Policy>, endorsements: seq<Endorsement>, claims: seq<Claim>, documents: seq<Document>,
    premiumReceipts: seq<Receipt>, payoutReceipts: seq<Receipt>,
    journals: seq<Journal>, snapshots: seq<Snapshot>)

  function EmptyDatabase(): Database {
    Database([], [], map[], [], [], [], [], [], [], [], [])
  }

  const MAX_BIGINT := 9_223_372_036_854_775_807

  /** What a BIGINT column holds. */
  predicate FitsBigint(x: int) { -MAX_BIGINT - 1 <= x <= MAX_BIGINT }

  /** What an INTEGER column holds, of numbers counted up from one. */
  predicate FitsInteger(n: nat) { n <= 2_147_483_647 }

  /**
   * Amounts an event can carry. Every call ends by recording an audit event, and many also sign an event for the
   * outbox, in the same transaction; the canonicaliser refuses integers beyond 2^53 - 1, which undoes the call.
   */
  predicate Auditable(x: int) { -9_007_199_254_740_991 <= x <= 9_007_199_254_740_991 }

  /** A policy whose signed events have a canonical text: they carry its premium and its insured value. */
  predicate Publishable(policy: Policy) { Auditable(policy.premium) && Auditable(policy.insuredValue) }
}

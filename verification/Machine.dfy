/** Every operation of the service as one committed transaction, and runs of them from the empty database. */
module Machine {
  import opened Wrappers
  import opened Records
  import Lifecycle
  import Claims
  import Premiums
  import Rating

  datatype Op =
    | CreateQuote(ref: string, kind: ProductKind, table: Rating.RateTable, lines: seq<Rating.Line>, routeBp: int,
                  trace: Rating.Trace, now: int, validity: int)
    | RequestBind(q: nat, principal: string, now: int)
    | DecideBind(q: nat, decision: Decision, principal: string)
    | IssuePolicy(q: nat, inceptionAt: int, expiryAt: int, year: int, now: int)
    | AddEndorsement(p: nat, delta: int, principal: string)
    | ApproveEndorsement(p: nat, no: nat, principal: string)
    | RejectEndorsement(p: nat, no: nat, principal: string)
    | CancelOrLapse(p: nat, newStatus: PolicyStatus)
    | SuspendPolicy(p: nat)
    | ReinstatePolicy(p: nat)
    | LapseSweep(now: int, batch: nat, picked: seq<nat>)
    | RecordPremiumReceipt(external: string, number: string, amount: int, currency: string, now: int)
    | FileFnol(p: nat, ref: string, lossAt: int, claimed: int, trigger: string)
    | AttachDocument(c: nat, vaultRef: string, sha256: string)
    | ProposeAdjuster(c: nat, adjuster: string, principal: string)
    | ConfirmAdjuster(c: nat, principal: string)
    | ProposeSettlement(c: nat, settled: int, principal: string)
    | ApproveSettlement(c: nat, principal: string)
    | RejectClaim(c: nat)
    | RecordPayoutReceipt(external: string, claimRef: string, amount: int, currency: string)

  function NotFound(): Result<Database> { Err(NoSuchRow) }

  /** A call about a quote. A row that does not exist is a 404. */
  ghost function OnQuote(db: Database, op: Op): Result<Database> {
    match op
    case CreateQuote(ref, kind, table, lines, routeBp, trace, now, validity) =>
      if Rating.IsRating(table, lines, routeBp, trace)
        then Lifecycle.CreateQuote(db, ref, kind, Ok(trace), now, validity)
      else Err(NotRated)
    case RequestBind(q, principal, now) =>
      if q < |db.quotes| then Lifecycle.RequestBind(db, q, principal, now) else NotFound()
    case DecideBind(q, decision, principal) =>
      if q < |db.quotes| then Lifecycle.DecideBind(db, q, decision, principal) else NotFound()
    case IssuePolicy(q, inceptionAt, expiryAt, year, now) =>
      if q < |db.quotes| then Lifecycle.IssuePolicy(db, q, inceptionAt, expiryAt, year, now) else NotFound()
    case _ => NotFound()
  }

  ghost function OnEndorsement(db: Database, op: Op): Result<Database> {
    match op
    case AddEndorsement(p, delta, principal) =>
      if p < |db.policies| then Lifecycle.AddEndorsement(db, p, delta, principal) else NotFound()
    case ApproveEndorsement(p, no, principal) =>
      if p < |db.policies| then Lifecycle.ApproveEndorsement(db, p, no, principal) else NotFound()
    case RejectEndorsement(p, no, principal) =>
      if p < |db.policies| then Lifecycle.RejectEndorsement(db, p, no, principal) else NotFound()
    case _ => NotFound()
  }

  ghost function OnStatus(db: Database, op: Op): Result<Database> {
    match op
    case CancelOrLapse(p, newStatus) =>
      if p < |db.policies| then Lifecycle.CancelOrLapse(db, p, newStatus) else NotFound()
    case SuspendPolicy(p) => if p < |db.policies| then Lifecycle.SuspendPolicy(db, p) else NotFound()
    case ReinstatePolicy(p) => if p < |db.policies| then Lifecycle.ReinstatePolicy(db, p) else NotFound()
    case LapseSweep(now, batch, picked) =>
      if Lifecycle.IsSweepSelection(db.policies, now, batch, picked) then Lifecycle.LapseSweep(db, picked)
        else NotFound()
    case _ => NotFound()
  }

  ghost function OnReceipt(db: Database, op: Op): Result<Database> {
    match op
    case RecordPremiumReceipt(external, number, amount, currency, now) =>
      Premiums.RecordPremiumReceipt(db, external, number, amount, currency, now)
    case RecordPayoutReceipt(external, claimRef, amount, currency) =>
      Claims.RecordPayoutReceipt(db, external, claimRef, amount, currency)
    case _ => NotFound()
  }

  ghost function OnClaim(db: Database, op: Op): Result<Database> {
    match op
    case FileFnol(p, ref, lossAt, claimed, trigger) =>
      if p < |db.policies| then Claims.FileFnol(db, p, ref, lossAt, claimed, trigger) else NotFound()
    case AttachDocument(c, vaultRef, sha256) =>
      if c < |db.claims| then Claims.AttachDocument(db, c, vaultRef, sha256) else NotFound()
    case ProposeAdjuster(c, adjuster, principal) =>
      if c < |db.claims| then Claims.ProposeAdjuster(db, c, adjuster, principal) else NotFound()
    case ConfirmAdjuster(c, principal) =>
      if c < |db.claims| then Claims.ConfirmAdjuster(db, c, principal) else NotFound()
    case ProposeSettlement(c, settled, principal) =>
      if c < |db.claims| then Claims.ProposeSettlement(db, c, settled, principal) else NotFound()
    case ApproveSettlement(c, principal) =>
      if c < |db.claims| && db.claims[c].policy < |db.policies| then Claims.ApproveSettlement(db, c, principal)
        else NotFound()
    case RejectClaim(c) => if c < |db.claims| then Claims.RejectClaim(db, c) else NotFound()
    case _ => NotFound()
  }

  predicate QuoteOp(op: Op) { op.CreateQuote? || op.RequestBind? || op.DecideBind? || op.IssuePolicy? }

  predicate EndorsementOp(op: Op) { op.AddEndorsement? || op.ApproveEndorsement? || op.RejectEndorsement? }

  predicate StatusOp(op: Op) { op.CancelOrLapse? || op.SuspendPolicy? || op.ReinstatePolicy? || op.LapseSweep? }

  predicate ReceiptOp(op: Op) { op.RecordPremiumReceipt? || op.RecordPayoutReceipt? }

  predicate ClaimOp(op: Op) { !QuoteOp(op) && !EndorsementOp(op) && !StatusOp(op) && !ReceiptOp(op) }

  /** One call: the new database, or the reason it was refused. */
  ghost function Apply(db: Database, op: Op): Result<Database> {
    if QuoteOp(op) then OnQuote(db, op)
    else if EndorsementOp(op) then OnEndorsement(db, op)
    else if StatusOp(op) then OnStatus(db, op)
    else if ReceiptOp(op) then OnReceipt(db, op)
    else OnClaim(db, op)
  }

  /** A refused call is rolled back. */
  ghost function Step(db: Database, op: Op): Database {
    match Apply(db, op)
    case Ok(after) => after
    case Err(_) => db
  }

  /** The database after any sequence of calls, starting empty. */
  ghost function Run(ops: seq<Op>): Database {
    if ops == [] then EmptyDatabase() else Step(Run(ops[..|ops| - 1]), ops[|ops| - 1])
  }
}

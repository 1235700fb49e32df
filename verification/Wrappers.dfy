/** Optional values and the outcome of a call: a value, or the reason it was refused. */
module Wrappers {

  datatype Option<+T> = None | Some(value: T)

  /** The reasons a call is refused: the service's own error codes and the database constraints. */
  datatype Reason =
    | AggregateCapExceeded | AmountOutOfRange | AuditHashTaken | BackdatedInception | BadState | BadStatus
    | BadWindow | BigintOutOfRange | CheckDigitMismatch | ClaimRefExists | DecisionExists | DocumentExists
    | DualControlViolation | EventTypeMismatch | ExternalReferenceExists | IllegalLeg | IndexOutOfRange
    | IntegerOutOfRange
    | InvalidFamilyCode | InvalidSignature | InvalidSize | InvalidYear | JournalReferenceExists
    | LossOutsideCover | MalformedDigest | MalformedEnvelope | MalformedInput | MalformedJws
    | MalformedPolicyNumber | MalformedProof | NegativeRate | NoEffectiveRateTable | NoLines | NoProvenance
    | NoSuchRow | NonpositiveValue | NotAssignedAdjuster | NotCanonicalizable | NotInAlphabet | NotRated
    | PayloadMismatch | PolicyKeyExists | PolicyNotActive | PolicyValueCheck | PremiumUnpaid | QuoteExpired
    | QuoteExpiryCheck | QuotePremiumCheck | QuoteRefExists | RateOutOfRange | RateTableMalformed
    | RateWindowCheck | RateWindowOverlap | ReceiptAmountCheck | ResourceTypeMismatch | RouteRiskMalformed
    | SequenceOutOfRange | StatusListExhausted | TooFewLegs | TriggerRequired | UnbalancedJournal
    | UnknownEndorsement | UnknownEventType | UnknownKey | UnratedRiskClass | UnsupportedAlgorithm
    | UnsupportedCurrency | ValueOutOfRange | ZeroAmountJournal

  datatype Result<+T> = Ok(value: T) | Err(reason: Reason)
}

/** The accepted outcomes of the operations that post journals, with the posting worked out. */
module Effects {
  import opened Wrappers
  import opened Records
  import opened Journals
  import Lifecycle
  import Claims
  import Premiums

  lemma PostedAppends(journals: seq<Journal>, reference: string, legs: seq<Leg>)
    requires Posted(journals, reference, legs).Ok?
    ensures Posted(journals, reference, legs).value == journals + [Journal(reference, legs)]
    ensures !ReferenceTaken(journals, reference)
  {
  }

  function BoundQuote(quote: Quote, principal: string): Quote {
    quote.(status := Bound, boundBy := principal,
           journal := if quote.premium <= 0 then quote.journal else Lifecycle.PremiumBindRef(quote.ref))
  }

  function BindJournal(quote: Quote): Journal {
    Journal(Lifecycle.PremiumBindRef(quote.ref), Transfer(PremiumReceivable, PremiumIncome, quote.premium))
  }

  lemma DecideBindEffect(db: Database, q: nat, decision: Decision, principal: string)
    requires q < |db.quotes| && Lifecycle.DecideBind(db, q, decision, principal).Ok?
    ensures var quote := db.quotes[q];
            && quote.status == BindPending && principal != quote.bindRequestedBy
               && !Lifecycle.DecisionTaken(db.decisions, q)
            && Lifecycle.DecideBind(db, q, decision, principal).value
               == db.(decisions := db.decisions + [BindDecision(q, decision, principal)],
                      quotes := db.quotes[q := if decision == Decline then quote.(status := Declined)
                                          else BoundQuote(quote, principal)],
                      journals := if decision == Decline || quote.premium <= 0 then db.journals
                        else db.journals + [BindJournal(quote)])
            && (decision == Bind && quote.premium > 0 ==> !ReferenceTaken(db.journals, BindJournal(quote).reference))
  {
    var quote := db.quotes[q];
    var posted := Posted(db.journals, Lifecycle.PremiumBindRef(quote.ref),
                         Transfer(PremiumReceivable, PremiumIncome, quote.premium));
    if posted.Ok? {
      PostedAppends(db.journals, Lifecycle.PremiumBindRef(quote.ref),
                    Transfer(PremiumReceivable, PremiumIncome, quote.premium));
    }
  }

  function EndorsementJournal(policy: Policy, e: Endorsement): Journal {
    Journal(Lifecycle.EndorsementRef(policy.number, e.no), Lifecycle.DeltaLegs(e.delta))
  }

  function ApprovedEndorsement(policy: Policy, e: Endorsement, principal: string): Endorsement {
    e.(status := Approved, approvedBy := principal,
       journal := if e.delta == 0 then e.journal else Lifecycle.EndorsementRef(policy.number, e.no))
  }

  lemma ApproveEndorsementEffect(db: Database, p: nat, no: nat, principal: string)
    requires p < |db.policies| && Lifecycle.ApproveEndorsement(db, p, no, principal).Ok?
    ensures Lifecycle.FindEndorsement(db.endorsements, p, no).Some?
    ensures var k := Lifecycle.FindEndorsement(db.endorsements, p, no).value;
            var e := db.endorsements[k];
            var policy := db.policies[p];
            && e.status == Proposed && principal != e.createdBy
            && (e.delta != 0 ==> policy.premium + e.delta >= 0)
            && Publishable(policy.(premium := policy.premium + e.delta))
            && Lifecycle.ApproveEndorsement(db, p, no, principal).value
               == db.(endorsements := db.endorsements[k := ApprovedEndorsement(policy, e, principal)],
                      policies := if e.delta == 0 then db.policies
                        else db.policies[p := policy.(premium := policy.premium + e.delta)],
                      journals := if e.delta == 0 then db.journals else db.journals + [EndorsementJournal(policy, e)])
            && (e.delta != 0 ==> !ReferenceTaken(db.journals, EndorsementJournal(policy, e).reference))
  {
    var e := db.endorsements[Lifecycle.FindEndorsement(db.endorsements, p, no).value];
    var reference := Lifecycle.EndorsementRef(db.policies[p].number, e.no);
    if Posted(db.journals, reference, Lifecycle.DeltaLegs(e.delta)).Ok? {
      PostedAppends(db.journals, reference, Lifecycle.DeltaLegs(e.delta));
    }
  }

  lemma StoredAppends(receipts: seq<Receipt>, r: Receipt)
    requires Claims.Stored(receipts, r).Ok?
    ensures Claims.Stored(receipts, r).value == receipts + [r] && r.amount >= 0
            && !Claims.ExternalTaken(receipts, r.external)
  {
  }

  /** What an accepted premium receipt does: nothing but a quarantined row, or payment of the policy it names. */
  predicate PremiumApplies(policy: Policy, amount: int, currency: string) {
    policy.premiumPaidAt.None? && currency == "NGN" && amount == policy.premium
  }

  function PremiumReceiptRow(policies: seq<Policy>, external: string, number: string, amount: int,
                             currency: string): Receipt {
    match Premiums.FindPolicy(policies, number)
    case None => Receipt(None, external, amount, currency, Quarantined, "")
    case Some(p) =>
      if !PremiumApplies(policies[p], amount, currency)
        then Receipt(Some(p), external, amount, currency, Quarantined, "")
      else Receipt(Some(p), external, amount, currency, Applied, if amount <= 0 then ""
                   else Premiums.PremiumReceiptRef(number))
  }

  function ReceiptJournal(number: string, amount: int): Journal {
    Journal(Premiums.PremiumReceiptRef(number), Transfer(InsurerClearing, PremiumReceivable, amount))
  }

  lemma PremiumReceiptEffect(db: Database, external: string, number: string, amount: int, currency: string, now: int)
    requires Premiums.RecordPremiumReceipt(db, external, number, amount, currency, now).Ok?
    ensures var row := PremiumReceiptRow(db.policies, external, number, amount, currency);
            && amount >= 0 && !Claims.ExternalTaken(db.premiumReceipts, external)
            && (row.status == Applied ==> Auditable(amount))
            && (row.status == Applied ==> row.owner.Some? && row.owner.value < |db.policies|)
            && (row.status == Applied ==>
                  db.policies[row.owner.value].status == Active || db.policies[row.owner.value].status == Suspended)
            && Premiums.RecordPremiumReceipt(db, external, number, amount, currency, now).value
               == db.(premiumReceipts := db.premiumReceipts + [row],
                      policies := if row.status == Quarantined then db.policies
                                  else db.policies[row.owner.value :=
                                                      db.policies[row.owner.value].(premiumPaidAt := Some(now))],
                      journals := if row.journal == "" then db.journals
                        else db.journals + [ReceiptJournal(number, amount)])
            && (row.journal != "" ==> !ReferenceTaken(db.journals, ReceiptJournal(number, amount).reference))
  {
    var row := PremiumReceiptRow(db.policies, external, number, amount, currency);
    if Claims.Stored(db.premiumReceipts, row).Ok? { StoredAppends(db.premiumReceipts, row); }
    var legs := Transfer(InsurerClearing, PremiumReceivable, amount);
    if Posted(db.journals, Premiums.PremiumReceiptRef(number), legs).Ok? {
      PostedAppends(db.journals, Premiums.PremiumReceiptRef(number), legs);
    }
  }

  function SettledClaim(claim: Claim, principal: string): Claim {
    claim.(status := Settled, settlementApprovedBy := principal, journal := Claims.SettlementRef(claim.ref))
  }

  function SettlementJournal(claim: Claim): Journal {
    Journal(Claims.SettlementRef(claim.ref), Transfer(ClaimsPayable, InsurerClearing, claim.settled))
  }

  lemma ApproveSettlementEffect(db: Database, c: nat, principal: string)
    requires c < |db.claims| && db.claims[c].policy < |db.policies| && Claims.ApproveSettlement(db, c, principal).Ok?
    ensures var claim := db.claims[c];
            && claim.status == SettlementPending && principal != claim.settlementProposedBy
            && db.policies[claim.policy].premiumPaidAt.Some?
            && Claims.ApproveSettlement(db, c, principal).value
               == db.(claims := db.claims[c := SettledClaim(claim, principal)],
                      journals := db.journals + [SettlementJournal(claim)])
            && !ReferenceTaken(db.journals, SettlementJournal(claim).reference)
  {
    var claim := db.claims[c];
    PostedAppends(db.journals, Claims.SettlementRef(claim.ref),
                  Transfer(ClaimsPayable, InsurerClearing, claim.settled));
  }

  predicate PayoutApplies(claim: Claim, amount: int, currency: string) {
    currency == "NGN" && amount == claim.settled
  }

  function PayoutRow(claims: seq<Claim>, external: string, claimRef: string, amount: int, currency: string): Receipt {
    match Claims.FindClaim(claims, claimRef)
    case None => Receipt(None, external, amount, currency, Quarantined, "")
    case Some(c) =>
      Receipt(Some(c), external, amount, currency, if PayoutApplies(claims[c], amount, currency) then Applied
              else Quarantined, "")
  }

  lemma PayoutReceiptEffect(db: Database, external: string, claimRef: string, amount: int, currency: string)
    requires Claims.RecordPayoutReceipt(db, external, claimRef, amount, currency).Ok?
    ensures var row := PayoutRow(db.claims, external, claimRef, amount, currency);
            && amount >= 0 && !Claims.ExternalTaken(db.payoutReceipts, external)
            && (row.owner.Some? ==> row.owner.value < |db.claims| && db.claims[row.owner.value].status == Settled)
            && Claims.RecordPayoutReceipt(db, external, claimRef, amount, currency).value
               == db.(payoutReceipts := db.payoutReceipts + [row],
                      claims := if row.status == Quarantined then db.claims
                                else db.claims[row.owner.value := db.claims[row.owner.value].(status := Paid)])
  {
    var row := PayoutRow(db.claims, external, claimRef, amount, currency);
    if Claims.Stored(db.payoutReceipts, row).Ok? { StoredAppends(db.payoutReceipts, row); }
  }
}

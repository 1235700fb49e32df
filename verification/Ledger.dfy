/** The four account balances equal sums over entity states in every reachable database. */
module Ledger {
  import opened Wrappers
  import opened Sequences
  import opened Records
  import opened Journals
  import Lifecycle
  import Claims
  import Premiums
  import opened Machine
  import opened Effects
  import opened Frames
  import Quotes = QuoteInvariants
  import Policies = PolicyInvariants
  import ClaimRows = ClaimInvariants

  function BoundPremium(): Quote -> int { (q: Quote) => if q.status == Bound then q.premium else 0 }

  function PolicyPremium(): Policy -> int { (p: Policy) => p.premium }

  function AppliedAmount(): Receipt -> int { (r: Receipt) => if r.status == Applied then r.amount else 0 }

  function SettledAmount(): Claim -> int { (c: Claim) => if ClaimRows.IsSettled(c) then c.settled else 0 }

  /** Premium recognised: on bound quotes still to be issued, and on policies. */
  function Recognised(db: Database): int { Sum(db.quotes, BoundPremium()) + Sum(db.policies, PolicyPremium()) }

  function Received(db: Database): int { Sum(db.premiumReceipts, AppliedAmount()) }

  function SettledTotal(db: Database): int { Sum(db.claims, SettledAmount()) }

  /** What each account's net debit must be. */
  function Expected(db: Database, account: Account): int {
    match account
    case PremiumIncome => -Recognised(db)
    case PremiumReceivable => Recognised(db) - Received(db)
    case ClaimsPayable => SettledTotal(db)
    case InsurerClearing => Received(db) - SettledTotal(db)
  }

  predicate AllBalanced(journals: seq<Journal>) { forall i :: 0 <= i < |journals| ==> Balanced(journals[i]) }

  predicate InBooks(db: Database, account: Account) { Balance(db.journals, account) == Expected(db, account) }

  predicate Holds(db: Database) {
    && InBooks(db, PremiumIncome) && InBooks(db, PremiumReceivable)
    && InBooks(db, ClaimsPayable) && InBooks(db, InsurerClearing) && AllBalanced(db.journals)
  }

  // ---------------------------------------------------------------------- totals that stay put

  lemma PremiumsUnchanged(a: seq<Policy>, b: seq<Policy>)
    requires TermsKept(a, b)
    ensures Sum(a, PolicyPremium()) == Sum(b, PolicyPremium())
  {
    forall i | 0 <= i < |a| ensures PolicyPremium()(a[i]) == PolicyPremium()(b[i]) { assert SameTerms(a[i], b[i]); }
    SumSame(a, b, PolicyPremium());
  }

  lemma ClaimReplacedKeepsTotal(claims: seq<Claim>, c: nat, claim: Claim)
    requires c < |claims| && SettledAmount()(claims[c]) == SettledAmount()(claim)
    ensures Sum(claims[c := claim], SettledAmount()) == Sum(claims, SettledAmount())
  {
    SumUpdate(claims, c, claim, SettledAmount());
  }

  lemma FilingKeepsTotal(db: Database, op: Op)
    requires op.FileFnol?
    ensures SettledTotal(Step(db, op)) == SettledTotal(db)
  {
    if Apply(db, op).Ok? { SumSnoc(db.claims, Step(db, op).claims[|db.claims|], SettledAmount()); }
  }

  lemma AssignmentKeepsTotal(db: Database, op: Op)
    requires op.AttachDocument? || op.ProposeAdjuster? || op.ConfirmAdjuster?
    ensures SettledTotal(Step(db, op)) == SettledTotal(db)
  {
    if Apply(db, op).Ok? { ClaimReplacedKeepsTotal(db.claims, op.c, Step(db, op).claims[op.c]); }
  }

  lemma ClaimOpKeepsTotal(db: Database, op: Op)
    requires ClaimOp(op) && !op.ApproveSettlement?
    ensures SettledTotal(Step(db, op)) == SettledTotal(db)
  {
    if op.FileFnol? { FilingKeepsTotal(db, op); }
    else if op.AttachDocument? || op.ProposeAdjuster? || op.ConfirmAdjuster? { AssignmentKeepsTotal(db, op); }
    else if Apply(db, op).Ok? { ClaimReplacedKeepsTotal(db.claims, op.c, Step(db, op).claims[op.c]); }
  }

  lemma PayoutKeepsTotal(db: Database, op: Op)
    requires op.RecordPayoutReceipt?
    ensures SettledTotal(Step(db, op)) == SettledTotal(db)
  {
    if Apply(db, op).Ok? {
      PayoutReceiptEffect(db, op.external, op.claimRef, op.amount, op.currency);
      var row := PayoutRow(db.claims, op.external, op.claimRef, op.amount, op.currency);
      if row.status == Applied {
        SumUpdate(db.claims, row.owner.value, db.claims[row.owner.value].(status := Paid), SettledAmount());
      }
    }
  }

  lemma QuoteOpKeepsTotal(db: Database, op: Op)
    requires op.CreateQuote? || op.RequestBind? || op.IssuePolicy?
    ensures Recognised(Step(db, op)) == Recognised(db)
  {
    if Apply(db, op).Ok? {
      var after := Step(db, op);
      if op.CreateQuote? { SumSnoc(db.quotes, after.quotes[|db.quotes|], BoundPremium()); }
      else if op.RequestBind? { SumUpdate(db.quotes, op.q, after.quotes[op.q], BoundPremium()); }
      else { IssueKeepsTotal(db, op); }
    }
  }

  /** Issuing moves the premium from the bound quote to its policy. */
  lemma IssueKeepsTotal(db: Database, op: Op)
    requires op.IssuePolicy? && Apply(db, op).Ok?
    ensures Recognised(Step(db, op)) == Recognised(db)
  {
    Policies.IssuePolicyEffect(db, op);
    SumUpdate(db.quotes, op.q, db.quotes[op.q].(status := Issued), BoundPremium());
    SumSnoc(db.policies, Step(db, op).policies[|db.policies|], PolicyPremium());
  }

  /** A call that posts nothing changes no total. */
  lemma QuietTotals(db: Database, op: Op)
    requires !Posts(op)
    ensures Recognised(Step(db, op)) == Recognised(db) && SettledTotal(Step(db, op)) == SettledTotal(db)
    ensures Received(Step(db, op)) == Received(db) && Step(db, op).journals == db.journals
  {
    TablesUntouched(db, op);
    if QuoteOp(op) { QuoteOpKeepsTotal(db, op); }
    else if ClaimOp(op) { ClaimOpKeepsTotal(db, op); }
    else if op.RecordPayoutReceipt? { PayoutKeepsTotal(db, op); }
    if !op.IssuePolicy? { PremiumsUnchanged(db.policies, Step(db, op).policies); }
  }

  lemma SameTotalsKeep(db: Database, after: Database)
    requires Holds(db) && Recognised(after) == Recognised(db) && SettledTotal(after) == SettledTotal(db)
    requires Received(after) == Received(db) && after.journals == db.journals
    ensures Holds(after)
  {
  }

  lemma QuietOpKeeps(db: Database, op: Op)
    requires Holds(db) && !Posts(op)
    ensures Holds(Step(db, op))
  {
    QuietTotals(db, op);
    SameTotalsKeep(db, Step(db, op));
  }

  // ------------------------------------------------------------------------ posting operations

  /** How much one posted transfer moves an account. */
  function Moves(account: Account, debited: Account, credited: Account, amount: int): int {
    if account == debited then amount else if account == credited then -amount else 0
  }

  predicate ExpectationMoves(db: Database, after: Database, debited: Account, credited: Account, amount: int) {
    && Expected(after, PremiumIncome) == Expected(db, PremiumIncome) + Moves(PremiumIncome, debited, credited, amount)
    && Expected(after, PremiumReceivable) == Expected(db, PremiumReceivable)
       + Moves(PremiumReceivable, debited, credited, amount)
    && Expected(after, ClaimsPayable) == Expected(db, ClaimsPayable) + Moves(ClaimsPayable, debited, credited, amount)
    && Expected(after, InsurerClearing) == Expected(db, InsurerClearing)
       + Moves(InsurerClearing, debited, credited, amount)
  }

  lemma TransferIsBalanced(reference: string, debited: Account, credited: Account, amount: int)
    ensures Balanced(Journal(reference, Transfer(debited, credited, amount)))
  {
    SumOfTwo(Leg(debited, amount, 0), Leg(credited, 0, amount), Debit());
    SumOfTwo(Leg(debited, amount, 0), Leg(credited, 0, amount), Credit());
  }

  /** A transfer posted for exactly the change in expectations keeps the books right. */
  lemma TransferKeeps(db: Database, after: Database, reference: string, debited: Account, credited: Account,
                      amount: int)
    requires Holds(db) && debited != credited && ExpectationMoves(db, after, debited, credited, amount)
    requires after.journals == db.journals + [Journal(reference, Transfer(debited, credited, amount))]
    ensures Holds(after)
  {
    BalanceAfterTransfer(db.journals, reference, debited, credited, amount, PremiumIncome);
    BalanceAfterTransfer(db.journals, reference, debited, credited, amount, PremiumReceivable);
    BalanceAfterTransfer(db.journals, reference, debited, credited, amount, ClaimsPayable);
    BalanceAfterTransfer(db.journals, reference, debited, credited, amount, InsurerClearing);
    TransferIsBalanced(reference, debited, credited, amount);
  }

  /** Recognising more premium, on a quote or on a policy, is a transfer from receivable to income. */
  lemma RecognitionMoves(db: Database, after: Database, amount: int)
    requires Recognised(after) == Recognised(db) + amount && Received(after) == Received(db)
             && SettledTotal(after) == SettledTotal(db)
    ensures ExpectationMoves(db, after, PremiumReceivable, PremiumIncome, amount)
    ensures ExpectationMoves(db, after, PremiumIncome, PremiumReceivable, 0 - amount)
  {
  }

  lemma DecisionRecognises(db: Database, q: nat, decision: Decision, principal: string, after: Database)
    requires q < |db.quotes| && Lifecycle.DecideBind(db, q, decision, principal) == Ok(after)
    ensures Recognised(after) == Recognised(db) + if decision == Bind then db.quotes[q].premium else 0
    ensures Received(after) == Received(db) && SettledTotal(after) == SettledTotal(db)
  {
    DecideBindEffect(db, q, decision, principal);
    SumUpdate(db.quotes, q, after.quotes[q], BoundPremium());
  }

  lemma DecideBindKeeps(db: Database, q: nat, decision: Decision, principal: string, after: Database)
    requires Holds(db) && Quotes.Holds(db) && q < |db.quotes|
             && Lifecycle.DecideBind(db, q, decision, principal) == Ok(after)
    ensures Holds(after)
  {
    DecisionRecognises(db, q, decision, principal, after);
    DecideBindEffect(db, q, decision, principal);
    var quote := db.quotes[q];
    assert Quotes.QuoteOk(quote);
    if decision == Bind && quote.premium > 0 {
      RecognitionMoves(db, after, quote.premium);
      TransferKeeps(db, after, Lifecycle.PremiumBindRef(quote.ref), PremiumReceivable, PremiumIncome, quote.premium);
    }
  }

  lemma ApprovalRecognises(db: Database, p: nat, no: nat, principal: string, after: Database)
    requires p < |db.policies| && Lifecycle.ApproveEndorsement(db, p, no, principal) == Ok(after)
    ensures Lifecycle.FindEndorsement(db.endorsements, p, no).Some?
    ensures var e := db.endorsements[Lifecycle.FindEndorsement(db.endorsements, p, no).value];
            && Recognised(after) == Recognised(db) + e.delta
            && Received(after) == Received(db) && SettledTotal(after) == SettledTotal(db)
  {
    ApproveEndorsementEffect(db, p, no, principal);
    var e := db.endorsements[Lifecycle.FindEndorsement(db.endorsements, p, no).value];
    SumUpdate(db.policies, p, db.policies[p].(premium := db.policies[p].premium + e.delta), PolicyPremium());
  }

  lemma DeltaKeeps(db: Database, after: Database, reference: string, delta: int)
    requires Holds(db) && Recognised(after) == Recognised(db) + delta
    requires Received(after) == Received(db) && SettledTotal(after) == SettledTotal(db)
    requires after.journals == if delta == 0 then db.journals
             else db.journals + [Journal(reference, Lifecycle.DeltaLegs(delta))]
    ensures Holds(after)
  {
    RecognitionMoves(db, after, delta);
    if delta > 0 { TransferKeeps(db, after, reference, PremiumReceivable, PremiumIncome, delta); }
    else if delta < 0 { TransferKeeps(db, after, reference, PremiumIncome, PremiumReceivable, 0 - delta); }
  }

  lemma ApproveEndorsementKeeps(db: Database, p: nat, no: nat, principal: string, after: Database)
    requires Holds(db) && p < |db.policies| && Lifecycle.ApproveEndorsement(db, p, no, principal) == Ok(after)
    ensures Holds(after)
  {
    ApprovalRecognises(db, p, no, principal, after);
    ApproveEndorsementEffect(db, p, no, principal);
    var e := db.endorsements[Lifecycle.FindEndorsement(db.endorsements, p, no).value];
    DeltaKeeps(db, after, Lifecycle.EndorsementRef(db.policies[p].number, e.no), e.delta);
  }

  lemma ReceiptMoves(db: Database, external: string, number: string, amount: int, currency: string, now: int,
                     after: Database)
    requires Premiums.RecordPremiumReceipt(db, external, number, amount, currency, now) == Ok(after)
    ensures Recognised(after) == Recognised(db) && SettledTotal(after) == SettledTotal(db)
    ensures var row := PremiumReceiptRow(db.policies, external, number, amount, currency);
            Received(after) == Received(db) + if row.status == Applied then amount else 0
  {
    PremiumReceiptEffect(db, external, number, amount, currency, now);
    var row := PremiumReceiptRow(db.policies, external, number, amount, currency);
    SumSnoc(db.premiumReceipts, row, AppliedAmount());
    if row.status == Applied {
      var p := row.owner.value;
      SumUpdate(db.policies, p, db.policies[p].(premiumPaidAt := Some(now)), PolicyPremium());
    }
  }

  /** A receipt posts exactly when it is applied and carries money. */
  lemma ReceiptPosts(db: Database, external: string, number: string, amount: int, currency: string, now: int,
                     after: Database)
    requires Premiums.RecordPremiumReceipt(db, external, number, amount, currency, now) == Ok(after)
    ensures var row := PremiumReceiptRow(db.policies, external, number, amount, currency);
            && amount >= 0
            && after.journals
               == if row.status == Applied && amount > 0
                  then db.journals + [Journal(Premiums.PremiumReceiptRef(number),
                                              Transfer(InsurerClearing, PremiumReceivable, amount))]
                  else db.journals
  {
    PremiumReceiptEffect(db, external, number, amount, currency, now);
  }

  lemma ReceiptKeeps(db: Database, after: Database, posted: bool, reference: string, amount: int)
    requires Holds(db) && Recognised(after) == Recognised(db) && SettledTotal(after) == SettledTotal(db)
    requires Received(after) == Received(db) + if posted then amount else 0
    requires after.journals == if posted then db.journals
             + [Journal(reference, Transfer(InsurerClearing, PremiumReceivable, amount))]
                               else db.journals
    ensures Holds(after)
  {
    if posted { TransferKeeps(db, after, reference, InsurerClearing, PremiumReceivable, amount); }
  }

  lemma PremiumReceiptKeeps(db: Database, external: string, number: string, amount: int, currency: string, now: int,
                            after: Database)
    requires Holds(db) && Premiums.RecordPremiumReceipt(db, external, number, amount, currency, now) == Ok(after)
    ensures Holds(after)
  {
    ReceiptMoves(db, external, number, amount, currency, now, after);
    ReceiptPosts(db, external, number, amount, currency, now, after);
    var row := PremiumReceiptRow(db.policies, external, number, amount, currency);
    ReceiptKeeps(db, after, row.status == Applied && amount > 0, Premiums.PremiumReceiptRef(number), amount);
  }

  lemma ApproveSettlementKeeps(db: Database, c: nat, principal: string, after: Database)
    requires Holds(db) && c < |db.claims| && db.claims[c].policy < |db.policies|
    requires Claims.ApproveSettlement(db, c, principal) == Ok(after)
    ensures Holds(after)
  {
    ApproveSettlementEffect(db, c, principal);
    var claim := db.claims[c];
    SumUpdate(db.claims, c, SettledClaim(claim, principal), SettledAmount());
    TransferKeeps(db, after, Claims.SettlementRef(claim.ref), ClaimsPayable, InsurerClearing, claim.settled);
  }

  lemma StepKeeps(db: Database, op: Op)
    requires Holds(db) && Quotes.Holds(db)
    ensures Holds(Step(db, op))
  {
    if !Posts(op) { QuietOpKeeps(db, op); }
    else if Apply(db, op).Ok? {
      var after := Step(db, op);
      if op.DecideBind? { DecideBindKeeps(db, op.q, op.decision, op.principal, after); }
      else if op.ApproveEndorsement? { ApproveEndorsementKeeps(db, op.p, op.no, op.principal, after); }
      else if op.RecordPremiumReceipt? {
        PremiumReceiptKeeps(db, op.external, op.number, op.amount, op.currency, op.now, after);
      }
      else { ApproveSettlementKeeps(db, op.c, op.principal, after); }
    }
  }
}

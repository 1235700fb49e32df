/**
 * In every reachable database an operation succeeds exactly when its own gates pass: no journal reference,
 * policy number, quote link, decision or status index ever collides behind them.
 */
module Gates {
  import opened Wrappers
  import opened Sequences
  import opened Decimals
  import opened Records
  import opened Journals
  import opened StatusLists
  import opened Bitstrings
  import Lifecycle
  import Claims
  import Premiums
  import Rating
  import Serials
  import opened Machine
  import opened Effects
  import opened Invariants
  import Quotes = QuoteInvariants
  import Policies = PolicyInvariants
  import Endorsements = EndorsementInvariants
  import ClaimRows = ClaimInvariants
  import StatusIndex
  import Owners = JournalOwners
  import References

  // --------------------------------------------------------------------------------- quoting

  /** The quote a rating is stored as. */
  predicate StoredQuote(quote: Quote, op: Op)
    requires op.CreateQuote?
  {
    && quote.ref == op.ref && quote.kind == op.kind && quote.status == Quoted && quote.expiresAt == op.now + op.validity
    && quote.premium == Sum(op.trace.lines, Rating.LinePremium()) + op.trace.policyFee
    && |quote.lineValues| == |op.lines|
    && (forall i :: 0 <= i < |op.lines| ==> op.lines[i].value == Rating.Whole(quote.lineValues[i]))
    && quote.bindRequestedBy == "" && quote.boundBy == "" && quote.journal == ""
  }

  lemma QuoteAppended(db: Database, op: Op, after: Database)
    requires op.CreateQuote? && Rating.IsRating(op.table, op.lines, op.routeBp, op.trace)
    requires Lifecycle.CreateQuote(db, op.ref, op.kind, Ok(op.trace), op.now, op.validity) == Ok(after)
    ensures |after.quotes| == |db.quotes| + 1 && StoredQuote(after.quotes[|db.quotes|], op)
    ensures after == db.(quotes := db.quotes + [after.quotes[|db.quotes|]])
  {
    var quote := after.quotes[|db.quotes|];
    Rating.SubtotalIsLineSum(op.table, op.lines, op.routeBp, op.trace);
    forall i | 0 <= i < |op.lines| ensures op.lines[i].value == Rating.Whole(quote.lineValues[i]) {
      Rating.RatedLineBounds(op.table, op.lines, op.routeBp, op.trace, i);
    }
  }

  predicate QuoteGates(db: Database, op: Op)
    requires op.CreateQuote?
  {
    && Rating.IsRating(op.table, op.lines, op.routeBp, op.trace) && op.validity > 0
    && (forall q :: 0 <= q < |db.quotes| ==> db.quotes[q].ref != op.ref)
    && op.trace.premium <= 9_007_199_254_740_991 && -9_007_199_254_740_991 <= op.trace.routeBp <= 9_007_199_254_740_991
  }

  lemma CreateQuoteGated(db: Database, op: Op)
    requires op.CreateQuote? && (Rating.IsRating(op.table, op.lines, op.routeBp, op.trace) ==> op.trace.premium >= 0)
    ensures Apply(db, op).Ok? <==> QuoteGates(db, op)
  {
  }

  /**
   * A quote is stored exactly when its lines rate, its reference is new, its validity positive and its event can carry
   * premium and route risk; it then has the sum of the lines' premiums and the policy fee as its premium.
   */
  lemma CreateQuoteSucceedsIff(ops: seq<Op>, op: Op)
    requires op.CreateQuote?
    ensures Apply(Run(ops), op).Ok? <==> QuoteGates(Run(ops), op)
    ensures Apply(Run(ops), op).Ok? ==>
              var before, after := Run(ops), Step(Run(ops), op);
              && |after.quotes| == |before.quotes| + 1 && StoredQuote(after.quotes[|before.quotes|], op)
              && after == before.(quotes := before.quotes + [after.quotes[|before.quotes|]])
  {
    if Rating.IsRating(op.table, op.lines, op.routeBp, op.trace) {
      Rating.RatedPremiumNonNegative(op.table, op.lines, op.routeBp, op.trace);
    }
    CreateQuoteGated(Run(ops), op);
    if Apply(Run(ops), op).Ok? { QuoteAppended(Run(ops), op, Apply(Run(ops), op).value); }
  }

  // --------------------------------------------------------------------------------- binding

  lemma PendingIsUndecided(db: Database, q: nat)
    requires Quotes.Holds(db) && q < |db.quotes| && db.quotes[q].status == BindPending
    ensures !Lifecycle.DecisionTaken(db.decisions, q) && db.quotes[q].journal == "" && db.quotes[q].premium >= 0
  {
    assert Quotes.QuoteOk(db.quotes[q]);
    forall i | 0 <= i < |db.decisions| ensures db.decisions[i].quote != q {
      assert Quotes.DecisionFits(db.quotes[db.decisions[i].quote], db.decisions[i]);
    }
  }

  /** With nothing to collide with, only the two gates are left. */
  lemma DecidesWhenFree(db: Database, q: nat, decision: Decision, principal: string)
    requires q < |db.quotes|
    requires db.quotes[q].status == BindPending ==>
               !Lifecycle.DecisionTaken(db.decisions, q)
                 && !ReferenceTaken(db.journals, Lifecycle.PremiumBindRef(db.quotes[q].ref))
    ensures Lifecycle.DecideBind(db, q, decision, principal).Ok?
            <==> db.quotes[q].status == BindPending && principal != db.quotes[q].bindRequestedBy
  {
    var quote := db.quotes[q];
    if quote.status == BindPending && quote.premium > 0 {
      TransferPosts(db.journals, Lifecycle.PremiumBindRef(quote.ref), PremiumReceivable, PremiumIncome, quote.premium);
    }
  }

  lemma PendingIsFree(db: Database, q: nat)
    requires Quotes.Holds(db) && Owners.Holds(db) && q < |db.quotes| && db.quotes[q].status == BindPending
    ensures !Lifecycle.DecisionTaken(db.decisions, q)
            && !ReferenceTaken(db.journals, Lifecycle.PremiumBindRef(db.quotes[q].ref))
  {
    PendingIsUndecided(db, q);
    References.BindRefFree(db, q);
  }

  /** A decision is accepted exactly when the quote is pending and the checker is not the maker. */
  lemma DecideBindSucceedsIff(ops: seq<Op>, q: nat, decision: Decision, principal: string)
    requires q < |Run(ops).quotes|
    ensures var quote := Run(ops).quotes[q];
            Lifecycle.DecideBind(Run(ops), q, decision, principal).Ok?
            <==> quote.status == BindPending && principal != quote.bindRequestedBy
  {
    RunHolds(ops);
    var db := Run(ops);
    if db.quotes[q].status == BindPending { PendingIsFree(db, q); }
    DecidesWhenFree(db, q, decision, principal);
  }

  // -------------------------------------------------------------------------------- issuance

  lemma CodeIsUpper(family: Family)
    ensures var code := Lifecycle.FamilyCode(family);
            Serials.Upper(code) == code && |code| == 3 && Serials.AllUpper(code) && Serials.AllInAlphabet(code)
  {
    Policies.UpperCode(family);
    var code := Lifecycle.FamilyCode(family);
    assert forall i :: 0 <= i < 3 ==> 'A' <= code[i] <= 'Z' && code[i] != 'I' && code[i] != 'O';
  }

  lemma AlphabetConcat(a: string, b: string)
    requires Serials.AllInAlphabet(a) && Serials.AllInAlphabet(b)
    ensures Serials.AllInAlphabet(a + b)
  {
  }

  lemma DigitsInAlphabet(s: string)
    requires AllDigits(s)
    ensures Serials.AllInAlphabet(s)
  {
  }

  lemma NumberBuildsIff(family: Family, year: int, sequence: nat)
    requires sequence <= 9_999_999_999
    ensures Lifecycle.PolicyNumber(family, year, sequence).Ok? <==> 1900 <= year <= 9999
  {
    if 1900 <= year <= 9999 {
      CodeIsUpper(family);
      Serials.YearField(year);
      Serials.SequenceField(sequence);
      DigitsInAlphabet(Padded(year, 4));
      DigitsInAlphabet(Padded(sequence, 10));
      AlphabetConcat("NG", Lifecycle.FamilyCode(family));
      AlphabetConcat("NG" + Lifecycle.FamilyCode(family), Padded(year, 4));
      AlphabetConcat("NG" + Lifecycle.FamilyCode(family) + Padded(year, 4), Padded(sequence, 10));
    }
  }

  lemma {:induction false} CountWithin(policies: seq<Policy>, family: Family, year: int)
    ensures Policies.CountOf(policies, family, year) <= |policies|
    decreases |policies|
  {
    if policies != [] { CountWithin(policies[..|policies| - 1], family, year); }
  }

  lemma CounterWithin(db: Database, family: Family, year: int)
    requires Policies.Holds(db)
    ensures Lifecycle.Counter(db.counters, family, year) <= DEFAULT_SIZE_BITS
  {
    CountWithin(db.policies, family, year);
  }

  /** A bound quote's number, link and index are all unused. */
  lemma KeysFree(db: Database, q: nat, year: int, number: string)
    requires Policies.Holds(db) && q < |db.quotes| && db.quotes[q].status == Bound
    requires var family := Lifecycle.FamilyOf(db.quotes[q].kind);
             Lifecycle.PolicyNumber(family, year, Lifecycle.Counter(db.counters, family, year)) == Ok(number)
    ensures Lifecycle.PolicyKeysFree(db.policies, number, q, |db.policies|)
  {
    var family := Lifecycle.FamilyOf(db.quotes[q].kind);
    forall i | 0 <= i < |db.policies|
      ensures db.policies[i].number != number && db.policies[i].quote != q
              && db.policies[i].statusIndex != |db.policies|
    {
      var p := db.policies[i];
      assert Policies.PolicyFits(db.quotes, p, i);
      if p.number == number {
        Policies.NumberDeterminesSerial(p.family, p.year, p.sequence, family, year,
                                        Lifecycle.Counter(db.counters, family, year));
        Policies.SerialBelowCount(db.policies, i);
      }
    }
  }

  lemma {:induction false} PositiveSum(values: seq<int>)
    requires |values| > 0 && forall i :: 0 <= i < |values| ==> values[i] > 0
    ensures Lifecycle.SumValues(values) > 0
    decreases |values|
  {
    var init := values[..|values| - 1];
    if init != [] { PositiveSum(init); }
    SumSnoc(init, values[|values| - 1], (v: int) => v);
    assert values == init + [values[|values| - 1]];
  }

  predicate IssueGates(db: Database, q: nat, inceptionAt: int, expiryAt: int, year: int, now: int)
    requires q < |db.quotes|
  {
    && db.quotes[q].status == Bound && inceptionAt < expiryAt && inceptionAt >= now - 300_000_000
    && 1900 <= year <= 9999 && |db.policies| < 131_072
    && Auditable(Lifecycle.SumValues(db.quotes[q].lineValues))
  }

  /** With free keys, a buildable number and a positive value, only the gates are left. */
  lemma IssuesWhenFree(db: Database, q: nat, inceptionAt: int, expiryAt: int, year: int, now: int)
    requires q < |db.quotes| && Lifecycle.SumValues(db.quotes[q].lineValues) > 0
    requires var family := Lifecycle.FamilyOf(db.quotes[q].kind);
             var number := Lifecycle.PolicyNumber(family, year, Lifecycle.Counter(db.counters, family, year));
             && (number.Ok? <==> 1900 <= year <= 9999)
             && (db.quotes[q].status == Bound && number.Ok? ==>
                 Lifecycle.PolicyKeysFree(db.policies, number.value, q, |db.policies|))
    requires Auditable(db.quotes[q].premium)
    requires AllocatedIndex(db.policies).Ok? <==> |db.policies| < DEFAULT_SIZE_BITS
    requires AllocatedIndex(db.policies).Ok? ==> AllocatedIndex(db.policies).value == |db.policies|
    ensures Lifecycle.IssuePolicy(db, q, inceptionAt, expiryAt, year, now).Ok?
            <==> IssueGates(db, q, inceptionAt, expiryAt, year, now)
  {
  }

  lemma IssueKeysFree(db: Database, q: nat, year: int)
    requires Policies.Holds(db) && q < |db.quotes|
    ensures var family := Lifecycle.FamilyOf(db.quotes[q].kind);
            var number := Lifecycle.PolicyNumber(family, year, Lifecycle.Counter(db.counters, family, year));
            && (number.Ok? <==> 1900 <= year <= 9999)
            && (db.quotes[q].status == Bound && number.Ok? ==>
                Lifecycle.PolicyKeysFree(db.policies, number.value, q, |db.policies|))
  {
    var family := Lifecycle.FamilyOf(db.quotes[q].kind);
    var sequence := Lifecycle.Counter(db.counters, family, year);
    CounterWithin(db, family, year);
    NumberBuildsIff(family, year, sequence);
    var number := Lifecycle.PolicyNumber(family, year, sequence);
    if db.quotes[q].status == Bound && number.Ok? { KeysFree(db, q, year, number.value); }
  }

  lemma InsuredPositive(db: Database, q: nat)
    requires Quotes.Holds(db) && q < |db.quotes|
    ensures Lifecycle.SumValues(db.quotes[q].lineValues) > 0 && Auditable(db.quotes[q].premium)
  {
    assert Quotes.QuoteOk(db.quotes[q]);
    PositiveSum(db.quotes[q].lineValues);
  }

  /**
   * A policy is issued exactly when the quote is bound, the window is right, there is room and the signed event can
   * carry the insured value.
   */
  lemma IssuePolicySucceedsIff(ops: seq<Op>, q: nat, inceptionAt: int, expiryAt: int, year: int, now: int)
    requires q < |Run(ops).quotes|
    ensures Lifecycle.IssuePolicy(Run(ops), q, inceptionAt, expiryAt, year, now).Ok?
            <==> IssueGates(Run(ops), q, inceptionAt, expiryAt, year, now)
  {
    RunHolds(ops);
    InsuredPositive(Run(ops), q);
    IssueKeysFree(Run(ops), q, year);
    Policies.IndexIsCount(Run(ops).quotes, Run(ops).policies);
    IssuesWhenFree(Run(ops), q, inceptionAt, expiryAt, year, now);
  }

  // ------------------------------------------------------------------------------ endorsements

  lemma DeltaPosts(journals: seq<Journal>, reference: string, delta: int)
    requires delta != 0 && !ReferenceTaken(journals, reference)
    ensures Posted(journals, reference, Lifecycle.DeltaLegs(delta)).Ok?
  {
    if delta > 0 { TransferPosts(journals, reference, PremiumReceivable, PremiumIncome, delta); }
    else { TransferPosts(journals, reference, PremiumIncome, PremiumReceivable, 0 - delta); }
  }

  predicate ApprovalGates(policy: Policy, e: Endorsement, principal: string) {
    && e.status == Proposed && principal != e.createdBy
    && policy.premium + e.delta >= 0 && Auditable(policy.premium + e.delta)
  }

  lemma ApprovesWhenFree(db: Database, p: nat, no: nat, principal: string)
    requires p < |db.policies| && Lifecycle.FindEndorsement(db.endorsements, p, no).Some?
    requires Auditable(db.policies[p].insuredValue)
    requires db.endorsements[Lifecycle.FindEndorsement(db.endorsements, p, no).value].status == Proposed ==>
               db.endorsements[Lifecycle.FindEndorsement(db.endorsements, p, no).value].delta != 0
               && Auditable(db.endorsements[Lifecycle.FindEndorsement(db.endorsements, p, no).value].delta)
               && !ReferenceTaken(db.journals, Lifecycle.EndorsementRef(db.policies[p].number, no))
    ensures Lifecycle.ApproveEndorsement(db, p, no, principal).Ok?
            <==> ApprovalGates(db.policies[p], db.endorsements[Lifecycle.FindEndorsement(db.endorsements, p,
                no).value], principal)
  {
    var e := db.endorsements[Lifecycle.FindEndorsement(db.endorsements, p, no).value];
    if e.status == Proposed { DeltaPosts(db.journals, Lifecycle.EndorsementRef(db.policies[p].number, no), e.delta); }
  }

  lemma ProposedIsFree(db: Database, k: nat)
    requires Policies.Holds(db) && Endorsements.Holds(db) && Owners.Holds(db) && k < |db.endorsements|
             && db.endorsements[k].status == Proposed
    ensures db.endorsements[k].delta != 0 && db.endorsements[k].policy < |db.policies|
            && Auditable(db.endorsements[k].delta)
    ensures !ReferenceTaken(db.journals, Lifecycle.EndorsementRef(db.policies[db.endorsements[k].policy].number,
                                                                  db.endorsements[k].no))
  {
    assert Endorsements.EndorsementOk(db.policies, db.endorsements[k]);
    References.EndorsementRefFree(db, k);
  }

  /** The row an accepted endorsement call adds. */
  function NewEndorsement(endorsements: seq<Endorsement>, p: nat, delta: int, principal: string): Endorsement {
    Endorsement(p, Endorsements.CountOn(endorsements, p) + 1, delta, if delta == 0 then Approved else Proposed, "",
                principal, "")
  }

  predicate AdditionGates(db: Database, p: nat, delta: int)
    requires p < |db.policies|
  {
    && db.policies[p].status == Active && Endorsements.CountOn(db.endorsements, p) < 2_147_483_647
    && -9_007_199_254_740_991 <= delta <= 9_007_199_254_740_991
  }

  lemma AddsTheNext(db: Database, p: nat, delta: int, principal: string)
    requires p < |db.policies| && Publishable(db.policies[p]) && Endorsements.Numbered(db.endorsements)
    ensures Lifecycle.AddEndorsement(db, p, delta, principal).Ok?
            <==> AdditionGates(db, p, delta)
    ensures Lifecycle.AddEndorsement(db, p, delta, principal).Ok? ==>
              Lifecycle.AddEndorsement(db, p, delta, principal)
              == Ok(db.(endorsements := db.endorsements + [NewEndorsement(db.endorsements, p, delta, principal)]))
  {
    Endorsements.MaxNoIsCount(db.endorsements, p);
  }

  /**
   * An endorsement is added exactly when the policy is ACTIVE, its change fits the event and its number its column; it
   * is numbered one more than the policy already has.
   */
  lemma AddEndorsementSucceedsIff(ops: seq<Op>, p: nat, delta: int, principal: string)
    requires p < |Run(ops).policies|
    ensures var db := Run(ops);
            var outcome := Lifecycle.AddEndorsement(db, p, delta, principal);
            && (outcome.Ok? <==> AdditionGates(db, p, delta))
            && (outcome.Ok? ==>
                  outcome == Ok(db.(endorsements := db.endorsements
                                                    + [NewEndorsement(db.endorsements, p, delta, principal)])))
  {
    RunHolds(ops);
    AddsTheNext(Run(ops), p, delta, principal);
  }

  predicate IsEndorsement(e: Endorsement, p: nat, no: nat) { e.policy == p && e.no == no }

  predicate NoEndorsement(endorsements: seq<Endorsement>, p: nat, no: nat) {
    forall k :: 0 <= k < |endorsements| ==> endorsements[k].policy != p || endorsements[k].no != no
  }

  lemma OneRowANumber(endorsements: seq<Endorsement>, i: nat, j: nat)
    requires Endorsements.KeysDistinct(endorsements) && i < |endorsements| && j < |endorsements|
    requires Endorsements.SameKey(endorsements[i], endorsements[j])
    ensures i == j
  {
  }

  /** An endorsement is found wherever it stands in the table. */
  lemma FindsTheRow(endorsements: seq<Endorsement>, p: nat, no: nat, k: nat)
    requires Endorsements.KeysDistinct(endorsements) && k < |endorsements| && IsEndorsement(endorsements[k], p, no)
    ensures Lifecycle.FindEndorsement(endorsements, p, no) == Some(k)
  {
    OneRowANumber(endorsements, Lifecycle.FindEndorsement(endorsements, p, no).value, k);
  }

  lemma ApprovesTheRow(db: Database, p: nat, no: nat, principal: string, k: nat)
    requires Policies.Holds(db) && Endorsements.Holds(db) && Owners.Holds(db)
    requires p < |db.policies| && k < |db.endorsements| && IsEndorsement(db.endorsements[k], p, no)
    ensures Lifecycle.ApproveEndorsement(db, p, no, principal).Ok?
            <==> ApprovalGates(db.policies[p], db.endorsements[k], principal)
  {
    FindsTheRow(db.endorsements, p, no, k);
    if db.endorsements[k].status == Proposed { ProposedIsFree(db, k); }
    ApprovesWhenFree(db, p, no, principal);
  }

  /**
   * A premium change is approved exactly when it is proposed, by someone else, and leaves a premium the signed event
   * can carry, whichever row of the table it is; a number the policy does not have is refused as unknown.
   */
  lemma ApproveEndorsementSucceedsIff(ops: seq<Op>, p: nat, no: nat, principal: string)
    requires p < |Run(ops).policies|
    ensures var db := Run(ops);
            var outcome := Lifecycle.ApproveEndorsement(db, p, no, principal);
            && (forall k :: 0 <= k < |db.endorsements| && IsEndorsement(db.endorsements[k], p, no) ==>
                  (outcome.Ok? <==> ApprovalGates(db.policies[p], db.endorsements[k], principal)))
            && (NoEndorsement(db.endorsements, p, no) ==> outcome == Err(UnknownEndorsement))
  {
    RunHolds(ops);
    var db := Run(ops);
    forall k | 0 <= k < |db.endorsements| && IsEndorsement(db.endorsements[k], p, no)
      ensures Lifecycle.ApproveEndorsement(db, p, no, principal).Ok?
              <==> ApprovalGates(db.policies[p], db.endorsements[k], principal)
    {
      ApprovesTheRow(db, p, no, principal, k);
    }
    UnknownIsRefused(db, p, no, principal);
  }

  lemma UnknownIsRefused(db: Database, p: nat, no: nat, principal: string)
    requires p < |db.policies|
    ensures NoEndorsement(db.endorsements, p, no) ==>
              Lifecycle.ApproveEndorsement(db, p, no, principal) == Err(UnknownEndorsement)
              && Lifecycle.RejectEndorsement(db, p, no, principal) == Err(UnknownEndorsement)
  {
  }

  lemma RejectsTheRow(db: Database, p: nat, no: nat, principal: string, k: nat)
    requires Endorsements.KeysDistinct(db.endorsements)
    requires p < |db.policies| && k < |db.endorsements| && IsEndorsement(db.endorsements[k], p, no)
    ensures Lifecycle.RejectEndorsement(db, p, no, principal).Ok?
            <==> db.endorsements[k].status == Proposed && principal != db.endorsements[k].createdBy
  {
    FindsTheRow(db.endorsements, p, no, k);
  }

  /** A premium change is rejected exactly when it is proposed, by someone else; no event is in the way. */
  lemma RejectEndorsementSucceedsIff(ops: seq<Op>, p: nat, no: nat, principal: string)
    requires p < |Run(ops).policies|
    ensures var db := Run(ops);
            var outcome := Lifecycle.RejectEndorsement(db, p, no, principal);
            && (forall k :: 0 <= k < |db.endorsements| && IsEndorsement(db.endorsements[k], p, no) ==>
                  (outcome.Ok? <==> db.endorsements[k].status == Proposed && principal != db.endorsements[k].createdBy))
            && (NoEndorsement(db.endorsements, p, no) ==> outcome == Err(UnknownEndorsement))
  {
    RunHolds(ops);
    var db := Run(ops);
    forall k | 0 <= k < |db.endorsements| && IsEndorsement(db.endorsements[k], p, no)
      ensures Lifecycle.RejectEndorsement(db, p, no, principal).Ok?
              <==> db.endorsements[k].status == Proposed && principal != db.endorsements[k].createdBy
    {
      RejectsTheRow(db, p, no, principal, k);
    }
    UnknownIsRefused(db, p, no, principal);
  }

  // ---------------------------------------------------------------------- settlement and receipts

  lemma SettlementSucceeds(db: Database, c: nat, principal: string)
    requires ClaimRows.Holds(db) && Owners.Holds(db) && c < |db.claims|
    ensures db.claims[c].policy < |db.policies|
    ensures var claim := db.claims[c];
            Claims.ApproveSettlement(db, c, principal).Ok?
            <==> claim.status == SettlementPending && principal != claim.settlementProposedBy
                 && db.policies[claim.policy].premiumPaidAt.Some?
  {
    var claim := db.claims[c];
    assert ClaimRows.ClaimOk(db.policies, claim);
    if claim.status == SettlementPending {
      References.SettlementRefFree(db, c);
      TransferPosts(db.journals, Claims.SettlementRef(claim.ref), ClaimsPayable, InsurerClearing, claim.settled);
    }
  }

  lemma ApproveSettlementSucceedsIff(ops: seq<Op>, c: nat, principal: string)
    requires c < |Run(ops).claims|
    ensures Run(ops).claims[c].policy < |Run(ops).policies|
    ensures var claim := Run(ops).claims[c];
            Claims.ApproveSettlement(Run(ops), c, principal).Ok?
            <==> claim.status == SettlementPending && principal != claim.settlementProposedBy
                 && Run(ops).policies[claim.policy].premiumPaidAt.Some?
  {
    RunHolds(ops);
    SettlementSucceeds(Run(ops), c, principal);
  }

  predicate AmountStorable(amount: int) { 0 <= amount <= 9_223_372_036_854_775_807 }

  predicate NewExternal(receipts: seq<Receipt>, external: string) {
    forall i :: 0 <= i < |receipts| ==> receipts[i].external != external
  }

  predicate ReceiptGates(db: Database, external: string, number: string, amount: int) {
    MayReceive(db.policies, number) && AmountStorable(amount) && NewExternal(db.premiumReceipts, external)
  }

  lemma ReceiptStoredWhenFree(db: Database, external: string, number: string, amount: int, currency: string, now: int)
    requires Premiums.FindPolicy(db.policies, number).Some?
             && db.policies[Premiums.FindPolicy(db.policies, number).value].premiumPaidAt.None?
             ==> !ReferenceTaken(db.journals, Premiums.PremiumReceiptRef(number))
    requires Policies.PremiumsFit(db.policies)
    ensures var found := Premiums.FindPolicy(db.policies, number);
            Premiums.RecordPremiumReceipt(db, external, number, amount, currency, now).Ok?
            <==> (found.Some? ==> db.policies[found.value].status == Active
                                  || db.policies[found.value].status == Suspended)
                 && AmountStorable(amount) && NewExternal(db.premiumReceipts, external)
  {
    if !ReferenceTaken(db.journals, Premiums.PremiumReceiptRef(number)) && amount > 0 {
      TransferPosts(db.journals, Premiums.PremiumReceiptRef(number), InsurerClearing, PremiumReceivable, amount);
    }
  }

  lemma NumberIsOwn(db: Database, i: nat, j: nat)
    requires Policies.Holds(db) && i < |db.policies| && j < |db.policies|
    requires db.policies[i].number == db.policies[j].number
    ensures i == j
  {
    if i < j { Policies.NumbersDistinct(db, i, j); }
    if j < i { Policies.NumbersDistinct(db, j, i); }
  }

  lemma OnePolicyANumber(db: Database, p: nat, number: string)
    requires Policies.Holds(db) && p < |db.policies| && db.policies[p].number == number
    ensures Premiums.FindPolicy(db.policies, number) == Some(p)
  {
    NumberIsOwn(db, Premiums.FindPolicy(db.policies, number).value, p);
  }

  predicate MayReceive(policies: seq<Policy>, number: string) {
    forall p :: 0 <= p < |policies| && policies[p].number == number ==>
      policies[p].status == Active || policies[p].status == Suspended
  }

  lemma FoundIsTheOne(db: Database, number: string)
    requires Policies.Holds(db)
    ensures var found := Premiums.FindPolicy(db.policies, number);
            MayReceive(db.policies, number)
            <==> (found.Some? ==> db.policies[found.value].status == Active
                                  || db.policies[found.value].status == Suspended)
  {
    forall p | 0 <= p < |db.policies| && db.policies[p].number == number
      ensures Premiums.FindPolicy(db.policies, number) == Some(p)
    {
      OnePolicyANumber(db, p, number);
    }
  }

  /**
   * A premium receipt is stored exactly when its policy, if known, is in force, and it is new and fits its column: its
   * events are never in the way.
   */
  lemma PremiumReceiptSucceedsIff(ops: seq<Op>, external: string, number: string, amount: int, currency: string,
                                  now: int)
    ensures Premiums.RecordPremiumReceipt(Run(ops), external, number, amount, currency, now).Ok?
            <==> ReceiptGates(Run(ops), external, number, amount)
  {
    RunHolds(ops);
    var db := Run(ops);
    var found := Premiums.FindPolicy(db.policies, number);
    if found.Some? && db.policies[found.value].premiumPaidAt.None? { References.ReceiptRefFree(db, found.value); }
    FoundIsTheOne(db, number);
    ReceiptStoredWhenFree(db, external, number, amount, currency, now);
  }

  predicate PayoutGates(db: Database, external: string, ref: string, amount: int) {
    && (forall c :: 0 <= c < |db.claims| && db.claims[c].ref == ref ==> db.claims[c].status == Settled)
    && AmountStorable(amount) && NewExternal(db.payoutReceipts, external)
  }

  lemma OneClaimARef(db: Database, c: nat)
    requires ClaimRows.Holds(db) && c < |db.claims|
    ensures Claims.FindClaim(db.claims, db.claims[c].ref) == Some(c) && Auditable(db.claims[c].claimed)
            && Auditable(db.claims[c].settled)
  {
    assert ClaimRows.ClaimOk(db.policies, db.claims[c]);
    var found := Claims.FindClaim(db.claims, db.claims[c].ref);
    assert found.Some?;
  }

  lemma PayoutStoredWhenFound(db: Database, external: string, ref: string, amount: int, currency: string)
    requires ClaimRows.Holds(db)
    ensures Claims.RecordPayoutReceipt(db, external, ref, amount, currency).Ok?
            <==> PayoutGates(db, external, ref, amount)
  {
    forall c | 0 <= c < |db.claims| && db.claims[c].ref == ref
      ensures Claims.FindClaim(db.claims, ref) == Some(c) && Auditable(db.claims[c].claimed)
              && Auditable(db.claims[c].settled)
    {
      OneClaimARef(db, c);
    }
  }

  /** A payout receipt is stored exactly when its claim, if known, is SETTLED, and it is new and fits its column. */
  lemma PayoutReceiptSucceedsIff(ops: seq<Op>, external: string, ref: string, amount: int, currency: string)
    ensures Claims.RecordPayoutReceipt(Run(ops), external, ref, amount, currency).Ok?
            <==> PayoutGates(Run(ops), external, ref, amount)
  {
    RunHolds(ops);
    PayoutStoredWhenFound(Run(ops), external, ref, amount, currency);
  }

  // ------------------------------------------------------------------------------------- filing

  predicate FilingGates(db: Database, p: nat, ref: string, lossAt: int, claimed: int, trigger: string)
    requires p < |db.policies|
  {
    var policy := db.policies[p];
    && policy.status == Active && policy.inceptionAt <= lossAt <= policy.expiryAt
    && 0 < claimed && Sum(db.claims, Claims.ClaimedOn(p)) + claimed <= policy.insuredValue
    && (policy.family == FRY ==> trigger != "")
    && (forall c :: 0 <= c < |db.claims| ==> db.claims[c].ref != ref)
  }

  lemma FilesWhenCovered(db: Database, p: nat, ref: string, lossAt: int, claimed: int, trigger: string)
    requires p < |db.policies| && Auditable(db.policies[p].insuredValue) && Sum(db.claims, Claims.ClaimedOn(p)) >= 0
    ensures Claims.FileFnol(db, p, ref, lossAt, claimed, trigger).Ok?
            <==> FilingGates(db, p, ref, lossAt, claimed, trigger)
  {
  }

  lemma ClaimedNotNegative(db: Database, p: nat)
    requires ClaimRows.Holds(db)
    ensures Sum(db.claims, Claims.ClaimedOn(p)) >= 0
  {
    forall c | 0 <= c < |db.claims| ensures Claims.ClaimedOn(p)(db.claims[c]) >= 0 {
      assert ClaimRows.ClaimOk(db.policies, db.claims[c]);
    }
    SumNonNegative(db.claims, Claims.ClaimedOn(p));
  }

  /**
   * A claim is filed exactly when the policy is ACTIVE, the loss within its cover, the amount positive and, with the
   * claims not rejected, within the insured value, a ferry claim names its trigger, and the reference is new.
   */
  lemma FileFnolSucceedsIff(ops: seq<Op>, p: nat, ref: string, lossAt: int, claimed: int, trigger: string)
    requires p < |Run(ops).policies|
    ensures Claims.FileFnol(Run(ops), p, ref, lossAt, claimed, trigger).Ok?
            <==> FilingGates(Run(ops), p, ref, lossAt, claimed, trigger)
  {
    RunHolds(ops);
    ClaimedNotNegative(Run(ops), p);
    FilesWhenCovered(Run(ops), p, ref, lossAt, claimed, trigger);
  }

  // ----------------------------------------------------------------------------------- documents

  const HEX := "0123456789abcdef"

  lemma HexSpelled(c: char)
    ensures '0' <= c <= '9' || 'a' <= c <= 'f' <==> c in HEX
  {
    if '0' <= c <= '9' { assert HEX[c as int - '0' as int] == c; }
    if 'a' <= c <= 'f' { assert HEX[10 + (c as int - 'a' as int)] == c; }
  }

  predicate DocumentGates(db: Database, c: nat, vaultRef: string, sha256: string)
    requires c < |db.claims|
  {
    && (db.claims[c].status == Fnol || db.claims[c].status == UnderReview)
    && |sha256| == 64 && (forall i :: 0 <= i < 64 ==> sha256[i] in HEX)
    && (forall d :: 0 <= d < |db.documents| ==> db.documents[d].claim != c || db.documents[d].vaultRef != vaultRef)
  }

  /** A document is attached exactly to a claim not yet assigned, with a SHA-256 in hex, once per vault reference. */
  lemma AttachDocumentSucceedsIff(db: Database, c: nat, vaultRef: string, sha256: string)
    requires c < |db.claims|
    ensures Claims.AttachDocument(db, c, vaultRef, sha256).Ok? <==> DocumentGates(db, c, vaultRef, sha256)
  {
    forall i | 0 <= i < |sha256|
      ensures '0' <= sha256[i] <= '9' || 'a' <= sha256[i] <= 'f' <==> sha256[i] in HEX
    {
      HexSpelled(sha256[i]);
    }
  }

  // ------------------------------------------------------------------------------- cover status

  lemma FlagNeverFails(db: Database, p: nat, purpose: Purpose, bit: bool)
    requires Inv(db) && p < |db.policies|
    ensures Flagged(db.snapshots, purpose, db.policies[p].statusIndex, bit).Ok?
  {
    PoliciesPlaced(db);
    assert StatusIndex.IndexedBits(CurrentList(db.snapshots, purpose), purpose, db.policies);
  }

  lemma MovesWhenFlagWorks(db: Database, p: nat, from: PolicyStatus, to: PolicyStatus, purpose: Purpose, bit: bool)
    requires p < |db.policies| && Flagged(db.snapshots, purpose, db.policies[p].statusIndex, bit).Ok?
    requires Publishable(db.policies[p])
    ensures Lifecycle.MoveStatus(db, p, from, to, purpose, bit).Ok? <==> db.policies[p].status == from
  {
  }

  lemma CancelsWhenFlagWorks(db: Database, p: nat, newStatus: PolicyStatus)
    requires Inv(db) && p < |db.policies|
    ensures Lifecycle.CancelOrLapse(db, p, newStatus).Ok?
            <==> db.policies[p].status == Active && (newStatus == Cancelled || newStatus == Lapsed)
  {
    FlagNeverFails(db, p, Revocation, true);
    MovesWhenFlagWorks(db, p, Active, newStatus, Revocation, true);
  }

  lemma SuspendsWhenFlagWorks(db: Database, p: nat)
    requires Inv(db) && p < |db.policies|
    ensures Lifecycle.SuspendPolicy(db, p).Ok? <==> db.policies[p].status == Active
    ensures Lifecycle.ReinstatePolicy(db, p).Ok? <==> db.policies[p].status == Suspended
  {
    FlagNeverFails(db, p, Suspension, true);
    FlagNeverFails(db, p, Suspension, false);
    MovesWhenFlagWorks(db, p, Active, Suspended, Suspension, true);
    MovesWhenFlagWorks(db, p, Suspended, Active, Suspension, false);
  }

  /** Neither publishing the status list nor signing the event ever stands in the way of a status change. */
  lemma StatusChangeSucceedsIff(ops: seq<Op>, p: nat, newStatus: PolicyStatus)
    requires p < |Run(ops).policies|
    ensures Lifecycle.CancelOrLapse(Run(ops), p, newStatus).Ok?
            <==> Run(ops).policies[p].status == Active && (newStatus == Cancelled || newStatus == Lapsed)
    ensures Lifecycle.SuspendPolicy(Run(ops), p).Ok? <==> Run(ops).policies[p].status == Active
    ensures Lifecycle.ReinstatePolicy(Run(ops), p).Ok? <==> Run(ops).policies[p].status == Suspended
  {
    RunHolds(ops);
    CancelsWhenFlagWorks(Run(ops), p, newStatus);
    SuspendsWhenFlagWorks(Run(ops), p);
  }
}

/** Quotes and bind decisions in every reachable database: the dual-control history of a bind. */
module QuoteInvariants {
  import opened Records
  import Lifecycle
  import Rating
  import opened Machine
  import opened Effects
  import opened Frames

  predicate IsBound(quote: Quote) { quote.status == Bound || quote.status == Issued }

  predicate QuoteOk(quote: Quote) {
    && quote.premium >= 0 && Auditable(quote.premium)
    && |quote.lineValues| > 0 && (forall i :: 0 <= i < |quote.lineValues| ==> quote.lineValues[i] > 0)
    && quote.status != Expired
    && quote.journal == if IsBound(quote) && quote.premium > 0 then Lifecycle.PremiumBindRef(quote.ref) else ""
  }

  predicate RefsDistinct(quotes: seq<Quote>) {
    forall i, j :: 0 <= i < j < |quotes| ==> quotes[i].ref != quotes[j].ref
  }

  predicate QuotesOk(quotes: seq<Quote>) {
    RefsDistinct(quotes) && forall i :: 0 <= i < |quotes| ==> QuoteOk(quotes[i])
  }

  /** A decision was taken by someone other than the requester and is what the quote's status says. */
  predicate DecisionFits(quote: Quote, d: BindDecision) {
    && d.decidedBy != quote.bindRequestedBy
    && (if d.decision == Bind then IsBound(quote) && quote.boundBy == d.decidedBy else quote.status == Declined)
  }

  predicate DecisionsFit(quotes: seq<Quote>, decisions: seq<BindDecision>) {
    forall i :: 0 <= i < |decisions| ==>
      decisions[i].quote < |quotes| && DecisionFits(quotes[decisions[i].quote], decisions[i])
  }

  predicate OneDecisionEach(decisions: seq<BindDecision>) {
    forall i, j :: 0 <= i < j < |decisions| ==> decisions[i].quote != decisions[j].quote
  }

  /** Every quote past its decision has one. */
  predicate DecisionsRecorded(quotes: seq<Quote>, decisions: seq<BindDecision>) {
    forall q :: 0 <= q < |quotes| && (IsBound(quotes[q]) || quotes[q].status == Declined)
                ==> Lifecycle.DecisionTaken(decisions, q)
  }

  predicate DecisionsOk(quotes: seq<Quote>, decisions: seq<BindDecision>) {
    DecisionsFit(quotes, decisions) && OneDecisionEach(decisions) && DecisionsRecorded(quotes, decisions)
  }

  // ----------------------------------------------------------------------- one quote changes

  lemma QuoteReplaced(quotes: seq<Quote>, q: nat, quote: Quote)
    requires QuotesOk(quotes) && q < |quotes| && QuoteOk(quote) && quote.ref == quotes[q].ref
    ensures QuotesOk(quotes[q := quote])
  {
  }

  /** A change that keeps the requester and whether, and by whom, the quote was decided keeps the decisions in order. */
  predicate SameDecision(a: Quote, b: Quote) {
    && (a.bindRequestedBy == b.bindRequestedBy || (!IsBound(a) && a.status != Declined))
    && IsBound(a) == IsBound(b) && (a.status == Declined <==> b.status == Declined) && a.boundBy == b.boundBy
  }

  lemma DecisionsUnmoved(quotes: seq<Quote>, decisions: seq<BindDecision>, q: nat, quote: Quote)
    requires DecisionsOk(quotes, decisions) && q < |quotes| && SameDecision(quotes[q], quote)
    ensures DecisionsOk(quotes[q := quote], decisions)
  {
    assert DecisionsFit(quotes[q := quote], decisions);
  }

  lemma DecisionAdded(quotes: seq<Quote>, decisions: seq<BindDecision>, q: nat, quote: Quote, d: BindDecision)
    requires DecisionsOk(quotes, decisions) && q < |quotes| && !Lifecycle.DecisionTaken(decisions, q)
    requires d.quote == q && DecisionFits(quote, d)
    ensures DecisionsOk(quotes[q := quote], decisions + [d])
  {
    var after, now := quotes[q := quote], decisions + [d];
    assert now[|decisions|].quote == q;
    assert DecisionsFit(after, now);
    forall k | 0 <= k < |after| && (IsBound(after[k])
                                    || after[k].status == Declined) ensures Lifecycle.DecisionTaken(now, k) {
      if k != q {
        assert Lifecycle.DecisionTaken(decisions, k);
        var i :| 0 <= i < |decisions| && decisions[i].quote == k;
        assert now[i].quote == k;
      }
    }
  }

  lemma QuoteAdded(quotes: seq<Quote>, decisions: seq<BindDecision>, quote: Quote)
    requires QuotesOk(quotes) && DecisionsOk(quotes, decisions)
    requires QuoteOk(quote) && !Lifecycle.QuoteRefTaken(quotes, quote.ref) && quote.status == Quoted
    ensures QuotesOk(quotes + [quote]) && DecisionsOk(quotes + [quote], decisions)
  {
    assert DecisionsFit(quotes + [quote], decisions);
  }

  // ------------------------------------------------------------------------------ each operation

  predicate Holds(db: Database) { QuotesOk(db.quotes) && DecisionsOk(db.quotes, db.decisions) }

  lemma CreateQuoteKeeps(db: Database, op: Op)
    requires Holds(db) && op.CreateQuote? && Apply(db, op).Ok?
    ensures Holds(Step(db, op))
  {
    var quote := Step(db, op).quotes[|db.quotes|];
    Rating.RatedPremiumNonNegative(op.table, op.lines, op.routeBp, op.trace);
    forall i | 0 <= i < |quote.lineValues| ensures quote.lineValues[i] > 0 {
      Rating.RatedLineBounds(op.table, op.lines, op.routeBp, op.trace, i);
    }
    QuoteAdded(db.quotes, db.decisions, quote);
  }

  lemma RequestBindKeeps(db: Database, op: Op)
    requires Holds(db) && op.RequestBind? && Apply(db, op).Ok?
    ensures Holds(Step(db, op))
  {
    var quote := Step(db, op).quotes[op.q];
    QuoteReplaced(db.quotes, op.q, quote);
    DecisionsUnmoved(db.quotes, db.decisions, op.q, quote);
  }

  lemma DecideBindKeeps(db: Database, op: Op)
    requires Holds(db) && op.DecideBind? && Apply(db, op).Ok?
    ensures Holds(Step(db, op))
  {
    DecideBindEffect(db, op.q, op.decision, op.principal);
    var quote := Step(db, op).quotes[op.q];
    QuoteReplaced(db.quotes, op.q, quote);
    DecisionAdded(db.quotes, db.decisions, op.q, quote, BindDecision(op.q, op.decision, op.principal));
  }

  lemma IssuePolicyKeeps(db: Database, op: Op)
    requires Holds(db) && op.IssuePolicy? && Apply(db, op).Ok?
    ensures Holds(Step(db, op))
  {
    var quote := db.quotes[op.q].(status := Issued);
    QuoteReplaced(db.quotes, op.q, quote);
    DecisionsUnmoved(db.quotes, db.decisions, op.q, quote);
  }

  lemma StepKeeps(db: Database, op: Op)
    requires Holds(db)
    ensures Holds(Step(db, op))
  {
    if QuoteOp(op) {
      if Apply(db, op).Ok? {
        if op.CreateQuote? { CreateQuoteKeeps(db, op); }
        else if op.RequestBind? { RequestBindKeeps(db, op); }
        else if op.DecideBind? { DecideBindKeeps(db, op); }
        else { IssuePolicyKeeps(db, op); }
      }
    } else {
      TablesUntouched(db, op);
    }
  }
}

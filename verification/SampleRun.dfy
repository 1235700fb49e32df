/** A concrete run of the service up to one policy in force, for the results that need an input. */
module SampleRun {
  import opened Wrappers
  import opened Sequences
  import opened Records
  import Lifecycle
  import Rating
  import opened Machine
  import Gates

  function Table(): Rating.RateTable {
    Rating.RateTable("NGN", Some(map["a" := Rating.Whole(0)]), Rating.Missing, Rating.NoLoadings, Rating.Missing,
                     Rating.Missing)
  }

  function Declared(): Rating.Line { Rating.Line(Rating.Whole(100), Some("a")) }

  function Rated(): Rating.Trace { Rating.Trace([Rating.TraceLine(100, "a", 0, 0, 0, 0, 0)], 0, 0, 0, 0) }

  lemma LineRates()
    ensures Rating.TableTerms(Table(), 0) == Ok((0, 0))
    ensures Rating.RateLine(Table(), 0, Declared()) == Ok(Rating.TraceLine(100, "a", 0, 0, 0, 0, 0))
  {
    assert "a" in Table().baseRates.value;
  }

  lemma ItRates()
    ensures Rating.IsRating(Table(), [Declared()], 0, Rated())
  {
    LineRates();
    SumSnoc([], Declared(), Rating.PremiumOf(Table(), 0));
    assert [] + [Declared()] == [Declared()];
  }

  const HOUR := 3_600_000_000

  function TheQuote(status: QuoteStatus, requestedBy: string, boundBy: string): Quote {
    Quote("Q", MarineCargoSingle, status, 0, [100], HOUR, requestedBy, boundBy, "")
  }

  function WithQuote(quote: Quote): Database { EmptyDatabase().(quotes := [quote]) }

  function Decided(): Database { WithQuote(TheQuote(Bound, "a", "b")).(decisions := [BindDecision(0, Bind, "b")]) }

  lemma Next(ops: seq<Op>, op: Op, after: Database)
    requires Apply(Run(ops), op) == Ok(after)
    ensures Run(ops + [op]) == after
  {
    assert (ops + [op])[..|ops|] == ops;
  }

  lemma QuoteStored()
    ensures Lifecycle.CreateQuote(EmptyDatabase(), "Q", MarineCargoSingle, Ok(Rated()), 0, HOUR)
            == Ok(WithQuote(TheQuote(Quoted, "", "")))
  {
    assert Lifecycle.ValuesOf(Rated().lines) == [100];
    assert [] + [TheQuote(Quoted, "", "")] == [TheQuote(Quoted, "", "")];
  }

  lemma CreatedFrom(t: Rating.RateTable, lines: seq<Rating.Line>, trace: Rating.Trace, after: Database) returns (op: Op)
    requires Rating.IsRating(t, lines, 0, trace)
    requires Lifecycle.CreateQuote(EmptyDatabase(), "Q", MarineCargoSingle, Ok(trace), 0, HOUR) == Ok(after)
    ensures Apply(EmptyDatabase(), op) == Ok(after)
  {
    op := CreateQuote("Q", MarineCargoSingle, t, lines, 0, trace, 0, HOUR);
  }

  lemma Created() returns (op: Op)
    ensures Apply(EmptyDatabase(), op) == Ok(WithQuote(TheQuote(Quoted, "", "")))
  {
    ItRates();
    QuoteStored();
    op := CreatedFrom(Table(), [Declared()], Rated(), WithQuote(TheQuote(Quoted, "", "")));
  }

  lemma Requested()
    ensures Apply(WithQuote(TheQuote(Quoted, "", "")), RequestBind(0, "a", 0))
            == Ok(WithQuote(TheQuote(BindPending, "a", "")))
  {
    assert [TheQuote(Quoted, "", "")][0 := TheQuote(BindPending, "a", "")] == [TheQuote(BindPending, "a", "")];
  }

  lemma WasDecided()
    ensures Apply(WithQuote(TheQuote(BindPending, "a", "")), DecideBind(0, Bind, "b")) == Ok(Decided())
  {
    assert [TheQuote(BindPending, "a", "")][0 := TheQuote(Bound, "a", "b")] == [TheQuote(Bound, "a", "b")];
    assert [] + [BindDecision(0, Bind, "b")] == [BindDecision(0, Bind, "b")];
  }

  predicate OnePolicy(db: Database, policy: Policy) {
    db == EmptyDatabase().(quotes := db.quotes, decisions := db.decisions, counters := db.counters,
                           policies := [policy])
    && policy.status == Active && policy.inceptionAt == 0 && policy.expiryAt == 1 && policy.insuredValue == 100
    && policy.family == CRG && policy.premium == 0 && policy.premiumPaidAt.None?
  }

  lemma ValueOfOne()
    ensures Lifecycle.SumValues([100]) == 100
  {
    SumSnoc([], 100, (v: int) => v);
    assert [] + [100] == [100];
  }

  lemma PolicyStored(number: string) returns (after: Database, policy: Policy)
    requires Lifecycle.PolicyNumber(CRG, 2026, 0) == Ok(number)
    ensures Lifecycle.IssuePolicy(Decided(), 0, 0, 1, 2026, 0) == Ok(after) && OnePolicy(after, policy)
  {
    ValueOfOne();
    policy := Policy(number, 0, CRG, 2026, 0, Active, 0, 100, 0, 0, 1, None);
    assert [TheQuote(Bound, "a", "b")][0 := TheQuote(Issued, "a", "b")] == [TheQuote(Issued, "a", "b")];
    assert [] + [policy] == [policy];
    after := Decided().(counters := map[(CRG, 2026) := 1], policies := [policy],
                        quotes := [TheQuote(Issued, "a", "b")]);
  }

  lemma WasIssued() returns (after: Database, policy: Policy)
    ensures Apply(Decided(), IssuePolicy(0, 0, 1, 2026, 0)) == Ok(after) && OnePolicy(after, policy)
  {
    Gates.NumberBuildsIff(CRG, 2026, 0);
    after, policy := PolicyStored(Lifecycle.PolicyNumber(CRG, 2026, 0).value);
  }

  /** A run after which one policy is in force and nothing has happened to it yet. */
  lemma IssuedRun() returns (ops: seq<Op>, policy: Policy)
    ensures OnePolicy(Run(ops), policy)
  {
    ops := [];
    var create := Created();
    Next(ops, create, WithQuote(TheQuote(Quoted, "", "")));
    ops := ops + [create];
    Requested();
    Next(ops, RequestBind(0, "a", 0), WithQuote(TheQuote(BindPending, "a", "")));
    ops := ops + [RequestBind(0, "a", 0)];
    WasDecided();
    Next(ops, DecideBind(0, Bind, "b"), Decided());
    ops := ops + [DecideBind(0, Bind, "b")];
    var after, p := WasIssued();
    Next(ops, IssuePolicy(0, 0, 1, 2026, 0), after);
    ops, policy := ops + [IssuePolicy(0, 0, 1, 2026, 0)], p;
  }
}

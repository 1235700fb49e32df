/** Premium rating in integer kobo and basis points (src/insurance/domain/rating.py). */
module Rating {
  import opened Wrappers
  import opened Sequences

  /** A JSON field where an integer is expected: absent, null, an integer, or anything else. */
  datatype Field = Missing | NullField | Whole(n: int) | Other

  /** loadings_bp: absent or empty, an object, or something that is not an object. */
  datatype Loadings = NoLoadings | ByClass(rates: map<string, Field>) | NotAnObject

  datatype RateTable = RateTable(
    currency: string, baseRates: Option<map<string, Field>>, defaultBase: Field,
    loadings: Loadings, policyFee: Field, maxRoute: Field)

  /** A declaration line; the risk class is None when it is not a string. */
  datatype Line = Line(value: Field, riskClass: Option<string>)

  datatype TraceLine = TraceLine(
    value: int, riskClass: string, baseBp: int, routeBp: int, loadingBp: int, totalBp: int, premium: int)

  datatype Trace = Trace(lines: seq<TraceLine>, subtotal: int, policyFee: int, premium: int, routeBp: int)

  const MAX_VALUE := 1_000_000_000_000_000

  /** amount * bp / 10000, half-up. */
  function BpMul(amount: nat, bp: nat): int { (amount * bp + 5000) / 10_000 }

  /** rates.get(riskClass, default) */
  function Get(rates: map<string, Field>, riskClass: string, default: Field): Field {
    if riskClass in rates then rates[riskClass] else default
  }

  function LoadingField(t: RateTable, riskClass: string): Field {
    match t.loadings
    case ByClass(rates) => Get(rates, riskClass, Whole(0))
    case _ => Whole(0)
  }

  /** One line's rate and premium, or the reason it cannot be rated. */
  function RateLine(t: RateTable, applied: int, line: Line): Result<TraceLine>
    requires t.baseRates.Some?
  {
    if !line.value.Whole? then Err(MalformedInput)
    else if line.value.n <= 0 then Err(NonpositiveValue)
    else if line.value.n > MAX_VALUE then Err(ValueOutOfRange)
    else if line.riskClass.None? || line.riskClass.value == "" then Err(MalformedInput)
    else
      var riskClass := line.riskClass.value;
      var base := Get(t.baseRates.value, riskClass, t.defaultBase);
      var loading := LoadingField(t, riskClass);
      if base.Missing? || base.NullField? then Err(UnratedRiskClass)
      else if !base.Whole? || !loading.Whole? then Err(MalformedInput)
      else
        var total := base.n + applied + loading.n;
        if total > 10_000 then Err(RateOutOfRange)
        else if total < 0 then Err(NegativeRate)
        else Ok(TraceLine(line.value.n, riskClass, base.n, applied, loading.n, total, BpMul(line.value.n, total)))
  }

  function OrDefault(f: Field, default: int): Field { if f.Missing? then Whole(default) else f }

  function Min(a: int, b: int): int { if a <= b then a else b }

  /** The table-wide checks, in order: the policy fee and the applied route loading. */
  function TableTerms(t: RateTable, routeBp: int): Result<(int, int)> {
    var fee, maxRoute := OrDefault(t.policyFee, 0), OrDefault(t.maxRoute, 10_000);
    if t.currency != "NGN" then Err(UnsupportedCurrency)
    else if t.baseRates.None? || t.baseRates.value == map[] then Err(RateTableMalformed)
    else if t.loadings.NotAnObject? then Err(RateTableMalformed)
    else if !fee.Whole? then Err(MalformedInput)
    else if fee.n < 0 then Err(RateTableMalformed)
    else if !maxRoute.Whole? then Err(MalformedInput)
    else if routeBp < 0 then Err(RouteRiskMalformed)
    else Ok((fee.n, Min(routeBp, maxRoute.n)))
  }

  predicate AllRated(t: RateTable, applied: int, lines: seq<Line>)
    requires t.baseRates.Some?
  {
    forall i :: 0 <= i < |lines| ==> RateLine(t, applied, lines[i]).Ok?
  }

  /** The premium of a line, 0 when it cannot be rated. */
  function PremiumOf(t: RateTable, applied: int): Line -> int
    requires t.baseRates.Some?
  {
    (line: Line) => match RateLine(t, applied, line) case Ok(l) => l.premium case Err(_) => 0
  }

  /** What a rating run must come to: terms of the table, then every line rated on its own. */
  predicate IsRating(t: RateTable, lines: seq<Line>, routeBp: int, trace: Trace) {
    var terms := TableTerms(t, routeBp);
    && terms.Ok? && lines != [] && AllRated(t, terms.value.1, lines)
    && trace.policyFee == terms.value.0 && trace.routeBp == terms.value.1
    && |trace.lines| == |lines|
    && (forall i :: 0 <= i < |lines| ==> RateLine(t, terms.value.1, lines[i]) == Ok(trace.lines[i]))
    && trace.subtotal == Sum(lines, PremiumOf(t, terms.value.1))
    && trace.premium == trace.subtotal + trace.policyFee
  }

  predicate Ratable(t: RateTable, lines: seq<Line>, routeBp: int) {
    var terms := TableTerms(t, routeBp);
    terms.Ok? && lines != [] && AllRated(t, terms.value.1, lines)
  }

  /** A rating run has one result. */
  lemma RatingIsUnique(t: RateTable, lines: seq<Line>, routeBp: int, trace: Trace)
    requires IsRating(t, lines, routeBp, trace)
    ensures Ratable(t, lines, routeBp)
    ensures forall other :: IsRating(t, lines, routeBp, other) ==> other == trace
  {
    forall other | IsRating(t, lines, routeBp, other) ensures other == trace {
      forall i | 0 <= i < |lines| ensures other.lines[i] == trace.lines[i] {
        assert RateLine(t, trace.routeBp, lines[i]) == Ok(trace.lines[i]);
      }
      assert other.lines == trace.lines;
    }
  }

  /** rate_quote: one pass over the lines, stopping at the first that cannot be rated. */
  method RateQuote(t: RateTable, lines: seq<Line>, routeBp: int) returns (r: Result<Trace>)
    ensures r.Ok? <==> Ratable(t, lines, routeBp)
    ensures r.Ok? ==> IsRating(t, lines, routeBp, r.value)
    ensures var terms := TableTerms(t, routeBp);
            && (terms.Err? ==> r == Err(terms.reason))
            && (terms.Ok? && lines == [] ==> r == Err(NoLines))
            && (terms.Ok? && lines != [] && r.Err? ==>
                  exists i :: 0 <= i < |lines| && RateLine(t, terms.value.1, lines[i]) == Err(r.reason)
                              && AllRated(t, terms.value.1, lines[..i]))
  {
    var terms := ReadTerms(t, routeBp);
    if terms.Err? { return Err(terms.reason); }
    var (fee, applied) := terms.value;
    var loadings := if t.loadings.ByClass? then t.loadings.rates else map[];
    if lines == [] { return Err(NoLines); }
    var traceLines: seq<TraceLine> := [];
    var subtotal := 0;
    for i := 0 to |lines|
      invariant |traceLines| == i
      invariant forall j :: 0 <= j < i ==> RateLine(t, applied, lines[j]) == Ok(traceLines[j])
      invariant subtotal == Sum(lines[..i], PremiumOf(t, applied))
    {
      var rated := RateOne(t, loadings, applied, lines[i]);
      if rated.Err? {
        assert AllRated(t, applied, lines[..i]);
        return Err(rated.reason);
      }
      SumSnoc(lines[..i], lines[i], PremiumOf(t, applied));
      assert lines[..i + 1] == lines[..i] + [lines[i]];
      subtotal := subtotal + rated.value.premium;
      traceLines := traceLines + [rated.value];
    }
    assert lines[..|lines|] == lines;
    return Ok(Trace(traceLines, subtotal, fee, subtotal + fee, applied));
  }

  /** The checks before the loop, in order: the policy fee and the capped route loading. */
  method ReadTerms(t: RateTable, routeBp: int) returns (r: Result<(int, int)>)
    ensures r == TableTerms(t, routeBp)
  {
    if t.currency != "NGN" { return Err(UnsupportedCurrency); }
    if t.baseRates.None? || t.baseRates.value == map[] { return Err(RateTableMalformed); }
    if t.loadings.NotAnObject? { return Err(RateTableMalformed); }
    var fee := if t.policyFee.Missing? then Whole(0) else t.policyFee;
    if !fee.Whole? { return Err(MalformedInput); }
    if fee.n < 0 { return Err(RateTableMalformed); }
    var maxRoute := if t.maxRoute.Missing? then Whole(10_000) else t.maxRoute;
    if !maxRoute.Whole? { return Err(MalformedInput); }
    if routeBp < 0 { return Err(RouteRiskMalformed); }
    var applied := if routeBp < maxRoute.n then routeBp else maxRoute.n;
    return Ok((fee.n, applied));
  }

  /** The body of the loop: one line of the trace, or the reason to stop. */
  method RateOne(t: RateTable, loadings: map<string, Field>, applied: int, line: Line) returns (r: Result<TraceLine>)
    requires t.baseRates.Some? && loadings == if t.loadings.ByClass? then t.loadings.rates else map[]
    ensures r == RateLine(t, applied, line)
  {
    if !line.value.Whole? { return Err(MalformedInput); }
    if line.value.n <= 0 { return Err(NonpositiveValue); }
    if line.value.n > 1_000_000_000_000_000 { return Err(ValueOutOfRange); }
    if line.riskClass.None? || line.riskClass.value == "" { return Err(MalformedInput); }
    var riskClass := line.riskClass.value;
    var base := t.defaultBase;
    if riskClass in t.baseRates.value { base := t.baseRates.value[riskClass]; }
    if base.Missing? || base.NullField? { return Err(UnratedRiskClass); }
    if !base.Whole? { return Err(MalformedInput); }
    var loading := Whole(0);
    if riskClass in loadings { loading := loadings[riskClass]; }
    if !loading.Whole? { return Err(MalformedInput); }
    var total := base.n + applied + loading.n;
    if total > 10_000 { return Err(RateOutOfRange); }
    if total < 0 { return Err(NegativeRate); }
    var premium := (line.value.n * total + 5_000) / 10_000;
    return Ok(TraceLine(line.value.n, riskClass, base.n, applied, loading.n, total, premium));
  }

  // ----------------------------------------------------------------------------- properties

  /** Half-up rounding is within half a kobo: 10000 times the result is within 5000 of the product. */
  lemma BpMulRounds(amount: nat, bp: nat)
    ensures BpMul(amount, bp) >= 0
    ensures -5000 < 10_000 * BpMul(amount, bp) - amount * bp <= 5000
  {
    RoundsHalfUp(amount * bp);
  }

  lemma RoundsHalfUp(x: nat)
    ensures (x + 5000) / 10_000 >= 0
    ensures -5000 < 10_000 * ((x + 5000) / 10_000) - x <= 5000
  {
  }

  lemma BpMulAtMostAmount(amount: nat, bp: nat)
    requires bp <= 10_000
    ensures BpMul(amount, bp) <= amount
  {
    assert amount * bp <= amount * 10_000;
    RoundedAtMost(amount * bp, amount);
  }

  lemma RoundedAtMost(x: nat, a: nat)
    requires x <= a * 10_000
    ensures (x + 5000) / 10_000 <= a
  {
  }

  lemma BpMulMonotone(amount: nat, bp: nat, bp': nat)
    requires bp <= bp'
    ensures BpMul(amount, bp) <= BpMul(amount, bp')
  {
    assert amount * bp <= amount * bp' by { assert amount * bp' == amount * bp + amount * (bp' - bp); }
    RoundingMonotone(amount * bp, amount * bp');
  }

  lemma RoundingMonotone(x: nat, y: nat)
    requires x <= y
    ensures (x + 5000) / 10_000 <= (y + 5000) / 10_000
  {
  }

  /** Every line of an accepted rating has a rate in [0, 100%] and a premium in [0, insured value]. */
  lemma RatedLineBounds(t: RateTable, lines: seq<Line>, routeBp: int, trace: Trace, i: nat)
    requires IsRating(t, lines, routeBp, trace) && i < |lines|
    ensures var l := trace.lines[i];
            && 0 <= l.totalBp <= 10_000 && 0 < l.value <= MAX_VALUE && 0 <= l.premium <= l.value
            && l.totalBp == l.baseBp + l.routeBp + l.loadingBp && Whole(l.value) == lines[i].value
  {
    var l := trace.lines[i];
    assert RateLine(t, TableTerms(t, routeBp).value.1, lines[i]) == Ok(l);
    BpMulRounds(l.value, l.totalBp);
    BpMulAtMostAmount(l.value, l.totalBp);
  }

  /** The exact product a line's premium rounds. */
  function ExactOf(t: RateTable, applied: int): Line -> int
    requires t.baseRates.Some?
  {
    (line: Line) => match RateLine(t, applied, line) case Ok(l) => l.value * l.totalBp case Err(_) => 0
  }

  lemma {:induction false} RoundingPerLine(t: RateTable, applied: int, lines: seq<Line>)
    requires t.baseRates.Some? && AllRated(t, applied, lines)
    ensures var error := 10_000 * Sum(lines, PremiumOf(t, applied)) - Sum(lines, ExactOf(t, applied));
            -5000 * |lines| <= error <= 5000 * |lines|
    decreases |lines|
  {
    if lines != [] {
      var last := lines[|lines| - 1];
      RoundingPerLine(t, applied, lines[..|lines| - 1]);
      assert RateLine(t, applied, last).Ok?;
      var l := RateLine(t, applied, last).value;
      BpMulRounds(l.value, l.totalBp);
    }
  }

  /** 10000 times the subtotal is within 5000 per line of the exact sum of value times rate. */
  lemma SubtotalRounding(t: RateTable, lines: seq<Line>, routeBp: int, trace: Trace)
    requires IsRating(t, lines, routeBp, trace)
    ensures var error := 10_000 * trace.subtotal - Sum(lines, ExactOf(t, trace.routeBp));
            -5000 * |lines| <= error <= 5000 * |lines|
  {
    RoundingPerLine(t, trace.routeBp, lines);
  }

  function LinePremium(): TraceLine -> int { (l: TraceLine) => l.premium }

  lemma {:induction false} LineSums(t: RateTable, applied: int, lines: seq<Line>, rated: seq<TraceLine>)
    requires t.baseRates.Some? && |rated| == |lines|
    requires forall i :: 0 <= i < |lines| ==> RateLine(t, applied, lines[i]) == Ok(rated[i])
    ensures Sum(lines, PremiumOf(t, applied)) == Sum(rated, LinePremium())
    decreases |lines|
  {
    if lines != [] {
      var k := |lines| - 1;
      assert RateLine(t, applied, lines[k]) == Ok(rated[k]);
      LineSums(t, applied, lines[..k], rated[..k]);
    }
  }

  /** The subtotal is the sum of the premiums in the trace. */
  lemma SubtotalIsLineSum(t: RateTable, lines: seq<Line>, routeBp: int, trace: Trace)
    requires IsRating(t, lines, routeBp, trace)
    ensures trace.subtotal == Sum(trace.lines, LinePremium())
    ensures trace.premium == trace.subtotal + trace.policyFee
  {
    LineSums(t, trace.routeBp, lines, trace.lines);
  }

  lemma RatedPremiumNonNegative(t: RateTable, lines: seq<Line>, routeBp: int, trace: Trace)
    requires IsRating(t, lines, routeBp, trace)
    ensures trace.premium >= trace.subtotal >= 0
  {
    forall i | 0 <= i < |lines| ensures PremiumOf(t, trace.routeBp)(lines[i]) >= 0 {
      RatedLineBounds(t, lines, routeBp, trace, i);
    }
    SumNonNegative(lines, PremiumOf(t, trace.routeBp));
  }

  /** Permuting the lines changes neither whether a quote is rated nor its premium. */
  lemma PremiumIgnoresLineOrder(t: RateTable, lines: seq<Line>, permuted: seq<Line>, routeBp: int)
    requires multiset(lines) == multiset(permuted)
    ensures Ratable(t, lines, routeBp) <==> Ratable(t, permuted, routeBp)
    ensures forall a, b :: IsRating(t, lines, routeBp, a) && IsRating(t, permuted, routeBp, b) ==>
            a.premium == b.premium
  {
    assert |lines| == |multiset(lines)| == |permuted|;
    var terms := TableTerms(t, routeBp);
    if terms.Ok? {
      var applied := terms.value.1;
      if AllRated(t, applied, lines) { SameLines(t, applied, lines, permuted); }
      if AllRated(t, applied, permuted) { SameLines(t, applied, permuted, lines); }
      SumPermutation(lines, permuted, PremiumOf(t, applied));
    }
  }

  lemma SameLines(t: RateTable, applied: int, lines: seq<Line>, permuted: seq<Line>)
    requires t.baseRates.Some? && multiset(lines) == multiset(permuted) && AllRated(t, applied, lines)
    ensures AllRated(t, applied, permuted)
  {
    forall i | 0 <= i < |permuted| ensures RateLine(t, applied, permuted[i]).Ok? {
      assert permuted[i] in multiset(permuted);
      assert permuted[i] in lines;
    }
  }

  // ----------------------------------------------------------- a rating, from the fields of its table

  /** A table every quote can be rated on, as far as its own terms go. */
  predicate SoundTable(t: RateTable) {
    && t.currency == "NGN" && t.baseRates.Some? && t.baseRates.value != map[] && !t.loadings.NotAnObject?
    && (t.policyFee.Missing? || (t.policyFee.Whole? && t.policyFee.n >= 0))
    && (t.maxRoute.Missing? || t.maxRoute.Whole?)
  }

  /** The evidence is capped by the table, at 10000 basis points when it does not say. */
  predicate Capped(t: RateTable, routeBp: int, applied: int) {
    var cap := if t.maxRoute.Whole? then t.maxRoute.n else 10_000;
    (applied == routeBp || applied == cap) && applied <= routeBp && applied <= cap
  }

  /** The class's own rate, or else the default. */
  predicate BaseFromTable(t: RateTable, riskClass: string, baseBp: int)
    requires t.baseRates.Some?
  {
    var rates := t.baseRates.value;
    && (riskClass in rates ==> rates[riskClass] == Whole(baseBp))
    && (riskClass !in rates ==> t.defaultBase == Whole(baseBp))
  }

  /** The class's own loading, or else none. */
  predicate LoadingFromTable(t: RateTable, riskClass: string, loadingBp: int) {
    && (t.loadings.ByClass? && riskClass in t.loadings.rates ==> t.loadings.rates[riskClass] == Whole(loadingBp))
    && (!(t.loadings.ByClass? && riskClass in t.loadings.rates) ==> loadingBp == 0)
  }

  predicate LineFromTable(t: RateTable, applied: int, line: Line, l: TraceLine)
    requires t.baseRates.Some?
  {
    && line.value == Whole(l.value) && 0 < l.value <= 1_000_000_000_000_000
    && line.riskClass == Some(l.riskClass) && l.riskClass != ""
    && BaseFromTable(t, l.riskClass, l.baseBp) && LoadingFromTable(t, l.riskClass, l.loadingBp) && l.routeBp == applied
    && l.totalBp == l.baseBp + l.routeBp + l.loadingBp && 0 <= l.totalBp <= 10_000
    && 0 < 10_000 * l.premium + 5_000 - l.value * l.totalBp <= 10_000
  }

  predicate TraceFromTable(t: RateTable, lines: seq<Line>, routeBp: int, trace: Trace) {
    && SoundTable(t) && routeBp >= 0 && Capped(t, routeBp, trace.routeBp) && lines != [] && |trace.lines| == |lines|
    && (forall i :: 0 <= i < |lines| ==> LineFromTable(t, trace.routeBp, lines[i], trace.lines[i]))
    && trace.policyFee == (if t.policyFee.Whole? then t.policyFee.n else 0)
    && trace.subtotal == Sum(trace.lines, LinePremium()) && trace.premium == trace.subtotal + trace.policyFee
  }

  lemma LineFollowsTable(t: RateTable, applied: int, line: Line, l: TraceLine)
    requires t.baseRates.Some? && !t.loadings.NotAnObject?
    ensures RateLine(t, applied, line) == Ok(l) <==> LineFromTable(t, applied, line, l)
  {
    if RateLine(t, applied, line) == Ok(l) { BpMulRounds(l.value, l.totalBp); }
    if LineFromTable(t, applied, line, l) { RoundedIs(l.value * l.totalBp, l.premium); }
  }

  lemma RoundedIs(x: int, premium: int)
    requires 0 < 10_000 * premium + 5_000 - x <= 10_000
    ensures (x + 5_000) / 10_000 == premium
  {
  }

  lemma TermsFollowTable(t: RateTable, routeBp: int, applied: int)
    ensures TableTerms(t, routeBp).Ok? <==> SoundTable(t) && routeBp >= 0
    ensures TableTerms(t, routeBp).Ok? ==>
              && TableTerms(t, routeBp).value.0 == (if t.policyFee.Whole? then t.policyFee.n else 0)
              && (TableTerms(t, routeBp).value.1 == applied <==> Capped(t, routeBp, applied))
  {
  }

  /** A trace is the rating of its lines exactly when each of its figures is what the table's fields make it. */
  lemma RatingFollowsTable(t: RateTable, lines: seq<Line>, routeBp: int, trace: Trace)
    ensures IsRating(t, lines, routeBp, trace) <==> TraceFromTable(t, lines, routeBp, trace)
  {
    TermsFollowTable(t, routeBp, trace.routeBp);
    if SoundTable(t) && |trace.lines| == |lines| {
      forall i | 0 <= i < |lines|
        ensures RateLine(t, trace.routeBp, lines[i]) == Ok(trace.lines[i])
                <==> LineFromTable(t, trace.routeBp, lines[i], trace.lines[i])
      {
        LineFollowsTable(t, trace.routeBp, lines[i], trace.lines[i]);
      }
      if forall i :: 0 <= i < |lines| ==> RateLine(t, trace.routeBp, lines[i]) == Ok(trace.lines[i]) {
        LineSums(t, trace.routeBp, lines, trace.lines);
      }
    }
  }

  /** Whatever can be rated has a rating, so rate_quote succeeds exactly when some trace follows from the table. */
  lemma RatableHasRating(t: RateTable, lines: seq<Line>, routeBp: int) returns (trace: Trace)
    requires Ratable(t, lines, routeBp)
    ensures IsRating(t, lines, routeBp, trace)
  {
    var (fee, applied) := TableTerms(t, routeBp).value;
    var rated := seq(|lines|, i requires 0 <= i < |lines| && t.baseRates.Some? && RateLine(t, applied, lines[i]).Ok?
                              => RateLine(t, applied, lines[i]).value);
    var subtotal := Sum(lines, PremiumOf(t, applied));
    trace := Trace(rated, subtotal, fee, subtotal + fee, applied);
  }

  lemma RateQuoteSucceedsIff(t: RateTable, lines: seq<Line>, routeBp: int)
    ensures Ratable(t, lines, routeBp) <==> exists trace :: TraceFromTable(t, lines, routeBp, trace)
  {
    if Ratable(t, lines, routeBp) {
      var trace := RatableHasRating(t, lines, routeBp);
      RatingFollowsTable(t, lines, routeBp, trace);
    }
    if trace :| TraceFromTable(t, lines, routeBp, trace) { RatingFollowsTable(t, lines, routeBp, trace); }
  }

  // --------------------------------------------------------------------- corridor evidence

  /** A row of isr_evidence; delta_bp >= 0 is a table constraint. */
  datatype Evidence = Evidence(evidenceId: string, corridor: string, deltaBp: nat)

  function DeltaOn(corridor: string): Evidence -> int {
    (e: Evidence) => if e.corridor == corridor then e.deltaBp else 0
  }

  /** corridor_route_risk */
  function CorridorRisk(rows: seq<Evidence>, corridor: string): int {
    if corridor == "" then 0 else Sum(rows, DeltaOn(corridor))
  }

  method CorridorRouteRisk(rows: seq<Evidence>, corridor: string) returns (total: int)
    ensures total == CorridorRisk(rows, corridor)
  {
    if corridor == "" { return 0; }
    total := 0;
    for i := 0 to |rows|
      invariant total == Sum(rows[..i], DeltaOn(corridor))
    {
      SumSnoc(rows[..i], rows[i], DeltaOn(corridor));
      assert rows[..i + 1] == rows[..i] + [rows[i]];
      if rows[i].corridor == corridor { total := total + rows[i].deltaBp; }
    }
    assert rows[..|rows|] == rows;
  }

  /** Ingesting more evidence never lowers a corridor's risk. */
  lemma MoreEvidenceMoreRisk(rows: seq<Evidence>, more: seq<Evidence>, corridor: string)
    ensures 0 <= CorridorRisk(rows, corridor) <= CorridorRisk(rows + more, corridor)
  {
    SumConcat(rows, more, DeltaOn(corridor));
    SumNonNegative(rows, DeltaOn(corridor));
    SumNonNegative(more, DeltaOn(corridor));
  }

  /** ... nor the premium of a quote, while rating still succeeds. */
  lemma MoreEvidenceNeverCheaper(t: RateTable, lines: seq<Line>, rows: seq<Evidence>, more: seq<Evidence>,
                                 corridor: string, before: Trace, after: Trace)
    requires IsRating(t, lines, CorridorRisk(rows, corridor), before)
    requires IsRating(t, lines, CorridorRisk(rows + more, corridor), after)
    ensures before.premium <= after.premium
  {
    MoreEvidenceMoreRisk(rows, more, corridor);
    assert before.routeBp <= after.routeBp;
    HigherRouteHigherPremiums(t, lines, before.routeBp, after.routeBp);
  }

  lemma {:induction false} HigherRouteHigherPremiums(t: RateTable, lines: seq<Line>, low: int, high: int)
    requires t.baseRates.Some? && low <= high && AllRated(t, low, lines) && AllRated(t, high, lines)
    ensures Sum(lines, PremiumOf(t, low)) <= Sum(lines, PremiumOf(t, high))
    decreases |lines|
  {
    if lines != [] {
      var last := lines[|lines| - 1];
      HigherRouteHigherPremiums(t, lines[..|lines| - 1], low, high);
      assert RateLine(t, low, last).Ok? && RateLine(t, high, last).Ok?;
      var a, b := RateLine(t, low, last).value, RateLine(t, high, last).value;
      BpMulMonotone(a.value, a.totalBp, b.totalBp);
    }
  }
}

/**
 * request_bind, decide_bind and issue_policy as concurrent transactions, split into read, row lock, refresh,
 * check, write and commit. Whatever the interleaving, the database is that of a serial run, in which every
 * transaction ends as it did here.
 */
module BindConcurrency {
  import opened Wrappers
  import opened Records
  import opened Journals
  import opened StatusLists
  import Lifecycle
  import opened Effects
  import Quotes = QuoteInvariants
  import References

  datatype Call =
    | RequestBind(q: nat, principal: string, now: int)
    | DecideBind(q: nat, decision: Decision, principal: string)
    | IssuePolicy(q: nat, inceptionAt: int, expiryAt: int, year: int, now: int)

  /** The call as one indivisible step. */
  function Atomic(db: Database, call: Call): Result<Database>
    requires call.q < |db.quotes|
  {
    match call
    case RequestBind(q, principal, now) => Lifecycle.RequestBind(db, q, principal, now)
    case DecideBind(q, decision, principal) => Lifecycle.DecideBind(db, q, decision, principal)
    case IssuePolicy(q, inceptionAt, expiryAt, year, now) =>
      Lifecycle.IssuePolicy(db, q, inceptionAt, expiryAt, year, now)
  }

  // --------------------------------------------------------------------- a transaction's pieces

  /** The rows a transaction will publish: one updated quote, and inserted rows. */
  datatype Writes = Writes(q: nat, quote: Quote, decisions: seq<BindDecision>, journals: seq<Journal>,
                           policies: seq<Policy>, serials: map<(Family, int), nat>)

  function Publish(db: Database, w: Writes): Database
    requires w.q < |db.quotes|
  {
    db.(quotes := db.quotes[w.q := w.quote], decisions := db.decisions + w.decisions,
        journals := db.journals + w.journals,
        policies := db.policies + w.policies, counters := db.counters + w.serials)
  }

  /** Only request_bind checks before it locks. */
  function Precheck(stale: Quote, call: Call): Option<Reason> {
    if !call.RequestBind? then None
    else if stale.status == Expired || call.now > stale.expiresAt then Some(QuoteExpired)
    else if stale.status != Quoted then Some(BadState)
    else None
  }

  /** The checks on the row as refreshed under its lock. */
  function Gate(seen: Quote, call: Call): Option<Reason> {
    match call
    case RequestBind(_, _, _) => if seen.status != Quoted then Some(BadState) else None
    case DecideBind(_, _, principal) =>
      if seen.status != BindPending then Some(BadState)
      else if principal == seen.bindRequestedBy then Some(DualControlViolation)
      else None
    case IssuePolicy(_, inceptionAt, expiryAt, _, now) =>
      if seen.status != Bound then Some(BadState)
      else if expiryAt <= inceptionAt then Some(BadWindow)
      else if inceptionAt < now - Lifecycle.FIVE_MINUTES then Some(BackdatedInception)
      else None
  }

  function RequestWrites(seen: Quote, q: nat, principal: string): Writes {
    Writes(q, seen.(status := BindPending, bindRequestedBy := principal), [], [], [], map[])
  }

  function DecideWrites(db: Database, seen: Quote, q: nat, decision: Decision, principal: string): Result<Writes> {
    var recorded := [BindDecision(q, decision, principal)];
    if Lifecycle.DecisionTaken(db.decisions, q) then Err(DecisionExists)
    else if decision == Decline then Ok(Writes(q, seen.(status := Declined), recorded, [], [], map[]))
    else if seen.premium <= 0 then Ok(Writes(q, BoundQuote(seen, principal), recorded, [], [], map[]))
    else
      match Posted(db.journals, Lifecycle.PremiumBindRef(seen.ref),
                   Transfer(PremiumReceivable, PremiumIncome, seen.premium))
      case Err(reason) => Err(reason)
      case Ok(_) => Ok(Writes(q, BoundQuote(seen, principal), recorded, [BindJournal(seen)], [], map[]))
  }

  function IssueWrites(db: Database, seen: Quote, q: nat, inceptionAt: int, expiryAt: int, year: int): Result<Writes> {
    var family := Lifecycle.FamilyOf(seen.kind);
    var sequence := Lifecycle.Counter(db.counters, family, year);
    var number := Lifecycle.PolicyNumber(family, year, sequence);
    var index := AllocatedIndex(db.policies);
    var insuredValue := Lifecycle.SumValues(seen.lineValues);
    if number.Err? then Err(number.reason)
    else if index.Err? then Err(index.reason)
    else if !Lifecycle.PolicyKeysFree(db.policies, number.value, q, index.value) then Err(PolicyKeyExists)
    else if insuredValue <= 0 then Err(PolicyValueCheck)
    else if !FitsBigint(insuredValue) then Err(BigintOutOfRange)
    else if !Auditable(seen.premium) || !Auditable(insuredValue) then Err(NotCanonicalizable)
    else Ok(Writes(q, seen.(status := Issued), [], [],
                   [Policy(number.value, q, family, year, sequence, Active, seen.premium, insuredValue,
                           index.value, inceptionAt, expiryAt, None)],
                   map[(family, year) := sequence + 1]))
  }

  /** What a transaction past its gate writes, or the constraint that stops it. */
  function Writing(db: Database, seen: Quote, call: Call): Result<Writes> {
    match call
    case RequestBind(q, principal, _) => Ok(RequestWrites(seen, q, principal))
    case DecideBind(q, decision, principal) => DecideWrites(db, seen, q, decision, principal)
    case IssuePolicy(q, inceptionAt, expiryAt, year, _) => IssueWrites(db, seen, q, inceptionAt, expiryAt, year)
  }

  // ----------------------------------------------- the pieces make up the indivisible call

  lemma NothingWritten<T>(s: seq<T>)
    ensures s + [] == s
  {
  }

  lemma NoSerials(m: map<(Family, int), nat>)
    ensures m + map[] == m
  {
  }

  lemma RequestPieces(db: Database, q: nat, principal: string, now: int)
    requires q < |db.quotes| && db.quotes[q].status != Expired && now <= db.quotes[q].expiresAt
    ensures var seen := db.quotes[q];
            Lifecycle.RequestBind(db, q, principal, now)
            == if Gate(seen, RequestBind(q, principal, now)).Some? then Err(BadState)
               else Ok(Publish(db, RequestWrites(seen, q, principal)))
  {
    NothingWritten(db.decisions);
    NothingWritten(db.journals);
    NothingWritten(db.policies);
    NoSerials(db.counters);
  }

  lemma DecidePieces(db: Database, q: nat, decision: Decision, principal: string)
    requires q < |db.quotes| && Gate(db.quotes[q], DecideBind(q, decision, principal)).None?
    ensures var w := DecideWrites(db, db.quotes[q], q, decision, principal);
            && (w.Ok? ==>
                  w.value.q == q && Lifecycle.DecideBind(db, q, decision, principal) == Ok(Publish(db, w.value)))
            && (w.Err? ==> Lifecycle.DecideBind(db, q, decision, principal) == Err(w.reason))
  {
    NothingWritten(db.journals);
    NothingWritten(db.policies);
    NoSerials(db.counters);
    var quote := db.quotes[q];
    var legs := Transfer(PremiumReceivable, PremiumIncome, quote.premium);
    if Posted(db.journals, Lifecycle.PremiumBindRef(quote.ref), legs).Ok? {
      PostedAppends(db.journals, Lifecycle.PremiumBindRef(quote.ref), legs);
    }
  }

  lemma OneSerial(m: map<(Family, int), nat>, family: Family, year: int, next: nat)
    ensures m + map[(family, year) := next] == m[(family, year) := next]
  {
  }

  lemma IssuePieces(db: Database, call: Call)
    requires call.IssuePolicy? && call.q < |db.quotes| && Gate(db.quotes[call.q], call).None?
    ensures var w := IssueWrites(db, db.quotes[call.q], call.q, call.inceptionAt, call.expiryAt, call.year);
            && (w.Ok? ==> w.value.q == call.q && Atomic(db, call) == Ok(Publish(db, w.value)))
            && (w.Err? ==> Atomic(db, call) == Err(w.reason))
  {
    NothingWritten(db.journals);
    NothingWritten(db.decisions);
    var family := Lifecycle.FamilyOf(db.quotes[call.q].kind);
    OneSerial(db.counters, family, call.year, Lifecycle.Counter(db.counters, family, call.year) + 1);
  }

  /** Whether a request's own clock is within the quote's validity; nothing changes that. */
  predicate Timely(db: Database, call: Call)
    requires call.q < |db.quotes|
  {
    call.RequestBind? ==> db.quotes[call.q].status != Expired && call.now <= db.quotes[call.q].expiresAt
  }

  /** Under the lock, gate and writes decide exactly what the indivisible call would. */
  lemma PiecesAreAtomic(db: Database, call: Call)
    requires call.q < |db.quotes| && Timely(db, call)
    ensures var seen := db.quotes[call.q];
            var w := Writing(db, seen, call);
            && (Gate(seen, call).Some? ==> Atomic(db, call) == Err(Gate(seen, call).value))
            && (Gate(seen, call).None? && w.Ok? ==> w.value.q == call.q && Atomic(db, call) == Ok(Publish(db, w.value)))
            && (Gate(seen, call).None? && w.Err? ==> Atomic(db, call) == Err(w.reason))
  {
    match call
    case RequestBind(q, principal, now) => RequestPieces(db, q, principal, now);
    case DecideBind(q, decision, principal) =>
      if Gate(db.quotes[q], call).None? { DecidePieces(db, q, decision, principal); }
    case IssuePolicy(_, _, _, _, _) =>
      if Gate(db.quotes[call.q], call).None? { IssuePieces(db, call); }
  }

  // --------------------------------------------------------------- transactions do not disturb others

  predicate RefsDistinct(quotes: seq<Quote>) { Quotes.RefsDistinct(quotes) }

  lemma OtherDecisionsUntouched(decisions: seq<BindDecision>, more: seq<BindDecision>, q: nat)
    requires forall i :: 0 <= i < |more| ==> more[i].quote != q
    ensures Lifecycle.DecisionTaken(decisions + more, q) == Lifecycle.DecisionTaken(decisions, q)
  {
    if Lifecycle.DecisionTaken(decisions, q) {
      var i :| 0 <= i < |decisions| && decisions[i].quote == q;
      assert (decisions + more)[i].quote == q;
    }
  }

  lemma OtherReferencesUntouched(journals: seq<Journal>, more: seq<Journal>, reference: string)
    requires forall i :: 0 <= i < |more| ==> more[i].reference != reference
    ensures ReferenceTaken(journals + more, reference) == ReferenceTaken(journals, reference)
  {
    if ReferenceTaken(journals, reference) {
      var i :| 0 <= i < |journals| && journals[i].reference == reference;
      assert (journals + more)[i].reference == reference;
    }
  }

  /** The inserts are about the transaction's own quote. */
  predicate Own(db: Database, w: Writes) {
    && w.q < |db.quotes|
    && (forall i :: 0 <= i < |w.decisions| ==> w.decisions[i].quote == w.q)
    && (forall i :: 0 <= i < |w.journals| ==> w.journals[i].reference == Lifecycle.PremiumBindRef(db.quotes[w.q].ref))
  }

  lemma WritesAreOwn(db: Database, call: Call)
    requires call.q < |db.quotes| && Writing(db, db.quotes[call.q], call).Ok?
    ensures Own(db, Writing(db, db.quotes[call.q], call).value)
    ensures Writing(db, db.quotes[call.q], call).value.q == call.q
    ensures !call.IssuePolicy? ==>
              var w := Writing(db, db.quotes[call.q], call).value; w.policies == [] && w.serials == map[]
  {
  }

  lemma PostedDependsOnReference(a: seq<Journal>, b: seq<Journal>, reference: string, legs: seq<Leg>)
    requires ReferenceTaken(a, reference) == ReferenceTaken(b, reference)
    ensures Posted(a, reference, legs).Ok? == Posted(b, reference, legs).Ok?
  {
  }

  lemma DecisionUndisturbed(db: Database, w: Writes, q: nat, decision: Decision, principal: string)
    requires RefsDistinct(db.quotes) && Own(db, w) && q < |db.quotes| && q != w.q
    requires DecideWrites(db, db.quotes[q], q, decision, principal).Ok?
    ensures DecideWrites(Publish(db, w), db.quotes[q], q, decision, principal)
            == DecideWrites(db, db.quotes[q], q, decision, principal)
  {
    var seen := db.quotes[q];
    OtherDecisionsUntouched(db.decisions, w.decisions, q);
    References.BindShape(seen.ref);
    References.BindShape(db.quotes[w.q].ref);
    assert db.quotes[w.q].ref != seen.ref;
    var reference := Lifecycle.PremiumBindRef(seen.ref);
    OtherReferencesUntouched(db.journals, w.journals, reference);
    PostedDependsOnReference(db.journals, db.journals + w.journals, reference,
                             Transfer(PremiumReceivable, PremiumIncome, seen.premium));
  }

  /** What one transaction has prepared stays right while others, on other quotes, commit. */
  lemma PreparedUndisturbed(db: Database, w: Writes, call: Call)
    requires RefsDistinct(db.quotes) && Own(db, w) && call.q < |db.quotes| && call.q != w.q
    requires Writing(db, db.quotes[call.q], call).Ok?
    requires call.IssuePolicy? ==> w.policies == [] && w.serials == map[]
    ensures Publish(db, w).quotes[call.q] == db.quotes[call.q]
    ensures Writing(Publish(db, w), db.quotes[call.q], call) == Writing(db, db.quotes[call.q], call)
  {
    match call
    case RequestBind(_, _, _) =>
    case DecideBind(q, decision, principal) => DecisionUndisturbed(db, w, q, decision, principal);
    case IssuePolicy(_, _, _, _, _) =>
      NothingWritten(db.policies);
      NoSerials(db.counters);
  }
}

/** What concurrent bind and issue transactions cannot do, and why every law of the service survives them. */
module BindOutcomes {
  import opened Records
  import Lifecycle
  import Machine
  import opened Invariants
  import opened History
  import Owners = JournalOwners
  import Reachable
  import opened BindConcurrency
  import opened BindSchedules

  // ------------------------------------------------------------- concurrent runs are runs

  function OpOf(call: Call): Machine.Op {
    match call
    case RequestBind(q, principal, now) => Machine.RequestBind(q, principal, now)
    case DecideBind(q, decision, principal) => Machine.DecideBind(q, decision, principal)
    case IssuePolicy(q, inceptionAt, expiryAt, year, now) => Machine.IssuePolicy(q, inceptionAt, expiryAt, year, now)
  }

  lemma AtomicIsStep(db: Database, call: Call)
    requires call.q < |db.quotes|
    ensures Machine.Step(db, OpOf(call)) == if Atomic(db, call).Ok? then Atomic(db, call).value else db
  {
  }

  lemma RunNext(ops: seq<Machine.Op>, op: Machine.Op)
    ensures Machine.Run(ops + [op]) == Machine.Step(Machine.Run(ops), op)
  {
    assert (ops + [op])[..|ops|] == ops;
  }

  lemma {:induction false} SerialIsRun(calls: seq<Call>, ops: seq<Machine.Op>, order: seq<nat>)
    returns (all: seq<Machine.Op>)
    ensures Machine.Run(all) == Serial(calls, Machine.Run(ops), order)
    decreases |order|
  {
    if order == [] { return ops; }
    var before := SerialIsRun(calls, ops, order[..|order| - 1]);
    var t := order[|order| - 1];
    if t < |calls| && calls[t].q < |Machine.Run(before).quotes| {
      AtomicIsStep(Machine.Run(before), calls[t]);
      RunNext(before, OpOf(calls[t]));
      return before + [OpOf(calls[t])];
    }
    return before;
  }

  lemma ReachableQuotesSound(ops: seq<Machine.Op>)
    ensures QuotesSound(Machine.Run(ops).quotes)
  {
    RunHolds(ops);
    forall q | 0 <= q < |Machine.Run(ops).quotes| ensures Machine.Run(ops).quotes[q].status != Expired {
      Reachable.NothingEverExpires(ops, q);
    }
  }

  /** Started in a reachable database, any schedule ends in a reachable database, so every law still holds. */
  lemma ConcurrentRunsAreRuns(ops: seq<Machine.Op>, calls: seq<Call>, schedule: seq<nat>) returns (all: seq<Machine.Op>)
    requires Placed(calls, Machine.Run(ops).quotes)
    ensures Exec(calls, Machine.Run(ops), schedule).db == Machine.Run(all)
    ensures Inv(Exec(calls, Machine.Run(ops), schedule).db)
  {
    ReachableQuotesSound(ops);
    EveryScheduleIsSerial(calls, Machine.Run(ops), schedule);
    all := SerialIsRun(calls, ops, Exec(calls, Machine.Run(ops), schedule).finished);
    RunHolds(all);
  }

  // ------------------------------------------------------------------- at most one winner

  lemma AtomicEvolves(db: Database, call: Call)
    requires call.q < |db.quotes| && Atomic(db, call).Ok?
    ensures Evolves(db, Atomic(db, call).value)
  {
    AtomicIsStep(db, call);
    StepEvolves(db, OpOf(call));
  }

  lemma {:induction false} SerialEvolves(calls: seq<Call>, start: Database, order: seq<nat>, n: nat)
    requires n <= |order|
    ensures Evolves(Serial(calls, start, order[..n]), Serial(calls, start, order))
    decreases |order|
  {
    if n == |order| {
      assert order[..n] == order;
      EvolvesReflexive(Serial(calls, start, order));
    } else {
      var init, t := order[..|order| - 1], order[|order| - 1];
      assert init[..n] == order[..n];
      SerialEvolves(calls, start, init, n);
      var before := Serial(calls, start, init);
      if t < |calls| && calls[t].q < |before.quotes| && Atomic(before, calls[t]).Ok? {
        AtomicEvolves(before, calls[t]);
      }
      else { EvolvesReflexive(before); }
      EvolvesTransitive(Serial(calls, start, order[..n]), before, Serial(calls, start, order));
    }
  }

  predicate SameKind(a: Call, b: Call) {
    (a.RequestBind? && b.RequestBind?) || (a.DecideBind? && b.DecideBind?) || (a.IssuePolicy? && b.IssuePolicy?)
  }

  /** Once one has succeeded on a quote, another of the same kind on that quote is refused for ever. */
  lemma SecondIsRefused(before: Database, later: Database, a: Call, b: Call)
    requires a.q == b.q && a.q < |before.quotes| && Atomic(before, a).Ok? && SameKind(a, b)
    requires Evolves(Atomic(before, a).value, later) && b.q < |later.quotes|
    ensures Atomic(later, b).Err?
  {
    assert QuoteEvolves(Atomic(before, a).value.quotes[a.q], later.quotes[a.q]);
    WinnerMoves(before, a);
  }

  lemma WinnerMoves(before: Database, a: Call)
    requires a.q < |before.quotes| && Atomic(before, a).Ok?
    ensures a.q < |Atomic(before, a).value.quotes|
    ensures var status := Atomic(before, a).value.quotes[a.q].status;
            && (a.RequestBind? ==> status == BindPending)
            && (a.DecideBind? ==> status == Bound || status == Declined)
            && (a.IssuePolicy? ==> status == Issued)
  {
  }

  lemma EarlierWins(calls: seq<Call>, start: Database, world: World, i: nat, j: nat)
    requires Refines(calls, start, world) && i < j < |world.finished|
    requires var s, t := world.finished[i], world.finished[j];
             s < |calls| && t < |calls| && calls[s].q == calls[t].q && SameKind(calls[s], calls[t])
               && world.phases[s].Committed?
    ensures !world.phases[world.finished[j]].Committed?
  {
    var s, t := world.finished[i], world.finished[j];
    assert EndsAt(calls, start, world.phases, world.finished, i)
           && EndsAt(calls, start, world.phases, world.finished, j);
    var upto := world.finished[..j];
    assert upto[..i + 1][..i] == world.finished[..i] && upto[..i + 1][i] == s;
    SerialEvolves(calls, start, upto, i + 1);
    SecondIsRefused(Serial(calls, start, world.finished[..i]), Serial(calls, start, upto), calls[s], calls[t]);
  }

  /** On one quote at most one bind request, one decision and one issue commits, whatever the schedule. */
  lemma AtMostOneWinner(calls: seq<Call>, start: Database, schedule: seq<nat>, s: nat, t: nat)
    requires Placed(calls, start.quotes) && QuotesSound(start.quotes)
    requires s < |calls| && t < |calls| && s != t && calls[s].q == calls[t].q && SameKind(calls[s], calls[t])
    ensures var phases := Exec(calls, start, schedule).phases;
            |phases| == |calls| && !(phases[s].Committed? && phases[t].Committed?)
  {
    EveryScheduleIsSerial(calls, start, schedule);
    NotBoth(calls, start, Exec(calls, start, schedule), s, t);
  }

  lemma NotBoth(calls: seq<Call>, start: Database, world: World, s: nat, t: nat)
    requires Refines(calls, start, world)
    requires s < |calls| && t < |calls| && s != t && calls[s].q == calls[t].q && SameKind(calls[s], calls[t])
    ensures !(world.phases[s].Committed? && world.phases[t].Committed?)
  {
    if world.phases[s].Committed? && world.phases[t].Committed? {
      var i :| 0 <= i < |world.finished| && world.finished[i] == s;
      var j :| 0 <= j < |world.finished| && world.finished[j] == t;
      EarlierWins(calls, start, world, if i < j then i else j, if i < j then j else i);
    }
  }

  predicate BindJournalAt(journals: seq<Journal>, i: nat, ref: string) {
    i < |journals| && journals[i].reference == Lifecycle.PremiumBindRef(ref)
  }

  /** After any schedule a quote has at most one BIND premium journal, at most one decision and at most one policy. */
  lemma RecordedAtMostOnce(ops: seq<Machine.Op>, calls: seq<Call>, schedule: seq<nat>, i: nat, j: nat)
    requires Placed(calls, Machine.Run(ops).quotes) && i != j
    ensures var db := Exec(calls, Machine.Run(ops), schedule).db;
            && (forall ref :: BindJournalAt(db.journals, i, ref) ==> !BindJournalAt(db.journals, j, ref))
            && (i < |db.decisions| && j < |db.decisions| ==> db.decisions[i].quote != db.decisions[j].quote)
            && (i < |db.policies| && j < |db.policies| ==> db.policies[i].quote != db.policies[j].quote)
  {
    var all := ConcurrentRunsAreRuns(ops, calls, schedule);
    var db := Exec(calls, Machine.Run(ops), schedule).db;
    OnceEach(db, if i < j then i else j, if i < j then j else i);
  }

  lemma OnceEach(db: Database, low: nat, high: nat)
    requires Inv(db) && low < high
    ensures forall ref :: BindJournalAt(db.journals, low, ref) ==> !BindJournalAt(db.journals, high, ref)
    ensures high < |db.decisions| ==> db.decisions[low].quote != db.decisions[high].quote
    ensures high < |db.policies| ==> db.policies[low].quote != db.policies[high].quote
  {
    assert Owners.ReferencesDistinct(db.journals);
  }
}

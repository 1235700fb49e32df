/** Every schedule of concurrent bind and issue transactions refines a serial run. */
module BindSchedules {
  import opened Wrappers
  import opened Records
  import Lifecycle
  import opened BindConcurrency

  datatype Phase =
    | Idle
    | Read(stale: Quote)
    | Waiting
    | Holding
    | Refreshed(seen: Quote)
    | Claiming(seen: Quote)
    | Indexing(seen: Quote)
    | Written(w: Writes)
    | Recorded(w: Writes)
    | Committed
    | Refused(reason: Reason)

  /** The committed database, each transaction's phase, and the transactions in the order they finished. */
  datatype World = World(db: Database, phases: seq<Phase>, finished: seq<nat>)

  /** Past its writes, before its commit. */
  predicate HasWritten(phase: Phase) { phase.Written? || phase.Recorded? }

  /** From the row lock to the end of the transaction. */
  predicate HoldsRow(phase: Phase) {
    phase.Holding? || phase.Refreshed? || phase.Claiming? || phase.Indexing? || HasWritten(phase)
  }

  /** From the serial counter's row to the end of the transaction. */
  predicate HoldsSerial(call: Call, phase: Phase) { phase.Claiming? || HoldsIndex(call, phase) }

  /** The counter row of an issue: its quote's family and its year. */
  predicate InSeries(call: Call, phase: Phase, family: Family, year: int) {
    && call.IssuePolicy? && call.year == year
    && (phase.Claiming? || phase.Indexing? ==> Lifecycle.FamilyOf(phase.seen.kind) == family)
    && (HasWritten(phase) ==> Lifecycle.FamilyOf(phase.w.quote.kind) == family)
  }

  /** From the status-index advisory lock to the end of the transaction. */
  predicate HoldsIndex(call: Call, phase: Phase) { phase.Indexing? || (HasWritten(phase) && call.IssuePolicy?) }

  /** From the audit log's advisory lock, which every call takes last, to the end of the transaction. */
  predicate HoldsAudit(phase: Phase) { phase.Recorded? }

  predicate Done(phase: Phase) { phase.Committed? || phase.Refused? }

  predicate RowFree(calls: seq<Call>, phases: seq<Phase>, q: nat)
    requires |phases| == |calls|
  {
    forall t :: 0 <= t < |calls| && HoldsRow(phases[t]) ==> calls[t].q != q
  }

  predicate SerialFree(calls: seq<Call>, phases: seq<Phase>, family: Family, year: int)
    requires |phases| == |calls|
  {
    forall t :: 0 <= t < |calls| && HoldsSerial(calls[t], phases[t]) ==> !InSeries(calls[t], phases[t], family, year)
  }

  predicate IndexFree(calls: seq<Call>, phases: seq<Phase>)
    requires |phases| == |calls|
  {
    forall t :: 0 <= t < |calls| ==> !HoldsIndex(calls[t], phases[t])
  }

  predicate AuditFree(phases: seq<Phase>) { forall t :: 0 <= t < |phases| ==> !HoldsAudit(phases[t]) }

  predicate Placed(calls: seq<Call>, quotes: seq<Quote>) { forall t :: 0 <= t < |calls| ==> calls[t].q < |quotes| }

  function To(world: World, t: nat, phase: Phase): World
    requires t < |world.phases|
  {
    world.(phases := world.phases[t := phase])
  }

  function Finish(world: World, t: nat, phase: Phase): World
    requires t < |world.phases|
  {
    world.(phases := world.phases[t := phase], finished := world.finished + [t])
  }

  function Prepare(world: World, t: nat, call: Call, seen: Quote): World
    requires t < |world.phases|
  {
    match Writing(world.db, seen, call)
    case Ok(w) => To(world, t, Written(w))
    case Err(reason) => Finish(world, t, Phase.Refused(reason))
  }

  /** The next step of one transaction; a step that needs a lock another transaction holds does nothing. */
  function Move(calls: seq<Call>, world: World, t: nat): World
    requires |world.phases| == |calls| && t < |calls| && Placed(calls, world.db.quotes)
    requires world.phases[t].Recorded? ==> world.phases[t].w.q < |world.db.quotes|
  {
    var call := calls[t];
    match world.phases[t]
    case Idle => To(world, t, Read(world.db.quotes[call.q]))
    case Read(stale) =>
      if Precheck(stale, call).Some? then Finish(world, t, Phase.Refused(Precheck(stale, call).value))
        else To(world, t, Waiting)
    case Waiting => if RowFree(calls, world.phases, call.q) then To(world, t, Holding) else world
    case Holding => To(world, t, Refreshed(world.db.quotes[call.q]))
    case Refreshed(seen) =>
      if Gate(seen, call).Some? then Finish(world, t, Phase.Refused(Gate(seen, call).value))
      else if !call.IssuePolicy? then Prepare(world, t, call, seen)
      else if SerialFree(calls, world.phases, Lifecycle.FamilyOf(seen.kind), call.year)
        then To(world, t, Claiming(seen))
      else world
    case Claiming(seen) => if IndexFree(calls, world.phases) then To(world, t, Indexing(seen)) else world
    case Indexing(seen) => Prepare(world, t, call, seen)
    case Written(w) => if AuditFree(world.phases) then To(world, t, Recorded(w)) else world
    case Recorded(w) => Finish(world, t, Committed).(db := Publish(world.db, w))
    case Committed => world
    case Refused(_) => world
  }

  // ----------------------------------------------------------------------------- the serial run

  /** The calls run one after another in the given order; a refused call changes nothing. */
  ghost function Serial(calls: seq<Call>, db: Database, order: seq<nat>): Database {
    if order == [] then db
    else
      var before := Serial(calls, db, order[..|order| - 1]);
      var t := order[|order| - 1];
      if t < |calls| && calls[t].q < |before.quotes| && Atomic(before, calls[t]).Ok?
        then Atomic(before, calls[t]).value else before
  }

  /** A transaction ended as the indivisible call would on that database. */
  predicate EndsAs(db: Database, call: Call, phase: Phase) {
    call.q < |db.quotes|
    && match phase
       case Committed => Atomic(db, call).Ok?
       case Refused(reason) => Atomic(db, call) == Err(reason)
       case _ => false
  }

  // ----------------------------------------------------------------------------- the invariant

  predicate NoneExpired(quotes: seq<Quote>) { forall q :: 0 <= q < |quotes| ==> quotes[q].status != Expired }

  /** What the transaction would write now is what it has written. */
  predicate Prepared(db: Database, call: Call, w: Writes)
    requires call.q < |db.quotes|
  {
    && Timely(db, call) && Gate(db.quotes[call.q], call).None?
    && Writing(db, db.quotes[call.q], call) == Ok(w) && w.q == call.q
  }

  predicate PhaseOk(db: Database, call: Call, phase: Phase) {
    call.q < |db.quotes|
    && match phase
       case Idle => true
       case Read(stale) =>
         && stale.status != Expired && stale.expiresAt == db.quotes[call.q].expiresAt
         && (stale.status != Quoted ==> db.quotes[call.q].status != Quoted)
       case Waiting => Timely(db, call)
       case Holding => Timely(db, call)
       case Refreshed(seen) => Timely(db, call) && seen == db.quotes[call.q]
       case Claiming(seen) => call.IssuePolicy? && seen == db.quotes[call.q] && Gate(seen, call).None?
       case Indexing(seen) => call.IssuePolicy? && seen == db.quotes[call.q] && Gate(seen, call).None?
       case Written(w) => Prepared(db, call, w)
       case Recorded(w) => Prepared(db, call, w)
       case Committed => true
       case Refused(_) => true
  }

  predicate PhasesOk(calls: seq<Call>, db: Database, phases: seq<Phase>) {
    |phases| == |calls| && forall t :: 0 <= t < |calls| ==> PhaseOk(db, calls[t], phases[t])
  }

  predicate Exclusive(calls: seq<Call>, phases: seq<Phase>) {
    && |phases| == |calls|
    && (forall s, t :: 0 <= s < |calls| && 0 <= t < |calls| && s != t && HoldsRow(phases[s]) && HoldsRow(phases[t])
          ==> calls[s].q != calls[t].q)
    && (forall s, t :: 0 <= s < |calls| && 0 <= t < |calls| && s != t
          ==> !(HoldsIndex(calls[s], phases[s]) && HoldsIndex(calls[t], phases[t])))
    && (forall s, t :: 0 <= s < |phases| && 0 <= t < |phases| && s != t ==>
        !(HoldsAudit(phases[s]) && HoldsAudit(phases[t])))
  }

  predicate FinishedAreDone(phases: seq<Phase>, finished: seq<nat>) {
    && (forall k :: 0 <= k < |finished| ==> finished[k] < |phases| && Done(phases[finished[k]]))
    && (forall t :: 0 <= t < |phases| && Done(phases[t]) ==> t in finished)
    && (forall i, j :: 0 <= i < j < |finished| ==> finished[i] != finished[j])
  }

  ghost predicate EndsAt(calls: seq<Call>, start: Database, phases: seq<Phase>, finished: seq<nat>, k: nat)
    requires k < |finished| && |phases| == |calls|
  {
    finished[k] < |calls| && EndsAs(Serial(calls, start, finished[..k]), calls[finished[k]], phases[finished[k]])
  }

  /** The database is that of the serial run in finishing order, and every transaction ended as it does there. */
  ghost predicate Refines(calls: seq<Call>, start: Database, world: World) {
    && |world.phases| == |calls| && world.db == Serial(calls, start, world.finished)
    && FinishedAreDone(world.phases, world.finished)
    && forall k :: 0 <= k < |world.finished| ==> EndsAt(calls, start, world.phases, world.finished, k)
  }

  predicate QuotesSound(quotes: seq<Quote>) { RefsDistinct(quotes) && NoneExpired(quotes) }

  ghost predicate WorldOk(calls: seq<Call>, start: Database, world: World) {
    && PhasesOk(calls, world.db, world.phases) && Exclusive(calls, world.phases)
    && QuotesSound(world.db.quotes) && Refines(calls, start, world)
  }

  // --------------------------------------------------------------- steps that publish nothing

  lemma FinishedGrows(phases: seq<Phase>, finished: seq<nat>, t: nat, phase: Phase)
    requires FinishedAreDone(phases, finished) && t < |phases| && !Done(phases[t]) && Done(phase)
    ensures t !in finished
    ensures FinishedAreDone(phases[t := phase], finished + [t])
  {
    assert t !in finished;
  }

  lemma FinishedStays(phases: seq<Phase>, finished: seq<nat>, t: nat, phase: Phase)
    requires FinishedAreDone(phases, finished) && t < |phases| && !Done(phases[t]) && !Done(phase)
    ensures t !in finished && FinishedAreDone(phases[t := phase], finished)
  {
    assert t !in finished;
  }

  /** A step that ends nothing and publishes nothing keeps the refinement. */
  lemma QuietStep(calls: seq<Call>, start: Database, world: World, t: nat, phase: Phase)
    requires Refines(calls, start, world) && t < |calls| && !Done(world.phases[t]) && !Done(phase)
    ensures Refines(calls, start, To(world, t, phase))
  {
    FinishedStays(world.phases, world.finished, t, phase);
    var phases := world.phases[t := phase];
    forall k | 0 <= k < |world.finished| ensures EndsAt(calls, start, phases, world.finished, k) {
      assert EndsAt(calls, start, world.phases, world.finished, k) && world.finished[k] != t;
    }
  }

  /** A step that ends a transaction as the indivisible call ends now keeps the refinement. */
  lemma FinishingStep(calls: seq<Call>, start: Database, world: World, t: nat, phase: Phase, db: Database)
    requires Refines(calls, start, world) && t < |calls| && !Done(world.phases[t]) && Done(phase)
    requires EndsAs(world.db, calls[t], phase)
    requires db == if phase.Committed? then Atomic(world.db, calls[t]).value else world.db
    ensures Refines(calls, start, Finish(world, t, phase).(db := db))
  {
    var phases, finished := world.phases[t := phase], world.finished + [t];
    FinishedGrows(world.phases, world.finished, t, phase);
    assert finished[..|finished| - 1] == world.finished;
    forall k | 0 <= k < |finished| ensures EndsAt(calls, start, phases, finished, k) {
      assert k < |world.finished| ==> EndsAt(calls, start, world.phases, world.finished, k) && world.finished[k] != t;
      assert k < |world.finished| ==> finished[..k] == world.finished[..k];
    }
  }

  predicate Unlocked(calls: seq<Call>, phases: seq<Phase>, t: nat, phase: Phase)
    requires |phases| == |calls| && t < |calls|
  {
    && (HoldsRow(phase) ==> HoldsRow(phases[t]) || RowFree(calls, phases, calls[t].q))
    && (HoldsIndex(calls[t], phase) ==> HoldsIndex(calls[t], phases[t]) || IndexFree(calls, phases))
    && (HoldsAudit(phase) ==> HoldsAudit(phases[t]) || AuditFree(phases))
  }

  lemma ExclusiveStays(calls: seq<Call>, phases: seq<Phase>, t: nat, phase: Phase)
    requires Exclusive(calls, phases) && t < |calls| && Unlocked(calls, phases, t, phase)
    ensures Exclusive(calls, phases[t := phase])
  {
  }

  lemma PhasesStay(calls: seq<Call>, db: Database, phases: seq<Phase>, t: nat, phase: Phase)
    requires PhasesOk(calls, db, phases) && t < |calls| && PhaseOk(db, calls[t], phase)
    ensures PhasesOk(calls, db, phases[t := phase])
  {
  }

  /** A step to another unfinished phase. */
  lemma Moves(calls: seq<Call>, start: Database, world: World, t: nat, phase: Phase)
    requires WorldOk(calls, start, world) && t < |calls| && !Done(world.phases[t]) && !Done(phase)
    requires PhaseOk(world.db, calls[t], phase) && Unlocked(calls, world.phases, t, phase)
    ensures WorldOk(calls, start, To(world, t, phase))
  {
    QuietStep(calls, start, world, t, phase);
    ExclusiveStays(calls, world.phases, t, phase);
    PhasesStay(calls, world.db, world.phases, t, phase);
  }

  /** A step that refuses. */
  lemma Refuses(calls: seq<Call>, start: Database, world: World, t: nat, reason: Reason)
    requires WorldOk(calls, start, world) && t < |calls| && !Done(world.phases[t])
    requires calls[t].q < |world.db.quotes| && Atomic(world.db, calls[t]) == Err(reason)
    ensures WorldOk(calls, start, Finish(world, t, Phase.Refused(reason)))
  {
    var phase := Phase.Refused(reason);
    FinishingStep(calls, start, world, t, phase, world.db);
    ExclusiveStays(calls, world.phases, t, phase);
    PhasesStay(calls, world.db, world.phases, t, phase);
  }

  // --------------------------------------------------------------------------------- committing

  lemma QuoteMovesOn(db: Database, call: Call)
    requires call.q < |db.quotes| && Writing(db, db.quotes[call.q], call).Ok?
    ensures var quote := Writing(db, db.quotes[call.q], call).value.quote;
            && quote.ref == db.quotes[call.q].ref && quote.expiresAt == db.quotes[call.q].expiresAt
            && quote.status != Quoted && quote.status != Expired
  {
  }

  lemma QuotesStaySound(quotes: seq<Quote>, q: nat, quote: Quote)
    requires QuotesSound(quotes) && q < |quotes| && quote.ref == quotes[q].ref && quote.status != Expired
    ensures QuotesSound(quotes[q := quote])
  {
  }

  /** Another transaction's phase survives a commit: it holds another row, or no row. */
  lemma OthersSurvive(db: Database, w: Writes, issuing: bool, call: Call, phase: Phase)
    requires QuotesSound(db.quotes) && Own(db, w) && PhaseOk(db, call, phase)
    requires w.quote.expiresAt == db.quotes[w.q].expiresAt && w.quote.status != Quoted && w.quote.status != Expired
    requires HoldsRow(phase) ==> call.q != w.q
    requires !issuing ==> w.policies == [] && w.serials == map[]
    requires issuing ==> !HoldsIndex(call, phase)
    ensures PhaseOk(Publish(db, w), call, phase)
  {
    if HasWritten(phase) { PreparedUndisturbed(db, w, call); }
  }

  lemma Commits(calls: seq<Call>, start: Database, world: World, t: nat)
    requires WorldOk(calls, start, world) && t < |calls| && world.phases[t].Recorded?
    requires world.phases[t].w.q < |world.db.quotes|
    ensures WorldOk(calls, start, Finish(world, t, Committed).(db := Publish(world.db, world.phases[t].w)))
  {
    var call, w, db := calls[t], world.phases[t].w, world.db;
    assert PhaseOk(db, call, world.phases[t]);
    PiecesAreAtomic(db, call);
    WritesAreOwn(db, call);
    QuoteMovesOn(db, call);
    FinishingStep(calls, start, world, t, Committed, Publish(db, w));
    ExclusiveStays(calls, world.phases, t, Committed);
    QuotesStaySound(db.quotes, w.q, w.quote);
    CommitKeepsPhases(calls, world, t);
  }

  lemma CommitKeepsPhases(calls: seq<Call>, world: World, t: nat)
    requires PhasesOk(calls, world.db, world.phases) && Exclusive(calls, world.phases) && QuotesSound(world.db.quotes)
    requires t < |calls| && world.phases[t].Recorded? && world.phases[t].w.q < |world.db.quotes|
    ensures PhasesOk(calls, Publish(world.db, world.phases[t].w), world.phases[t := Committed])
  {
    var call, w, db := calls[t], world.phases[t].w, world.db;
    assert PhaseOk(db, call, world.phases[t]);
    WritesAreOwn(db, call);
    QuoteMovesOn(db, call);
    forall s | 0 <= s < |calls| ensures PhaseOk(Publish(db, w), calls[s], world.phases[t := Committed][s]) {
      assert PhaseOk(db, calls[s], world.phases[s]);
      if s != t { OthersSurvive(db, w, call.IssuePolicy?, calls[s], world.phases[s]); }
    }
  }

  // ------------------------------------------------------------------------------- every step

  lemma Prepares(calls: seq<Call>, start: Database, world: World, t: nat, seen: Quote)
    requires WorldOk(calls, start, world) && t < |calls| && HoldsRow(world.phases[t]) && !HasWritten(world.phases[t])
    requires calls[t].q < |world.db.quotes| && seen == world.db.quotes[calls[t].q]
    requires Timely(world.db, calls[t]) && Gate(seen, calls[t]).None?
    requires calls[t].IssuePolicy? ==> world.phases[t].Indexing?
    ensures WorldOk(calls, start, Prepare(world, t, calls[t], seen))
  {
    PiecesAreAtomic(world.db, calls[t]);
    match Writing(world.db, seen, calls[t])
    case Ok(w) => Moves(calls, start, world, t, Written(w));
    case Err(reason) => Refuses(calls, start, world, t, reason);
  }

  /** A refusal before the lock is the refusal the serial call gives now. */
  lemma PrecheckIsAtomic(db: Database, call: Call, stale: Quote)
    requires PhaseOk(db, call, Read(stale)) && NoneExpired(db.quotes)
    ensures Precheck(stale, call).Some? ==> Atomic(db, call) == Err(Precheck(stale, call).value)
    ensures Precheck(stale, call).None? ==> Timely(db, call)
  {
  }

  lemma MoveKeeps(calls: seq<Call>, start: Database, world: World, t: nat)
    requires WorldOk(calls, start, world) && t < |calls| && Placed(calls, world.db.quotes)
    requires world.phases[t].Recorded? ==> world.phases[t].w.q < |world.db.quotes|
    ensures WorldOk(calls, start, Move(calls, world, t))
  {
    var call, db := calls[t], world.db;
    assert PhaseOk(db, call, world.phases[t]);
    match world.phases[t]
    case Idle => Moves(calls, start, world, t, Read(db.quotes[call.q]));
    case Read(stale) =>
      PrecheckIsAtomic(db, call, stale);
      if Precheck(stale, call).Some? { Refuses(calls, start, world, t, Precheck(stale, call).value); }
      else { Moves(calls, start, world, t, Waiting); }
    case Waiting => if RowFree(calls, world.phases, call.q) { Moves(calls, start, world, t, Holding); }
    case Holding => Moves(calls, start, world, t, Refreshed(db.quotes[call.q]));
    case Refreshed(seen) => AfterRefresh(calls, start, world, t);
    case Claiming(seen) => if IndexFree(calls, world.phases) { Moves(calls, start, world, t, Indexing(seen)); }
    case Indexing(seen) => Prepares(calls, start, world, t, seen);
    case Written(w) => if AuditFree(world.phases) { Moves(calls, start, world, t, Recorded(w)); }
    case Recorded(_) => Commits(calls, start, world, t);
    case Committed =>
    case Refused(_) =>
  }

  lemma AfterRefresh(calls: seq<Call>, start: Database, world: World, t: nat)
    requires WorldOk(calls, start, world) && t < |calls| && Placed(calls, world.db.quotes) && world.phases[t].Refreshed?
    ensures WorldOk(calls, start, Move(calls, world, t))
  {
    var call, seen := calls[t], world.phases[t].seen;
    assert PhaseOk(world.db, call, world.phases[t]);
    PiecesAreAtomic(world.db, call);
    if Gate(seen, call).Some? { Refuses(calls, start, world, t, Gate(seen, call).value); }
    else if !call.IssuePolicy? { Prepares(calls, start, world, t, seen); }
    else if SerialFree(calls, world.phases, Lifecycle.FamilyOf(seen.kind), call.year) {
      Moves(calls, start, world, t, Claiming(seen));
    }
  }

  // ------------------------------------------------------------------------------- every run

  function Begin(calls: seq<Call>, start: Database): World { World(start, seq(|calls|, t => Idle), []) }

  predicate Movable(calls: seq<Call>, world: World, t: nat) {
    && |world.phases| == |calls| && t < |calls| && Placed(calls, world.db.quotes)
    && (world.phases[t].Recorded? ==> world.phases[t].w.q < |world.db.quotes|)
  }

  /** The world after a schedule: a sequence of which transaction moves next. */
  function Exec(calls: seq<Call>, start: Database, schedule: seq<nat>): World {
    if schedule == [] then Begin(calls, start)
    else
      var world := Exec(calls, start, schedule[..|schedule| - 1]);
      var t := schedule[|schedule| - 1];
      if Movable(calls, world, t) then Move(calls, world, t) else world
  }

  lemma BeginsWell(calls: seq<Call>, start: Database)
    requires Placed(calls, start.quotes) && QuotesSound(start.quotes)
    ensures WorldOk(calls, start, Begin(calls, start))
  {
  }

  lemma {:induction false} ExecKeeps(calls: seq<Call>, start: Database, schedule: seq<nat>)
    requires Placed(calls, start.quotes) && QuotesSound(start.quotes)
    ensures WorldOk(calls, start, Exec(calls, start, schedule))
    decreases |schedule|
  {
    if schedule == [] { BeginsWell(calls, start); }
    else {
      var world, t := Exec(calls, start, schedule[..|schedule| - 1]), schedule[|schedule| - 1];
      ExecKeeps(calls, start, schedule[..|schedule| - 1]);
      if Movable(calls, world, t) { MoveKeeps(calls, start, world, t); }
    }
  }

  /** Every interleaving of any number of transactions refines the serial run in the order they finished. */
  lemma EveryScheduleIsSerial(calls: seq<Call>, start: Database, schedule: seq<nat>)
    requires Placed(calls, start.quotes) && QuotesSound(start.quotes)
    ensures Refines(calls, start, Exec(calls, start, schedule))
  {
    ExecKeeps(calls, start, schedule);
  }

  // -------------------------------------------------------------------------------- no deadlock

  predicate CanMove(calls: seq<Call>, world: World, t: nat) {
    Movable(calls, world, t) && Move(calls, world, t).phases[t] != world.phases[t]
  }

  /** The locks a transaction needs for its next step are free. */
  predicate NeedsNothing(calls: seq<Call>, phases: seq<Phase>, t: nat)
    requires |phases| == |calls| && t < |calls|
  {
    && (phases[t].Waiting? ==> RowFree(calls, phases, calls[t].q))
    && (phases[t].Refreshed? && calls[t].IssuePolicy? ==>
          SerialFree(calls, phases, Lifecycle.FamilyOf(phases[t].seen.kind), calls[t].year))
    && (phases[t].Claiming? ==> IndexFree(calls, phases))
    && (phases[t].Written? ==> AuditFree(phases))
  }

  /** A transaction that waits for nothing moves. */
  lemma FreeOnesMove(calls: seq<Call>, start: Database, world: World, t: nat)
    requires WorldOk(calls, start, world) && t < |calls| && !Done(world.phases[t])
             && NeedsNothing(calls, world.phases, t)
    ensures CanMove(calls, world, t)
  {
    assert PhaseOk(world.db, calls[t], world.phases[t]);
    forall s | 0 <= s < |calls| ensures calls[s].q < |world.db.quotes| {
      assert PhaseOk(world.db, calls[s], world.phases[s]);
    }
  }

  /** Locks are taken in one order: row, serial counter, index, audit log. Some holder of the last needs nothing. */
  lemma FarthestNeedsNothing(calls: seq<Call>, phases: seq<Phase>, t: nat) returns (s: nat)
    requires |phases| == |calls| && t < |calls| && !Done(phases[t])
    ensures s < |calls| && !Done(phases[s]) && NeedsNothing(calls, phases, s)
  {
    s := t;
    if phases[s].Waiting? && !RowFree(calls, phases, calls[s].q) {
      s :| 0 <= s < |calls| && HoldsRow(phases[s]);
    }
    if phases[s].Refreshed? && calls[s].IssuePolicy?
       && !SerialFree(calls, phases, Lifecycle.FamilyOf(phases[s].seen.kind), calls[s].year) {
      s :| 0 <= s < |calls| && HoldsSerial(calls[s], phases[s]);
    }
    if phases[s].Claiming? && !IndexFree(calls, phases) {
      s :| 0 <= s < |calls| && HoldsIndex(calls[s], phases[s]);
    }
    if phases[s].Written? && !AuditFree(phases) {
      s :| 0 <= s < |phases| && HoldsAudit(phases[s]);
    }
  }

  /** As long as a transaction is unfinished, some transaction can move: the locks never deadlock. */
  lemma NoDeadlock(calls: seq<Call>, start: Database, schedule: seq<nat>, t: nat) returns (s: nat)
    requires Placed(calls, start.quotes) && QuotesSound(start.quotes) && t < |calls|
    requires |Exec(calls, start, schedule).phases| == |calls| && !Done(Exec(calls, start, schedule).phases[t])
    ensures CanMove(calls, Exec(calls, start, schedule), s)
  {
    var world := Exec(calls, start, schedule);
    ExecKeeps(calls, start, schedule);
    s := FarthestNeedsNothing(calls, world.phases, t);
    FreeOnesMove(calls, start, world, s);
  }
}

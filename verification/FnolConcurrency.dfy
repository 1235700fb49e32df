/**
 * file_fnol, reject_claim and cancel_or_lapse as concurrent transactions, split into read, row lock, refresh,
 * aggregate, insert and commit. Rejections lock their claim, not its policy, so a filing's aggregate can be stale:
 * it can only be too high, and the committed claims never exceed the insured value.
 */
module FnolConcurrency {
  import opened Wrappers
  import opened Sequences
  import opened Records
  import Lifecycle
  import opened Claims
  import Machine
  import Invariants
  import opened ClaimTotals

  datatype Call =
    | Filing(p: nat, ref: string, lossAt: int, claimed: int, trigger: string)
    | Rejecting(c: nat)
    | Cancelling(p: nat)

  /** What locks a transaction's row. */
  datatype Row = PolicyRow(p: nat) | ClaimRow(c: nat)

  function RowOf(call: Call): Row {
    match call
    case Filing(p, _, _, _, _) => PolicyRow(p)
    case Rejecting(c) => ClaimRow(c)
    case Cancelling(p) => PolicyRow(p)
  }

  datatype Phase =
    | Idle | Waiting | Holding | Checked | Aggregated(sum: int) | Written | Committed | Stopped(reason: Reason)

  predicate HoldsRow(phase: Phase) { phase.Holding? || phase.Checked? || phase.Aggregated? || phase.Written? }

  datatype World = World(db: Database, phases: seq<Phase>, committed: seq<nat>)

  predicate RowExists(db: Database, row: Row) {
    match row
    case PolicyRow(p) => p < |db.policies|
    case ClaimRow(c) => c < |db.claims|
  }

  // ---------------------------------------------------------------------------------- the steps

  /** file_fnol's checks of the refreshed policy; the ACTIVE check is not among them. */
  function FilingGate(policy: Policy, lossAt: int, claimed: int): Option<Reason> {
    if !(policy.inceptionAt <= lossAt <= policy.expiryAt) then Some(LossOutsideCover)
    else if claimed <= 0 || claimed > policy.insuredValue then Some(AmountOutOfRange)
    else None
  }

  /** file_fnol without the check it makes before taking the lock. */
  function FileLate(db: Database, p: nat, ref: string, lossAt: int, claimed: int, trigger: string): Result<Database>
    requires p < |db.policies|
  {
    var policy := db.policies[p];
    if FilingGate(policy, lossAt, claimed).Some? then Err(FilingGate(policy, lossAt, claimed).value)
    else if Sum(db.claims, ClaimedOn(p)) + claimed > policy.insuredValue then Err(AggregateCapExceeded)
    else if policy.family == FRY && trigger == "" then Err(TriggerRequired)
    else if ClaimRefTaken(db.claims, ref) then Err(ClaimRefExists)
    else if !Auditable(claimed) then Err(NotCanonicalizable)
    else Ok(db.(claims := db.claims + [NewClaim(p, ref, lossAt, claimed, trigger)]))
  }

  /** The effect a transaction has when it commits, as one indivisible step. */
  function Late(db: Database, call: Call): Result<Database>
    requires RowExists(db, RowOf(call))
  {
    match call
    case Filing(p, ref, lossAt, claimed, trigger) => FileLate(db, p, ref, lossAt, claimed, trigger)
    case Rejecting(c) => RejectClaim(db, c)
    case Cancelling(p) => Lifecycle.CancelOrLapse(db, p, Cancelled)
  }

  /** The check made before the lock, on the row as first read: only file_fnol makes one. */
  function Precheck(db: Database, call: Call): Option<Reason> {
    if !RowExists(db, RowOf(call)) then Some(NoSuchRow)
    else if call.Filing? && db.policies[call.p].status != Active then Some(PolicyNotActive)
    else None
  }

  /** The check made on the refreshed row. */
  function Gate(db: Database, call: Call): Option<Reason>
    requires RowExists(db, RowOf(call))
  {
    match call
    case Filing(p, _, lossAt, claimed, _) => FilingGate(db.policies[p], lossAt, claimed)
    case Rejecting(c) => if RejectClaim(db, c).Err? then Some(BadState) else None
    case Cancelling(p) => if db.policies[p].status != Active then Some(BadState) else None
  }

  predicate RowFree(calls: seq<Call>, phases: seq<Phase>, row: Row)
    requires |phases| == |calls|
  {
    forall t :: 0 <= t < |calls| && HoldsRow(phases[t]) ==> RowOf(calls[t]) != row
  }

  function To(world: World, t: nat, phase: Phase): World
    requires t < |world.phases|
  {
    world.(phases := world.phases[t := phase])
  }

  /** The insert and its flush, after a filing has read its aggregate. */
  function Insert(world: World, t: nat, call: Call, sum: int): World
    requires t < |world.phases| && call.Filing? && call.p < |world.db.policies|
  {
    var policy := world.db.policies[call.p];
    if sum + call.claimed > policy.insuredValue then To(world, t, Stopped(AggregateCapExceeded))
    else if policy.family == FRY && call.trigger == "" then To(world, t, Stopped(TriggerRequired))
    else To(world, t, Written)
  }

  /** A commit publishes the transaction's one change; a taken claim reference stops it. */
  function Commit(world: World, t: nat, call: Call): World
    requires t < |world.phases| && RowExists(world.db, RowOf(call))
  {
    match call
    case Filing(p, ref, lossAt, claimed, trigger) =>
      if ClaimRefTaken(world.db.claims, ref) then To(world, t, Stopped(ClaimRefExists))
      else if !Auditable(claimed) then To(world, t, Stopped(NotCanonicalizable))
      else World(world.db.(claims := world.db.claims + [NewClaim(p, ref, lossAt, claimed, trigger)]),
                 world.phases[t := Committed], world.committed + [t])
    case Rejecting(c) =>
      World(world.db.(claims := world.db.claims[c := world.db.claims[c].(status := Refused)]),
            world.phases[t := Committed], world.committed + [t])
    case Cancelling(p) =>
      match Lifecycle.CancelOrLapse(world.db, p, Cancelled)
      case Err(reason) => To(world, t, Stopped(reason))
      case Ok(after) => World(after, world.phases[t := Committed], world.committed + [t])
  }

  /** The next step of a transaction that holds its row. */
  function MoveHolder(world: World, t: nat, call: Call): World
    requires t < |world.phases| && RowExists(world.db, RowOf(call))
  {
    var phase, db := world.phases[t], world.db;
    if phase.Holding? then (if Gate(db, call).Some? then To(world, t, Stopped(Gate(db, call).value))
                            else To(world, t, Checked))
    else if phase.Checked? then
      (if call.Filing? then To(world, t, Aggregated(Sum(db.claims, ClaimedOn(call.p)))) else To(world, t, Written))
    else if phase.Aggregated? && call.Filing? then Insert(world, t, call, phase.sum)
    else if phase.Written? then Commit(world, t, call)
    else world
  }

  /** The next step of one transaction; waiting for a held lock does nothing. */
  function Move(calls: seq<Call>, world: World, t: nat): (after: World)
    requires |world.phases| == |calls| && t < |calls|
    ensures |after.phases| == |calls|
  {
    var call, db := calls[t], world.db;
    if world.phases[t].Idle? then
      (if Precheck(db, call).Some? then To(world, t, Stopped(Precheck(db, call).value)) else To(world, t, Waiting))
    else if world.phases[t].Waiting? then (if RowFree(calls, world.phases, RowOf(call)) then To(world, t, Holding)
                                           else world)
    else if RowExists(db, RowOf(call)) then MoveHolder(world, t, call)
    else world
  }

  function Begin(calls: seq<Call>, start: Database): World { World(start, seq(|calls|, t => Idle), []) }

  function Exec(calls: seq<Call>, start: Database, schedule: seq<nat>): (world: World)
    ensures |world.phases| == |calls|
  {
    if schedule == [] then Begin(calls, start)
    else
      var world := Exec(calls, start, schedule[..|schedule| - 1]);
      var t := schedule[|schedule| - 1];
      if t < |calls| then Move(calls, world, t) else world
  }

  // ------------------------------------------------------------------------------ the invariant

  /** Room for a filing's claim, whatever the aggregate it read. */
  predicate Fits(db: Database, call: Call)
    requires call.Filing? && call.p < |db.policies|
  {
    Sum(db.claims, ClaimedOn(call.p)) + call.claimed <= db.policies[call.p].insuredValue
    && (db.policies[call.p].family == FRY ==> call.trigger != "")
  }

  predicate PhaseOk(db: Database, call: Call, phase: Phase) {
    match phase
    case Idle => true
    case Waiting => RowExists(db, RowOf(call))
    case Holding => RowExists(db, RowOf(call))
    case Checked => RowExists(db, RowOf(call)) && Gate(db, call).None?
    case Aggregated(sum) =>
      call.Filing? && RowExists(db, RowOf(call)) && Gate(db, call).None? && Sum(db.claims, ClaimedOn(call.p)) <= sum
    case Written => RowExists(db, RowOf(call)) && Gate(db, call).None? && (call.Filing? ==> Fits(db, call))
    case Committed => true
    case Stopped(_) => true
  }

  predicate PhasesOk(calls: seq<Call>, db: Database, phases: seq<Phase>) {
    |phases| == |calls| && forall t :: 0 <= t < |calls| ==> PhaseOk(db, calls[t], phases[t])
  }

  predicate Exclusive(calls: seq<Call>, phases: seq<Phase>) {
    && |phases| == |calls|
    && (forall s, t :: 0 <= s < |calls| && 0 <= t < |calls| && s != t ==>
          !(HoldsRow(phases[s]) && HoldsRow(phases[t]) && RowOf(calls[s]) == RowOf(calls[t])))
  }

  /** The committed transactions, one after another. */
  ghost function Serial(calls: seq<Call>, db: Database, order: seq<nat>): Database {
    if order == [] then db
    else
      var before := Serial(calls, db, order[..|order| - 1]);
      var t := order[|order| - 1];
      if t < |calls| && RowExists(before, RowOf(calls[t])) && Late(before, calls[t]).Ok?
        then Late(before, calls[t]).value else before
  }

  ghost predicate WorldOk(calls: seq<Call>, start: Database, world: World) {
    && PhasesOk(calls, world.db, world.phases) && Exclusive(calls, world.phases)
    && Holds(world.db) && world.db == Serial(calls, start, world.committed)
  }

  // -------------------------------------------------------------------------- committing safely

  lemma {:induction false} ClaimedNoMore(claims: seq<Claim>, c: nat, p: nat)
    requires c < |claims| && claims[c].claimed >= 0
    ensures Sum(claims[c := claims[c].(status := Refused)], ClaimedOn(p)) <= Sum(claims, ClaimedOn(p))
  {
    SumUpdate(claims, c, claims[c].(status := Refused), ClaimedOn(p));
  }

  predicate ClaimsPositive(claims: seq<Claim>) { forall c :: 0 <= c < |claims| ==> claims[c].claimed >= 0 }

  /** What a commit of one transaction does to what another, on another row, has found out. */
  lemma RejectionOnlyLowers(db: Database, c: nat, call: Call, phase: Phase)
    requires c < |db.claims| && db.claims[c].claimed >= 0 && PhaseOk(db, call, phase)
    requires HoldsRow(phase) ==> RowOf(call) != ClaimRow(c)
    ensures PhaseOk(db.(claims := db.claims[c := db.claims[c].(status := Refused)]), call, phase)
  {
    if call.Filing? { ClaimedNoMore(db.claims, c, call.p); }
  }

  lemma FilingElsewhere(db: Database, claim: Claim, call: Call, phase: Phase)
    requires PhaseOk(db, call, phase) && (HoldsRow(phase) ==> RowOf(call) != PolicyRow(claim.policy))
    ensures PhaseOk(db.(claims := db.claims + [claim]), call, phase)
  {
    if call.Filing? { SumSnoc(db.claims, claim, ClaimedOn(call.p)); }
  }

  lemma CancellingElsewhere(db: Database, p: nat, after: Database, call: Call, phase: Phase)
    requires PhaseOk(db, call, phase) && p < |db.policies| && Lifecycle.CancelOrLapse(db, p, Cancelled) == Ok(after)
    requires HoldsRow(phase) ==> RowOf(call) != PolicyRow(p)
    ensures PhaseOk(after, call, phase)
  {
  }

  lemma OthersKeep(calls: seq<Call>, db: Database, after: Database, phases: seq<Phase>, t: nat)
    requires PhasesOk(calls, db, phases) && t < |calls|
    requires forall s :: 0 <= s < |calls| && s != t ==> PhaseOk(after, calls[s], phases[s])
    ensures PhasesOk(calls, after, phases[t := Committed])
  {
  }

  lemma ExclusiveStays(calls: seq<Call>, phases: seq<Phase>, t: nat, phase: Phase)
    requires Exclusive(calls, phases) && t < |calls|
    requires HoldsRow(phase) ==> HoldsRow(phases[t]) || RowFree(calls, phases, RowOf(calls[t]))
    ensures Exclusive(calls, phases[t := phase])
  {
  }

  lemma SerialNext(calls: seq<Call>, start: Database, order: seq<nat>, t: nat, after: Database)
    requires t < |calls| && RowExists(Serial(calls, start, order), RowOf(calls[t]))
    requires Late(Serial(calls, start, order), calls[t]) == Ok(after)
    ensures Serial(calls, start, order + [t]) == after
  {
    assert (order + [t])[..|order|] == order;
  }

  lemma FilingCommits(calls: seq<Call>, start: Database, world: World, t: nat)
    requires WorldOk(calls, start, world) && t < |calls| && world.phases[t].Written? && calls[t].Filing?
    requires RowExists(world.db, RowOf(calls[t]))
    ensures WorldOk(calls, start, Commit(world, t, calls[t]))
  {
    var call, db := calls[t], world.db;
    assert PhaseOk(db, call, world.phases[t]);
    if ClaimRefTaken(db.claims, call.ref) {
      Stays(calls, start, world, t, Stopped(ClaimRefExists));
    } else if !Auditable(call.claimed) {
      Stays(calls, start, world, t, Stopped(NotCanonicalizable));
    } else {
      var claim := NewClaim(call.p, call.ref, call.lossAt, call.claimed, call.trigger);
      var after := db.(claims := db.claims + [claim]);
      forall s | 0 <= s < |calls| && s != t ensures PhaseOk(after, calls[s], world.phases[s]) {
        assert PhaseOk(db, calls[s], world.phases[s]);
        FilingElsewhere(db, claim, calls[s], world.phases[s]);
      }
      OthersKeep(calls, db, after, world.phases, t);
      ExclusiveStays(calls, world.phases, t, Committed);
      FilingKeepsCap(db.policies, db.claims, claim);
      SerialNext(calls, start, world.committed, t, after);
    }
  }

  lemma RejectionCommits(calls: seq<Call>, start: Database, world: World, t: nat)
    requires WorldOk(calls, start, world) && ClaimsPositive(world.db.claims) && t < |calls| && world.phases[t].Written?
    requires calls[t].Rejecting? && RowExists(world.db, RowOf(calls[t]))
    ensures WorldOk(calls, start, Commit(world, t, calls[t]))
  {
    var call, db := calls[t], world.db;
    assert PhaseOk(db, call, world.phases[t]);
    var after := db.(claims := db.claims[call.c := db.claims[call.c].(status := Refused)]);
    forall s | 0 <= s < |calls| && s != t ensures PhaseOk(after, calls[s], world.phases[s]) {
      assert PhaseOk(db, calls[s], world.phases[s]);
      RejectionOnlyLowers(db, call.c, calls[s], world.phases[s]);
    }
    OthersKeep(calls, db, after, world.phases, t);
    ExclusiveStays(calls, world.phases, t, Committed);
    CountsNoMore(db.policies, db.claims, call.c, after.claims[call.c]);
    SerialNext(calls, start, world.committed, t, after);
  }

  lemma CancellingKeepsCap(db: Database, p: nat, after: Database)
    requires Holds(db) && p < |db.policies| && Lifecycle.CancelOrLapse(db, p, Cancelled) == Ok(after)
    ensures Holds(after) && after.claims == db.claims
  {
    forall k | 0 <= k < |after.policies| ensures WithinCap(after.policies, after.claims, k) {
      assert WithinCap(db.policies, db.claims, k);
    }
  }

  lemma CancellingCommits(calls: seq<Call>, start: Database, world: World, t: nat)
    requires WorldOk(calls, start, world) && t < |calls| && world.phases[t].Written? && calls[t].Cancelling?
    requires RowExists(world.db, RowOf(calls[t]))
    ensures WorldOk(calls, start, Commit(world, t, calls[t]))
  {
    var call, db := calls[t], world.db;
    match Lifecycle.CancelOrLapse(db, call.p, Cancelled)
    case Err(reason) => Stays(calls, start, world, t, Stopped(reason));
    case Ok(after) =>
      forall s | 0 <= s < |calls| && s != t ensures PhaseOk(after, calls[s], world.phases[s]) {
        assert PhaseOk(db, calls[s], world.phases[s]);
        CancellingElsewhere(db, call.p, after, calls[s], world.phases[s]);
      }
      OthersKeep(calls, db, after, world.phases, t);
      ExclusiveStays(calls, world.phases, t, Committed);
      CancellingKeepsCap(db, call.p, after);
      SerialNext(calls, start, world.committed, t, after);
  }

  // --------------------------------------------------------------------------------- every step

  /** A step that publishes nothing. */
  lemma Stays(calls: seq<Call>, start: Database, world: World, t: nat, phase: Phase)
    requires WorldOk(calls, start, world) && t < |calls| && PhaseOk(world.db, calls[t], phase)
    requires HoldsRow(phase) ==> HoldsRow(world.phases[t]) || RowFree(calls, world.phases, RowOf(calls[t]))
    ensures WorldOk(calls, start, To(world, t, phase))
  {
    ExclusiveStays(calls, world.phases, t, phase);
  }

  lemma WaitingMoves(calls: seq<Call>, start: Database, world: World, t: nat)
    requires WorldOk(calls, start, world) && t < |calls| && (world.phases[t].Idle? || world.phases[t].Waiting?)
    ensures WorldOk(calls, start, Move(calls, world, t))
  {
    var call, db := calls[t], world.db;
    assert PhaseOk(db, call, world.phases[t]);
    if world.phases[t].Idle? {
      if Precheck(db, call).Some? { Stays(calls, start, world, t, Stopped(Precheck(db, call).value)); }
      else { Stays(calls, start, world, t, Waiting); }
    } else if RowFree(calls, world.phases, RowOf(call)) { Stays(calls, start, world, t, Holding); }
  }

  lemma HolderMoves(calls: seq<Call>, start: Database, world: World, t: nat)
    requires WorldOk(calls, start, world) && t < |calls| && HoldsRow(world.phases[t]) && !world.phases[t].Written?
    ensures WorldOk(calls, start, Move(calls, world, t))
  {
    var call, db := calls[t], world.db;
    assert PhaseOk(db, call, world.phases[t]);
    match world.phases[t]
    case Holding =>
      if Gate(db, call).Some? { Stays(calls, start, world, t, Stopped(Gate(db, call).value)); }
      else { Stays(calls, start, world, t, Checked); }
    case Checked =>
      if call.Filing? { Stays(calls, start, world, t, Aggregated(Sum(db.claims, ClaimedOn(call.p)))); }
      else { Stays(calls, start, world, t, Written); }
    case Aggregated(sum) =>
      var policy := db.policies[call.p];
      if sum + call.claimed > policy.insuredValue { Stays(calls, start, world, t, Stopped(AggregateCapExceeded)); }
      else if policy.family == FRY && call.trigger == "" { Stays(calls, start, world, t, Stopped(TriggerRequired)); }
      else { Stays(calls, start, world, t, Written); }
  }

  lemma MoveKeeps(calls: seq<Call>, start: Database, world: World, t: nat)
    requires WorldOk(calls, start, world) && ClaimsPositive(world.db.claims) && t < |calls|
    ensures WorldOk(calls, start, Move(calls, world, t))
  {
    assert PhaseOk(world.db, calls[t], world.phases[t]);
    if world.phases[t].Idle? || world.phases[t].Waiting? { WaitingMoves(calls, start, world, t); }
    else if world.phases[t].Written? {
      if calls[t].Filing? { FilingCommits(calls, start, world, t); }
      else if calls[t].Rejecting? { RejectionCommits(calls, start, world, t); }
      else { CancellingCommits(calls, start, world, t); }
    }
    else if HoldsRow(world.phases[t]) { HolderMoves(calls, start, world, t); }
  }

  lemma MoveKeepsPositive(calls: seq<Call>, world: World, t: nat)
    requires |world.phases| == |calls| && t < |calls| && ClaimsPositive(world.db.claims)
    requires PhaseOk(world.db, calls[t], world.phases[t])
    ensures ClaimsPositive(Move(calls, world, t).db.claims)
  {
  }

  lemma {:induction false} ExecKeeps(calls: seq<Call>, start: Database, schedule: seq<nat>)
    requires Holds(start) && ClaimsPositive(start.claims)
    ensures WorldOk(calls, start, Exec(calls, start, schedule))
    ensures ClaimsPositive(Exec(calls, start, schedule).db.claims)
    decreases |schedule|
  {
    if schedule != [] {
      var world, t := Exec(calls, start, schedule[..|schedule| - 1]), schedule[|schedule| - 1];
      ExecKeeps(calls, start, schedule[..|schedule| - 1]);
      if t < |calls| {
        assert PhaseOk(world.db, calls[t], world.phases[t]);
        MoveKeeps(calls, start, world, t);
        MoveKeepsPositive(calls, world, t);
      }
    }
  }

  // ---------------------------------------------------------------------------- what follows

  /** No schedule commits claims beyond the insured value. */
  lemma CapHoldsAlways(ops: seq<Machine.Op>, calls: seq<Call>, schedule: seq<nat>, p: nat)
    ensures var db := Exec(calls, Machine.Run(ops), schedule).db;
            p < |db.policies| ==> Sum(db.claims, ClaimedOn(p)) <= db.policies[p].insuredValue
  {
    StartsWell(ops);
    ExecKeeps(calls, Machine.Run(ops), schedule);
    var db := Exec(calls, Machine.Run(ops), schedule).db;
    if p < |db.policies| { assert WithinCap(db.policies, db.claims, p); }
  }

  lemma StartsWell(ops: seq<Machine.Op>)
    ensures Holds(Machine.Run(ops)) && ClaimsPositive(Machine.Run(ops).claims)
  {
    Invariants.RunHolds(ops);
    forall c | 0 <= c < |Machine.Run(ops).claims| ensures Machine.Run(ops).claims[c].claimed >= 0 {
      assert Invariants.ClaimRows.ClaimOk(Machine.Run(ops).policies, Machine.Run(ops).claims[c]);
    }
  }

  /** A filing's aggregate, however stale, is never less than the committed claims. */
  lemma StaleAggregateOvercounts(ops: seq<Machine.Op>, calls: seq<Call>, schedule: seq<nat>, t: nat)
    requires t < |calls| && Exec(calls, Machine.Run(ops), schedule).phases[t].Aggregated?
    ensures var world := Exec(calls, Machine.Run(ops), schedule);
            calls[t].Filing? && Sum(world.db.claims, ClaimedOn(calls[t].p)) <= world.phases[t].sum
  {
    StartsWell(ops);
    ExecKeeps(calls, Machine.Run(ops), schedule);
    var world := Exec(calls, Machine.Run(ops), schedule);
    assert PhaseOk(world.db, calls[t], world.phases[t]);
  }
}

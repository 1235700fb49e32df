/**
 * file_fnol checks ACTIVE before it locks the policy and not again, so the commit order need not be a serial order:
 * a filing can commit after a cancellation it did not see. When it does is exactly when replaying the service's calls
 * in commit order goes wrong.
 */
module FnolOrder {
  import opened Wrappers
  import opened Records
  import Sequences
  import Lifecycle
  import opened Claims
  import Machine
  import opened FnolConcurrency
  import opened FnolSerial
  import Gates

  // --------------------------------------------------------- a filing after the cancellation

  lemma StepExec(calls: seq<Call>, start: Database, schedule: seq<nat>, t: nat, before: World, after: World)
    requires t < |calls| && Exec(calls, start, schedule) == before && Move(calls, before, t) == after
    ensures Exec(calls, start, schedule + [t]) == after
  {
    assert (schedule + [t])[..|schedule|] == schedule;
  }

  function Both(p: nat, ref: string, lossAt: int, claimed: int, trigger: string): seq<Call> {
    [Filing(p, ref, lossAt, claimed, trigger), Cancelling(p)]
  }

  function At(db: Database, filing: Phase, cancelling: Phase, committed: seq<nat>): World {
    World(db, [filing, cancelling], committed)
  }

  /** The filing reads the policy ACTIVE, and the cancellation runs from start to commit. */
  lemma CancelsMeanwhile(db: Database, p: nat, ref: string, lossAt: int, claimed: int, trigger: string)
    returns (schedule: seq<nat>)
    requires p < |db.policies| && FileFnol(db, p, ref, lossAt, claimed, trigger).Ok?
             && Lifecycle.CancelOrLapse(db, p, Cancelled).Ok?
    ensures Exec(Both(p, ref, lossAt, claimed, trigger), db, schedule)
            == At(Lifecycle.CancelOrLapse(db, p, Cancelled).value, Waiting, Committed, [1])
  {
    var calls := Both(p, ref, lossAt, claimed, trigger);
    assert Begin(calls, db) == At(db, Idle, Idle, []);
    StepExec(calls, db, [], 0, At(db, Idle, Idle, []), At(db, Waiting, Idle, []));
    StepExec(calls, db, [] + [0], 1, At(db, Waiting, Idle, []), At(db, Waiting, Waiting, []));
    schedule := [] + [0] + [1];
    schedule := Advance(calls, db, schedule, At(db, Waiting, Waiting, []), At(db, Waiting, Holding, []), 1);
    schedule := Advance(calls, db, schedule, At(db, Waiting, Holding, []), At(db, Waiting, Checked, []), 1);
    schedule := Advance(calls, db, schedule, At(db, Waiting, Checked, []), At(db, Waiting, Written, []), 1);
    assert [] + [1] == [1];
    schedule := Advance(calls, db, schedule, At(db, Waiting, Written, []),
                        At(Lifecycle.CancelOrLapse(db, p, Cancelled).value, Waiting, Committed, [1]), 1);
  }

  lemma Advance(calls: seq<Call>, db: Database, schedule: seq<nat>, before: World, after: World, t: nat)
    returns (longer: seq<nat>)
    requires t < |calls| && Exec(calls, db, schedule) == before && Move(calls, before, t) == after
    ensures Exec(calls, db, longer) == after
  {
    StepExec(calls, db, schedule, t, before, after);
    longer := schedule + [t];
  }

  lemma StillFits(db: Database, p: nat, ref: string, lossAt: int, claimed: int, trigger: string, after: Database)
    requires p < |db.policies| && FileFnol(db, p, ref, lossAt, claimed, trigger).Ok?
             && Lifecycle.CancelOrLapse(db, p, Cancelled) == Ok(after)
    ensures after.claims == db.claims && p < |after.policies|
            && after.policies[p] == db.policies[p].(status := Cancelled)
    ensures FileLate(after, p, ref, lossAt, claimed, trigger).Ok?
  {
  }

  /** With the policy cancelled, the waiting filing takes the lock, passes its checks and commits. */
  lemma FilesLate(calls: seq<Call>, db: Database, start: seq<nat>, late: Database, filed: Database)
    returns (schedule: seq<nat>)
    requires |calls| == 2 && calls[0].Filing? && calls[1] == Cancelling(calls[0].p) && calls[0].p < |late.policies|
    requires var c := calls[0]; FileLate(late, c.p, c.ref, c.lossAt, c.claimed, c.trigger) == Ok(filed)
    requires Exec(calls, db, start) == At(late, Waiting, Committed, [1])
    ensures Exec(calls, db, schedule) == At(filed, Committed, Committed, [1, 0])
  {
    schedule := Advance(calls, db, start, At(late, Waiting, Committed, [1]), At(late, Holding, Committed, [1]), 0);
    schedule := Advance(calls, db, schedule, At(late, Holding, Committed, [1]), At(late, Checked, Committed, [1]), 0);
    var sum := Aggregated(Sequences.Sum(late.claims, ClaimedOn(calls[0].p)));
    schedule := Advance(calls, db, schedule, At(late, Checked, Committed, [1]), At(late, sum, Committed, [1]), 0);
    schedule := Advance(calls, db, schedule, At(late, sum, Committed, [1]), At(late, Written, Committed, [1]), 0);
    assert [1] + [0] == [1, 0];
    schedule := Advance(calls, db, schedule, At(late, Written, Committed, [1]),
                        At(filed, Committed, Committed, [1, 0]), 0);
  }

  /** Wherever both calls would succeed, some schedule commits the cancellation and then the filing. */
  lemma FilingAfterCancellation(db: Database, p: nat, ref: string, lossAt: int, claimed: int, trigger: string)
    returns (schedule: seq<nat>)
    requires p < |db.policies| && FileFnol(db, p, ref, lossAt, claimed, trigger).Ok?
             && Lifecycle.CancelOrLapse(db, p, Cancelled).Ok?
    ensures var world := Exec(Both(p, ref, lossAt, claimed, trigger), db, schedule);
            && world.phases == [Committed, Committed] && world.committed == [1, 0]
            && p < |world.db.policies| && world.db.policies[p].status == Cancelled
            && world.db.claims == db.claims + [NewClaim(p, ref, lossAt, claimed, trigger)]
  {
    var calls := Both(p, ref, lossAt, claimed, trigger);
    var cancelled := Lifecycle.CancelOrLapse(db, p, Cancelled).value;
    StillFits(db, p, ref, lossAt, claimed, trigger, cancelled);
    schedule := CancelsMeanwhile(db, p, ref, lossAt, claimed, trigger);
    schedule := FilesLate(calls, db, schedule, cancelled, FileLate(cancelled, p, ref, lossAt, claimed, trigger).value);
  }

  // -------------------------------------------------------------- replaying the commit order

  /** The service's own calls, one after another, in the given order. */
  ghost function Replayed(calls: seq<Call>, db: Database, order: seq<nat>): Database {
    if order == [] then db
    else
      var before := Replayed(calls, db, order[..|order| - 1]);
      var t := order[|order| - 1];
      if t < |calls| then Machine.Step(before, OpOf(calls[t])) else before
  }

  predicate CancelledIn(calls: seq<Call>, order: seq<nat>, p: nat) {
    exists i :: 0 <= i < |order| && order[i] < |calls| && calls[order[i]] == Cancelling(p)
  }

  predicate StaleAt(calls: seq<Call>, order: seq<nat>, j: nat)
    requires j < |order|
  {
    order[j] < |calls| && calls[order[j]].Filing? && CancelledIn(calls, order[..j], calls[order[j]].p)
  }

  /** Some filing committed after a cancellation of its own policy. */
  predicate FilesStale(calls: seq<Call>, order: seq<nat>) { exists j :: 0 <= j < |order| && StaleAt(calls, order, j) }

  lemma StaleInPrefix(calls: seq<Call>, order: seq<nat>)
    requires order != []
    ensures var init := order[..|order| - 1];
            FilesStale(calls, order) <==> FilesStale(calls, init) || StaleAt(calls, order, |order| - 1)
  {
    var init := order[..|order| - 1];
    forall j | 0 <= j < |init| ensures StaleAt(calls, init, j) <==> StaleAt(calls, order, j) {
      assert init[..j] == order[..j] && init[j] == order[j];
    }
    if FilesStale(calls, init) {
      var j :| 0 <= j < |init| && StaleAt(calls, init, j);
      assert StaleAt(calls, order, j);
    }
  }

  // A policy nobody cancels keeps its row.
  lemma {:induction false} PolicyUntouched(calls: seq<Call>, db: Database, order: seq<nat>, p: nat)
    requires p < |db.policies| && !CancelledIn(calls, order, p)
    ensures p < |Serial(calls, db, order).policies| && Serial(calls, db, order).policies[p] == db.policies[p]
    decreases |order|
  {
    if order != [] {
      var init, t := order[..|order| - 1], order[|order| - 1];
      forall i | 0 <= i < |init| && init[i] < |calls| ensures calls[init[i]] != Cancelling(p) {
        assert init[i] == order[i];
      }
      PolicyUntouched(calls, db, init, p);
      SerialSnoc(calls, db, init, t);
      assert init + [t] == order;
    }
  }

  lemma {:induction false} FreshOrderReplays(calls: seq<Call>, db: Database, order: seq<nat>)
    requires FilingsActive(calls, db.policies, order) && !FilesStale(calls, order)
    ensures Replayed(calls, db, order) == Serial(calls, db, order)
    decreases |order|
  {
    if order != [] {
      var init, t := order[..|order| - 1], order[|order| - 1];
      StaleInPrefix(calls, order);
      FreshOrderReplays(calls, db, init);
      SerialSnoc(calls, db, init, t);
      assert init + [t] == order && t in order;
      if t < |calls| {
        if calls[t].Filing? { PolicyUntouched(calls, db, init, calls[t].p); }
        StepIsNext(calls, Serial(calls, db, init), t);
      }
    }
  }

  // ------------------------------------------------------------------------- counting claims

  function Filings(calls: seq<Call>, order: seq<nat>): nat {
    if order == [] then 0
    else Filings(calls, order[..|order| - 1]) + (if order[|order| - 1] < |calls| && calls[order[|order| - 1]].Filing?
                                                 then 1 else 0)
  }

  lemma FilingsSnoc(calls: seq<Call>, order: seq<nat>, t: nat)
    requires t < |calls|
    ensures Filings(calls, order + [t]) == Filings(calls, order) + (if calls[t].Filing? then 1 else 0)
  {
    assert (order + [t])[..|order|] == order;
  }

  function Unfiled(calls: seq<Call>, world: World): int { |world.db.claims| - Filings(calls, world.committed) }

  lemma CommitCounts(calls: seq<Call>, world: World, t: nat)
    requires |world.phases| == |calls| && t < |calls| && RowExists(world.db, RowOf(calls[t]))
    ensures Unfiled(calls, Commit(world, t, calls[t])) == Unfiled(calls, world)
  {
    FilingsSnoc(calls, world.committed, t);
  }

  /** Every committed filing stored one claim. */
  lemma MoveCounts(calls: seq<Call>, world: World, t: nat)
    requires |world.phases| == |calls| && t < |calls|
    ensures Unfiled(calls, Move(calls, world, t)) == Unfiled(calls, world)
  {
    if world.phases[t].Written? && RowExists(world.db, RowOf(calls[t])) { CommitCounts(calls, world, t); }
  }

  lemma {:induction false} ExecCounts(calls: seq<Call>, start: Database, schedule: seq<nat>)
    ensures var world := Exec(calls, start, schedule);
            |world.db.claims| == |start.claims| + Filings(calls, world.committed)
    decreases |schedule|
  {
    if schedule != [] {
      var world, t := Exec(calls, start, schedule[..|schedule| - 1]), schedule[|schedule| - 1];
      ExecCounts(calls, start, schedule[..|schedule| - 1]);
      if t < |calls| { MoveCounts(calls, world, t); }
    }
  }

  lemma {:induction false} ReplayIsRun(calls: seq<Call>, ops: seq<Machine.Op>, order: seq<nat>)
    returns (all: seq<Machine.Op>)
    ensures Machine.Run(all) == Replayed(calls, Machine.Run(ops), order)
    decreases |order|
  {
    if order == [] { return ops; }
    all := ReplayIsRun(calls, ops, order[..|order| - 1]);
    var t := order[|order| - 1];
    if t < |calls| {
      RunNext(all, OpOf(calls[t]));
      all := all + [OpOf(calls[t])];
    }
  }

  predicate NotActive(db: Database, p: nat) { p < |db.policies| ==> db.policies[p].status != Active }

  lemma StepNotActive(db: Database, call: Call, p: nat)
    requires NotActive(db, p)
    ensures NotActive(Machine.Step(db, OpOf(call)), p)
  {
  }

  lemma CancelNotActive(ops: seq<Machine.Op>, p: nat)
    ensures NotActive(Machine.Step(Machine.Run(ops), Machine.CancelOrLapse(p, Cancelled)), p)
  {
    if p < |Machine.Run(ops).policies| { Gates.StatusChangeSucceedsIff(ops, p, Cancelled); }
  }

  /** Once cancelled in the replay, a policy is not active in it. */
  lemma {:induction false} CancelledNotActive(calls: seq<Call>, ops: seq<Machine.Op>, order: seq<nat>, p: nat)
    requires CancelledIn(calls, order, p)
    ensures NotActive(Replayed(calls, Machine.Run(ops), order), p)
    decreases |order|
  {
    var init, t := order[..|order| - 1], order[|order| - 1];
    if t < |calls| && calls[t] == Cancelling(p) {
      var all := ReplayIsRun(calls, ops, init);
      CancelNotActive(all, p);
    } else {
      var i :| 0 <= i < |order| && order[i] < |calls| && calls[order[i]] == Cancelling(p);
      assert init[i] == order[i];
      CancelledNotActive(calls, ops, init, p);
      if t < |calls| { StepNotActive(Replayed(calls, Machine.Run(ops), init), calls[t], p); }
    }
  }

  lemma StepCounts(db: Database, call: Call)
    ensures |Machine.Step(db, OpOf(call)).claims| <= |db.claims| + (if call.Filing? then 1 else 0)
    ensures call.Filing? && NotActive(db, call.p) ==> |Machine.Step(db, OpOf(call)).claims| == |db.claims|
  {
  }

  /** A replay stores at most one claim a filing, and none for a stale one. */
  lemma {:induction false} ReplayCounts(calls: seq<Call>, ops: seq<Machine.Op>, order: seq<nat>)
    ensures var stored := |Replayed(calls, Machine.Run(ops), order).claims|;
            && stored <= |Machine.Run(ops).claims| + Filings(calls, order)
            && (FilesStale(calls, order) ==> stored < |Machine.Run(ops).claims| + Filings(calls, order))
    decreases |order|
  {
    if order != [] {
      var init, t := order[..|order| - 1], order[|order| - 1];
      ReplayCounts(calls, ops, init);
      StaleInPrefix(calls, order);
      if t < |calls| {
        StepCounts(Replayed(calls, Machine.Run(ops), init), calls[t]);
        if StaleAt(calls, order, |order| - 1) { CancelledNotActive(calls, ops, init, calls[t].p); }
      }
    }
  }

  /**
   * For every schedule, the commit order is a serial order of the service's own calls exactly when no filing
   * committed after a cancellation of its own policy.
   */
  lemma CommitOrderIsSerialIff(ops: seq<Machine.Op>, calls: seq<Call>, schedule: seq<nat>)
    ensures var world := Exec(calls, Machine.Run(ops), schedule);
            Replayed(calls, Machine.Run(ops), world.committed) == world.db <==> !FilesStale(calls, world.committed)
  {
    var start := Machine.Run(ops);
    var world := Exec(calls, start, schedule);
    StartsWell(ops);
    ExecKeeps(calls, start, schedule);
    ExecFiled(calls, start, schedule);
    CommittedSawActive(calls, start, world);
    if FilesStale(calls, world.committed) {
      ExecCounts(calls, start, schedule);
      ReplayCounts(calls, ops, world.committed);
    } else {
      FreshOrderReplays(calls, start, world.committed);
    }
  }
}

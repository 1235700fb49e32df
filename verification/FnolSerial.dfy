/**
 * A filing may commit after a cancellation it did not see. Every schedule still ends in the database of a serial
 * run of the service's own calls: the filings and rejections in commit order, then the cancellations in theirs.
 */
module FnolSerial {
  import opened Records
  import Machine
  import Invariants
  import opened Frames
  import opened FnolConcurrency

  // ------------------------------------------------------------ filings saw an active policy

  /** Nothing here makes a policy active, and every filing past its first read saw it active. */
  predicate SawActive(start: Database, db: Database, call: Call, phase: Phase) {
    call.Filing? && !phase.Idle? && !phase.Stopped? ==>
      call.p < |start.policies| && start.policies[call.p].status == Active
  }

  predicate StatusesFrom(start: seq<Policy>, policies: seq<Policy>) {
    |policies| == |start| && forall p :: 0 <= p < |policies| && policies[p].status == Active ==>
      start[p].status == Active
  }

  predicate Filed(calls: seq<Call>, start: Database, world: World) {
    && |world.phases| == |calls| && StatusesFrom(start.policies, world.db.policies)
    && (forall t :: 0 <= t < |calls| ==> SawActive(start, world.db, calls[t], world.phases[t]))
    && (forall k :: 0 <= k < |world.committed| ==>
          world.committed[k] < |calls| && world.phases[world.committed[k]].Committed?)
  }

  lemma CommitStatuses(start: seq<Policy>, world: World, t: nat, call: Call)
    requires t < |world.phases| && RowExists(world.db, RowOf(call)) && StatusesFrom(start, world.db.policies)
    ensures StatusesFrom(start, Commit(world, t, call).db.policies)
  {
  }

  lemma MoveFiled(calls: seq<Call>, start: Database, world: World, t: nat)
    requires Filed(calls, start, world) && t < |calls|
    ensures Filed(calls, start, Move(calls, world, t))
  {
    assert SawActive(start, world.db, calls[t], world.phases[t]);
    var after := Move(calls, world, t);
    if RowExists(world.db, RowOf(calls[t])) { CommitStatuses(start.policies, world, t, calls[t]); }
    MoveTouchesOne(calls, world, t);
    forall s | 0 <= s < |calls| ensures SawActive(start, after.db, calls[s], after.phases[s]) {
      assert SawActive(start, world.db, calls[s], world.phases[s]);
    }
  }

  lemma MoveTouchesOne(calls: seq<Call>, world: World, t: nat)
    requires |world.phases| == |calls| && t < |calls|
    ensures var after := Move(calls, world, t);
            && (forall s :: 0 <= s < |calls| && s != t ==> after.phases[s] == world.phases[s])
            && (world.phases[t].Committed? ==> after == world)
            && (after.committed == world.committed || (after.committed == world.committed + [t]
                                                       && after.phases[t].Committed?))
            && (world.phases[t].Idle? && after.phases[t] != world.phases[t] && !after.phases[t].Stopped?
                && calls[t].Filing?
                ==> calls[t].p < |world.db.policies| && world.db.policies[calls[t].p].status == Active)
            && (world.phases[t].Stopped? ==> after == world)
  {
  }

  lemma {:induction false} ExecFiled(calls: seq<Call>, start: Database, schedule: seq<nat>)
    ensures Filed(calls, start, Exec(calls, start, schedule))
    decreases |schedule|
  {
    if schedule != [] {
      ExecFiled(calls, start, schedule[..|schedule| - 1]);
      var t := schedule[|schedule| - 1];
      if t < |calls| { MoveFiled(calls, start, Exec(calls, start, schedule[..|schedule| - 1]), t); }
    }
  }

  // --------------------------------------------------------- moving the cancellations to the end

  function Part(calls: seq<Call>, order: seq<nat>, cancelling: bool): (r: seq<nat>)
    ensures forall t :: t in r ==> t in order && t < |calls| && calls[t].Cancelling? == cancelling
  {
    if order == [] then []
    else
      var t := order[|order| - 1];
      var rest := Part(calls, order[..|order| - 1], cancelling);
      if t < |calls| && calls[t].Cancelling? == cancelling then rest + [t] else rest
  }

  /** One serial step. */
  ghost function Next(calls: seq<Call>, db: Database, t: nat): Database {
    if t < |calls| && RowExists(db, RowOf(calls[t])) && Late(db, calls[t]).Ok? then Late(db, calls[t]).value else db
  }

  lemma SerialSnoc(calls: seq<Call>, db: Database, order: seq<nat>, t: nat)
    ensures Serial(calls, db, order + [t]) == Next(calls, Serial(calls, db, order), t)
  {
    assert (order + [t])[..|order|] == order;
  }

  /** Two databases that differ only in the claims, or only in statuses and snapshots. */
  predicate SameButClaims(a: Database, b: Database) { b == a.(claims := b.claims) }

  /** A filing or rejection does the same to the claims whatever the statuses are. */
  lemma ClaimStepIgnoresStatuses(calls: seq<Call>, a: Database, b: Database, t: nat)
    requires OnlyStatuses(a, b) && t < |calls| && !calls[t].Cancelling?
    ensures Next(calls, b, t) == b.(claims := Next(calls, a, t).claims) && SameButClaims(a, Next(calls, a, t))
    ensures OnlyStatuses(Next(calls, a, t), Next(calls, b, t))
  {
    if calls[t].Filing? && calls[t].p < |a.policies| {
      assert SameTerms(a.policies[calls[t].p], b.policies[calls[t].p]);
    }
  }

  /** A cancellation does the same to the policies and snapshots whatever the claims are. */
  lemma CancelStepIgnoresClaims(calls: seq<Call>, a: Database, b: Database, t: nat)
    requires SameButClaims(a, b) && t < |calls| && calls[t].Cancelling?
    ensures Next(calls, b, t) == b.(policies := Next(calls, a, t).policies, snapshots := Next(calls, a, t).snapshots)
    ensures SameButClaims(Next(calls, a, t), Next(calls, b, t)) && OnlyStatuses(a, Next(calls, a, t))
  {
  }

  lemma OnlyStatusesTransitive(a: Database, b: Database, c: Database)
    requires OnlyStatuses(a, b) && OnlyStatuses(b, c)
    ensures OnlyStatuses(a, c)
  {
    TermsKeptTransitive(a.policies, b.policies, c.policies);
  }

  lemma {:induction false} CancelsOnlyStatuses(calls: seq<Call>, db: Database, order: seq<nat>)
    ensures OnlyStatuses(db, Serial(calls, db, Part(calls, order, true)))
    decreases |order|
  {
    if order != [] {
      var init, t := order[..|order| - 1], order[|order| - 1];
      CancelsOnlyStatuses(calls, db, init);
      var before := Serial(calls, db, Part(calls, init, true));
      SerialSnoc(calls, db, Part(calls, init, true), t);
      if t < |calls| && calls[t].Cancelling? {
        CancelStepIgnoresClaims(calls, before, before, t);
        OnlyStatusesTransitive(db, before, Next(calls, before, t));
      }
    }
  }

  lemma {:induction false} CancelsAfterClaims(calls: seq<Call>, a: Database, b: Database, order: seq<nat>)
    requires SameButClaims(a, b)
    ensures SameButClaims(Serial(calls, a, Part(calls, order, true)), Serial(calls, b, Part(calls, order, true)))
    ensures Serial(calls, b, Part(calls, order, true)).claims == b.claims
    decreases |order|
  {
    if order != [] {
      var init, t := order[..|order| - 1], order[|order| - 1];
      CancelsAfterClaims(calls, a, b, init);
      var part := Part(calls, init, true);
      SerialSnoc(calls, a, part, t);
      SerialSnoc(calls, b, part, t);
      if t < |calls| && calls[t].Cancelling? {
        CancelStepIgnoresClaims(calls, Serial(calls, a, part), Serial(calls, b, part), t);
      }
    }
  }

  /** The serial run splits into what it does to claims and what it does to statuses. */
  lemma {:induction false} SerialSplits(calls: seq<Call>, db: Database, order: seq<nat>)
    ensures SameButClaims(db, Serial(calls, db, Part(calls, order, false)))
    ensures OnlyStatuses(Serial(calls, db, Part(calls, order, false)), Serial(calls, db, order))
    ensures SameButClaims(Serial(calls, db, Part(calls, order, true)), Serial(calls, db, order))
    decreases |order|
  {
    if order != [] {
      var init, t := order[..|order| - 1], order[|order| - 1];
      SerialSplits(calls, db, init);
      SerialSnoc(calls, db, init, t);
      assert init + [t] == order;
      SerialSnoc(calls, db, Part(calls, init, false), t);
      SerialSnoc(calls, db, Part(calls, init, true), t);
      SplitStep(calls, Serial(calls, db, Part(calls, init, false)), Serial(calls, db, Part(calls, init, true)),
                Serial(calls, db, init), t);
      if t < |calls| && !calls[t].Cancelling? {
        var filed := Serial(calls, db, Part(calls, init, false));
        ClaimStepIgnoresStatuses(calls, filed, filed, t);
      }
    }
  }

  lemma SplitStep(calls: seq<Call>, filed: Database, cancelled: Database, both: Database, t: nat)
    requires OnlyStatuses(filed, both) && SameButClaims(cancelled, both)
    ensures t < |calls| && !calls[t].Cancelling? ==>
              OnlyStatuses(Next(calls, filed, t), Next(calls, both, t))
                && SameButClaims(cancelled, Next(calls, both, t))
    ensures t < |calls| && calls[t].Cancelling? ==>
              OnlyStatuses(filed, Next(calls, both, t))
                && SameButClaims(Next(calls, cancelled, t), Next(calls, both, t))
    ensures t >= |calls| ==> Next(calls, both, t) == both
  {
    if t < |calls| {
      if calls[t].Cancelling? {
        CancelStepIgnoresClaims(calls, cancelled, both, t);
        CancelStepIgnoresClaims(calls, both, both, t);
        OnlyStatusesTransitive(filed, both, Next(calls, both, t));
      } else {
        ClaimStepIgnoresStatuses(calls, filed, both, t);
      }
    }
  }

  /** The same database comes of all the filings and rejections first, then all the cancellations. */
  lemma CancelsCanGoLast(calls: seq<Call>, db: Database, order: seq<nat>)
    ensures Serial(calls, db, order)
            == Serial(calls, Serial(calls, db, Part(calls, order, false)), Part(calls, order, true))
  {
    var filed := Serial(calls, db, Part(calls, order, false));
    SerialSplits(calls, db, order);
    CancelsAfterClaims(calls, db, filed, order);
    CancelsOnlyStatuses(calls, filed, order);
  }

  // ------------------------------------------------------------------ as runs of the service

  function OpOf(call: Call): Machine.Op {
    match call
    case Filing(p, ref, lossAt, claimed, trigger) => Machine.FileFnol(p, ref, lossAt, claimed, trigger)
    case Rejecting(c) => Machine.RejectClaim(c)
    case Cancelling(p) => Machine.CancelOrLapse(p, Cancelled)
  }

  lemma StepIsNext(calls: seq<Call>, db: Database, t: nat)
    requires t < |calls|
    requires calls[t].Filing? ==> calls[t].p < |db.policies| && db.policies[calls[t].p].status == Active
    ensures Machine.Step(db, OpOf(calls[t])) == Next(calls, db, t)
  {
  }

  lemma RunNext(ops: seq<Machine.Op>, op: Machine.Op)
    ensures Machine.Run(ops + [op]) == Machine.Step(Machine.Run(ops), op)
  {
    assert (ops + [op])[..|ops|] == ops;
  }

  predicate FilingsActive(calls: seq<Call>, policies: seq<Policy>, order: seq<nat>) {
    forall t :: t in order && t < |calls| && calls[t].Filing? ==>
      calls[t].p < |policies| && policies[calls[t].p].status == Active
  }

  lemma {:induction false} FilingsAreRun(calls: seq<Call>, ops: seq<Machine.Op>, order: seq<nat>)
    returns (all: seq<Machine.Op>)
    requires FilingsActive(calls, Machine.Run(ops).policies, order)
    ensures Machine.Run(all) == Serial(calls, Machine.Run(ops), Part(calls, order, false))
    decreases |order|
  {
    if order == [] { return ops; }
    var init, t := order[..|order| - 1], order[|order| - 1];
    var before := FilingsAreRun(calls, ops, init);
    SerialSplits(calls, Machine.Run(ops), init);
    SerialSnoc(calls, Machine.Run(ops), Part(calls, init, false), t);
    if t < |calls| && !calls[t].Cancelling? {
      StepIsNext(calls, Machine.Run(before), t);
      RunNext(before, OpOf(calls[t]));
      return before + [OpOf(calls[t])];
    }
    return before;
  }

  lemma {:induction false} CancelsAreRun(calls: seq<Call>, ops: seq<Machine.Op>, order: seq<nat>)
    returns (all: seq<Machine.Op>)
    ensures Machine.Run(all) == Serial(calls, Machine.Run(ops), Part(calls, order, true))
    decreases |order|
  {
    if order == [] { return ops; }
    var init, t := order[..|order| - 1], order[|order| - 1];
    var before := CancelsAreRun(calls, ops, init);
    SerialSnoc(calls, Machine.Run(ops), Part(calls, init, true), t);
    if t < |calls| && calls[t].Cancelling? {
      StepIsNext(calls, Machine.Run(before), t);
      RunNext(before, OpOf(calls[t]));
      return before + [OpOf(calls[t])];
    }
    return before;
  }

  /** Started in a reachable database, any schedule ends in a reachable database, so every law still holds. */
  lemma ConcurrentRunsAreRuns(ops: seq<Machine.Op>, calls: seq<Call>, schedule: seq<nat>) returns (all: seq<Machine.Op>)
    ensures Exec(calls, Machine.Run(ops), schedule).db == Machine.Run(all)
    ensures Invariants.Inv(Exec(calls, Machine.Run(ops), schedule).db)
  {
    var start := Machine.Run(ops);
    var world := Exec(calls, start, schedule);
    StartsWell(ops);
    ExecKeeps(calls, start, schedule);
    ExecFiled(calls, start, schedule);
    CommittedSawActive(calls, start, world);
    CancelsCanGoLast(calls, start, world.committed);
    var filed := FilingsAreRun(calls, ops, world.committed);
    all := CancelsAreRun(calls, filed, world.committed);
    Invariants.RunHolds(all);
  }

  lemma CommittedSawActive(calls: seq<Call>, start: Database, world: World)
    requires Filed(calls, start, world)
    ensures FilingsActive(calls, start.policies, world.committed)
  {
    forall t | t in world.committed && t < |calls| && calls[t].Filing?
      ensures calls[t].p < |start.policies| && start.policies[calls[t].p].status == Active
    {
      assert SawActive(start, world.db, calls[t], world.phases[t]);
    }
  }
}

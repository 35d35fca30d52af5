/** One process running a startup epoch while any number of others do the same. */
module StartupEpoch {
  import opened Options
  import opened OrderLedger
  import opened Outcomes
  import opened PlanCancel
  import opened Positions
  import opened StartupGate

  datatype FailureCode = GenerationMissing | DependencyUnavailable | ReconciliationFailed | GenerationChanged

  datatype EpochResult = Ready(generation: int, superseded: Option<int>) | NotReady(code: FailureCode)

  class Epoch {
    /** The shared row and ledger, and what every process has in flight. */
    var world: World
    ghost var trace: Trace
    const service: TradingService
    const upper: Upper
    const pid: int

    ghost predicate Traced()
      reads this
    {
      StartupGate.Run(trace, upper) && trace.states[|trace.events|] == world
    }

    /** The world's ledger is the one the service writes. */
    ghost predicate Valid()
      reads this, service
    {
      Traced() && service.Valid() && world.ledger == service.db
    }

    constructor (service: TradingService, upper: Upper, pid: int, broker: seq<Position>)
      requires service.Valid()
      ensures Valid() && this.service == service && this.upper == upper && this.pid == pid
      ensures world == World(None, map[], service.db, broker) && trace == Trace([world], [])
    {
      this.service, this.upper, this.pid := service, upper, pid;
      world := World(None, map[], service.db, broker);
      trace := Trace([World(None, map[], service.db, broker)], []);
    }

    method Step(e: Event)
      requires Traced() && Enabled(world, e) && Honest(world, upper, e)
      modifies this
      ensures Traced() && world == Next(old(world), e)
      ensures trace == Trace(old(trace).states + [world], old(trace).events + [e])
    {
      StartupGate.RunExtend(trace, upper, e);
      world := Next(world, e);
      trace := Trace(trace.states + [world], trace.events + [e]);
    }

    /** Makes what the service has committed part of the trace. */
    method Publish()
      requires Traced() && service.Valid()
      modifies this
      ensures Valid() && Extends(old(trace), trace) && world == old(world).(ledger := service.db)
    {
      Step(Commits(service.db));
    }

    /** Opens a new generation: any earlier proof is gone until a pass repeats it. */
    method RequireGeneration(enabled: bool) returns (g: Option<int>)
      requires Valid()
      modifies this
      ensures Valid() && Extends(old(trace), trace) && world.passes == old(world.passes)
      ensures if enabled then g == Some(Generation(world)) && Generation(world) == old(Generation(world)) + 1
              else g.None? && world == old(world)
      ensures enabled ==> forall now, expected {:trigger IsCurrent(world.row, expected, now)} ::
                            !IsCurrent(world.row, expected, now)
    {
      if !enabled { return None; }
      var now := Clock();
      Step(Require(now));
      g := Some(Generation(world));
    }

    /** Any number of events of other processes, of commits and of trades; this
        process's pass is left alone. */
    method Others()
      requires Valid()
      modifies this, service
      ensures Valid() && Extends(old(trace), trace)
      ensures pid in world.passes <==> pid in old(world.passes)
      ensures pid in world.passes ==> world.passes[pid] == old(world.passes[pid])
    {
      var steps: nat := *;
      while steps > 0
        invariant Valid() && Extends(old(trace), trace)
        invariant pid in world.passes <==> pid in old(world.passes)
        invariant pid in world.passes ==> world.passes[pid] == old(world.passes[pid])
      {
        OtherEvent();
        steps := steps - 1;
      }
    }

    method OtherEvent()
      requires Valid()
      modifies this, service
      ensures Valid() && Extends(old(trace), trace)
      ensures pid in world.passes <==> pid in old(world.passes)
      ensures pid in world.passes ==> world.passes[pid] == old(world.passes[pid])
    {
      var e: Event := *;
      if e.Commits? {
        service.OtherCommits();
        Publish();
      } else if Actor(e) != Some(pid) && Enabled(world, e) {
        if e.Check? {
          var drift := PositionDrift(upper, world.passes[e.pid].phase.positions, world.ledger.fills);
          e := e.(agreed := drift == map[]);
        }
        Step(e);
      }
    }

    method Clock() returns (now: int) { now := *; }

    /** Compares the broker's positions with the trusted fills of the ledger; drift
        trips the breaker in the same commit as the audit row. */
    method ReconcilePositions() returns (r: Outcome<bool>, positions: seq<Position>)
      requires Valid() && pid in world.passes && world.passes[pid].phase.Synced?
      modifies this, service
      ensures Valid() && Extends(old(trace), trace) && pid in world.passes
      ensures world.passes[pid].target == old(world.passes[pid].target)
      ensures r.Ok? ==> world.passes[pid].phase == Checked(old(world.passes[pid].phase.report), r.value)
      ensures r.Ok? ==> (r.value <==> Agree(upper, positions, service.db.fills)) && positions == old(world.broker)
      ensures r == Ok(false) ==> service.db.drift
    {
      positions := world.broker;
      var available: bool := *;
      if !available {
        service.AppendAudit("positions.reconcile", 0);
        Publish();
        return Raised, positions;
      }
      Step(Fetch(pid));
      Others();
      var drift := PositionDrift(upper, positions, service.db.fills);
      CommitComparison(drift != map[]);
      Publish();
      Step(Check(pid, drift == map[]));
      r := Ok(drift == map[]);
    }

    method CommitComparison(drifted: bool)
      requires service.Valid()
      modifies service
      ensures service.Valid() && old(service.history) <= service.history
      ensures service.db.fills == old(service.db.fills) && service.db.orders == old(service.db.orders)
      ensures service.db.drift <==> drifted || old(service.db.drift)
    {
      var db := if drifted then Tripped(service.db) else service.db;
      var next := db.(audits := db.audits + [OtherAudit("positions.reconcile", 0)]);
      assert BackgroundStep(service.db, next) by {
        forall x | x in service.db.orders ensures BackgroundOrder(service.db.orders[x], next.orders[x]) {}
      }
      BackgroundIsLegal(service.db, next);
      service.Commit(next);
    }

    /** Persists the failure, unless the generation is stale or complete. */
    method GiveUp()
      requires Valid() && pid in world.passes
      modifies this, service
      ensures Valid() && Extends(old(trace), trace) && pid !in world.passes
      ensures |trace.events| > 0 && trace.events[|trace.events| - 1].Fail?
    {
      Others();
      var now := Clock();
      Step(Fail(pid, now));
    }

    /** The sync, recorded with the ledger it left. */
    method ObserveOrders() returns (r: Outcome<SyncReport>)
      requires Valid() && pid in world.passes && world.passes[pid].phase.Begun?
      modifies this, service
      ensures Valid() && Extends(old(trace), trace) && pid in world.passes
      ensures world.passes[pid].target == old(world.passes[pid].target)
      ensures r.Ok? ==> world.passes[pid].phase == Synced(r.value) && ReportsLedger(r.value, service.db)
    {
      r := service.SyncOpenOrders();
      Publish();
      if r.Ok? { Step(Sync(pid, r.value)); }
    }

    /** Orders first, positions second; what is recorded is what was seen. */
    method Observe() returns (failure: Option<FailureCode>, sync: Outcome<SyncReport>, agreed: Outcome<bool>,
                              ghost m: Marks)
      requires Valid() && pid in world.passes && world.passes[pid].phase.Begun?
      modifies this, service
      ensures Valid() && Extends(old(trace), trace)
      ensures pid in world.passes && world.passes[pid].target == old(world.passes[pid].target)
      ensures failure.None? <==> sync.Ok? && agreed.Ok?
      ensures failure.None? ==> world.passes[pid].phase == Checked(sync.value, agreed.value)
      ensures DoneSoFar(trace, upper, |trace.events|, pid, world.passes[pid], m)
      ensures failure.Some? ==> failure.value in {DependencyUnavailable, ReconciliationFailed}
    {
      var dependency: bool := *;
      var code := if dependency then DependencyUnavailable else ReconciliationFailed;
      agreed := Raised;
      sync := ObserveOrders();
      if sync.Ok? {
        Others();
        var compared, _ := ReconcilePositions();
        agreed := compared;
      }
      m := PassHistory(trace, upper, |trace.events|, pid);
      failure := if sync.Ok? && agreed.Ok? then None else Some(code);
    }

    /** Commits a pass without faults, if its generation is still the newest. */
    method Conclude() returns (failure: Option<FailureCode>, ghost p: Proof)
      requires Valid() && pid in world.passes && world.passes[pid].phase.Checked?
      modifies this, service
      ensures Valid() && Extends(old(trace), trace) && pid !in world.passes
      ensures failure.None? ==> Generation(world) == old(world.passes[pid].target) &&
                                Certifies(trace, upper, p, Generation(world), |trace.events|)
      ensures failure.Some? ==> failure.value in {ReconciliationFailed, GenerationChanged}
    {
      p := Proof(pid, 0, 0, 0, 0, 0, 0);
      var phase := world.passes[pid].phase;
      if Faults(phase.report, phase.agreed) != [] {
        GiveUp();
        return Some(ReconciliationFailed), p;
      }
      Others();
      failure, p := CommitPass();
    }

    method CommitPass() returns (failure: Option<FailureCode>, ghost p: Proof)
      requires Valid() && pid in world.passes && world.passes[pid].phase.Checked?
      requires Faults(world.passes[pid].phase.report, world.passes[pid].phase.agreed) == []
      modifies this
      ensures Valid() && Extends(old(trace), trace) && pid !in world.passes
      ensures failure.None? ==> Generation(world) == old(world.passes[pid].target) &&
                                Certifies(trace, upper, p, Generation(world), |trace.events|)
      ensures failure.Some? ==> failure.value == GenerationChanged
    {
      p := Proof(pid, 0, 0, 0, 0, 0, 0);
      var now := Clock();
      var commit := Complete(pid, now);
      var accepted := Accepted(world, commit);
      ghost var i := |trace.events|;
      Step(commit);
      if !accepted { return Some(GenerationChanged), p; }
      assert trace.states[i] == old(world) && trace.events[i] == commit;
      p := CommitIsCertified(trace, upper, i);
      failure := None;
    }

    /** A generation somebody else has completed needs no pass. */
    method AlreadyCurrent() returns (yes: bool, ghost p: Proof)
      requires Valid() && pid in world.passes && world.passes[pid].phase.Begun?
      modifies this, service
      ensures Valid() && Extends(old(trace), trace)
      ensures !yes ==> pid in world.passes && world.passes[pid] == old(world.passes[pid])
      ensures yes ==> pid !in world.passes && Generation(world) == old(world.passes[pid].target) &&
                      Certifies(trace, upper, p, Generation(world), |trace.events|)
    {
      Others();
      var now := Clock();
      var target := world.passes[pid].target;
      yes := IsCurrent(world.row, Some(target), now);
      p := Proof(pid, 0, 0, 0, 0, 0, 0);
      if yes {
        Step(Drop(pid));
        p := ReadyIsCertified(trace, upper, |trace.events|, target, now);
      }
    }

    method RunPass() returns (failure: Option<FailureCode>, ghost p: Proof)
      requires Valid() && pid in world.passes && world.passes[pid].phase.Begun?
      modifies this, service
      ensures Valid() && Extends(old(trace), trace) && pid !in world.passes
      ensures failure.None? ==> Generation(world) == old(world.passes[pid].target) &&
                                Certifies(trace, upper, p, Generation(world), |trace.events|)
      ensures failure != Some(GenerationMissing)
    {
      var observed, _, _, _ := Observe();
      failure := observed;
      p := Proof(pid, 0, 0, 0, 0, 0, 0);
      if failure.Some? { GiveUp(); } else { failure, p := Conclude(); }
    }

    /** Ready is returned only for the newest generation, and only when a clean
        pass for it ran entirely after it was opened: no failure, no open cancel
        intent in the ledger, and broker positions equal to the trusted fills. */
    method ReconcileStartupEpoch(generation: int, enabled: bool) returns (r: EpochResult, ghost p: Proof)
      requires Valid() && pid !in world.passes
      modifies this, service
      ensures Valid() && Extends(old(trace), trace) && pid !in world.passes
      ensures r.Ready? ==> r.generation == Generation(world) &&
                           Certifies(trace, upper, p, r.generation, |trace.events|)
      ensures r.Ready? ==> r.superseded == if generation != r.generation then Some(generation) else None
      ensures r == NotReady(GenerationMissing) <==> !enabled || old(Generation(world)) <= 0
    {
      var target := if enabled then Generation(world) else 0;
      p := Proof(pid, 0, 0, 0, 0, 0, 0);
      if target <= 0 { return NotReady(GenerationMissing), p; }
      Step(Begin(pid));
      var ready;
      ready, p := AlreadyCurrent();
      if !ready {
        var failure;
        failure, p := RunPass();
        if failure.Some? { return NotReady(failure.value), p; }
      }
      r := Ready(target, if generation != target then Some(generation) else None);
    }
  }

  ghost predicate Extends(t: Trace, t': Trace) { t.states <= t'.states && t.events <= t'.events }
}

/** The generation-stamped startup latch: one durable row, and the passes of any
    number of processes that race to complete the newest generation, beside a
    ledger and a broker that go on changing. */
module StartupGate {
  import opened Options
  import opened OrderLedger
  import opened Positions
  import opened PlanCancel

  // ------------------------------------------------------------------ the row

  datatype GateStatus = Required | Current | Failed

  datatype Row = Row(generation: int, completed: int, status: GateStatus, started: int, completedAt: Option<int>,
                     updated: int)

  /** Invalidates any earlier proof and opens a new generation. */
  function RequireRow(row: Option<Row>, now: int): Row {
    if row.None? then Row(1, 0, Required, now, None, now)
    else row.value.(generation := row.value.generation + 1, status := Required, started := now, completedAt := None,
                    updated := now)
  }

  /** Compare-and-set on the newest generation; None when it is not the newest. */
  function CompleteRow(row: Option<Row>, generation: int, now: int): Option<Row> {
    if row.None? || row.value.generation != generation then None
    else if row.value.status.Current? && row.value.completed == generation then row
    else Some(row.value.(completed := generation, status := Current, completedAt := Some(now), updated := now))
  }

  /** A stale or completed generation is not failed; None then. */
  function FailRow(row: Option<Row>, generation: int, now: int): Option<Row> {
    if row.None? || row.value.generation != generation || row.value.completed >= generation then None
    else Some(row.value.(status := Failed, completedAt := None, updated := now))
  }

  /** What the validation of a stored snapshot accepts. */
  predicate ValidSnapshot(r: Row, now: int) {
    && r.generation > 0 && 0 <= r.completed <= r.generation
    && r.started <= r.updated <= now
    && if r.status.Current?
       then r.completed == r.generation && r.completedAt.Some? && r.started <= r.completedAt.value <= r.updated
       else r.completed < r.generation && r.completedAt.None?
  }

  predicate IsCurrent(row: Option<Row>, expected: Option<int>, now: int) {
    && row.Some? && ValidSnapshot(row.value, now)
    && (expected.Some? ==> expected.value > 0 && row.value.generation == expected.value)
    && row.value.status.Current?
  }

  // ------------------------------------------------------------- the faults of a pass

  /** The fault list, in the order the epoch builds it. */
  function Faults(report: SyncReport, agreed: bool): seq<string> {
    var drift := report.report.brokerDrift;
    var unresolved := if report.report.unresolved != [] then drift + ["unresolved acceptance orders"] else drift;
    var positions := if !agreed then unresolved + ["position reconciliation drift"] else unresolved;
    var failed := if report.failed != 0 && positions == [] then ["broker order reconciliation failed"] else positions;
    if report.remaining != {} then failed + ["unresolved plan cancellation intents"] else failed
  }

  predicate CleanSync(report: SyncReport) {
    && report.report.brokerDrift == [] && report.report.unresolved == []
    && report.failed == 0 && report.remaining == {}
  }

  lemma NoFaultsIffClean(report: SyncReport, agreed: bool)
    ensures Faults(report, agreed) == [] <==> CleanSync(report) && agreed
  {
  }

  // ------------------------------------------------------------------ the machine

  /** A sync reports what the ledger holds when it ends: the open intents, and a
      tripped breaker unless nothing failed. */
  predicate ReportsLedger(report: SyncReport, ledger: Db) {
    && report.remaining == Intents(ledger) && report.planCancelFailures >= |report.remaining|
    && report.failed == |report.report.unresolved| + |report.report.brokerDrift| + report.planCancelFailures
    && (report.failed == 0 || ledger.drift)
  }

  datatype Phase = Begun | Synced(report: SyncReport) | Fetched(report: SyncReport, positions: seq<Position>)
                 | Checked(report: SyncReport, agreed: bool)

  datatype Pass = Pass(target: int, phase: Phase)

  /** The row, the passes in flight by process, the ledger all processes share
      and the positions the broker really holds. */
  datatype World = World(row: Option<Row>, passes: map<int, Pass>, ledger: Db, broker: seq<Position>)

  datatype Event =
    | Require(now: int)
    | Begin(pid: int)
    | Sync(pid: int, report: SyncReport)
    | Fetch(pid: int)
    | Check(pid: int, agreed: bool)
    | Complete(pid: int, now: int)
    | Fail(pid: int, now: int)
    | Drop(pid: int)
    | Commits(ledger: Db)
    | Trades(broker: seq<Position>)

  /** The process whose pass an event moves; requires, commits and trades belong
      to no pass. */
  function Actor(e: Event): Option<int> {
    match e
    case Require(_) => None
    case Begin(pid) => Some(pid)
    case Sync(pid, _) => Some(pid)
    case Fetch(pid) => Some(pid)
    case Check(pid, _) => Some(pid)
    case Complete(pid, _) => Some(pid)
    case Fail(pid, _) => Some(pid)
    case Drop(pid) => Some(pid)
    case Commits(_) => None
    case Trades(_) => None
  }

  function Generation(w: World): int { if w.row.None? then 0 else w.row.value.generation }

  /** Whether an event can happen. Only a pass without faults asks to complete;
      any pass can fail at any point, or end without writing (its process died,
      or it found the generation already current). */
  predicate Enabled(w: World, e: Event) {
    match e
    case Require(_) => true
    case Begin(pid) => pid !in w.passes && Generation(w) > 0
    case Sync(pid, report) => pid in w.passes && w.passes[pid].phase.Begun? && ReportsLedger(report, w.ledger)
    case Fetch(pid) => pid in w.passes && w.passes[pid].phase.Synced?
    case Check(pid, _) => pid in w.passes && w.passes[pid].phase.Fetched?
    case Complete(pid, _) =>
      && pid in w.passes && w.passes[pid].phase.Checked?
      && Faults(w.passes[pid].phase.report, w.passes[pid].phase.agreed) == []
    case Fail(pid, _) => pid in w.passes
    case Drop(pid) => pid in w.passes
    case Commits(_) => true
    case Trades(_) => true
  }

  /** Whether a compare-and-set event takes effect. */
  predicate Accepted(w: World, e: Event)
    requires Enabled(w, e) && (e.Complete? || e.Fail?)
  {
    if e.Complete? then CompleteRow(w.row, w.passes[e.pid].target, e.now).Some?
    else FailRow(w.row, w.passes[e.pid].target, e.now).Some?
  }

  function Next(w: World, e: Event): World
    requires Enabled(w, e)
  {
    match e
    case Require(now) => w.(row := Some(RequireRow(w.row, now)))
    case Begin(pid) => w.(passes := w.passes[pid := Pass(Generation(w), Begun)])
    case Sync(pid, report) => w.(passes := w.passes[pid := w.passes[pid].(phase := Synced(report))])
    case Fetch(pid) =>
      w.(passes := w.passes[pid := w.passes[pid].(phase := Fetched(w.passes[pid].phase.report, w.broker))])
    case Check(pid, agreed) =>
      w.(passes := w.passes[pid := w.passes[pid].(phase := Checked(w.passes[pid].phase.report, agreed))])
    case Complete(pid, now) =>
      var row := CompleteRow(w.row, w.passes[pid].target, now);
      w.(row := if row.Some? then row else w.row, passes := w.passes - {pid})
    case Fail(pid, now) =>
      var row := FailRow(w.row, w.passes[pid].target, now);
      w.(row := if row.Some? then row else w.row, passes := w.passes - {pid})
    case Drop(pid) => w.(passes := w.passes - {pid})
    case Commits(ledger) => w.(ledger := ledger)
    case Trades(broker) => w.(broker := broker)
  }

  // ---------------------------------------------------------------------- runs

  /** `states[i]` is the world before `events[i]`. */
  datatype Trace = Trace(states: seq<World>, events: seq<Event>)

  /** A check tells whether the positions fetched agree with the fills in the
      ledger. Commits may leave any ledger at all. */
  ghost predicate Honest(w: World, upper: Upper, e: Event)
    requires Enabled(w, e)
  {
    e.Check? ==> (e.agreed <==> Agree(upper, w.passes[e.pid].phase.positions, w.ledger.fills))
  }

  ghost predicate StepAt(t: Trace, upper: Upper, i: nat)
    requires i < |t.events| && |t.states| == |t.events| + 1
  {
    && Enabled(t.states[i], t.events[i])
    && Honest(t.states[i], upper, t.events[i])
    && t.states[i + 1] == Next(t.states[i], t.events[i])
  }

  /** Every interleaving that starts on an empty table, with any ledger. */
  ghost predicate Run(t: Trace, upper: Upper) {
    && |t.states| == |t.events| + 1
    && t.states[0].row.None? && t.states[0].passes == map[]
    && forall i {:trigger StepAt(t, upper, i)} :: 0 <= i < |t.events| ==> StepAt(t, upper, i)
  }

  lemma RunExtend(t: Trace, upper: Upper, e: Event)
    requires Run(t, upper) && Enabled(t.states[|t.events|], e)
    requires Honest(t.states[|t.events|], upper, e)
    ensures Run(Trace(t.states + [Next(t.states[|t.events|], e)], t.events + [e]), upper)
  {
    var t' := Trace(t.states + [Next(t.states[|t.events|], e)], t.events + [e]);
    forall i | 0 <= i < |t'.events| ensures StepAt(t', upper, i) {
      if i < |t.events| { assert StepAt(t, upper, i); }
    }
  }

  /** Generations only grow, and grow exactly at a require. */
  lemma {:induction false} GenerationGrows(t: Trace, upper: Upper, i: nat, j: nat)
    requires Run(t, upper) && i <= j <= |t.events|
    ensures 0 <= Generation(t.states[i]) <= Generation(t.states[j])
    ensures Generation(t.states[i]) == Generation(t.states[j]) <==> NoRequire(t, i, j)
    decreases j, i
  {
    if i < j {
      GenerationGrows(t, upper, i, j - 1);
      assert StepAt(t, upper, j - 1);
    } else if i > 0 {
      GenerationGrows(t, upper, i - 1, i);
    }
  }

  ghost predicate NoRequire(t: Trace, i: nat, j: nat)
    requires i <= j <= |t.events|
  {
    forall k :: i <= k < j ==> !t.events[k].Require?
  }

  /** The row's own consistency in every reachable state. */
  ghost predicate RowConsistent(row: Option<Row>) {
    row.Some? ==> && row.value.generation > 0 && 0 <= row.value.completed <= row.value.generation
                  && (row.value.status.Current? <==> row.value.completed == row.value.generation)
                  && (row.value.status.Current? <==> row.value.completedAt.Some?)
  }

  lemma {:induction false} ReachableRows(t: Trace, upper: Upper, i: nat)
    requires Run(t, upper) && i <= |t.events|
    ensures RowConsistent(t.states[i].row)
    decreases i
  {
    if i == 0 {
    } else {
      ReachableRows(t, upper, i - 1);
      assert StepAt(t, upper, i - 1);
    }
  }

  /** The require that opened the generation now newest. */
  lemma {:induction false} OpenedAt(t: Trace, upper: Upper, i: nat) returns (a: nat)
    requires Run(t, upper) && i <= |t.events| && t.states[i].row.Some?
    ensures a < i && t.events[a].Require? && NoRequire(t, a + 1, i)
    ensures Generation(t.states[a]) + 1 == Generation(t.states[a + 1]) == Generation(t.states[i])
    decreases i
  {
    assert StepAt(t, upper, i - 1);
    if t.events[i - 1].Require? {
      a := i - 1;
    } else {
      a := OpenedAt(t, upper, i - 1);
    }
  }

  /** What a pass in flight has already done. */
  ghost predicate Began(t: Trace, pid: int, b: nat, i: nat, target: int) {
    b < i <= |t.events| && b < |t.states| && t.events[b] == Begin(pid) && Generation(t.states[b]) == target
  }

  ghost predicate SyncedWith(t: Trace, pid: int, b: nat, c: nat, i: nat, report: SyncReport) {
    && b < c < i <= |t.events| && c < |t.states| && t.events[c] == Sync(pid, report)
    && ReportsLedger(report, t.states[c].ledger)
  }

  ghost predicate FetchedWith(t: Trace, pid: int, c: nat, f: nat, i: nat, positions: seq<Position>) {
    c < f < i <= |t.events| && f < |t.states| && t.events[f] == Fetch(pid) && t.states[f].broker == positions
  }

  ghost predicate CheckedWith(t: Trace, upper: Upper, pid: int, f: nat, d: nat, i: nat, agreed: bool) {
    && f < d < i <= |t.events| && d < |t.states| && t.events[d] == Check(pid, agreed)
    && (agreed <==> Agree(upper, t.states[f].broker, t.states[d].ledger.fills))
  }

  datatype Marks = Marks(began: nat, synced: nat, fetched: nat, checked: nat)

  ghost predicate DoneSoFar(t: Trace, upper: Upper, i: nat, pid: int, pass: Pass, m: Marks) {
    && Began(t, pid, m.began, i, pass.target)
    && (!pass.phase.Begun? ==> SyncedWith(t, pid, m.began, m.synced, i, pass.phase.report))
    && (pass.phase.Fetched? ==> FetchedWith(t, pid, m.synced, m.fetched, i, pass.phase.positions))
    && (pass.phase.Checked? ==>
          && m.synced < m.fetched < i && m.fetched < |t.states| && t.events[m.fetched] == Fetch(pid)
          && CheckedWith(t, upper, pid, m.fetched, m.checked, i, pass.phase.agreed))
  }

  lemma {:induction false} PassHistory(t: Trace, upper: Upper, i: nat, pid: int) returns (m: Marks)
    requires Run(t, upper) && i <= |t.events| && pid in t.states[i].passes
    ensures DoneSoFar(t, upper, i, pid, t.states[i].passes[pid], m)
    decreases i
  {
    assert StepAt(t, upper, i - 1);
    var e := t.events[i - 1];
    if e == Begin(pid) {
      m := Marks(i - 1, 0, 0, 0);
    } else {
      m := PassHistory(t, upper, i - 1, pid);
      DoneLater(t, upper, i - 1, pid, t.states[i - 1].passes[pid], m);
      m := PassAdvances(t, upper, i - 1, pid, m);
    }
  }

  /** One step of a run, seen from a pass that is in flight before and after it. */
  lemma PassAdvances(t: Trace, upper: Upper, i: nat, pid: int, m: Marks) returns (m': Marks)
    requires i < |t.events| && |t.states| == |t.events| + 1 && StepAt(t, upper, i)
    requires pid in t.states[i].passes && pid in t.states[i + 1].passes
    requires DoneSoFar(t, upper, i, pid, t.states[i].passes[pid], m)
    requires DoneSoFar(t, upper, i + 1, pid, t.states[i].passes[pid], m)
    ensures DoneSoFar(t, upper, i + 1, pid, t.states[i + 1].passes[pid], m')
  {
    m' := m;
    var e := t.events[i];
    if Actor(e) != Some(pid) {
      assert t.states[i + 1].passes[pid] == t.states[i].passes[pid];
    } else {
      match e
      case Sync(_, _) => m' := m.(synced := i);
      case Fetch(_) => m' := m.(fetched := i);
      case Check(_, _) => m' := m.(checked := i);
      case _ =>
    }
  }

  /** What was done stays done. */
  lemma DoneLater(t: Trace, upper: Upper, i: nat, pid: int, pass: Pass, m: Marks)
    requires |t.states| == |t.events| + 1 && i < |t.events| && DoneSoFar(t, upper, i, pid, pass, m)
    ensures DoneSoFar(t, upper, i + 1, pid, pass, m)
  {
  }

  // ------------------------------------------------------------- what ready means

  /** Where in a run a generation was opened and proved. */
  datatype Proof = Proof(pid: int, required: nat, began: nat, synced: nat, fetched: nat, checked: nat, committed: nat)

  /** Generation `g` is the newest from the moment it was opened up to state `i`,
      and after that moment one process, in this order, began a pass for it, ended
      a sync without failures when the ledger held no open cancel intent, fetched
      the broker's positions, found them equal to the trusted fills of the ledger
      for every ticker, and committed: all before state `i`. */
  ghost predicate Certifies(t: Trace, upper: Upper, p: Proof, g: int, i: nat) {
    && p.required < p.began < p.synced < p.fetched < p.checked < p.committed < i <= |t.events|
    && |t.states| == |t.events| + 1
    && t.events[p.required].Require? && Generation(t.states[p.required]) + 1 == g
    && NoRequire(t, p.required + 1, i)
    && t.events[p.began] == Begin(p.pid)
    && t.events[p.synced].Sync? && t.events[p.synced].pid == p.pid && CleanSync(t.events[p.synced].report)
    && Intents(t.states[p.synced].ledger) == {}
    && t.events[p.fetched] == Fetch(p.pid)
    && t.events[p.checked] == Check(p.pid, true)
    && Agree(upper, t.states[p.fetched].broker, t.states[p.checked].ledger.fills)
    && t.events[p.committed].Complete? && t.events[p.committed].pid == p.pid
  }

  /** A compare-and-set that succeeds commits a clean pass of the newest
      generation. */
  lemma CommitIsCertified(t: Trace, upper: Upper, i: nat) returns (p: Proof)
    requires Run(t, upper) && i < |t.events| && t.events[i].Complete?
    requires Enabled(t.states[i], t.events[i]) && Accepted(t.states[i], t.events[i])
    ensures Certifies(t, upper, p, Generation(t.states[i + 1]), i + 1) && p.committed == i
  {
    assert StepAt(t, upper, i);
    var pid := t.events[i].pid;
    var a := OpenedAt(t, upper, i);
    var m := PassHistory(t, upper, i, pid);
    NoFaultsIffClean(t.states[i].passes[pid].phase.report, t.states[i].passes[pid].phase.agreed);
    if m.began <= a { GenerationGrows(t, upper, m.began, a); }
    p := Proof(pid, a, m.began, m.synced, m.fetched, m.checked, i);
  }

  /** A row that says current is certified in every reachable state. */
  lemma {:induction false} CurrentIsCertified(t: Trace, upper: Upper, i: nat) returns (p: Proof)
    requires Run(t, upper) && i <= |t.events| && t.states[i].row.Some? && t.states[i].row.value.status.Current?
    ensures Certifies(t, upper, p, Generation(t.states[i]), i)
    decreases i
  {
    assert StepAt(t, upper, i - 1);
    ReachableRows(t, upper, i - 1);
    var e := t.events[i - 1];
    if e.Complete? && Accepted(t.states[i - 1], e) {
      p := CommitIsCertified(t, upper, i - 1);
    } else {
      p := CurrentIsCertified(t, upper, i - 1);
    }
  }

  /** Whoever is told that a generation is current can rely on the proof. */
  lemma ReadyIsCertified(t: Trace, upper: Upper, i: nat, expected: int, now: int) returns (p: Proof)
    requires Run(t, upper) && i <= |t.events| && IsCurrent(t.states[i].row, Some(expected), now)
    ensures expected == Generation(t.states[i]) && Certifies(t, upper, p, expected, i)
  {
    p := CurrentIsCertified(t, upper, i);
  }

  /** A clean pass is refused exactly when a newer generation was opened while
      it ran: no proof is lost and none outlives a require. */
  lemma CommitRefusedIffOvertaken(t: Trace, upper: Upper, i: nat) returns (b: nat)
    requires Run(t, upper) && i < |t.events| && t.events[i].Complete? && Enabled(t.states[i], t.events[i])
    ensures b < i && t.events[b] == Begin(t.events[i].pid)
    ensures Accepted(t.states[i], t.events[i]) <==> NoRequire(t, b, i)
    ensures Accepted(t.states[i], t.events[i]) <==>
            t.states[i + 1].row.Some? && t.states[i + 1].row.value.status.Current? &&
            Generation(t.states[i + 1]) == t.states[i].passes[t.events[i].pid].target
  {
    assert StepAt(t, upper, i);
    var m := PassHistory(t, upper, i, t.events[i].pid);
    b := m.began;
    GenerationGrows(t, upper, b, i);
    assert StepAt(t, upper, b);
  }

  /** Stale work never relocks a proof: a current row stays current until the
      next require. */
  lemma {:induction false} CurrentUntilRequired(t: Trace, upper: Upper, i: nat, j: nat)
    requires Run(t, upper) && i <= j <= |t.events| && NoRequire(t, i, j)
    requires t.states[i].row.Some? && t.states[i].row.value.status.Current?
    ensures t.states[j].row == t.states[i].row
    decreases j
  {
    if i == j {
    } else {
      CurrentUntilRequired(t, upper, i, j - 1);
      ReachableRows(t, upper, j - 1);
      assert StepAt(t, upper, j - 1);
    }
  }

  /** Since the positions were fetched the broker has not traded, and since the
      sync ended no commit has touched orders or fills. */
  ghost predicate Quiet(t: Trace, p: Proof, j: nat)
    requires j <= |t.events| && |t.states| == |t.events| + 1
  {
    && (forall k :: p.fetched <= k < j ==> !t.events[k].Trades?)
    && (forall k :: p.synced <= k < j && t.events[k].Commits? ==>
          && t.events[k].ledger.orders == t.states[k].ledger.orders
          && t.events[k].ledger.fills == t.states[k].ledger.fills)
  }

  lemma {:induction false} QuietKeeps(t: Trace, upper: Upper, p: Proof, from: nat, j: nat)
    requires Run(t, upper) && p.synced <= from <= j <= |t.events| && Quiet(t, p, j)
    ensures t.states[j].ledger.orders == t.states[from].ledger.orders
    ensures t.states[j].ledger.fills == t.states[from].ledger.fills
    ensures p.fetched <= from ==> t.states[j].broker == t.states[from].broker
    decreases j
  {
    if from == j {
    } else {
      QuietKeeps(t, upper, p, from, j - 1);
      assert StepAt(t, upper, j - 1);
    }
  }

  /** What was proved is still true as long as nobody traded or wrote: there is no
      open cancel intent and the broker holds what the trusted fills add up to. */
  lemma ProofStillHolds(t: Trace, upper: Upper, p: Proof, g: int, i: nat, j: nat)
    requires Run(t, upper) && Certifies(t, upper, p, g, i) && p.checked < j <= |t.events| && Quiet(t, p, j)
    ensures Intents(t.states[j].ledger) == {}
    ensures Agree(upper, t.states[j].broker, t.states[j].ledger.fills)
  {
    QuietKeeps(t, upper, p, p.synced, j);
    QuietKeeps(t, upper, p, p.checked, j);
    QuietKeeps(t, upper, p, p.fetched, j);
    SameIntents(t.states[p.synced].ledger, t.states[j].ledger);
  }

  // ------------------------------------------------------------------- the clock

  /** The time an event reads, none for events that read no clock. */
  function EventTime(e: Event): Option<int> {
    match e
    case Require(now) => Some(now)
    case Complete(_, now) => Some(now)
    case Fail(_, now) => Some(now)
    case _ => None
  }

  ghost predicate ClockUpTo(t: Trace, i: nat, now: int)
    requires i <= |t.events|
  {
    && (forall j :: 0 <= j < i && EventTime(t.events[j]).Some? ==> EventTime(t.events[j]).value <= now)
    && (forall j, k :: 0 <= j < k < i && EventTime(t.events[j]).Some? && EventTime(t.events[k]).Some? ==>
          EventTime(t.events[j]).value <= EventTime(t.events[k]).value)
  }

  /** Under a clock that does not run backwards every stored row validates, so
      "current" is exactly the stored status. */
  lemma {:induction false} RowsValidate(t: Trace, upper: Upper, i: nat, now: int)
    requires Run(t, upper) && i <= |t.events| && ClockUpTo(t, i, now) && t.states[i].row.Some?
    ensures ValidSnapshot(t.states[i].row.value, now)
    ensures IsCurrent(t.states[i].row, None, now) <==> t.states[i].row.value.status.Current?
    decreases i
  {
    assert StepAt(t, upper, i - 1);
    ReachableRows(t, upper, i);
    var e := t.events[i - 1];
    if t.states[i - 1].row.Some? {
      var then' := if EventTime(e).Some? then EventTime(e).value else now;
      RowsValidate(t, upper, i - 1, then');
    }
  }
}

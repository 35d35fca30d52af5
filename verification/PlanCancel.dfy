/** Cancelling plan orders at a broker that may fail or lie: live cancel, plan
    quiesce and the post-exit worklist, each as the commits it makes. */
module PlanCancel {
  import opened Options
  import opened OrderLedger
  import opened Outcomes

  datatype CancelError = NotFound | NotCancelable | NoBrokerOrderId | Unconfirmed | LacksFillTruth | NotCanceled

  datatype CancelResult = Done(status: Status) | Error(reason: CancelError)

  datatype Report = Report(brokerDrift: seq<string>, unresolved: seq<OrderId>)

  datatype SyncReport = SyncReport(report: Report, ordersCanceled: nat, planCancelFailures: nat,
                                   remaining: set<OrderId>, failed: nat)

  datatype Quiesced = Quiesced(canceled: nat, failed: nat, remaining: nat)

  // ------------------------------------------------------------- what is written

  function Put(d: Db, id: OrderId, o: Order, audits: seq<Audit>): Db {
    d.(orders := d.orders[id := o], audits := d.audits + audits)
  }

  /** `_record_plan_cancel_state`: a no-op when the state is already there. */
  function WithIntent(d: Db, id: OrderId, o: Order, intent: Intent): Db {
    if o.intent == intent then Put(d, id, o, [])
    else Put(d, id, o.(intent := intent, version := o.version + 1), [IntentAudit(id, intent)])
  }

  function Tripped(d: Db): Db {
    d.(drift := true, audits := d.audits + [OtherAudit("circuit_breaker.trip", 0)])
  }

  /** Keeps an open intent, opens one otherwise. */
  function WithRequest(d: Db, id: OrderId, o: Order): Db {
    if Open(o.intent) then Put(d, id, o, []) else WithIntent(d, id, o, Requested)
  }

  /** The latch and its audit row, in one transaction. */
  function LatchedDb(d: Db, id: OrderId): Db
    requires id in d.orders
  {
    var o := d.orders[id].(acceptance := Latched, lastError := IndeterminateCancel);
    var marked := if Open(o.intent) then WithIntent(d, id, o, Indeterminate)
                  else Put(d, id, o.(version := o.version + 1), []);
    marked.(audits := marked.audits + [LatchAudit(id)])
  }

  // -------------------------------------------------------------- stored queries

  /** Durable plan-cancel intents still open. */
  function Intents(d: Db): (r: set<OrderId>) {
    set id | id in d.orders && d.orders[id].planLinked && Open(d.orders[id].intent)
  }

  predicate Unfinished(o: Order) { !Terminal(o.status) || o.acceptance.Latched? }

  /** Orders of a plan that are not terminal with exact fill truth. */
  function PlanUnfinished(d: Db, planId: int, entryOnly: bool): (r: set<OrderId>) {
    set id | id in d.orders && d.orders[id].planLinked && d.orders[id].planId == planId &&
             (entryOnly ==> d.orders[id].isEntry) && Unfinished(d.orders[id])
  }

  // -------------------------------------------------------------- effect on others

  /** Only `id` may have changed its intent. */
  ghost predicate OnlyTouches(d: Db, d': Db, id: OrderId) {
    && d'.orders.Keys == d.orders.Keys
    && (d.drift ==> d'.drift)
    && (forall x :: x in d.orders && x != id ==> Carried(d.orders[x], d'.orders[x]))
    && (id in d.orders ==> d'.orders[id].planLinked == d.orders[id].planLinked)
  }

  lemma OnlyTouchesTrans(a: Db, b: Db, c: Db, id: OrderId)
    requires OnlyTouches(a, b, id) && OnlyTouches(b, c, id)
    ensures OnlyTouches(a, c, id)
  {
  }

  lemma UndisturbedTouches(a: Db, b: Db, id: OrderId)
    requires Undisturbed(a, b)
    ensures OnlyTouches(a, b, id)
  {
    forall x | x in a.orders ensures Carried(a.orders[x], b.orders[x]) {}
  }

  /** A commit that rewrites one order and appends audit rows. */
  lemma PutIsLegal(d: Db, d': Db, id: OrderId)
    requires id in d.orders && d'.orders.Keys == d.orders.Keys && (d.drift ==> d'.drift) && d.audits <= d'.audits
    requires forall x :: x in d.orders && x != id ==> d'.orders[x] == d.orders[x]
    requires OrderStep(d, d', id)
    ensures LegalStep(d, d')
  {
  }

  lemma TripIsLegal(d: Db)
    ensures LegalStep(d, Tripped(d)) && Undisturbed(d, Tripped(d))
  {
    forall id | id in d.orders ensures OrderStep(d, Tripped(d), id) {}
  }

  lemma LatchIsLegal(d: Db, id: OrderId)
    requires id in d.orders && d.drift
    ensures LegalStep(d, LatchedDb(d, id)) && OnlyTouches(d, LatchedDb(d, id), id)
  {
    var d' := LatchedDb(d, id);
    assert d'.audits[|d'.audits| - 1] == LatchAudit(id);
    assert d.audits <= d'.audits;
    assert LatchAudit(id) in d'.audits[|d.audits|..];
    if d'.orders[id].intent != d.orders[id].intent {
      assert d'.audits[|d.audits|] == IntentAudit(id, Indeterminate);
    }
    PutIsLegal(d, d', id);
  }

  lemma IntentIsLegal(d: Db, id: OrderId, o: Order, intent: Intent, extra: seq<Audit>)
    requires id in d.orders
    requires var was := d.orders[id];
             && o.intent == was.intent && o.version >= was.version && o.planLinked == was.planLinked
             && o.planId == was.planId && o.isEntry == was.isEntry
             && (Terminal(was.status) ==> o.status == was.status)
             && (o.lastError.IndeterminateCancel? ==> was.lastError.IndeterminateCancel?)
             && (intent.Settled? ==> Terminal(o.status) && (!o.acceptance.Latched? || LocalOnly(was.status)))
             && (intent.Requested? ==> !was.intent.Indeterminate?)
             && (intent.Settled? || intent.Requested?)
    ensures var d' := WithIntent(d, id, o, intent);
            var e := d'.(audits := d'.audits + extra);
            && LegalStep(d, e) && OnlyTouches(d, e, id)
            && (LegalStep(d, Tripped(d')) && OnlyTouches(d, Tripped(d'), id))
  {
    var d' := WithIntent(d, id, o, intent);
    if o.intent != intent { assert d'.audits[|d.audits|] == IntentAudit(id, intent); }
    KeptByMore(d, d', id, extra);
    KeptByMore(d, d', id, [OtherAudit("circuit_breaker.trip", 0)]);
    var e, t := d'.(audits := d'.audits + extra), Tripped(d');
    PutIsLegal(d, e, id);
    PutIsLegal(d, t, id);
  }

  /** Appending audit rows and tripping the breaker keep a step of one order. */
  lemma KeptByMore(d: Db, d': Db, id: OrderId, extra: seq<Audit>)
    requires id in d.orders && id in d'.orders && d.audits <= d'.audits && OrderStep(d, d', id)
    ensures var e := d'.(audits := d'.audits + extra);
            && d.audits <= e.audits && OrderStep(d, e, id)
            && OrderStep(d, e.(drift := true), id)
  {
    var e := d'.(audits := d'.audits + extra);
    assert e.audits[|d.audits|..] == d'.audits[|d.audits|..] + extra;
  }

  lemma RequestIsLegal(d: Db, id: OrderId, o: Order, extra: seq<Audit>)
    requires id in d.orders
    requires o == d.orders[id] || o == d.orders[id].(lastError := PlanCancel) ||
             o == d.orders[id].(lastError := PlanExitEntryCancel)
    ensures var d' := WithRequest(d, id, o);
            var e := d'.(audits := d'.audits + extra);
            && LegalStep(d, e) && OnlyTouches(d, e, id) && id in e.orders && Open(e.orders[id].intent)
            && LegalStep(d, Tripped(d')) && OnlyTouches(d, Tripped(d'), id) && Open(d'.orders[id].intent)
            && e.orders[id].status == o.status
  {
    if Open(o.intent) {
      var d' := Put(d, id, o, []);
      assert OrderStep(d, d', id);
      KeptByMore(d, d', id, extra);
      KeptByMore(d, d', id, [OtherAudit("circuit_breaker.trip", 0)]);
      PutIsLegal(d, d'.(audits := d'.audits + extra), id);
      PutIsLegal(d, Tripped(d'), id);
    } else {
      IntentIsLegal(d, id, o, Requested, extra);
    }
  }

  /** A row that may be written with a settled intent: finished, or closed while
      it was still local. */
  ghost predicate Settleable(was: Order, o: Order) {
    || (o == was && !Unfinished(was))
    || (LocalOnly(was.status) && Terminal(o.status) && o == was.(status := o.status, lastError := PlanCancel))
  }

  ghost predicate OpenAndLive(d: Db, id: OrderId) {
    id in d.orders && Open(d.orders[id].intent) && LiveAtBroker(d.orders[id].status)
  }

  /** An open intent is settled exactly when the cancel is confirmed; otherwise it
      stays open and the order unfinished. */
  ghost predicate Confirmed(o: Order, r: CancelResult) {
    if r.Done? then o.intent.Settled? else Open(o.intent) && Unfinished(o)
  }

  // ------------------------------------------------------------- the tally of a run

  ghost predicate SettledIn(d: Db, id: OrderId) {
    id in d.orders && d.orders[id].intent.Settled? && Terminal(d.orders[id].status)
  }

  ghost predicate StillOpen(d: Db, id: OrderId) {
    id in d.orders ==> Open(d.orders[id].intent) && d.orders[id].planLinked && d.drift
  }

  /** The ids seen, those of them whose cancellation is unresolved, and the
      counters: every id counts once, as canceled or as failed. */
  ghost predicate Tally(d: Db, seen: set<OrderId>, stuck: set<OrderId>, canceled: nat, failed: nat) {
    && stuck <= seen && |seen| == canceled + failed && |stuck| == failed
    && forall id :: id in seen ==> if id in stuck then StillOpen(d, id) else SettledIn(d, id)
  }

  lemma TallyStep(d: Db, d': Db, id: OrderId, ok: bool, seen: set<OrderId>, stuck: set<OrderId>, canceled: nat,
                  failed: nat)
    requires Tally(d, seen, stuck, canceled, failed) && OnlyTouches(d, d', id) && id !in seen
    requires if ok then SettledIn(d', id) else StillOpen(d', id)
    ensures if ok then Tally(d', seen + {id}, stuck, canceled + 1, failed)
            else Tally(d', seen + {id}, stuck + {id}, canceled, failed + 1)
  {
    forall x | x in seen ensures if x in stuck then StillOpen(d', x) else SettledIn(d', x) {
      if x in d'.orders { assert Carried(d.orders[x], d'.orders[x]); }
    }
  }

  /** An order that is unfinished when a quiesce lists its ids can be finished by
      the reconciliation of an earlier id, before its own turn. */
  lemma FinishedBeforeItsTurn(d: Db, id: OrderId) returns (d': Db)
    requires id in d.orders && LiveAtBroker(d.orders[id].status) && d.orders[id].planLinked
    ensures BackgroundStep(d, d') && Undisturbed(d, d')
    ensures id in PlanUnfinished(d, d.orders[id].planId, false) && !Unfinished(d'.orders[id])
  {
    d' := d.(orders := d.orders[id := d.orders[id].(status := Filled, acceptance := Unlatched(""))]);
    forall x | x in d.orders ensures BackgroundOrder(d.orders[x], d'.orders[x]) {}
  }

  // ------------------------------------------------------------------- the service

  class TradingService {
    var db: Db
    /** Every durable state so far, oldest first. */
    ghost var history: seq<Db>
    /** Plan orders the rule tables want canceled at the broker. */
    const requiring: Db -> set<OrderId>

    ghost predicate Valid()
      reads this
    {
      Run(history) && history[|history| - 1] == db && QueriesKnown()
    }

    /** The query selects orders joined with plan rules. */
    ghost predicate QueriesKnown() {
      forall d {:trigger requiring(d)} :: LinkedOrders(d, requiring(d))
    }

    constructor (db: Db, requiring: Db -> set<OrderId>)
      requires forall d {:trigger requiring(d)} :: LinkedOrders(d, requiring(d))
      ensures Valid() && this.db == db && history == [db]
    {
      this.db, this.requiring, history := db, requiring, [db];
    }

    method Commit(next: Db)
      requires Valid() && LegalStep(db, next)
      modifies this
      ensures Valid() && db == next && history == old(history) + [next]
    {
      RunExtend(history, next);
      db := next;
      history := history + [next];
    }

    /** Any number of background commits, then possibly an exception. Broker
        answers are whatever the broker likes. */
    method Background() returns (raised: bool)
      requires Valid()
      modifies this
      ensures Valid() && old(history) <= history && Undisturbed(old(db), db)
    {
      var steps: nat := *;
      while steps > 0
        invariant Valid() && old(history) <= history && Undisturbed(old(db), db)
      {
        var next: Db := *;
        if BackgroundStep(db, next) {
          BackgroundIsLegal(db, next);
          UndisturbedTrans(old(db), db, next);
          Commit(next);
        }
        steps := steps - 1;
      }
      raised := *;
    }

    /** Any number of commits of other processes, new orders among them. */
    method OtherCommits()
      requires Valid()
      modifies this
      ensures Valid() && old(history) <= history
    {
      var steps: nat := *;
      while steps > 0
        invariant Valid() && old(history) <= history
      {
        var next: Db := *;
        if LegalStep(db, next) { Commit(next); }
        steps := steps - 1;
      }
    }

    /** Broker reconciliation: reported faults trip the breaker. */
    method Reconcile() returns (r: Outcome<Report>)
      requires Valid()
      modifies this
      ensures Valid() && old(history) <= history && Undisturbed(old(db), db)
      ensures r.Ok? && (r.value.brokerDrift != [] || r.value.unresolved != []) ==> db.drift
    {
      var raised := Background();
      if raised { return Raised; }
      var report: Report := *;
      if report.brokerDrift != [] || report.unresolved != [] {
        TripIsLegal(db);
        UndisturbedTrans(old(db), db, Tripped(db));
        Commit(Tripped(db));
      }
      r := Ok(report);
    }

    method BrokerCall() returns (r: Option<Status>) { r := *; }

    // ------------------------------------------------------------- live cancel

    /** Breaker first, in its own transaction; then latch and audit together. A
        crash or an exception in between leaves the breaker tripped and the order
        unlatched. */
    method LatchIndeterminate(id: OrderId) returns (raised: bool)
      requires Valid() && id in db.orders
      modifies this
      ensures Valid() && OnlyTouches(old(db), db, id)
      ensures history == old(history) + if raised then [Tripped(old(db))]
                                        else [Tripped(old(db)), LatchedDb(Tripped(old(db)), id)]
    {
      TripIsLegal(db);
      Commit(Tripped(db));
      UndisturbedTouches(old(db), db, id);
      raised := *;
      if raised { return; }
      LatchIsLegal(db, id);
      OnlyTouchesTrans(old(db), db, LatchedDb(db, id), id);
      Commit(LatchedDb(db, id));
    }

    /** Reads back what the reconciliation left and settles an open intent only
        on a terminal order with exact fill truth. */
    method ConfirmCancel(id: OrderId, brokerStatus: Status, settlePlanLifecycle: bool) returns (r: CancelResult)
      requires Valid() && id in db.orders
      modifies this
      ensures Valid() && old(history) <= history && OnlyTouches(old(db), db, id)
      ensures db.orders[id].status == old(db.orders[id].status)
      ensures db.orders[id].acceptance == old(db.orders[id].acceptance)
      ensures Open(db.orders[id].intent) ==> Open(old(db.orders[id].intent)) && Unfinished(db.orders[id])
      ensures Open(old(db.orders[id].intent)) ==> Open(db.orders[id].intent) || db.orders[id].intent.Settled?
      ensures r.Done? ==> r.status == db.orders[id].status && !Unfinished(db.orders[id])
      ensures r.Error? ==> r.reason == if db.orders[id].acceptance.Latched? then LacksFillTruth else NotCanceled
      ensures !settlePlanLifecycle && Open(old(db.orders[id].intent)) ==> (r.Done? <==> db.orders[id].intent.Settled?)
      ensures settlePlanLifecycle ==> (r.Done? <==> brokerStatus.Canceled? && db.orders[id].status.Canceled? &&
                                                    !db.orders[id].acceptance.Latched?)
    {
      var o := db.orders[id];
      var exact := !o.acceptance.Latched?;
      var terminalExact := Terminal(o.status) && exact;
      var settled := terminalExact && Open(o.intent);
      if settled {
        IntentIsLegal(db, id, o, Settled, []);
        var next := WithIntent(db, id, o, Settled);
        assert next.(audits := next.audits + []) == next;
        Commit(next);
      }
      if brokerStatus.Canceled? && o.status.Canceled? && exact { return Done(o.status); }
      if settled && !settlePlanLifecycle { return Done(o.status); }
      r := Error(if !exact then LacksFillTruth else NotCanceled);
    }

    /** Brings the ledger up to date after a broker answer, then confirms. */
    method SyncAndConfirm(id: OrderId, brokerStatus: Status, settlePlanLifecycle: bool)
      returns (r: Outcome<CancelResult>)
      requires Valid() && id in db.orders
      modifies this
      ensures Valid() && old(history) <= history && Advanced(old(db), db)
      ensures r.Ok? && r.value.Done? ==> r.value.status == db.orders[id].status && !Unfinished(db.orders[id])
      ensures r.Ok? && r.value.Error? ==> r.value.reason in {LacksFillTruth, NotCanceled}
      ensures settlePlanLifecycle && r.Ok? && r.value.Done? ==> db.orders[id].status.Canceled?
      ensures !settlePlanLifecycle ==> OnlyTouches(old(db), db, id)
      ensures !settlePlanLifecycle && r.Ok? && Open(old(db.orders[id].intent)) ==> Confirmed(db.orders[id], r.value)
      decreases if settlePlanLifecycle then 4 else 0, 0
    {
      if settlePlanLifecycle {
        var sync := SyncOpenOrders();
        if sync.Raised? { return Raised; }
      } else {
        var sync := Reconcile();
        UndisturbedTouches(old(db), db, id);
        if sync.Raised? { return Raised; }
      }
      ghost var before := db;
      var c := ConfirmCancel(id, brokerStatus, settlePlanLifecycle);
      if !settlePlanLifecycle { OnlyTouchesTrans(old(db), before, db, id); }
      r := Ok(c);
    }

    /** Success means the order is terminal with exact fill truth. */
    method CancelLiveOrder(id: OrderId, settlePlanLifecycle: bool) returns (r: Outcome<CancelResult>)
      requires Valid()
      modifies this
      ensures Valid() && old(history) <= history && Advanced(old(db), db)
      ensures r.Ok? && r.value.Done? ==>
                id in db.orders && r.value.status == db.orders[id].status && !Unfinished(db.orders[id])
      ensures settlePlanLifecycle && r.Ok? && r.value.Done? ==> db.orders[id].status.Canceled?
      ensures r == Ok(Error(Unconfirmed)) ==>
                id in old(db.orders) &&
                history == old(history) + [Tripped(old(db)), LatchedDb(Tripped(old(db)), id)]
      ensures !settlePlanLifecycle ==> OnlyTouches(old(db), db, id)
      ensures !settlePlanLifecycle && r.Ok? && old(OpenAndLive(db, id)) ==> Confirmed(db.orders[id], r.value)
      decreases if settlePlanLifecycle then 4 else 0, 1
    {
      if id !in db.orders { return Ok(Error(NotFound)); }
      var o := db.orders[id];
      if !LiveAtBroker(o.status) { return Ok(Error(NotCancelable)); }
      if !o.hasBrokerId { return Ok(Error(NoBrokerOrderId)); }
      var broker := BrokerCall();
      if broker.None? {
        broker := BrokerCall();
        if broker.None? {
          var raised := LatchIndeterminate(id);
          return if raised then Raised else Ok(Error(Unconfirmed));
        }
      }
      r := SyncAndConfirm(id, broker.value, settlePlanLifecycle);
    }

    // ------------------------------------------- the commits both worklists make

    /** Settles a finished or local order, with extra audit rows. */
    method Settle(id: OrderId, o: Order, extra: seq<Audit>)
      requires Valid() && id in db.orders && Settleable(db.orders[id], o)
      modifies this
      ensures Valid() && old(history) <= history && OnlyTouches(old(db), db, id) && SettledIn(db, id)
    {
      IntentIsLegal(db, id, o, Settled, extra);
      var next := WithIntent(db, id, o, Settled);
      Commit(next.(audits := next.audits + extra));
    }

    /** Leaves an open intent and a tripped breaker, nothing else of the order. */
    method RequestAndTrip(id: OrderId)
      requires Valid() && id in db.orders && db.orders[id].planLinked
      modifies this
      ensures Valid() && old(history) <= history && OnlyTouches(old(db), db, id) && StillOpen(db, id)
      ensures Unfinished(db.orders[id]) <==> Unfinished(old(db.orders[id]))
    {
      var o := db.orders[id];
      RequestIsLegal(db, id, o, []);
      Commit(Tripped(WithRequest(db, id, o)));
    }

    /** Makes the request durable before the broker is asked, then asks. */
    method RequestAndCancel(id: OrderId, lastError: ErrorCode) returns (r: Outcome<bool>)
      requires Valid() && id in db.orders && db.orders[id].planLinked && LiveAtBroker(db.orders[id].status)
      requires lastError in {PlanCancel, PlanExitEntryCancel, db.orders[id].lastError}
      modifies this
      ensures Valid() && old(history) <= history && OnlyTouches(old(db), db, id)
      ensures r == Ok(true) ==> SettledIn(db, id)
      ensures r == Ok(false) ==> StillOpen(db, id) && Unfinished(db.orders[id])
      decreases 0, 3
    {
      var o := db.orders[id].(lastError := lastError);
      var audit := OtherAudit("order.plan_broker_cancel", id.key);
      RequestIsLegal(db, id, o, [audit]);
      var next := WithRequest(db, id, o);
      Commit(next.(audits := next.audits + [audit]));
      ghost var requested := db;
      r := CancelAndTrip(id);
      OnlyTouchesTrans(old(db), requested, db, id);
    }

    // --------------------------------------------------------- post-exit worklist

    method CancelAfterExit(id: OrderId) returns (r: Outcome<bool>)
      requires Valid() && (id in db.orders ==> db.orders[id].planLinked)
      modifies this
      ensures Valid() && old(history) <= history && OnlyTouches(old(db), db, id)
      ensures r == Ok(true) ==> SettledIn(db, id)
      ensures r == Ok(false) ==> StillOpen(db, id) && (id in db.orders ==> Unfinished(db.orders[id]))
      decreases 1, 0
    {
      if id !in db.orders { return Ok(false); }
      var o := db.orders[id];
      if Terminal(o.status) && !o.acceptance.Latched? {
        Settle(id, o, []);
        return Ok(true);
      }
      if !LiveAtBroker(o.status) {
        RequestAndTrip(id);
        return Ok(false);
      }
      r := RequestAndCancel(id, if o.lastError in {PlanCancel, PlanExitEntryCancel} then o.lastError
                                else PlanExitEntryCancel);
    }

    /** Cancels at the broker an order whose intent is already durable, and trips
        the breaker when that cannot be confirmed. */
    method CancelAndTrip(id: OrderId) returns (r: Outcome<bool>)
      requires Valid() && id in db.orders && Open(db.orders[id].intent) && db.orders[id].planLinked
      requires LiveAtBroker(db.orders[id].status)
      modifies this
      ensures Valid() && old(history) <= history && OnlyTouches(old(db), db, id)
      ensures r == Ok(true) ==> SettledIn(db, id) && !Unfinished(db.orders[id])
      ensures r == Ok(false) ==> StillOpen(db, id) && Unfinished(db.orders[id])
      decreases 0, 2
    {
      var outcome := CancelLiveOrder(id, false);
      if outcome.Raised? { return Raised; }
      if outcome.value.Error? {
        TripIsLegal(db);
        UndisturbedTouches(db, Tripped(db), id);
        OnlyTouchesTrans(old(db), db, Tripped(db), id);
        Commit(Tripped(db));
        return Ok(false);
      }
      r := Ok(true);
    }

    /** One order of a plan being quiesced: rows that never left this process are
        closed here, live ones are canceled at the broker, and any other state is
        recorded as an open intent with the breaker tripped. That includes an
        order that is already finished when its turn comes: it counts as failed,
        and a finished order counts as failed in no other case. */
    method QuiesceOne(id: OrderId) returns (r: Outcome<bool>)
      requires Valid() && (id in db.orders ==> db.orders[id].planLinked)
      modifies this
      ensures Valid() && old(history) <= history && OnlyTouches(old(db), db, id)
      ensures r == Ok(true) ==> SettledIn(db, id)
      ensures r == Ok(false) ==> StillOpen(db, id)
      ensures id in old(db.orders) && !Unfinished(old(db.orders[id])) ==> r == Ok(false) && !Unfinished(db.orders[id])
      ensures r == Ok(false) && id in db.orders ==>
                (!Unfinished(db.orders[id]) <==> !Unfinished(old(db.orders[id])))
      decreases 1, 0
    {
      if id !in db.orders { return Ok(false); }
      var o := db.orders[id];
      if LocalOnly(o.status) {
        var target := if o.status.Proposed? then Canceled else Rejected;
        assert CanTransition(o.status, target);
        Settle(id, o.(status := target, lastError := PlanCancel), [OtherAudit("order.plan_cancel", id.key)]);
        return Ok(true);
      }
      if !LiveAtBroker(o.status) {
        RequestAndTrip(id);
        return Ok(false);
      }
      r := RequestAndCancel(id, PlanCancel);
    }

    /** Works through one batch of candidates, each once. */
    method CancelBatch(batch: set<OrderId>, quiesce: bool, ghost seen: set<OrderId>, ghost stuck: set<OrderId>,
                       canceled: nat, failed: nat)
      returns (r: Outcome<(nat, nat)>, ghost stuck': set<OrderId>)
      requires Valid() && Tally(db, seen, stuck, canceled, failed) && batch !! seen && AllLinked(db, batch)
      modifies this
      ensures Valid() && old(history) <= history && Advanced(old(db), db)
      ensures r.Ok? ==> Tally(db, seen + batch, stuck', r.value.0, r.value.1)
      decreases 1, 2
    {
      var c: nat, f: nat, todo := canceled, failed, batch;
      stuck' := stuck;
      ghost var so := seen;
      while todo != {}
        invariant Valid() && old(history) <= history && Advanced(old(db), db)
        invariant Tally(db, so, stuck', c, f) && AllLinked(db, todo)
        invariant Split(so, todo, seen + batch)
        decreases todo
      {
        var id :| id in todo;
        MoveOne(so, todo, seen + batch, id);
        var ok;
        ok, stuck', c, f := CancelNext(id, quiesce, so, stuck', c, f, todo);
        if ok.Raised? { return Raised, stuck'; }
        so, todo := so + {id}, todo - {id};
      }
      r := Ok((c, f));
    }

    method CancelNext(id: OrderId, quiesce: bool, ghost seen: set<OrderId>, ghost stuck: set<OrderId>, canceled: nat,
                      failed: nat, ghost todo: set<OrderId>)
      returns (r: Outcome<bool>, ghost stuck': set<OrderId>, c: nat, f: nat)
      requires Valid() && Tally(db, seen, stuck, canceled, failed) && id in todo && id !in seen && AllLinked(db, todo)
      modifies this
      ensures Valid() && old(history) <= history && Advanced(old(db), db)
      ensures r.Ok? ==> Tally(db, seen + {id}, stuck', c, f) && AllLinked(db, todo)
      decreases 1, 1
    {
      if quiesce { r := QuiesceOne(id); } else { r := CancelAfterExit(id); }
      c, f, stuck' := canceled, failed, stuck;
      if r.Raised? { return; }
      TallyStep(old(db), db, id, r.value, seen, stuck, canceled, failed);
      LinksKept(old(db), db, id, todo);
      if r.value {
        c := c + 1;
      } else {
        f := f + 1;
        stuck' := stuck + {id};
      }
    }

    /** The candidate set changes while the worklist runs, yet every id is handled
        once: on return no candidate is left out, the counts are those of the ids
        seen, and the open intents are exactly the ids counted as failed. Ids are
        taken in any order, ascending order being one of them. */
    method CancelPlanOrdersAfterExit() returns (r: Outcome<(nat, nat)>, seen: set<OrderId>, ghost stuck: set<OrderId>)
      requires Valid()
      modifies this
      ensures Valid() && old(history) <= history && Advanced(old(db), db)
      ensures r.Ok? ==> Tally(db, seen, stuck, r.value.0, r.value.1)
      ensures r.Ok? ==> requiring(db) + Intents(db) <= seen
      ensures r.Ok? ==> Intents(db) == set id | id in stuck && id in db.orders
      decreases 2, 0
    {
      var canceled: nat, failed: nat := 0, 0;
      seen, stuck := {}, {};
      while true
        invariant Valid() && old(history) <= history && Advanced(old(db), db)
        invariant seen <= old(db.orders.Keys) && Tally(db, seen, stuck, canceled, failed)
        decreases old(db.orders.Keys) - seen
      {
        var candidates := (requiring(db) + Intents(db)) - seen;
        CandidatesKnown(candidates);
        if candidates == {} { break; }
        var counts;
        counts, stuck := CancelBatch(candidates, false, seen, stuck, canceled, failed);
        if counts.Raised? { return Raised, seen, stuck; }
        canceled, failed := counts.value.0, counts.value.1;
        ghost var some :| some in candidates;
        seen := seen + candidates;
      }
      NothingLeft(requiring(db) + Intents(db), seen);
      IntentsAreStuck(db, seen, stuck, canceled, failed);
      r := Ok((canceled, failed));
    }

    /** Each order unfinished at the start counts once: as canceled, and then its
        intent is settled and it is terminal, or as failed, and then its intent is
        open and the breaker tripped. A report without failures means that no
        order of the plan is left live or without exact fill truth. */
    method QuiesceTradePlanOrders(planId: int, entryOnly: bool)
      returns (r: Outcome<Quiesced>, ghost stuck: set<OrderId>, ghost failures: nat)
      requires Valid()
      modifies this
      ensures Valid() && old(history) <= history && Advanced(old(db), db)
      ensures r.Ok? ==> Tally(db, PlanUnfinished(old(db), planId, entryOnly), stuck, r.value.canceled, failures)
      ensures r.Ok? ==> r.value.remaining == |PlanUnfinished(db, planId, entryOnly)|
      ensures r.Ok? ==> r.value.failed == if failures > r.value.remaining then failures else r.value.remaining
      ensures r.Ok? && r.value.failed == 0 ==> PlanUnfinished(db, planId, entryOnly) == {} && stuck == {}
      decreases 2, 0
    {
      var ids := PlanUnfinished(db, planId, entryOnly);
      var counts;
      counts, stuck := CancelBatch(ids, true, {}, {}, 0, 0);
      if counts.Raised? { return Raised, stuck, 0; }
      assert {} + ids == ids;
      failures := counts.value.1;
      var remaining := |PlanUnfinished(db, planId, entryOnly)|;
      r := Ok(Quiesced(counts.value.0, if counts.value.1 > remaining then counts.value.1 else remaining, remaining));
    }

    lemma CandidatesKnown(candidates: set<OrderId>)
      requires Valid() && candidates <= requiring(db) + Intents(db)
      ensures LinkedOrders(db, candidates) && AllLinked(db, candidates)
    {
      assert LinkedOrders(db, requiring(db));
    }

    // ----------------------------------------------------------------- order sync

    method AppendAudit(action: string, target: int)
      requires Valid()
      modifies this
      ensures Valid() && old(history) <= history && Undisturbed(old(db), db)
      ensures db == old(db).(audits := old(db.audits) + [OtherAudit(action, target)])
    {
      var next := db.(audits := db.audits + [OtherAudit(action, target)]);
      assert BackgroundStep(db, next) by {
        forall x | x in db.orders ensures BackgroundOrder(db.orders[x], next.orders[x]) {}
      }
      BackgroundIsLegal(db, next);
      Commit(next);
    }

    /** A user's cancel, with its own audit row. */
    method CancelOrder(id: OrderId) returns (r: Outcome<CancelResult>)
      requires Valid()
      modifies this
      ensures Valid() && old(history) <= history && Advanced(old(db), db)
      ensures r.Ok? ==> |db.audits| > 0 && db.audits[|db.audits| - 1] == OtherAudit("order.cancel", id.key)
      ensures r.Ok? && r.value.Done? ==>
                id in db.orders && db.orders[id].status == Canceled && !Unfinished(db.orders[id])
      decreases 5
    {
      r := CancelLiveOrder(id, true);
      if r.Ok? { AppendAudit("order.cancel", id.key); }
    }

    /** Either nothing failed and no intent is left open, or the drift breaker
        is tripped. */
    method SyncOpenOrders() returns (r: Outcome<SyncReport>)
      requires Valid()
      modifies this
      ensures Valid() && old(history) <= history && Advanced(old(db), db)
      ensures r.Ok? ==> r.value.remaining == Intents(db) && r.value.planCancelFailures >= |Intents(db)|
      ensures r.Ok? ==> r.value.failed == |r.value.report.unresolved| + |r.value.report.brokerDrift| +
                                          r.value.planCancelFailures
      ensures r.Ok? ==> (r.value.failed == 0 && Intents(db) == {}) || db.drift
      decreases 3, 0
    {
      var report := Reconcile();
      if report.Raised? {
        AppendAudit("orders.sync", 0);
        return Raised;
      }
      var raised := Background();
      if raised { return Raised; }
      var cancellation, _, _ := CancelPlanOrdersAfterExit();
      if cancellation.Raised? { return Raised; }
      raised := Background();
      if raised { return Raised; }
      var closed := CloseSync(report.value, cancellation.value.0, cancellation.value.1);
      r := Ok(closed);
    }

    /** Counts what is left open, trips the breaker for it and writes the audit. */
    method CloseSync(report: Report, canceled: nat, failed: nat) returns (r: SyncReport)
      requires Valid()
      modifies this
      ensures Valid() && old(history) <= history && Advanced(old(db), db)
      ensures r.report == report && r.ordersCanceled == canceled && r.remaining == Intents(db)
      ensures r.planCancelFailures == if failed >= |Intents(db)| then failed else |Intents(db)|
      ensures r.failed == |report.unresolved| + |report.brokerDrift| + r.planCancelFailures
      ensures r.planCancelFailures > 0 || old(db.drift) ==> db.drift
    {
      var remaining := Intents(db);
      var failures := if failed >= |remaining| then failed else |remaining|;
      if failures > 0 {
        TripIsLegal(db);
        SameIntents(db, Tripped(db));
        Commit(Tripped(db));
      }
      SameIntents(db, db.(audits := db.audits + [OtherAudit("orders.sync", 0)]));
      AppendAudit("orders.sync", 0);
      r := SyncReport(report, canceled, failures, remaining, |report.unresolved| + |report.brokerDrift| + failures);
    }
  }

  lemma SameIntents(d: Db, d': Db)
    requires d'.orders == d.orders
    ensures Intents(d') == Intents(d)
  {
  }

  ghost predicate Split(done: set<OrderId>, todo: set<OrderId>, all: set<OrderId>) {
    done !! todo && done + todo == all
  }

  lemma MoveOne(done: set<OrderId>, todo: set<OrderId>, all: set<OrderId>, id: OrderId)
    requires Split(done, todo, all) && id in todo
    ensures id !in done && Split(done + {id}, todo - {id}, all)
  {
    assert done + {id} + (todo - {id}) == done + todo;
  }

  ghost predicate LinkedOrders(d: Db, ids: set<OrderId>) {
    forall id :: id in ids ==> id in d.orders && d.orders[id].planLinked
  }

  ghost predicate AllLinked(d: Db, ids: set<OrderId>) {
    forall x :: x in ids && x in d.orders ==> d.orders[x].planLinked
  }

  lemma LinksKept(d: Db, d': Db, id: OrderId, todo: set<OrderId>)
    requires OnlyTouches(d, d', id) && AllLinked(d, todo)
    ensures AllLinked(d', todo)
  {
    forall x | x in todo && x in d'.orders ensures d'.orders[x].planLinked {
      if x != id { assert Carried(d.orders[x], d'.orders[x]); }
    }
  }

  lemma NothingLeft(all: set<OrderId>, seen: set<OrderId>)
    requires all - seen == {}
    ensures all <= seen
  {
    forall x | x in all ensures x in seen { assert x in all - seen || x in seen; }
  }

  lemma IntentsAreStuck(d: Db, seen: set<OrderId>, stuck: set<OrderId>, canceled: nat, failed: nat)
    requires Tally(d, seen, stuck, canceled, failed) && Intents(d) <= seen
    ensures Intents(d) == set id | id in stuck && id in d.orders
  {
    forall id | id in stuck && id in d.orders ensures id in Intents(d) { assert StillOpen(d, id); }
    forall id | id in Intents(d) ensures id in stuck { assert id in stuck || SettledIn(d, id); }
  }

  /** Orders are neither added nor deleted and the breaker is not reset. */
  ghost predicate Advanced(d: Db, d': Db) {
    d'.orders.Keys == d.orders.Keys && (d.drift ==> d'.drift)
  }
}

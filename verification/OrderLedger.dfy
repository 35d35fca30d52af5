/** The durable order rows, the steps committed transactions may take, and what
    those steps add up to over whole runs. */
module OrderLedger {
  import opened Positions

  // ------------------------------------------------------------------ order rows

  datatype OrderId = OrderId(key: int)

  datatype Status = Proposed | ApprovalRecorded | Submitting | AcceptanceUnknown | Approved | Submitted
                  | PartiallyFilled | Filled | Canceled | Rejected | Expired

  predicate Terminal(s: Status) { s.Filled? || s.Canceled? || s.Rejected? || s.Expired? }

  predicate LiveAtBroker(s: Status) { s.Submitted? || s.PartiallyFilled? }

  predicate LocalOnly(s: Status) { s.Proposed? || s.ApprovalRecorded? }

  /** The legal moves of the order state machine. */
  predicate CanTransition(a: Status, b: Status) {
    match a
    case Proposed => b in {ApprovalRecorded, Rejected, Expired, Canceled}
    case ApprovalRecorded => b in {Submitting, Expired, Rejected}
    case Submitting => b in {Submitted, PartiallyFilled, Filled, AcceptanceUnknown, Canceled, Rejected, Expired}
    case AcceptanceUnknown => b in {Submitted, PartiallyFilled, Filled, Rejected, Canceled}
    case Submitted => b in {PartiallyFilled, Filled, Canceled, Rejected, Expired}
    case PartiallyFilled => b in {PartiallyFilled, Filled, Canceled, Expired}
    case _ => false
  }

  /** `Latched` is "fill_reconcile_required": fill truth is not exact. */
  datatype Acceptance = Latched | Unlatched(code: string)

  /** The durable plan-cancel intent of an order. */
  datatype Intent = NoIntent | Requested | Indeterminate | Settled

  predicate Open(i: Intent) { i.Requested? || i.Indeterminate? }

  datatype ErrorCode = PlanCancel | PlanExitEntryCancel | IndeterminateCancel | OtherCode(text: string)

  datatype Order = Order(status: Status, acceptance: Acceptance, intent: Intent, version: int, lastError: ErrorCode,
                         hasBrokerId: bool, planId: int, planLinked: bool, isEntry: bool)

  datatype Audit = IntentAudit(order: OrderId, intent: Intent) | LatchAudit(order: OrderId)
                 | OtherAudit(action: string, target: int)

  /** What is durable: orders, the drift breaker, audit rows and recorded fills.
      `rest` stands for the other tables (rules, plans). */
  datatype Db = Db(orders: map<OrderId, Order>, drift: bool, audits: seq<Audit>, fills: seq<Fill>, rest: int)

  // ---------------------------------------------------------------- legal commits

  /** One order across one committed transaction. */
  predicate OrderStep(d: Db, d': Db, id: OrderId)
    requires id in d.orders && id in d'.orders && d.audits <= d'.audits
  {
    var o, o' := d.orders[id], d'.orders[id];
    var added := d'.audits[|d.audits|..];
    && o'.version >= o.version
    && o'.planLinked == o.planLinked && o'.planId == o.planId && o'.isEntry == o.isEntry
    && (Terminal(o.status) ==> o'.status == o.status)
    && (o'.intent != o.intent ==> o'.version > o.version && IntentAudit(id, o'.intent) in added)
    && (o'.intent.Settled? && !o.intent.Settled? ==>
          Terminal(o'.status) && (!o'.acceptance.Latched? || LocalOnly(o.status)))
    && (o'.intent.Indeterminate? ==> Open(o.intent))
    && (o.intent.Indeterminate? ==> o'.intent.Indeterminate? || o'.intent.Settled?)
    && (!o.intent.NoIntent? ==> !o'.intent.NoIntent?)
    && (o'.lastError.IndeterminateCancel? && !o.lastError.IndeterminateCancel? ==>
          d.drift && o'.acceptance.Latched? && LatchAudit(id) in added)
  }

  /** Orders are recorded without a cancel intent and without that error code. */
  predicate NewOrder(o: Order) { o.intent.NoIntent? && !o.lastError.IndeterminateCancel? }

  /** One committed transaction of any process: orders may be recorded, none is
      deleted, and an operator may reset the breaker. */
  predicate LegalStep(d: Db, d': Db) {
    && d.orders.Keys <= d'.orders.Keys
    && d.audits <= d'.audits
    && (forall id {:trigger OrderStep(d, d', id)} :: id in d.orders ==> OrderStep(d, d', id))
    && (forall id {:trigger NewOrder(d'.orders[id])} :: id in d'.orders && id !in d.orders ==> NewOrder(d'.orders[id]))
  }

  /** A run: every durable state follows from the one before by a legal commit.
      A crash is the end of a run. */
  ghost predicate Run(h: seq<Db>) {
    h != [] && forall i {:trigger StepAt(h, i)} :: 0 <= i < |h| - 1 ==> StepAt(h, i)
  }

  ghost predicate StepAt(h: seq<Db>, i: nat)
    requires i < |h| - 1
  {
    LegalStep(h[i], h[i + 1])
  }

  // ------------------------------------------------------------ over whole runs

  lemma {:induction false} NothingDeleted(h: seq<Db>, i: nat, j: nat)
    requires Run(h) && i <= j < |h|
    ensures h[i].orders.Keys <= h[j].orders.Keys && h[i].audits <= h[j].audits
    decreases j - i
  {
    if i == j {
    } else {
      NothingDeleted(h, i, j - 1);
      assert StepAt(h, j - 1);
    }
  }

  /** A terminal order never changes status again. */
  lemma {:induction false} TerminalAbsorbs(h: seq<Db>, i: nat, j: nat, id: OrderId)
    requires Run(h) && i <= j < |h| && id in h[i].orders && Terminal(h[i].orders[id].status)
    ensures id in h[j].orders && h[j].orders[id].status == h[i].orders[id].status
    decreases j - i
  {
    if i == j {
    } else {
      TerminalAbsorbs(h, i, j - 1, id);
      assert StepAt(h, j - 1);
      assert OrderStep(h[j - 1], h[j], id);
    }
  }

  /** An open intent stays open until some commit settles the order, and an
      indeterminate one never goes back to requested before that. */
  lemma {:induction false} IntentHeldUntilSettled(h: seq<Db>, i: nat, j: nat, id: OrderId)
    requires Run(h) && i <= j < |h| && id in h[i].orders && Open(h[i].orders[id].intent)
    requires id in h[j].orders
    requires h[j].orders[id].intent.NoIntent? || h[j].orders[id].intent.Settled? ||
             (h[i].orders[id].intent.Indeterminate? && h[j].orders[id].intent.Requested?)
    ensures exists k :: i < k <= j && SettlesAt(h, k, id)
    decreases j - i
  {
    NothingDeleted(h, i, j - 1);
    assert StepAt(h, j - 1);
    assert OrderStep(h[j - 1], h[j], id);
    var before := h[j - 1].orders[id].intent;
    if Open(before) && (before.Indeterminate? || h[i].orders[id].intent.Requested?) {
      assert SettlesAt(h, j, id);
    } else {
      IntentHeldUntilSettled(h, i, j - 1, id);
    }
  }

  /** The commit that produced `h[k]` settled the order: it is terminal, with
      exact fill truth unless it had never left the local states. */
  ghost predicate SettlesAt(h: seq<Db>, k: nat, id: OrderId) {
    && 0 < k < |h| && id in h[k].orders && id in h[k - 1].orders
    && h[k].orders[id].intent.Settled? && !h[k - 1].orders[id].intent.Settled?
    && Terminal(h[k].orders[id].status)
    && (!h[k].orders[id].acceptance.Latched? || LocalOnly(h[k - 1].orders[id].status))
  }

  /** A settled intent has a cause: some commit of the run settled the order, and
      the order is still in the terminal state it had then. */
  lemma {:induction false} SettledHasCause(h: seq<Db>, j: nat, id: OrderId) returns (k: nat)
    requires Run(h) && j < |h| && id in h[j].orders && h[j].orders[id].intent.Settled?
    requires id in h[0].orders ==> !h[0].orders[id].intent.Settled?
    ensures k <= j && SettlesAt(h, k, id) && h[j].orders[id].status == h[k].orders[id].status
    decreases j
  {
    assert StepAt(h, j - 1);
    assert id !in h[j - 1].orders ==> NewOrder(h[j].orders[id]);
    assert OrderStep(h[j - 1], h[j], id);
    if h[j - 1].orders[id].intent.Settled? {
      k := SettledHasCause(h, j - 1, id);
      TerminalAbsorbs(h, k, j, id);
    } else {
      k := j;
    }
  }

  /** How often an order's intent changed. */
  ghost function IntentChanges(h: seq<Db>, id: OrderId): nat {
    if |h| <= 1 || id !in h[|h| - 1].orders || id !in h[|h| - 2].orders then 0
    else IntentChanges(h[..|h| - 1], id) +
         if h[|h| - 1].orders[id].intent != h[|h| - 2].orders[id].intent then 1 else 0
  }

  /** Every intent change raises the version: optimistic readers see each one,
      from the commit that recorded the order on. */
  lemma {:induction false} VersionCountsChanges(h: seq<Db>, i: nat, j: nat, id: OrderId)
    requires Run(h) && i <= j < |h| && id in h[i].orders
    ensures id in h[j].orders
    ensures h[j].orders[id].version >= h[i].orders[id].version + IntentChanges(h[i..j + 1], id)
    decreases j
  {
    if i == j {
    } else {
      VersionCountsChanges(h, i, j - 1, id);
      assert h[i..j + 1][..j - i] == h[i..j];
      assert StepAt(h, j - 1);
      assert OrderStep(h[j - 1], h[j], id);
    }
  }

  /** The order carries the indeterminate-cancel code. */
  ghost predicate Coded(d: Db, id: OrderId) { id in d.orders && d.orders[id].lastError.IndeterminateCancel? }

  ghost predicate NoneCoded(d: Db) { forall id :: !Coded(d, id) }

  /** An indeterminate-cancel code is backed by a tripped breaker and an audit
      row in the same durable state. */
  ghost predicate FailClosed(d: Db) {
    forall id :: Coded(d, id) ==> d.drift && LatchAudit(id) in d.audits
  }

  /** Only a reset of the breaker while some order carries the code ends it. */
  lemma StepFailClosed(d: Db, d': Db)
    requires LegalStep(d, d') && FailClosed(d)
    ensures FailClosed(d') <==> (d.drift ==> d'.drift) || NoneCoded(d')
    ensures forall id :: Coded(d', id) ==> LatchAudit(id) in d'.audits
  {
    forall id | Coded(d', id)
      ensures d.drift && LatchAudit(id) in d'.audits
    {
      assert Coded(d, id) ==> d.drift && LatchAudit(id) in d.audits;
      assert id !in d.orders ==> NewOrder(d'.orders[id]);
      assert OrderStep(d, d', id);
      assert d.audits == d'.audits[..|d.audits|];
    }
  }

  /** Nobody resets the breaker up to `h[j]`. */
  ghost predicate NotReset(h: seq<Db>, j: nat) {
    forall i :: 0 <= i < j < |h| && h[i].drift ==> h[i + 1].drift
  }

  /** Fail-closed at every crash point of every run, until an operator resets the
      breaker. */
  lemma {:induction false} RunFailClosed(h: seq<Db>, j: nat)
    requires Run(h) && FailClosed(h[0]) && j < |h| && NotReset(h, j)
    ensures FailClosed(h[j])
    decreases j
  {
    if j == 0 {
    } else {
      RunFailClosed(h, j - 1);
      assert StepAt(h, j - 1);
      StepFailClosed(h[j - 1], h[j]);
    }
  }

  /** The breaker trips strictly before the latch: the state in which the code
      first appears already followed a state with the breaker tripped. */
  lemma TrippedBeforeLatched(h: seq<Db>, j: nat, id: OrderId)
    requires Run(h) && 0 < j < |h| && Coded(h[j], id) && !Coded(h[j - 1], id)
    ensures id in h[j - 1].orders && h[j - 1].drift
    ensures LatchAudit(id) in h[j].audits && h[j].orders[id].acceptance.Latched?
  {
    assert StepAt(h, j - 1);
    assert id !in h[j - 1].orders ==> NewOrder(h[j].orders[id]);
    assert OrderStep(h[j - 1], h[j], id);
  }

  /** Whenever the code is durable, its audit row is too, and at some earlier
      commit the breaker was tripped first: resets included. */
  lemma {:induction false} LatchedHasCause(h: seq<Db>, j: nat, id: OrderId) returns (k: nat)
    requires Run(h) && j < |h| && Coded(h[j], id) && !Coded(h[0], id)
    ensures 0 < k <= j && Coded(h[k], id) && !Coded(h[k - 1], id) && h[k - 1].drift
    ensures h[k].orders[id].acceptance.Latched? && LatchAudit(id) in h[j].audits
    decreases j
  {
    if Coded(h[j - 1], id) {
      k := LatchedHasCause(h, j - 1, id);
      NothingDeleted(h, j - 1, j);
      assert h[j - 1].audits == h[j].audits[..|h[j - 1].audits|];
    } else {
      TrippedBeforeLatched(h, j, id);
      k := j;
    }
  }

  lemma RunExtend(h: seq<Db>, d: Db)
    requires Run(h) && LegalStep(h[|h| - 1], d)
    ensures Run(h + [d])
  {
    var g := h + [d];
    forall i | 0 <= i < |g| - 1 ensures StepAt(g, i) {
      if i < |h| - 1 { assert StepAt(h, i); }
    }
  }

  // ----------------------------------------- what background writers may change

  /** One committed step of broker reconciliation or of the rule refresh: orders
      move along legal transitions, intents are left alone, nothing is deleted,
      the breaker is not reset and no indeterminate-cancel code is invented. */
  predicate BackgroundStep(d: Db, d': Db) {
    && d'.orders.Keys == d.orders.Keys
    && (d.drift ==> d'.drift)
    && d.audits <= d'.audits
    && forall id :: id in d.orders ==> BackgroundOrder(d.orders[id], d'.orders[id])
  }

  predicate BackgroundOrder(o: Order, o': Order) {
    && o'.intent == o.intent && o'.version >= o.version
    && o'.planLinked == o.planLinked && o'.planId == o.planId && o'.isEntry == o.isEntry
    && (o'.status == o.status || CanTransition(o.status, o'.status))
    && (o'.lastError.IndeterminateCancel? ==> o.lastError.IndeterminateCancel?)
  }

  lemma BackgroundIsLegal(d: Db, d': Db)
    requires BackgroundStep(d, d')
    ensures LegalStep(d, d')
  {
    forall id | id in d.orders ensures OrderStep(d, d', id) {
      assert BackgroundOrder(d.orders[id], d'.orders[id]);
    }
  }

  /** What survives any number of background steps. */
  ghost predicate Undisturbed(d: Db, d': Db) {
    && d'.orders.Keys == d.orders.Keys
    && (d.drift ==> d'.drift)
    && forall id :: id in d.orders ==> Carried(d.orders[id], d'.orders[id])
  }

  ghost predicate Carried(o: Order, o': Order) {
    && o'.intent == o.intent && o'.planLinked == o.planLinked && o'.planId == o.planId && o'.isEntry == o.isEntry
    && (Terminal(o.status) ==> o'.status == o.status)
  }

  lemma UndisturbedTrans(a: Db, b: Db, c: Db)
    requires Undisturbed(a, b) && Undisturbed(b, c)
    ensures Undisturbed(a, c)
  {
  }
}

/** Runs of one position and its quantity-sized orders: which guards keep fills
    from carrying the position through flat, and what happens without them. */
module ExitRuns {
  import opened Options
  import opened OrderLedger
  import opened ExitReservation

  // ------------------------------------------------------------------ the book

  /** One symbol's position at the broker and the orders on record; nothing else
      moves the position. */
  datatype Book = Book(symbol: string, held: real, orders: seq<ExitOrder>)

  datatype Event =
    | Propose(order: ExitOrder)
    | Approve(index: nat)
    | Claim(index: nat)
    | Execute(index: nat, qty: real)
    | Record(index: nat, qty: real, price: real)
    | Move(index: nat, status: Status)

  predicate AtBroker(s: Status) { s.Submitting? || s.AcceptanceUnknown? || LiveAtBroker(s) }

  /** Quantity-sized, and executed no further than ordered. */
  ghost predicate SoundOrder(o: ExitOrder) {
    o.qty.Some? && o.qty.value >= 0.0 && FilledQty(o.fills) >= 0.0 && 0.0 <= o.unrecorded <= Remaining(o, 0.0)
  }

  ghost predicate AllSound(orders: seq<ExitOrder>) {
    forall k {:trigger orders[k]} :: 0 <= k < |orders| ==> SoundOrder(orders[k])
  }

  ghost predicate Sound(b: Book) { AllSound(b.orders) }

  /** Quantity-sized orders do not look at prices. */
  function NoPrice(k: nat): real { 0.0 }

  /** Approval is unguarded. The claim that sends an order to the broker follows
      the risk check. The broker executes at most what is left, the ledger
      records executions later, and other moves are the legal transitions. */
  predicate CanHappen(b: Book, e: Event) {
    match e
    case Propose(o) =>
      && o.status.Proposed? && o.qty.Some? && o.qty.value >= 0.0 && o.fills == [] && o.unrecorded == 0.0
      && !o.side.UnknownSide?
    case Approve(i) => i < |b.orders| && b.orders[i].status.Proposed?
    case Claim(i) =>
      && i < |b.orders| && b.orders[i].status.ApprovalRecorded? && RiskAllows(b.held, b.orders, b.symbol, i, 0.0)
    case Execute(i, q) =>
      && i < |b.orders| && AtBroker(b.orders[i].status)
      && 0.0 <= q <= Remaining(b.orders[i], 0.0) - b.orders[i].unrecorded
    case Record(i, q, _) => i < |b.orders| && 0.0 <= q <= b.orders[i].unrecorded
    case Move(i, s) =>
      && i < |b.orders| && CanTransition(b.orders[i].status, s)
      && !s.ApprovalRecorded? && !s.Submitting?
  }

  function WithStatus(b: Book, i: nat, s: Status): Book
    requires i < |b.orders|
  {
    b.(orders := b.orders[i := b.orders[i].(status := s)])
  }

  function Signed(o: ExitOrder, symbol: string, q: real): real {
    if o.ticker != symbol then 0.0 else if o.side.Sell? then -q else if o.side.Buy? then q else 0.0
  }

  function Apply(b: Book, e: Event): Book
    requires CanHappen(b, e)
  {
    match e
    case Propose(o) => b.(orders := b.orders + [o])
    case Approve(i) => WithStatus(b, i, ApprovalRecorded)
    case Claim(i) => WithStatus(b, i, Submitting)
    case Execute(i, q) =>
      var o := b.orders[i];
      Book(b.symbol, b.held + Signed(o, b.symbol, q), b.orders[i := o.(unrecorded := o.unrecorded + q)])
    case Record(i, q, p) =>
      var o := b.orders[i];
      b.(orders := b.orders[i := o.(fills := o.fills + [ExitFill(q, p)], unrecorded := o.unrecorded - q)])
    case Move(i, s) => WithStatus(b, i, s)
  }

  // ------------------------------------------------------- what is still outstanding

  /** From which moment an order counts: approval, or the claim. */
  datatype Stage = FromApproval | FromClaim

  predicate Counts(stage: Stage, s: Status) { if stage.FromApproval? then Reserving(s) else AtBroker(s) }

  function OutstandingBy(o: ExitOrder, symbol: string, side: Side, stage: Stage): real {
    if o.ticker == symbol && o.side == side && Counts(stage, o.status) then Remaining(o, 0.0) - o.unrecorded else 0.0
  }

  /** What the broker may still execute for the orders that count. */
  function Outstanding(orders: seq<ExitOrder>, symbol: string, side: Side, stage: Stage): real {
    if orders == [] then 0.0
    else Outstanding(orders[..|orders| - 1], symbol, side, stage) +
         OutstandingBy(orders[|orders| - 1], symbol, side, stage)
  }

  function OutstandingIn(b: Book, side: Side, stage: Stage): real { Outstanding(b.orders, b.symbol, side, stage) }

  /** Everything outstanding on a side fits into the position it reduces. */
  ghost predicate Covered(b: Book, side: Side, stage: Stage) {
    OutstandingIn(b, side, stage) <= Reducible(b.held, side)
  }

  /** One more order fits beside what is outstanding. */
  predicate Fits(b: Book, i: nat, stage: Stage)
    requires i < |b.orders|
  {
    var o := b.orders[i];
    o.ticker == b.symbol ==>
      Remaining(o, 0.0) - o.unrecorded <= Reducible(b.held, o.side) - OutstandingIn(b, o.side, stage)
  }

  lemma {:induction false} OutstandingUpdate(orders: seq<ExitOrder>, i: nat, o: ExitOrder, symbol: string, side: Side,
                                             stage: Stage)
    requires i < |orders|
    ensures Outstanding(orders[i := o], symbol, side, stage) ==
            Outstanding(orders, symbol, side, stage) - OutstandingBy(orders[i], symbol, side, stage) +
            OutstandingBy(o, symbol, side, stage)
    decreases |orders|
  {
    var n := |orders| - 1;
    if i == n {
      assert orders[i := o][..n] == orders[..n];
    } else {
      assert orders[i := o][..n] == orders[..n][i := o];
      OutstandingUpdate(orders[..n], i, o, symbol, side, stage);
    }
  }

  /** Each order's share is part of a sum of shares that are never negative. */
  lemma {:induction false} OutstandingAtLeast(orders: seq<ExitOrder>, i: nat, symbol: string, side: Side, stage: Stage)
    requires AllSound(orders) && i <= |orders|
    ensures Outstanding(orders, symbol, side, stage) >= 0.0
    ensures i < |orders| ==> Outstanding(orders, symbol, side, stage) >= OutstandingBy(orders[i], symbol, side, stage)
    decreases |orders|
  {
    if orders == [] {
    } else {
      var n := |orders| - 1;
      assert SoundOrder(orders[n]);
      OutstandingAtLeast(orders[..n], if i < n then i else n, symbol, side, stage);
    }
  }

  // ------------------------------------------------------------------ single steps

  /** A covered side lets the position move toward flat only, never past it. */
  ghost predicate Kept(held: real, held': real, side: Side) {
    match side
    case Sell => held' >= held || held' >= 0.0
    case Buy => held' <= held || held' <= 0.0
    case UnknownSide => true
  }

  /** The event from which an order of this side starts to count. */
  predicate Starts(b: Book, e: Event, side: Side, stage: Stage) {
    && ((stage.FromApproval? && e.Approve?) || (stage.FromClaim? && e.Claim?))
    && e.index < |b.orders| && b.orders[e.index].side == side
  }

  lemma ProposeKeeps(b: Book, o: ExitOrder, side: Side, stage: Stage)
    requires Sound(b) && Covered(b, side, stage) && CanHappen(b, Propose(o))
    ensures Sound(Apply(b, Propose(o))) && Covered(Apply(b, Propose(o)), side, stage)
  {
    var b' := Apply(b, Propose(o));
    assert b'.orders[..|b.orders|] == b.orders;
    assert SoundOrder(o) by { assert FilledQty([]) == 0.0; }
    forall k | 0 <= k < |b'.orders| ensures SoundOrder(b'.orders[k]) {
      if k < |b.orders| { assert b'.orders[k] == b.orders[k]; }
    }
  }

  lemma StatusKeeps(b: Book, i: nat, s: Status, side: Side, stage: Stage)
    requires Sound(b) && Covered(b, side, stage) && i < |b.orders|
    requires Counts(stage, s) && !Counts(stage, b.orders[i].status) && b.orders[i].side == side ==> Fits(b, i, stage)
    ensures Sound(WithStatus(b, i, s)) && Covered(WithStatus(b, i, s), side, stage)
  {
    var o' := b.orders[i].(status := s);
    assert SoundOrder(b.orders[i]);
    assert SoundOrder(o');
    SoundUpdate(b, i, o');
    OutstandingUpdate(b.orders, i, o', b.symbol, side, stage);
  }

  lemma SoundUpdate(b: Book, i: nat, o: ExitOrder)
    requires Sound(b) && i < |b.orders| && SoundOrder(o)
    ensures Sound(b.(orders := b.orders[i := o]))
  {
    var b' := b.(orders := b.orders[i := o]);
    forall k | 0 <= k < |b'.orders| ensures SoundOrder(b'.orders[k]) {
      if k != i { assert b'.orders[k] == b.orders[k]; }
    }
  }

  lemma ExecuteKeeps(b: Book, i: nat, q: real, side: Side, stage: Stage)
    requires Sound(b) && Covered(b, side, stage) && CanHappen(b, Execute(i, q))
    ensures var b' := Apply(b, Execute(i, q)); Sound(b') && Covered(b', side, stage) && Kept(b.held, b'.held, side)
  {
    Executed(b, i, q, side, stage);
    var o := b.orders[i];
    if o.ticker == b.symbol && o.side == side {
      Toward(b.held, q, side, OutstandingIn(b, side, stage));
    } else {
      Away(b.held, Signed(o, b.symbol, q), side);
    }
  }

  /** An execution takes its quantity off what is outstanding on its side. */
  lemma Executed(b: Book, i: nat, q: real, side: Side, stage: Stage)
    requires Sound(b) && CanHappen(b, Execute(i, q))
    ensures Sound(Apply(b, Execute(i, q)))
    ensures var mine := b.orders[i].ticker == b.symbol && b.orders[i].side == side;
            && OutstandingIn(Apply(b, Execute(i, q)), side, stage) ==
               OutstandingIn(b, side, stage) - (if mine then q else 0.0)
            && (mine ==> q <= OutstandingIn(b, side, stage))
  {
    var o := b.orders[i];
    var o' := o.(unrecorded := o.unrecorded + q);
    assert SoundOrder(o);
    assert Remaining(o', 0.0) == Remaining(o, 0.0);
    SoundUpdate(b, i, o');
    OutstandingUpdate(b.orders, i, o', b.symbol, side, stage);
    OutstandingAtLeast(b.orders, i, b.symbol, side, stage);
  }

  /** Reducing by part of what is covered stays covered and stops at flat. */
  lemma Toward(held: real, q: real, side: Side, outstanding: real)
    requires 0.0 <= q <= outstanding <= Reducible(held, side)
    ensures outstanding - q <= Reducible(held + Towards(side, q), side) && Kept(held, held + Towards(side, q), side)
  {
  }

  /** A fill of the other side leaves no less to reduce. */
  lemma Away(held: real, change: real, side: Side)
    requires (side.Sell? ==> change >= 0.0) && (side.Buy? ==> change <= 0.0)
    ensures Reducible(held, side) <= Reducible(held + change, side) && Kept(held, held + change, side)
  {
  }

  lemma RecordKeeps(b: Book, i: nat, q: real, p: real, side: Side, stage: Stage)
    requires Sound(b) && Covered(b, side, stage) && CanHappen(b, Record(i, q, p))
    ensures var b' := Apply(b, Record(i, q, p)); Sound(b') && Covered(b', side, stage)
  {
    var o := b.orders[i];
    var o' := o.(fills := o.fills + [ExitFill(q, p)], unrecorded := o.unrecorded - q);
    assert SoundOrder(o);
    assert o'.fills[..|o.fills|] == o.fills;
    assert Remaining(o', 0.0) == Remaining(o, 0.0) - q;
    SoundUpdate(b, i, o');
    OutstandingUpdate(b.orders, i, o', b.symbol, side, stage);
  }

  /** A step keeps a side covered, whatever it does on the other side, if the
      orders that start to count on this side fit when they start. */
  lemma StepKeepsCovered(b: Book, e: Event, side: Side, stage: Stage)
    requires Sound(b) && Covered(b, side, stage) && CanHappen(b, e)
    requires Starts(b, e, side, stage) ==> Fits(b, e.index, stage)
    ensures Sound(Apply(b, e)) && Covered(Apply(b, e), side, stage) && Kept(b.held, Apply(b, e).held, side)
  {
    match e {
      case Propose(o) => ProposeKeeps(b, o, side, stage);
      case Approve(i) => StatusKeeps(b, i, ApprovalRecorded, side, stage);
      case Claim(i) => StatusKeeps(b, i, Submitting, side, stage);
      case Execute(i, q) => ExecuteKeeps(b, i, q, side, stage);
      case Record(i, q, p) => RecordKeeps(b, i, q, p, side, stage);
      case Move(i, s) => StatusKeeps(b, i, s, side, stage);
    }
  }

  // -------------------------------------------------------------------- whole runs

  ghost predicate StepOf(states: seq<Book>, events: seq<Event>, i: nat)
    requires i < |events| && |states| == |events| + 1
  {
    CanHappen(states[i], events[i]) && states[i + 1] == Apply(states[i], events[i])
  }

  ghost predicate Happens(states: seq<Book>, events: seq<Event>) {
    && |states| == |events| + 1
    && forall i {:trigger StepOf(states, events, i)} :: 0 <= i < |events| ==> StepOf(states, events, i)
  }

  /** Orders of this side fit whenever they start to count. */
  ghost predicate FitAlong(states: seq<Book>, events: seq<Event>, side: Side, stage: Stage)
    requires |states| == |events| + 1
  {
    forall i {:trigger StepOf(states, events, i)} :: 0 <= i < |events| ==> FitAt(states[i], events[i], side, stage)
  }

  ghost predicate FitAt(b: Book, e: Event, side: Side, stage: Stage) {
    Starts(b, e, side, stage) ==> Fits(b, e.index, stage)
  }

  lemma {:induction false} RunKeepsCovered(states: seq<Book>, events: seq<Event>, n: nat, side: Side, stage: Stage)
    requires Happens(states, events) && FitAlong(states, events, side, stage) && n <= |events|
    requires Sound(states[0]) && Covered(states[0], side, stage)
    ensures Sound(states[n]) && Covered(states[n], side, stage) && Kept(states[0].held, states[n].held, side)
    decreases n
  {
    if n == 0 {
    } else {
      RunKeepsCovered(states, events, n - 1, side, stage);
      assert StepOf(states, events, n - 1);
      assert FitAt(states[n - 1], events[n - 1], side, stage);
      StepKeepsCovered(states[n - 1], events[n - 1], side, stage);
    }
  }

  // ----------------------------------------------- exits within the available quantity

  function AvailableIn(b: Book, side: Side): real { Available(b.held, b.orders, b.symbol, side, NoPrice) }

  /** The approved exit asks for no more than is available at that moment. */
  ghost predicate WithinAvailable(b: Book, e: Event) {
    e.Approve? && e.index < |b.orders| && b.orders[e.index].ticker == b.symbol ==>
      Remaining(b.orders[e.index], 0.0) <= AvailableIn(b, b.orders[e.index].side)
  }

  ghost predicate AllWithinAvailable(states: seq<Book>, events: seq<Event>)
    requires |states| == |events| + 1
  {
    forall i {:trigger StepOf(states, events, i)} :: 0 <= i < |events| ==> WithinAvailable(states[i], events[i])
  }

  /** The ledger shows at least what is outstanding. */
  lemma {:induction false} OutstandingIsReserved(orders: seq<ExitOrder>, symbol: string, side: Side)
    requires AllSound(orders)
    ensures Outstanding(orders, symbol, side, FromApproval) <= Reserved(orders, symbol, side, NoPrice)
  {
    if orders == [] {
    } else {
      assert SoundOrder(orders[|orders| - 1]);
      OutstandingIsReserved(orders[..|orders| - 1], symbol, side);
    }
  }

  lemma AvailableFits(b: Book, i: nat)
    requires Sound(b) && i < |b.orders| && WithinAvailable(b, Approve(i))
    requires Covered(b, b.orders[i].side, FromApproval)
    ensures Fits(b, i, FromApproval)
  {
    OutstandingIsReserved(b.orders, b.symbol, b.orders[i].side);
    assert SoundOrder(b.orders[i]);
  }

  /** Exits that reserve no more than is available when they start to reserve:
      over any run of them, with partial fills recorded late and cancels, the
      reservations stay covered on both sides and the position only shrinks
      toward flat, long or short. */
  lemma {:induction false} NeverThroughFlat(states: seq<Book>, events: seq<Event>, n: nat)
    requires Happens(states, events) && n <= |events|
    requires AllWithinAvailable(states, events)
    requires Sound(states[0]) && Covered(states[0], Sell, FromApproval) && Covered(states[0], Buy, FromApproval)
    ensures Sound(states[n]) && Covered(states[n], Sell, FromApproval) && Covered(states[n], Buy, FromApproval)
    ensures states[0].held >= 0.0 ==> 0.0 <= states[n].held <= states[0].held
    ensures states[0].held <= 0.0 ==> states[0].held <= states[n].held <= 0.0
    decreases n
  {
    if n == 0 {
    } else {
      NeverThroughFlat(states, events, n - 1);
      var b, e := states[n - 1], events[n - 1];
      assert StepOf(states, events, n - 1);
      assert WithinAvailable(b, e);
      if e.Approve? && !b.orders[e.index].side.UnknownSide? { AvailableFits(b, e.index); }
      StepKeepsCovered(b, e, Sell, FromApproval);
      StepKeepsCovered(b, e, Buy, FromApproval);
    }
  }

  // ------------------------------------------------------- sells and the risk check

  /** What is at the broker is part of what the risk check holds back. */
  lemma {:induction false} AtBrokerIsPending(orders: seq<ExitOrder>, symbol: string, i: nat)
    requires AllSound(orders) && (i < |orders| ==> !AtBroker(orders[i].status))
    ensures Outstanding(orders, symbol, Sell, FromClaim) <= PendingExcept(orders, symbol, i, 0.0)
  {
    if orders == [] {
    } else {
      var n := |orders| - 1;
      assert SoundOrder(orders[n]);
      AtBrokerIsPending(orders[..n], symbol, i);
    }
  }

  lemma AllowedSellFits(b: Book, i: nat)
    requires Sound(b) && CanHappen(b, Claim(i)) && b.orders[i].side.Sell?
    ensures Fits(b, i, FromClaim)
  {
    assert SoundOrder(b.orders[i]);
    AtBrokerIsPending(b.orders, b.symbol, i);
  }

  /** Sells never carry the position through flat, although approvals are not
      guarded at all and whatever the buys do: the risk check that every claim
      passes is enough. A position that is not short never becomes short. */
  lemma {:induction false} SellsNeverCrossFlat(states: seq<Book>, events: seq<Event>, n: nat)
    requires Happens(states, events) && n <= |events|
    requires Sound(states[0]) && Covered(states[0], Sell, FromClaim)
    ensures Sound(states[n]) && Covered(states[n], Sell, FromClaim)
    ensures states[0].held >= 0.0 ==> states[n].held >= 0.0
    ensures states[n].held >= states[0].held || states[n].held >= 0.0
    decreases n
  {
    if n == 0 {
    } else {
      SellsNeverCrossFlat(states, events, n - 1);
      var b, e := states[n - 1], events[n - 1];
      assert StepOf(states, events, n - 1);
      if e.Claim? && b.orders[e.index].side.Sell? { AllowedSellFits(b, e.index); }
      StepKeepsCovered(b, e, Sell, FromClaim);
    }
  }

  // --------------------------------------------------------- what uncovered leads to

  /** A position on the reducing side of flat, or flat. */
  ghost predicate Reduces(held: real, side: Side) {
    (side.Sell? && held >= 0.0) || (side.Buy? && held <= 0.0)
  }

  /** Only executions, only of orders of this side. */
  ghost predicate Executions(states: seq<Book>, events: seq<Event>, side: Side) {
    && Happens(states, events)
    && forall i {:trigger StepOf(states, events, i)} :: 0 <= i < |events| ==> ExecutionOf(states[i], events[i], side)
  }

  ghost predicate ExecutionOf(b: Book, e: Event, side: Side) {
    e.Execute? && e.index < |b.orders| && b.orders[e.index].side == side
  }

  /** Executions alone can carry the position through flat. */
  ghost predicate CanCross(b: Book, side: Side) {
    exists states, events :: CrossesBy(b, side, states, events)
  }

  ghost predicate CrossesBy(b: Book, side: Side, states: seq<Book>, events: seq<Event>) {
    Executions(states, events, side) && states[0] == b && !Reduces(states[|events|].held, side)
  }

  /** The broker can execute everything outstanding on a side. */
  lemma {:induction false} ExecuteAll(b: Book, side: Side, n: nat) returns (states: seq<Book>, events: seq<Event>)
    requires Sound(b) && n <= |b.orders|
    ensures Executions(states, events, side) && states[0] == b
    ensures var last := states[|events|];
            && last.symbol == b.symbol && |last.orders| == |b.orders| && last.orders[n..] == b.orders[n..]
            && last.held == b.held + Towards(side, Outstanding(b.orders[..n], b.symbol, side, FromClaim))
    decreases n
  {
    if n == 0 {
      states, events := [b], [];
    } else {
      states, events := ExecuteAll(b, side, n - 1);
      var last := states[|events|];
      var o := b.orders[n - 1];
      assert last.orders[n - 1] == last.orders[n - 1..][0] == b.orders[n - 1..][0] == o;
      assert b.orders[..n][..n - 1] == b.orders[..n - 1];
      assert SoundOrder(o);
      if o.ticker == b.symbol && o.side == side && AtBroker(o.status) {
        var e := Execute(n - 1, Remaining(o, 0.0) - o.unrecorded);
        AppendExecution(states, events, e, side);
        states, events := states + [Apply(last, e)], events + [e];
        assert states[|events|].orders[n..] == last.orders[n..];
      }
      assert last.orders[n..] == last.orders[n - 1..][1..] && b.orders[n..] == b.orders[n - 1..][1..];
    }
  }

  function Towards(side: Side, q: real): real { if side.Sell? then -q else if side.Buy? then q else 0.0 }

  lemma AppendExecution(states: seq<Book>, events: seq<Event>, e: Event, side: Side)
    requires Executions(states, events, side)
    requires CanHappen(states[|events|], e) && ExecutionOf(states[|events|], e, side)
    ensures Executions(states + [Apply(states[|events|], e)], events + [e], side)
  {
    var s, t := states + [Apply(states[|events|], e)], events + [e];
    forall i | 0 <= i < |t| ensures StepOf(s, t, i) && ExecutionOf(s[i], t[i], side) {
      if i < |events| { assert StepOf(states, events, i); }
    }
  }

  /** Covered is exactly what it takes: executions can carry the position through
      flat if and only if more is outstanding at the broker than can be reduced. */
  lemma CanCrossIffUncovered(b: Book, side: Side)
    requires Sound(b) && Reduces(b.held, side)
    ensures CanCross(b, side) <==> !Covered(b, side, FromClaim)
  {
    if Covered(b, side, FromClaim) {
      forall states: seq<Book>, events | Executions(states, events, side) && states[0] == b
        ensures Reduces(states[|events|].held, side)
      {
        ExecutionsFit(states, events, side);
        RunKeepsCovered(states, events, |events|, side, FromClaim);
      }
    } else {
      var states, events := ExecuteAll(b, side, |b.orders|);
      assert b.orders[..|b.orders|] == b.orders;
      assert CrossesBy(b, side, states, events);
    }
  }

  lemma ExecutionsFit(states: seq<Book>, events: seq<Event>, side: Side)
    requires Executions(states, events, side)
    ensures FitAlong(states, events, side, FromClaim)
  {
    forall i | 0 <= i < |events| ensures FitAt(states[i], events[i], side, FromClaim) {
      assert StepOf(states, events, i);
      assert ExecutionOf(states[i], events[i], side);
    }
  }

  /** The exact condition at the moment of submission: a claim opens the way
      through flat if and only if it does not fit beside what is at the broker. */
  lemma ClaimCrossesIffUnfit(b: Book, i: nat)
    requires Sound(b) && CanHappen(b, Claim(i)) && b.orders[i].ticker == b.symbol
    requires Reduces(b.held, b.orders[i].side) && Covered(b, b.orders[i].side, FromClaim)
    ensures CanCross(Apply(b, Claim(i)), b.orders[i].side) <==> !Fits(b, i, FromClaim)
    ensures b.orders[i].side.Sell? ==> Fits(b, i, FromClaim)
  {
    var o := b.orders[i];
    var o' := o.(status := Submitting);
    assert SoundOrder(o);
    SoundUpdate(b, i, o');
    OutstandingUpdate(b.orders, i, o', b.symbol, o.side, FromClaim);
    CanCrossIffUncovered(Apply(b, Claim(i)), o.side);
    if o.side.Sell? { AllowedSellFits(b, i); }
  }

  /** Buys whose claims fit never carry a short through flat. */
  lemma FittingBuysNeverCrossFlat(states: seq<Book>, events: seq<Event>, n: nat)
    requires Happens(states, events) && FitAlong(states, events, Buy, FromClaim) && n <= |events|
    requires Sound(states[0]) && Covered(states[0], Buy, FromClaim) && states[0].held <= 0.0
    ensures states[n].held <= 0.0 && Covered(states[n], Buy, FromClaim)
  {
    RunKeepsCovered(states, events, n, Buy, FromClaim);
  }

  // ------------------------------------------------------------- two covers of a short

  /** Nothing at submission asks whether a buy still fits. Two covers of a whole
      short, each no more than is available when it is proposed, are both
      submitted; the second claim does not fit, twice the short is outstanding,
      and executions can carry the position through flat. */
  lemma TwoCoversCrossFlat(symbol: string, short: real) returns (states: seq<Book>, events: seq<Event>)
    requires short > 0.0
    ensures Happens(states, events) && |events| == 7 && states[0] == Book(symbol, -short, [])
    ensures events[0].Propose? && events[0].order.qty == Some(AvailableIn(states[0], Buy))
    ensures events[1].Propose? && events[1].order.qty == Some(AvailableIn(states[1], Buy))
    ensures events[6] == Claim(1) && CanHappen(states[6], events[6]) && !Fits(states[6], 1, FromClaim)
    ensures states[7].held == -short && OutstandingIn(states[7], Buy, FromClaim) == 2.0 * short
    ensures CanCross(states[7], Buy)
  {
    var o := ExitOrder(symbol, Buy, Proposed, Some(short), None, [], 0.0);
    states, events := CoversProposed(symbol, short, o);
    states, events := FirstCoverSubmitted(symbol, short, o, states, events);
    states, events := SecondCoverClaimed(symbol, short, o, states, events);
  }

  lemma AppendStep(states: seq<Book>, events: seq<Event>, e: Event)
    requires Happens(states, events) && CanHappen(states[|events|], e)
    ensures Happens(states + [Apply(states[|events|], e)], events + [e])
  {
    var s, t := states + [Apply(states[|events|], e)], events + [e];
    forall i | 0 <= i < |t| ensures StepOf(s, t, i) {
      if i < |events| { assert StepOf(states, events, i); }
    }
  }

  ghost predicate Cover(symbol: string, short: real, o: ExitOrder) {
    short > 0.0 && o == ExitOrder(symbol, Buy, Proposed, Some(short), None, [], 0.0)
  }

  lemma CoversProposed(symbol: string, short: real, o: ExitOrder) returns (states: seq<Book>, events: seq<Event>)
    requires Cover(symbol, short, o)
    ensures Happens(states, events) && events == [Propose(o), Propose(o)]
    ensures states[0] == Book(symbol, -short, []) && states[2] == Book(symbol, -short, [o, o])
    ensures AvailableIn(states[0], Buy) == short == AvailableIn(states[1], Buy)
  {
    var b0, b1 := Book(symbol, -short, []), Book(symbol, -short, [o]);
    assert [o][..0] == [];
    assert Apply(b0, Propose(o)) == b1;
    AppendStep([b0], [], Propose(o));
    AppendStep([b0, b1], [Propose(o)], Propose(o));
    states, events := [b0, b1] + [Apply(b1, Propose(o))], [Propose(o)] + [Propose(o)];
  }

  lemma FirstCoverSubmitted(symbol: string, short: real, o: ExitOrder, s: seq<Book>, e: seq<Event>)
    returns (states: seq<Book>, events: seq<Event>)
    requires Cover(symbol, short, o) && Happens(s, e) && s[|e|] == Book(symbol, -short, [o, o])
    ensures Happens(states, events) && events == e + [Approve(0), Claim(0), Move(0, Submitted)] && s <= states
    ensures states[|events|] == Book(symbol, -short, [o.(status := Submitted), o])
  {
    var n := |e|;
    AppendStep(s, e, Approve(0));
    var s1, e1 := s + [Apply(s[n], Approve(0))], e + [Approve(0)];
    AppendStep(s1, e1, Claim(0));
    var s2, e2 := s1 + [Apply(s1[n + 1], Claim(0))], e1 + [Claim(0)];
    AppendStep(s2, e2, Move(0, Submitted));
    states, events := s2 + [Apply(s2[n + 2], Move(0, Submitted))], e2 + [Move(0, Submitted)];
  }

  lemma SecondCoverClaimed(symbol: string, short: real, o: ExitOrder, s: seq<Book>, e: seq<Event>)
    returns (states: seq<Book>, events: seq<Event>)
    requires Cover(symbol, short, o) && Happens(s, e)
    requires s[|e|] == Book(symbol, -short, [o.(status := Submitted), o])
    ensures Happens(states, events) && events == e + [Approve(1), Claim(1)] && s <= states
    ensures CanHappen(states[|e| + 1], Claim(1)) && !Fits(states[|e| + 1], 1, FromClaim)
    ensures states[|e| + 2].held == -short && OutstandingIn(states[|e| + 2], Buy, FromClaim) == 2.0 * short
    ensures CanCross(states[|e| + 2], Buy)
  {
    var n := |e|;
    AppendStep(s, e, Approve(1));
    var b := Apply(s[n], Approve(1));
    AppendStep(s + [b], e + [Approve(1)], Claim(1));
    states, events := s + [b] + [Apply(b, Claim(1))], e + [Approve(1)] + [Claim(1)];
    TwoCoversOutstanding(symbol, short, o);
    assert b == Book(symbol, -short, [o.(status := Submitted), o.(status := ApprovalRecorded)]);
    assert Apply(b, Claim(1)) == Book(symbol, -short, [o.(status := Submitted), o.(status := Submitting)]);
    CanCrossIffUncovered(Apply(b, Claim(1)), Buy);
  }

  lemma TwoCoversOutstanding(symbol: string, short: real, o: ExitOrder)
    requires Cover(symbol, short, o)
    ensures var a, c, d := o.(status := ApprovalRecorded), o.(status := Submitting), o.(status := Submitted);
            && OutstandingIn(Book(symbol, -short, [d, a]), Buy, FromClaim) == short == Remaining(a, 0.0)
            && OutstandingIn(Book(symbol, -short, [d, c]), Buy, FromClaim) == 2.0 * short
            && SoundOrder(d) && SoundOrder(c)
  {
    var a, c, d := o.(status := ApprovalRecorded), o.(status := Submitting), o.(status := Submitted);
    assert [d, a][..1] == [d] == [d, c][..1] && [d][..0] == [];
    assert Outstanding([d], symbol, Buy, FromClaim) == short;
  }
}

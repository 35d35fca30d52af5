/** How much an exit may still reserve, and how much the risk check at submission
    holds back for the sells already on their way. */
module ExitReservation {
  import opened Options
  import opened OrderLedger
  import opened Positions

  datatype Side = Buy | Sell | UnknownSide

  datatype ExitFill = ExitFill(qty: real, price: real)

  /** A ledger row; `unrecorded` is what the broker has executed and the ledger
      does not show yet, so no query below looks at it. */
  datatype ExitOrder = ExitOrder(ticker: string, side: Side, status: Status, qty: Option<real>, notional: Option<real>,
                                 fills: seq<ExitFill>, unrecorded: real)

  function Max(a: real, b: real): real { if a >= b then a else b }

  /** The states whose unfilled part is held back from later exits. */
  predicate Reserving(s: Status): (r: bool)
    ensures r <==> !Terminal(s) && !s.Proposed?
  {
    s.Approved? || s.ApprovalRecorded? || s.Submitting? || s.AcceptanceUnknown? || LiveAtBroker(s)
  }

  function FilledQty(fills: seq<ExitFill>): real {
    if fills == [] then 0.0 else FilledQty(fills[..|fills| - 1]) + fills[|fills| - 1].qty
  }

  function Spent(fills: seq<ExitFill>): real {
    if fills == [] then 0.0
    else Spent(fills[..|fills| - 1]) + fills[|fills| - 1].qty * fills[|fills| - 1].price
  }

  /** The unfilled quantity; a notional order is sized at the price observed. */
  function Remaining(o: ExitOrder, price: real): real {
    if o.qty.Some? then Max(o.qty.value - FilledQty(o.fills), 0.0)
    else if o.notional.Some? && price > 0.0 then Max(o.notional.value - Spent(o.fills), 0.0) / price
    else 0.0
  }

  function ReservedBy(o: ExitOrder, symbol: string, side: Side, price: real): real {
    if o.ticker == symbol && o.side == side && Reserving(o.status) then Remaining(o, price) else 0.0
  }

  /** `price(k)` is the price used for the order at position k. */
  function Reserved(orders: seq<ExitOrder>, symbol: string, side: Side, price: nat -> real): real {
    if orders == [] then 0.0
    else Reserved(orders[..|orders| - 1], symbol, side, price) +
         ReservedBy(orders[|orders| - 1], symbol, side, price(|orders| - 1))
  }

  function Reducible(held: real, side: Side): real {
    match side
    case Sell => Max(held, 0.0)
    case Buy => Max(-held, 0.0)
    case UnknownSide => 0.0
  }

  function Available(held: real, orders: seq<ExitOrder>, symbol: string, side: Side, price: nat -> real): real {
    Max(Reducible(held, side) - Reserved(orders, symbol, side, price), 0.0)
  }

  lemma {:induction false} ReservedNonNegative(orders: seq<ExitOrder>, symbol: string, side: Side, price: nat -> real)
    ensures Reserved(orders, symbol, side, price) >= 0.0
  {
    if orders == [] {
    } else {
      ReservedNonNegative(orders[..|orders| - 1], symbol, side, price);
      RemainingNonNegative(orders[|orders| - 1], price(|orders| - 1));
    }
  }

  lemma RemainingNonNegative(o: ExitOrder, price: real)
    ensures Remaining(o, price) >= 0.0
  {
    if o.qty.None? && o.notional.Some? && price > 0.0 {
      Quotient(Max(o.notional.value - Spent(o.fills), 0.0), price);
    }
  }

  lemma Quotient(a: real, b: real)
    requires a >= 0.0 && b > 0.0
    ensures a / b >= 0.0
  {
  }

  /** The caller's reference price, or the quote read for each order. */
  function PriceFor(referencePrice: Option<real>, quote: nat -> real): nat -> real {
    if referencePrice.Some? then (k: nat) => referencePrice.value else quote
  }

  method ReservedQty(orders: seq<ExitOrder>, symbol: string, side: Side, price: nat -> real) returns (reserved: real)
    ensures reserved == Reserved(orders, symbol, side, price)
  {
    reserved := 0.0;
    for k := 0 to |orders|
      invariant reserved == Reserved(orders[..k], symbol, side, price)
    {
      assert orders[..k + 1][..k] == orders[..k];
      var o := orders[k];
      if o.ticker == symbol && o.side == side && Reserving(o.status) {
        if o.qty.Some? {
          reserved := reserved + Max(o.qty.value - FilledQty(o.fills), 0.0);
        } else if o.notional.Some? {
          var remaining := Max(o.notional.value - Spent(o.fills), 0.0);
          if price(k) > 0.0 { reserved := reserved + remaining / price(k); }
        }
      }
    }
    assert orders[..|orders|] == orders;
  }

  /** Never negative; when positive it is exactly what the reservations leave of
      the reducible position, and 0 means they leave nothing. */
  method AvailableReduceQty(upper: Upper, ticker: string, side: Side, positions: seq<Position>, orders: seq<ExitOrder>,
                            referencePrice: Option<real>, quote: nat -> real)
    returns (r: real)
    ensures r == Available(BrokerQty(upper, positions, upper(ticker)), orders, upper(ticker), side,
                           PriceFor(referencePrice, quote))
  {
    var symbol, price := upper(ticker), PriceFor(referencePrice, quote);
    var held := BrokerPositions(upper, positions);
    var heldQty := Get(held, symbol);
    ReservedNonNegative(orders, symbol, side, price);
    var reducible := 0.0;
    if side.Sell? {
      reducible := Max(heldQty, 0.0);
    } else if side.Buy? {
      reducible := Max(-heldQty, 0.0);
    } else {
      return 0.0;
    }
    if reducible == 0.0 { return 0.0; }
    var reserved := ReservedQty(orders, symbol, side, price);
    r := Max(reducible - reserved, 0.0);
  }

  /** What the result means: an exit of that size or less is exactly one that fits
      beside the reservations already made. */
  lemma FitsIffAvailable(held: real, orders: seq<ExitOrder>, symbol: string, side: Side, price: nat -> real, qty: real)
    requires qty > 0.0
    ensures qty <= Available(held, orders, symbol, side, price) <==>
            Reserved(orders, symbol, side, price) + qty <= Reducible(held, side)
  {
  }

  // ---------------------------------------------------- the risk check at submission

  /** The states the execution snapshot counts as pending. */
  predicate Pending(s: Status): (r: bool)
    ensures r <==> Reserving(s) && !s.Approved?
  {
    s.ApprovalRecorded? || s.Submitting? || s.AcceptanceUnknown? || LiveAtBroker(s)
  }

  function PendingBy(o: ExitOrder, symbol: string, price: real): real {
    if o.ticker == symbol && !o.side.Buy? && Pending(o.status) then Remaining(o, price) else 0.0
  }

  /** What pending sells other than the order at position `skip` still ask for. */
  function PendingExcept(orders: seq<ExitOrder>, symbol: string, skip: nat, price: real): real {
    if orders == [] then 0.0
    else PendingExcept(orders[..|orders| - 1], symbol, skip, price) +
         if |orders| - 1 == skip then 0.0 else PendingBy(orders[|orders| - 1], symbol, price)
  }

  method ReservedSells(orders: seq<ExitOrder>, symbol: string, skip: nat, price: real) returns (reserved: real)
    ensures reserved == PendingExcept(orders, symbol, skip, price)
  {
    reserved := 0.0;
    for k := 0 to |orders|
      invariant reserved == PendingExcept(orders[..k], symbol, skip, price)
    {
      assert orders[..k + 1][..k] == orders[..k];
      var o := orders[k];
      if k != skip && Pending(o.status) && o.ticker == symbol && !o.side.Buy? {
        reserved := reserved + Remaining(o, price);
      }
    }
    assert orders[..|orders|] == orders;
  }

  /** A sell is refused when it asks for more than the long position less the
      pending sells. Nothing of the kind is asked of a buy. */
  predicate RiskAllows(held: real, orders: seq<ExitOrder>, symbol: string, index: nat, price: real)
    requires index < |orders|
  {
    var o := orders[index];
    o.side.Sell? && o.ticker == symbol ==>
      (o.qty.Some? ==> o.qty.value <= Max(held, 0.0) - PendingExcept(orders, symbol, index, price)) &&
      (o.qty.None? && o.notional.Some? && price > 0.0 ==>
         o.notional.value / price <= Max(held, 0.0) - PendingExcept(orders, symbol, index, price))
  }
}

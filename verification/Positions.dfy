/** Comparing what the broker holds with what the trusted fills add up to. */
module Positions {

  datatype Position = Position(ticker: string, qty: real)

  /** `trusted` is the verdict on the fill's broker identity. */
  datatype Fill = Fill(ticker: string, side: string, qty: real, trusted: bool)

  /** Upper-casing of tickers. */
  type Upper = string -> string

  // --------------------------------------------------------------- what they mean

  /** The broker's last word on a ticker, 0 when it has none. */
  function BrokerQty(upper: Upper, positions: seq<Position>, ticker: string): real {
    if positions == [] then 0.0
    else
      var last := positions[|positions| - 1];
      if upper(last.ticker) == ticker then last.qty else BrokerQty(upper, positions[..|positions| - 1], ticker)
  }

  function Delta(upper: Upper, f: Fill, ticker: string): real {
    if !f.trusted || upper(f.ticker) != ticker then 0.0 else if f.side == "buy" then f.qty else -f.qty
  }

  /** The signed sum of the trusted fills of a ticker. */
  function LocalQty(upper: Upper, fills: seq<Fill>, ticker: string): real {
    if fills == [] then 0.0
    else LocalQty(upper, fills[..|fills| - 1], ticker) + Delta(upper, fills[|fills| - 1], ticker)
  }

  /** Broker and ledger agree on every ticker there is. */
  ghost predicate Agree(upper: Upper, positions: seq<Position>, fills: seq<Fill>) {
    forall ticker :: BrokerQty(upper, positions, ticker) == LocalQty(upper, fills, ticker)
  }

  // ------------------------------------------------------------------ how it is done

  function Get(m: map<string, real>, ticker: string): real { if ticker in m then m[ticker] else 0.0 }

  method BrokerPositions(upper: Upper, positions: seq<Position>) returns (held: map<string, real>)
    ensures forall ticker :: Get(held, ticker) == BrokerQty(upper, positions, ticker)
  {
    held := map[];
    for i := 0 to |positions|
      invariant forall ticker :: Get(held, ticker) == BrokerQty(upper, positions[..i], ticker)
    {
      assert positions[..i + 1][..i] == positions[..i];
      held := held[upper(positions[i].ticker) := positions[i].qty];
    }
    assert positions[..|positions|] == positions;
  }

  method LocalPositions(upper: Upper, fills: seq<Fill>) returns (local: map<string, real>)
    ensures forall ticker :: Get(local, ticker) == LocalQty(upper, fills, ticker)
  {
    local := map[];
    for i := 0 to |fills|
      invariant forall ticker :: Get(local, ticker) == LocalQty(upper, fills[..i], ticker)
    {
      assert fills[..i + 1][..i] == fills[..i];
      if fills[i].trusted {
        var delta := if fills[i].side == "buy" then fills[i].qty else -fills[i].qty;
        var ticker := upper(fills[i].ticker);
        local := local[ticker := Get(local, ticker) + delta];
      }
    }
    assert fills[..|fills|] == fills;
  }

  /** The tickers on which the two disagree, with both quantities. */
  method PositionDrift(upper: Upper, positions: seq<Position>, fills: seq<Fill>)
    returns (drift: map<string, (real, real)>)
    ensures forall ticker :: ticker in drift <==>
              BrokerQty(upper, positions, ticker) != LocalQty(upper, fills, ticker)
    ensures forall ticker :: ticker in drift ==>
              drift[ticker] == (BrokerQty(upper, positions, ticker), LocalQty(upper, fills, ticker))
    ensures drift == map[] <==> Agree(upper, positions, fills)
  {
    var held := BrokerPositions(upper, positions);
    var local := LocalPositions(upper, fills);
    var todo := held.Keys + local.Keys;
    drift := map[];
    while todo != {}
      invariant forall ticker :: ticker in drift <==>
                  Get(held, ticker) != Get(local, ticker) && ticker !in todo
      invariant forall ticker :: ticker in drift ==> drift[ticker] == (Get(held, ticker), Get(local, ticker))
      decreases todo
    {
      var ticker :| ticker in todo;
      todo := todo - {ticker};
      if Get(held, ticker) != Get(local, ticker) {
        drift := drift[ticker := (Get(held, ticker), Get(local, ticker))];
      }
    }
    if drift != map[] { var ticker :| ticker in drift; }
  }
}

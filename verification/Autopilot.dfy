/** Autopilot cycles against a daily cap, over any sequence of cycles. */
module Autopilot {
  import opened Options
  import opened Outcomes

  /** Clock ticks in a UTC day. */
  const DAY: int := 86_400_000_000

  function Day(time: int): int { time / DAY }

  /** An approval on record; `autopilot` says that its actor is an autopilot. */
  datatype Approval = Approval(time: int, autopilot: bool)

  datatype Side = Buy | Sell

  datatype Placed = Placed(symbol: string, side: Side, dryRun: bool)

  datatype Target = Long | Flat | Other

  // ------------------------------------------------------------------- counting

  function CountOf(a: Approval, day: int): nat { if a.autopilot && Day(a.time) == day then 1 else 0 }

  /** Autopilot approvals on a UTC day. */
  function Count(approvals: seq<Approval>, day: int): nat {
    if approvals == [] then 0
    else Count(approvals[..|approvals| - 1], day) + CountOf(approvals[|approvals| - 1], day)
  }

  ghost predicate UpTo(approvals: seq<Approval>, clock: int) {
    forall a :: a in approvals ==> a.time <= clock
  }

  lemma CountAppend(approvals: seq<Approval>, a: Approval, day: int)
    ensures Count(approvals + [a], day) == Count(approvals, day) + CountOf(a, day)
  {
    assert (approvals + [a])[..|approvals|] == approvals;
  }

  lemma {:induction false} NothingAhead(approvals: seq<Approval>, clock: int, day: int)
    requires UpTo(approvals, clock) && day > Day(clock)
    ensures Count(approvals, day) == 0
  {
    if approvals == [] {
    } else {
      NothingAhead(approvals[..|approvals| - 1], clock, day);
      assert approvals[|approvals| - 1] in approvals;
    }
  }

  function Max(a: int, b: int): int { if a >= b then a else b }

  /** Against an earlier record: at most `added` more on any day, and nothing
      more on the days before `from`. */
  ghost predicate Grown(before: seq<Approval>, now: seq<Approval>, from: int, added: int) {
    && (forall day :: Count(before, day) <= Count(now, day) <= Count(before, day) + added)
    && (forall day :: day < from ==> Count(now, day) == Count(before, day))
  }

  lemma GrownByOne(before: seq<Approval>, now: seq<Approval>, from: int, added: int, a: Approval)
    requires Grown(before, now, from, added) && (a.autopilot ==> Day(a.time) >= from)
    ensures Grown(before, now + [a], from, if a.autopilot then added + 1 else added)
  {
    forall day ensures Count(now + [a], day) == Count(now, day) + CountOf(a, day) { CountAppend(now, a, day); }
  }

  /** No day ends above the cap unless it began there. */
  ghost predicate Capped(before: seq<Approval>, now: seq<Approval>, cap: int) {
    forall day :: Count(now, day) <= Max(Count(before, day), cap)
  }

  /** A cycle that began at `clock` and added no more than the cap left over is
      capped on its own day and on every later one. */
  lemma CycleIsCapped(before: seq<Approval>, clock: int, now: seq<Approval>, added: int, cap: int)
    requires UpTo(before, clock) && Grown(before, now, Day(clock), added)
    requires added > 0 ==> Count(before, Day(clock)) + added <= cap
    ensures Capped(before, now, cap)
  {
    forall day ensures Count(now, day) <= Max(Count(before, day), cap) {
      if day > Day(clock) { NothingAhead(before, clock, day); }
    }
  }

  // ------------------------------------------------------------------ the autopilot

  /** The order that brings a holding to its target, if one is needed. */
  function Wanted(target: Target, held: Option<real>): Option<Side> {
    if held.None? || target.Other? || (target.Long? <==> held.value > 0.0) then None
    else if held.value > 0.0 then Some(Sell)
    else Some(Buy)
  }

  class Pilot {
    var approvals: seq<Approval>
    var clock: int
    const universe: seq<string>
    const cap: int
    const dryRun: bool
    const assetClass: string -> int

    ghost predicate Valid()
      reads this
    {
      UpTo(approvals, clock)
    }

    constructor (universe: seq<string>, cap: int, dryRun: bool, assetClass: string -> int, approvals: seq<Approval>,
                 clock: int)
      requires universe != [] && UpTo(approvals, clock)
      ensures Valid() && this.approvals == approvals && this.clock == clock && this.cap == cap
    {
      this.universe, this.cap, this.dryRun, this.assetClass := universe, cap, dryRun, assetClass;
      this.approvals, this.clock := approvals, clock;
    }

    /** Time passes and people approve orders. */
    method World(ghost before: seq<Approval>, ghost from: int, ghost added: int)
      requires Valid() && Grown(before, approvals, from, added)
      modifies this
      ensures Valid() && clock >= old(clock) && Grown(before, approvals, from, added)
    {
      var steps: nat := *;
      while steps > 0
        invariant Valid() && clock >= old(clock) && Grown(before, approvals, from, added)
      {
        var later: int := *;
        if later > 0 { clock := clock + later; }
        GrownByOne(before, approvals, from, added, Approval(clock, false));
        approvals := approvals + [Approval(clock, false)];
        steps := steps - 1;
      }
    }

    /** Autopilot approvals since UTC midnight. */
    method OrdersToday() returns (n: nat)
      requires Valid()
      ensures n == Count(approvals, Day(clock))
    {
      var start := Day(clock) * DAY;
      n := 0;
      for k := 0 to |approvals|
        invariant n == Count(approvals[..k], Day(clock))
      {
        assert approvals[..k + 1][..k] == approvals[..k];
        assert approvals[k].time <= clock;
        SinceMidnight(approvals[k].time, clock);
        if approvals[k].autopilot && approvals[k].time >= start { n := n + 1; }
      }
      assert approvals[..|approvals|] == approvals;
    }

    /** Places one order. An exception can come after the approval is on record,
        and an answer can come without any approval. */
    method Submit(symbol: string, side: Side, ghost before: seq<Approval>, ghost from: int, ghost added: int)
      returns (r: Outcome<Option<Placed>>, ghost approved: bool)
      requires Valid() && Grown(before, approvals, from, added) && from <= Day(clock)
      modifies this
      ensures Valid() && clock >= old(clock)
      ensures Grown(before, approvals, from, if approved then added + 1 else added)
      ensures approved ==> r.Raised? || r.value.Some?
      ensures dryRun ==> approvals == old(approvals) && clock == old(clock) && !approved
      ensures r.Ok? && r.value.Some? ==> r.value.value == Placed(symbol, side, dryRun)
    {
      approved := false;
      if dryRun { return Ok(Some(Placed(symbol, side, true))), false; }
      var proposed, raised: bool := *, *;
      World(before, from, added);
      LaterDay(old(clock), clock);
      if raised { return Raised, false; }
      if !proposed { return Ok(None), false; }
      var records, raisedAfter: bool := *, *;
      if records {
        GrownByOne(before, approvals, from, added, Approval(clock, true));
        approvals, approved := approvals + [Approval(clock, true)], true;
      }
      r := if raisedAfter then Raised else Ok(Some(Placed(symbol, side, false)));
    }

    /** Whether a symbol's market is open, asked once per asset class and cycle. */
    method MarketOpen(symbol: string, cache: map<int, bool>) returns (open: bool, cache': map<int, bool>)
      ensures cache.Keys + {assetClass(symbol)} == cache'.Keys && open == cache'[assetClass(symbol)]
      ensures forall c :: c in cache ==> cache'[c] == cache[c]
    {
      cache' := cache;
      if assetClass(symbol) !in cache {
        var answer: bool := *;
        cache' := cache[assetClass(symbol) := answer];
      }
      open := cache'[assetClass(symbol)];
    }

    /** What one symbol leads to: `target` is None when the strategy raises, and
        `held` when the positions cannot be read. Buys open from flat or short,
        sells close a long, and nothing else is tried. */
    method Consider(symbol: string, features: bool, target: Option<Target>, held: Option<real>,
                    ghost before: seq<Approval>, ghost from: int, ghost added: int)
      returns (r: Outcome<Option<Placed>>, ghost approved: bool)
      requires Valid() && Grown(before, approvals, from, added) && from <= Day(clock)
      modifies this
      ensures Valid() && clock >= old(clock)
      ensures Grown(before, approvals, from, if approved then added + 1 else added)
      ensures approved ==> r.Raised? || r.value.Some?
      ensures dryRun ==> approvals == old(approvals) && clock == old(clock) && !approved
      ensures !features ==> r == Ok(None)
      ensures features && target.None? ==> r.Raised?
      ensures features && target.Some? && Wanted(target.value, held).None? ==> r == Ok(None)
      ensures approved || (r.Ok? && r.value.Some?) ==>
                features && target.Some? && Wanted(target.value, held).Some?
      ensures r.Ok? && r.value.Some? ==> r.value.value == Placed(symbol, Wanted(target.value, held).value, dryRun)
    {
      if !features { return Ok(None), false; }
      if target.None? { return Raised, false; }
      if held.None? { return Ok(None), false; }
      if target.value.Long? && held.value <= 0.0 {
        r, approved := Submit(symbol, Buy, before, from, added);
      } else if target.value.Flat? && held.value > 0.0 {
        r, approved := Submit(symbol, Sell, before, from, added);
      } else {
        return Ok(None), false;
      }
    }

    /** One cycle. However it ends, and whatever day it ends on, no UTC day has
        more autopilot approvals than the cap, unless it had them before. */
    method RunOnce(paper: bool) returns (r: Outcome<seq<Placed>>)
      requires Valid()
      modifies this
      ensures Valid() && clock >= old(clock)
      ensures Capped(old(approvals), approvals, cap)
      ensures !paper ==> r.Raised?
      ensures !paper || dryRun ==> approvals == old(approvals)
      ensures r.Ok? ==> |r.value| <= |universe|
    {
      ghost var before, from := approvals, Day(clock);
      if !paper { return Raised; }
      var placed: int := OrdersToday();
      ghost var began, added := placed, 0;
      var executed: seq<Placed>, cache := [], map[];
      var k := 0;
      while k < |universe|
        invariant 0 <= k <= |universe| && |executed| <= k
        invariant Valid() && clock >= old(clock) && from <= Day(clock)
        invariant Grown(before, approvals, from, added) && 0 <= added <= placed - began
        invariant added > 0 ==> began + added <= cap
        invariant dryRun ==> approvals == old(approvals)
      {
        if placed >= cap { break; }
        var symbol := universe[k];
        k := k + 1;
        var open;
        open, cache := MarketOpen(symbol, cache);
        if !open { continue; }
        ghost var earlier := clock;
        ghost var approved;
        var result;
        var features: bool, target: Option<Target>, held: Option<real> := *, *, *;
        result, approved := Consider(symbol, features, target, held, before, from, added);
        LaterDay(earlier, clock);
        if approved { added := added + 1; }
        if result.Raised? {
          CycleIsCapped(before, old(clock), approvals, added, cap);
          return Raised;
        }
        if result.value.Some? {
          executed := executed + [result.value.value];
          placed := placed + 1;
        }
      }
      CycleIsCapped(before, old(clock), approvals, added, cap);
      r := Ok(executed);
    }

    /** Any sequence of cycles, with time passing and people approving between
        them: a day that starts within the cap ends within it. */
    method Loop(cycles: nat, paper: bool)
      requires Valid()
      modifies this
      ensures Valid() && Capped(old(approvals), approvals, cap)
    {
      for i := 0 to cycles
        invariant Valid() && Capped(old(approvals), approvals, cap)
      {
        ghost var before := approvals;
        var _ := RunOnce(paper);
        CappedTrans(old(approvals), before, approvals, cap);
        before := approvals;
        World(before, 0, 0);
        CappedTrans(old(approvals), before, approvals, cap);
      }
    }
  }

  lemma CappedTrans(a: seq<Approval>, b: seq<Approval>, c: seq<Approval>, cap: int)
    requires Capped(a, b, cap)
    requires Capped(b, c, cap) || forall day :: Count(c, day) == Count(b, day)
    ensures Capped(a, c, cap)
  {
    forall day ensures Count(c, day) <= Max(Count(a, day), cap) {
      assert Count(b, day) <= Max(Count(a, day), cap);
    }
  }

  lemma LaterDay(a: int, b: int)
    requires a <= b
    ensures Day(a) <= Day(b)
  {
  }

  /** With no approval in the future, since midnight means today. */
  lemma SinceMidnight(time: int, clock: int)
    requires time <= clock
    ensures time >= Day(clock) * DAY <==> Day(time) == Day(clock)
  {
    LaterDay(time, clock);
  }
}

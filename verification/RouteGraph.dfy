/** The effective-route walk over a graph of routers that include or mount one
    another. The graph is built by static evaluation and may be cyclic. */
module RouteGraph {
  import opened Options
  import opened RoutePath

  /** Objects carry unique keys; a child is referred to by its key. */
  type Key = string

  datatype StaticRoute = StaticRoute(verb: string, path: string, line: int)

  datatype Include = Include(prefix: Option<string>, child: Option<Key>, line: int, isMount: bool,
                             staticAssets: bool)

  datatype RouteObject = RouteObject(prefix: Option<string>, line: int, relative: string,
                                     routes: seq<StaticRoute>, includes: seq<Include>)

  type Graph = map<Key, RouteObject>

  datatype Entry = Entry(verb: string, path: string, relative: string, line: int)

  datatype Finding = Finding(relative: string, line: int)

  ghost predicate ClosedIncludes(g: Graph, incs: seq<Include>) {
    forall n :: 0 <= n < |incs| && incs[n].child.Some? ==> incs[n].child.value in g
  }

  /** Every included child is an object of the graph. */
  ghost predicate Closed(g: Graph) {
    forall k {:trigger g[k].includes} :: k in g ==> ClosedIncludes(g, g[k].includes)
  }

  function Unproven(relative: string, line: int): Finding {
    Finding(relative, if line < 1 then 1 else line)
  }

  // ------------------------------------------------- what one walk produces

  datatype Outcome = Outcome(entries: seq<Entry>, findings: seq<Finding>) {
    function Then(next: Outcome): Outcome {
      Outcome(entries + next.entries, findings + next.findings)
    }
  }

  const NOTHING := Outcome([], [])

  function RouteEntry(composed: string, relative: string, r: StaticRoute): Entry {
    Entry(r.verb, RouteJoin(composed, r.path), relative, r.line)
  }

  function RouteEntries(composed: string, relative: string, routes: seq<StaticRoute>): (r: seq<Entry>)
    ensures |r| == |routes|
    ensures forall n :: 0 <= n < |r| ==> r[n] == RouteEntry(composed, relative, routes[n])
  {
    seq(|routes|, n requires 0 <= n < |routes| => RouteEntry(composed, relative, routes[n]))
  }

  ghost function Visit(g: Graph, k: Key, inherited: string, active: set<Key>): Outcome
    requires Closed(g) && k in g
    decreases g.Keys - active, 0
  {
    var o := g[k];
    if k in active || o.prefix.None? then
      Outcome([], [Unproven(o.relative, o.line)])
    else
      var composed := RouteJoin(inherited, o.prefix.value);
      assert k in g.Keys - active && k !in g.Keys - (active + {k});
      Outcome(RouteEntries(composed, o.relative, o.routes), [])
        .Then(VisitAll(g, o.relative, composed, o.includes, active + {k}))
  }

  ghost function VisitAll(g: Graph, relative: string, composed: string, incs: seq<Include>,
                          active: set<Key>): Outcome
    requires Closed(g) && ClosedIncludes(g, incs)
    decreases g.Keys - active, |incs| + 1
  {
    if incs == [] then
      NOTHING
    else
      VisitOne(g, relative, composed, incs[0], active)
        .Then(VisitAll(g, relative, composed, incs[1..], active))
  }

  ghost function VisitOne(g: Graph, relative: string, composed: string, inc: Include,
                          active: set<Key>): Outcome
    requires Closed(g) && (inc.child.Some? ==> inc.child.value in g)
    decreases g.Keys - active, 1
  {
    if inc.prefix.None? then
      Outcome([], [Unproven(relative, inc.line)])
    else
      var path := RouteJoin(composed, inc.prefix.value);
      if inc.isMount then
        var mounted := Outcome([Entry("MOUNT", path, relative, inc.line)], []);
        if inc.child.Some? then
          mounted.Then(Visit(g, inc.child.value, path, active))
        else if inc.staticAssets && path == "/static" then
          mounted
        else
          mounted.Then(Outcome([], [Unproven(relative, inc.line)]))
      else if inc.child.None? then
        Outcome([], [Unproven(relative, inc.line)])
      else
        Visit(g, inc.child.value, path, active)
  }

  // ----------------------------------------------- the scanner that runs it

  class RouteScanner {
    var effective: seq<Entry>
    var findings: seq<Finding>

    /** What the walk has collected so far. */
    ghost function Found(): Outcome
      reads this
    {
      Outcome(effective, findings)
    }

    constructor ()
      ensures effective == [] && findings == []
    {
      effective, findings := [], [];
    }

    /** Terminates on every finite graph: each nested call grows the active
        path, and only keys outside it are expanded. */
    method Walk(g: Graph, k: Key, inherited: string, active: set<Key>)
      requires Closed(g) && k in g
      modifies this
      ensures Found() == old(Found()).Then(Visit(g, k, inherited, active))
      decreases g.Keys - active, 0
    {
      var o := g[k];
      if k in active || o.prefix.None? {
        findings := findings + [Unproven(o.relative, o.line)];
        return;
      }
      var composed := RouteJoin(inherited, o.prefix.value);
      AppendRoutes(composed, o.relative, o.routes);
      assert k in g.Keys - active && k !in g.Keys - (active + {k});
      WalkIncludes(g, o.relative, composed, o.includes, active + {k});
    }

    method AppendRoutes(composed: string, relative: string, routes: seq<StaticRoute>)
      modifies `effective
      ensures effective == old(effective) + RouteEntries(composed, relative, routes)
    {
      for n := 0 to |routes|
        invariant effective == old(effective) + RouteEntries(composed, relative, routes)[..n]
      {
        effective := effective + [RouteEntry(composed, relative, routes[n])];
      }
    }

    method WalkIncludes(g: Graph, relative: string, composed: string, incs: seq<Include>, active: set<Key>)
      requires Closed(g) && ClosedIncludes(g, incs)
      modifies this
      ensures Found() == old(Found()).Then(VisitAll(g, relative, composed, incs, active))
      decreases g.Keys - active, |incs| + 1
    {
      ghost var all := old(Found()).Then(VisitAll(g, relative, composed, incs, active));
      for n := 0 to |incs|
        invariant all == Found().Then(VisitAll(g, relative, composed, incs[n..], active))
      {
        ghost var before := Found();
        WalkInclude(g, relative, composed, incs[n], active);
        VisitAllFrom(g, relative, composed, incs, n, active);
        ThenAssociative(before, VisitOne(g, relative, composed, incs[n], active),
                        VisitAll(g, relative, composed, incs[n + 1..], active));
      }
    }

    method WalkInclude(g: Graph, relative: string, composed: string, inc: Include, active: set<Key>)
      requires Closed(g) && (inc.child.Some? ==> inc.child.value in g)
      modifies this
      ensures Found() == old(Found()).Then(VisitOne(g, relative, composed, inc, active))
      decreases g.Keys - active, 1
    {
      if inc.prefix.None? {
        findings := findings + [Unproven(relative, inc.line)];
        return;
      }
      var path := RouteJoin(composed, inc.prefix.value);
      if inc.isMount {
        ghost var mounted := Outcome([Entry("MOUNT", path, relative, inc.line)], []);
        effective := effective + [Entry("MOUNT", path, relative, inc.line)];
        assert Found() == old(Found()).Then(mounted);
        if inc.child.Some? {
          Walk(g, inc.child.value, path, active);
          ThenAssociative(old(Found()), mounted, Visit(g, inc.child.value, path, active));
        } else if !(inc.staticAssets && path == "/static") {
          findings := findings + [Unproven(relative, inc.line)];
        }
      } else if inc.child.None? {
        findings := findings + [Unproven(relative, inc.line)];
      } else {
        Walk(g, inc.child.value, path, active);
      }
    }

    method EffectiveRoutes(g: Graph, root: Key) returns (r: seq<Entry>)
      requires Closed(g) && root in g
      modifies this
      ensures r == Visit(g, root, "", {}).entries
      ensures findings == old(findings) + Visit(g, root, "", {}).findings
    {
      effective := [];
      Walk(g, root, "", {});
      r := effective;
    }
  }

  lemma ThenAssociative(a: Outcome, b: Outcome, c: Outcome)
    ensures a.Then(b).Then(c) == a.Then(b.Then(c))
  {
    assert (a.entries + b.entries) + c.entries == a.entries + (b.entries + c.entries);
  }

  lemma VisitAllFrom(g: Graph, relative: string, composed: string, incs: seq<Include>, n: nat, active: set<Key>)
    requires Closed(g) && ClosedIncludes(g, incs) && n < |incs|
    ensures VisitAll(g, relative, composed, incs[n..], active) ==
            VisitOne(g, relative, composed, incs[n], active)
              .Then(VisitAll(g, relative, composed, incs[n + 1..], active))
  {
    assert incs[n..][0] == incs[n] && incs[n..][1..] == incs[n + 1..];
  }
}

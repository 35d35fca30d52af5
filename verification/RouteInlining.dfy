/** Replacing an include by the contents of the included router: a rewrite of
    the graph that keeps the effective (method, path) pairs. */
module RouteInlining {
  import opened Options
  import opened RoutePath
  import opened RouteGraph
  import opened RouteExactness

  // -------------------------------------------------------------- the rewrite

  function PrefixedRoutes(prefix: string, routes: seq<StaticRoute>): (r: seq<StaticRoute>)
    ensures |r| == |routes|
    ensures forall n :: 0 <= n < |r| ==> r[n] == routes[n].(path := RouteJoin(prefix, routes[n].path))
  {
    seq(|routes|, n requires 0 <= n < |routes| => routes[n].(path := RouteJoin(prefix, routes[n].path)))
  }

  function PrefixedInclude(prefix: string, inc: Include): Include {
    if inc.prefix.Some? then inc.(prefix := Some(RouteJoin(prefix, inc.prefix.value))) else inc
  }

  function PrefixedIncludes(prefix: string, incs: seq<Include>): (r: seq<Include>)
    ensures |r| == |incs|
    ensures forall n :: 0 <= n < |r| ==> r[n] == PrefixedInclude(prefix, incs[n])
  {
    seq(|incs|, n requires 0 <= n < |incs| => PrefixedInclude(prefix, incs[n]))
  }

  /** A non-mount include whose own prefix and whose child's prefix are static. */
  ghost predicate CanInline(g: Graph, k: Key, i: nat) {
    && Closed(g) && k in g && i < |g[k].includes|
    && var inc := g[k].includes[i];
       !inc.isMount && inc.prefix.Some? && inc.child.Some? && g[inc.child.value].prefix.Some?
  }

  /** The included object. */
  ghost function ChildOf(g: Graph, k: Key, i: nat): Key
    requires CanInline(g, k, i)
  {
    g[k].includes[i].child.value
  }

  /** The prefix under which the child's routes and includes are lifted. */
  ghost function LiftPrefix(g: Graph, k: Key, i: nat): string
    requires CanInline(g, k, i)
  {
    RouteJoin(g[k].includes[i].prefix.value, g[ChildOf(g, k, i)].prefix.value)
  }

  ghost function LiftedRoutes(g: Graph, k: Key, i: nat): seq<StaticRoute>
    requires CanInline(g, k, i)
  {
    PrefixedRoutes(LiftPrefix(g, k, i), g[ChildOf(g, k, i)].routes)
  }

  ghost function LiftedIncludes(g: Graph, k: Key, i: nat): seq<Include>
    requires CanInline(g, k, i)
  {
    PrefixedIncludes(LiftPrefix(g, k, i), g[ChildOf(g, k, i)].includes)
  }

  ghost function Inlined(g: Graph, k: Key, i: nat): RouteObject
    requires CanInline(g, k, i)
  {
    var o := g[k];
    o.(routes := o.routes + LiftedRoutes(g, k, i),
       includes := o.includes[..i] + LiftedIncludes(g, k, i) + o.includes[i + 1..])
  }

  ghost function Inline(g: Graph, k: Key, i: nat): (h: Graph)
    requires CanInline(g, k, i)
    ensures h.Keys == g.Keys && Closed(h) && ClosedIncludes(h, LiftedIncludes(g, k, i))
  {
    var h := g[k := Inlined(g, k, i)];
    assert ClosedIncludes(h, h[k].includes);
    h
  }

  // -------------------------------------------------------------- what is kept

  /** The part of an entry a client of the application can observe. */
  datatype Endpoint = Endpoint(verb: string, path: string)

  ghost function Endpoints(entries: seq<Entry>): (m: multiset<Endpoint>) {
    if entries == [] then multiset{}
    else multiset{Endpoint(entries[0].verb, entries[0].path)} + Endpoints(entries[1..])
  }

  lemma {:induction false} EndpointsConcat(a: seq<Entry>, b: seq<Entry>)
    ensures Endpoints(a + b) == Endpoints(a) + Endpoints(b)
  {
    if a == [] {
      assert a + b == b;
    } else {
      assert (a + b)[1..] == a[1..] + b;
      EndpointsConcat(a[1..], b);
    }
  }

  lemma {:induction false} EndpointsPointwise(a: seq<Entry>, b: seq<Entry>)
    requires |a| == |b|
    requires forall n :: 0 <= n < |a| ==> a[n].verb == b[n].verb && a[n].path == b[n].path
    ensures Endpoints(a) == Endpoints(b)
  {
    if a == [] {
    } else {
      EndpointsPointwise(a[1..], b[1..]);
    }
  }

  /** Both walks reach the same endpoints and record equally many findings. */
  ghost predicate SameReach(a: Outcome, b: Outcome) {
    |a.findings| == |b.findings| && Endpoints(a.entries) == Endpoints(b.entries)
  }

  lemma ThenSame(a: Outcome, b: Outcome, a': Outcome, b': Outcome)
    requires SameReach(a, a') && SameReach(b, b')
    ensures SameReach(a.Then(b), a'.Then(b'))
  {
    EndpointsConcat(a.entries, b.entries);
    EndpointsConcat(a'.entries, b'.entries);
  }

  // ----------------------------------------------------- facts about one walk

  lemma {:induction false} VisitAllConcat(g: Graph, relative: string, composed: string, a: seq<Include>,
                                          b: seq<Include>, active: set<Key>)
    requires Closed(g) && ClosedIncludes(g, a) && ClosedIncludes(g, b)
    ensures ClosedIncludes(g, a + b)
    ensures VisitAll(g, relative, composed, a + b, active) ==
            VisitAll(g, relative, composed, a, active).Then(VisitAll(g, relative, composed, b, active))
    decreases |a|
  {
    if a == [] {
      assert a + b == b;
    } else {
      assert (a + b)[0] == a[0] && (a + b)[1..] == a[1..] + b;
      VisitAllConcat(g, relative, composed, a[1..], b, active);
      ThenAssociative(VisitOne(g, relative, composed, a[0], active), VisitAll(g, relative, composed, a[1..], active),
                      VisitAll(g, relative, composed, b, active));
    }
  }

  // ------------------------------------------------------------- what is reached

  ghost predicate Reaches(g: Graph, x: Key, y: Key)
    requires Closed(g) && x in g
  {
    exists path :: Target(g, x, path) == Some(y)
  }

  /** Some include path leads from the object back to it. */
  ghost predicate OnCycle(g: Graph, c: Key)
    requires Closed(g) && c in g
  {
    exists path :: path != [] && Target(g, c, path) == Some(c)
  }

  lemma ReachesItself(g: Graph, x: Key)
    requires Closed(g) && x in g
    ensures Reaches(g, x, x)
  {
    assert Target(g, x, []) == Some(x);
  }

  /** What a child reaches, its owner reaches. */
  lemma ReachesThrough(g: Graph, x: Key, n: nat, y: Key)
    requires Closed(g) && x in g && n < |g[x].includes| && g[x].includes[n].child.Some?
    requires Reaches(g, g[x].includes[n].child.value, y)
    ensures Reaches(g, x, y)
    ensures x == y ==> OnCycle(g, x)
  {
    var path :| Target(g, g[x].includes[n].child.value, path) == Some(y);
    assert ([n] + path)[1..] == path;
    assert Target(g, x, [n] + path) == Some(y);
  }

  lemma {:induction false} ReachesTrans(g: Graph, x: Key, path: seq<nat>, y: Key, z: Key)
    requires Closed(g) && x in g && Target(g, x, path) == Some(y) && y in g && Reaches(g, y, z)
    ensures Reaches(g, x, z)
    decreases |path|
  {
    if path == [] {
    } else {
      ReachesTrans(g, g[x].includes[path[0]].child.value, path[1..], y, z);
      ReachesThrough(g, x, path[0], z);
    }
  }

  /** Nothing the child of include `n` reaches leads to an owner of `c`, unless `c`
      lies on a cycle. */
  lemma BackToChild(g: Graph, c: Key, n: nat, k: Key, i: nat)
    requires Closed(g) && c in g && n < |g[c].includes| && g[c].includes[n].child.Some?
    requires k in g && i < |g[k].includes| && g[k].includes[i].child == Some(c)
    requires Reaches(g, g[c].includes[n].child.value, k)
    ensures OnCycle(g, c)
  {
    var y := g[c].includes[n].child.value;
    var path :| Target(g, y, path) == Some(k);
    ReachesItself(g, c);
    ReachesThrough(g, k, i, c);
    ReachesTrans(g, y, path, k, c);
    ReachesThrough(g, c, n, c);
  }

  /** None of the keys can be reached. */
  ghost predicate Avoids(g: Graph, x: Key, keys: set<Key>)
    requires Closed(g) && x in g
  {
    forall y :: y in keys ==> !Reaches(g, x, y)
  }

  ghost predicate AllAvoid(g: Graph, incs: seq<Include>, keys: set<Key>)
    requires Closed(g) && ClosedIncludes(g, incs)
  {
    forall n :: 0 <= n < |incs| && incs[n].child.Some? ==> Avoids(g, incs[n].child.value, keys)
  }

  lemma ChildrenAvoid(g: Graph, x: Key, keys: set<Key>)
    requires Closed(g) && x in g && Avoids(g, x, keys)
    ensures x !in keys && AllAvoid(g, g[x].includes, keys)
  {
    ReachesItself(g, x);
    forall n, y | 0 <= n < |g[x].includes| && g[x].includes[n].child.Some? && y in keys
      ensures !Reaches(g, g[x].includes[n].child.value, y)
    {
      if Reaches(g, g[x].includes[n].child.value, y) { ReachesThrough(g, x, n, y); }
    }
  }

  /** Active keys that cannot be met make no difference to a walk. */
  lemma {:induction false} FewerActive(g: Graph, k: Key, inherited: string, big: set<Key>, small: set<Key>)
    requires Closed(g) && k in g && small <= big && Avoids(g, k, big - small)
    ensures Visit(g, k, inherited, small) == Visit(g, k, inherited, big)
    decreases g.Keys - big, 0
  {
    ChildrenAvoid(g, k, big - small);
    if k !in big && g[k].prefix.Some? {
      assert k in g.Keys - big && k !in g.Keys - (big + {k});
      assert (big + {k}) - (small + {k}) == big - small;
      FewerActiveAll(g, g[k].relative, RouteJoin(inherited, g[k].prefix.value), g[k].includes, big + {k}, small + {k});
    }
  }

  lemma {:induction false} FewerActiveAll(g: Graph, relative: string, composed: string, incs: seq<Include>,
                                          big: set<Key>, small: set<Key>)
    requires Closed(g) && ClosedIncludes(g, incs) && small <= big && AllAvoid(g, incs, big - small)
    ensures VisitAll(g, relative, composed, incs, small) == VisitAll(g, relative, composed, incs, big)
    decreases g.Keys - big, |incs| + 1
  {
    if incs == [] {
    } else {
      if incs[0].prefix.Some? && incs[0].child.Some? {
        FewerActive(g, incs[0].child.value, RouteJoin(composed, incs[0].prefix.value), big, small);
      }
      FewerActiveAll(g, relative, composed, incs[1..], big, small);
    }
  }

  /** In particular a silent walk, which meets none of them. */
  lemma SilentFewerActive(g: Graph, k: Key, inherited: string, big: set<Key>, small: set<Key>)
    requires Closed(g) && k in g && small <= big && Visit(g, k, inherited, big).findings == []
    ensures Visit(g, k, inherited, small) == Visit(g, k, inherited, big)
  {
    forall y | y in big - small ensures !Reaches(g, k, y) {
      forall path | Target(g, k, path).Some? ensures Target(g, k, path) != Some(y) {
        AvoidsActive(g, k, inherited, big, path);
      }
    }
    FewerActive(g, k, inherited, big, small);
  }

  lemma PrefixedTail(prefix: string, incs: seq<Include>)
    requires incs != []
    ensures PrefixedIncludes(prefix, incs)[0] == PrefixedInclude(prefix, incs[0])
    ensures PrefixedIncludes(prefix, incs)[1..] == PrefixedIncludes(prefix, incs[1..])
  {
  }

  /** Moving part of the composed prefix into the includes. */
  lemma {:induction false} PrefixedVisit(g: Graph, rel: string, rel': string, composed: string, prefix: string,
                                         incs: seq<Include>, active: set<Key>)
    requires Closed(g) && ClosedIncludes(g, incs)
    ensures ClosedIncludes(g, PrefixedIncludes(prefix, incs))
    ensures SameReach(VisitAll(g, rel, RouteJoin(composed, prefix), incs, active),
                      VisitAll(g, rel', composed, PrefixedIncludes(prefix, incs), active))
    decreases |incs|
  {
    if incs == [] {
    } else {
      PrefixedVisit(g, rel, rel', composed, prefix, incs[1..], active);
      var inc, pre := incs[0], PrefixedIncludes(prefix, incs);
      PrefixedTail(prefix, incs);
      var one := VisitOne(g, rel, RouteJoin(composed, prefix), inc, active);
      var one' := VisitOne(g, rel', composed, pre[0], active);
      PrefixedVisitOne(g, rel, rel', composed, prefix, inc, active);
      ThenSame(one, VisitAll(g, rel, RouteJoin(composed, prefix), incs[1..], active),
               one', VisitAll(g, rel', composed, pre[1..], active));
    }
  }

  lemma PrefixedVisitOne(g: Graph, rel: string, rel': string, composed: string, prefix: string, inc: Include,
                         active: set<Key>)
    requires Closed(g) && (inc.child.Some? ==> inc.child.value in g)
    ensures SameReach(VisitOne(g, rel, RouteJoin(composed, prefix), inc, active),
                      VisitOne(g, rel', composed, PrefixedInclude(prefix, inc), active))
  {
    if inc.prefix.Some? {
      RouteJoinAssociative(composed, prefix, inc.prefix.value);
      SamePathSameReach(g, rel, rel', RouteJoin(composed, prefix), composed, inc, PrefixedInclude(prefix, inc), active);
    }
  }

  /** Two includes that differ only in how their common path is split. */
  lemma SamePathSameReach(g: Graph, rel: string, rel': string, composed: string, composed': string, inc: Include,
                          inc': Include, active: set<Key>)
    requires Closed(g) && (inc.child.Some? ==> inc.child.value in g)
    requires inc.prefix.Some? && inc'.prefix.Some? && inc' == inc.(prefix := inc'.prefix)
    requires RouteJoin(composed, inc.prefix.value) == RouteJoin(composed', inc'.prefix.value)
    ensures SameReach(VisitOne(g, rel, composed, inc, active), VisitOne(g, rel', composed', inc', active))
  {
    var one := VisitOne(g, rel, composed, inc, active);
    var one' := VisitOne(g, rel', composed', inc', active);
    EndpointsPointwise(one.entries, one'.entries);
  }

  lemma PrefixedRouteEntries(composed: string, prefix: string, rel: string, rel': string, routes: seq<StaticRoute>)
    ensures Endpoints(RouteEntries(RouteJoin(composed, prefix), rel, routes)) ==
            Endpoints(RouteEntries(composed, rel', PrefixedRoutes(prefix, routes)))
  {
    forall n | 0 <= n < |routes|
      ensures RouteJoin(RouteJoin(composed, prefix), routes[n].path) ==
              RouteJoin(composed, RouteJoin(prefix, routes[n].path))
    {
      RouteJoinAssociative(composed, prefix, routes[n].path);
    }
    EndpointsPointwise(RouteEntries(RouteJoin(composed, prefix), rel, routes),
                       RouteEntries(composed, rel', PrefixedRoutes(prefix, routes)));
  }

  // ------------------------------------------------------------ the main result

  /** Below the included object the walk does not come back to its owner. */
  ghost predicate Ready(g: Graph, k: Key, i: nat, x: Key, active: set<Key>)
    requires CanInline(g, k, i) && x in g
  {
    ChildOf(g, k, i) in active ==> !Reaches(g, x, k)
  }

  ghost predicate AllReady(g: Graph, k: Key, i: nat, incs: seq<Include>, active: set<Key>)
    requires CanInline(g, k, i) && ClosedIncludes(g, incs)
  {
    forall n :: 0 <= n < |incs| && incs[n].child.Some? ==> Ready(g, k, i, incs[n].child.value, active)
  }

  lemma ChildrenReady(g: Graph, k: Key, i: nat, x: Key, active: set<Key>)
    requires CanInline(g, k, i) && x in g && Ready(g, k, i, x, active) && !OnCycle(g, ChildOf(g, k, i))
    ensures AllReady(g, k, i, g[x].includes, active + {x})
  {
    var c := ChildOf(g, k, i);
    forall n | 0 <= n < |g[x].includes| && g[x].includes[n].child.Some? && c in active + {x}
      ensures !Reaches(g, g[x].includes[n].child.value, k)
    {
      if Reaches(g, g[x].includes[n].child.value, k) {
        ReachesThrough(g, x, n, k);
        assert x == c;
        BackToChild(g, c, n, k, i);
      }
    }
  }

  /** The owner is never met below its child, nor is it its own child. */
  lemma OwnerReady(g: Graph, k: Key, i: nat, active: set<Key>)
    requires CanInline(g, k, i) && Ready(g, k, i, k, active) && !OnCycle(g, ChildOf(g, k, i))
    ensures ChildOf(g, k, i) !in active + {k}
  {
    ReachesItself(g, k);
    if ChildOf(g, k, i) == k { ReachesThrough(g, k, i, k); }
  }

  /** Objects that do not reach the rewritten one are walked as before. */
  lemma {:induction false} Untouched(g: Graph, k: Key, i: nat, x: Key, inherited: string, active: set<Key>)
    requires CanInline(g, k, i) && x in g && Avoids(g, x, {k})
    ensures Visit(Inline(g, k, i), x, inherited, active) == Visit(g, x, inherited, active)
    decreases g.Keys - active, 0
  {
    ChildrenAvoid(g, x, {k});
    if x !in active && g[x].prefix.Some? {
      assert x in g.Keys - active && x !in g.Keys - (active + {x});
      UntouchedAll(g, k, i, g[x].relative, RouteJoin(inherited, g[x].prefix.value), g[x].includes, active + {x});
    }
  }

  lemma {:induction false} UntouchedAll(g: Graph, k: Key, i: nat, relative: string, composed: string,
                                        incs: seq<Include>, active: set<Key>)
    requires CanInline(g, k, i) && ClosedIncludes(g, incs) && AllAvoid(g, incs, {k})
    ensures ClosedIncludes(Inline(g, k, i), incs)
    ensures VisitAll(Inline(g, k, i), relative, composed, incs, active) ==
            VisitAll(g, relative, composed, incs, active)
    decreases g.Keys - active, |incs| + 1
  {
    if incs == [] {
    } else {
      if incs[0].prefix.Some? && incs[0].child.Some? {
        Untouched(g, k, i, incs[0].child.value, RouteJoin(composed, incs[0].prefix.value), active);
      }
      UntouchedAll(g, k, i, relative, composed, incs[1..], active);
    }
  }

  lemma {:induction false} InlineVisit(g: Graph, k: Key, i: nat, x: Key, inherited: string, active: set<Key>)
    requires CanInline(g, k, i) && x in g && Ready(g, k, i, x, active) && !OnCycle(g, ChildOf(g, k, i))
    ensures SameReach(Visit(g, x, inherited, active), Visit(Inline(g, k, i), x, inherited, active))
    decreases g.Keys - active, 0
  {
    var h := Inline(g, k, i);
    var o := g[x];
    if x !in active && o.prefix.Some? {
      var composed := RouteJoin(inherited, o.prefix.value);
      assert x in g.Keys - active && x !in g.Keys - (active + {x});
      ChildrenReady(g, k, i, x, active);
      if x != k {
        InlineVisitAll(g, k, i, o.relative, composed, o.includes, active + {x});
        var own := Outcome(RouteEntries(composed, o.relative, o.routes), []);
        ThenSame(own, VisitAll(g, o.relative, composed, o.includes, active + {x}),
                 own, VisitAll(h, o.relative, composed, o.includes, active + {x}));
      } else {
        OwnerReady(g, k, i, active);
        InlineAtOwner(g, k, i, composed, active + {k});
        assert Visit(g, k, inherited, active) == OwnerVisit(g, o, composed, active + {k});
        assert Visit(h, k, inherited, active) == OwnerVisit(h, h[k], composed, active + {k});
      }
    }
  }

  ghost function OwnerVisit(g: Graph, o: RouteObject, composed: string, active: set<Key>): Outcome
    requires Closed(g) && ClosedIncludes(g, o.includes)
  {
    Outcome(RouteEntries(composed, o.relative, o.routes), [])
      .Then(VisitAll(g, o.relative, composed, o.includes, active))
  }

  lemma {:induction false} InlineVisitAll(g: Graph, k: Key, i: nat, relative: string, composed: string,
                                          incs: seq<Include>, active: set<Key>)
    requires CanInline(g, k, i) && ClosedIncludes(g, incs) && AllReady(g, k, i, incs, active)
    requires !OnCycle(g, ChildOf(g, k, i))
    ensures ClosedIncludes(Inline(g, k, i), incs)
    ensures SameReach(VisitAll(g, relative, composed, incs, active),
                      VisitAll(Inline(g, k, i), relative, composed, incs, active))
    decreases g.Keys - active, |incs| + 1
  {
    var h := Inline(g, k, i);
    if incs == [] {
    } else {
      InlineVisitOne(g, k, i, relative, composed, incs[0], active);
      InlineVisitAll(g, k, i, relative, composed, incs[1..], active);
      ThenSame(VisitOne(g, relative, composed, incs[0], active), VisitAll(g, relative, composed, incs[1..], active),
               VisitOne(h, relative, composed, incs[0], active), VisitAll(h, relative, composed, incs[1..], active));
    }
  }

  lemma {:induction false} InlineVisitOne(g: Graph, k: Key, i: nat, relative: string, composed: string,
                                          inc: Include, active: set<Key>)
    requires CanInline(g, k, i) && !OnCycle(g, ChildOf(g, k, i))
    requires inc.child.Some? ==> inc.child.value in g && Ready(g, k, i, inc.child.value, active)
    ensures SameReach(VisitOne(g, relative, composed, inc, active),
                      VisitOne(Inline(g, k, i), relative, composed, inc, active))
    decreases g.Keys - active, 1
  {
    var h := Inline(g, k, i);
    if inc.prefix.Some? && inc.child.Some? {
      var path := RouteJoin(composed, inc.prefix.value);
      InlineVisit(g, k, i, inc.child.value, path, active);
      if inc.isMount {
        var mounted := Outcome([Entry("MOUNT", path, relative, inc.line)], []);
        ThenSame(mounted, Visit(g, inc.child.value, path, active), mounted, Visit(h, inc.child.value, path, active));
      }
    }
  }

  /** The rewritten object itself: its child's routes and includes now hang one
      level higher, with the two prefixes moved into their paths. */
  lemma {:induction false} InlineAtOwner(g: Graph, k: Key, i: nat, composed: string, active: set<Key>)
    requires CanInline(g, k, i) && AllReady(g, k, i, g[k].includes, active)
    requires ChildOf(g, k, i) !in active && !OnCycle(g, ChildOf(g, k, i))
    ensures var h := Inline(g, k, i);
            SameReach(OwnerVisit(g, g[k], composed, active), OwnerVisit(h, h[k], composed, active))
    decreases g.Keys - active, |g[k].includes| + 2
  {
    var h := Inline(g, k, i);
    var o := g[k];
    var before, after := o.includes[..i], o.includes[i + 1..];
    assert ClosedIncludes(h, before) && ClosedIncludes(h, after);
    assert SameReach(VisitAll(g, o.relative, composed, before, active),
                     VisitAll(h, o.relative, composed, before, active)) by {
      InlineVisitAll(g, k, i, o.relative, composed, before, active);
    }
    assert SameReach(VisitAll(g, o.relative, composed, after, active),
                     VisitAll(h, o.relative, composed, after, active)) by {
      InlineVisitAll(g, k, i, o.relative, composed, after, active);
    }
    InlineChild(g, k, i, composed, active);
    CombineOwner(g, k, i, composed, active);
  }

  /** The walks of the owner agree when its kept includes do and the lifted parts
      stand for the child. */
  lemma CombineOwner(g: Graph, k: Key, i: nat, composed: string, active: set<Key>)
    requires CanInline(g, k, i) && LiftedStandsForChild(g, k, i, composed, active)
    requires var h := Inline(g, k, i);
             && SameReach(VisitAll(g, g[k].relative, composed, g[k].includes[..i], active),
                          VisitAll(h, g[k].relative, composed, g[k].includes[..i], active))
             && SameReach(VisitAll(g, g[k].relative, composed, g[k].includes[i + 1..], active),
                          VisitAll(h, g[k].relative, composed, g[k].includes[i + 1..], active))
    ensures var h := Inline(g, k, i);
            SameReach(OwnerVisit(g, g[k], composed, active), OwnerVisit(h, h[k], composed, active))
  {
    var h, o := Inline(g, k, i), g[k];
    OwnerBefore(g, g[k], i, composed, active);
    OwnerAfter(g, k, i, composed, active);
    SameTotals(OwnerVisit(g, g[k], composed, active), OwnerVisit(h, h[k], composed, active),
               Endpoints(RouteEntries(composed, o.relative, o.routes)),
               Endpoints(RouteEntries(composed, o.relative, LiftedRoutes(g, k, i))),
               VisitAll(g, o.relative, composed, o.includes[..i], active),
               VisitOne(g, o.relative, composed, o.includes[i], active),
               VisitAll(g, o.relative, composed, o.includes[i + 1..], active),
               VisitAll(h, o.relative, composed, o.includes[..i], active),
               VisitAll(h, o.relative, composed, LiftedIncludes(g, k, i), active),
               VisitAll(h, o.relative, composed, o.includes[i + 1..], active));
  }

  /** The child's walk and the lifted routes and includes reach the same. */
  ghost predicate LiftedStandsForChild(g: Graph, k: Key, i: nat, composed: string, active: set<Key>)
    requires CanInline(g, k, i)
  {
    var child := VisitOne(g, g[k].relative, composed, g[k].includes[i], active);
    var lifted := VisitAll(Inline(g, k, i), g[k].relative, composed, LiftedIncludes(g, k, i), active);
    && |child.findings| == |lifted.findings|
    && Endpoints(child.entries) ==
       Endpoints(RouteEntries(composed, g[k].relative, LiftedRoutes(g, k, i))) + Endpoints(lifted.entries)
  }

  lemma SameTotals(v: Outcome, v': Outcome, own: multiset<Endpoint>, up: multiset<Endpoint>, vb: Outcome,
                   vo: Outcome, va: Outcome, hb: Outcome, hm: Outcome, ha: Outcome)
    requires SameReach(vb, hb) && SameReach(va, ha) && |vo.findings| == |hm.findings|
    requires Endpoints(vo.entries) == up + Endpoints(hm.entries)
    requires v.findings == vb.findings + (vo.findings + va.findings)
    requires v'.findings == hb.findings + hm.findings + ha.findings
    requires Endpoints(v.entries) == own + Endpoints(vb.entries) + Endpoints(vo.entries) + Endpoints(va.entries)
    requires Endpoints(v'.entries) ==
             own + up + Endpoints(hb.entries) + Endpoints(hm.entries) + Endpoints(ha.entries)
    ensures SameReach(v, v')
  {
    Reorder(own, up, Endpoints(hb.entries), Endpoints(hm.entries), Endpoints(ha.entries));
  }

  lemma Reorder(o: multiset<Endpoint>, u: multiset<Endpoint>, a: multiset<Endpoint>, b: multiset<Endpoint>,
                c: multiset<Endpoint>)
    ensures o + a + (u + b) + c == o + u + a + b + c
  {
  }

  /** The walk of the original owner, piece by piece. */
  lemma OwnerBefore(g: Graph, o: RouteObject, i: nat, composed: string, active: set<Key>)
    requires Closed(g) && ClosedIncludes(g, o.includes) && i < |o.includes|
    ensures var vb := VisitAll(g, o.relative, composed, o.includes[..i], active);
            var vo := VisitOne(g, o.relative, composed, o.includes[i], active);
            var va := VisitAll(g, o.relative, composed, o.includes[i + 1..], active);
            && OwnerVisit(g, o, composed, active).findings == vb.findings + (vo.findings + va.findings)
            && Endpoints(OwnerVisit(g, o, composed, active).entries) ==
               Endpoints(RouteEntries(composed, o.relative, o.routes)) +
               Endpoints(vb.entries) + Endpoints(vo.entries) + Endpoints(va.entries)
  {
    SplitIncludes(g, o.relative, composed, o.includes, i, active);
    var vb := VisitAll(g, o.relative, composed, o.includes[..i], active);
    var vo := VisitOne(g, o.relative, composed, o.includes[i], active);
    var va := VisitAll(g, o.relative, composed, o.includes[i + 1..], active);
    EndpointsOfThree(RouteEntries(composed, o.relative, o.routes), vb, vo, va);
  }

  lemma EndpointsOfThree(own: seq<Entry>, a: Outcome, b: Outcome, c: Outcome)
    ensures var all := Outcome(own, []).Then(a.Then(b.Then(c)));
            && all.findings == a.findings + (b.findings + c.findings)
            && Endpoints(all.entries) ==
               Endpoints(own) + Endpoints(a.entries) + Endpoints(b.entries) + Endpoints(c.entries)
  {
    EndpointsConcat(own, a.entries + (b.entries + c.entries));
    EndpointsConcat(a.entries, b.entries + c.entries);
    EndpointsConcat(b.entries, c.entries);
  }

  /** The walk of the rewritten owner, piece by piece. */
  lemma OwnerAfter(g: Graph, k: Key, i: nat, composed: string, active: set<Key>)
    requires CanInline(g, k, i)
    ensures var h, o := Inline(g, k, i), g[k];
            var hb := VisitAll(h, o.relative, composed, o.includes[..i], active);
            var hm := VisitAll(h, o.relative, composed, LiftedIncludes(g, k, i), active);
            var ha := VisitAll(h, o.relative, composed, o.includes[i + 1..], active);
            && OwnerVisit(h, h[k], composed, active).findings == hb.findings + hm.findings + ha.findings
            && Endpoints(OwnerVisit(h, h[k], composed, active).entries) ==
               Endpoints(RouteEntries(composed, o.relative, o.routes)) +
               Endpoints(RouteEntries(composed, o.relative, LiftedRoutes(g, k, i))) +
               Endpoints(hb.entries) + Endpoints(hm.entries) + Endpoints(ha.entries)
  {
    var h, o := Inline(g, k, i), g[k];
    RebuiltVisit(h, h[k], composed, o.routes, LiftedRoutes(g, k, i), o.includes[..i], LiftedIncludes(g, k, i),
                 o.includes[i + 1..], active);
  }

  lemma RebuiltVisit(g: Graph, o: RouteObject, composed: string, routes: seq<StaticRoute>, more: seq<StaticRoute>,
                     a: seq<Include>, b: seq<Include>, c: seq<Include>, active: set<Key>)
    requires Closed(g) && ClosedIncludes(g, a) && ClosedIncludes(g, b) && ClosedIncludes(g, c)
    requires o.routes == routes + more && o.includes == a + b + c
    ensures ClosedIncludes(g, o.includes)
    ensures var va := VisitAll(g, o.relative, composed, a, active);
            var vb := VisitAll(g, o.relative, composed, b, active);
            var vc := VisitAll(g, o.relative, composed, c, active);
            && OwnerVisit(g, o, composed, active).findings == va.findings + vb.findings + vc.findings
            && Endpoints(OwnerVisit(g, o, composed, active).entries) ==
               Endpoints(RouteEntries(composed, o.relative, routes)) +
               Endpoints(RouteEntries(composed, o.relative, more)) +
               Endpoints(va.entries) + Endpoints(vb.entries) + Endpoints(vc.entries)
  {
    ThreeParts(g, o.relative, composed, a, b, c, active);
    RouteEntriesConcat(composed, o.relative, routes, more);
    OutcomeOfParts(RouteEntries(composed, o.relative, routes), RouteEntries(composed, o.relative, more),
                   VisitAll(g, o.relative, composed, a, active), VisitAll(g, o.relative, composed, b, active),
                   VisitAll(g, o.relative, composed, c, active));
  }

  lemma RouteEntriesConcat(composed: string, relative: string, a: seq<StaticRoute>, b: seq<StaticRoute>)
    ensures RouteEntries(composed, relative, a + b) ==
            RouteEntries(composed, relative, a) + RouteEntries(composed, relative, b)
  {
  }

  lemma OutcomeOfParts(own: seq<Entry>, up: seq<Entry>, a: Outcome, b: Outcome, c: Outcome)
    ensures var all := Outcome(own + up, []).Then(a.Then(b).Then(c));
            && all.findings == a.findings + b.findings + c.findings
            && Endpoints(all.entries) ==
               Endpoints(own) + Endpoints(up) + Endpoints(a.entries) + Endpoints(b.entries) + Endpoints(c.entries)
  {
    EndpointsOfParts(own, up, a.entries, b.entries, c.entries);
  }

  lemma ThreeParts(g: Graph, relative: string, composed: string, a: seq<Include>, b: seq<Include>, c: seq<Include>,
                   active: set<Key>)
    requires Closed(g) && ClosedIncludes(g, a) && ClosedIncludes(g, b) && ClosedIncludes(g, c)
    ensures ClosedIncludes(g, a + b + c)
    ensures VisitAll(g, relative, composed, a + b + c, active) ==
            VisitAll(g, relative, composed, a, active).Then(VisitAll(g, relative, composed, b, active))
              .Then(VisitAll(g, relative, composed, c, active))
  {
    VisitAllConcat(g, relative, composed, a, b, active);
    VisitAllConcat(g, relative, composed, a + b, c, active);
  }

  lemma EndpointsOfParts(own: seq<Entry>, up: seq<Entry>, a: seq<Entry>, b: seq<Entry>, c: seq<Entry>)
    ensures Endpoints((own + up) + ((a + b) + c)) ==
            Endpoints(own) + Endpoints(up) + Endpoints(a) + Endpoints(b) + Endpoints(c)
  {
    EndpointsConcat(own + up, (a + b) + c);
    EndpointsConcat(own, up);
    EndpointsOfTwo(a, b, c);
    Regroup(Endpoints(own), Endpoints(up), Endpoints(a), Endpoints(b), Endpoints(c));
  }

  lemma EndpointsOfTwo(a: seq<Entry>, b: seq<Entry>, c: seq<Entry>)
    ensures Endpoints((a + b) + c) == (Endpoints(a) + Endpoints(b)) + Endpoints(c)
  {
    EndpointsConcat(a + b, c);
    EndpointsConcat(a, b);
  }

  lemma Regroup(o: multiset<Endpoint>, u: multiset<Endpoint>, a: multiset<Endpoint>, b: multiset<Endpoint>,
                c: multiset<Endpoint>)
    ensures (o + u) + ((a + b) + c) == o + u + a + b + c
  {
  }

  lemma SplitIncludes(g: Graph, rel: string, composed: string, incs: seq<Include>, i: nat, active: set<Key>)
    requires Closed(g) && ClosedIncludes(g, incs) && i < |incs|
    ensures VisitAll(g, rel, composed, incs, active) ==
            VisitAll(g, rel, composed, incs[..i], active)
              .Then(VisitOne(g, rel, composed, incs[i], active).Then(VisitAll(g, rel, composed, incs[i + 1..], active)))
  {
    assert incs == incs[..i] + incs[i..];
    assert incs[i..][1..] == incs[i + 1..];
    VisitAllConcat(g, rel, composed, incs[..i], incs[i..], active);
  }

  /** The included child, before and after being lifted into its owner. */
  lemma InlineChild(g: Graph, k: Key, i: nat, composed: string, active: set<Key>)
    requires CanInline(g, k, i) && ChildOf(g, k, i) !in active && !OnCycle(g, ChildOf(g, k, i))
    ensures LiftedStandsForChild(g, k, i, composed, active)
  {
    var h := Inline(g, k, i);
    var inc := g[k].includes[i];
    var ck := inc.child.value;
    var c := g[ck];
    var rel := g[k].relative;
    var prefix := LiftPrefix(g, k, i);
    var deep := RouteJoin(composed, prefix);
    RouteJoinAssociative(composed, inc.prefix.value, c.prefix.value);
    var below := VisitAll(g, c.relative, deep, c.includes, active + {ck});
    assert VisitOne(g, rel, composed, inc, active) ==
           Outcome(RouteEntries(deep, c.relative, c.routes), []).Then(below);
    assert below == VisitAll(h, c.relative, deep, c.includes, active) by {
      BelowChild(g, k, i);
      assert (active + {ck}) - active == {ck};
      FewerActiveAll(g, c.relative, deep, c.includes, active + {ck}, active);
      UntouchedAll(g, k, i, c.relative, deep, c.includes, active);
    }
    PrefixedVisit(h, c.relative, rel, composed, prefix, c.includes, active);
    PrefixedRouteEntries(composed, prefix, c.relative, rel, c.routes);
    EndpointsConcat(RouteEntries(deep, c.relative, c.routes), below.entries);
  }

  /** Below a child that lies on no cycle neither it nor its owner is met. */
  lemma BelowChild(g: Graph, k: Key, i: nat)
    requires CanInline(g, k, i) && !OnCycle(g, ChildOf(g, k, i))
    ensures AllAvoid(g, g[ChildOf(g, k, i)].includes, {ChildOf(g, k, i)})
    ensures AllAvoid(g, g[ChildOf(g, k, i)].includes, {k})
  {
    var c := ChildOf(g, k, i);
    forall n | 0 <= n < |g[c].includes| && g[c].includes[n].child.Some?
      ensures !Reaches(g, g[c].includes[n].child.value, c) && !Reaches(g, g[c].includes[n].child.value, k)
    {
      if Reaches(g, g[c].includes[n].child.value, c) { ReachesThrough(g, c, n, c); }
      if Reaches(g, g[c].includes[n].child.value, k) { BackToChild(g, c, n, k, i); }
    }
  }

  /** Inlining an include anywhere in the graph leaves the multiset of effective
      (method, path) pairs of any root unchanged, and the number of findings too,
      provided that the included object lies on no include cycle. Other cycles,
      dynamic prefixes and unresolved includes elsewhere do not matter. */
  lemma InliningPreservesEndpoints(g: Graph, root: Key, k: Key, i: nat)
    requires CanInline(g, k, i) && root in g && !OnCycle(g, ChildOf(g, k, i))
    ensures |Visit(Inline(g, k, i), root, "", {}).findings| == |Visit(g, root, "", {}).findings|
    ensures Endpoints(Visit(Inline(g, k, i), root, "", {}).entries) == Endpoints(Visit(g, root, "", {}).entries)
  {
    InlineVisit(g, k, i, root, "", {});
  }

  /** A walk without findings of an application that includes the object has seen
      that it lies on no cycle. */
  lemma SilentMeansNoCycle(g: Graph, root: Key, path: seq<nat>)
    requires Closed(g) && root in g && Target(g, root, path).Some? && Visit(g, root, "", {}).findings == []
    ensures !OnCycle(g, Target(g, root, path).value)
  {
    var c := Target(g, root, path).value;
    forall loop | loop != [] ensures Target(g, c, loop) != Some(c) {
      var far := path + loop;
      TargetConcat(g, root, path, loop);
      if Target(g, root, far).Some? {
        NoFindingsAcyclic(g, root, "", {}, far);
        assert far[..|path|] == path && far[..|far|] == far;
        assert Apart(g, root, far, |path|, |far|);
      }
    }
  }

  lemma {:induction false} TargetConcat(g: Graph, x: Key, p: seq<nat>, q: seq<nat>)
    requires Closed(g) && x in g && Target(g, x, p).Some?
    ensures Target(g, x, p + q) == Target(g, Target(g, x, p).value, q)
    decreases |p|
  {
    if p == [] {
      assert p + q == q;
    } else {
      assert (p + q)[1..] == p[1..] + q;
      TargetConcat(g, g[x].includes[p[0]].child.value, p[1..], q);
    }
  }

  // ------------------------------------------------- an include on a cycle

  const PLAIN := RouteObject(Some(""), 1, "", [], [])

  function IncludeOf(child: Key): Include {
    Include(Some(""), Some(child), 1, false, false)
  }

  /** Two routers that include each other; `root` has one route. */
  ghost function Mutual(root: Key, other: Key, route: StaticRoute): (g: Graph)
    requires root != other
    ensures CanInline(g, other, 0)
  {
    map[root := PLAIN.(routes := [route], includes := [IncludeOf(other)]),
        other := PLAIN.(includes := [IncludeOf(root)])]
  }

  /** A router without a prefix of its own whose only include is another. */
  lemma VisitThrough(g: Graph, k: Key, child: Key, inherited: string, active: set<Key>)
    returns (down: string)
    requires Closed(g) && k in g && k !in active && g[k].prefix == Some("")
    requires g[k].includes in [[IncludeOf(child)], PrefixedIncludes(RouteJoin("", ""), [IncludeOf(child)])]
    ensures child in g
    ensures EntryCount(g, k, inherited, active) == |g[k].routes| + EntryCount(g, child, down, active + {k})
  {
    var o := g[k];
    assert o.includes[0].child == Some(child) && !o.includes[0].isMount && |o.includes| == 1;
    var composed := RouteJoin(inherited, "");
    down := RouteJoin(composed, o.includes[0].prefix.value);
    assert VisitAll(g, o.relative, composed, o.includes[1..], active + {k}) == NOTHING;
    assert VisitAll(g, o.relative, composed, o.includes, active + {k}) ==
           VisitOne(g, o.relative, composed, o.includes[0], active + {k}).Then(NOTHING);
    assert Visit(g, k, inherited, active).entries ==
           RouteEntries(composed, o.relative, o.routes) + Visit(g, child, down, active + {k}).entries;
  }

  ghost function EntryCount(g: Graph, k: Key, inherited: string, active: set<Key>): nat
    requires Closed(g) && k in g
  {
    |Visit(g, k, inherited, active).entries|
  }

  lemma {:induction false} EndpointsCount(entries: seq<Entry>)
    ensures |Endpoints(entries)| == |entries|
  {
    if entries == [] {
    } else {
      EndpointsCount(entries[1..]);
    }
  }

  /** Inlining the include that closes the cycle makes the walk list the route a
      second time. */
  lemma CyclicInlineRepeats(root: Key, other: Key, route: StaticRoute)
    requires root != other
    ensures var g := Mutual(root, other, route);
            && ChildOf(g, other, 0) == root && OnCycle(g, root)
            && |Endpoints(Visit(g, root, "", {}).entries)| == 1
            && |Endpoints(Visit(Inline(g, other, 0), root, "", {}).entries)| == 2
  {
    var g := Mutual(root, other, route);
    var h := Inline(g, other, 0);
    assert OnCycle(g, root) by {
      ReachesItself(g, root);
      ReachesThrough(g, other, 0, root);
      ReachesThrough(g, root, 0, root);
    }
    EndpointsCount(Visit(g, root, "", {}).entries);
    EndpointsCount(Visit(h, root, "", {}).entries);
    assert EntryCount(g, root, "", {}) == 1 by {
      var down := VisitThrough(g, root, other, "", {});
      var back := VisitThrough(g, other, root, down, {} + {root});
    }
    assert EntryCount(h, root, "", {}) == 2 by {
      var down := VisitThrough(h, root, other, "", {});
      assert h[other].includes == PrefixedIncludes(RouteJoin("", ""), [IncludeOf(other)]);
      assert |h[other].routes| == 1;
      var back := VisitThrough(h, other, other, down, {} + {root});
    }
  }
}

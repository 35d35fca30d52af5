/** What the effective-route walk reports, stated without the walk: the routes
    and mounts that lie at the end of some include path from the root. */
module RouteExactness {
  import opened Options
  import opened RoutePath
  import opened RouteGraph
  import opened Sequences

  // ------------------------------------------------------------ include paths

  /** The object reached by following include positions from `k`. */
  ghost function Target(g: Graph, k: Key, path: seq<nat>): (t: Option<Key>)
    requires Closed(g) && k in g
    ensures t.Some? ==> t.value in g
    decreases |path|
  {
    if path == [] then
      Some(k)
    else if path[0] < |g[k].includes| && g[k].includes[path[0]].child.Some? then
      Target(g, g[k].includes[path[0]].child.value, path[1..])
    else
      None
  }

  ghost function OrEmpty(s: Option<string>): string {
    if s.Some? then s.value else ""
  }

  /** The prefixes met along an include path, outermost first. */
  ghost function Segments(g: Graph, k: Key, path: seq<nat>): seq<string>
    requires Closed(g) && k in g && Target(g, k, path).Some?
    decreases |path|
  {
    if path == [] then
      [OrEmpty(g[k].prefix)]
    else
      var inc := g[k].includes[path[0]];
      [OrEmpty(g[k].prefix), OrEmpty(inc.prefix)] + Segments(g, inc.child.value, path[1..])
  }

  ghost function JoinAll(parts: seq<string>): string {
    if parts == [] then "" else RouteJoin(parts[0], JoinAll(parts[1..]))
  }

  /** A place that yields an entry: the `n`-th route, or the `n`-th include when
      it is a mount, of the object at the end of `path`. */
  datatype Loc = RouteAt(path: seq<nat>, n: nat) | MountAt(path: seq<nat>, n: nat)

  ghost predicate InGraph(g: Graph, k: Key, loc: Loc)
    requires Closed(g) && k in g
  {
    && Target(g, k, loc.path).Some?
    && var o := g[Target(g, k, loc.path).value];
       if loc.RouteAt? then loc.n < |o.routes|
       else loc.n < |o.includes| && o.includes[loc.n].isMount
  }

  ghost function LastPart(g: Graph, k: Key, loc: Loc): string
    requires Closed(g) && k in g && InGraph(g, k, loc)
  {
    var o := g[Target(g, k, loc.path).value];
    if loc.RouteAt? then o.routes[loc.n].path else OrEmpty(o.includes[loc.n].prefix)
  }

  ghost function EntryAt(g: Graph, k: Key, inherited: string, loc: Loc): Entry
    requires Closed(g) && k in g && InGraph(g, k, loc)
  {
    var o := g[Target(g, k, loc.path).value];
    var path := RouteJoin(inherited, JoinAll(Segments(g, k, loc.path) + [LastPart(g, k, loc)]));
    if loc.RouteAt? then
      Entry(o.routes[loc.n].verb, path, o.relative, o.routes[loc.n].line)
    else
      Entry("MOUNT", path, o.relative, o.includes[loc.n].line)
  }

  // --------------------------------------------- where each entry comes from

  ghost function Below(i: nat, locs: seq<Loc>): (r: seq<Loc>)
    ensures |r| == |locs|
    ensures forall n :: 0 <= n < |r| ==> r[n] == locs[n].(path := [i] + locs[n].path)
  {
    seq(|locs|, n requires 0 <= n < |locs| => locs[n].(path := [i] + locs[n].path))
  }

  ghost function OwnRoutes(count: nat): (r: seq<Loc>)
    ensures |r| == count
    ensures forall n :: 0 <= n < count ==> r[n] == RouteAt([], n)
  {
    seq(count, n requires 0 <= n < count => RouteAt([], n))
  }

  ghost function Locs(g: Graph, k: Key, active: set<Key>): seq<Loc>
    requires Closed(g) && k in g
    decreases g.Keys - active, 0
  {
    if k in active || g[k].prefix.None? then
      []
    else
      assert k in g.Keys - active && k !in g.Keys - (active + {k});
      OwnRoutes(|g[k].routes|) + LocsAll(g, 0, g[k].includes, active + {k})
  }

  ghost function LocsAll(g: Graph, base: nat, incs: seq<Include>, active: set<Key>): seq<Loc>
    requires Closed(g) && ClosedIncludes(g, incs)
    decreases g.Keys - active, |incs| + 1
  {
    if incs == [] then []
    else LocsOne(g, base, incs[0], active) + LocsAll(g, base + 1, incs[1..], active)
  }

  ghost function LocsOne(g: Graph, base: nat, inc: Include, active: set<Key>): seq<Loc>
    requires Closed(g) && (inc.child.Some? ==> inc.child.value in g)
    decreases g.Keys - active, 1
  {
    if inc.prefix.None? then
      []
    else
      (if inc.isMount then [MountAt([], base)] else []) +
      (if inc.child.Some? then Below(base, Locs(g, inc.child.value, active)) else [])
  }

  /** `entries` are, one by one, the entries of the places `locs` under `k`. */
  ghost predicate Matches(g: Graph, k: Key, inherited: string, entries: seq<Entry>, locs: seq<Loc>)
    requires Closed(g) && k in g
  {
    && |entries| == |locs|
    && forall n :: 0 <= n < |locs| ==> InGraph(g, k, locs[n]) && entries[n] == EntryAt(g, k, inherited, locs[n])
  }

  /** Going through include `i` first composes one more router and one more
      include prefix, on the left of everything below. */
  lemma EntryBelow(g: Graph, k: Key, inherited: string, i: nat, loc: Loc)
    requires Closed(g) && k in g && g[k].prefix.Some?
    requires i < |g[k].includes| && g[k].includes[i].child.Some? && g[k].includes[i].prefix.Some?
    requires InGraph(g, g[k].includes[i].child.value, loc)
    ensures var inc := g[k].includes[i];
            var composed := RouteJoin(inherited, g[k].prefix.value);
            var deep := loc.(path := [i] + loc.path);
            && InGraph(g, k, deep)
            && EntryAt(g, k, inherited, deep) ==
               EntryAt(g, inc.child.value, RouteJoin(composed, inc.prefix.value), loc)
  {
    var inc := g[k].includes[i];
    var c := inc.child.value;
    var deep := loc.(path := [i] + loc.path);
    assert deep.path[1..] == loc.path;
    assert Target(g, k, deep.path) == Target(g, c, loc.path);
    var last := LastPart(g, c, loc);
    var tail := Segments(g, c, loc.path) + [last];
    var pk, pi := g[k].prefix.value, inc.prefix.value;
    assert Segments(g, k, deep.path) + [last] == [pk] + ([pi] + tail);
    calc {
      RouteJoin(inherited, JoinAll([pk] + ([pi] + tail)));
      { JoinAllCons(pk, [pi] + tail); JoinAllCons(pi, tail); }
      RouteJoin(inherited, RouteJoin(pk, RouteJoin(pi, JoinAll(tail))));
      { RouteJoinAssociative(inherited, pk, RouteJoin(pi, JoinAll(tail))); }
      RouteJoin(RouteJoin(inherited, pk), RouteJoin(pi, JoinAll(tail)));
      { RouteJoinAssociative(RouteJoin(inherited, pk), pi, JoinAll(tail)); }
      RouteJoin(RouteJoin(RouteJoin(inherited, pk), pi), JoinAll(tail));
    }
  }

  lemma JoinAllCons(first: string, rest: seq<string>)
    ensures JoinAll([first] + rest) == RouteJoin(first, JoinAll(rest))
  {
    assert ([first] + rest)[1..] == rest;
  }

  /** Entries of an object's own routes and mounts. */
  lemma EntryHere(g: Graph, k: Key, inherited: string, loc: Loc)
    requires Closed(g) && k in g && g[k].prefix.Some? && loc.path == [] && InGraph(g, k, loc)
    ensures var composed := RouteJoin(inherited, g[k].prefix.value);
            EntryAt(g, k, inherited, loc).path == RouteJoin(composed, LastPart(g, k, loc))
  {
    var pk, last := g[k].prefix.value, LastPart(g, k, loc);
    assert Segments(g, k, []) + [last] == [pk] + ([last] + []);
    calc {
      RouteJoin(inherited, JoinAll([pk] + ([last] + [])));
      { JoinAllCons(pk, [last] + []); JoinAllCons(last, []); }
      RouteJoin(inherited, RouteJoin(pk, RouteJoin(last, "")));
      { RouteJoinAssociative(inherited, pk, RouteJoin(last, "")); }
      RouteJoin(RouteJoin(inherited, pk), RouteJoin(last, ""));
      { RouteJoinAssociative(RouteJoin(inherited, pk), last, ""); }
      RouteJoin(RouteJoin(RouteJoin(inherited, pk), last), "");
      { JoinEmptyRight(RouteJoin(RouteJoin(inherited, pk), last)); }
      RouteJoin(RouteJoin(inherited, pk), last);
    }
  }

  lemma JoinEmptyRight(s: string)
    requires s == "" || s[0] == '/'
    ensures RouteJoin(s, "") == s && RouteJoin("", s) == s
  {
  }

  lemma {:induction false} VisitMatches(g: Graph, k: Key, inherited: string, active: set<Key>)
    requires Closed(g) && k in g
    ensures Matches(g, k, inherited, Visit(g, k, inherited, active).entries, Locs(g, k, active))
    decreases g.Keys - active, 0
  {
    var o := g[k];
    if k !in active && o.prefix.Some? {
      var composed := RouteJoin(inherited, o.prefix.value);
      assert k in g.Keys - active && k !in g.Keys - (active + {k});
      forall n | 0 <= n < |o.routes|
        ensures InGraph(g, k, RouteAt([], n))
        ensures RouteEntry(composed, o.relative, o.routes[n]) == EntryAt(g, k, inherited, RouteAt([], n))
      {
        EntryHere(g, k, inherited, RouteAt([], n));
      }
      assert o.includes[0..] == o.includes;
      VisitAllMatches(g, k, inherited, 0, active + {k});
    }
  }

  lemma {:induction false} VisitAllMatches(g: Graph, k: Key, inherited: string, base: nat, active: set<Key>)
    requires Closed(g) && k in g && g[k].prefix.Some? && base <= |g[k].includes|
    ensures var composed := RouteJoin(inherited, g[k].prefix.value);
            var incs := g[k].includes[base..];
            Matches(g, k, inherited, VisitAll(g, g[k].relative, composed, incs, active).entries,
                    LocsAll(g, base, incs, active))
    decreases g.Keys - active, |g[k].includes| - base + 1
  {
    var incs := g[k].includes[base..];
    if incs == [] {
    } else {
      assert incs[0] == g[k].includes[base] && incs[1..] == g[k].includes[base + 1..];
      VisitOneMatches(g, k, inherited, base, active);
      VisitAllMatches(g, k, inherited, base + 1, active);
    }
  }

  lemma {:induction false} VisitOneMatches(g: Graph, k: Key, inherited: string, i: nat, active: set<Key>)
    requires Closed(g) && k in g && g[k].prefix.Some? && i < |g[k].includes|
    ensures var composed := RouteJoin(inherited, g[k].prefix.value);
            Matches(g, k, inherited, VisitOne(g, g[k].relative, composed, g[k].includes[i], active).entries,
                    LocsOne(g, i, g[k].includes[i], active))
    decreases g.Keys - active, 1
  {
    var inc, composed := g[k].includes[i], RouteJoin(inherited, g[k].prefix.value);
    if inc.prefix.Some? {
      var mounts := MountEntries(g[k].relative, composed, inc);
      var mountLocs := if inc.isMount then [MountAt([], i)] else [];
      assert Matches(g, k, inherited, mounts, mountLocs) by {
        if inc.isMount { EntryHere(g, k, inherited, MountAt([], i)); }
      }
      var below, belowLocs := ChildEntries(g, composed, inc, active), ChildLocs(g, i, inc, active);
      assert Matches(g, k, inherited, below, belowLocs) by {
        if inc.child.Some? {
          VisitMatches(g, inc.child.value, RouteJoin(composed, inc.prefix.value), active);
          BelowMatches(g, k, inherited, i, below, Locs(g, inc.child.value, active));
        }
      }
      MatchesConcat(g, k, inherited, mounts, mountLocs, below, belowLocs);
      VisitOneParts(g, g[k].relative, composed, inc, active);
      LocsOneParts(g, i, inc, active);
    }
  }

  /** The entries of an include: its own mount, then those below it. */
  ghost function MountEntries(relative: string, composed: string, inc: Include): seq<Entry>
    requires inc.prefix.Some?
  {
    if inc.isMount then [Entry("MOUNT", RouteJoin(composed, inc.prefix.value), relative, inc.line)] else []
  }

  ghost function ChildEntries(g: Graph, composed: string, inc: Include, active: set<Key>): seq<Entry>
    requires Closed(g) && (inc.child.Some? ==> inc.child.value in g) && inc.prefix.Some?
  {
    if inc.child.Some? then Visit(g, inc.child.value, RouteJoin(composed, inc.prefix.value), active).entries else []
  }

  ghost function ChildLocs(g: Graph, i: nat, inc: Include, active: set<Key>): seq<Loc>
    requires Closed(g) && (inc.child.Some? ==> inc.child.value in g)
  {
    if inc.child.Some? then Below(i, Locs(g, inc.child.value, active)) else []
  }

  lemma VisitOneParts(g: Graph, relative: string, composed: string, inc: Include, active: set<Key>)
    requires Closed(g) && (inc.child.Some? ==> inc.child.value in g) && inc.prefix.Some?
    ensures VisitOne(g, relative, composed, inc, active).entries ==
            MountEntries(relative, composed, inc) + ChildEntries(g, composed, inc, active)
  {
    var below := ChildEntries(g, composed, inc, active);
    if !inc.isMount { assert [] + below == below; }
  }

  lemma LocsOneParts(g: Graph, i: nat, inc: Include, active: set<Key>)
    requires Closed(g) && (inc.child.Some? ==> inc.child.value in g) && inc.prefix.Some?
    ensures LocsOne(g, i, inc, active) ==
            (if inc.isMount then [MountAt([], i)] else []) + ChildLocs(g, i, inc, active)
  {
  }

  lemma MatchesConcat(g: Graph, k: Key, inherited: string, a: seq<Entry>, la: seq<Loc>, b: seq<Entry>, lb: seq<Loc>)
    requires Closed(g) && k in g && Matches(g, k, inherited, a, la) && Matches(g, k, inherited, b, lb)
    ensures Matches(g, k, inherited, a + b, la + lb)
  {
  }

  lemma BelowMatches(g: Graph, k: Key, inherited: string, i: nat, entries: seq<Entry>, locs: seq<Loc>)
    requires Closed(g) && k in g && g[k].prefix.Some? && i < |g[k].includes|
    requires g[k].includes[i].child.Some? && g[k].includes[i].prefix.Some?
    requires var inc := g[k].includes[i];
             var path := RouteJoin(RouteJoin(inherited, g[k].prefix.value), inc.prefix.value);
             Matches(g, inc.child.value, path, entries, locs)
    ensures Matches(g, k, inherited, entries, Below(i, locs))
  {
    forall n | 0 <= n < |locs|
      ensures InGraph(g, k, Below(i, locs)[n]) && entries[n] == EntryAt(g, k, inherited, Below(i, locs)[n])
    {
      EntryBelow(g, k, inherited, i, locs[n]);
    }
  }

  // ------------------------------------------------------ no place is repeated

  /** Which include a place of `LocsAll` belongs to. */
  ghost predicate FromInclude(loc: Loc, i: nat) {
    if loc.path == [] then loc == MountAt([], i) else loc.path[0] == i
  }

  /** Places reached through includes from number `base` on. */
  ghost predicate FromIncludes(locs: seq<Loc>, base: nat) {
    forall loc :: loc in locs ==>
      (loc.path == [] ==> loc.MountAt? && loc.n >= base) && (loc.path != [] ==> loc.path[0] >= base)
  }

  lemma DistinctConcat(first: seq<Loc>, rest: seq<Loc>, base: nat)
    requires Distinct(first) && Distinct(rest) && FromIncludes(rest, base + 1)
    requires forall loc :: loc in first ==> FromInclude(loc, base)
    ensures Distinct(first + rest) && FromIncludes(first + rest, base)
  {
    var all := first + rest;
    forall a, b | 0 <= a < b < |all| ensures all[a] != all[b] {
      if b < |first| {
        assert all[a] == first[a] && all[b] == first[b];
      } else if a < |first| {
        assert all[a] in first && all[b] in rest;
      } else {
        assert all[a] == rest[a - |first|] && all[b] == rest[b - |first|];
      }
    }
  }

  lemma {:induction false} LocsDistinct(g: Graph, k: Key, active: set<Key>)
    requires Closed(g) && k in g
    ensures Distinct(Locs(g, k, active))
    decreases g.Keys - active, 0
  {
    if k !in active && g[k].prefix.Some? {
      assert k in g.Keys - active && k !in g.Keys - (active + {k});
      LocsAllDistinct(g, 0, g[k].includes, active + {k});
    }
  }

  lemma {:induction false} LocsAllDistinct(g: Graph, base: nat, incs: seq<Include>, active: set<Key>)
    requires Closed(g) && ClosedIncludes(g, incs)
    ensures Distinct(LocsAll(g, base, incs, active))
    ensures FromIncludes(LocsAll(g, base, incs, active), base)
    decreases g.Keys - active, |incs| + 1
  {
    if incs == [] {
    } else {
      LocsOneDistinct(g, base, incs[0], active);
      LocsAllDistinct(g, base + 1, incs[1..], active);
      DistinctConcat(LocsOne(g, base, incs[0], active), LocsAll(g, base + 1, incs[1..], active), base);
    }
  }

  lemma {:induction false} LocsOneDistinct(g: Graph, i: nat, inc: Include, active: set<Key>)
    requires Closed(g) && (inc.child.Some? ==> inc.child.value in g)
    ensures Distinct(LocsOne(g, i, inc, active))
    ensures forall loc :: loc in LocsOne(g, i, inc, active) ==> FromInclude(loc, i)
    decreases g.Keys - active, 1
  {
    if inc.prefix.Some? && inc.child.Some? {
      var locs := Locs(g, inc.child.value, active);
      LocsDistinct(g, inc.child.value, active);
      BelowDistinct(i, locs);
      MountThenBelow(i, inc.isMount, Below(i, locs));
    }
  }

  lemma MountThenBelow(i: nat, isMount: bool, below: seq<Loc>)
    requires Distinct(below) && forall loc :: loc in below ==> loc.path != [] && loc.path[0] == i
    ensures var all := (if isMount then [MountAt([], i)] else []) + below;
            Distinct(all) && forall loc :: loc in all ==> FromInclude(loc, i)
  {
    var own := if isMount then [MountAt([], i)] else [];
    var all := own + below;
    forall a, b | 0 <= a < b < |all| ensures all[a] != all[b] {
      assert all[b] == below[b - |own|];
      if a >= |own| { assert all[a] == below[a - |own|]; }
    }
  }

  lemma BelowDistinct(i: nat, locs: seq<Loc>)
    requires Distinct(locs)
    ensures Distinct(Below(i, locs))
    ensures forall loc :: loc in Below(i, locs) ==> loc.path != [] && loc.path[0] == i
  {
    forall a, b | 0 <= a < b < |locs| ensures Below(i, locs)[a] != Below(i, locs)[b] {
      assert Below(i, locs)[a].path[1..] == locs[a].path;
      assert Below(i, locs)[b].path[1..] == locs[b].path;
    }
  }

  // ------------------------------------------------------- no place is missed

  /** A walk without findings below `k` has no findings below any include. */
  lemma {:induction false} NoFindingsInside(g: Graph, relative: string, composed: string, incs: seq<Include>,
                                            active: set<Key>, i: nat)
    requires Closed(g) && ClosedIncludes(g, incs) && i < |incs|
    requires VisitAll(g, relative, composed, incs, active).findings == []
    ensures VisitOne(g, relative, composed, incs[i], active).findings == []
  {
    if i == 0 {
    } else {
      NoFindingsInside(g, relative, composed, incs[1..], active, i - 1);
    }
  }

  /** The inherited prefix with which the child of include `i` is visited. */
  ghost function ChildPrefix(g: Graph, k: Key, inherited: string, i: nat): string
    requires k in g && i < |g[k].includes|
  {
    RouteJoin(RouteJoin(inherited, OrEmpty(g[k].prefix)), OrEmpty(g[k].includes[i].prefix))
  }

  lemma NoFindingsStep(g: Graph, k: Key, inherited: string, active: set<Key>, i: nat)
    requires Closed(g) && k in g && i < |g[k].includes|
    requires Visit(g, k, inherited, active).findings == []
    ensures k !in active && g[k].prefix.Some? && g[k].includes[i].prefix.Some?
    ensures var inc := g[k].includes[i];
            inc.child.Some? ==>
              Visit(g, inc.child.value, ChildPrefix(g, k, inherited, i), active + {k}).findings == []
  {
    var composed := RouteJoin(inherited, g[k].prefix.value);
    NoFindingsInside(g, g[k].relative, composed, g[k].includes, active + {k}, i);
  }

  lemma AppendAssociative(a: seq<Loc>, b: seq<Loc>, c: seq<Loc>)
    ensures a + (b + c) == a + b + c
  {
  }

  /** The places of one include are a stretch of those of all. */
  lemma {:induction false} LocsAllContains(g: Graph, base: nat, incs: seq<Include>, active: set<Key>, i: nat,
                                           inc: Include)
    returns (before: seq<Loc>, after: seq<Loc>)
    requires Closed(g) && ClosedIncludes(g, incs) && base <= i < base + |incs| && incs[i - base] == inc
    ensures LocsAll(g, base, incs, active) == before + (LocsOne(g, i, inc, active) + after)
    decreases i - base
  {
    var first, rest := LocsOne(g, base, incs[0], active), LocsAll(g, base + 1, incs[1..], active);
    if i == base {
      before, after := [], rest;
    } else {
      before, after := LocsAllContains(g, base + 1, incs[1..], active, i, inc);
      var mid := LocsOne(g, i, inc, active);
      assert rest == before + (mid + after);
      AppendAssociative(first, before, mid + after);
      before := first + before;
    }
  }

  lemma InMiddle(all: seq<Loc>, before: seq<Loc>, mid: seq<Loc>, after: seq<Loc>, loc: Loc)
    requires all == before + (mid + after) && loc in mid
    ensures loc in all
  {
  }

  lemma LocsAllHas(g: Graph, incs: seq<Include>, active: set<Key>, i: nat, loc: Loc)
    requires Closed(g) && ClosedIncludes(g, incs) && i < |incs| && loc in LocsOne(g, i, incs[i], active)
    ensures loc in LocsAll(g, 0, incs, active)
  {
    var before, after := LocsAllContains(g, 0, incs, active, i, incs[i]);
    InMiddle(LocsAll(g, 0, incs, active), before, LocsOne(g, i, incs[i], active), after, loc);
  }

  lemma LocsViaInclude(g: Graph, k: Key, active: set<Key>, i: nat, loc: Loc)
    requires Closed(g) && k in g && k !in active && g[k].prefix.Some? && i < |g[k].includes|
    requires loc in LocsOne(g, i, g[k].includes[i], active + {k})
    ensures loc in Locs(g, k, active)
  {
    var own, all := OwnRoutes(|g[k].routes|), LocsAll(g, 0, g[k].includes, active + {k});
    LocsAllHas(g, g[k].includes, active + {k}, i, loc);
    InMiddle(Locs(g, k, active), own, all, [], loc);
  }

  lemma LocsBelow(g: Graph, k: Key, active: set<Key>, i: nat, inner: Loc)
    requires Closed(g) && k in g && k !in active && g[k].prefix.Some? && i < |g[k].includes|
    requires g[k].includes[i].prefix.Some? && g[k].includes[i].child.Some?
    requires inner in Locs(g, g[k].includes[i].child.value, active + {k})
    ensures inner.(path := [i] + inner.path) in Locs(g, k, active)
  {
    BelowContains(i, Locs(g, g[k].includes[i].child.value, active + {k}), inner);
    LocsViaInclude(g, k, active, i, inner.(path := [i] + inner.path));
  }

  /** The walk goes down the whole path: no key is active or repeated, and every
      prefix on the way, as well as the last include's, is static. */
  ghost predicate Walked(g: Graph, k: Key, active: set<Key>, loc: Loc)
    requires Closed(g) && k in g && InGraph(g, k, loc)
    decreases |loc.path|
  {
    && k !in active && g[k].prefix.Some?
    && if loc.path == [] then
         loc.MountAt? ==> g[k].includes[loc.n].prefix.Some?
       else
         InnerPlace(g, k, loc);
         && g[k].includes[loc.path[0]].prefix.Some?
         && Walked(g, g[k].includes[loc.path[0]].child.value, active + {k}, loc.(path := loc.path[1..]))
  }

  lemma {:induction false} WalkedWhenSilent(g: Graph, k: Key, inherited: string, active: set<Key>, loc: Loc)
    requires Closed(g) && k in g && InGraph(g, k, loc)
    requires Visit(g, k, inherited, active).findings == []
    ensures Walked(g, k, active, loc)
    decreases |loc.path|
  {
    if loc.path == [] {
      if loc.MountAt? { NoFindingsStep(g, k, inherited, active, loc.n); }
    } else {
      InnerPlace(g, k, loc);
      NoFindingsStep(g, k, inherited, active, loc.path[0]);
      WalkedWhenSilent(g, g[k].includes[loc.path[0]].child.value, ChildPrefix(g, k, inherited, loc.path[0]),
                       active + {k}, loc.(path := loc.path[1..]));
    }
  }

  lemma LocsHere(g: Graph, k: Key, active: set<Key>, loc: Loc)
    requires Closed(g) && k in g && InGraph(g, k, loc) && loc.path == [] && Walked(g, k, active, loc)
    ensures loc in Locs(g, k, active)
  {
    if loc.RouteAt? {
      assert OwnRoutes(|g[k].routes|)[loc.n] == loc;
    } else {
      LocsViaInclude(g, k, active, loc.n, loc);
    }
  }

  lemma {:induction false} LocsComplete(g: Graph, k: Key, active: set<Key>, loc: Loc)
    requires Closed(g) && k in g && InGraph(g, k, loc) && Walked(g, k, active, loc)
    ensures loc in Locs(g, k, active)
    decreases |loc.path|
  {
    if loc.path == [] {
      LocsHere(g, k, active, loc);
    } else {
      var i, inner := loc.path[0], loc.(path := loc.path[1..]);
      InnerPlace(g, k, loc);
      LocsComplete(g, g[k].includes[i].child.value, active + {k}, inner);
      LocsBelow(g, k, active, i, inner);
      assert [i] + loc.path[1..] == loc.path;
    }
  }

  /** A place below an include, seen from the child. */
  lemma InnerPlace(g: Graph, k: Key, loc: Loc)
    requires Closed(g) && k in g && InGraph(g, k, loc) && loc.path != []
    ensures loc.path[0] < |g[k].includes| && g[k].includes[loc.path[0]].child.Some?
    ensures InGraph(g, g[k].includes[loc.path[0]].child.value, loc.(path := loc.path[1..]))
  {
  }

  lemma BelowContains(i: nat, locs: seq<Loc>, loc: Loc)
    requires loc in locs
    ensures loc.(path := [i] + loc.path) in Below(i, locs)
  {
    var n :| 0 <= n < |locs| && locs[n] == loc;
    assert Below(i, locs)[n] == loc.(path := [i] + loc.path);
  }

  // -------------------------------------------------------------- main results

  /** Keys met on the way are never met again. */
  ghost predicate SimpleWalk(g: Graph, k: Key, path: seq<nat>)
    requires Closed(g) && k in g
  {
    forall a, b :: 0 <= a < b <= |path| ==> Apart(g, k, path, a, b)
  }

  ghost predicate Apart(g: Graph, k: Key, path: seq<nat>, a: nat, b: nat)
    requires Closed(g) && k in g && a < b <= |path|
  {
    Target(g, k, path[..a]).Some? && Target(g, k, path[..a]) != Target(g, k, path[..b])
  }

  /** Without findings no include path leads back into the active keys. */
  lemma {:induction false} AvoidsActive(g: Graph, k: Key, inherited: string, active: set<Key>, path: seq<nat>)
    requires Closed(g) && k in g && Target(g, k, path).Some?
    requires Visit(g, k, inherited, active).findings == []
    ensures Target(g, k, path).value !in active
    decreases |path|
  {
    if path == [] {
    } else {
      NoFindingsStep(g, k, inherited, active, path[0]);
      AvoidsActive(g, g[k].includes[path[0]].child.value, ChildPrefix(g, k, inherited, path[0]), active + {k},
                   path[1..]);
    }
  }

  /** A walk that records no finding has walked an acyclic graph: no include
      path from the root meets an object twice. */
  lemma {:induction false} NoFindingsAcyclic(g: Graph, k: Key, inherited: string, active: set<Key>, path: seq<nat>)
    requires Closed(g) && k in g && Target(g, k, path).Some?
    requires Visit(g, k, inherited, active).findings == []
    ensures SimpleWalk(g, k, path)
    decreases |path|
  {
    if path == [] {
    } else {
      NoFindingsStep(g, k, inherited, active, path[0]);
      var c, below := g[k].includes[path[0]].child.value, ChildPrefix(g, k, inherited, path[0]);
      NoFindingsAcyclic(g, c, below, active + {k}, path[1..]);
      forall a, b | 0 <= a < b <= |path|
        ensures Apart(g, k, path, a, b)
      {
        TargetShift(g, k, path, b);
        if a == 0 {
          AvoidsActive(g, c, below, active + {k}, path[1..][..b - 1]);
        } else {
          TargetShift(g, k, path, a);
          assert Apart(g, c, path[1..], a - 1, b - 1);
        }
      }
    }
  }

  /** Prefixes of a path, seen from the first child. */
  lemma TargetShift(g: Graph, k: Key, path: seq<nat>, n: nat)
    requires Closed(g) && k in g && 0 < n <= |path| && Target(g, k, path).Some?
    ensures Target(g, k, path[..n]).Some?
    ensures Target(g, k, path[..n]) == Target(g, g[k].includes[path[0]].child.value, path[1..][..n - 1])
  {
    TargetPrefix(g, k, path, n);
    assert path[..n][1..] == path[1..][..n - 1];
  }

  lemma {:induction false} TargetPrefix(g: Graph, k: Key, path: seq<nat>, n: nat)
    requires Closed(g) && k in g && n <= |path| && Target(g, k, path).Some?
    ensures Target(g, k, path[..n]).Some?
    decreases |path|
  {
    if n == 0 {
    } else {
      assert path[..n][1..] == path[1..][..n - 1];
      TargetPrefix(g, g[k].includes[path[0]].child.value, path[1..], n - 1);
    }
  }

  /** What the walk reports is real even when it also records findings: entry by
      entry it is the entry of a place of the graph, no place twice. */
  lemma WalkIsSound(g: Graph, root: Key) returns (locs: seq<Loc>)
    requires Closed(g) && root in g
    ensures Matches(g, root, "", Visit(g, root, "", {}).entries, locs)
    ensures Distinct(locs)
  {
    locs := Locs(g, root, {});
    VisitMatches(g, root, "", {});
    LocsDistinct(g, root, {});
  }

  /** A walk without findings is exact: its entries correspond one to one to the
      routes and mounts at the end of the include paths, each with the join of
      all prefixes along the path. */
  lemma WalkIsExact(g: Graph, root: Key) returns (locs: seq<Loc>)
    requires Closed(g) && root in g && Visit(g, root, "", {}).findings == []
    ensures Matches(g, root, "", Visit(g, root, "", {}).entries, locs)
    ensures Distinct(locs)
    ensures forall loc :: loc in locs <==> InGraph(g, root, loc)
    ensures forall path :: Target(g, root, path).Some? ==> SimpleWalk(g, root, path)
    ensures forall loc :: InGraph(g, root, loc) ==>
              EntryAt(g, root, "", loc).path == JoinAll(Segments(g, root, loc.path) + [LastPart(g, root, loc)])
  {
    locs := Locs(g, root, {});
    VisitMatches(g, root, "", {});
    LocsDistinct(g, root, {});
    forall loc | InGraph(g, root, loc) ensures loc in locs {
      WalkedWhenSilent(g, root, "", {}, loc);
      LocsComplete(g, root, {}, loc);
    }
    forall path | Target(g, root, path).Some? ensures SimpleWalk(g, root, path) {
      NoFindingsAcyclic(g, root, "", {}, path);
    }
  }

  // ------------------------------------------------ when nothing is recorded

  /** Include `i` at the end of `path` can be resolved: it has a static prefix,
      and a known child unless it is the static asset mount at `/static`. */
  ghost predicate IncludeResolved(g: Graph, k: Key, inherited: string, path: seq<nat>, i: nat)
    requires Closed(g) && k in g && Target(g, k, path).Some? && i < |g[Target(g, k, path).value].includes|
  {
    var inc := g[Target(g, k, path).value].includes[i];
    && inc.prefix.Some?
    && (inc.child.Some? ||
        (inc.isMount && inc.staticAssets && EntryAt(g, k, inherited, MountAt(path, i)).path == "/static"))
  }

  ghost predicate Resolvable(g: Graph, k: Key, inherited: string, active: set<Key>)
    requires Closed(g) && k in g
  {
    forall path :: Target(g, k, path).Some? ==> ResolvedAt(g, k, inherited, active, path)
  }

  ghost predicate ResolvedAt(g: Graph, k: Key, inherited: string, active: set<Key>, path: seq<nat>)
    requires Closed(g) && k in g && Target(g, k, path).Some?
  {
    var t := Target(g, k, path).value;
    && SimpleWalk(g, k, path)
    && t !in active
    && g[t].prefix.Some?
    && forall i :: 0 <= i < |g[t].includes| ==> IncludeResolved(g, k, inherited, path, i)
  }

  lemma {:induction false} ResolvedWhenSilent(g: Graph, k: Key, inherited: string, active: set<Key>, path: seq<nat>,
                                              i: nat)
    requires Closed(g) && k in g && Target(g, k, path).Some?
    requires Visit(g, k, inherited, active).findings == []
    ensures g[Target(g, k, path).value].prefix.Some?
    ensures i < |g[Target(g, k, path).value].includes| ==> IncludeResolved(g, k, inherited, path, i)
    decreases |path|
  {
    if path == [] {
      if i < |g[k].includes| { ResolvedHere(g, k, inherited, active, i); }
    } else {
      NoFindingsStep(g, k, inherited, active, path[0]);
      var c, below := g[k].includes[path[0]].child.value, ChildPrefix(g, k, inherited, path[0]);
      ResolvedWhenSilent(g, c, below, active + {k}, path[1..], i);
      if i < |g[Target(g, k, path).value].includes| && g[Target(g, k, path).value].includes[i].isMount {
        EntryBelow(g, k, inherited, path[0], MountAt(path[1..], i));
        assert [path[0]] + path[1..] == path;
      }
    }
  }

  lemma ResolvedHere(g: Graph, k: Key, inherited: string, active: set<Key>, i: nat)
    requires Closed(g) && k in g && i < |g[k].includes| && Visit(g, k, inherited, active).findings == []
    ensures g[k].prefix.Some? && IncludeResolved(g, k, inherited, [], i)
  {
    NoFindingsStep(g, k, inherited, active, i);
    NoFindingsInside(g, g[k].relative, RouteJoin(inherited, g[k].prefix.value), g[k].includes, active + {k}, i);
    if g[k].includes[i].isMount { EntryHere(g, k, inherited, MountAt([], i)); }
  }

  lemma ResolvableChild(g: Graph, k: Key, inherited: string, active: set<Key>, i: nat)
    requires Closed(g) && k in g && Resolvable(g, k, inherited, active)
    requires i < |g[k].includes| && g[k].includes[i].child.Some?
    ensures Resolvable(g, g[k].includes[i].child.value, ChildPrefix(g, k, inherited, i), active + {k})
  {
    assert Target(g, k, []).Some?;
    assert ResolvedAt(g, k, inherited, active, []);
    assert IncludeResolved(g, k, inherited, [], i);
    var c, below := g[k].includes[i].child.value, ChildPrefix(g, k, inherited, i);
    forall path | Target(g, c, path).Some? ensures ResolvedAt(g, c, below, active + {k}, path) {
      var deep := [i] + path;
      assert deep[1..] == path;
      assert ResolvedAt(g, k, inherited, active, deep);
      SimpleBelow(g, k, i, path);
      var t := Target(g, c, path).value;
      forall n | 0 <= n < |g[t].includes| ensures IncludeResolved(g, c, below, path, n) {
        assert IncludeResolved(g, k, inherited, deep, n);
        if g[t].includes[n].isMount { EntryBelow(g, k, inherited, i, MountAt(path, n)); }
      }
    }
  }

  lemma SimpleBelow(g: Graph, k: Key, i: nat, path: seq<nat>)
    requires Closed(g) && k in g && i < |g[k].includes| && g[k].includes[i].child.Some?
    requires Target(g, g[k].includes[i].child.value, path).Some? && SimpleWalk(g, k, [i] + path)
    ensures SimpleWalk(g, g[k].includes[i].child.value, path)
    ensures Target(g, g[k].includes[i].child.value, path) != Some(k)
  {
    var c, deep := g[k].includes[i].child.value, [i] + path;
    assert deep[1..] == path && deep[..0] == [] && deep[..|deep|] == deep;
    assert Apart(g, k, deep, 0, |deep|);
    forall a, b | 0 <= a < b <= |path|
      ensures Apart(g, c, path, a, b)
    {
      TargetShift(g, k, deep, a + 1);
      TargetShift(g, k, deep, b + 1);
      assert Apart(g, k, deep, a + 1, b + 1);
      assert Target(g, k, deep[..a + 1]) == Target(g, c, path[..a]);
      assert Target(g, k, deep[..b + 1]) == Target(g, c, path[..b]);
    }
  }

  lemma {:induction false} AllSilent(g: Graph, relative: string, composed: string, incs: seq<Include>, active: set<Key>)
    requires Closed(g) && ClosedIncludes(g, incs)
    requires forall i :: 0 <= i < |incs| ==> VisitOne(g, relative, composed, incs[i], active).findings == []
    ensures VisitAll(g, relative, composed, incs, active).findings == []
    decreases |incs|
  {
    if incs == [] {
    } else {
      assert VisitOne(g, relative, composed, incs[0], active).findings == [];
      AllSilent(g, relative, composed, incs[1..], active);
    }
  }

  lemma {:induction false} SilentWhenResolvable(g: Graph, k: Key, inherited: string, active: set<Key>)
    requires Closed(g) && k in g && Resolvable(g, k, inherited, active)
    ensures Visit(g, k, inherited, active).findings == []
    decreases g.Keys - active
  {
    assert Target(g, k, []).Some?;
    assert ResolvedAt(g, k, inherited, active, []);
    var o := g[k];
    var composed := RouteJoin(inherited, o.prefix.value);
    assert k in g.Keys - active && k !in g.Keys - (active + {k});
    forall i | 0 <= i < |o.includes|
      ensures VisitOne(g, o.relative, composed, o.includes[i], active + {k}).findings == []
    {
      assert IncludeResolved(g, k, inherited, [], i);
      if o.includes[i].isMount { EntryHere(g, k, inherited, MountAt([], i)); }
      if o.includes[i].child.Some? {
        ResolvableChild(g, k, inherited, active, i);
        SilentWhenResolvable(g, o.includes[i].child.value, ChildPrefix(g, k, inherited, i), active + {k});
      }
    }
    AllSilent(g, o.relative, composed, o.includes, active + {k});
  }

  /** The walk stays silent exactly on the graphs it can account for: acyclic
      from the root, every prefix static, every include resolved. */
  lemma SilentIffResolvable(g: Graph, root: Key)
    requires Closed(g) && root in g
    ensures Visit(g, root, "", {}).findings == [] <==> Resolvable(g, root, "", {})
  {
    if Visit(g, root, "", {}).findings == [] {
      forall path | Target(g, root, path).Some? ensures ResolvedAt(g, root, "", {}, path) {
        NoFindingsAcyclic(g, root, "", {}, path);
        ResolvedWhenSilent(g, root, "", {}, path, 0);
        forall i | 0 <= i < |g[Target(g, root, path).value].includes|
          ensures IncludeResolved(g, root, "", path, i)
        {
          ResolvedWhenSilent(g, root, "", {}, path, i);
        }
      }
    }
    if Resolvable(g, root, "", {}) {
      SilentWhenResolvable(g, root, "", {});
    }
  }
}

/** Union-find over variable names, with path halving, and the equivalence
    relation it is meant to compute. */
module AliasForest {

  type Forest = map<string, string>
  type Rank = map<string, nat>
  type Links = set<(string, string)>

  // ------------------------------------------------------------ roots of a forest

  /** `rank` falls along every parent link: the forest has no cycle but roots. */
  ghost predicate Ranked(p: Forest, rank: Rank) {
    && rank.Keys == p.Keys
    && forall x {:trigger Falls(p, rank, x)} :: x in p ==> Falls(p, rank, x)
  }

  ghost predicate Falls(p: Forest, rank: Rank, x: string)
    requires x in p && rank.Keys == p.Keys
  {
    p[x] in p && (p[x] != x ==> rank[p[x]] < rank[x])
  }

  ghost function Root(p: Forest, rank: Rank, x: string): (r: string)
    requires Ranked(p, rank) && x in p
    ensures r in p && p[r] == r && rank[r] <= rank[x]
    decreases rank[x]
  {
    assert Falls(p, rank, x);
    if p[x] == x then x else Root(p, rank, p[x])
  }

  ghost predicate SameRoots(p: Forest, p': Forest, rank: Rank) {
    && Ranked(p, rank) && Ranked(p', rank) && p.Keys == p'.Keys
    && forall x {:trigger Root(p', rank, x)} :: x in p ==> Root(p', rank, x) == Root(p, rank, x)
  }

  ghost function Halved(p: Forest, x: string): Forest {
    if x in p && p[x] in p then p[x := p[p[x]]] else p
  }

  /** Pointing a name at its grandparent moves no root. */
  lemma HalvingPreservesRoots(p: Forest, rank: Rank, x: string)
    requires Ranked(p, rank) && x in p
    ensures SameRoots(p, Halved(p, x), rank)
  {
    assert Falls(p, rank, x) && Falls(p, rank, p[x]);
    var p' := Halved(p, x);
    forall y | y in p' ensures Falls(p', rank, y) { assert Falls(p, rank, y); }
    forall y | y in p ensures Root(p', rank, y) == Root(p, rank, y) {
      HalvingPreservesRoot(p, rank, x, y);
    }
  }

  lemma {:induction false} HalvingPreservesRoot(p: Forest, rank: Rank, x: string, y: string)
    requires Ranked(p, rank) && x in p && y in p && Ranked(Halved(p, x), rank)
    ensures Root(Halved(p, x), rank, y) == Root(p, rank, y)
    decreases rank[y]
  {
    var p' := Halved(p, x);
    assert Falls(p, rank, y);
    if p[y] != y {
      assert Falls(p, rank, p[y]);
      if y == x {
        assert Falls(p, rank, p[p[x]]) && Falls(p', rank, x);
        HalvingPreservesRoot(p, rank, x, p[p[x]]);
        assert Root(p, rank, x) == Root(p, rank, p[x]) == Root(p, rank, p[p[x]]);
      } else {
        HalvingPreservesRoot(p, rank, x, p[y]);
      }
    }
  }

  // ------------------------------------------------- equivalence of the aliases

  ghost predicate Linked(links: Links, a: string, b: string) {
    (a, b) in links || (b, a) in links
  }

  ghost predicate Trail(links: Links, trail: seq<string>) {
    trail != [] && forall i :: 0 <= i < |trail| - 1 ==> Linked(links, trail[i], trail[i + 1])
  }

  ghost predicate Joins(links: Links, trail: seq<string>, a: string, b: string) {
    Trail(links, trail) && trail[0] == a && trail[|trail| - 1] == b
  }

  /** The equivalence closure of the links. */
  ghost predicate Connected(links: Links, a: string, b: string) {
    exists trail :: Joins(links, trail, a, b)
  }

  lemma ConnectedRefl(links: Links, a: string)
    ensures Connected(links, a, a)
  {
    assert Joins(links, [a], a, a);
  }

  lemma ConnectedLink(links: Links, a: string, b: string)
    requires Linked(links, a, b)
    ensures Connected(links, a, b)
  {
    assert Joins(links, [a, b], a, b);
  }

  lemma ConnectedTrans(links: Links, a: string, b: string, c: string)
    requires Connected(links, a, b) && Connected(links, b, c)
    ensures Connected(links, a, c)
  {
    var s :| Joins(links, s, a, b);
    var t :| Joins(links, t, b, c);
    var st := s + t[1..];
    forall i | 0 <= i < |st| - 1 ensures Linked(links, st[i], st[i + 1]) {
      if i < |s| - 1 {
        assert Linked(links, s[i], s[i + 1]);
      } else {
        var j := i - (|s| - 1);
        assert Linked(links, t[j], t[j + 1]);
        assert st[i] == t[j] && st[i + 1] == t[j + 1];
      }
    }
    assert Joins(links, st, a, c);
  }

  lemma {:induction false} ConnectedSym(links: Links, a: string, b: string)
    requires Connected(links, a, b)
    ensures Connected(links, b, a)
  {
    var s :| Joins(links, s, a, b);
    var t := seq(|s|, i requires 0 <= i < |s| => s[|s| - 1 - i]);
    forall i | 0 <= i < |t| - 1 ensures Linked(links, t[i], t[i + 1]) {
      var j := |s| - 2 - i;
      assert Linked(links, s[j], s[j + 1]);
    }
    assert Joins(links, t, b, a);
  }

  lemma ConnectedMono(small: Links, big: Links, a: string, b: string)
    requires small <= big && Connected(small, a, b)
    ensures Connected(big, a, b)
  {
    var s :| Joins(small, s, a, b);
    forall i | 0 <= i < |s| - 1 ensures Linked(big, s[i], s[i + 1]) {
      assert Linked(small, s[i], s[i + 1]);
    }
    assert Joins(big, s, a, b);
  }

  // --------------------------------------------------- what the forest maintains

  ghost predicate Together(p: Forest, rank: Rank, a: string, b: string)
    requires Ranked(p, rank)
  {
    a in p && b in p && Root(p, rank, a) == Root(p, rank, b)
  }

  ghost predicate Represents(p: Forest, rank: Rank, links: Links) {
    && Ranked(p, rank)
    && (forall a, b {:trigger Linked(links, a, b)} :: Linked(links, a, b) ==> Together(p, rank, a, b))
    && (forall a, b {:trigger Together(p, rank, a, b)} :: Together(p, rank, a, b) ==> Connected(links, a, b))
  }

  lemma {:induction false} TrailKeepsRoot(p: Forest, rank: Rank, links: Links, trail: seq<string>)
    requires Represents(p, rank, links) && Trail(links, trail) && trail[0] in p
    ensures trail[|trail| - 1] in p && Root(p, rank, trail[0]) == Root(p, rank, trail[|trail| - 1])
    decreases |trail|
  {
    if |trail| <= 1 {
    } else {
      assert Linked(links, trail[0], trail[1]);
      assert Together(p, rank, trail[0], trail[1]);
      var rest := trail[1..];
      forall i | 0 <= i < |rest| - 1 ensures Linked(links, rest[i], rest[i + 1]) {
        assert Linked(links, trail[i + 1], trail[i + 1 + 1]);
      }
      TrailKeepsRoot(p, rank, links, rest);
    }
  }

  /** Two names have the same root exactly when a chain of alias assignments
      connects them. */
  lemma SameRootIffConnected(p: Forest, rank: Rank, links: Links, a: string, b: string)
    requires Represents(p, rank, links) && a in p && b in p
    ensures Root(p, rank, a) == Root(p, rank, b) <==> Connected(links, a, b)
  {
    assert Together(p, rank, a, b) <==> Root(p, rank, a) == Root(p, rank, b);
    if Connected(links, a, b) {
      var s :| Joins(links, s, a, b);
      TrailKeepsRoot(p, rank, links, s);
    }
  }

  lemma AddRepresents(p: Forest, rank: Rank, links: Links, x: string)
    requires Represents(p, rank, links) && x !in p
    ensures Represents(p[x := x], rank[x := 0], links)
    ensures Root(p[x := x], rank[x := 0], x) == x
    ensures forall y {:trigger Root(p[x := x], rank[x := 0], y)} ::
              y in p ==> Root(p[x := x], rank[x := 0], y) == Root(p, rank, y)
  {
    var p', rank' := p[x := x], rank[x := 0];
    forall y | y in p' ensures Falls(p', rank', y) {
      if y != x { assert Falls(p, rank, y); }
    }
    forall y | y in p ensures Root(p', rank', y) == Root(p, rank, y) {
      AddKeepsRoot(p, rank, x, y);
    }
    forall a, b | Together(p', rank', a, b) ensures Connected(links, a, b) {
      if a == x || b == x {
        assert a == b;
        ConnectedRefl(links, a);
      } else {
        assert Together(p, rank, a, b);
      }
    }
    forall a, b | Linked(links, a, b) ensures Together(p', rank', a, b) {
      assert Together(p, rank, a, b);
    }
  }

  lemma {:induction false} AddKeepsRoot(p: Forest, rank: Rank, x: string, y: string)
    requires Ranked(p, rank) && x !in p && y in p && Ranked(p[x := x], rank[x := 0])
    ensures Root(p[x := x], rank[x := 0], y) == Root(p, rank, y)
    decreases rank[y]
  {
    assert Falls(p, rank, y);
    if p[y] != y { AddKeepsRoot(p, rank, x, p[y]); }
  }

  lemma SameRootsRepresents(p: Forest, p': Forest, rank: Rank, links: Links)
    requires Represents(p, rank, links) && SameRoots(p, p', rank)
    ensures Represents(p', rank, links)
  {
    forall a, b | Together(p', rank, a, b) ensures Connected(links, a, b) {
      assert Together(p, rank, a, b);
    }
    forall a, b | Linked(links, a, b) ensures Together(p', rank, a, b) {
      assert Together(p, rank, a, b);
    }
  }

  // ------------------------------------------------------------------- joining

  /** Ranks after hanging root `r` below root `l`. */
  ghost function Lifted(p: Forest, rank: Rank, l: string, r: string): Rank
    requires Ranked(p, rank) && l in p && r in p
  {
    map x | x in p :: if Root(p, rank, x) == r then rank[x] + rank[l] + 1 else rank[x]
  }

  lemma LinkRanked(p: Forest, rank: Rank, l: string, r: string)
    requires Ranked(p, rank) && l in p && r in p && p[l] == l && p[r] == r && l != r
    ensures Ranked(p[r := l], Lifted(p, rank, l, r))
  {
    var p', rank' := p[r := l], Lifted(p, rank, l, r);
    assert Root(p, rank, l) == l && Root(p, rank, r) == r;
    forall x | x in p' ensures Falls(p', rank', x) {
      assert Falls(p, rank, x);
      if x != r { assert Root(p, rank, p[x]) == Root(p, rank, x); }
    }
  }

  lemma {:induction false} LinkRoots(p: Forest, rank: Rank, l: string, r: string, x: string)
    requires Ranked(p, rank) && l in p && r in p && p[l] == l && p[r] == r && l != r && x in p
    requires Ranked(p[r := l], Lifted(p, rank, l, r))
    ensures Root(p[r := l], Lifted(p, rank, l, r), x) ==
            if Root(p, rank, x) == r then l else Root(p, rank, x)
    decreases rank[x]
  {
    var p', rank' := p[r := l], Lifted(p, rank, l, r);
    assert Falls(p, rank, x);
    if x == r {
      assert p'[l] == l;
    } else if p[x] != x {
      LinkRoots(p, rank, l, r, p[x]);
    }
  }

  lemma LinkRepresents(p: Forest, rank: Rank, links: Links, a: string, b: string)
    requires Represents(p, rank, links) && a in p && b in p && Root(p, rank, a) != Root(p, rank, b)
    ensures var l, r := Root(p, rank, a), Root(p, rank, b);
            Represents(p[r := l], Lifted(p, rank, l, r), links + {(a, b)})
  {
    var l, r := Root(p, rank, a), Root(p, rank, b);
    var p', rank' := p[r := l], Lifted(p, rank, l, r);
    LinkRanked(p, rank, l, r);
    LinkAllRoots(p, rank, l, r);
    MergedRepresents(p, rank, links, a, b, p', rank');
  }

  lemma LinkAllRoots(p: Forest, rank: Rank, l: string, r: string)
    requires Ranked(p, rank) && l in p && r in p && p[l] == l && p[r] == r && l != r
    requires Ranked(p[r := l], Lifted(p, rank, l, r))
    ensures forall x {:trigger Root(p[r := l], Lifted(p, rank, l, r), x)} :: x in p ==>
              Root(p[r := l], Lifted(p, rank, l, r), x) == if Root(p, rank, x) == r then l else Root(p, rank, x)
  {
    var p', rank' := p[r := l], Lifted(p, rank, l, r);
    forall x | x in p ensures Root(p', rank', x) == if Root(p, rank, x) == r then l else Root(p, rank, x) {
      LinkRoots(p, rank, l, r, x);
    }
  }

  /** Any forest whose roots are those of `p` with the root of `b` replaced by
      the root of `a` represents the links with `(a, b)` added. */
  lemma MergedRepresents(p: Forest, rank: Rank, links: Links, a: string, b: string, p': Forest, rank': Rank)
    requires Represents(p, rank, links) && a in p && b in p
    requires Ranked(p', rank') && p'.Keys == p.Keys
    requires forall x {:trigger Root(p', rank', x)} :: x in p ==>
      Root(p', rank', x) == if Root(p, rank, x) == Root(p, rank, b) then Root(p, rank, a) else Root(p, rank, x)
    ensures Represents(p', rank', links + {(a, b)})
  {
    var links' := links + {(a, b)};
    forall x, y | Linked(links', x, y) ensures Together(p', rank', x, y) {
      if Linked(links, x, y) {
        assert Together(p, rank, x, y);
      } else {
        assert (x == a && y == b) || (x == b && y == a);
      }
    }
    forall x, y | Together(p', rank', x, y) ensures Connected(links', x, y) {
      LinkConnects(p, rank, links, a, b, x, y);
    }
  }

  /** Names joined by the new link are connected through it. */
  lemma LinkConnects(p: Forest, rank: Rank, links: Links, a: string, b: string, x: string, y: string)
    requires Represents(p, rank, links) && a in p && b in p && x in p && y in p
    requires var rx, ry := Root(p, rank, x), Root(p, rank, y);
             var l, r := Root(p, rank, a), Root(p, rank, b);
             (if rx == r then l else rx) == (if ry == r then l else ry)
    ensures Connected(links + {(a, b)}, x, y)
  {
    var links' := links + {(a, b)};
    if Root(p, rank, x) == Root(p, rank, y) {
      assert Together(p, rank, x, y);
      ConnectedMono(links, links', x, y);
    } else {
      ConnectedLink(links', a, b);
      ConnectedLink(links', b, a);
      if Root(p, rank, x) == Root(p, rank, b) {
        assert Together(p, rank, x, b) && Together(p, rank, a, y);
        Through(links, links', x, b, a, y);
      } else {
        assert Together(p, rank, x, a) && Together(p, rank, b, y);
        Through(links, links', x, a, b, y);
      }
    }
  }

  lemma Through(links: Links, links': Links, x: string, u: string, v: string, y: string)
    requires links <= links' && Connected(links, x, u) && Connected(links', u, v) && Connected(links, v, y)
    ensures Connected(links', x, y)
  {
    ConnectedMono(links, links', x, u);
    ConnectedMono(links, links', v, y);
    ConnectedTrans(links', x, u, v);
    ConnectedTrans(links', x, v, y);
  }

  lemma LinkAlreadyRepresented(p: Forest, rank: Rank, links: Links, a: string, b: string)
    requires Represents(p, rank, links) && a in p && b in p && Root(p, rank, a) == Root(p, rank, b)
    ensures Represents(p, rank, links + {(a, b)})
  {
    var links' := links + {(a, b)};
    forall x, y | Together(p, rank, x, y) ensures Connected(links', x, y) {
      ConnectedMono(links, links', x, y);
    }
    forall x, y | Linked(links', x, y) ensures Together(p, rank, x, y) {
      if !Linked(links, x, y) { assert (x == a && y == b) || (x == b && y == a); }
    }
  }
}

/** Path composition of the route scanner: the string join that glues a router
    prefix to a path, and the law that lets includes be regrouped. */
module RoutePath {

  const SLASH: string := "/"

  /** `s.lstrip('/')` */
  function LStrip(s: string): (r: string) {
    if s != "" && s[0] == '/' then LStrip(s[1..]) else s
  }

  /** `s.rstrip('/')` */
  function RStrip(s: string): (r: string) {
    if s != "" && s[|s| - 1] == '/' then RStrip(s[..|s| - 1]) else s
  }

  /** Puts a leading slash in front of a string that lacks one. */
  function Rooted(s: string): (r: string) {
    if s != "" && s[0] == '/' then s else SLASH + s
  }

  function RouteJoin(prefix: string, path: string): (r: string)
    ensures r == "" <==> prefix == "" && path == ""
    ensures r != "" ==> r[0] == '/'
  {
    if prefix == "" && path == "" then
      ""
    else if prefix == "" then
      Rooted(path)
    else if path == "" then
      Rooted(prefix)
    else
      Rooted(RStrip(prefix) + SLASH + LStrip(path))
  }

  // ---------------------------------------------------------------- stripping

  lemma {:induction false} LStripConcat(a: string, b: string)
    ensures LStrip(a + b) == if LStrip(a) == "" then LStrip(b) else LStrip(a) + b
  {
    if a == "" {
      assert a + b == b;
    } else {
      assert (a + b)[1..] == a[1..] + b;
      LStripConcat(a[1..], b);
    }
  }

  lemma {:induction false} RStripConcat(a: string, b: string)
    ensures RStrip(a + b) == if RStrip(b) == "" then RStrip(a) else a + RStrip(b)
  {
    if b == "" {
      assert a + b == a;
    } else {
      assert (a + b)[..|a + b| - 1] == a + b[..|b| - 1];
      RStripConcat(a, b[..|b| - 1]);
    }
  }

  /** Both strips empty exactly the strings made of slashes only. */
  lemma {:induction false} BlankEitherWay(s: string)
    ensures LStrip(s) == "" <==> RStrip(s) == ""
  {
    if s != "" {
      BlankEitherWay(s[1..]);
      assert s == [s[0]] + s[1..];
      RStripConcat([s[0]], s[1..]);
      LStripConcat([s[0]], s[1..]);
    }
  }

  lemma {:induction false} LStripHead(s: string)
    ensures LStrip(s) != "" ==> LStrip(s)[0] != '/'
    ensures LStrip(LStrip(s)) == LStrip(s)
  {
    if s != "" && s[0] == '/' { LStripHead(s[1..]); }
  }

  lemma {:induction false} RStripEnds(s: string)
    ensures RStrip(s) != "" ==> RStrip(s)[0] == s[0]
    ensures RStrip(RStrip(s)) == RStrip(s)
  {
    if s != "" && s[|s| - 1] == '/' { RStripEnds(s[..|s| - 1]); }
  }

  lemma {:induction false} StripsCommute(s: string)
    ensures LStrip(RStrip(s)) == RStrip(LStrip(s))
  {
    if s != "" {
      assert s == [s[0]] + s[1..];
      RStripConcat([s[0]], s[1..]);
      if s[0] == '/' {
        StripsCommute(s[1..]);
        LStripConcat(SLASH, RStrip(s[1..]));
        BlankEitherWay(s[1..]);
      } else {
        RStripEnds(s);
      }
    }
  }

  lemma StripsOfRooted(s: string)
    ensures LStrip(Rooted(s)) == LStrip(s)
    ensures RStrip(Rooted(s)) == if RStrip(s) == "" then "" else Rooted(RStrip(s))
  {
    LStripConcat(SLASH, s);
    RStripConcat(SLASH, s);
    RStripEnds(s);
  }

  lemma RootedConcat(s: string, t: string)
    requires s != ""
    ensures Rooted(s) + t == Rooted(s + t)
  {
    assert (s + t)[0] == s[0];
    if s[0] == '/' {
      assert Rooted(s) == s && Rooted(s + t) == s + t;
    } else {
      assert Rooted(s) == SLASH + s && Rooted(s + t) == SLASH + (s + t);
      assert SLASH + s + t == SLASH + (s + t);
    }
  }

  // -------------------------------------------------------------- the join law

  /** What the outside of a join looks like to a further join on its right. */
  lemma RStripOfGlue(a: string, b: string)
    ensures var g := RStrip(a) + SLASH + LStrip(b);
            RStrip(g) == if LStrip(b) == "" then RStrip(a)
                         else RStrip(a) + SLASH + RStrip(LStrip(b))
  {
    RStripConcat(RStrip(a) + SLASH, LStrip(b));
    RStripConcat(RStrip(a), SLASH);
    RStripEnds(a);
    LStripHead(b);
    BlankEitherWay(LStrip(b));
  }

  /** What the outside of a join looks like to a further join on its left. */
  lemma LStripOfGlue(a: string, b: string)
    ensures var g := RStrip(a) + SLASH + LStrip(b);
            LStrip(g) == if RStrip(a) == "" then LStrip(b)
                         else LStrip(RStrip(a)) + SLASH + LStrip(b)
  {
    var tail := SLASH + LStrip(b);
    assert RStrip(a) + SLASH + LStrip(b) == RStrip(a) + tail;
    LStripConcat(RStrip(a), tail);
    LStripConcat(SLASH, LStrip(b));
    LStripHead(b);
    RStripEnds(a);
    BlankEitherWay(RStrip(a));
    assert LStrip(RStrip(a)) + tail == LStrip(RStrip(a)) + SLASH + LStrip(b);
  }

  /** Rooting before or after appending a part that starts with a slash. */
  lemma RegroupRight(s: string, t: string)
    ensures Rooted((if s == "" then "" else Rooted(s)) + SLASH + t) == Rooted(s + SLASH + t)
  {
    if s == "" {
      assert "" + SLASH + t == SLASH + t;
    } else {
      RootedConcat(s, SLASH + t);
      assert Rooted(s) + SLASH + t == Rooted(s) + (SLASH + t);
      assert s + SLASH + t == s + (SLASH + t);
    }
  }

  /** Three non-empty parts glued at once. */
  function Glue(a: string, b: string, c: string): string {
    if RStrip(b) == "" then Rooted(RStrip(a) + SLASH + LStrip(c))
    else Rooted(RStrip(a) + SLASH + LStrip(RStrip(b)) + SLASH + LStrip(c))
  }

  lemma LeftNested(a: string, b: string, c: string)
    requires a != "" && b != "" && c != ""
    ensures RouteJoin(RouteJoin(a, b), c) == Glue(a, b, c)
  {
    var g := RStrip(a) + SLASH + LStrip(b);
    RStripOfGlue(a, b);
    StripsOfRooted(g);
    StripsCommute(b);
    BlankEitherWay(b);
    RegroupRight(RStrip(g), LStrip(c));
    assert RouteJoin(a, b) == Rooted(g);
  }

  lemma RightNested(a: string, b: string, c: string)
    requires a != "" && b != "" && c != ""
    ensures RouteJoin(a, RouteJoin(b, c)) == Glue(a, b, c)
  {
    var g := RStrip(b) + SLASH + LStrip(c);
    LStripOfGlue(b, c);
    StripsOfRooted(g);
    assert RouteJoin(b, c) == Rooted(g);
    assert RouteJoin(a, RouteJoin(b, c)) == Rooted(RStrip(a) + SLASH + LStrip(g));
    if RStrip(b) != "" {
      var m := LStrip(RStrip(b));
      assert RStrip(a) + SLASH + (m + SLASH + LStrip(c)) == RStrip(a) + SLASH + m + SLASH + LStrip(c);
    }
  }

  lemma EmptyFirst(b: string, c: string)
    ensures RouteJoin(RouteJoin("", b), c) == RouteJoin("", RouteJoin(b, c))
  {
    if b != "" && c != "" {
      StripsOfRooted(b);
      RegroupRight(RStrip(b), LStrip(c));
    }
  }

  lemma EmptySecond(a: string, c: string)
    ensures RouteJoin(RouteJoin(a, ""), c) == RouteJoin(a, RouteJoin("", c))
  {
    if a != "" && c != "" {
      StripsOfRooted(a);
      StripsOfRooted(c);
      RegroupRight(RStrip(a), LStrip(c));
    }
  }

  lemma EmptyThird(a: string, b: string)
    ensures RouteJoin(RouteJoin(a, b), "") == RouteJoin(a, RouteJoin(b, ""))
  {
    if b != "" {
      StripsOfRooted(b);
    }
  }

  /** Joining is associative on every string: empty parts, parts made of
      slashes only and repeated slashes included. */
  lemma RouteJoinAssociative(a: string, b: string, c: string)
    ensures RouteJoin(RouteJoin(a, b), c) == RouteJoin(a, RouteJoin(b, c))
  {
    if a == "" {
      EmptyFirst(b, c);
    } else if b == "" {
      EmptySecond(a, c);
    } else if c == "" {
      EmptyThird(a, b);
    } else {
      LeftNested(a, b, c);
      RightNested(a, b, c);
    }
  }
}

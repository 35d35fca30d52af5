/** Mapping aliases resolved as shared objects: every name connected by alias
    assignments sees the union of the entries written through any of them. */
module AliasEntries {
  import opened Options
  import opened AliasForest

  // -------------------------------------------------------- the scanned program

  /** A syntax node; `dump` is its text without positions. */
  datatype Node = Node(dump: string, position: int)

  /** String-keyed entries of a mapping, keys in lower case. */
  type Entries = map<string, Node>

  datatype Target = NameTarget(id: string) | SubscriptTarget(base: string, key: Option<string>) | OtherTarget

  datatype Value = DictValue(entries: Entries, isDynamic: bool) | NameValue(id: string) | OtherValue

  datatype Assignment = Assignment(targets: seq<Target>, value: Value, node: Node)

  datatype UpdateArgument =
    | NoArgument
    | DictArgument(entries: Entries, isDynamic: bool)
    | NameArgument(id: string)
    | OtherArguments

  /** Mutating statements and calls, in the order the syntax walk meets them. */
  datatype Mutation =
    | AugmentName(base: string, entries: Entries, isDynamic: bool)
    | AugmentSubscript(base: string)
    | DeleteSubscript(base: string)
    | SetDefault(base: string, key: Option<string>, value: Node, wellFormed: bool)
    | Update(base: string, argument: UpdateArgument, keywords: Entries, starred: bool)
    | OtherMutator(base: string)

  function Names(targets: seq<Target>): (r: seq<string>) {
    if targets == [] then []
    else (if targets[0].NameTarget? then [targets[0].id] else []) + Names(targets[1..])
  }

  // ------------------------------------------------------ the relation it means

  ghost function NameSet(names: seq<string>): (r: set<string>)
    ensures forall x :: x in r <==> x in names
  {
    set j | 0 <= j < |names| :: names[j]
  }

  ghost function TargetLinks(names: seq<string>): (r: Links) {
    set j | 0 < j < |names| :: (names[0], names[j])
  }

  ghost function ValueLinks(names: seq<string>, id: string): (r: Links) {
    set j | 0 <= j < |names| :: (names[j], id)
  }

  /** Names made aliases of one another by one assignment. */
  ghost function LinksOf(a: Assignment): (r: Links) {
    TargetLinks(Names(a.targets)) + if a.value.NameValue? then ValueLinks(Names(a.targets), a.value.id) else {}
  }

  ghost function AllLinks(assignments: seq<Assignment>): Links {
    if assignments == [] then {}
    else AllLinks(assignments[..|assignments| - 1]) + LinksOf(assignments[|assignments| - 1])
  }

  lemma TargetLinksStep(names: seq<string>, j: nat)
    requires 0 < j < |names|
    ensures TargetLinks(names[..j + 1]) == TargetLinks(names[..j]) + {(names[0], names[j])}
    ensures NameSet(names[..j + 1]) == NameSet(names[..j]) + {names[j]} && names[0] in NameSet(names[..j])
  {
    var a, b := names[..j], names[..j + 1];
    assert b == a + [names[j]];
    forall e | e in TargetLinks(b) ensures e in TargetLinks(a) + {(names[0], names[j])} {
      var i :| 0 < i < |b| && e == (b[0], b[i]);
      if i < j { assert e == (a[0], a[i]); }
    }
    forall e | e in TargetLinks(a) ensures e in TargetLinks(b) {
      var i :| 0 < i < |a| && e == (a[0], a[i]);
      assert e == (b[0], b[i]);
    }
    assert (names[0], names[j]) == (b[0], b[j]);
    assert a[0] in a;
  }

  lemma ValueLinksStep(names: seq<string>, j: nat, id: string)
    requires j < |names|
    ensures ValueLinks(names[..j + 1], id) == ValueLinks(names[..j], id) + {(names[j], id)}
    ensures NameSet(names[..j + 1]) == NameSet(names[..j]) + {names[j]}
  {
    var a, b := names[..j], names[..j + 1];
    assert b == a + [names[j]];
    forall e | e in ValueLinks(b, id) ensures e in ValueLinks(a, id) + {(names[j], id)} {
      var i :| 0 <= i < |b| && e == (b[i], id);
      if i < j { assert e == (a[i], id); }
    }
    forall e | e in ValueLinks(a, id) ensures e in ValueLinks(b, id) {
      var i :| 0 <= i < |a| && e == (a[i], id);
      assert e == (b[i], id);
    }
    assert (names[j], id) == (b[j], id);
  }

  /** Names an assignment brings under observation. */
  ghost function NamesOf(a: Assignment): (r: set<string>) {
    var names := Names(a.targets);
    (if |names| > 1 || a.value.DictValue? then NameSet(names) else {}) +
    (if a.value.NameValue? && names != [] then NameSet(names) + {a.value.id} else {})
  }

  ghost function AllNames(assignments: seq<Assignment>): set<string> {
    if assignments == [] then {}
    else AllNames(assignments[..|assignments| - 1]) + NamesOf(assignments[|assignments| - 1])
  }

  // ----------------------------------------------------------- recorded changes

  /** A write through `name`; `from` copies what another name holds so far. */
  datatype Change = Change(name: string, from: Option<string>, entries: Entries, isDynamic: bool)

  datatype Component = Component(entries: Entries, isDynamic: bool)

  const EMPTY := Component(map[], false)

  ghost predicate Conflict(a: Entries, b: Entries) {
    exists k :: k in a && k in b && a[k].dump != b[k].dump
  }

  ghost function Merged(c: Component, entries: Entries, isDynamic: bool): Component {
    Component(c.entries + entries, c.isDynamic || isDynamic || Conflict(c.entries, entries))
  }

  /** Everything written through names connected to `x`, in order. */
  ghost function Collected(changes: seq<Change>, links: Links, x: string): Component
    decreases |changes|
  {
    if changes == [] then EMPTY else
      var past, c := changes[..|changes| - 1], changes[|changes| - 1];
      var before := Collected(past, links, x);
      if !Connected(links, x, c.name) then
        before
      else if c.from.None? then
        Merged(before, c.entries, c.isDynamic)
      else
        var source := Collected(past, links, c.from.value);
        Merged(before, source.entries + c.entries, source.isDynamic || c.isDynamic)
  }

  /** Connected names see the same entries and the same dynamic flag. */
  lemma {:induction false} ConnectedCollectSame(changes: seq<Change>, links: Links, x: string, y: string)
    requires Connected(links, x, y)
    ensures Collected(changes, links, x) == Collected(changes, links, y)
    decreases |changes|
  {
    if changes == [] {
    } else {
      var c := changes[|changes| - 1];
      ConnectedCollectSame(changes[..|changes| - 1], links, x, y);
      ConnectedSym(links, x, y);
      if Connected(links, x, c.name) { ConnectedTrans(links, y, x, c.name); }
      if Connected(links, y, c.name) { ConnectedTrans(links, x, y, c.name); }
    }
  }

  /** When the flag is clear, every expression ever written to a key through any
      alias is the one that is reported for it. */
  lemma {:induction false} StaticEntriesAgree(changes: seq<Change>, links: Links, x: string, i: nat, key: string)
    requires i < |changes| && Connected(links, x, changes[i].name) && key in changes[i].entries
    requires !Collected(changes, links, x).isDynamic
    ensures key in Collected(changes, links, x).entries
    ensures Collected(changes, links, x).entries[key].dump == changes[i].entries[key].dump
    decreases |changes|
  {
    var past, c := changes[..|changes| - 1], changes[|changes| - 1];
    if i < |changes| - 1 {
      assert past[i] == changes[i];
      StaticEntriesAgree(past, links, x, i, key);
      var before := Collected(past, links, x);
      if Connected(links, x, c.name) {
        var added := if c.from.None? then c.entries else Collected(past, links, c.from.value).entries + c.entries;
        assert !Conflict(before.entries, added);
        assert key in added ==> before.entries[key].dump == added[key].dump;
      }
    }
  }

  // ------------------------------------------------- statements as changes

  function SubscriptChanges(targets: seq<Target>, node: Node, known: set<string>): (r: seq<Change>) {
    if targets == [] then []
    else
      (if targets[0].SubscriptTarget? && targets[0].base in known then
         [Change(targets[0].base, None,
                 if targets[0].key.Some? then map[targets[0].key.value := node] else map[],
                 targets[0].key.None?)]
       else [])
      + SubscriptChanges(targets[1..], node, known)
  }

  function NameChanges(names: seq<string>, value: Value, known: set<string>): (r: seq<Change>) {
    if names == [] then []
    else
      (match value
       case DictValue(entries, isDynamic) => [Change(names[0], None, entries, isDynamic)]
       case NameValue(_) => []
       case OtherValue => if names[0] in known then [Change(names[0], None, map[], true)] else [])
      + NameChanges(names[1..], value, known)
  }

  function AssignmentChanges(a: Assignment, known: set<string>): (r: seq<Change>) {
    NameChanges(Names(a.targets), a.value, known) + SubscriptChanges(a.targets, a.node, known)
  }

  function MutationChanges(m: Mutation, known: set<string>): (r: seq<Change>) {
    if m.base !in known then [] else
      match m
      case AugmentName(base, entries, isDynamic) => [Change(base, None, entries, isDynamic)]
      case AugmentSubscript(base) => [Change(base, None, map[], true)]
      case DeleteSubscript(base) => [Change(base, None, map[], true)]
      case SetDefault(base, key, value, wellFormed) =>
        [Change(base, None, if key.Some? then map[key.value := value] else map[], key.None? || !wellFormed)]
      case Update(base, argument, keywords, starred) =>
        [match argument
         case NoArgument => Change(base, None, keywords, starred)
         case DictArgument(entries, isDynamic) => Change(base, None, entries + keywords, isDynamic || starred)
         case NameArgument(id) =>
           if id in known then Change(base, Some(id), keywords, starred) else Change(base, None, keywords, true)
         case OtherArguments => Change(base, None, keywords, true)]
      case OtherMutator(base) => [Change(base, None, map[], true)]
  }

  function ChangesOfAssignments(assignments: seq<Assignment>, known: set<string>): (r: seq<Change>) {
    if assignments == [] then []
    else ChangesOfAssignments(assignments[..|assignments| - 1], known) +
         AssignmentChanges(assignments[|assignments| - 1], known)
  }

  function ChangesOfMutations(mutations: seq<Mutation>, known: set<string>): (r: seq<Change>) {
    if mutations == [] then []
    else ChangesOfMutations(mutations[..|mutations| - 1], known) +
         MutationChanges(mutations[|mutations| - 1], known)
  }

  function AllChanges(assignments: seq<Assignment>, mutations: seq<Mutation>, known: set<string>): (r: seq<Change>) {
    ChangesOfAssignments(assignments, known) + ChangesOfMutations(mutations, known)
  }

  ghost predicate Known(changes: seq<Change>, names: set<string>) {
    forall i :: 0 <= i < |changes| ==>
      changes[i].name in names && (changes[i].from.Some? ==> changes[i].from.value in names)
  }

  // -------------------------------------------------------------- the analysis

  class AliasAnalysis {
    var parent: Forest
    var componentEntries: map<string, Entries>
    var componentDynamic: map<string, bool>
    ghost var rank: Rank
    ghost var links: Links

    ghost predicate Valid()
      reads this
    {
      Represents(parent, rank, links)
    }

    ghost function At(root: string): Component
      reads this
    {
      Component(if root in componentEntries then componentEntries[root] else map[],
                root in componentDynamic && componentDynamic[root])
    }

    /** What the analysis currently holds for a name. */
    ghost function View(name: string): Component
      requires Valid() && name in parent
      reads this
    {
      At(Root(parent, rank, name))
    }

    constructor ()
      ensures Valid() && parent == map[] && links == {} && componentEntries == map[] && componentDynamic == map[]
    {
      parent, componentEntries, componentDynamic := map[], map[], map[];
      rank, links := map[], {};
      new;
      assert forall a, b :: !Linked(links, a, b);
    }

    method Add(name: string)
      requires Valid()
      modifies `parent, `rank
      ensures Valid() && parent.Keys == old(parent.Keys) + {name}
      ensures KeepsRoots(old(parent), old(rank), parent, rank)
      ensures name in old(parent) ==> rank == old(rank)
    {
      if name !in parent {
        AddRepresents(parent, rank, links, name);
        parent, rank := parent[name := name], rank[name := 0];
      }
    }

    /** Finds the root with path halving; the partition is untouched. */
    method Find(name: string) returns (r: string)
      requires Valid()
      modifies `parent, `rank
      ensures Valid() && parent.Keys == old(parent.Keys) + {name}
      ensures r == Root(parent, rank, name)
      ensures KeepsRoots(old(parent), old(rank), parent, rank)
      ensures name in old(parent) ==> rank == old(rank)
    {
      Add(name);
      ghost var start, fixedRank := parent, rank;
      r := name;
      while parent[r] != r
        invariant rank == fixedRank && r in parent && Valid() && SameRoots(start, parent, rank)
        invariant Root(parent, rank, r) == Root(parent, rank, name)
        decreases rank[r]
      {
        ghost var before := parent;
        assert Falls(parent, rank, r) && Falls(parent, rank, parent[r]);
        HalvingPreservesRoots(parent, rank, r);
        parent := parent[r := parent[parent[r]]];
        SameRootsRepresents(before, parent, rank, links);
        SameRootsTrans(start, before, parent, rank);
        assert Root(parent, rank, r) == Root(before, rank, r) == Root(before, rank, name);
        assert Falls(parent, rank, r);
        r := parent[r];
      }
      SameRootsKeeps(start, parent, rank, old(parent), old(rank));
    }

    method Union(left: string, right: string)
      requires Valid()
      modifies `parent, `rank, `links
      ensures Valid() && links == old(links) + {(left, right)}
      ensures parent.Keys == old(parent.Keys) + {left, right}
    {
      var leftRoot := Find(left);
      var rightRoot := Find(right);
      assert Root(parent, rank, left) == leftRoot;
      Attach(left, right, leftRoot, rightRoot);
    }

    method Attach(ghost left: string, ghost right: string, leftRoot: string, rightRoot: string)
      requires Valid() && left in parent && right in parent
      requires leftRoot == Root(parent, rank, left) && rightRoot == Root(parent, rank, right)
      modifies `parent, `rank, `links
      ensures Valid() && links == old(links) + {(left, right)} && parent.Keys == old(parent.Keys)
    {
      if leftRoot != rightRoot {
        ghost var lifted := Lifted(parent, rank, leftRoot, rightRoot);
        assert Represents(parent[rightRoot := leftRoot], lifted, links + {(left, right)}) by {
          LinkRepresents(parent, rank, links, left, right);
        }
        parent := parent[rightRoot := leftRoot];
        rank := lifted;
      } else {
        assert Represents(parent, rank, links + {(left, right)}) by {
          LinkAlreadyRepresented(parent, rank, links, left, right);
        }
      }
      links := links + {(left, right)};
    }

    /** `a = b = ...`: every further target is an alias of the first. */
    method UniteTargets(names: seq<string>)
      requires Valid()
      modifies `parent, `rank, `links
      ensures Valid() && links == old(links) + TargetLinks(names)
      ensures parent.Keys == old(parent.Keys) + if |names| > 1 then NameSet(names) else {}
    {
      if |names| < 2 { return; }
      for j := 1 to |names|
        invariant Valid() && links == old(links) + TargetLinks(names[..j])
        invariant parent.Keys == old(parent.Keys) + if j > 1 then NameSet(names[..j]) else {}
      {
        Union(names[0], names[j]);
        TargetLinksStep(names, j);
      }
      assert names[..|names|] == names;
    }

    method AddAll(names: seq<string>)
      requires Valid()
      modifies `parent, `rank
      ensures Valid() && parent.Keys == old(parent.Keys) + NameSet(names)
    {
      for j := 0 to |names|
        invariant Valid() && parent.Keys == old(parent.Keys) + NameSet(names[..j])
      {
        Add(names[j]);
        assert names[..j + 1] == names[..j] + [names[j]];
      }
      assert names[..|names|] == names;
    }

    method UniteWith(names: seq<string>, id: string)
      requires Valid()
      modifies `parent, `rank, `links
      ensures Valid() && links == old(links) + ValueLinks(names, id)
      ensures parent.Keys == old(parent.Keys) + if names != [] then NameSet(names) + {id} else {}
    {
      for j := 0 to |names|
        invariant Valid() && links == old(links) + ValueLinks(names[..j], id)
        invariant parent.Keys == old(parent.Keys) + if j > 0 then NameSet(names[..j]) + {id} else {}
      {
        Union(names[j], id);
        ValueLinksStep(names, j, id);
      }
      assert names[..|names|] == names;
    }

    method UniteOne(a: Assignment)
      requires Valid()
      modifies `parent, `rank, `links
      ensures Valid() && links == old(links) + LinksOf(a) && parent.Keys == old(parent.Keys) + NamesOf(a)
    {
      var names := Names(a.targets);
      UniteTargets(names);
      if a.value.DictValue? {
        AddAll(names);
      } else if a.value.NameValue? {
        UniteWith(names, a.value.id);
      }
    }

    /** First pass: the partition is that of all alias assignments together. */
    method UniteAll(assignments: seq<Assignment>)
      requires Valid() && parent == map[] && links == {}
      modifies `parent, `rank, `links
      ensures Valid() && links == AllLinks(assignments) && parent.Keys == AllNames(assignments)
    {
      for n := 0 to |assignments|
        invariant Valid() && links == AllLinks(assignments[..n]) && parent.Keys == AllNames(assignments[..n])
      {
        UniteOne(assignments[n]);
        assert assignments[..n + 1][..n] == assignments[..n];
      }
      assert assignments[..|assignments|] == assignments;
    }

    /** Folds entries into the component of `name`, flagging keys that were
        already bound to a different expression. */
    method Merge(name: string, entries: Entries, isDynamic: bool)
      requires Valid() && name in parent
      modifies `parent, `rank, `componentEntries, `componentDynamic
      ensures Valid() && rank == old(rank) && parent.Keys == old(parent.Keys)
      ensures KeepsRoots(old(parent), old(rank), parent, rank)
      ensures At(Root(parent, rank, name)) == Merged(old(View(name)), entries, isDynamic)
      ensures forall r {:trigger At(r)} :: r != Root(parent, rank, name) ==> At(r) == old(At(r))
    {
      var rootName := Find(name);
      MergeAt(rootName, entries, isDynamic);
    }

    method MergeAt(rootName: string, entries: Entries, isDynamic: bool)
      modifies `componentEntries, `componentDynamic
      ensures At(rootName) == Merged(old(At(rootName)), entries, isDynamic)
      ensures forall r {:trigger At(r)} :: r != rootName ==> At(r) == old(At(r))
    {
      var current: Entries := if rootName in componentEntries then componentEntries[rootName] else map[];
      var flagged := rootName in componentDynamic && componentDynamic[rootName];
      current, flagged := FoldEntries(current, flagged, entries);
      componentEntries := componentEntries[rootName := current];
      componentDynamic := componentDynamic[rootName := flagged || isDynamic];
    }

    /** Every name sees exactly what was written through its aliases so far. */
    ghost predicate InStep(log: seq<Change>)
      reads this
    {
      Valid() && forall x {:trigger Collected(log, links, x)} :: x in parent ==> View(x) == Collected(log, links, x)
    }

    /** `find` on a known name leaves every view alone. */
    method FindKnown(name: string, ghost log: seq<Change>) returns (r: string)
      requires InStep(log) && name in parent
      modifies `parent, `rank
      ensures InStep(log) && parent.Keys == old(parent.Keys) && rank == old(rank)
      ensures r == Root(parent, rank, name)
    {
      r := Find(name);
      forall x | x in parent ensures View(x) == Collected(log, links, x) {
        assert Root(parent, rank, x) == Root(old(parent), old(rank), x);
        assert old(View(x)) == Collected(log, links, x);
      }
    }

    method Record(c: Change, ghost log: seq<Change>)
      requires InStep(log) && c.name in parent && (c.from.Some? ==> c.from.value in parent)
      modifies `parent, `rank, `componentEntries, `componentDynamic
      ensures InStep(log + [c]) && parent.Keys == old(parent.Keys)
    {
      var entries, isDynamic := c.entries, c.isDynamic;
      if c.from.Some? {
        var source := FindKnown(c.from.value, log);
        assert View(c.from.value) == Collected(log, links, c.from.value);
        entries := (if source in componentEntries then componentEntries[source] else map[]) + c.entries;
        isDynamic := (source in componentDynamic && componentDynamic[source]) || c.isDynamic;
      }
      label before:
      ghost var p := parent;
      Merge(c.name, entries, isDynamic);
      forall x | x in parent ensures View(x) == Collected(log + [c], links, x) {
        assert (log + [c])[..|log + [c]| - 1] == log;
        assert Root(parent, rank, x) == Root(p, rank, x);
        assert Root(parent, rank, c.name) == Root(p, rank, c.name);
        assert old@before(View(x)) == Collected(log, links, x);
        assert old@before(View(c.name)) == Collected(log, links, c.name);
        SameRootIffConnected(p, rank, links, x, c.name);
      }
    }

    method RecordAll(changes: seq<Change>, ghost log: seq<Change>)
      requires InStep(log) && Known(changes, parent.Keys)
      modifies `parent, `rank, `componentEntries, `componentDynamic
      ensures InStep(log + changes) && parent.Keys == old(parent.Keys)
    {
      assert log + changes[..0] == log;
      for i := 0 to |changes|
        invariant InStep(log + changes[..i]) && parent.Keys == old(parent.Keys)
      {
        Record(changes[i], log + changes[..i]);
        assert log + changes[..i] + [changes[i]] == log + changes[..i + 1];
      }
      assert changes[..|changes|] == changes;
    }

    /** Second pass, in assignment order. */
    method RecordAssignments(assignments: seq<Assignment>)
      requires InStep([]) && parent.Keys == AllNames(assignments)
      modifies `parent, `rank, `componentEntries, `componentDynamic
      ensures InStep(ChangesOfAssignments(assignments, old(parent.Keys))) && parent.Keys == old(parent.Keys)
    {
      var known := parent.Keys;
      for n := 0 to |assignments|
        invariant InStep(ChangesOfAssignments(assignments[..n], known)) && parent.Keys == known
      {
        AssignmentKnown(assignments, n);
        assert assignments[..n + 1][..n] == assignments[..n];
        RecordAll(AssignmentChanges(assignments[n], known), ChangesOfAssignments(assignments[..n], known));
      }
      assert assignments[..|assignments|] == assignments;
    }

    /** Third pass, in syntax-walk order. */
    method RecordMutations(mutations: seq<Mutation>, ghost log: seq<Change>)
      requires InStep(log)
      modifies `parent, `rank, `componentEntries, `componentDynamic
      ensures InStep(log + ChangesOfMutations(mutations, old(parent.Keys))) && parent.Keys == old(parent.Keys)
    {
      var known := parent.Keys;
      assert log + [] == log;
      for n := 0 to |mutations|
        invariant InStep(log + ChangesOfMutations(mutations[..n], known)) && parent.Keys == known
      {
        assert mutations[..n + 1][..n] == mutations[..n];
        ghost var so := log + ChangesOfMutations(mutations[..n], known);
        RecordAll(MutationChanges(mutations[n], known), so);
        assert so + MutationChanges(mutations[n], known) == log + ChangesOfMutations(mutations[..n + 1], known);
      }
      assert mutations[..|mutations|] == mutations;
    }

    /** Third pass, then the lookup of every name. */
    method ResolveAfter(mutations: seq<Mutation>, ghost log: seq<Change>) returns (resolved: map<string, Component>)
      requires InStep(log)
      modifies `parent, `rank, `componentEntries, `componentDynamic
      ensures resolved.Keys == old(parent.Keys)
      ensures forall x :: x in resolved ==>
                resolved[x] == Collected(log + ChangesOfMutations(mutations, old(parent.Keys)), links, x)
    {
      RecordMutations(mutations, log);
      resolved := Resolve(log + ChangesOfMutations(mutations, old(parent.Keys)));
    }

    method Resolve(ghost log: seq<Change>) returns (resolved: map<string, Component>)
      requires InStep(log)
      modifies `parent, `rank
      ensures resolved.Keys == old(parent.Keys)
      ensures forall x :: x in resolved ==> resolved[x] == Collected(log, links, x)
    {
      resolved := map[];
      var todo := parent.Keys;
      while todo != {}
        invariant parent.Keys == old(parent.Keys) && todo <= parent.Keys && InStep(log)
        invariant resolved.Keys == parent.Keys - todo
        invariant forall x :: x in resolved ==> resolved[x] == Collected(log, links, x)
        decreases todo
      {
        var name :| name in todo;
        var rootName := FindKnown(name, log);
        assert View(name) == Collected(log, links, name);
        var c := Component(if rootName in componentEntries then componentEntries[rootName] else map[],
                           rootName in componentDynamic && componentDynamic[rootName]);
        resolved := resolved[name := c];
        todo := todo - {name};
      }
    }
  }

  /** Later entries win; a key rebound to a different expression raises the flag. */
  method FoldEntries(into: Entries, flag: bool, entries: Entries) returns (current: Entries, flagged: bool)
    ensures current == into + entries
    ensures flagged <==> flag || Conflict(into, entries)
  {
    current, flagged := into, flag;
    var todo := entries.Keys;
    while todo != {}
      invariant todo <= entries.Keys
      invariant current == into + (map k | k in entries && k !in todo :: entries[k])
      invariant flagged <==> flag || exists k :: k in into && k in entries && k !in todo &&
                                                 into[k].dump != entries[k].dump
      decreases todo
    {
      var key :| key in todo;
      if key in current && current[key].dump != entries[key].dump {
        flagged := true;
      }
      current := current[key := entries[key]];
      todo := todo - {key};
    }
    assert (map k | k in entries && k !in todo :: entries[k]) == entries;
  }

  // ------------------------------------------------------------ the whole pass

  lemma {:induction false} NamesKnown(names: seq<string>, value: Value, known: set<string>)
    requires value.DictValue? ==> NameSet(names) <= known
    ensures Known(NameChanges(names, value, known), known)
  {
    if names == [] {
    } else {
      assert names[0] in NameSet(names);
      NamesKnown(names[1..], value, known);
    }
  }

  lemma {:induction false} SubscriptsKnown(targets: seq<Target>, node: Node, known: set<string>)
    ensures Known(SubscriptChanges(targets, node, known), known)
  {
    if targets == [] {
    } else {
      SubscriptsKnown(targets[1..], node, known);
    }
  }

  lemma {:induction false} NamesOfContained(assignments: seq<Assignment>, n: nat)
    requires n < |assignments|
    ensures NamesOf(assignments[n]) <= AllNames(assignments)
  {
    if n < |assignments| - 1 { NamesOfContained(assignments[..|assignments| - 1], n); }
  }

  lemma AssignmentKnown(assignments: seq<Assignment>, n: nat)
    requires n < |assignments|
    ensures Known(AssignmentChanges(assignments[n], AllNames(assignments)), AllNames(assignments))
  {
    var a, known := assignments[n], AllNames(assignments);
    NamesOfContained(assignments, n);
    NamesKnown(Names(a.targets), a.value, known);
    SubscriptsKnown(a.targets, a.node, known);
  }

  /** The analysis resolves every observed name to exactly what the program
      writes through the names connected to it. */
  method ResolveAliases(assignments: seq<Assignment>, mutations: seq<Mutation>)
    returns (resolved: map<string, Component>)
    ensures resolved.Keys == AllNames(assignments)
    ensures forall x :: x in resolved ==>
              resolved[x] == Collected(AllChanges(assignments, mutations, AllNames(assignments)),
                                       AllLinks(assignments), x)
  {
    var a := new AliasAnalysis();
    a.UniteAll(assignments);
    assert a.InStep([]);
    a.RecordAssignments(assignments);
    resolved := a.ResolveAfter(mutations, ChangesOfAssignments(assignments, AllNames(assignments)));
  }

  /** No name of the old forest changes its root. */
  ghost predicate KeepsRoots(p: Forest, rank: Rank, p': Forest, rank': Rank) {
    && Ranked(p, rank) && Ranked(p', rank') && p.Keys <= p'.Keys
    && forall x {:trigger Root(p', rank', x)} :: x in p ==> Root(p', rank', x) == Root(p, rank, x)
  }

  lemma SameRootsTrans(p: Forest, q: Forest, r: Forest, rank: Rank)
    requires SameRoots(p, q, rank) && SameRoots(q, r, rank)
    ensures SameRoots(p, r, rank)
  {
  }

  lemma SameRootsKeeps(p: Forest, q: Forest, rank: Rank, p0: Forest, rank0: Rank)
    requires SameRoots(p, q, rank) && KeepsRoots(p0, rank0, p, rank)
    ensures KeepsRoots(p0, rank0, q, rank)
  {
  }
}

/** The bounded walk over everything a test broker owns, which must amount to
    the closure of ownership without any second broker in it. */
module BrokerGraph {
  import opened Options

  const MAX_DEPTH: nat := 24
  const MAX_NODES: nat := 512

  /** An object, by identity. */
  type Object = int

  /** What static inspection finds under one broker method name. */
  datatype MethodSlot = Missing(required: bool) | Present(value: Object, plainCallable: bool)

  /** The inspected heap: owned children (none when inspection itself refuses)
      and whether an object's type is a broker client. */
  datatype Heap = Heap(owned: Object -> Option<seq<Object>>, isBroker: Object -> bool)

  datatype Refusal = MissingMethod | BadMethod | TooDeep | TooManyNodes | SecondBroker | Uninspectable | TooManyChildren

  // ------------------------------------------------------------- reachability

  /** A chain of owned objects; its length is the depth it is met at. */
  ghost predicate Chain(h: Heap, c: seq<Object>) {
    c != [] && forall i :: 0 <= i < |c| - 1 ==> Owns(h, c[i], c[i + 1])
  }

  ghost predicate Owns(h: Heap, a: Object, b: Object) {
    h.owned(a).Some? && b in h.owned(a).value
  }

  /** `x` is met at `depth`: from the root, or one deeper from a broker method. */
  ghost predicate MetAt(h: Heap, root: Object, methods: set<Object>, x: Object, depth: nat) {
    exists c :: MetBy(h, root, methods, x, depth, c)
  }

  ghost predicate MetBy(h: Heap, root: Object, methods: set<Object>, x: Object, depth: nat, c: seq<Object>) {
    && Chain(h, c) && c[|c| - 1] == x
    && ((c[0] == root && depth == |c| - 1) || (c[0] in methods && depth == |c|))
  }

  ghost predicate Reachable(h: Heap, root: Object, methods: set<Object>, x: Object) {
    exists depth :: MetAt(h, root, methods, x, depth)
  }

  /** A set closed under ownership holds everything reachable from it. */
  lemma {:induction false} ClosedHoldsChain(h: Heap, seen: set<Object>, c: seq<Object>)
    requires Chain(h, c) && c[0] in seen
    requires forall x, y :: x in seen && Owns(h, x, y) ==> y in seen
    ensures c[|c| - 1] in seen
    decreases |c|
  {
    if |c| <= 1 {
    } else {
      var d := c[..|c| - 1];
      forall i | 0 <= i < |d| - 1 ensures Owns(h, d[i], d[i + 1]) { assert Owns(h, c[i], c[i + 1]); }
      ClosedHoldsChain(h, seen, d);
      assert Owns(h, c[|c| - 2], c[|c| - 2 + 1]);
    }
  }

  // ---------------------------------------------------------------- the walk

  /** Why a refusal is justified. */
  ghost predicate Justified(h: Heap, root: Object, slots: seq<MethodSlot>, why: Refusal) {
    var methods := MethodSet(slots);
    match why
    case MissingMethod => Missing(true) in slots
    case BadMethod => exists v :: Present(v, false) in slots
    case TooDeep => exists x, c :: MetTooDeep(h, root, methods, x, c)
    case TooManyNodes => exists s: set<Object> :: |s| == MAX_NODES + 1 && AllReachable(h, root, methods, s)
    case SecondBroker => exists x :: x != root && Reachable(h, root, methods, x) && h.isBroker(x)
    case Uninspectable => exists x :: Reachable(h, root, methods, x) && h.owned(x).None?
    case TooManyChildren =>
      exists x :: Reachable(h, root, methods, x) && h.owned(x).Some? && |h.owned(x).value| > MAX_NODES
  }

  /** One level too deep, below owners that are all different: going round a cycle
      of ownership is no reason. */
  ghost predicate MetTooDeep(h: Heap, root: Object, methods: set<Object>, x: Object, c: seq<Object>) {
    MetBy(h, root, methods, x, MAX_DEPTH + 1, c) && DistinctOwners(c)
  }

  ghost predicate DistinctOwners(c: seq<Object>) {
    forall i, j :: 0 <= i < j < |c| - 1 ==> c[i] != c[j]
  }

  ghost predicate OwnersSeen(c: seq<Object>, seen: set<Object>) {
    forall i :: 0 <= i < |c| - 1 ==> c[i] in seen
  }

  /** Met below objects that were expanded, each of them once. */
  ghost predicate MetThrough(h: Heap, root: Object, methods: set<Object>, seen: set<Object>, x: Object, depth: nat) {
    exists c :: MetBy(h, root, methods, x, depth, c) && DistinctOwners(c) && OwnersSeen(c, seen)
  }

  ghost predicate AllReachable(h: Heap, root: Object, methods: set<Object>, s: set<Object>) {
    forall x :: x in s ==> Reachable(h, root, methods, x)
  }

  ghost function MethodSet(slots: seq<MethodSlot>): (s: set<Object>)
    ensures forall x :: x in s <==> exists ok :: Present(x, ok) in slots
  {
    if slots == [] then {} else
      assert forall sl :: sl in slots <==> sl == slots[0] || sl in slots[1..];
      (if slots[0].Present? then {slots[0].value} else {}) + MethodSet(slots[1..])
  }

  datatype Item = Item(value: Object, depth: nat)

  ghost predicate OnStack(stack: seq<Item>, x: Object) {
    exists i :: 0 <= i < |stack| && stack[i].value == x
  }

  ghost predicate StackMet(h: Heap, root: Object, methods: set<Object>, seen: set<Object>, stack: seq<Item>) {
    forall i :: 0 <= i < |stack| ==> MetThrough(h, root, methods, seen, stack[i].value, stack[i].depth)
  }

  /** Children of seen objects are seen or still to be visited. */
  ghost predicate Frontier(h: Heap, seen: set<Object>, stack: seq<Item>) {
    forall x, y :: x in seen && Owns(h, x, y) ==> y in seen || OnStack(stack, y)
  }

  method PushMethods(root: Object, slots: seq<MethodSlot>) returns (r: Option<Refusal>, stack: seq<Item>)
    ensures r.None? <==> forall i :: 0 <= i < |slots| ==>
                           if slots[i].Missing? then !slots[i].required else slots[i].plainCallable
    ensures r.Some? ==> (r == Some(MissingMethod) && Missing(true) in slots) ||
                        (r == Some(BadMethod) && exists v :: Present(v, false) in slots)
    ensures r.None? ==> forall x, d: nat :: Item(x, d) in stack <==>
                          (x == root && d == 0) || (x in MethodSet(slots) && d == 1)
  {
    r, stack := None, [Item(root, 0)];
    for n := 0 to |slots|
      invariant forall i :: 0 <= i < n ==>
                  if slots[i].Missing? then !slots[i].required else slots[i].plainCallable
      invariant forall x, d: nat :: Item(x, d) in stack <==>
                  (x == root && d == 0) || (d == 1 && exists ok :: Present(x, ok) in slots[..n])
    {
      assert forall sl :: sl in slots[..n + 1] <==> sl in slots[..n] || sl == slots[n];
      match slots[n]
      case Missing(required) =>
        if required { assert Missing(true) == slots[n]; return Some(MissingMethod), stack; }
      case Present(value, plainCallable) =>
        if !plainCallable { assert Present(value, false) == slots[n]; return Some(BadMethod), stack; }
        stack := stack + [Item(value, 1)];
    }
    assert slots[..|slots|] == slots;
  }

  /** On acceptance `seen` is exactly what the root owns, directly or not: it
      holds the root and its broker methods, is closed under ownership, has at
      most 512 members and no broker but the root. A refusal has a reason. */
  method RequireBoundedGraph(h: Heap, root: Object, slots: seq<MethodSlot>)
    returns (r: Option<Refusal>, seen: set<Object>)
    ensures r.None? ==> root in seen && MethodSet(slots) <= seen
    ensures r.None? ==> forall x :: x in seen <==> Reachable(h, root, MethodSet(slots), x)
    ensures r.None? ==> forall x, y :: x in seen && Owns(h, x, y) ==> y in seen
    ensures r.None? ==> |seen| <= MAX_NODES
    ensures r.None? ==> forall x :: x in seen ==> Cleared(h, root, x)
    ensures r.Some? ==> Justified(h, root, slots, r.value)
  {
    seen := {};
    var stack: seq<Item>;
    r, stack := PushMethods(root, slots);
    if r.Some? { return; }
    ghost var methods := MethodSet(slots);
    StartMet(h, root, methods, stack);
    while stack != []
      invariant r.None? && |seen| <= MAX_NODES && Walking(h, root, methods, seen, stack)
      decreases MAX_NODES - |seen|, |stack|
    {
      r, seen, stack := WalkStep(h, root, slots, seen, stack);
      if r.Some? { return; }
    }
    Finished(h, root, methods, seen, stack);
  }

  /** Takes one item off the stack; an object met for the first time is checked
      and what it owns is pushed. The nodes visited are those seen. */
  method WalkStep(h: Heap, root: Object, slots: seq<MethodSlot>, seen: set<Object>, stack: seq<Item>)
    returns (r: Option<Refusal>, seen': set<Object>, stack': seq<Item>)
    requires Walking(h, root, MethodSet(slots), seen, stack) && stack != [] && |seen| <= MAX_NODES
    ensures r.Some? ==> Justified(h, root, slots, r.value)
    ensures r.None? ==> |seen'| <= MAX_NODES && Walking(h, root, MethodSet(slots), seen', stack')
    ensures r.None? ==> |seen'| == |seen| + 1 || (seen' == seen && |stack'| < |stack|)
  {
    ghost var methods := MethodSet(slots);
    var value, depth := stack[|stack| - 1].value, stack[|stack| - 1].depth;
    r, seen', stack' := None, seen, stack[..|stack| - 1];
    assert MetThrough(h, root, methods, seen, value, depth);
    if depth > MAX_DEPTH {
      ShallowerMet(h, root, methods, seen, value, depth);
      return Some(TooDeep), seen', stack';
    }
    if value in seen {
      SkipStep(h, root, methods, seen, stack);
      return;
    }
    seen' := seen + {value};
    assert Reachable(h, root, methods, value) by { assert MetAt(h, root, methods, value, depth); }
    if |seen'| > MAX_NODES { return Some(TooManyNodes), seen', stack'; }
    var pushed;
    r, pushed := Inspect(h, root, slots, value, depth);
    if r.Some? { return; }
    ExpandStep(h, root, methods, seen, stack, pushed);
    stack' := stack' + pushed;
  }

  /** An empty stack leaves exactly what can be reached. */
  lemma Finished(h: Heap, root: Object, methods: set<Object>, seen: set<Object>, stack: seq<Item>)
    requires Walking(h, root, methods, seen, stack) && stack == []
    ensures root in seen && methods <= seen
    ensures forall x :: x in seen <==> Reachable(h, root, methods, x)
    ensures forall x, y :: x in seen && Owns(h, x, y) ==> y in seen
  {
    forall x ensures !OnStack(stack, x) {}
    assert methods <= seen by { forall m | m in methods ensures m in seen {} }
    Exact(h, root, methods, seen);
  }

  /** Checks one object and lists what it owns, one level deeper. */
  method Inspect(h: Heap, root: Object, slots: seq<MethodSlot>, value: Object, depth: nat)
    returns (r: Option<Refusal>, pushed: seq<Item>)
    requires Reachable(h, root, MethodSet(slots), value)
    ensures r.Some? ==> Justified(h, root, slots, r.value)
    ensures r.None? ==> Cleared(h, root, value) && |pushed| == |h.owned(value).value|
    ensures r.None? ==> forall i :: 0 <= i < |pushed| ==> pushed[i] == Item(h.owned(value).value[i], depth + 1)
  {
    if value != root && h.isBroker(value) { return Some(SecondBroker), []; }
    var children := h.owned(value);
    if children.None? { return Some(Uninspectable), []; }
    if |children.value| > MAX_NODES { return Some(TooManyChildren), []; }
    r := None;
    pushed := seq(|children.value|, i requires 0 <= i < |children.value| => Item(children.value[i], depth + 1));
  }

  /** What holds whenever the walk looks at its stack. */
  ghost predicate Walking(h: Heap, root: Object, methods: set<Object>, seen: set<Object>, stack: seq<Item>) {
    && StackMet(h, root, methods, seen, stack)
    && AllReachable(h, root, methods, seen)
    && Frontier(h, seen, stack)
    && (root in seen || OnStack(stack, root))
    && (forall m :: m in methods ==> m in seen || OnStack(stack, m))
    && (forall x :: x in seen ==> Cleared(h, root, x))
  }

  ghost predicate Cleared(h: Heap, root: Object, x: Object) {
    (x != root ==> !h.isBroker(x)) && h.owned(x).Some? && |h.owned(x).value| <= MAX_NODES
  }

  lemma SkipStep(h: Heap, root: Object, methods: set<Object>, seen: set<Object>, stack: seq<Item>)
    requires Walking(h, root, methods, seen, stack) && stack != [] && stack[|stack| - 1].value in seen
    ensures Walking(h, root, methods, seen, stack[..|stack| - 1])
  {
    PoppedStack(stack);
  }

  lemma ExpandStep(h: Heap, root: Object, methods: set<Object>, seen: set<Object>, stack: seq<Item>,
                   pushed: seq<Item>)
    requires Walking(h, root, methods, seen, stack) && stack != [] && stack[|stack| - 1].value !in seen
    requires Cleared(h, root, stack[|stack| - 1].value)
    requires var top := stack[|stack| - 1];
             && |pushed| == |h.owned(top.value).value|
             && forall i :: 0 <= i < |pushed| ==> pushed[i] == Item(h.owned(top.value).value[i], top.depth + 1)
    ensures Walking(h, root, methods, seen + {stack[|stack| - 1].value}, stack[..|stack| - 1] + pushed)
  {
    var rest, top := stack[..|stack| - 1], stack[|stack| - 1];
    PoppedStack(stack);
    assert StackMet(h, root, methods, seen, rest);
    assert MetThrough(h, root, methods, seen, top.value, top.depth);
    assert MetAt(h, root, methods, top.value, top.depth);
    assert Reachable(h, root, methods, top.value);
    PushChildren(h, root, methods, seen, rest, top.value, top.depth, pushed);
  }

  lemma StartMet(h: Heap, root: Object, methods: set<Object>, stack: seq<Item>)
    requires forall x, d: nat :: Item(x, d) in stack <==> (x == root && d == 0) || (x in methods && d == 1)
    ensures OnStack(stack, root) && forall m :: m in methods ==> OnStack(stack, m)
    ensures Walking(h, root, methods, {}, stack)
  {
    forall i | 0 <= i < |stack| ensures MetThrough(h, root, methods, {}, stack[i].value, stack[i].depth) {
      assert stack[i] in stack;
      assert Item(stack[i].value, stack[i].depth) in stack;
      assert MetBy(h, root, methods, stack[i].value, stack[i].depth, [stack[i].value]);
    }
    assert Item(root, 0) in stack;
    forall m | m in methods ensures OnStack(stack, m) { assert Item(m, 1) in stack; }
  }

  lemma PoppedStack(stack: seq<Item>)
    requires stack != []
    ensures forall x :: OnStack(stack, x) <==> OnStack(stack[..|stack| - 1], x) || x == stack[|stack| - 1].value
  {
    var rest := stack[..|stack| - 1];
    forall x | OnStack(rest, x) ensures OnStack(stack, x) {
      var i :| 0 <= i < |rest| && rest[i].value == x;
      assert stack[i].value == x;
    }
    forall x | OnStack(stack, x) && x != stack[|stack| - 1].value ensures OnStack(rest, x) {
      var i :| 0 <= i < |stack| && stack[i].value == x;
      assert rest[i].value == x;
    }
    assert stack[|stack| - 1].value == stack[|stack| - 1].value;
  }

  lemma PushChildren(h: Heap, root: Object, methods: set<Object>, seen: set<Object>, stack: seq<Item>, value: Object,
                     depth: nat, pushed: seq<Item>)
    requires StackMet(h, root, methods, seen, stack) && MetThrough(h, root, methods, seen, value, depth)
    requires value !in seen && h.owned(value).Some? && |pushed| == |h.owned(value).value|
    requires forall i :: 0 <= i < |pushed| ==> pushed[i] == Item(h.owned(value).value[i], depth + 1)
    ensures StackMet(h, root, methods, seen + {value}, stack + pushed)
    ensures forall x :: OnStack(stack, x) ==> OnStack(stack + pushed, x)
    ensures forall y :: Owns(h, value, y) ==> OnStack(stack + pushed, y)
  {
    var all := stack + pushed;
    forall i | 0 <= i < |all| ensures MetThrough(h, root, methods, seen + {value}, all[i].value, all[i].depth) {
      if i < |stack| {
        assert all[i] == stack[i];
        SeenMore(h, root, methods, seen, value, all[i].value, all[i].depth);
      } else {
        assert all[i] == pushed[i - |stack|];
        MetBelow(h, root, methods, seen, value, depth, all[i].value);
      }
    }
    forall x | OnStack(stack, x) ensures OnStack(all, x) {
      var i :| 0 <= i < |stack| && stack[i].value == x;
      assert all[i].value == x;
    }
    forall y | Owns(h, value, y) ensures OnStack(all, y) {
      var i :| 0 <= i < |pushed| && h.owned(value).value[i] == y;
      assert all[|stack| + i].value == y;
    }
  }

  lemma SeenMore(h: Heap, root: Object, methods: set<Object>, seen: set<Object>, more: Object, x: Object, depth: nat)
    requires MetThrough(h, root, methods, seen, x, depth)
    ensures MetThrough(h, root, methods, seen + {more}, x, depth)
  {
    var c :| MetBy(h, root, methods, x, depth, c) && DistinctOwners(c) && OwnersSeen(c, seen);
    assert OwnersSeen(c, seen + {more});
  }

  /** What a newly expanded object owns is met through owners that differ. */
  lemma MetBelow(h: Heap, root: Object, methods: set<Object>, seen: set<Object>, x: Object, depth: nat, y: Object)
    requires MetThrough(h, root, methods, seen, x, depth) && x !in seen && Owns(h, x, y)
    ensures MetThrough(h, root, methods, seen + {x}, y, depth + 1)
  {
    var c :| MetBy(h, root, methods, x, depth, c) && DistinctOwners(c) && OwnersSeen(c, seen);
    var d := c + [y];
    ChainGrows(h, c, y);
    assert MetBy(h, root, methods, y, depth + 1, d);
    forall i, j | 0 <= i < j < |d| - 1 ensures d[i] != d[j] { assert c[i] in seen; }
    assert OwnersSeen(d, seen + {x});
  }

  lemma ChainGrows(h: Heap, c: seq<Object>, y: Object)
    requires Chain(h, c) && Owns(h, c[|c| - 1], y)
    ensures Chain(h, c + [y])
  {
    var d := c + [y];
    forall i | 0 <= i < |d| - 1 ensures Owns(h, d[i], d[i + 1]) {
      if i < |c| - 1 { assert Owns(h, c[i], c[i + 1]); }
    }
  }

  /** Anything met deeper than the cap has something at cap plus one above it. */
  lemma ShallowerMet(h: Heap, root: Object, methods: set<Object>, seen: set<Object>, x: Object, depth: nat)
    requires MetThrough(h, root, methods, seen, x, depth) && depth > MAX_DEPTH
    ensures exists y, d :: MetTooDeep(h, root, methods, y, d)
  {
    var c :| MetBy(h, root, methods, x, depth, c) && DistinctOwners(c) && OwnersSeen(c, seen);
    var n := |c| - (depth - (MAX_DEPTH + 1));
    var d := c[..n];
    forall i | 0 <= i < |d| - 1 ensures Owns(h, d[i], d[i + 1]) { assert Owns(h, c[i], c[i + 1]); }
    assert MetBy(h, root, methods, d[|d| - 1], MAX_DEPTH + 1, d);
    assert MetTooDeep(h, root, methods, d[|d| - 1], d);
  }

  lemma Exact(h: Heap, root: Object, methods: set<Object>, seen: set<Object>)
    requires root in seen && methods <= seen && AllReachable(h, root, methods, seen)
    requires forall x, y :: x in seen && Owns(h, x, y) ==> y in seen
    ensures forall x :: x in seen <==> Reachable(h, root, methods, x)
  {
    forall x | Reachable(h, root, methods, x) ensures x in seen {
      var depth :| MetAt(h, root, methods, x, depth);
      var c :| MetBy(h, root, methods, x, depth, c);
      ClosedHoldsChain(h, seen, c);
    }
  }
}

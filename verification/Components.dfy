/**
 * Constraint-connected components (ManifoldOptimizer): a stack-based depth-first search that
 * erases the keys it meets from a key set shared by all searches.
 */
module Components {
  import opened Prelude

  /** An equality constraint, seen from the graph search: its variables and its dimension. */
  datatype Constraint = Constraint(keys: seq<Key>, dim: nat)

  type Constraints = seq<Constraint>

  /** A component: the indices of its constraints and all their keys. */
  datatype Component = Component(indices: set<nat>, keys: set<Key>)

  /** Constraint `i` mentions key `k`. */
  predicate Touches(cs: Constraints, i: nat, k: Key) {
    i < |cs| && k in cs[i].keys
  }

  ghost predicate TouchesAny(cs: Constraints, i: nat, keys: set<Key>) {
    exists k :: k in keys && Touches(cs, i, k)
  }

  /** The keys of the constraints with the given indices. */
  function KeysOf(cs: Constraints, indices: set<nat>): set<Key> {
    set i, k | i in indices && i < |cs| && k in cs[i].keys :: k
  }

  function AllKeys(cs: Constraints): set<Key> {
    set i, k | 0 <= i < |cs| && k in cs[i].keys :: k
  }

  lemma InKeysOf(cs: Constraints, indices: set<nat>, k: Key)
    ensures k in KeysOf(cs, indices) <==> exists i :: i in indices && Touches(cs, i, k)
  {
    if i :| i in indices && Touches(cs, i, k) {
      assert i in indices && i < |cs| && k in cs[i].keys;
    }
    if k in KeysOf(cs, indices) {
      var i :| i in indices && i < |cs| && k in cs[i].keys;
      assert Touches(cs, i, k);
    }
  }

  lemma InAllKeys(cs: Constraints, k: Key)
    ensures k in AllKeys(cs) <==> exists i: nat :: Touches(cs, i, k)
  {
    if i: nat :| Touches(cs, i, k) {
      assert 0 <= i < |cs| && k in cs[i].keys;
    }
    if k in AllKeys(cs) {
      var i :| 0 <= i < |cs| && k in cs[i].keys;
      assert Touches(cs, i, k);
    }
  }

  /** The variable index: which constraints mention a key, in order. */
  function IndicesOf(cs: Constraints, key: Key): (r: seq<nat>)
    ensures forall i: nat :: i in r <==> Touches(cs, i, key)
  {
    IndicesBelow(cs, key, |cs|)
  }

  function IndicesBelow(cs: Constraints, key: Key, n: nat): (r: seq<nat>)
    requires n <= |cs|
    ensures forall i: nat :: i in r <==> i < n && Touches(cs, i, key)
  {
    if n == 0 then []
    else IndicesBelow(cs, key, n - 1) + (if key in cs[n - 1].keys then [n - 1] else [])
  }

  // ---------------------------------------------------------------------------------------
  // Connectivity, defined without reference to the search

  ghost predicate Adjacent(cs: Constraints, a: Key, b: Key) {
    exists i: nat :: Touches(cs, i, a) && Touches(cs, i, b)
  }

  ghost predicate IsPath(cs: Constraints, p: seq<Key>) {
    |p| > 0 && forall n :: 0 <= n < |p| - 1 ==> Adjacent(cs, p[n], p[n + 1])
  }

  ghost predicate PathFromTo(cs: Constraints, a: Key, b: Key, p: seq<Key>) {
    IsPath(cs, p) && p[0] == a && p[|p| - 1] == b
  }

  ghost predicate Linked(cs: Constraints, a: Key, b: Key) {
    exists p :: PathFromTo(cs, a, b, p)
  }

  ghost predicate ShareKey(cs: Constraints, i: nat, j: nat) {
    exists k :: Touches(cs, i, k) && Touches(cs, j, k)
  }

  /** A chain of constraints in which every two neighbours share a key. */
  ghost predicate IsChain(cs: Constraints, c: seq<nat>) {
    && |c| > 0
    && (forall n :: 0 <= n < |c| ==> c[n] < |cs|)
    && (forall n :: 0 <= n < |c| - 1 ==> ShareKey(cs, c[n], c[n + 1]))
  }

  ghost predicate ChainFromTo(cs: Constraints, i: nat, j: nat, c: seq<nat>) {
    IsChain(cs, c) && c[0] == i && c[|c| - 1] == j
  }

  ghost predicate ChainLinked(cs: Constraints, i: nat, j: nat) {
    exists c :: ChainFromTo(cs, i, j, c)
  }

  /** A key set that no constraint straddles: a union of whole components. */
  ghost predicate Closed(cs: Constraints, keys: set<Key>) {
    forall i: nat, a, b :: Touches(cs, i, a) && Touches(cs, i, b) && a in keys ==> b in keys
  }

  /** The component of `start`, by its meaning. */
  ghost predicate IsComponentOf(cs: Constraints, start: Key, c: Component) {
    && (forall k :: k in c.keys <==> Linked(cs, start, k))
    && (forall i: nat :: i in c.indices <==> TouchesAny(cs, i, c.keys))
  }

  lemma LinkedReflexive(cs: Constraints, a: Key)
    ensures Linked(cs, a, a)
  {
    assert PathFromTo(cs, a, a, [a]);
  }

  lemma LinkedStep(cs: Constraints, a: Key, b: Key, c: Key)
    requires Linked(cs, a, b) && Adjacent(cs, b, c)
    ensures Linked(cs, a, c)
  {
    var p :| PathFromTo(cs, a, b, p);
    assert PathFromTo(cs, a, c, p + [c]);
  }

  /** A closed set that contains the start of a path contains its end. */
  lemma {:induction false} ClosedAlongPath(cs: Constraints, keys: set<Key>, p: seq<Key>)
    requires Closed(cs, keys) && IsPath(cs, p) && p[0] in keys
    ensures p[|p| - 1] in keys
  {
    if |p| > 1 {
      assert Adjacent(cs, p[0], p[1]);
      assert IsPath(cs, p[1..]) by {
        forall n | 0 <= n < |p[1..]| - 1 ensures Adjacent(cs, p[1..][n], p[1..][n + 1]) {
          assert Adjacent(cs, p[n + 1], p[n + 2]);
        }
      }
      ClosedAlongPath(cs, keys, p[1..]);
    }
  }

  // ---------------------------------------------------------------------------------------
  // The search

  /** Key `v` has been processed: its constraints are collected and their keys erased. */
  ghost predicate Done(cs: Constraints, v: Key, remaining: set<Key>, indices: set<nat>) {
    forall i: nat, u :: Touches(cs, i, v) && Touches(cs, i, u) ==> i in indices && u !in remaining
  }

  /** What the loop keeps: every erased key is linked to the start, and waits on the stack or is done. */
  ghost predicate Searching(cs: Constraints, start: Key, all: set<Key>, remaining: set<Key>,
                            stack: seq<Key>, indices: set<nat>)
  {
    && start in all - remaining && remaining <= all
    && (forall k :: k in stack ==> k in all - remaining)
    && (forall v :: v in all - remaining ==> Linked(cs, start, v))
    && (forall v :: v in all - remaining && v !in stack ==> Done(cs, v, remaining, indices))
    && (forall i :: i in indices ==> TouchesAny(cs, i, all - remaining))
  }

  /**
   * Depth-first search from `start`, erasing the keys of its component from `keys`.
   * `remaining` is the caller's key set after the call.
   */
  method FindConnectedComponent(cs: Constraints, start: Key, keys: set<Key>)
    returns (component: Component, remaining: set<Key>)
    requires start in AllKeys(cs)
    requires start !in keys && Closed(cs, keys + {start})
    ensures IsComponentOf(cs, start, component)
    ensures start in component.keys
    ensures remaining == keys - component.keys && component.keys <= keys + {start}
    ensures Closed(cs, remaining)
  {
    ghost var all := keys + {start};
    remaining := keys;
    var indices: set<nat> := {};
    var stack := [start];
    LinkedReflexive(cs, start);
    while stack != []
      invariant Searching(cs, start, all, remaining, stack, indices) && remaining <= keys
      decreases |remaining| + |stack|
    {
      var key, rest := stack[|stack| - 1], stack[..|stack| - 1];
      assert stack == rest + [key];
      var remaining', stack', indices' := Visit(cs, start, key, remaining, rest, indices);
      VisitKeepsSearching(cs, start, all, key, remaining, rest, indices, remaining', stack', indices');
      remaining, stack, indices := remaining', stack', indices';
    }
    SearchIsComplete(cs, start, all, remaining, indices);
    component := Component(indices, KeysOf(cs, indices));
  }

  /** What one turn of the search loop does. */
  ghost predicate Visited(cs: Constraints, start: Key, key: Key,
                          remaining: set<Key>, stack: seq<Key>, indices: set<nat>,
                          remaining': set<Key>, stack': seq<Key>, indices': set<nat>)
  {
    && remaining' <= remaining && |remaining'| + |stack'| == |remaining| + |stack|
    && (forall k :: k in stack' <==> k in stack || k in remaining - remaining')
    && (forall v :: v in remaining - remaining' ==> Adjacent(cs, key, v))
    && indices <= indices'
    && (forall i :: i in indices' ==> i in indices || Touches(cs, i, key))
  }

  /** One turn of the search loop: collect the constraints on `key` and push their unseen keys. */
  method Visit(cs: Constraints, start: Key, key: Key, remaining0: set<Key>, stack0: seq<Key>, indices0: set<nat>)
    returns (remaining: set<Key>, stack: seq<Key>, indices: set<nat>)
    ensures Visited(cs, start, key, remaining0, stack0, indices0, remaining, stack, indices)
    ensures Done(cs, key, remaining, indices)
  {
    remaining, stack, indices := remaining0, stack0, indices0;
    var touching := IndicesOf(cs, key);
    for n := 0 to |touching|
      invariant Visited(cs, start, key, remaining0, stack0, indices0, remaining, stack, indices)
      invariant forall m :: 0 <= m < n ==> touching[m] in indices
      invariant forall m, u :: 0 <= m < n && Touches(cs, touching[m], u) ==> u !in remaining
    {
      var i := touching[n];
      assert i in touching;
      indices := indices + {i};
      ghost var before := remaining;
      remaining, stack := EraseNeighbours(cs[i].keys, remaining, stack);
      forall v | v in before - remaining ensures Adjacent(cs, key, v) {
        assert Touches(cs, i, key) && Touches(cs, i, v);
      }
    }
  }

  /** The innermost loop: every key of the constraint still in the set moves to the stack. */
  method EraseNeighbours(neighbours: seq<Key>, remaining0: set<Key>, stack0: seq<Key>)
    returns (remaining: set<Key>, stack: seq<Key>)
    ensures remaining == remaining0 - Elements(neighbours)
    ensures |remaining| + |stack| == |remaining0| + |stack0|
    ensures forall k :: k in stack <==> k in stack0 || k in remaining0 - remaining
  {
    remaining, stack := remaining0, stack0;
    for m := 0 to |neighbours|
      invariant remaining == remaining0 - Elements(neighbours[..m])
      invariant |remaining| + |stack| == |remaining0| + |stack0|
      invariant forall k :: k in stack <==> k in stack0 || k in remaining0 - remaining
    {
      if neighbours[m] in remaining {
        remaining := remaining - {neighbours[m]};
        stack := stack + [neighbours[m]];
      }
      assert neighbours[..m + 1] == neighbours[..m] + [neighbours[m]];
    }
    assert neighbours[..|neighbours|] == neighbours;
  }

  lemma VisitKeepsSearching(cs: Constraints, start: Key, all: set<Key>, key: Key,
                            remaining: set<Key>, rest: seq<Key>, indices: set<nat>,
                            remaining': set<Key>, stack': seq<Key>, indices': set<nat>)
    requires Searching(cs, start, all, remaining, rest + [key], indices)
    requires Visited(cs, start, key, remaining, rest, indices, remaining', stack', indices')
    requires Done(cs, key, remaining', indices')
    ensures Searching(cs, start, all, remaining', stack', indices')
  {
    assert forall k :: k in rest + [key] <==> k in rest || k == key;
    assert key in rest + [key];
    forall v | v in all - remaining' ensures Linked(cs, start, v) {
      if v in remaining {
        LinkedStep(cs, start, key, v);
      }
    }
    forall v | v in all - remaining' && v !in stack' ensures Done(cs, v, remaining', indices') {
      assert v in all - remaining;
      if v != key {
        assert v !in rest + [key];
        assert Done(cs, v, remaining, indices);
      }
    }
    forall i | i in indices' ensures TouchesAny(cs, i, all - remaining') {
      if i in indices {
        var k :| k in all - remaining && Touches(cs, i, k);
        assert k in all - remaining';
      } else {
        assert key in all - remaining';
      }
    }
  }

  /** With an empty stack, the erased keys are exactly those linked to the start. */
  lemma SearchIsComplete(cs: Constraints, start: Key, all: set<Key>, remaining: set<Key>, indices: set<nat>)
    requires start in AllKeys(cs) && Closed(cs, all)
    requires Searching(cs, start, all, remaining, [], indices)
    ensures KeysOf(cs, indices) == all - remaining
    ensures IsComponentOf(cs, start, Component(indices, KeysOf(cs, indices)))
    ensures Closed(cs, remaining)
  {
    var seen := all - remaining;
    SeenIsClosed(cs, start, all, remaining, indices);
    forall k ensures k in seen <==> Linked(cs, start, k) {
      if Linked(cs, start, k) {
        var p :| PathFromTo(cs, start, k, p);
        ClosedAlongPath(cs, seen, p);
      }
    }
    forall i: nat ensures i in indices <==> TouchesAny(cs, i, seen) {
      if TouchesAny(cs, i, seen) {
        var k :| k in seen && Touches(cs, i, k);
        assert Done(cs, k, remaining, indices);
      }
    }
    forall k ensures k in KeysOf(cs, indices) <==> k in seen {
      InKeysOf(cs, indices, k);
      if k in seen {
        EveryLinkedKeyIsTouched(cs, start, k);
        var i: nat :| Touches(cs, i, k);
        assert Done(cs, k, remaining, indices);
      }
      if i :| i in indices && Touches(cs, i, k) {
        assert TouchesAny(cs, i, seen);
      }
    }
  }

  lemma SeenIsClosed(cs: Constraints, start: Key, all: set<Key>, remaining: set<Key>, indices: set<nat>)
    requires Closed(cs, all) && Searching(cs, start, all, remaining, [], indices)
    ensures Closed(cs, all - remaining) && Closed(cs, remaining)
  {
    forall i: nat, a, b | Touches(cs, i, a) && Touches(cs, i, b) && a in all - remaining ensures b in all - remaining {
      assert Done(cs, a, remaining, indices);
    }
  }

  lemma EveryLinkedKeyIsTouched(cs: Constraints, start: Key, k: Key)
    requires start in AllKeys(cs) && Linked(cs, start, k)
    ensures k in AllKeys(cs) && exists i: nat :: Touches(cs, i, k)
  {
    var p :| PathFromTo(cs, start, k, p);
    if |p| > 1 {
      assert Adjacent(cs, p[|p| - 2], p[|p| - 2 + 1]);
      var i: nat :| Touches(cs, i, p[|p| - 2]) && Touches(cs, i, k);
      InAllKeys(cs, k);
    } else {
      InAllKeys(cs, k);
    }
  }

  // ---------------------------------------------------------------------------------------
  // All components

  ghost predicate IsComponent(cs: Constraints, c: Component) {
    exists s :: s in c.keys && IsComponentOf(cs, s, c)
  }

  /** Component number `n` holds key `k`. */
  ghost predicate Holds(comps: seq<Component>, n: nat, k: Key) {
    n < |comps| && k in comps[n].keys
  }

  ghost predicate KeyHeld(comps: seq<Component>, k: Key) {
    exists n: nat :: Holds(comps, n, k)
  }

  ghost predicate Disjoint(comps: seq<Component>) {
    forall m: nat, n: nat, k :: Holds(comps, m, k) && Holds(comps, n, k) ==> m == n
  }

  /** The components are components, and every key of `covered` is in exactly one of them. */
  ghost predicate IsDecomposition(cs: Constraints, comps: seq<Component>, covered: set<Key>) {
    && (forall c :: c in comps ==> IsComponent(cs, c))
    && (forall k :: k in covered <==> KeyHeld(comps, k))
    && Disjoint(comps)
  }

  /** Repeats the search from the first remaining key until no key is left. */
  method IdentifyConnectedComponents(cs: Constraints) returns (comps: seq<Component>)
    ensures IsDecomposition(cs, comps, AllKeys(cs))
  {
    var keys := AllKeys(cs);
    comps := [];
    while keys != {}
      invariant keys <= AllKeys(cs) && Closed(cs, keys)
      invariant IsDecomposition(cs, comps, AllKeys(cs) - keys)
      decreases keys
    {
      var key := MinKey(keys);
      assert keys - {key} + {key} == keys;
      var component, remaining := FindConnectedComponent(cs, key, keys - {key});
      assert IsComponent(cs, component);
      ExtendDecomposition(cs, comps, keys, component);
      assert remaining == keys - component.keys;
      comps := comps + [component];
      keys := remaining;
    }
    assert AllKeys(cs) - {} == AllKeys(cs);
  }

  lemma ExtendDecomposition(cs: Constraints, comps: seq<Component>, keys: set<Key>, component: Component)
    requires keys <= AllKeys(cs)
    requires IsDecomposition(cs, comps, AllKeys(cs) - keys)
    requires IsComponent(cs, component) && component.keys <= keys
    ensures IsDecomposition(cs, comps + [component], AllKeys(cs) - (keys - component.keys))
  {
    var all := comps + [component];
    forall n: nat, k ensures Holds(all, n, k) <==> Holds(comps, n, k) || (n == |comps| && k in component.keys) {
    }
    forall k ensures k in AllKeys(cs) - (keys - component.keys) <==> KeyHeld(all, k) {
      HeldAfterAppend(comps, component, k);
    }
    forall m: nat, n: nat, k | Holds(all, m, k) && Holds(all, n, k) ensures m == n {
      if Holds(comps, m, k) || Holds(comps, n, k) {
        assert KeyHeld(comps, k);
      }
    }
  }

  lemma HeldAfterAppend(comps: seq<Component>, component: Component, k: Key)
    ensures KeyHeld(comps + [component], k) <==> KeyHeld(comps, k) || k in component.keys
  {
    var all := comps + [component];
    if KeyHeld(comps, k) {
      var n: nat :| Holds(comps, n, k);
      assert Holds(all, n, k);
    }
    if k in component.keys {
      assert Holds(all, |comps|, k);
    }
    if KeyHeld(all, k) {
      var n: nat :| Holds(all, n, k);
      assert n < |comps| ==> Holds(comps, n, k);
    }
  }

  // ---------------------------------------------------------------------------------------
  // What the decomposition means for constraints

  /** A component's key set is closed, and so are its members under sharing a key. */
  lemma ComponentIsClosed(cs: Constraints, s: Key, c: Component)
    requires IsComponentOf(cs, s, c)
    ensures Closed(cs, c.keys)
    ensures forall i, k :: i in c.indices && Touches(cs, i, k) ==> k in c.keys
  {
    forall i: nat, a, b | Touches(cs, i, a) && Touches(cs, i, b) && a in c.keys ensures b in c.keys {
      assert Adjacent(cs, a, b);
      LinkedStep(cs, s, a, b);
    }
    forall i, k | i in c.indices && Touches(cs, i, k) ensures k in c.keys {
      var a :| a in c.keys && Touches(cs, i, a);
    }
  }

  lemma NeighbourInComponent(cs: Constraints, s: Key, c: Component, i: nat, j: nat)
    requires IsComponentOf(cs, s, c) && i in c.indices && j < |cs| && ShareKey(cs, i, j)
    ensures j in c.indices
  {
    ComponentIsClosed(cs, s, c);
    var k :| Touches(cs, i, k) && Touches(cs, j, k);
    assert k in c.keys;
  }

  lemma {:induction false} ChainStaysInComponent(cs: Constraints, s: Key, c: Component, chain: seq<nat>)
    requires IsComponentOf(cs, s, c) && IsChain(cs, chain) && chain[0] in c.indices
    ensures chain[|chain| - 1] in c.indices
  {
    if |chain| > 1 {
      assert ShareKey(cs, chain[0], chain[1]);
      NeighbourInComponent(cs, s, c, chain[0], chain[1]);
      var rest := chain[1..];
      assert IsChain(cs, rest) by {
        forall n | 0 <= n < |rest| - 1 ensures ShareKey(cs, rest[n], rest[n + 1]) {
          assert ShareKey(cs, chain[n + 1], chain[n + 2]);
        }
      }
      ChainStaysInComponent(cs, s, c, rest);
    }
  }

  /** A key path read backwards is a key path. */
  lemma LinkedSymmetric(cs: Constraints, a: Key, b: Key)
    requires Linked(cs, a, b)
    ensures Linked(cs, b, a)
  {
    var p :| PathFromTo(cs, a, b, p);
    var r := seq(|p|, n requires 0 <= n < |p| => p[|p| - 1 - n]);
    forall n | 0 <= n < |r| - 1 ensures Adjacent(cs, r[n], r[n + 1]) {
      assert Adjacent(cs, p[|p| - 2 - n], p[|p| - 2 - n + 1]);
    }
    assert PathFromTo(cs, b, a, r);
  }

  lemma LinkedTransitive(cs: Constraints, a: Key, b: Key, c: Key)
    requires Linked(cs, a, b) && Linked(cs, b, c)
    ensures Linked(cs, a, c)
  {
    var p :| PathFromTo(cs, a, b, p);
    var q :| PathFromTo(cs, b, c, q);
    var r := p + q[1..];
    forall n | 0 <= n < |r| - 1 ensures Adjacent(cs, r[n], r[n + 1]) {
      if n < |p| - 1 {
        assert Adjacent(cs, p[n], p[n + 1]);
      } else {
        assert Adjacent(cs, q[n - |p| + 1], q[n - |p| + 2]);
      }
    }
    assert PathFromTo(cs, a, c, r);
  }

  /** Two constraints whose keys are linked by a key path are linked by a constraint chain. */
  lemma {:induction false} PathGivesChain(cs: Constraints, p: seq<Key>, i: nat, j: nat)
    requires IsPath(cs, p) && Touches(cs, i, p[0]) && Touches(cs, j, p[|p| - 1])
    ensures ChainLinked(cs, i, j)
  {
    if |p| == 1 {
      assert ShareKey(cs, i, j);
      assert ChainFromTo(cs, i, j, [i, j]);
    } else {
      assert Adjacent(cs, p[0], p[0 + 1]);
      var m: nat :| Touches(cs, m, p[0]) && Touches(cs, m, p[1]);
      var rest := p[1..];
      assert IsPath(cs, rest) by {
        forall n | 0 <= n < |rest| - 1 ensures Adjacent(cs, rest[n], rest[n + 1]) {
          assert Adjacent(cs, p[n + 1], p[n + 1 + 1]);
        }
      }
      PathGivesChain(cs, rest, m, j);
      assert ShareKey(cs, i, m);
      ChainPrepend(cs, i, m, j);
    }
  }

  lemma ChainPrepend(cs: Constraints, i: nat, m: nat, j: nat)
    requires i < |cs| && ShareKey(cs, i, m) && ChainLinked(cs, m, j)
    ensures ChainLinked(cs, i, j)
  {
    var c :| ChainFromTo(cs, m, j, c);
    var d := [i] + c;
    forall n | 0 <= n < |d| - 1 ensures ShareKey(cs, d[n], d[n + 1]) {
      if n > 0 { assert ShareKey(cs, c[n - 1], c[n - 1 + 1]); }
    }
    assert ChainFromTo(cs, i, j, d);
  }

  /**
   * Two constraints are in the same component exactly when a chain of constraints,
   * each sharing a key with the next, leads from one to the other.
   */
  lemma SameComponentIffChainLinked(cs: Constraints, comps: seq<Component>, n: nat, i: nat, j: nat)
    requires IsDecomposition(cs, comps, AllKeys(cs))
    requires n < |comps| && i in comps[n].indices
    ensures j in comps[n].indices <==> ChainLinked(cs, i, j)
  {
    var c := comps[n];
    assert IsComponent(cs, c);
    var s :| s in c.keys && IsComponentOf(cs, s, c);
    if ChainLinked(cs, i, j) {
      var chain :| ChainFromTo(cs, i, j, chain);
      ChainStaysInComponent(cs, s, c, chain);
    }
    if j in c.indices {
      var a :| a in c.keys && Touches(cs, i, a);
      var b :| b in c.keys && Touches(cs, j, b);
      LinkedSymmetric(cs, s, a);
      LinkedTransitive(cs, a, s, b);
      var p :| PathFromTo(cs, a, b, p);
      PathGivesChain(cs, p, i, j);
    }
  }

  /** A constraint with a key is in exactly one component, with all its keys. */
  lemma EveryConstraintInExactlyOneComponent(cs: Constraints, comps: seq<Component>, i: nat)
    requires IsDecomposition(cs, comps, AllKeys(cs))
    requires i < |cs| && cs[i].keys != []
    ensures exists n: nat :: n < |comps| && i in comps[n].indices && Elements(cs[i].keys) <= comps[n].keys
    ensures forall m, n :: 0 <= m < |comps| && 0 <= n < |comps| && i in comps[m].indices && i in comps[n].indices ==>
      m == n
  {
    var k := cs[i].keys[0];
    assert Touches(cs, i, k);
    InAllKeys(cs, k);
    assert KeyHeld(comps, k);
    var n: nat :| Holds(comps, n, k);
    assert IsComponent(cs, comps[n]);
    var s :| s in comps[n].keys && IsComponentOf(cs, s, comps[n]);
    assert i in comps[n].indices;
    forall m | 0 <= m < |comps| && i in comps[m].indices
      ensures Elements(cs[i].keys) <= comps[m].keys
      ensures m == n
    {
      ConstraintKeysInComponent(cs, comps, m, i);
      assert Holds(comps, m, k);
    }
  }

  lemma ConstraintKeysInComponent(cs: Constraints, comps: seq<Component>, n: nat, i: nat)
    requires forall c :: c in comps ==> IsComponent(cs, c)
    requires n < |comps| && i in comps[n].indices
    ensures i < |cs| && cs[i].keys != [] && Elements(cs[i].keys) <= comps[n].keys
  {
    assert IsComponent(cs, comps[n]);
    var s :| s in comps[n].keys && IsComponentOf(cs, s, comps[n]);
    ComponentIsClosed(cs, s, comps[n]);
    forall k | k in cs[i].keys ensures k in comps[n].keys {
      assert Touches(cs, i, k);
    }
  }

  /** The key set of a component is what its constraints mention. */
  lemma ComponentKeysComeFromItsConstraints(cs: Constraints, comps: seq<Component>, n: nat)
    requires IsDecomposition(cs, comps, AllKeys(cs)) && n < |comps|
    ensures comps[n].keys == KeysOf(cs, comps[n].indices)
  {
    var c := comps[n];
    assert IsComponent(cs, c);
    var s :| s in c.keys && IsComponentOf(cs, s, c);
    ComponentIsClosed(cs, s, c);
    forall k ensures k in c.keys <==> k in KeysOf(cs, c.indices) {
      InKeysOf(cs, c.indices, k);
      if k in c.keys {
        assert Holds(comps, n, k);
        assert KeyHeld(comps, k);
        InAllKeys(cs, k);
        var i :| Touches(cs, i, k);
        assert i in c.indices;
      }
    }
  }
}

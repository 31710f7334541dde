/**
 * Building the transformed problem from an equality-constrained one, and reading its solution
 * back (ManifoldOptimizerType1 and the problem object it fills).
 */
module ManifoldOptimizer {
  import opened Prelude
  import opened LinearAlgebra
  import opened Factors
  import opened Substitute
  import opened ManifoldProblem
  import opened Components

  datatype ConstrainedProblem = ConstrainedProblem(costs: seq<Factor>, constraints: Constraints, values: Values)

  /** How a constraint manifold is made from a component; the numerical parts are arbitrary. */
  datatype ManifoldParams = ManifoldParams(
    retractInit: bool,
    retract: (Component, Values) -> Values,
    dimOf: Value -> nat,
    recover: (Component, Values) -> map<Key, Matrix>)

  /** Retraction moves the values of this component but keeps its variables. */
  ghost predicate KeepsKeysOf(params: ManifoldParams, c: Component) {
    forall v: Values :: v.Keys == c.keys ==> params.retract(c, v).Keys == c.keys
  }

  ghost predicate AllKeepKeys(params: ManifoldParams, comps: seq<Component>) {
    forall c :: c in comps ==> KeepsKeysOf(params, c)
  }

  /** Retraction does so for every component of the constraints. */
  ghost predicate KeepsKeys(params: ManifoldParams, cs: Constraints) {
    forall c :: IsComponent(cs, c) ==> KeepsKeysOf(params, c)
  }

  function EmbeddingDim(values: Values, dimOf: Value -> nat): nat
    decreases |values|
  {
    if values == map[] then 0
    else
      var k := MinKey(values.Keys);
      assert |values - {k}| < |values|;
      dimOf(values[k]) + EmbeddingDim(values - {k}, dimOf)
  }

  function ConstraintDim(cs: Constraints, indices: set<nat>): nat {
    if cs == [] then 0
    else ConstraintDim(cs[..|cs| - 1], indices) + (if |cs| - 1 in indices then cs[|cs| - 1].dim else 0)
  }

  /** Each variable adds its own dimension, whatever the order in which they are counted. */
  lemma {:induction false} OneMoreVariable(values: Values, dimOf: Value -> nat, k: Key, v: Value)
    requires k !in values
    ensures EmbeddingDim(map[], dimOf) == 0
    ensures EmbeddingDim(values[k := v], dimOf) == dimOf(v) + EmbeddingDim(values, dimOf)
    decreases |values|
  {
    var more := values[k := v];
    assert k in more.Keys && more != map[];
    var first := MinKey(more.Keys);
    if first == k {
      assert more - {k} == values;
    } else {
      assert first in values.Keys && values != map[];
      assert forall j :: j in values.Keys ==> j in more.Keys;
      assert MinKey(values.Keys) == first;
      OneMoreVariable(values - {first}, dimOf, k, v);
      assert more - {first} == (values - {first})[k := v];
    }
  }

  /** Each constraint of a component adds its own dimension. */
  lemma {:induction false} OneMoreConstraint(cs: Constraints, indices: set<nat>, i: nat)
    requires i < |cs| && i !in indices
    ensures ConstraintDim(cs, {}) == 0
    ensures ConstraintDim(cs, indices + {i}) == cs[i].dim + ConstraintDim(cs, indices)
  {
    var n := |cs| - 1;
    if i < n {
      OneMoreConstraint(cs[..n], indices, i);
    } else {
      SameBelow(cs[..n], indices, indices + {i});
      NothingCounted(cs[..n]);
    }
  }

  lemma {:induction false} SameBelow(cs: Constraints, a: set<nat>, b: set<nat>)
    requires forall i :: 0 <= i < |cs| ==> (i in a <==> i in b)
    ensures ConstraintDim(cs, a) == ConstraintDim(cs, b)
  {
    if cs != [] {
      SameBelow(cs[..|cs| - 1], a, b);
    }
  }

  lemma {:induction false} NothingCounted(cs: Constraints)
    ensures ConstraintDim(cs, {}) == 0
  {
    if cs != [] {
      NothingCounted(cs[..|cs| - 1]);
    }
  }

  /** The constraint manifold of a component, through the given values. */
  function MakePoint(cs: Constraints, params: ManifoldParams, c: Component, start: Values): ManifoldValue {
    var values := if params.retractInit then params.retract(c, start) else start;
    var embedding, constrained := EmbeddingDim(values, params.dimOf), ConstraintDim(cs, c.indices);
    ManifoldValue(values, if embedding > constrained then embedding - constrained else 0, params.recover(c, values))
  }

  /** The manifold of a component through the problem's initial values. */
  function PointOf(ec: ConstrainedProblem, params: ManifoldParams, c: Component): ManifoldValue {
    MakePoint(ec.constraints, params, c, Restrict(ec.values, c.keys))
  }

  /** The manifolds of the components, each under its component's first key. */
  function Points(ec: ConstrainedProblem, params: ManifoldParams, comps: seq<Component>): Manifolds
    requires forall c :: c in comps ==> c.keys != {}
  {
    if comps == [] then map[]
    else
      var c := comps[|comps| - 1];
      Points(ec, params, comps[..|comps| - 1])[MinKey(c.keys) := PointOf(ec, params, c)]
  }

  function FreePoints(p: Manifolds): MixedValues {
    map m | m in p && p[m].dim > 0 :: OnManifold(p[m])
  }

  function FixedPoints(p: Manifolds): Manifolds {
    map m | m in p && p[m].dim == 0 :: p[m]
  }

  /** Plain values as values of the transformed problem. */
  function FreeValues(values: Values, keys: set<Key>): MixedValues {
    map k | k in keys && k in values :: Free(values[k])
  }

  /** The manifold variable of each constrained key. */
  function HomeOf(comps: seq<Component>): map<Key, Key>
    requires forall c :: c in comps ==> c.keys != {}
  {
    if comps == [] then map[]
    else
      var c := comps[|comps| - 1];
      HomeOf(comps[..|comps| - 1]) + map k | k in c.keys :: MinKey(c.keys)
  }

  ghost predicate ProperComponents(comps: seq<Component>) {
    Disjoint(comps) && forall c :: c in comps ==> c.keys != {}
  }

  lemma DecompositionIsProper(cs: Constraints, comps: seq<Component>)
    requires IsDecomposition(cs, comps, AllKeys(cs))
    ensures ProperComponents(comps)
    ensures forall k :: KeyHeld(comps, k) <==> k in AllKeys(cs)
  {
    forall c | c in comps ensures c.keys != {} {
      assert IsComponent(cs, c);
    }
  }

  lemma ProperPrefix(comps: seq<Component>, i: nat)
    requires ProperComponents(comps) && i <= |comps|
    ensures ProperComponents(comps[..i])
  {
    forall m: nat, n: nat, k | Holds(comps[..i], m, k) && Holds(comps[..i], n, k) ensures m == n {
      assert Holds(comps, m, k) && Holds(comps, n, k);
    }
  }

  /** Each key's home is the first key of the one component that holds it. */
  lemma {:induction false} HomeIsFirstKey(comps: seq<Component>, k: Key)
    requires ProperComponents(comps)
    ensures k in HomeOf(comps) <==> KeyHeld(comps, k)
    ensures forall n: nat :: Holds(comps, n, k) ==> HomeOf(comps)[k] == MinKey(comps[n].keys)
  {
    if comps != [] {
      var before, c := comps[..|comps| - 1], comps[|comps| - 1];
      assert comps == before + [c];
      ProperPrefix(comps, |comps| - 1);
      HomeIsFirstKey(before, k);
      HeldAfterAppend(before, c, k);
      forall n: nat | Holds(comps, n, k) ensures HomeOf(comps)[k] == MinKey(comps[n].keys) {
        if n < |before| {
          assert Holds(before, n, k);
          assert !Holds(comps, |comps| - 1, k);
        }
      }
    }
  }

  /** Distinct components have distinct first keys, so no manifold overwrites another. */
  lemma FirstKeysDiffer(comps: seq<Component>, m: nat, n: nat)
    requires ProperComponents(comps) && m < |comps| && n < |comps|
    requires comps[m] in comps && comps[n] in comps
    ensures MinKey(comps[m].keys) == MinKey(comps[n].keys) ==> m == n
  {
    if MinKey(comps[m].keys) == MinKey(comps[n].keys) {
      assert Holds(comps, m, MinKey(comps[m].keys)) && Holds(comps, n, MinKey(comps[m].keys));
    }
  }

  /** The first key of component `n` is `m`. */
  ghost predicate IsFirstKey(comps: seq<Component>, n: nat, m: Key) {
    n < |comps| && comps[n].keys != {} && m == MinKey(comps[n].keys)
  }

  /** Every component has its manifold. */
  lemma {:induction false} ComponentsHavePoints(ec: ConstrainedProblem, params: ManifoldParams, comps: seq<Component>)
    requires ProperComponents(comps)
    ensures forall n :: 0 <= n < |comps| ==>
      && MinKey(comps[n].keys) in Points(ec, params, comps)
      && Points(ec, params, comps)[MinKey(comps[n].keys)] == PointOf(ec, params, comps[n])
  {
    if comps != [] {
      var before, c := comps[..|comps| - 1], comps[|comps| - 1];
      ProperPrefix(comps, |comps| - 1);
      ComponentsHavePoints(ec, params, before);
      forall n | 0 <= n < |comps| - 1
        ensures MinKey(comps[n].keys) in Points(ec, params, before) && MinKey(comps[n].keys) != MinKey(c.keys)
        ensures Points(ec, params, before)[MinKey(comps[n].keys)] == PointOf(ec, params, comps[n])
      {
        assert before[n] == comps[n];
        FirstKeysDiffer(comps, n, |comps| - 1);
      }
    }
  }

  /** Every manifold is some component's. */
  lemma {:induction false} PointsHaveComponents(ec: ConstrainedProblem, params: ManifoldParams, comps: seq<Component>,
                                                m: Key)
    requires ProperComponents(comps) && m in Points(ec, params, comps)
    ensures exists n: nat :: IsFirstKey(comps, n, m)
  {
    var before, c := comps[..|comps| - 1], comps[|comps| - 1];
    if m == MinKey(c.keys) {
      assert IsFirstKey(comps, |comps| - 1, m);
    } else {
      ProperPrefix(comps, |comps| - 1);
      PointsHaveComponents(ec, params, before, m);
      var n: nat :| IsFirstKey(before, n, m);
      assert IsFirstKey(comps, n, m);
    }
  }

  /** The manifolds are those of the components, and nothing else. */
  lemma PointsAreTheComponents(ec: ConstrainedProblem, params: ManifoldParams, comps: seq<Component>)
    requires ProperComponents(comps)
    ensures forall n :: 0 <= n < |comps| ==>
      && MinKey(comps[n].keys) in Points(ec, params, comps)
      && Points(ec, params, comps)[MinKey(comps[n].keys)] == PointOf(ec, params, comps[n])
    ensures forall m :: m in Points(ec, params, comps) ==> exists n: nat :: IsFirstKey(comps, n, m)
  {
    ComponentsHavePoints(ec, params, comps);
    forall m | m in Points(ec, params, comps) ensures exists n: nat :: IsFirstKey(comps, n, m) {
      PointsHaveComponents(ec, params, comps, m);
    }
  }

  /** The values from which a component's manifold is made: its variables' initial values. */
  ghost predicate AreInitial(ec: ConstrainedProblem, c: Component, start: Values) {
    start.Keys == c.keys && forall k :: k in start ==> k in ec.values && start[k] == ec.values[k]
  }

  /**
   * The manifold of a component: through the retracted initial values if they are to be retracted
   * and through the initial values if not, with the Jacobians at these values. Its dimension is
   * what the constraints leave of the variables' dimensions.
   */
  ghost predicate IsManifoldOf(ec: ConstrainedProblem, params: ManifoldParams, c: Component, start: Values,
                               point: ManifoldValue)
  {
    && AreInitial(ec, c, start)
    && (params.retractInit ==> point.values == params.retract(c, start))
    && (!params.retractInit ==> point.values == start)
    && point.recover == params.recover(c, point.values)
    && var left := EmbeddingDim(point.values, params.dimOf) - ConstraintDim(ec.constraints, c.indices);
       (left > 0 ==> point.dim == left) && (left <= 0 ==> point.dim == 0)
  }

  lemma PointIsManifold(ec: ConstrainedProblem, params: ManifoldParams, c: Component)
    requires c.keys <= ec.values.Keys
    ensures IsManifoldOf(ec, params, c, Restrict(ec.values, c.keys), PointOf(ec, params, c))
  {
    assert Restrict(ec.values, c.keys).Keys == c.keys;
  }

  // ---------------------------------------------------------------------------------------
  // The problem object

  /** Copies the values of the given keys; fails at the first key without a value. */
  method CollectValues(values: Values, keys: set<Key>) returns (r: Result<Values>)
    ensures r.Ok? <==> keys <= values.Keys
    ensures r.Ok? ==> r.value == Restrict(values, keys)
  {
    var collected: Values := map[];
    var todo := keys;
    while todo != {}
      invariant todo <= keys && keys - todo <= values.Keys
      invariant collected == Restrict(values, keys - todo)
      decreases todo
    {
      var key := MinKey(todo);
      if key !in values {
        return Err(KeyDoesNotExist(key));
      }
      collected := collected[key := values[key]];
      todo := todo - {key};
    }
    assert keys - {} == keys;
    r := Ok(collected);
  }

  class ManifoldOptProblem {
    var graph: seq<MixedFactor>
    var components: seq<Component>
    var values: MixedValues
    var fixedManifolds: Manifolds
    var unconstrainedKeys: set<Key>
    var manifoldKeys: set<Key>

    constructor ()
      ensures graph == [] && components == [] && values == map[] && fixedManifolds == map[]
      ensures unconstrainedKeys == {} && manifoldKeys == {}
    {
      graph, components, values, fixedManifolds, unconstrainedKeys, manifoldKeys := [], [], map[], map[], {}, {};
    }

    /** The manifold variables hold the manifolds of the first `n` components. */
    ghost predicate HoldsPoints(ec: ConstrainedProblem, params: ManifoldParams, n: nat)
      requires n <= |components| && ProperComponents(components)
      reads this
    {
      var points := Points(ec, params, components[..n]);
      values == FreePoints(points) && fixedManifolds == FixedPoints(points) && manifoldKeys == values.Keys
    }

    /** One manifold per component, stored as a variable or, if nothing can move, as fixed. */
    method ConstructManifoldValues(ec: ConstrainedProblem, params: ManifoldParams) returns (failure: Option<Error>)
      requires ProperComponents(components)
      requires values == map[] && fixedManifolds == map[] && manifoldKeys == {}
      modifies this`values, this`fixedManifolds, this`manifoldKeys
      ensures failure.None? <==> forall c :: c in components ==> c.keys <= ec.values.Keys
      ensures failure.None? ==> HoldsPoints(ec, params, |components|)
    {
      for i := 0 to |components|
        invariant HoldsPoints(ec, params, i)
        invariant forall c :: c in components[..i] ==> c.keys <= ec.values.Keys
      {
        var component := components[i];
        var componentKey := MinKey(component.keys);
        var collected := CollectValues(ec.values, component.keys);
        if collected.Err? {
          return Some(collected.error);
        }
        var point := MakePoint(ec.constraints, params, component, collected.value);
        NextPoint(ec, params, components, i);
        if point.dim > 0 {
          values := values[componentKey := OnManifold(point)];
          manifoldKeys := manifoldKeys + {componentKey};
        } else {
          fixedManifolds := fixedManifolds[componentKey := point];
        }
      }
      assert components[..|components|] == components;
      failure := None;
    }

    /** The keys of the costs that no component holds keep their own values. */
    method ConstructUnconstrainedValues(ec: ConstrainedProblem) returns (failure: Option<Error>)
      requires ProperComponents(components) && values.Keys <= HomeOf(components).Keys
      modifies this`values, this`unconstrainedKeys
      ensures unconstrainedKeys == GraphKeys(ec.costs) - HomeOf(components).Keys
      ensures failure.None? <==> unconstrainedKeys <= ec.values.Keys
      ensures failure.None? ==> unconstrainedKeys !! old(values).Keys
      ensures failure.None? ==> values == old(values) + FreeValues(ec.values, unconstrainedKeys)
    {
      unconstrainedKeys := GraphKeys(ec.costs);
      for i := 0 to |components|
        invariant unconstrainedKeys == GraphKeys(ec.costs) - HomeOf(components[..i]).Keys
        invariant values == old(values)
      {
        assert components[..i + 1][..i] == components[..i];
        unconstrainedKeys := unconstrainedKeys - components[i].keys;
      }
      assert components[..|components|] == components;
      var copied := CopyFree(values, ec.values, unconstrainedKeys);
      match copied {
        case Err(e) => failure := Some(e);
        case Ok(extended) => values, failure := extended, None;
      }
    }

    /**
     * Rewrites every cost that touches a constrained variable, and drops those that cannot change.
     * Fails exactly when some cost cannot be rewritten.
     */
    method ConstructGraph(ec: ConstrainedProblem, params: ManifoldParams) returns (failure: Option<Error>)
      requires ProperComponents(components) && AllKeepKeys(params, components)
      requires forall c :: c in components ==> c.keys <= ec.values.Keys
      requires HoldsManifolds(ec, params) && graph == []
      modifies this`graph
      ensures failure.None? <==> AllRewritable(ec.costs, HomeOf(components), fixedManifolds.Keys)
      ensures failure.None? ==> graph == RewriteAll(ec.costs, HomeOf(components), fixedManifolds)
    {
      var home := BuildHome(manifoldKeys, values, fixedManifolds);
      HomeMapIsHomeOf(ec, params, components, home) by {
        FreeAndFixedAreAll(Points(ec, params, components), manifoldKeys, values, fixedManifolds);
      }
      FixedKeysHaveValues(ec, params, components);
      var rewritten := RewriteCosts(ec.costs, home, fixedManifolds);
      match rewritten {
        case Err(e) => failure := Some(e);
        case Ok(g) => graph, failure := g, None;
      }
    }

    /** The manifold variables and the fixed manifolds are those of the components. */
    ghost predicate HoldsManifolds(ec: ConstrainedProblem, params: ManifoldParams)
      requires ProperComponents(components)
      reads this
    {
      var points := Points(ec, params, components);
      && manifoldKeys == FreePoints(points).Keys && manifoldKeys <= values.Keys
      && (forall m :: m in manifoldKeys ==> values[m] == OnManifold(points[m]))
      && fixedManifolds == FixedPoints(points)
    }
  }

  /** Adds plain values; fails when a key has no value or is already there. */
  method CopyFree(start: MixedValues, values: Values, keys: set<Key>) returns (r: Result<MixedValues>)
    ensures r.Ok? <==> keys <= values.Keys && keys * start.Keys == {}
    ensures r.Ok? ==> r.value == start + FreeValues(values, keys)
  {
    var result := start;
    var todo := keys;
    while todo != {}
      invariant todo <= keys && keys - todo <= values.Keys && (keys - todo) * start.Keys == {}
      invariant result == start + FreeValues(values, keys - todo)
      decreases todo
    {
      var key := MinKey(todo);
      if key !in values {
        return Err(KeyDoesNotExist(key));
      }
      if key in result {
        assert key in keys * start.Keys;
        return Err(KeyAlreadyExists(key));
      }
      result := result[key := Free(values[key])];
      todo := todo - {key};
    }
    assert keys - {} == keys;
    r := Ok(result);
  }

  // ---------------------------------------------------------------------------------------
  // The map from constrained variables to manifolds

  /** `home` sends each variable of the manifolds in `done` to a manifold in `done` that holds it. */
  ghost predicate MapsHome(home: map<Key, Key>, points: Manifolds, done: set<Key>) {
    && (forall k :: k in home ==> home[k] in done && home[k] in points && k in points[home[k]].values)
    && (forall m, k :: m in done && m in points && k in points[m].values ==> k in home)
  }

  function AllPoints(manifoldKeys: set<Key>, values: MixedValues, fixed: Manifolds): Manifolds
    requires forall m :: m in manifoldKeys ==> m in values && values[m].OnManifold?
  {
    (map m | m in manifoldKeys :: values[m].point) + fixed
  }

  method AssignHome(home: map<Key, Key>, keys: set<Key>, m: Key) returns (r: map<Key, Key>)
    ensures r == home + map k | k in keys :: m
  {
    r := home;
    var todo := keys;
    while todo != {}
      invariant todo <= keys
      invariant r == home + map k | k in keys - todo :: m
      decreases todo
    {
      var key := MinKey(todo);
      r := r[key := m];
      todo := todo - {key};
    }
    assert keys - {} == keys;
  }

  /** The two loops that record the manifold of every base key. */
  method BuildHome(manifoldKeys: set<Key>, values: MixedValues, fixed: Manifolds) returns (home: map<Key, Key>)
    requires forall m :: m in manifoldKeys ==> m in values && values[m].OnManifold?
    requires manifoldKeys !! fixed.Keys
    ensures MapsHome(home, AllPoints(manifoldKeys, values, fixed), manifoldKeys + fixed.Keys)
  {
    ghost var points := AllPoints(manifoldKeys, values, fixed);
    home := map[];
    var todo := manifoldKeys;
    while todo != {}
      invariant todo <= manifoldKeys
      invariant MapsHome(home, points, manifoldKeys - todo)
      decreases todo
    {
      var m := MinKey(todo);
      var home' := AssignHome(home, values[m].point.values.Keys, m);
      HomeExtends(home, points, manifoldKeys - todo, m);
      assert manifoldKeys - (todo - {m}) == manifoldKeys - todo + {m};
      home, todo := home', todo - {m};
    }
    assert manifoldKeys - {} == manifoldKeys + (fixed.Keys - fixed.Keys);
    todo := fixed.Keys;
    while todo != {}
      invariant todo <= fixed.Keys
      invariant MapsHome(home, points, manifoldKeys + (fixed.Keys - todo))
      decreases todo
    {
      var m := MinKey(todo);
      var home' := AssignHome(home, fixed[m].values.Keys, m);
      HomeExtends(home, points, manifoldKeys + (fixed.Keys - todo), m);
      assert manifoldKeys + (fixed.Keys - (todo - {m})) == manifoldKeys + (fixed.Keys - todo) + {m};
      home, todo := home', todo - {m};
    }
    assert fixed.Keys - {} == fixed.Keys;
  }

  lemma HomeExtends(home: map<Key, Key>, points: Manifolds, done: set<Key>, m: Key)
    requires MapsHome(home, points, done) && m in points
    ensures MapsHome(home + map k | k in points[m].values.Keys :: m, points, done + {m})
  {
  }

  method FindReplacements(keys: seq<Key>, home: map<Key, Key>) returns (replacement: map<Key, Key>)
    ensures replacement == ReplacementOf(keys, home)
  {
    replacement := map[];
    for i := 0 to |keys|
      invariant replacement == ReplacementOf(keys[..i], home)
    {
      assert keys[..i + 1] == keys[..i] + [keys[i]];
      if keys[i] in home {
        replacement := replacement[keys[i] := home[keys[i]]];
      }
    }
    assert keys[..|keys|] == keys;
  }

  /** Every base variable of a fixed manifold has a value there. */
  ghost predicate FixedHomesHold(home: map<Key, Key>, fixed: Manifolds) {
    forall k :: k in home && home[k] in fixed ==> k in fixed[home[k]].values
  }

  /** A cost that keeps some variable must not list a fully constrained one twice. */
  ghost predicate Rewritable(f: Factor, home: map<Key, Key>, fixed: set<Key>) {
    NewKeys(f.keys, ReplacementOf(f.keys, home), fixed) != [] ==>
      FixedKeysDistinct(f.keys, ReplacementOf(f.keys, home), fixed)
  }

  ghost predicate AllRewritable(costs: seq<Factor>, home: map<Key, Key>, fixed: set<Key>) {
    forall f :: f in costs ==> Rewritable(f, home, fixed)
  }

  /** The loop over the costs. */
  method RewriteCosts(costs: seq<Factor>, home: map<Key, Key>, fixed: Manifolds) returns (r: Result<seq<MixedFactor>>)
    requires FixedHomesHold(home, fixed)
    ensures r.Ok? <==> AllRewritable(costs, home, fixed.Keys)
    ensures r.Ok? ==> r.value == RewriteAll(costs, home, fixed)
  {
    hide Rewritable, RewriteCost;
    var g: seq<MixedFactor> := [];
    for i := 0 to |costs|
      invariant g == RewriteAll(costs[..i], home, fixed)
      invariant AllRewritable(costs[..i], home, fixed.Keys)
    {
      assert costs[..i + 1][..i] == costs[..i] && costs[..i + 1] == costs[..i] + [costs[i]];
      var one := RewriteOne(costs[i], home, fixed);
      match one {
        case Err(e) => return Err(e);
        case Ok(None) =>
        case Ok(Some(e)) => g := g + [e];
      }
    }
    assert costs[..|costs|] == costs;
    r := Ok(g);
  }

  method RewriteOne(cost: Factor, home: map<Key, Key>, fixed: Manifolds) returns (r: Result<Option<MixedFactor>>)
    requires FixedHomesHold(home, fixed)
    ensures r.Ok? <==> Rewritable(cost, home, fixed.Keys)
    ensures r.Ok? ==> r.value == RewriteCost(cost, home, fixed)
  {
    var replacement := FindReplacements(cost.keys, home);
    if replacement == map[] {
      return Ok(Some(Original(cost)));
    }
    var made := MakeSubstituteFactor(cost, replacement, fixed);
    match made {
      case Err(e) => r := Err(e);
      case Ok(s) => r := Ok(if s.keys != [] then Some(Rewritten(s)) else None);
    }
  }

  lemma FreeAndFixedAreAll(points: Manifolds, manifoldKeys: set<Key>, values: MixedValues, fixed: Manifolds)
    requires manifoldKeys == FreePoints(points).Keys && fixed == FixedPoints(points)
    requires forall m :: m in manifoldKeys ==> m in values && values[m] == OnManifold(points[m])
    ensures AllPoints(manifoldKeys, values, fixed) == points
    ensures manifoldKeys + fixed.Keys == points.Keys
  {
    forall m | m in points ensures m in manifoldKeys || m in fixed {
      assert points[m].dim > 0 ==> m in FreePoints(points);
    }
  }

  /** A component's manifold holds exactly the component's variables. */
  lemma PointHoldsItsComponent(ec: ConstrainedProblem, params: ManifoldParams, c: Component)
    requires KeepsKeysOf(params, c) && c.keys <= ec.values.Keys
    ensures PointOf(ec, params, c).values.Keys == c.keys
  {
    assert Restrict(ec.values, c.keys).Keys == c.keys;
  }

  /** The map built from the manifolds is the one the components define. */
  lemma HomeMapIsHomeOf(ec: ConstrainedProblem, params: ManifoldParams, comps: seq<Component>, home: map<Key, Key>)
    requires ProperComponents(comps) && AllKeepKeys(params, comps)
    requires forall c :: c in comps ==> c.keys <= ec.values.Keys
    requires MapsHome(home, Points(ec, params, comps), Points(ec, params, comps).Keys)
    ensures home == HomeOf(comps)
  {
    forall k ensures k in home <==> k in HomeOf(comps)
      ensures k in home ==> home[k] == HomeOf(comps)[k]
    {
      HomeIsFirstKey(comps, k);
      HomeOfOneKey(ec, params, comps, home, k);
    }
  }

  /** A key has a home exactly if a component holds it, and then under that component's first key. */
  lemma HomeOfOneKey(ec: ConstrainedProblem, params: ManifoldParams, comps: seq<Component>, home: map<Key, Key>, k: Key)
    requires ProperComponents(comps) && AllKeepKeys(params, comps)
    requires forall c :: c in comps ==> c.keys <= ec.values.Keys
    requires MapsHome(home, Points(ec, params, comps), Points(ec, params, comps).Keys)
    ensures k in home <==> KeyHeld(comps, k)
    ensures k in home ==> exists n: nat :: Holds(comps, n, k) && home[k] == MinKey(comps[n].keys)
  {
    PointsAreTheComponents(ec, params, comps);
    if KeyHeld(comps, k) {
      var n: nat :| Holds(comps, n, k);
      PointHoldsItsComponent(ec, params, comps[n]);
      assert MinKey(comps[n].keys) in Points(ec, params, comps);
    }
    if k in home {
      var n: nat :| IsFirstKey(comps, n, home[k]);
      PointHoldsItsComponent(ec, params, comps[n]);
      assert Holds(comps, n, k);
    }
  }

  lemma FixedKeysHaveValues(ec: ConstrainedProblem, params: ManifoldParams, comps: seq<Component>)
    requires ProperComponents(comps) && AllKeepKeys(params, comps)
    requires forall c :: c in comps ==> c.keys <= ec.values.Keys
    ensures FixedHomesHold(HomeOf(comps), FixedPoints(Points(ec, params, comps)))
  {
    PointsAreTheComponents(ec, params, comps);
    forall k | k in HomeOf(comps) && HomeOf(comps)[k] in FixedPoints(Points(ec, params, comps))
      ensures k in Points(ec, params, comps)[HomeOf(comps)[k]].values
    {
      HomeIsFirstKey(comps, k);
      var n: nat :| Holds(comps, n, k);
      PointHoldsItsComponent(ec, params, comps[n]);
    }
  }

  // ---------------------------------------------------------------------------------------
  // The whole transform

  /** The problem object is the transform of the given problem. */
  ghost predicate IsTransformOf(p: ManifoldOptProblem, ec: ConstrainedProblem, params: ManifoldParams)
    reads p
  {
    && IsDecomposition(ec.constraints, p.components, AllKeys(ec.constraints))
    && ProperComponents(p.components)
    && (forall c :: c in p.components ==> c.keys <= ec.values.Keys)
    && p.unconstrainedKeys == GraphKeys(ec.costs) - HomeOf(p.components).Keys
    && p.HoldsManifolds(ec, params)
    && (forall u :: u in p.unconstrainedKeys ==> u in p.values && u in ec.values && p.values[u] == Free(ec.values[u]))
    && p.values.Keys <= p.manifoldKeys + p.unconstrainedKeys
    && p.graph == RewriteAll(ec.costs, HomeOf(p.components), p.fixedManifolds)
  }

  /**
   * Fails exactly when a variable of a cost or of a constraint has no initial value, or some cost
   * lists a fully constrained variable twice and is not dropped.
   */
  method ProblemTransform(ec: ConstrainedProblem, params: ManifoldParams)
    returns (p: ManifoldOptProblem, failure: Option<Error>)
    requires KeepsKeys(params, ec.constraints)
    ensures fresh(p) && ProperComponents(p.components)
    ensures IsDecomposition(ec.constraints, p.components, AllKeys(ec.constraints))
    ensures failure.None? <==>
      && AllKeys(ec.constraints) + GraphKeys(ec.costs) <= ec.values.Keys
      && AllRewritable(ec.costs, HomeOf(p.components), FixedPoints(Points(ec, params, p.components)).Keys)
    ensures failure.None? ==> IsTransformOf(p, ec, params)
  {
    p := new ManifoldOptProblem();
    p.components := IdentifyConnectedComponents(ec.constraints);
    DecompositionIsProper(ec.constraints, p.components);
    KeysAreHeld(ec.constraints, p.components, ec.values.Keys);
    failure := p.ConstructManifoldValues(ec, params);
    if failure.Some? {
      return;
    }
    ManifoldsAreHome(ec, params, p.components);
    failure := p.ConstructUnconstrainedValues(ec);
    if failure.Some? {
      return;
    }
    failure := p.ConstructGraph(ec, params);
  }

  /** A component is in the problem under its first key: as a variable if it can move, and else as fixed. */
  ghost predicate IsPlaced(ec: ConstrainedProblem, params: ManifoldParams, c: Component, manifoldKeys: set<Key>,
                           values: MixedValues, fixed: Manifolds)
    requires c.keys != {}
  {
    var m := MinKey(c.keys);
    exists start, point ::
      && IsManifoldOf(ec, params, c, start, point)
      && (m in manifoldKeys <==> EmbeddingDim(point.values, params.dimOf) > ConstraintDim(ec.constraints, c.indices))
      && (m in manifoldKeys ==> m in values && values[m] == OnManifold(point) && m !in fixed)
      && (m !in manifoldKeys ==> m in fixed && fixed[m] == point)
  }

  lemma PointIsPlaced(ec: ConstrainedProblem, params: ManifoldParams, c: Component, points: Manifolds,
                      manifoldKeys: set<Key>, values: MixedValues, fixed: Manifolds)
    requires c.keys != {} && c.keys <= ec.values.Keys
    requires MinKey(c.keys) in points && points[MinKey(c.keys)] == PointOf(ec, params, c)
    requires manifoldKeys == FreePoints(points).Keys && fixed == FixedPoints(points)
    requires forall m :: m in manifoldKeys ==> m in values && values[m] == OnManifold(points[m])
    ensures IsPlaced(ec, params, c, manifoldKeys, values, fixed)
  {
    hide IsManifoldOf;
    var m, start, point := MinKey(c.keys), Restrict(ec.values, c.keys), PointOf(ec, params, c);
    PointIsManifold(ec, params, c);
    assert m in manifoldKeys <==> point.dim > 0 by {
      assert m in FreePoints(points) <==> points[m].dim > 0;
    }
    DimIsLeft(ec, params, c, start, point);
  }

  lemma DimIsLeft(ec: ConstrainedProblem, params: ManifoldParams, c: Component, start: Values, point: ManifoldValue)
    requires IsManifoldOf(ec, params, c, start, point)
    ensures point.dim > 0 <==> EmbeddingDim(point.values, params.dimOf) > ConstraintDim(ec.constraints, c.indices)
  {
    hide EmbeddingDim, ConstraintDim;
  }

  /**
   * What the transform makes of the components: each is placed, those that can move as variables,
   * and there are no other manifolds.
   */
  lemma ComponentsArePlaced(p: ManifoldOptProblem, ec: ConstrainedProblem, params: ManifoldParams)
    requires IsTransformOf(p, ec, params)
    ensures forall c :: c in p.components ==>
      IsPlaced(ec, params, c, p.manifoldKeys, p.values, p.fixedManifolds)
    ensures forall m :: m in p.manifoldKeys || m in p.fixedManifolds ==> IsSomeFirstKey(p.components, m)
    ensures p.values.Keys == p.manifoldKeys + p.unconstrainedKeys
  {
    hide IsPlaced, PointOf, HomeOf, RewriteAll, IsDecomposition;
    var points := Points(ec, params, p.components);
    PointsAreTheComponents(ec, params, p.components);
    forall c | c in p.components ensures IsPlaced(ec, params, c, p.manifoldKeys, p.values, p.fixedManifolds) {
      var n :| 0 <= n < |p.components| && p.components[n] == c;
      PointIsPlaced(ec, params, c, points, p.manifoldKeys, p.values, p.fixedManifolds);
    }
    forall m | m in p.manifoldKeys || m in p.fixedManifolds ensures IsSomeFirstKey(p.components, m) {
      assert m in points;
    }
  }

  ghost predicate IsSomeFirstKey(comps: seq<Component>, m: Key) {
    exists n: nat :: IsFirstKey(comps, n, m)
  }

  /** For instance, one constraint of dimension one leaves two variables of dimension one a circle to move on. */
  lemma CircleCanMove(params: ManifoldParams, start: Values)
    requires !params.retractInit && start.Keys == {0, 1}
    requires params.dimOf(start[0]) == 1 && params.dimOf(start[1]) == 1
    ensures MakePoint([Constraint([0, 1], 1)], params, Component({0}, {0, 1}), start).dim == 1
  {
    OneMoreVariable(map[], params.dimOf, 0, start[0]);
    OneMoreVariable(map[0 := start[0]], params.dimOf, 1, start[1]);
    assert start == map[0 := start[0]][1 := start[1]];
    OneMoreConstraint([Constraint([0, 1], 1)], {}, 0);
    assert {} + {0} == {0};
  }

  lemma KeysAreHeld(cs: Constraints, comps: seq<Component>, keys: set<Key>)
    requires ProperComponents(comps) && forall k :: KeyHeld(comps, k) <==> k in AllKeys(cs)
    ensures HomeOf(comps).Keys == AllKeys(cs)
    ensures AllKeys(cs) <= keys <==> forall c :: c in comps ==> c.keys <= keys
  {
    forall k ensures k in HomeOf(comps) <==> k in AllKeys(cs) {
      HomeIsFirstKey(comps, k);
    }
    if AllKeys(cs) <= keys {
      forall c | c in comps ensures c.keys <= keys {
        var n :| 0 <= n < |comps| && comps[n] == c;
        forall k | k in c.keys ensures k in keys {
          assert Holds(comps, n, k);
          assert KeyHeld(comps, k);
        }
      }
    }
    if forall c :: c in comps ==> c.keys <= keys {
      forall k | k in AllKeys(cs) ensures k in keys {
        assert KeyHeld(comps, k);
        var n: nat :| Holds(comps, n, k);
        assert comps[n] in comps;
      }
    }
  }

  /** Every manifold variable carries the name of one of its own base variables. */
  lemma ManifoldsAreHome(ec: ConstrainedProblem, params: ManifoldParams, comps: seq<Component>)
    requires ProperComponents(comps)
    ensures Points(ec, params, comps[..|comps|]).Keys <= HomeOf(comps).Keys
    ensures comps[..|comps|] == comps
  {
    assert comps[..|comps|] == comps;
    PointsAreTheComponents(ec, params, comps);
    forall m | m in Points(ec, params, comps) ensures m in HomeOf(comps) {
      var n: nat :| IsFirstKey(comps, n, m);
      assert Holds(comps, n, m);
      HomeIsFirstKey(comps, m);
    }
  }

  /** Where the transformed problem keeps each base variable. */
  ghost function LayoutOf(p: ManifoldOptProblem): Layout
    requires ProperComponents(p.components)
    reads p
  {
    Layout(HomeOf(p.components), p.fixedManifolds, p.manifoldKeys, p.unconstrainedKeys)
  }

  /**
   * The transform yields a layout: manifold variables, fixed manifolds and unconstrained variables
   * never share a name, and each manifold holds exactly the variables mapped to it.
   */
  lemma TransformGivesLayout(p: ManifoldOptProblem, ec: ConstrainedProblem, params: ManifoldParams)
    requires IsTransformOf(p, ec, params) && KeepsKeys(params, ec.constraints)
    ensures IsLayout(LayoutOf(p))
    ensures p.manifoldKeys !! p.unconstrainedKeys
    ensures LayoutOf(p).home.Keys == AllKeys(ec.constraints)
    ensures p.unconstrainedKeys == GraphKeys(ec.costs) - AllKeys(ec.constraints)
  {
    hide KeepsKeys, Points, HomeOf, RewriteAll, PointOf, IsDecomposition, GraphKeys, IsLayout, FreePoints, FixedPoints;
    hide HoldsItsVariables, FreeValues;
    var l, comps := LayoutOf(p), p.components;
    DecompositionIsProper(ec.constraints, comps);
    KeysAreHeld(ec.constraints, comps, ec.values.Keys);
    ManifoldsAreHome(ec, params, comps);
    HomesArePoints(ec, params, comps);
    FixedHoldTheirVariables(p, ec, params);
    PointsMakeLayout(l, Points(ec, params, comps));
  }

  lemma PointsMakeLayout(l: Layout, points: Manifolds)
    requires l.manifoldKeys == FreePoints(points).Keys && l.fixed == FixedPoints(points)
    requires points.Keys <= l.home.Keys && l.unconstrained !! l.home.Keys
    requires forall k :: k in l.home ==> l.home[k] in points
    requires forall m :: m in l.fixed ==> HoldsItsVariables(l.home, m, l.fixed[m].values)
    ensures IsLayout(l) && l.manifoldKeys !! l.unconstrained
  {
    forall m | m in points ensures m in l.fixed.Keys + l.manifoldKeys {
      assert points[m].dim > 0 ==> m in FreePoints(points);
    }
    assert l.manifoldKeys <= points.Keys && l.fixed.Keys <= points.Keys;
  }

  /** Every constrained variable lives on one of the manifolds. */
  lemma HomesArePoints(ec: ConstrainedProblem, params: ManifoldParams, comps: seq<Component>)
    requires ProperComponents(comps)
    ensures forall k :: k in HomeOf(comps) ==> HomeOf(comps)[k] in Points(ec, params, comps)
  {
    PointsAreTheComponents(ec, params, comps);
    forall k | k in HomeOf(comps) ensures HomeOf(comps)[k] in Points(ec, params, comps) {
      HomeIsFirstKey(comps, k);
      var n: nat :| Holds(comps, n, k);
    }
  }

  lemma FixedHoldTheirVariables(p: ManifoldOptProblem, ec: ConstrainedProblem, params: ManifoldParams)
    requires IsTransformOf(p, ec, params) && KeepsKeys(params, ec.constraints)
    ensures forall m :: m in p.fixedManifolds ==> HoldsItsVariables(HomeOf(p.components), m, p.fixedManifolds[m].values)
  {
    forall m | m in p.fixedManifolds ensures HoldsItsVariables(HomeOf(p.components), m, p.fixedManifolds[m].values) {
      PointHoldsItsVariables(ec, params, p.components, m);
    }
  }

  lemma PointHoldsItsVariables(ec: ConstrainedProblem, params: ManifoldParams, comps: seq<Component>, m: Key)
    requires ProperComponents(comps) && AllKeepKeys(params, comps) && m in Points(ec, params, comps)
    requires forall c :: c in comps ==> c.keys <= ec.values.Keys
    ensures HoldsItsVariables(HomeOf(comps), m, Points(ec, params, comps)[m].values)
  {
    PointsAreTheComponents(ec, params, comps);
    var n: nat :| IsFirstKey(comps, n, m);
    PointHoldsItsComponent(ec, params, comps[n]);
    forall k ensures k in comps[n].keys <==> k in HomeOf(comps) && HomeOf(comps)[k] == m {
      HomeIsFirstKey(comps, k);
      if k in comps[n].keys {
        assert Holds(comps, n, k);
      } else if k in HomeOf(comps) {
        var i: nat :| Holds(comps, i, k);
        if MinKey(comps[i].keys) == m {
          FirstKeysDiffer(comps, i, n);
        }
      }
    }
  }

  /** The initial values of the transformed problem are an assignment of the right shape. */
  lemma InitialValuesFit(p: ManifoldOptProblem, ec: ConstrainedProblem, params: ManifoldParams)
    requires IsTransformOf(p, ec, params) && KeepsKeys(params, ec.constraints)
    ensures Fits(LayoutOf(p), p.values)
  {
    forall m | m in p.manifoldKeys ensures HoldsItsVariables(LayoutOf(p).home, m, p.values[m].point.values) {
      PointHoldsItsVariables(ec, params, p.components, m);
    }
  }

  /** No cost lists a variable twice that moves with one of the problem's manifolds. */
  ghost predicate MovesOnce(p: ManifoldOptProblem, ec: ConstrainedProblem)
    requires ProperComponents(p.components)
    reads p
  {
    AllMovesDistinct(ec.costs, HomeOf(p.components), p.fixedManifolds.Keys)
  }

  /**
   * The theorem about the whole transform, for every assignment of the new variables: the graph can
   * be evaluated exactly if no cost lists a moving variable twice, and then the transformed error
   * plus the constant error of the dropped costs is the original cost of the base values.
   */
  lemma TransformedProblemHasSameCost(p: ManifoldOptProblem, ec: ConstrainedProblem, params: ManifoldParams,
                                      x: MixedValues)
    requires IsTransformOf(p, ec, params) && KeepsKeys(params, ec.constraints) && AllLocal(ec.costs)
    requires Fits(LayoutOf(p), x)
    ensures IsLayout(LayoutOf(p))
    ensures AllEvaluable(p.graph, x) <==> MovesOnce(p, ec)
    ensures MovesOnce(p, ec) ==>
      MixedTotal(p.graph, x) + TotalError(InactiveCosts(ec.costs, HomeOf(p.components), p.fixedManifolds),
                                          FixedBaseValues(LayoutOf(p)))
      == TotalError(ec.costs, BaseValuesOf(LayoutOf(p), x))
  {
    TransformGivesLayout(p, ec, params);
    TransformPreservesCost(LayoutOf(p), ec.costs, x);
  }

  /** A better point of the transformed problem is a better point of the original one, and conversely. */
  lemma SameOrder(p: ManifoldOptProblem, ec: ConstrainedProblem, params: ManifoldParams, x: MixedValues, y: MixedValues)
    requires IsTransformOf(p, ec, params) && KeepsKeys(params, ec.constraints) && AllLocal(ec.costs)
    requires Fits(LayoutOf(p), x) && Fits(LayoutOf(p), y)
    ensures IsLayout(LayoutOf(p))
    ensures AllEvaluable(p.graph, x) && AllEvaluable(p.graph, y) <==> MovesOnce(p, ec)
    ensures MovesOnce(p, ec) ==>
      (MixedTotal(p.graph, x) <= MixedTotal(p.graph, y) <==>
       TotalError(ec.costs, BaseValuesOf(LayoutOf(p), x)) <= TotalError(ec.costs, BaseValuesOf(LayoutOf(p), y)))
  {
    TransformedProblemHasSameCost(p, ec, params, x);
    TransformedProblemHasSameCost(p, ec, params, y);
  }

  // ---------------------------------------------------------------------------------------
  // Reading the solution back

  /** Adds all of `more`; a key that is already there is an error. */
  method InsertAll(values: Values, more: Values) returns (r: Result<Values>)
    ensures r.Ok? <==> more.Keys * values.Keys == {}
    ensures r.Ok? ==> r.value == values + more
  {
    if more.Keys * values.Keys != {} {
      var k := MinKey(more.Keys * values.Keys);
      return Err(KeyAlreadyExists(k));
    }
    r := Ok(values + more);
  }

  /** `values` is `start` with the parts named in `done` added, and nothing else. */
  ghost predicate IsMerged(start: Values, parts: map<Key, Values>, done: set<Key>, values: Values) {
    && (forall k :: k in start ==> k in values && values[k] == start[k])
    && (forall m, k :: m in done && m in parts && k in parts[m] ==> k in values && values[k] == parts[m][k])
    && (forall k :: k in values ==> k in start || InSomePart(parts, done, k))
  }

  ghost predicate InSomePart(parts: map<Key, Values>, done: set<Key>, k: Key) {
    exists m :: m in done && m in parts && k in parts[m]
  }

  /** No two parts, and no part and the start, share a key. */
  ghost predicate PartsDisjoint(start: Values, parts: map<Key, Values>) {
    && (forall m, n, k :: m in parts && n in parts && k in parts[m] && k in parts[n] ==> m == n)
    && (forall m, k :: m in parts && k in parts[m] ==> k !in start)
  }

  /** One group of insertions, in key order. */
  method MergeParts(start: Values, parts: map<Key, Values>) returns (r: Result<Values>)
    requires PartsDisjoint(start, parts)
    ensures r.Ok? && IsMerged(start, parts, parts.Keys, r.value)
  {
    var values: Values := start;
    var todo := parts.Keys;
    while todo != {}
      invariant todo <= parts.Keys
      invariant IsMerged(start, parts, parts.Keys - todo, values)
      decreases todo
    {
      var m := MinKey(todo);
      forall k | k in parts[m] ensures k !in values {
        assert !InSomePart(parts, parts.Keys - todo, k);
      }
      assert parts[m].Keys * values.Keys == {};
      var inserted := InsertAll(values, parts[m]);
      MergeOne(start, parts, parts.Keys - todo, values, m);
      assert parts.Keys - (todo - {m}) == parts.Keys - todo + {m};
      values, todo := inserted.value, todo - {m};
    }
    assert parts.Keys - {} == parts.Keys;
    r := Ok(values);
  }

  lemma MergeOne(start: Values, parts: map<Key, Values>, done: set<Key>, values: Values, m: Key)
    requires IsMerged(start, parts, done, values) && m in parts && parts[m].Keys * values.Keys == {}
    ensures IsMerged(start, parts, done + {m}, values + parts[m])
  {
    forall k | k in values + parts[m] ensures k in start || InSomePart(parts, done + {m}, k) {
      if k in parts[m] {
        assert m in done + {m};
      } else if k !in start {
        var n :| n in done && n in parts && k in parts[n];
        assert n in done + {m};
      }
    }
    forall k | k in start ensures k !in parts[m] {
      assert k !in parts[m].Keys * values.Keys;
    }
    forall n, k | n in done && n in parts && k in parts[n] ensures k !in parts[m] {
      assert k !in parts[m].Keys * values.Keys;
    }
  }

  /** The three groups of values that make up the answer. */
  function FixedParts(fixed: Manifolds): map<Key, Values> {
    map m | m in fixed :: fixed[m].values
  }

  function FreeParts(unconstrained: set<Key>, x: MixedValues): map<Key, Values> {
    map u | u in unconstrained && u in x && x[u].Free? :: map[u := x[u].value]
  }

  function ManifoldParts(manifoldKeys: set<Key>, x: MixedValues, finish: (Key, Values) -> Values): map<Key, Values> {
    map m | m in manifoldKeys && m in x && x[m].OnManifold? :: finish(m, x[m].point.values)
  }

  /** The last retraction of each manifold keeps its variables. */
  ghost predicate FinishKeepsKeys(manifoldKeys: set<Key>, x: MixedValues, finish: (Key, Values) -> Values) {
    forall m :: m in manifoldKeys && m in x && x[m].OnManifold? ==>
      finish(m, x[m].point.values).Keys == x[m].point.values.Keys
  }

  /** Parts indexed by manifolds hold exactly the variables whose home is theirs. */
  ghost predicate PartsFollow(home: map<Key, Key>, parts: map<Key, Values>) {
    forall m, k :: m in parts ==> (k in parts[m] <==> k in home && home[k] == m)
  }

  lemma LayoutParts(l: Layout, x: MixedValues, finish: (Key, Values) -> Values)
    requires IsLayout(l) && Fits(l, x) && FinishKeepsKeys(l.manifoldKeys, x, finish)
    ensures PartsFollow(l.home, FixedParts(l.fixed)) && PartsFollow(l.home, ManifoldParts(l.manifoldKeys, x, finish))
    ensures ManifoldParts(l.manifoldKeys, x, finish).Keys == l.manifoldKeys
    ensures FreeParts(l.unconstrained, x).Keys == l.unconstrained
  {
    FixedPartsFollow(l, x);
    ManifoldPartsFollow(l, x, finish);
  }

  lemma FixedPartsFollow(l: Layout, x: MixedValues)
    requires IsLayout(l) && Fits(l, x)
    ensures PartsFollow(l.home, FixedParts(l.fixed))
  {
    forall m, k | m in l.fixed ensures k in l.fixed[m].values <==> k in l.home && l.home[k] == m {
      assert HoldsItsVariables(l.home, m, l.fixed[m].values);
    }
  }

  lemma ManifoldPartsFollow(l: Layout, x: MixedValues, finish: (Key, Values) -> Values)
    requires IsLayout(l) && Fits(l, x) && FinishKeepsKeys(l.manifoldKeys, x, finish)
    ensures PartsFollow(l.home, ManifoldParts(l.manifoldKeys, x, finish))
  {
    forall m, k | m in l.manifoldKeys ensures k in finish(m, x[m].point.values) <==> k in l.home && l.home[k] == m {
      assert HoldsItsVariables(l.home, m, x[m].point.values);
      assert k in finish(m, x[m].point.values).Keys <==> k in x[m].point.values.Keys;
    }
  }

  /**
   * Every variable has its value: on a fixed manifold the manifold's, if it is unconstrained its
   * own, and on a free manifold the manifold's, retracted once more if asked for.
   */
  ghost predicate AreFinalValues(l: Layout, x: MixedValues, retractFinal: bool, feasible: (Key, Values) -> Values,
                                 values: Values)
    requires Fits(l, x)
  {
    && values.Keys == l.home.Keys + l.unconstrained
    && (forall m, k :: m in l.fixed && k in l.fixed[m].values ==> k in values && values[k] == l.fixed[m].values[k])
    && (forall u :: u in l.unconstrained ==> u in values && values[u] == x[u].value)
    && forall m :: m in l.manifoldKeys ==>
         Includes(values, if retractFinal then feasible(m, x[m].point.values) else x[m].point.values)
  }

  ghost predicate Includes(all: Values, part: Values) {
    forall k :: k in part ==> k in all && all[k] == part[k]
  }

  lemma UnionIncludes(l: Layout, x: MixedValues, finish: (Key, Values) -> Values, values: Values, m: Key)
    requires Fits(l, x) && m in l.manifoldKeys && Contains(values, ManifoldParts(l.manifoldKeys, x, finish))
    ensures Includes(values, finish(m, x[m].point.values))
  {
    var moved := ManifoldParts(l.manifoldKeys, x, finish);
    assert m in moved && moved[m] == finish(m, x[m].point.values);
  }

  lemma UnionIsFinal(l: Layout, x: MixedValues, retractFinal: bool, feasible: (Key, Values) -> Values, values: Values)
    requires IsLayout(l) && Fits(l, x)
    requires
      var finish := if retractFinal then feasible else Unretracted;
      IsUnion(l, FixedParts(l.fixed), FreeParts(l.unconstrained, x), ManifoldParts(l.manifoldKeys, x, finish), values)
    ensures AreFinalValues(l, x, retractFinal, feasible, values)
  {
    hide IsLayout, ManifoldParts, Includes;
    var finish := if retractFinal then feasible else Unretracted;
    var fixed, free := FixedParts(l.fixed), FreeParts(l.unconstrained, x);
    forall u | u in l.unconstrained ensures u in values && values[u] == x[u].value {
      assert u in free && u in free[u];
    }
    forall m, k | m in l.fixed && k in l.fixed[m].values ensures k in values && values[k] == l.fixed[m].values[k] {
      assert m in fixed && k in fixed[m];
    }
    forall m | m in l.manifoldKeys
      ensures Includes(values, if retractFinal then feasible(m, x[m].point.values) else x[m].point.values)
    {
      UnionIncludes(l, x, finish, values, m);
      assert Unretracted(m, x[m].point.values) == x[m].point.values;
    }
  }

  /**
   * The values of the original variables. No insertion ever collides; without a final retraction
   * these are the values at which the transform preserves the cost.
   */
  method BaseValues(p: ManifoldOptProblem, x: MixedValues, retractFinal: bool, feasible: (Key, Values) -> Values)
    returns (r: Result<Values>)
    requires ProperComponents(p.components) && IsLayout(LayoutOf(p)) && Fits(LayoutOf(p), x)
    requires FinishKeepsKeys(p.manifoldKeys, x, feasible)
    ensures r.Ok? && AreFinalValues(LayoutOf(p), x, retractFinal, feasible, r.value)
    ensures !retractFinal ==> r.value == BaseValuesOf(LayoutOf(p), x)
  {
    ghost var l := LayoutOf(p);
    var finish := if retractFinal then feasible else Unretracted;
    LayoutParts(l, x, finish);
    r := MergeThree(l, FixedParts(p.fixedManifolds), FreeParts(p.unconstrainedKeys, x),
                    ManifoldParts(p.manifoldKeys, x, finish));
    UnionIsFinal(l, x, retractFinal, feasible, r.value);
    if !retractFinal {
      MergedValues(l, x, r.value);
    }
  }

  /** The answer has a value for every variable of the original problem, and for nothing else. */
  lemma AnswerCoversTheProblem(p: ManifoldOptProblem, ec: ConstrainedProblem, params: ManifoldParams)
    requires IsTransformOf(p, ec, params) && KeepsKeys(params, ec.constraints)
    ensures IsLayout(LayoutOf(p))
    ensures LayoutOf(p).home.Keys + p.unconstrainedKeys == GraphKeys(ec.costs) + AllKeys(ec.constraints)
  {
    TransformGivesLayout(p, ec, params);
  }

  function Unretracted(m: Key, v: Values): Values {
    v
  }

  ghost predicate FreePartsFollow(l: Layout, free: map<Key, Values>) {
    free.Keys == l.unconstrained && forall u :: u in free ==> free[u].Keys == {u}
  }

  /** The three groups of parts follow the layout. */
  ghost predicate ThreeParts(l: Layout, fixed: map<Key, Values>, free: map<Key, Values>, manifolds: map<Key, Values>) {
    && PartsFollow(l.home, fixed) && FreePartsFollow(l, free) && PartsFollow(l.home, manifolds)
    && l.unconstrained !! l.home.Keys && fixed.Keys !! manifolds.Keys
    && (forall k :: k in l.home ==> l.home[k] in fixed.Keys + manifolds.Keys)
  }

  /** `values` holds every part's values, and exactly the keys of the layout. */
  ghost predicate IsUnion(l: Layout, fixed: map<Key, Values>, free: map<Key, Values>, manifolds: map<Key, Values>,
                          values: Values) {
    && values.Keys == l.home.Keys + l.unconstrained
    && Contains(values, fixed) && Contains(values, free) && Contains(values, manifolds)
  }

  ghost predicate Contains(values: Values, parts: map<Key, Values>) {
    forall m, k :: m in parts && k in parts[m] ==> k in values && values[k] == parts[m][k]
  }

  lemma ContainsSurvives(parts: map<Key, Values>, start: Values, more: map<Key, Values>, all: Values)
    requires Contains(start, parts) && IsMerged(start, more, more.Keys, all)
    ensures Contains(all, parts)
  {
  }

  lemma MergedContains(start: Values, parts: map<Key, Values>, all: Values)
    requires IsMerged(start, parts, parts.Keys, all)
    ensures Contains(all, parts)
  {
  }

  /** The three groups, inserted one after the other. */
  method MergeThree(ghost l: Layout, fixed: map<Key, Values>, free: map<Key, Values>, manifolds: map<Key, Values>)
    returns (r: Result<Values>)
    requires ThreeParts(l, fixed, free, manifolds)
    ensures r.Ok? && IsUnion(l, fixed, free, manifolds, r.value)
  {
    PartKeysFollow(l, fixed);
    var first := MergeParts(map[], fixed);
    SecondGroupFits(l, fixed, free, first.value);
    var second := MergeParts(first.value, free);
    ThirdGroupFits(l, fixed, free, manifolds, first.value, second.value);
    r := MergeParts(second.value, manifolds);
    ThreeGroupsAreUnion(l, fixed, free, manifolds, first.value, second.value, r.value);
  }

  lemma SecondGroupFits(l: Layout, fixed: map<Key, Values>, free: map<Key, Values>, first: Values)
    requires PartsFollow(l.home, fixed) && FreePartsFollow(l, free) && l.unconstrained !! l.home.Keys
    requires IsMerged(map[], fixed, fixed.Keys, first)
    ensures first.Keys == HomedIn(l.home, fixed.Keys)
    ensures PartsDisjoint(first, free)
  {
    PartKeysFollow(l, fixed);
    MergedKeys(map[], fixed, first);
    FreeDisjoint(l, free, first);
  }

  lemma ThirdGroupFits(l: Layout, fixed: map<Key, Values>, free: map<Key, Values>, manifolds: map<Key, Values>,
                       first: Values, second: Values)
    requires ThreeParts(l, fixed, free, manifolds) && first.Keys == HomedIn(l.home, fixed.Keys)
    requires IsMerged(first, free, free.Keys, second)
    ensures second.Keys == HomedIn(l.home, fixed.Keys) + l.unconstrained
    ensures PartsDisjoint(second, manifolds)
  {
    FreePartKeys(l, free);
    MergedKeys(first, free, second);
    ManifoldsDisjoint(l, fixed, manifolds, second);
  }

  lemma ThreeGroupsAreUnion(l: Layout, fixed: map<Key, Values>, free: map<Key, Values>, manifolds: map<Key, Values>,
                            first: Values, second: Values, all: Values)
    requires ThreeParts(l, fixed, free, manifolds)
    requires IsMerged(map[], fixed, fixed.Keys, first) && IsMerged(first, free, free.Keys, second)
    requires IsMerged(second, manifolds, manifolds.Keys, all)
    requires second.Keys == HomedIn(l.home, fixed.Keys) + l.unconstrained
    ensures IsUnion(l, fixed, free, manifolds, all)
  {
    assert all.Keys == l.home.Keys + l.unconstrained by {
      PartKeysFollow(l, manifolds);
      MergedKeys(second, manifolds, all);
      ThreeGroupsCoverLayout(l, fixed, manifolds);
    }
    MergedContains(map[], fixed, first);
    ContainsSurvives(fixed, first, free, second);
    ContainsSurvives(fixed, second, manifolds, all);
    MergedContains(first, free, second);
    ContainsSurvives(free, second, manifolds, all);
    MergedContains(second, manifolds, all);
  }

  /** The keys of all parts. */
  ghost function PartKeys(parts: map<Key, Values>): set<Key> {
    set m, k | m in parts && k in parts[m] :: k
  }

  ghost function HomedIn(home: map<Key, Key>, manifolds: set<Key>): set<Key> {
    set k | k in home && home[k] in manifolds
  }

  lemma MergedKeys(start: Values, parts: map<Key, Values>, values: Values)
    requires IsMerged(start, parts, parts.Keys, values)
    ensures values.Keys == start.Keys + PartKeys(parts)
  {
    forall k | k in PartKeys(parts) ensures k in values {
      var m :| m in parts && k in parts[m];
    }
    forall k | k in values && k !in start ensures k in PartKeys(parts) {
      assert InSomePart(parts, parts.Keys, k);
    }
  }

  lemma PartKeysFollow(l: Layout, parts: map<Key, Values>)
    requires PartsFollow(l.home, parts)
    ensures PartKeys(parts) == HomedIn(l.home, parts.Keys)
    ensures PartsDisjoint(map[], parts)
  {
    forall k | k in HomedIn(l.home, parts.Keys) ensures k in PartKeys(parts) {
      assert k in parts[l.home[k]];
    }
  }

  lemma FreePartKeys(l: Layout, free: map<Key, Values>)
    requires FreePartsFollow(l, free)
    ensures PartKeys(free) == l.unconstrained
  {
    forall u | u in free ensures u in free[u] {
      assert u in free[u].Keys;
    }
    forall k | k in PartKeys(free) ensures k in l.unconstrained {
      var u :| u in free && k in free[u];
      assert k in free[u].Keys;
    }
  }

  lemma FreeDisjoint(l: Layout, free: map<Key, Values>, first: Values)
    requires FreePartsFollow(l, free) && first.Keys <= l.home.Keys && l.unconstrained !! l.home.Keys
    ensures PartsDisjoint(first, free)
  {
    forall u, k | u in free && k in free[u] ensures k == u && k !in first {
      assert k in free[u].Keys;
    }
  }

  lemma ManifoldsDisjoint(l: Layout, fixed: map<Key, Values>, manifolds: map<Key, Values>, second: Values)
    requires PartsFollow(l.home, manifolds) && fixed.Keys !! manifolds.Keys && l.unconstrained !! l.home.Keys
    requires second.Keys == HomedIn(l.home, fixed.Keys) + l.unconstrained
    ensures PartsDisjoint(second, manifolds)
  {
    forall m, k | m in manifolds && k in manifolds[m] ensures k !in second {
      assert k in l.home && l.home[k] == m;
      assert k !in HomedIn(l.home, fixed.Keys);
    }
  }

  lemma ThreeGroupsCoverLayout(l: Layout, fixed: map<Key, Values>, manifolds: map<Key, Values>)
    requires forall k :: k in l.home ==> l.home[k] in fixed.Keys + manifolds.Keys
    ensures HomedIn(l.home, fixed.Keys) + l.unconstrained + HomedIn(l.home, manifolds.Keys)
         == l.home.Keys + l.unconstrained
  {
  }

  lemma MergedValues(l: Layout, x: MixedValues, all: Values)
    requires IsLayout(l) && Fits(l, x)
    requires IsUnion(l, FixedParts(l.fixed), FreeParts(l.unconstrained, x),
                     ManifoldParts(l.manifoldKeys, x, Unretracted), all)
    ensures all == BaseValuesOf(l, x)
  {
    forall k | k in all ensures all[k] == BaseValuesOf(l, x)[k] {
      if k in l.unconstrained {
        assert k in FreeParts(l.unconstrained, x)[k];
      } else {
        MergedManifoldValue(l, x, all, k);
      }
    }
  }

  lemma MergedManifoldValue(l: Layout, x: MixedValues, all: Values, k: Key)
    requires IsLayout(l) && Fits(l, x) && k in all && k in BaseValuesOf(l, x) && k !in l.unconstrained
    requires IsUnion(l, FixedParts(l.fixed), FreeParts(l.unconstrained, x),
                     ManifoldParts(l.manifoldKeys, x, Unretracted), all)
    ensures all[k] == BaseValuesOf(l, x)[k]
  {
    if l.home[k] in l.fixed {
      assert HoldsItsVariables(l.home, l.home[k], l.fixed[l.home[k]].values);
      assert k in FixedParts(l.fixed)[l.home[k]];
    } else {
      assert HoldsItsVariables(l.home, l.home[k], x[l.home[k]].point.values);
      assert k in ManifoldParts(l.manifoldKeys, x, Unretracted)[l.home[k]];
    }
  }

  /** The next component adds one manifold, under a new key. */
  lemma NextPoint(ec: ConstrainedProblem, params: ManifoldParams, comps: seq<Component>, i: nat)
    requires ProperComponents(comps) && i < |comps|
    ensures ProperComponents(comps[..i]) && ProperComponents(comps[..i + 1])
    ensures
      var points, next := Points(ec, params, comps[..i]), Points(ec, params, comps[..i + 1]);
      var key, point := MinKey(comps[i].keys), PointOf(ec, params, comps[i]);
      && key !in points
      && FreePoints(next)
         == (if point.dim > 0 then FreePoints(points)[key := OnManifold(point)] else FreePoints(points))
      && FixedPoints(next) == (if point.dim > 0 then FixedPoints(points) else FixedPoints(points)[key := point])
    ensures forall c :: c in comps[..i + 1] <==> c in comps[..i] || c == comps[i]
  {
    ProperPrefix(comps, i);
    ProperPrefix(comps, i + 1);
    NewPointIsNew(ec, params, comps, i);
    var points, key, point := Points(ec, params, comps[..i]), MinKey(comps[i].keys), PointOf(ec, params, comps[i]);
    assert Points(ec, params, comps[..i + 1]) == points[key := point] by {
      assert comps[..i + 1][..i] == comps[..i];
    }
    AddPoint(points, key, point);
    assert comps[..i + 1] == comps[..i] + [comps[i]];
  }

  lemma AddPoint(points: Manifolds, key: Key, point: ManifoldValue)
    requires key !in points
    ensures FreePoints(points[key := point])
         == (if point.dim > 0 then FreePoints(points)[key := OnManifold(point)] else FreePoints(points))
    ensures FixedPoints(points[key := point])
         == (if point.dim > 0 then FixedPoints(points) else FixedPoints(points)[key := point])
  {
  }

  lemma NewPointIsNew(ec: ConstrainedProblem, params: ManifoldParams, comps: seq<Component>, i: nat)
    requires ProperComponents(comps) && i < |comps|
    ensures ProperComponents(comps[..i]) && MinKey(comps[i].keys) !in Points(ec, params, comps[..i])
  {
    ProperPrefix(comps, i);
    PointsAreTheComponents(ec, params, comps[..i]);
    if MinKey(comps[i].keys) in Points(ec, params, comps[..i]) {
      var n: nat :| IsFirstKey(comps[..i], n, MinKey(comps[i].keys));
      FirstKeysDiffer(comps, n, i);
    }
  }
}

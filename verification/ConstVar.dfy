/**
 * Factors with some variables held constant (ConstVarFactor), and the partial evaluation of a
 * whole factor graph (ConstVarGraph).
 */
module ConstVar {
  import opened Prelude
  import opened LinearAlgebra
  import opened Factors

  // ---------------------------------------------------------------------------------------
  // Splitting the keys of a factor

  /** The positions of the keys that are not fixed, in order. */
  function FreeIndices(keys: seq<Key>, fixed: set<Key>): (r: seq<nat>) {
    if keys == [] then []
    else
      var n := |keys| - 1;
      FreeIndices(keys[..n], fixed) + (if keys[n] in fixed then [] else [n])
  }

  /** The keys that are not fixed, in order. */
  function FreeKeys(keys: seq<Key>, fixed: set<Key>): (r: seq<Key>) {
    if keys == [] then []
    else
      var n := |keys| - 1;
      FreeKeys(keys[..n], fixed) + (if keys[n] in fixed then [] else [keys[n]])
  }

  /**
   * The new keys and their positions in the base factor correspond, positions increase, and a
   * position is listed exactly when its key is free.
   */
  lemma {:induction false} FreeKeysMatchIndices(keys: seq<Key>, fixed: set<Key>)
    ensures var ix := FreeIndices(keys, fixed); var ks := FreeKeys(keys, fixed);
      && |ix| == |ks|
      && (forall i :: 0 <= i < |ix| ==> ix[i] < |keys| && ks[i] == keys[ix[i]])
      && (forall i, j :: 0 <= i < j < |ix| ==> ix[i] < ix[j])
      && (forall n: nat :: n in ix <==> n < |keys| && keys[n] !in fixed)
  {
    if keys != [] {
      var n := |keys| - 1;
      FreeKeysMatchIndices(keys[..n], fixed);
      var ix := FreeIndices(keys[..n], fixed);
      assert forall m: nat :: m in ix <==> m < n && keys[m] !in fixed;
      assert forall i :: 0 <= i < |ix| ==> ix[i] in ix;
    }
  }

  lemma FreeKeysAreTheOthers(keys: seq<Key>, fixed: set<Key>)
    ensures Elements(FreeKeys(keys, fixed)) == Elements(keys) - fixed
  {
    FreeKeysMatchIndices(keys, fixed);
    var ix, ks := FreeIndices(keys, fixed), FreeKeys(keys, fixed);
    forall k ensures k in ks <==> k in keys && k !in fixed {
      if k in keys && k !in fixed {
        var n: nat :| n < |keys| && keys[n] == k;
        assert n in ix;
        var i :| 0 <= i < |ix| && ix[i] == n;
        assert ks[i] == k;
      }
      if k in ks {
        var i :| 0 <= i < |ks| && ks[i] == k;
        assert ix[i] in ix;
      }
    }
  }

  // ---------------------------------------------------------------------------------------
  // The factor

  /** A factor whose fixed variables take stored values; shared by the graphs that contain it. */
  class ConstVarFactor {
    const base: Factor
    const keys: seq<Key>
    const fixedKeys: set<Key>
    const baseKeyIndex: seq<nat>
    var fixedValues: Values

    ghost predicate Valid()
      reads this
    {
      && keys == FreeKeys(base.keys, fixedKeys)
      && baseKeyIndex == FreeIndices(base.keys, fixedKeys)
      && fixedKeys <= Elements(base.keys)
      && fixedValues.Keys <= fixedKeys
    }

    constructor (base: Factor, fixed: set<Key>)
      ensures Valid() && this.base == base && fixedValues == map[]
      ensures fixedKeys == Elements(base.keys) * fixed
      ensures keys == FreeKeys(base.keys, fixed)
    {
      var newKeys, fixedInFactor, index := SplitKeys(base.keys, fixed);
      SameSplit(base.keys, fixed, Elements(base.keys) * fixed);
      this.base := base;
      this.keys := newKeys;
      this.fixedKeys := fixedInFactor;
      this.baseKeyIndex := index;
      this.fixedValues := map[];
    }

    /** Values of variables that are not fixed here are ignored; known ones are overwritten. */
    method SetFixedValues(values: Values)
      requires Valid()
      modifies this
      ensures Valid()
      ensures fixedValues == old(fixedValues) + Restrict(values, fixedKeys)
    {
      var todo := values.Keys;
      while todo != {}
        invariant todo <= values.Keys
        invariant fixedValues == old(fixedValues) + Restrict(values, fixedKeys - todo)
        decreases todo
      {
        var key := MinKey(todo);
        if key in fixedKeys {
          RestrictGrows(old(fixedValues), values, fixedKeys - todo, key);
          assert fixedKeys - (todo - {key}) == fixedKeys - todo + {key};
          fixedValues := fixedValues[key := values[key]];
        } else {
          assert fixedKeys - (todo - {key}) == fixedKeys - todo;
        }
        todo := todo - {key};
      }
      assert fixedKeys - todo == fixedKeys;
    }

    /** The assignment handed to the base factor. */
    ghost function BaseValues(x: Values): Values
      reads this
    {
      x + fixedValues
    }

    ghost function Error(x: Values): real
      reads this
    {
      base.Error(BaseValues(x))
    }

    /**
     * The error vector and one Jacobian block per free key. Fails when `x` assigns a fixed key
     * or when some variable of the base factor has no value.
     */
    method UnwhitenedError(x: Values) returns (r: Result<(Vector, seq<Matrix>)>)
      requires Valid()
      requires WellShaped(base)
      ensures r.Ok? <==> x.Keys * fixedValues.Keys == {} && Elements(base.keys) <= x.Keys + fixedValues.Keys
      ensures r.Ok? ==> r.value.0 == base.unwhitened(BaseValues(x))
      ensures r.Ok? ==> IsSelection(r.value.1, base.jacobians(BaseValues(x)), baseKeyIndex)
    {
      if x.Keys * fixedValues.Keys != {} {
        var collision :| collision in x.Keys * fixedValues.Keys;
        return Err(KeyAlreadyExists(collision));
      }
      var baseX := x + fixedValues;
      if !(Elements(base.keys) <= baseX.Keys) {
        var missing :| missing in base.keys && missing !in baseX;
        assert missing in Elements(base.keys);
        return Err(KeyDoesNotExist(missing));
      }
      FreeKeysMatchIndices(base.keys, fixedKeys);
      assert forall i :: 0 <= i < |baseKeyIndex| ==> baseKeyIndex[i] < |base.keys|;
      var h := SelectBlocks(base.jacobians(baseX), baseKeyIndex);
      r := Ok((base.unwhitened(baseX), h));
    }
  }

  /** Slot `i` of `h` is the block of `baseH` at position `index[i]`. */
  ghost predicate IsSelection(h: seq<Matrix>, baseH: seq<Matrix>, index: seq<nat>) {
    |h| == |index| && forall i :: 0 <= i < |index| ==> index[i] < |baseH| && h[i] == baseH[index[i]]
  }

  /** Copies the Jacobian blocks of the free keys. */
  method SelectBlocks(baseH: seq<Matrix>, index: seq<nat>) returns (h: seq<Matrix>)
    requires forall i :: 0 <= i < |index| ==> index[i] < |baseH|
    ensures IsSelection(h, baseH, index)
  {
    h := [];
    for i := 0 to |index|
      invariant |h| == i
      invariant forall j :: 0 <= j < i ==> h[j] == baseH[index[j]]
    {
      h := h + [baseH[index[i]]];
    }
  }

  /** The three loops that split a factor's keys. */
  method SplitKeys(keys: seq<Key>, fixed: set<Key>)
    returns (newKeys: seq<Key>, fixedInFactor: set<Key>, index: seq<nat>)
    ensures newKeys == FreeKeys(keys, fixed)
    ensures fixedInFactor == Elements(keys) * fixed
    ensures index == FreeIndices(keys, fixed)
  {
    newKeys, fixedInFactor, index := [], {}, [];
    for i := 0 to |keys|
      invariant newKeys == FreeKeys(keys[..i], fixed)
      invariant fixedInFactor == Elements(keys[..i]) * fixed
      invariant index == FreeIndices(keys[..i], fixed)
    {
      assert keys[..i + 1][..i] == keys[..i];
      assert Elements(keys[..i + 1]) == Elements(keys[..i]) + {keys[i]};
      if keys[i] in fixed {
        fixedInFactor := fixedInFactor + {keys[i]};
      } else {
        newKeys := newKeys + [keys[i]];
        index := index + [i];
      }
    }
    assert keys[..|keys|] == keys;
  }

  /** Only membership of the factor's own keys matters for the split. */
  lemma {:induction false} SameSplit(keys: seq<Key>, a: set<Key>, b: set<Key>)
    requires forall k :: k in keys ==> (k in a <==> k in b)
    ensures FreeKeys(keys, a) == FreeKeys(keys, b) && FreeIndices(keys, a) == FreeIndices(keys, b)
  {
    if keys != [] {
      SameSplit(keys[..|keys| - 1], a, b);
    }
  }

  // ---------------------------------------------------------------------------------------
  // Graphs that mix plain factors, factors with constants, and priors

  datatype GraphFactor = Plain(factor: Factor) | ConstVar(constVar: ConstVarFactor) | Prior(key: Key, prior: Value) {
    function Keys(): seq<Key> {
      match this
      case Plain(f) => f.keys
      case ConstVar(c) => c.keys
      case Prior(k, _) => [k]
    }
  }

  type Graph = seq<GraphFactor>

  ghost function Objects(g: Graph): set<ConstVarFactor> {
    set i | 0 <= i < |g| && g[i].ConstVar? :: g[i].constVar
  }

  ghost predicate PriorFree(g: Graph) {
    forall e :: e in g ==> !e.Prior?
  }

  function KeysOfGraph(g: Graph): set<Key> {
    set i, k | 0 <= i < |g| && k in g[i].Keys() :: k
  }

  /** The error of a graph without priors. */
  ghost function GraphError(g: Graph, x: Values): real
    requires PriorFree(g)
    reads Objects(g)
  {
    if g == [] then 0.0
    else
      var n := |g| - 1;
      assert g[n] in g;
      GraphError(g[..n], x) + (match g[n]
                               case Plain(f) => f.Error(x)
                               case ConstVar(c) => c.Error(x))
  }

  /** `g` is `graph` with the keys in `fixed` held constant: fully fixed factors are gone. */
  ghost predicate IsPartialEvaluation(graph: seq<Factor>, fixed: set<Key>, g: Graph) {
    if graph == [] then g == []
    else
      var f, before := graph[|graph| - 1], graph[..|graph| - 1];
      if !f.Mentions(fixed) then
        |g| > 0 && g[|g| - 1] == Plain(f) && IsPartialEvaluation(before, fixed, g[..|g| - 1])
      else if FreeKeys(f.keys, fixed) == [] then
        IsPartialEvaluation(before, fixed, g)
      else
        && |g| > 0 && g[|g| - 1].ConstVar?
        && IsConstVarOf(g[|g| - 1].constVar, f, fixed)
        && IsPartialEvaluation(before, fixed, g[..|g| - 1])
  }

  ghost predicate IsConstVarOf(c: ConstVarFactor, f: Factor, fixed: set<Key>) {
    c.base == f && c.fixedKeys == Elements(f.keys) * fixed && c.keys == FreeKeys(f.keys, fixed)
  }

  /** The factors that lose all their keys. */
  function Dropped(graph: seq<Factor>, fixed: set<Key>): seq<Factor> {
    if graph == [] then []
    else
      var f, before := graph[|graph| - 1], graph[..|graph| - 1];
      Dropped(before, fixed) + (if f.Mentions(fixed) && FreeKeys(f.keys, fixed) == [] then [f] else [])
  }

  lemma PartialEvaluationAppend(graph: seq<Factor>, f: Factor, fixed: set<Key>, g: Graph, e: GraphFactor)
    requires IsPartialEvaluation(graph, fixed, g)
    requires f.Mentions(fixed) ==> FreeKeys(f.keys, fixed) != [] && e.ConstVar? && IsConstVarOf(e.constVar, f, fixed)
    requires !f.Mentions(fixed) ==> e == Plain(f)
    ensures IsPartialEvaluation(graph + [f], fixed, g + [e])
  {
    assert (graph + [f])[..|graph|] == graph;
    assert (g + [e])[..|g|] == g;
  }

  lemma PartialEvaluationSkip(graph: seq<Factor>, f: Factor, fixed: set<Key>, g: Graph)
    requires IsPartialEvaluation(graph, fixed, g) && f.Mentions(fixed) && FreeKeys(f.keys, fixed) == []
    ensures IsPartialEvaluation(graph + [f], fixed, g)
  {
    assert (graph + [f])[..|graph|] == graph;
  }

  /** What takes the place of one factor: itself, a factor with constants, or nothing. */
  method ReplaceFactor(f: Factor, fixed: set<Key>) returns (e: Option<GraphFactor>)
    ensures e.None? <==> f.Mentions(fixed) && FreeKeys(f.keys, fixed) == []
    ensures e.Some? && !f.Mentions(fixed) ==> e.value == Plain(f)
    ensures e.Some? && f.Mentions(fixed) ==> e.value.ConstVar? && IsConstVarOf(e.value.constVar, f, fixed)
    ensures e.Some? && e.value.ConstVar? ==>
      fresh(e.value.constVar) && e.value.constVar.Valid() && e.value.constVar.fixedValues == map[]
  {
    if f.Mentions(fixed) {
      var c := new ConstVarFactor(f, fixed);
      e := if c.keys != [] then Some(ConstVar(c)) else None;
    } else {
      e := Some(Plain(f));
    }
  }

  method ConstVarGraph(graph: seq<Factor>, fixed: set<Key>)
    returns (g: Graph, constVars: seq<ConstVarFactor>)
    ensures IsPartialEvaluation(graph, fixed, g)
    ensures forall c :: c in Objects(g) <==> c in constVars
    ensures forall c :: c in constVars ==> fresh(c) && c.Valid() && c.fixedValues == map[]
  {
    g, constVars := [], [];
    for i := 0 to |graph|
      invariant IsPartialEvaluation(graph[..i], fixed, g)
      invariant forall c :: c in Objects(g) <==> c in constVars
      invariant forall c :: c in constVars ==> fresh(c) && c.Valid() && c.fixedValues == map[]
    {
      assert graph[..i + 1] == graph[..i] + [graph[i]];
      var e := ReplaceFactor(graph[i], fixed);
      if e.Some? {
        PartialEvaluationAppend(graph[..i], graph[i], fixed, g, e.value);
        ObjectsAppend(g, e.value);
        g := g + [e.value];
        if e.value.ConstVar? {
          constVars := constVars + [e.value.constVar];
        }
      } else {
        PartialEvaluationSkip(graph[..i], graph[i], fixed, g);
      }
    }
    assert graph[..|graph|] == graph;
  }

  lemma ObjectsAppend(g: Graph, e: GraphFactor)
    ensures Objects(g + [e]) == Objects(g) + (if e.ConstVar? then {e.constVar} else {})
  {
    var h := g + [e];
    assert forall i :: 0 <= i < |g| ==> h[i] == g[i];
    assert h[|g|] == e;
    forall c | c in Objects(h) ensures c in Objects(g) + (if e.ConstVar? then {e.constVar} else {}) {
      var i :| 0 <= i < |h| && h[i].ConstVar? && h[i].constVar == c;
    }
    forall c | c in Objects(g) ensures c in Objects(h) {
      var i :| 0 <= i < |g| && g[i].ConstVar? && g[i].constVar == c;
      assert h[i].ConstVar? && h[i].constVar == c;
    }
    if e.ConstVar? {
      assert h[|g|].constVar in Objects(h);
    }
  }

  /** Gives every listed factor its fixed values. */
  method SetAllFixedValues(constVars: seq<ConstVarFactor>, values: Values)
    requires forall c :: c in constVars ==> c.Valid()
    modifies constVars
    ensures forall c :: c in constVars ==>
      c.Valid() && c.fixedValues == old(c.fixedValues) + Restrict(values, c.fixedKeys)
  {
    for i := 0 to |constVars|
      invariant forall c :: c in constVars ==> c.Valid()
      invariant forall c :: c in constVars[..i] ==> c.fixedValues == old(c.fixedValues) + Restrict(values, c.fixedKeys)
      invariant forall c :: c in constVars && c !in constVars[..i] ==> c.fixedValues == old(c.fixedValues)
    {
      constVars[i].SetFixedValues(values);
      assert constVars[..i + 1] == constVars[..i] + [constVars[i]];
    }
  }

  /** The second overload: partial evaluation at given values of the fixed keys. */
  method ConstVarGraphAt(graph: seq<Factor>, fixedValues: Values) returns (g: Graph)
    ensures IsPartialEvaluation(graph, fixedValues.Keys, g)
    ensures Holds(g, fixedValues)
  {
    var constVars;
    g, constVars := ConstVarGraph(graph, fixedValues.Keys);
    forall i | 0 <= i < |constVars| ensures fresh(constVars[i]) {
      assert constVars[i] in constVars;
    }
    SetAllFixedValues(constVars, fixedValues);
    PartialEvaluationObjects(graph, fixedValues.Keys, g);
  }

  /** Every factor with constants in `g` holds exactly the values `values` gives its fixed keys. */
  ghost predicate Holds(g: Graph, values: Values)
    reads Objects(g)
  {
    forall c :: c in Objects(g) ==> c.fixedKeys <= values.Keys && c.fixedValues == Restrict(values, c.fixedKeys)
  }

  lemma {:induction false} PartialEvaluationObjects(graph: seq<Factor>, fixed: set<Key>, g: Graph)
    requires IsPartialEvaluation(graph, fixed, g)
    ensures forall c :: c in Objects(g) ==> c.fixedKeys <= fixed
    ensures PriorFree(g)
  {
    if graph != [] {
      var f, before := graph[|graph| - 1], graph[..|graph| - 1];
      if f.Mentions(fixed) && FreeKeys(f.keys, fixed) == [] {
        PartialEvaluationObjects(before, fixed, g);
      } else {
        var h, e := g[..|g| - 1], g[|g| - 1];
        PartialEvaluationObjects(before, fixed, h);
        ObjectsAppend(h, e);
        assert g == h + [e];
      }
    }
  }

  /**
   * Partial evaluation is exact: at every assignment of the free keys, the new graph's error plus
   * the constant errors of the dropped factors is the original error at the joint assignment.
   */
  lemma {:induction false} PartialEvaluationIsExact(graph: seq<Factor>, fixed: set<Key>, g: Graph, fixedValues: Values,
                                                    x: Values)
    requires IsPartialEvaluation(graph, fixed, g) && PriorFree(g)
    requires AllLocal(graph)
    requires GraphKeys(graph) * fixed <= fixedValues.Keys
    requires x.Keys !! fixed && GraphKeys(graph) - fixed <= x.Keys
    requires Holds(g, fixedValues)
    ensures GraphError(g, x) + TotalError(Dropped(graph, fixed), fixedValues)
         == TotalError(graph, x + Restrict(fixedValues, fixed))
  {
    if graph != [] {
      var f, before := graph[|graph| - 1], graph[..|graph| - 1];
      assert f in graph && graph == before + [f];
      GraphKeysAppend(before, f);
      if f.Mentions(fixed) && FreeKeys(f.keys, fixed) == [] {
        PartialEvaluationIsExact(before, fixed, g, fixedValues, x);
        DroppedIsConstant(f, fixed, fixedValues, x);
        TotalErrorAppend(Dropped(before, fixed), f, fixedValues);
      } else {
        var h, e := g[..|g| - 1], g[|g| - 1];
        assert g == h + [e];
        assert e in g;
        HoldsBefore(h, e, fixedValues);
        PartialEvaluationIsExact(before, fixed, h, fixedValues, x);
        FactorIsExact(f, fixed, e, fixedValues, x);
        assert Dropped(before, fixed) + [] == Dropped(before, fixed);
      }
    }
  }

  lemma HoldsBefore(g: Graph, e: GraphFactor, values: Values)
    requires Holds(g + [e], values)
    ensures Holds(g, values)
    ensures e.ConstVar? ==> e.constVar.fixedValues == Restrict(values, e.constVar.fixedKeys)
  {
    ObjectsAppend(g, e);
  }

  /** A factor without free keys has the same error at every assignment of the others. */
  lemma DroppedIsConstant(f: Factor, fixed: set<Key>, fixedValues: Values, x: Values)
    requires Local(f) && FreeKeys(f.keys, fixed) == []
    requires Elements(f.keys) * fixed <= fixedValues.Keys
    ensures f.Error(x + Restrict(fixedValues, fixed)) == f.Error(fixedValues)
  {
    FreeKeysAreTheOthers(f.keys, fixed);
    forall k | k in f.keys ensures k in fixed && k in fixedValues {
      assert k in Elements(f.keys);
      assert k !in Elements(FreeKeys(f.keys, fixed));
    }
    assert Agree(x + Restrict(fixedValues, fixed), fixedValues, f.keys);
  }

  /** A factor that keeps some key has, held at the fixed values, its original error. */
  lemma FactorIsExact(f: Factor, fixed: set<Key>, e: GraphFactor, fixedValues: Values, x: Values)
    requires Local(f)
    requires if f.Mentions(fixed) then e.ConstVar? && IsConstVarOf(e.constVar, f, fixed) else e == Plain(f)
    requires Elements(f.keys) * fixed <= fixedValues.Keys
    requires x.Keys !! fixed && Elements(f.keys) - fixed <= x.Keys
    requires e.ConstVar? ==> e.constVar.fixedValues == Restrict(fixedValues, e.constVar.fixedKeys)
    ensures var joint := x + Restrict(fixedValues, fixed);
      f.Error(joint) == match e case Plain(p) => p.Error(x) case ConstVar(c) => c.Error(x)
  {
    var joint := x + Restrict(fixedValues, fixed);
    if e.ConstVar? {
      forall k | k in f.keys
        ensures k in joint && k in e.constVar.BaseValues(x) && joint[k] == e.constVar.BaseValues(x)[k]
      {
        assert k in Elements(f.keys);
      }
    } else {
      forall k | k in f.keys ensures k in x && k !in fixed {
        assert k in Elements(f.keys);
      }
      assert Agree(x, joint, f.keys);
    }
  }

  /** The partially evaluated graph mentions no fixed key, and every free key of a factor survives. */
  lemma {:induction false} PartialEvaluationKeys(graph: seq<Factor>, fixed: set<Key>, g: Graph)
    requires IsPartialEvaluation(graph, fixed, g)
    ensures KeysOfGraph(g) == GraphKeys(graph) - fixed
  {
    if graph != [] {
      var f, before := graph[|graph| - 1], graph[..|graph| - 1];
      FreeKeysAreTheOthers(f.keys, fixed);
      GraphKeysAppend(before, f);
      assert graph == before + [f];
      if f.Mentions(fixed) && FreeKeys(f.keys, fixed) == [] {
        PartialEvaluationKeys(before, fixed, g);
        assert forall k :: k in f.keys ==> k !in Elements(FreeKeys(f.keys, fixed));
      } else {
        var h, e := g[..|g| - 1], g[|g| - 1];
        PartialEvaluationKeys(before, fixed, h);
        assert g == h + [e];
        KeysOfGraphAppend(h, e);
      }
    }
  }

  lemma GraphKeysAppend(graph: seq<Factor>, f: Factor)
    ensures GraphKeys(graph + [f]) == GraphKeys(graph) + Elements(f.keys)
  {
    var all := graph + [f];
    forall k | k in GraphKeys(graph) ensures k in GraphKeys(all) {
      var i :| 0 <= i < |graph| && k in graph[i].keys;
      assert all[i] == graph[i];
    }
    forall k | k in f.keys ensures k in GraphKeys(all) {
      assert all[|graph|] == f;
    }
  }

  lemma KeysOfGraphAppend(g: Graph, e: GraphFactor)
    ensures KeysOfGraph(g + [e]) == KeysOfGraph(g) + Elements(e.Keys())
  {
    var all := g + [e];
    forall k | k in KeysOfGraph(g) ensures k in KeysOfGraph(all) {
      var i :| 0 <= i < |g| && k in g[i].Keys();
      assert all[i] == g[i];
    }
    forall k | k in e.Keys() ensures k in KeysOfGraph(all) {
      assert all[|g|] == e;
    }
  }
}

/**
 * Substitute factors: a cost factor rewritten so that its constrained variables are read from
 * constraint-manifold variables (SubstituteFactor).
 */
module Substitute {
  import opened Prelude
  import opened LinearAlgebra
  import opened Factors

  /**
   * A point on a constraint manifold: the values of the component's variables, the manifold's
   * dimension, and the Jacobian of each variable with respect to the manifold coordinates.
   */
  datatype ManifoldValue = ManifoldValue(values: Values, dim: nat, recover: map<Key, Matrix>)

  /** The value of a variable of the transformed problem. */
  datatype MixedValue = Free(value: Value) | OnManifold(point: ManifoldValue)

  type MixedValues = map<Key, MixedValue>

  type Manifolds = map<Key, ManifoldValue>

  datatype SubstituteFactor = SubstituteFactor(
    base: Factor,
    keys: seq<Key>,
    replacement: map<Key, Key>,
    manifoldKeys: set<Key>,
    unconstrainedKeys: set<Key>,
    fixedValues: Values,
    baseKeyIndex: map<Key, nat>)

  // ---------------------------------------------------------------------------------------
  // What each field of a substitute factor is

  /** The manifold variables (not the fixed ones) that replace some of the keys. */
  function ManifoldKeysOf(keys: seq<Key>, replacement: map<Key, Key>, fixed: set<Key>): set<Key> {
    set k | k in keys && k in replacement && replacement[k] !in fixed :: replacement[k]
  }

  function UnconstrainedKeysOf(keys: seq<Key>, replacement: map<Key, Key>): set<Key> {
    set k | k in keys && k !in replacement
  }

  predicate IsFixedKey(k: Key, replacement: map<Key, Key>, fixed: set<Key>) {
    k in replacement && replacement[k] in fixed
  }

  /** The new keys: each manifold variable once, where first needed, and the other keys as they are. */
  function NewKeys(keys: seq<Key>, replacement: map<Key, Key>, fixed: set<Key>): seq<Key> {
    if keys == [] then []
    else
      var before, k := keys[..|keys| - 1], keys[|keys| - 1];
      var new' := NewKeys(before, replacement, fixed);
      if k !in replacement then new' + [k]
      else if replacement[k] in fixed || replacement[k] in ManifoldKeysOf(before, replacement, fixed) then new'
      else new' + [replacement[k]]
  }

  /** More keys add new keys at the end: each stands where it was first needed. */
  lemma {:induction false} NewKeysInOrder(keys: seq<Key>, replacement: map<Key, Key>, fixed: set<Key>, n: nat)
    requires n <= |keys|
    ensures NewKeys(keys[..n], replacement, fixed) <= NewKeys(keys, replacement, fixed)
    decreases |keys|
  {
    if n < |keys| {
      var before := keys[..|keys| - 1];
      assert before[..n] == keys[..n];
      NewKeysInOrder(before, replacement, fixed, n);
    } else {
      assert keys[..n] == keys;
    }
  }

  lemma {:induction false} NewKeysAreTheVariables(keys: seq<Key>, replacement: map<Key, Key>, fixed: set<Key>)
    ensures Elements(NewKeys(keys, replacement, fixed))
         == UnconstrainedKeysOf(keys, replacement) + ManifoldKeysOf(keys, replacement, fixed)
  {
    if keys != [] {
      var before, k := keys[..|keys| - 1], keys[|keys| - 1];
      NewKeysAreTheVariables(before, replacement, fixed);
      assert keys == before + [k];
      ManifoldKeysAppend(before, k, replacement, fixed);
      assert UnconstrainedKeysOf(keys, replacement)
          == UnconstrainedKeysOf(before, replacement) + (if k in replacement then {} else {k});
    }
  }

  lemma ManifoldKeysAppend(before: seq<Key>, k: Key, replacement: map<Key, Key>, fixed: set<Key>)
    ensures ManifoldKeysOf(before + [k], replacement, fixed)
         == ManifoldKeysOf(before, replacement, fixed)
          + (if k in replacement && replacement[k] !in fixed then {replacement[k]} else {})
  {
    var all := before + [k];
    assert forall j :: j in all <==> j in before || j == k;
  }

  /**
   * Distinct base keys give distinct new keys, provided no manifold variable carries the name of
   * an unconstrained key.
   */
  lemma {:induction false} NewKeysAreDistinct(keys: seq<Key>, replacement: map<Key, Key>, fixed: set<Key>)
    requires NoDuplicates(keys)
    requires UnconstrainedKeysOf(keys, replacement) !! ManifoldKeysOf(keys, replacement, fixed)
    ensures NoDuplicates(NewKeys(keys, replacement, fixed))
  {
    if keys != [] {
      var before, k := keys[..|keys| - 1], keys[|keys| - 1];
      assert keys == before + [k];
      ManifoldKeysAppend(before, k, replacement, fixed);
      assert k in keys && k !in before;
      forall u | u in UnconstrainedKeysOf(before, replacement) ensures u in UnconstrainedKeysOf(keys, replacement) {
        assert u in keys;
      }
      NewKeysAreDistinct(before, replacement, fixed);
      NewKeysAreTheVariables(before, replacement, fixed);
      assert k !in replacement ==> k in UnconstrainedKeysOf(keys, replacement);
    }
  }

  /** The values of the base variables that lie on fully constrained manifolds. */
  function FixedValuesOf(keys: seq<Key>, replacement: map<Key, Key>, fixed: Manifolds): Values {
    map k | k in keys && IsFixedKey(k, replacement, fixed.Keys) && k in fixed[replacement[k]].values
      :: fixed[replacement[k]].values[k]
  }

  predicate FixedKeysRecoverable(keys: seq<Key>, replacement: map<Key, Key>, fixed: Manifolds) {
    forall k :: k in keys && IsFixedKey(k, replacement, fixed.Keys) ==> k in fixed[replacement[k]].values
  }

  /** Position of each key in the base factor; with repeated keys, the last one. */
  function IndexOf(keys: seq<Key>): (r: map<Key, nat>)
    ensures forall k :: k in r <==> k in keys
    ensures forall k :: k in r ==> r[k] < |keys| && keys[r[k]] == k
  {
    if keys == [] then map[] else IndexOf(keys[..|keys| - 1])[keys[|keys| - 1] := |keys| - 1]
  }

  /** The factor the constructor builds; an inactive one keeps its fields empty. */
  function Substituted(base: Factor, replacement: map<Key, Key>, fixed: Manifolds): SubstituteFactor {
    var keys := NewKeys(base.keys, replacement, fixed.Keys);
    if keys == [] then SubstituteFactor(base, keys, replacement, {}, {}, map[], map[])
    else SubstituteFactor(base, keys, replacement,
                          ManifoldKeysOf(base.keys, replacement, fixed.Keys),
                          UnconstrainedKeysOf(base.keys, replacement),
                          FixedValuesOf(base.keys, replacement, fixed),
                          IndexOf(base.keys))
  }

  /** A factor is inactive exactly when all its variables are fully constrained. */
  lemma InactiveIffAllFixed(base: Factor, replacement: map<Key, Key>, fixed: set<Key>)
    ensures NewKeys(base.keys, replacement, fixed) == [] <==> forall k :: k in base.keys ==>
      IsFixedKey(k, replacement, fixed)
  {
    var new' := NewKeys(base.keys, replacement, fixed);
    NewKeysAreTheVariables(base.keys, replacement, fixed);
    forall k | k in base.keys && !IsFixedKey(k, replacement, fixed) ensures new' != [] {
      var v := if k in replacement then replacement[k] else k;
      assert v in Elements(new');
    }
    if new' != [] {
      assert new'[0] in Elements(new');
    }
  }

  // ---------------------------------------------------------------------------------------
  // The constructor's loops

  method ComputeNewKeys(keys: seq<Key>, replacement: map<Key, Key>, fixed: Manifolds) returns (newKeys: seq<Key>)
    ensures newKeys == NewKeys(keys, replacement, fixed.Keys)
  {
    var manifoldKeys: set<Key> := {};
    newKeys := [];
    for i := 0 to |keys|
      invariant newKeys == NewKeys(keys[..i], replacement, fixed.Keys)
      invariant manifoldKeys == ManifoldKeysOf(keys[..i], replacement, fixed.Keys)
    {
      assert keys[..i + 1] == keys[..i] + [keys[i]];
      ManifoldKeysAppend(keys[..i], keys[i], replacement, fixed.Keys);
      if keys[i] in replacement {
        var newKey := replacement[keys[i]];
        if newKey !in fixed {
          if newKey !in manifoldKeys {
            newKeys := newKeys + [newKey];
            manifoldKeys := manifoldKeys + {newKey};
          }
        }
      } else {
        newKeys := newKeys + [keys[i]];
      }
    }
    assert keys[..|keys|] == keys;
  }

  method ComputeBaseKeyIndex(keys: seq<Key>) returns (index: map<Key, nat>)
    ensures index == IndexOf(keys)
  {
    index := map[];
    for i := 0 to |keys|
      invariant index == IndexOf(keys[..i])
    {
      assert keys[..i + 1] == keys[..i] + [keys[i]];
      index := index[keys[i] := i];
    }
    assert keys[..|keys|] == keys;
  }

  /** No key on a fixed manifold is listed twice. */
  ghost predicate FixedKeysDistinct(keys: seq<Key>, replacement: map<Key, Key>, fixed: set<Key>) {
    forall i, j :: 0 <= i < j < |keys| && IsFixedKey(keys[i], replacement, fixed) ==> keys[i] != keys[j]
  }

  /** Sorts the base keys into fixed values, manifold variables and unconstrained variables. */
  method ClassifyKeys(keys: seq<Key>, replacement: map<Key, Key>, fixed: Manifolds)
    returns (r: Result<(Values, set<Key>, set<Key>)>)
    ensures r.Ok?
       <==> FixedKeysRecoverable(keys, replacement, fixed) && FixedKeysDistinct(keys, replacement, fixed.Keys)
    ensures r.Ok? ==> r.value == (FixedValuesOf(keys, replacement, fixed),
                                  ManifoldKeysOf(keys, replacement, fixed.Keys),
                                  UnconstrainedKeysOf(keys, replacement))
  {
    var fixedValues: Values, manifoldKeys: set<Key>, unconstrained: set<Key> := map[], {}, {};
    for i := 0 to |keys|
      invariant FixedKeysRecoverable(keys[..i], replacement, fixed)
      invariant FixedKeysDistinct(keys[..i], replacement, fixed.Keys)
      invariant fixedValues == FixedValuesOf(keys[..i], replacement, fixed)
      invariant manifoldKeys == ManifoldKeysOf(keys[..i], replacement, fixed.Keys)
      invariant unconstrained == UnconstrainedKeysOf(keys[..i], replacement)
    {
      var key := keys[i];
      assert keys[..i + 1] == keys[..i] + [key];
      ManifoldKeysAppend(keys[..i], key, replacement, fixed.Keys);
      if key in replacement {
        var newKey := replacement[key];
        if newKey in fixed {
          if key !in fixed[newKey].values {
            assert IsFixedKey(key, replacement, fixed.Keys);
            return Err(KeyDoesNotExist(key));
          }
          if key in fixedValues {
            RepeatedKey(keys, i, replacement, fixed.Keys);
            return Err(KeyAlreadyExists(key));
          }
          ClassifyFixed(keys[..i], key, replacement, fixed);
          fixedValues := fixedValues[key := fixed[newKey].values[key]];
        } else {
          ClassifyFree(keys[..i], key, replacement, fixed);
          manifoldKeys := manifoldKeys + {newKey};
        }
      } else {
        ClassifyFree(keys[..i], key, replacement, fixed);
        unconstrained := unconstrained + {key};
      }
    }
    assert keys[..|keys|] == keys;
    r := Ok((fixedValues, manifoldKeys, unconstrained));
  }

  lemma ClassifyFixed(before: seq<Key>, k: Key, replacement: map<Key, Key>, fixed: Manifolds)
    requires FixedKeysRecoverable(before, replacement, fixed) && FixedKeysDistinct(before, replacement, fixed.Keys)
    requires IsFixedKey(k, replacement, fixed.Keys) && k in fixed[replacement[k]].values
    requires k !in FixedValuesOf(before, replacement, fixed)
    ensures FixedKeysRecoverable(before + [k], replacement, fixed)
    ensures FixedKeysDistinct(before + [k], replacement, fixed.Keys)
    ensures FixedValuesOf(before + [k], replacement, fixed)
         == FixedValuesOf(before, replacement, fixed)[k := fixed[replacement[k]].values[k]]
    ensures UnconstrainedKeysOf(before + [k], replacement) == UnconstrainedKeysOf(before, replacement)
  {
    assert forall j :: j in before + [k] <==> j in before || j == k;
    assert k !in before;
  }

  lemma ClassifyFree(before: seq<Key>, k: Key, replacement: map<Key, Key>, fixed: Manifolds)
    requires FixedKeysRecoverable(before, replacement, fixed) && FixedKeysDistinct(before, replacement, fixed.Keys)
    requires !IsFixedKey(k, replacement, fixed.Keys)
    ensures FixedKeysRecoverable(before + [k], replacement, fixed)
    ensures FixedKeysDistinct(before + [k], replacement, fixed.Keys)
    ensures FixedValuesOf(before + [k], replacement, fixed) == FixedValuesOf(before, replacement, fixed)
    ensures UnconstrainedKeysOf(before + [k], replacement)
         == UnconstrainedKeysOf(before, replacement) + if k in replacement then {} else {k}
  {
    assert forall j :: j in before + [k] <==> j in before || j == k;
    forall j | j in before && IsFixedKey(j, replacement, fixed.Keys) ensures j != k {
    }
  }

  lemma RepeatedKey(keys: seq<Key>, i: nat, replacement: map<Key, Key>, fixed: set<Key>)
    requires i < |keys| && keys[i] in keys[..i] && IsFixedKey(keys[i], replacement, fixed)
    ensures !FixedKeysDistinct(keys, replacement, fixed)
  {
    var j :| 0 <= j < i && keys[..i][j] == keys[i];
    assert keys[j] == keys[i];
  }

  /** The constructor. Keys are classified only when the factor has a free key left. */
  method MakeSubstituteFactor(base: Factor, replacement: map<Key, Key>, fixed: Manifolds)
    returns (r: Result<SubstituteFactor>)
    ensures r.Ok? <==> (NewKeys(base.keys, replacement, fixed.Keys) != [] ==>
      FixedKeysRecoverable(base.keys, replacement, fixed) && FixedKeysDistinct(base.keys, replacement, fixed.Keys))
    ensures r.Ok? ==> r.value == Substituted(base, replacement, fixed)
  {
    var keys := ComputeNewKeys(base.keys, replacement, fixed);
    if keys == [] {
      return Ok(SubstituteFactor(base, keys, replacement, {}, {}, map[], map[]));
    }
    var index := ComputeBaseKeyIndex(base.keys);
    var classified := ClassifyKeys(base.keys, replacement, fixed);
    match classified {
      case Ok((fixedValues, manifoldKeys, unconstrained)) =>
        r := Ok(SubstituteFactor(base, keys, replacement, manifoldKeys, unconstrained, fixedValues, index));
      case Err(e) =>
        r := Err(e);
    }
  }

  // ---------------------------------------------------------------------------------------
  // The error

  /**
   * The assignment suits the factor: unconstrained keys hold plain values, and each manifold
   * variable holds exactly those base variables of the factor that it replaces.
   */
  ghost predicate Suits(s: SubstituteFactor, x: MixedValues) {
    && (forall k :: k in s.unconstrainedKeys ==> k in x && x[k].Free?)
    && (forall m :: m in s.manifoldKeys ==> m in x && x[m].OnManifold?)
    && (forall m, k :: m in s.manifoldKeys && k in s.base.keys ==>
          (k in x[m].point.values <==> k in s.replacement && s.replacement[k] == m))
  }

  /** The key moves with a manifold variable of the factor. */
  ghost predicate Moves(s: SubstituteFactor, k: Key) {
    k in s.replacement && s.replacement[k] in s.manifoldKeys
  }

  /** There is somewhere to read the key's value from. */
  ghost predicate HasSource(s: SubstituteFactor, k: Key) {
    k in s.fixedValues || k in s.unconstrainedKeys || Moves(s, k)
  }

  /** The value the base factor sees for key `k`. */
  ghost function Lookup(s: SubstituteFactor, x: MixedValues, k: Key): Value
    requires Suits(s, x) && k in s.base.keys
    requires HasSource(s, k)
  {
    if k in s.fixedValues then s.fixedValues[k]
    else if k in s.unconstrainedKeys then x[k].value
    else x[s.replacement[k]].point.values[k]
  }

  /** The keys of the base factor that come from the given manifold variables. */
  ghost function Replaced(s: SubstituteFactor, ms: set<Key>): set<Key> {
    set k | k in s.base.keys && k in s.replacement && s.replacement[k] in ms
  }

  /** The fields are those of a constructed active factor. */
  ghost predicate Consistent(s: SubstituteFactor) {
    && s.unconstrainedKeys == UnconstrainedKeysOf(s.base.keys, s.replacement)
    && s.manifoldKeys !! s.unconstrainedKeys
    && (forall k :: k in s.fixedValues ==>
          k in s.base.keys && k in s.replacement && s.replacement[k] !in s.manifoldKeys)
    && (forall k :: k in s.base.keys ==>
          HasSource(s, k))
  }

  /** The assignment handed to the base factor: exactly its keys, each with the value it stands for. */
  ghost function BaseAssignment(s: SubstituteFactor, x: MixedValues): (b: Values)
    requires Suits(s, x) && Consistent(s)
  {
    map k | k in s.base.keys :: Lookup(s, x, k)
  }

  /** No listed key that has a value is listed twice. */
  ghost predicate SelectedDistinct(keys: seq<Key>, values: Values) {
    forall i, j :: 0 <= i < j < |keys| && keys[j] in values ==> keys[i] != keys[j]
  }

  lemma SelectedDistinctNext(keys: seq<Key>, values: Values, i: nat)
    requires i < |keys|
    ensures SelectedDistinct(keys[..i + 1], values)
       <==> SelectedDistinct(keys[..i], values) && (keys[i] in values ==> keys[i] !in keys[..i])
    ensures SelectedDistinct(keys, values) ==> SelectedDistinct(keys[..i + 1], values)
  {
    var some, more := keys[..i], keys[..i + 1];
    if SelectedDistinct(more, values) {
      forall a, b | 0 <= a < b < i && some[b] in values ensures some[a] != some[b] {
        assert more[a] != more[b];
      }
      assert forall j :: 0 <= j < i && more[i] in values ==> more[j] != more[i];
    }
    if SelectedDistinct(some, values) && (keys[i] in values ==> keys[i] !in some) {
      forall a, b | 0 <= a < b < i + 1 && more[b] in values ensures more[a] != more[b] {
        if b < i {
          assert some[a] != some[b];
        } else {
          assert some[a] in some;
        }
      }
    }
  }

  /** Copies the values of the listed keys; a key that is already there is an error. */
  method InsertSelected(values: Values, keys: seq<Key>, output: Values) returns (r: Result<Values>)
    ensures r.Ok? <==> values.Keys * Elements(keys) * output.Keys == {} && SelectedDistinct(keys, values)
    ensures r.Ok? ==> r.value == output + Restrict(values, Elements(keys))
  {
    var result: Values := output;
    for i := 0 to |keys|
      invariant result == output + Restrict(values, Elements(keys[..i]))
      invariant values.Keys * Elements(keys[..i]) * output.Keys == {} && SelectedDistinct(keys[..i], values)
    {
      var key := keys[i];
      PrefixElements(keys, i);
      SelectedDistinctNext(keys, values, i);
      RestrictGrows(output, values, Elements(keys[..i]), key);
      if key in values {
        if key in result {
          assert key in keys;
          assert key in Elements(keys[..i]) || key in values.Keys * Elements(keys) * output.Keys;
          return Err(KeyAlreadyExists(key));
        }
        result := result[key := values[key]];
      }
    }
    assert keys[..|keys|] == keys;
    r := Ok(result);
  }

  /** Adds the values of the unconstrained variables. */
  method GatherUnconstrained(s: SubstituteFactor, x: MixedValues) returns (r: Result<Values>)
    requires Suits(s, x) && Consistent(s)
    ensures r.Ok? && IsGathered(s, x, r.value, s.fixedValues.Keys + s.unconstrainedKeys)
  {
    var baseX: Values := s.fixedValues;
    var todo := s.unconstrainedKeys;
    while todo != {}
      invariant todo <= s.unconstrainedKeys
      invariant IsGathered(s, x, baseX, s.fixedValues.Keys + (s.unconstrainedKeys - todo))
      decreases todo
    {
      var key := MinKey(todo);
      if key in baseX {
        return Err(KeyAlreadyExists(key));
      }
      baseX := baseX[key := x[key].value];
      todo := todo - {key};
    }
    assert s.unconstrainedKeys - {} == s.unconstrainedKeys;
    r := Ok(baseX);
  }

  /** Adds the values held by the manifold variables. */
  method GatherManifolds(s: SubstituteFactor, x: MixedValues, start: Values) returns (r: Result<Values>)
    requires Suits(s, x) && Consistent(s)
    requires IsGathered(s, x, start, s.fixedValues.Keys + s.unconstrainedKeys)
    ensures r.Ok? <==> MovedKeysDistinct(s)
    ensures r.Ok? ==> IsGathered(s, x, r.value, s.fixedValues.Keys + s.unconstrainedKeys + Replaced(s, s.manifoldKeys))
  {
    var baseX := start;
    var todo := s.manifoldKeys;
    while todo != {}
      invariant todo <= s.manifoldKeys
      invariant IsGathered(s, x, baseX, s.fixedValues.Keys + s.unconstrainedKeys + Replaced(s, s.manifoldKeys - todo))
      invariant forall m :: m in s.manifoldKeys - todo ==> SelectedDistinct(s.base.keys, x[m].point.values)
      decreases todo
    {
      var key := MinKey(todo);
      NoCollision(s, x, baseX, todo, key);
      var inserted := InsertSelected(x[key].point.values, s.base.keys, baseX);
      if inserted.Err? {
        MovedOnEach(s, x);
        return inserted;
      }
      GatherManifold(s, x, baseX, inserted.value, todo, key);
      baseX := inserted.value;
      todo := todo - {key};
    }
    assert s.manifoldKeys - {} == s.manifoldKeys;
    MovedOnEach(s, x);
    r := Ok(baseX);
  }

  /** No variable that moves with a manifold is listed twice. */
  ghost predicate MovedKeysDistinct(s: SubstituteFactor) {
    forall i, j :: 0 <= i < j < |s.base.keys| && Moves(s, s.base.keys[j]) ==> s.base.keys[i] != s.base.keys[j]
  }

  lemma MovedOnEach(s: SubstituteFactor, x: MixedValues)
    requires Suits(s, x)
    ensures MovedKeysDistinct(s) <==> forall m :: m in s.manifoldKeys ==>
      SelectedDistinct(s.base.keys, x[m].point.values)
  {
    var keys := s.base.keys;
    if MovedKeysDistinct(s) {
      forall m, i, j | m in s.manifoldKeys && 0 <= i < j < |keys| && keys[j] in x[m].point.values
        ensures keys[i] != keys[j]
      {
        assert keys[j] in keys;
      }
    }
    if forall m :: m in s.manifoldKeys ==> SelectedDistinct(keys, x[m].point.values) {
      forall i, j | 0 <= i < j < |keys| && Moves(s, keys[j]) ensures keys[i] != keys[j] {
        assert SelectedDistinct(keys, x[s.replacement[keys[j]]].point.values);
        assert keys[j] in keys;
      }
    }
  }

  /**
   * Rebuilds the base factor's assignment from the new variables. Fails exactly when a variable
   * that moves with a manifold is listed twice.
   */
  method Rebuild(s: SubstituteFactor, x: MixedValues) returns (r: Result<Values>)
    requires Suits(s, x) && Consistent(s)
    ensures r.Ok? <==> MovedKeysDistinct(s)
    ensures r.Ok? ==> r.value == BaseAssignment(s, x)
  {
    var plain := GatherUnconstrained(s, x);
    r := GatherManifolds(s, x, plain.value);
    assert r.Ok? ==> r.value == BaseAssignment(s, x);
  }

  /** Evaluates the base factor at the rebuilt assignment, if there is one. */
  method UnwhitenedError(s: SubstituteFactor, x: MixedValues) returns (r: Result<Vector>)
    requires Suits(s, x) && Consistent(s)
    ensures r.Ok? <==> MovedKeysDistinct(s)
    ensures r.Ok? ==> r.value == s.base.unwhitened(BaseAssignment(s, x))
  {
    var all := Rebuild(s, x);
    if all.Err? {
      return Err(all.error);
    }
    r := Ok(s.base.unwhitened(all.value));
  }

  /** An input for the failure: a factor on key 1 twice, whose variable lives on the manifold of key 1. */
  method RepeatedMovingKeyFails(base: Factor, point: ManifoldValue)
    returns (made: Result<SubstituteFactor>, evaluated: Result<Vector>)
    requires base.keys == [1, 1] && 1 in point.values
    ensures made == Ok(Substituted(base, map[1 := 1], map[])) && made.value.keys == [1]
    ensures evaluated.Err?
  {
    var replacement: map<Key, Key>, x: MixedValues := map[1 := 1], map[1 := OnManifold(point)];
    FirstKeyRepeated(base, replacement, map[]);
    made := MakeSubstituteFactor(base, replacement, map[]);
    evaluated := UnwhitenedError(made.value, x);
  }

  lemma FirstKeyRepeated(base: Factor, replacement: map<Key, Key>, none: Manifolds)
    requires base.keys == [1, 1] && replacement == map[1 := 1] && none == map[]
    ensures var s := Substituted(base, replacement, none);
      && s.keys == [1] && s.manifoldKeys == {1} && s.unconstrainedKeys == {} && s.fixedValues == map[]
      && !MovedKeysDistinct(s)
  {
    assert none.Keys == {} && base.keys[..1] == [1] && [1][..0] == [];
    assert NewKeys([1], replacement, {}) == [1];
    assert forall k :: k in base.keys <==> k == 1;
    assert ManifoldKeysOf([1], replacement, {}) == {1} by {
      assert 1 in [1];
    }
    assert ManifoldKeysOf(base.keys, replacement, {}) == {1} by {
      assert 1 in base.keys;
    }
    assert base.keys[0] == base.keys[1];
  }

  /** `values` holds what the factor should see, for exactly the given base keys. */
  ghost predicate IsGathered(s: SubstituteFactor, x: MixedValues, values: Values, keys: set<Key>)
    requires Suits(s, x) && Consistent(s)
  {
    && values.Keys == keys && keys <= Elements(s.base.keys)
    && forall k :: k in values ==> values[k] == Lookup(s, x, k)
  }

  /** A manifold variable holds no base key gathered before it. */
  lemma NoCollision(s: SubstituteFactor, x: MixedValues, before: Values, todo: set<Key>, m: Key)
    requires Suits(s, x) && Consistent(s) && todo <= s.manifoldKeys && m in todo
    requires IsGathered(s, x, before, s.fixedValues.Keys + s.unconstrainedKeys + Replaced(s, s.manifoldKeys - todo))
    ensures x[m].point.values.Keys * Elements(s.base.keys) * before.Keys == {}
  {
    forall k | k in x[m].point.values && k in s.base.keys ensures k !in before {
      assert k in s.replacement && s.replacement[k] == m;
    }
  }

  lemma GatherManifold(s: SubstituteFactor, x: MixedValues, before: Values, after: Values, todo: set<Key>, m: Key)
    requires Suits(s, x) && Consistent(s) && todo <= s.manifoldKeys && m in todo
    requires IsGathered(s, x, before, s.fixedValues.Keys + s.unconstrainedKeys + Replaced(s, s.manifoldKeys - todo))
    requires after == before + Restrict(x[m].point.values, Elements(s.base.keys))
    ensures IsGathered(s, x, after,
                       s.fixedValues.Keys + s.unconstrainedKeys + Replaced(s, s.manifoldKeys - (todo - {m})))
  {
    forall k ensures k in x[m].point.values && k in s.base.keys <==> k in Replaced(s, {m}) {
    }
    assert Replaced(s, s.manifoldKeys - (todo - {m})) == Replaced(s, s.manifoldKeys - todo) + Replaced(s, {m});
  }
}

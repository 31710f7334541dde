/** Values, factors and factor graphs, as the rest of the project sees them. */
module Factors {
  import opened Prelude
  import opened LinearAlgebra

  /** A variable's value, as its stored coordinates. */
  type Value = Vector

  /** An assignment of values to keys. */
  type Values = map<Key, Value>

  /**
   * A cost or constraint factor: its keys, its error before weighting, one Jacobian block per
   * key, and the noise model that turns an error vector into a scalar.
   */
  datatype Factor = Factor(keys: seq<Key>, unwhitened: Values -> Vector,
                           jacobians: Values -> seq<Matrix>, noise: Vector -> real)
  {
    function Error(x: Values): real {
      noise(unwhitened(x))
    }

    /** Whether a key of the factor belongs to `keys'`. */
    predicate Mentions(keys': set<Key>) {
      exists k :: k in keys && k in keys'
    }
  }

  /** The two assignments give every listed key the same value. */
  ghost predicate Agree(x: Values, y: Values, keys: seq<Key>) {
    forall k :: k in keys ==> k in x && k in y && x[k] == y[k]
  }

  /** A factor looks at nothing but the values of its own keys. */
  ghost predicate Local(f: Factor) {
    forall x, y :: Agree(x, y, f.keys) ==> f.unwhitened(x) == f.unwhitened(y) && f.jacobians(x) == f.jacobians(y)
  }

  /** There is one Jacobian block per key. */
  ghost predicate WellShaped(f: Factor) {
    forall x :: |f.jacobians(x)| == |f.keys|
  }

  ghost predicate AllLocal(graph: seq<Factor>) {
    forall f :: f in graph ==> Local(f)
  }

  /** The keys of a graph's factors. */
  function GraphKeys(graph: seq<Factor>): set<Key> {
    set i, k | 0 <= i < |graph| && k in graph[i].keys :: k
  }

  /** The error of a graph: the sum over its factors. */
  function TotalError(graph: seq<Factor>, x: Values): real {
    if graph == [] then 0.0
    else TotalError(graph[..|graph| - 1], x) + graph[|graph| - 1].Error(x)
  }

  lemma TotalErrorAppend(graph: seq<Factor>, f: Factor, x: Values)
    ensures TotalError(graph + [f], x) == TotalError(graph, x) + f.Error(x)
  {
    assert (graph + [f])[..|graph|] == graph;
  }

  function Restrict(x: Values, keys: set<Key>): (r: Values)
    ensures r.Keys == x.Keys * keys
    ensures forall k :: k in r ==> r[k] == x[k]
  {
    map k | k in x && k in keys :: x[k]
  }

  lemma RestrictGrows(output: Values, x: Values, keys: set<Key>, key: Key)
    ensures output + Restrict(x, keys + {key})
         == if key in x then (output + Restrict(x, keys))[key := x[key]] else output + Restrict(x, keys)
  {
  }

  lemma ErrorDependsOnKeys(f: Factor, x: Values, y: Values)
    requires Local(f) && Agree(x, y, f.keys)
    ensures f.Error(x) == f.Error(y)
  {
  }

  /** Copies the values of some keys; fails at a key without one. */
  method SelectValues(values: Values, keys: set<Key>) returns (r: Result<Values>)
    ensures r.Ok? <==> keys <= values.Keys
    ensures r.Ok? ==> r.value == Restrict(values, keys)
  {
    var missing := keys - values.Keys;
    if missing != {} {
      return Err(KeyDoesNotExist(MinKey(missing)));
    }
    assert forall k :: k in keys ==> k !in missing;
    r := Ok(Restrict(values, keys));
  }
}

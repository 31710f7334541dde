/**
 * The retractor for kinodynamic manifolds (DynamicsRetractor): poses and angles first, then
 * velocities, then accelerations and forces, each level holding the earlier ones constant.
 */
module DynamicsRetraction {
  import opened Prelude
  import opened LinearAlgebra
  import opened Factors
  import opened ConstVar

  /** The label part of a key's symbol. */
  type Labels = Key -> string

  function IsQLevel(name: string): bool {
    name == "p" || name == "q"
  }

  function IsVLevel(name: string): bool {
    name == "V" || name == "v"
  }

  /** The level of a variable: 0 for poses and angles, 1 for velocities, 2 for the rest. */
  function LevelOf(labels: Labels, k: Key): nat {
    if IsQLevel(labels(k)) then 0 else if IsVLevel(labels(k)) then 1 else 2
  }

  /** The level of a factor: the highest level among its keys. */
  function FactorLevel(labels: Labels, keys: seq<Key>): (l: nat)
    ensures l <= 2
    ensures forall k :: k in keys ==> LevelOf(labels, k) <= l
    ensures l > 0 ==> exists k :: k in keys && LevelOf(labels, k) == l
  {
    if keys == [] then 0
    else
      var before, k := FactorLevel(labels, keys[..|keys| - 1]), keys[|keys| - 1];
      assert forall j :: j in keys ==> j in keys[..|keys| - 1] || j == k;
      assert k in keys;
      if LevelOf(labels, k) > before then LevelOf(labels, k) else before
  }

  /** The factors of one level, in order. */
  function AtLevel(labels: Labels, graph: seq<Factor>, level: nat): seq<Factor> {
    if graph == [] then []
    else
      AtLevel(labels, graph[..|graph| - 1], level) +
      (if FactorLevel(labels, graph[|graph| - 1].keys) == level then [graph[|graph| - 1]] else [])
  }

  function KeysAtLevel(labels: Labels, keys: set<Key>, level: nat): set<Key> {
    set k | k in keys && LevelOf(labels, k) == level
  }

  // ---------------------------------------------------------------------------------------
  // The split into levels

  /** Every factor is in exactly one of the three graphs, so their errors add up. */
  lemma {:induction false} LevelsAddUp(labels: Labels, graph: seq<Factor>, x: Values)
    ensures TotalError(AtLevel(labels, graph, 0), x) + TotalError(AtLevel(labels, graph, 1), x)
          + TotalError(AtLevel(labels, graph, 2), x)
         == TotalError(graph, x)
  {
    if graph != [] {
      hide AtLevel, TotalError, FactorLevel;
      var before, f := graph[..|graph| - 1], graph[|graph| - 1];
      LevelsAddUp(labels, before, x);
      assert graph == before + [f];
      TotalErrorAppend(before, f, x);
      AtLevelAppend(labels, before, f, 0, x);
      AtLevelAppend(labels, before, f, 1, x);
      AtLevelAppend(labels, before, f, 2, x);
    }
  }

  lemma AtLevelAppend(labels: Labels, before: seq<Factor>, f: Factor, level: nat, x: Values)
    ensures TotalError(AtLevel(labels, before + [f], level), x)
         == TotalError(AtLevel(labels, before, level), x)
          + if FactorLevel(labels, f.keys) == level then f.Error(x) else 0.0
  {
    assert (before + [f])[..|before|] == before;
    var some := AtLevel(labels, before, level);
    if FactorLevel(labels, f.keys) == level {
      TotalErrorAppend(some, f, x);
    } else {
      assert some + [] == some;
    }
  }

  /** The factors of a level keep their order. */
  lemma {:induction false} LevelInOrder(labels: Labels, graph: seq<Factor>, level: nat, n: nat)
    requires n < |graph|
    ensures
      var before := AtLevel(labels, graph[..n], level);
      var here := if FactorLevel(labels, graph[n].keys) == level then [graph[n]] else [];
      before + here <= AtLevel(labels, graph, level)
    decreases |graph|
  {
    hide FactorLevel;
    if n + 1 < |graph| {
      var some := graph[..|graph| - 1];
      assert some[..n] == graph[..n];
      LevelInOrder(labels, some, level, n);
    } else {
      assert graph[..n] == graph[..|graph| - 1];
    }
  }

  lemma {:induction false} FactorsAtLevel(labels: Labels, graph: seq<Factor>, level: nat)
    ensures forall f :: f in AtLevel(labels, graph, level) ==> f in graph && FactorLevel(labels, f.keys) == level
  {
    if graph != [] {
      FactorsAtLevel(labels, graph[..|graph| - 1], level);
    }
  }

  lemma {:induction false} IsAtItsLevel(labels: Labels, graph: seq<Factor>, i: nat)
    requires i < |graph|
    ensures Elements(graph[i].keys) <= GraphKeys(AtLevel(labels, graph, FactorLevel(labels, graph[i].keys)))
  {
    var n, level := |graph| - 1, FactorLevel(labels, graph[i].keys);
    var before := AtLevel(labels, graph[..n], level);
    if i < n {
      IsAtItsLevel(labels, graph[..n], i);
      if FactorLevel(labels, graph[n].keys) == level {
        GraphKeysAppend(before, graph[n]);
      } else {
        assert before + [] == before;
      }
    } else {
      GraphKeysAppend(before, graph[n]);
    }
  }

  /** The keys of a level's factors belong to the graph and are of that level or below. */
  lemma KeysOfLevel(labels: Labels, graph: seq<Factor>, level: nat)
    ensures GraphKeys(AtLevel(labels, graph, level)) <= GraphKeys(graph)
    ensures forall k :: k in GraphKeys(AtLevel(labels, graph, level)) ==> LevelOf(labels, k) <= level
  {
    var some := AtLevel(labels, graph, level);
    FactorsAtLevel(labels, graph, level);
    forall k | k in GraphKeys(some) ensures k in GraphKeys(graph) && LevelOf(labels, k) <= level {
      var i :| 0 <= i < |some| && k in some[i].keys;
      assert some[i] in some;
      var n :| 0 <= n < |graph| && graph[n] == some[i];
    }
  }

  /** Holding the lower levels constant drops no factor: each has a variable of its own level. */
  lemma {:induction false} NothingDropped(labels: Labels, graph: seq<Factor>, level: nat, fixed: set<Key>)
    requires level > 0 && forall k :: k in fixed ==> LevelOf(labels, k) < level
    requires forall f :: f in graph ==> FactorLevel(labels, f.keys) == level
    ensures Dropped(graph, fixed) == []
  {
    if graph != [] {
      var f := graph[|graph| - 1];
      assert f in graph;
      var k :| k in f.keys && LevelOf(labels, k) == level;
      FreeKeysAreTheOthers(f.keys, fixed);
      assert k in Elements(FreeKeys(f.keys, fixed));
      NothingDropped(labels, graph[..|graph| - 1], level, fixed);
    }
  }

  lemma {:induction false} NothingHeld(graph: seq<Factor>)
    ensures Dropped(graph, {}) == []
  {
    if graph != [] {
      NothingHeld(graph[..|graph| - 1]);
    }
  }

  /** A graph's error depends on its own keys only. */
  lemma {:induction false} TotalErrorAgrees(graph: seq<Factor>, x: Values, y: Values)
    requires AllLocal(graph)
    requires forall k :: k in GraphKeys(graph) ==> k in x && k in y && x[k] == y[k]
    ensures TotalError(graph, x) == TotalError(graph, y)
  {
    if graph != [] {
      var before, f := graph[..|graph| - 1], graph[|graph| - 1];
      assert graph == before + [f];
      GraphKeysAppend(before, f);
      assert f in graph;
      TotalErrorAgrees(before, x, y);
      assert Agree(x, y, f.keys) by {
        assert forall k :: k in f.keys ==> k in Elements(f.keys);
      }
      ErrorDependsOnKeys(f, x, y);
    }
  }

  /** When nothing is dropped, the partially evaluated graph has the error of the whole graph. */
  lemma LevelError(graph: seq<Factor>, fixed: set<Key>, g: Graph, fixedValues: Values, x: Values, all: Values)
    requires IsPartialEvaluation(graph, fixed, g) && Dropped(graph, fixed) == []
    requires AllLocal(graph) && Holds(g, fixedValues)
    requires GraphKeys(graph) * fixed <= fixedValues.Keys
    requires x.Keys !! fixed && GraphKeys(graph) - fixed <= x.Keys
    requires forall k :: k in x ==> k in all && all[k] == x[k]
    requires forall k :: k in fixedValues ==> k in all && all[k] == fixedValues[k]
    ensures PriorFree(g) && GraphError(g, x) == TotalError(graph, all)
  {
    PartialEvaluationObjects(graph, fixed, g);
    PartialEvaluationIsExact(graph, fixed, g, fixedValues, x);
    TotalErrorAgrees(graph, all, x + Restrict(fixedValues, fixed));
  }

  // ---------------------------------------------------------------------------------------
  // Priors at the tail of a graph

  /** One prior on each of the keys, in order. */
  ghost predicate ArePriors(tail: Graph, ks: seq<Key>) {
    |tail| == |ks| && forall i :: 0 <= i < |ks| ==> tail[i].Prior? && tail[i].key == ks[i]
  }

  /** The graph is `prefix` followed by exactly one prior on each of the keys, in order. */
  ghost predicate HasPriors(graph: Graph, prefix: Graph, keys: set<Key>) {
    |prefix| <= |graph| && graph[..|prefix|] == prefix && ArePriors(graph[|prefix|..], SortedKeys(keys))
  }

  /** Priors on the values of the keys, in order, up to the first key without a value. */
  function LeadingPriors(ks: seq<Key>, values: Values): Graph {
    if ks == [] || ks[0] !in values then []
    else [Prior(ks[0], values[ks[0]])] + LeadingPriors(ks[1..], values)
  }

  lemma {:induction false} LeadingPriorsAre(ks: seq<Key>, values: Values)
    ensures var n := |LeadingPriors(ks, values)|;
      && n <= |ks| && ArePriors(LeadingPriors(ks, values), ks[..n])
      && (forall i :: 0 <= i < n ==> ks[i] in values && LeadingPriors(ks, values)[i].prior == values[ks[i]])
      && (n < |ks| ==> ks[n] !in values)
  {
    if ks == [] || ks[0] !in values {
    } else {
      LeadingPriorsAre(ks[1..], values);
    }
  }

  /** All keys get a prior exactly if all have a value. */
  lemma LeadingPriorsCount(keys: set<Key>, values: Values)
    ensures var tail, ks := LeadingPriors(SortedKeys(keys), values), SortedKeys(keys);
      && |tail| <= |keys| == |ks| && ArePriors(tail, ks[..|tail|])
      && (|tail| == |keys| <==> keys <= values.Keys)
  {
    var ks := SortedKeys(keys);
    var n := |LeadingPriors(ks, values)|;
    SortedKeysAscend(keys);
    LeadingPriorsAre(ks, values);
    if n == |ks| {
      forall k | k in keys ensures k in values {
        assert k in Elements(ks);
      }
    } else {
      assert ks[n] in Elements(ks);
    }
  }

  /** What is left of a graph when as many factors as there are keys are erased at its end. */
  function Kept(graph: Graph, keys: set<Key>): Graph
    requires |keys| <= |graph|
  {
    graph[..|graph| - |keys|]
  }

  /** What an update of the priors leaves behind, whether or not it runs to its end. */
  function Updated(graph: Graph, keys: set<Key>, values: Values): Graph
    requires |keys| <= |graph|
  {
    Kept(graph, keys) + LeadingPriors(SortedKeys(keys), values)
  }

  lemma {:induction false} OneMorePrior(ks: seq<Key>, values: Values, i: nat)
    requires i < |ks| && forall j :: 0 <= j < i ==> ks[j] in values
    ensures ks[i] in values ==>
      LeadingPriors(ks[..i + 1], values) == LeadingPriors(ks[..i], values) + [Prior(ks[i], values[ks[i]])]
    ensures ks[i] !in values ==> LeadingPriors(ks, values) == LeadingPriors(ks[..i], values)
  {
    if i > 0 {
      OneMorePrior(ks[1..], values, i - 1);
      assert ks[1..][..i] == ks[..i + 1][1..] && ks[1..][..i - 1] == ks[..i][1..];
    }
  }

  /** Appends priors key by key, up to the first key without a value, which it reports. */
  method AddPriors(values: Values, keys: set<Key>, graph: Graph) returns (left: Graph, missing: Option<Key>)
    ensures left == graph + LeadingPriors(SortedKeys(keys), values)
    ensures missing.None? <==> keys <= values.Keys
    ensures missing.Some? ==> missing.value in keys - values.Keys
  {
    var ks := SortedKeys(keys);
    left := graph;
    for i := 0 to |ks|
      invariant forall j :: 0 <= j < i ==> ks[j] in values
      invariant left == graph + LeadingPriors(ks[..i], values)
    {
      assert ks[i] in Elements(ks);
      OneMorePrior(ks, values, i);
      if ks[i] !in values {
        return left, Some(ks[i]);
      }
      left := left + [Prior(ks[i], values[ks[i]])];
    }
    assert ks[..|ks|] == ks;
    assert forall k :: k in keys ==> k in Elements(ks);
    missing := None;
  }

  /** Erases the priors at the tail and appends new ones; `left` is the graph afterwards. */
  method UpdatePriors(values: Values, keys: set<Key>, graph: Graph) returns (left: Graph, missing: Option<Key>)
    requires |keys| <= |graph|
    ensures left == Updated(graph, keys, values)
    ensures missing.None? <==> keys <= values.Keys
    ensures missing.Some? ==> missing.value in keys - values.Keys
  {
    left, missing := AddPriors(values, keys, graph[..|graph| - |keys|]);
  }

  /** A graph in shape stays in shape exactly if every key has a value. */
  lemma ShapeKept(graph: Graph, prefix: Graph, keys: set<Key>, values: Values)
    requires HasPriors(graph, prefix, keys)
    ensures |graph| == |prefix| + |keys| && Kept(graph, keys) == prefix
    ensures HasPriors(Updated(graph, keys, values), prefix, keys) <==> keys <= values.Keys
    ensures |Updated(graph, keys, values)| == |graph| <==> keys <= values.Keys
  {
    LeadingPriorsCount(keys, values);
    var after := Updated(graph, keys, values);
    assert after[..|prefix|] == prefix;
    assert after[|prefix|..] == LeadingPriors(SortedKeys(keys), values);
  }

  /**
   * An update that stops early costs the next one factors that are not priors: as many as there
   * were keys left without a prior, taken from the end of the prefix.
   */
  lemma FailureCostsFactors(graph: Graph, prefix: Graph, keys: set<Key>, values: Values, later: Values)
    requires HasPriors(graph, prefix, keys)
    ensures |keys| <= |graph|
    ensures var left := Updated(graph, keys, values);
      var lost := |keys| - |LeadingPriors(SortedKeys(keys), values)|;
      && (lost == 0 <==> keys <= values.Keys)
      && (|keys| <= |left| ==>
           && 0 <= lost <= |prefix|
           && Updated(left, keys, later) == prefix[..|prefix| - lost] + LeadingPriors(SortedKeys(keys), later))
  {
    hide HasPriors, ArePriors, LeadingPriors;
    ShapeKept(graph, prefix, keys, values);
    LeadingPriorsCount(keys, values);
    var left := Updated(graph, keys, values);
    if |keys| <= |left| {
      assert Kept(left, keys) == prefix[..|left| - |keys|];
    }
  }

  /** The smallest case: one factor, one key. The second update erases the factor. */
  lemma FailureLosesTheFactor(f: Factor, k: Key, first: Value, later: Value)
    ensures |{k}| == 1
    ensures HasPriors([Plain(f), Prior(k, first)], [Plain(f)], {k})
    ensures Updated([Plain(f), Prior(k, first)], {k}, map[]) == [Plain(f)]
    ensures Updated([Plain(f)], {k}, map[k := later]) == [Prior(k, later)]
  {
    SortedKeysAscend({k});
    assert SortedKeys({k}) == [k] by {
      assert SortedKeys({k})[0] in Elements(SortedKeys({k}));
    }
    var g: Graph := [Plain(f), Prior(k, first)];
    assert g[1..] == [Prior(k, first)];
    assert LeadingPriors([k], map[k := later]) == [Prior(k, later)];
  }

  /** The graph after a run of updates; `None` once one finds too few factors to erase. */
  ghost function UpdatedOver(graph: Graph, keys: set<Key>, run: seq<Values>): Option<Graph> {
    if run == [] then Some(graph)
    else
      var before := UpdatedOver(graph, keys, run[..|run| - 1]);
      if before.None? || |before.value| < |keys| then None
      else Some(Updated(before.value, keys, run[|run| - 1]))
  }

  lemma UpdatesNeverGrow(graph: Graph, keys: set<Key>, values: Values)
    requires |keys| <= |graph|
    ensures |Updated(graph, keys, values)| <= |graph|
  {
    LeadingPriorsCount(keys, values);
  }

  /** Over any run of updates, one that stops early ruins the shape for good. */
  lemma {:induction false} ShapeOverRun(graph: Graph, prefix: Graph, keys: set<Key>, run: seq<Values>)
    requires HasPriors(graph, prefix, keys)
    ensures var after := UpdatedOver(graph, keys, run);
      && (after.Some? ==> |after.value| <= |graph|)
      && (after.Some? && |after.value| == |graph| ==> HasPriors(after.value, prefix, keys))
      && ((after.Some? && HasPriors(after.value, prefix, keys)) <==>
          forall values :: values in run ==> keys <= values.Keys)
  {
    if run != [] {
      var earlier, last := run[..|run| - 1], run[|run| - 1];
      ShapeOverRun(graph, prefix, keys, earlier);
      assert forall values :: values in run <==> values in earlier || values == last;
      ShapeKept(graph, prefix, keys, last);
      var before := UpdatedOver(graph, keys, earlier);
      if before.Some? && |keys| <= |before.value| {
        UpdatesNeverGrow(before.value, keys, last);
        if HasPriors(before.value, prefix, keys) {
          ShapeKept(before.value, prefix, keys, last);
        } else {
          ShapedSize(before.value, prefix, keys, last, |graph|);
        }
      }
    }
  }

  /** What is shorter than a graph in shape never becomes one by an update. */
  lemma ShapedSize(graph: Graph, prefix: Graph, keys: set<Key>, values: Values, size: nat)
    requires |keys| <= |graph| < size == |prefix| + |keys|
    ensures |Updated(graph, keys, values)| < size && !HasPriors(Updated(graph, keys, values), prefix, keys)
  {
    LeadingPriorsCount(keys, values);
  }

  lemma KeysOfJoined(a: Graph, b: Graph)
    ensures KeysOfGraph(a + b) == KeysOfGraph(a) + KeysOfGraph(b)
  {
    var all := a + b;
    forall k | k in KeysOfGraph(a) + KeysOfGraph(b) ensures k in KeysOfGraph(all) {
      if k in KeysOfGraph(a) {
        var i :| 0 <= i < |a| && k in a[i].Keys();
        assert all[i] == a[i];
      } else {
        var i :| 0 <= i < |b| && k in b[i].Keys();
        assert all[|a| + i] == b[i];
      }
    }
  }

  lemma KeysOfPriors(tail: Graph, ks: seq<Key>)
    requires ArePriors(tail, ks)
    ensures KeysOfGraph(tail) == Elements(ks)
  {
    forall k | k in ks ensures k in KeysOfGraph(tail) {
      var i :| 0 <= i < |ks| && ks[i] == k;
      assert k in tail[i].Keys();
    }
  }

  /** A graph with priors mentions nothing but the keys of its prefix and of the priors. */
  ghost predicate StaysWithin(graph: Graph, prefix: Graph, keys: set<Key>) {
    KeysOfGraph(graph) <= KeysOfGraph(prefix) + keys
  }

  /** A level can be solved: its variables have values, and the graph with priors mentions them all. */
  ghost predicate LevelSolvable(graph: Graph, prefix: Graph, keys: set<Key>, values: Values)
    requires |keys| <= |graph|
  {
    && KeysOfGraph(prefix) + keys <= values.Keys
    && KeysOfGraph(prefix) <= KeysOfGraph(Kept(graph, keys)) + keys
  }

  lemma KeysOfUpdated(graph: Graph, keys: set<Key>, values: Values)
    requires |keys| <= |graph|
    ensures KeysOfGraph(Kept(graph, keys)) <= KeysOfGraph(Updated(graph, keys, values)) <= KeysOfGraph(graph) + keys
    ensures keys <= values.Keys ==> KeysOfGraph(Updated(graph, keys, values)) == KeysOfGraph(Kept(graph, keys)) + keys
  {
    hide KeysOfGraph, LeadingPriors, ArePriors;
    var tail, ks := LeadingPriors(SortedKeys(keys), values), SortedKeys(keys);
    LeadingPriorsCount(keys, values);
    KeysOfJoined(Kept(graph, keys), tail);
    KeysOfPriors(tail, ks[..|tail|]);
    KeysOfJoined(Kept(graph, keys), graph[|graph| - |keys|..]);
    assert graph == Kept(graph, keys) + graph[|graph| - |keys|..];
    assert forall k :: k in ks[..|tail|] ==> k in Elements(ks);
    assert ks[..|ks|] == ks;
  }

  /** The graph mentions every variable of its level and each has a value. */
  ghost predicate Evaluable(graph: Graph, prefix: Graph, values: Values) {
    KeysOfGraph(graph) <= values.Keys && KeysOfGraph(prefix) <= KeysOfGraph(graph)
  }

  /** What the optimizers of a level find after an update that ran to its end. */
  lemma UpdatedLevel(graph: Graph, prefix: Graph, keys: set<Key>, values: Values)
    requires |keys| <= |graph| && StaysWithin(graph, prefix, keys)
    ensures var g := Updated(graph, keys, values);
      && StaysWithin(g, prefix, keys)
      && (LevelSolvable(graph, prefix, keys, values) <==> keys <= values.Keys && Evaluable(g, prefix, values))
      && (LevelSolvable(graph, prefix, keys, values) ==> KeysOfGraph(g) == KeysOfGraph(prefix) + keys)
  {
    hide Updated, Kept, KeysOfGraph;
    KeysOfUpdated(graph, keys, values);
  }

  /** Updates the priors of a level. */
  method RefreshLevel(values: Values, keys: set<Key>, graph: Graph, ghost prefix: Graph)
    returns (left: Graph, missing: Option<Key>)
    requires |keys| <= |graph| && StaysWithin(graph, prefix, keys)
    ensures left == Updated(graph, keys, values) && StaysWithin(left, prefix, keys)
    ensures missing.None? <==> keys <= values.Keys
    ensures LevelSolvable(graph, prefix, keys, values) <==> missing.None? && Evaluable(left, prefix, values)
    ensures LevelSolvable(graph, prefix, keys, values) ==> KeysOfGraph(left) == KeysOfGraph(prefix) + keys
  {
    UpdatedLevel(graph, prefix, keys, values);
    left, missing := UpdatePriors(values, keys, graph);
  }

  /** A graph in shape mentions what it should. */
  lemma ShapedStaysWithin(graph: Graph, prefix: Graph, keys: set<Key>)
    requires HasPriors(graph, prefix, keys)
    ensures |keys| <= |graph| && StaysWithin(graph, prefix, keys)
  {
    var tail := graph[|prefix|..];
    SortedKeysAscend(keys);
    assert graph == prefix + tail;
    KeysOfJoined(prefix, tail);
    KeysOfPriors(tail, SortedKeys(keys));
  }

  /** A level that does not stay in shape has become too short. */
  lemma ShortUnlessShaped(before: Graph, prefix: Graph, keys: set<Key>, values: Values, reached: bool)
    requires HasPriors(before, prefix, keys)
    ensures |keys| <= |before|
    ensures var after := if reached then Updated(before, keys, values) else before;
      HasPriors(after, prefix, keys) || |after| < |prefix| + |keys|
  {
    ShapeKept(before, prefix, keys, values);
    UpdatesNeverGrow(before, keys, values);
  }

  /** A level the call reaches stays in shape exactly if its basis has values. */
  lemma ShapeAfter(before: Graph, prefix: Graph, keys: set<Key>, values: Values, reached: bool)
    requires HasPriors(before, prefix, keys)
    ensures |keys| <= |before|
    ensures var after := if reached then Updated(before, keys, values) else before;
      HasPriors(after, prefix, keys) <==> (reached ==> keys <= values.Keys)
    ensures LevelSolvable(before, prefix, keys, values) <==> KeysOfGraph(prefix) + keys <= values.Keys
  {
    ShapeKept(before, prefix, keys, values);
  }

  /** A graph with nothing held constant. */
  function AsGraph(graph: seq<Factor>): (g: Graph)
    ensures |g| == |graph| && forall i :: 0 <= i < |g| ==> g[i] == Plain(graph[i])
  {
    seq(|graph|, i requires 0 <= i < |graph| => Plain(graph[i]))
  }

  lemma {:induction false} AsGraphIsPartial(graph: seq<Factor>)
    ensures IsPartialEvaluation(graph, {}, AsGraph(graph))
    ensures Objects(AsGraph(graph)) == {} && PriorFree(AsGraph(graph))
  {
    if graph != [] {
      var n := |graph| - 1;
      AsGraphIsPartial(graph[..n]);
      assert AsGraph(graph)[..n] == AsGraph(graph[..n]);
    }
  }

  /** The constants of a partially evaluated graph are the fixed keys its factors mention. */
  lemma {:induction false} ConstantsAreMentioned(graph: seq<Factor>, fixed: set<Key>, g: Graph, k: Key)
    requires IsPartialEvaluation(graph, fixed, g) && Dropped(graph, fixed) == []
    ensures k in GraphKeys(graph) * fixed <==> exists c :: c in Objects(g) && k in c.fixedKeys
  {
    if graph != [] {
      var f, before := graph[|graph| - 1], graph[..|graph| - 1];
      var h, e := g[..|g| - 1], g[|g| - 1];
      assert g == h + [e] && graph == before + [f];
      ObjectsAppend(h, e);
      GraphKeysAppend(before, f);
      ConstantsAreMentioned(before, fixed, h, k);
      if e.ConstVar? {
        assert e.constVar in Objects(g);
        assert Objects(g) == Objects(h) + {e.constVar};
      } else {
        assert k in Elements(f.keys) ==> k !in fixed;
      }
    }
  }

  // ---------------------------------------------------------------------------------------
  // The constructor's loops

  /** Sorts keys into the three levels. */
  method ClassifyKeys(labels: Labels, keys: seq<Key>) returns (q: set<Key>, v: set<Key>, ad: set<Key>)
    ensures q == KeysAtLevel(labels, Elements(keys), 0)
    ensures v == KeysAtLevel(labels, Elements(keys), 1)
    ensures ad == KeysAtLevel(labels, Elements(keys), 2)
  {
    q, v, ad := {}, {}, {};
    for i := 0 to |keys|
      invariant q == KeysAtLevel(labels, Elements(keys[..i]), 0)
      invariant v == KeysAtLevel(labels, Elements(keys[..i]), 1)
      invariant ad == KeysAtLevel(labels, Elements(keys[..i]), 2)
    {
      PrefixElements(keys, i);
      if IsQLevel(labels(keys[i])) {
        q := q + {keys[i]};
      } else if IsVLevel(labels(keys[i])) {
        v := v + {keys[i]};
      } else {
        ad := ad + {keys[i]};
      }
    }
    assert keys[..|keys|] == keys;
  }

  /** The level of one factor, as a running maximum. */
  method ComputeLevel(labels: Labels, keys: seq<Key>) returns (level: nat)
    ensures level == FactorLevel(labels, keys)
  {
    level := 0;
    for i := 0 to |keys|
      invariant level == FactorLevel(labels, keys[..i])
    {
      assert keys[..i + 1][..i] == keys[..i];
      var l := if IsQLevel(labels(keys[i])) then 0 else if IsVLevel(labels(keys[i])) then 1 else 2;
      level := if l > level then l else level;
    }
    assert keys[..|keys|] == keys;
  }

  lemma NextAtLevel(labels: Labels, graph: seq<Factor>, i: nat, level: nat)
    requires i < |graph|
    ensures AtLevel(labels, graph[..i + 1], level)
         == AtLevel(labels, graph[..i], level) + if FactorLevel(labels, graph[i].keys) == level then [graph[i]] else []
  {
    assert graph[..i + 1][..i] == graph[..i];
  }

  /** Sends each factor to the graph of its level. */
  method SplitFactors(labels: Labels, merit: seq<Factor>) returns (q: seq<Factor>, v: seq<Factor>, ad: seq<Factor>)
    ensures q == AtLevel(labels, merit, 0) && v == AtLevel(labels, merit, 1) && ad == AtLevel(labels, merit, 2)
  {
    q, v, ad := [], [], [];
    for i := 0 to |merit|
      invariant q == AtLevel(labels, merit[..i], 0)
      invariant v == AtLevel(labels, merit[..i], 1)
      invariant ad == AtLevel(labels, merit[..i], 2)
    {
      var level := ComputeLevel(labels, merit[i].keys);
      NextAtLevel(labels, merit, i, 0);
      NextAtLevel(labels, merit, i, 1);
      NextAtLevel(labels, merit, i, 2);
      if level == 0 {
        q := q + [merit[i]];
      } else if level == 1 {
        v := v + [merit[i]];
      } else {
        ad := ad + [merit[i]];
      }
    }
    assert merit[..|merit|] == merit;
  }

  /** The first priors, on default values. */
  method AddDefaultPriors(keys: set<Key>, default: Key -> Value, graph: Graph) returns (g: Graph)
    ensures HasPriors(g, graph, keys) && |keys| <= |g| && StaysWithin(g, graph, keys)
  {
    var values: Values := map k | k in keys :: default(k);
    var left, _ := AddPriors(values, keys, graph);
    g := left;
    assert g[|graph|..] == LeadingPriors(SortedKeys(keys), values);
    LeadingPriorsCount(keys, values);
    ShapedStaysWithin(g, graph, keys);
  }

  /** The basis keys of the two upper levels: the given ones, or all variables. */
  method ChooseBasis(labels: Labels, basisKeys: Option<seq<Key>>, v: set<Key>, ad: set<Key>)
    returns (basisV: set<Key>, basisAd: set<Key>)
    ensures basisKeys.None? ==> basisV == v && basisAd == ad
    ensures basisKeys.Some? ==> basisV == KeysAtLevel(labels, Elements(basisKeys.value), 1)
    ensures basisKeys.Some? ==> basisAd == KeysAtLevel(labels, Elements(basisKeys.value), 2)
  {
    match basisKeys {
      case None =>
        basisV, basisAd := v, ad;
      case Some(keys) =>
        var _, bv, bad := ClassifyKeys(labels, keys);
        basisV, basisAd := bv, bad;
    }
  }

  /** The poses and angles, the velocities, and the basis variables of the two upper levels. */
  method ClassifyAll(labels: Labels, merit: seq<Factor>, basisKeys: Option<seq<Key>>)
    returns (q: set<Key>, v: set<Key>, basisV: set<Key>, basisAd: set<Key>)
    ensures q == KeysAtLevel(labels, GraphKeys(merit), 0) && v == KeysAtLevel(labels, GraphKeys(merit), 1)
    ensures basisKeys.None? ==> basisV == v && basisAd == KeysAtLevel(labels, GraphKeys(merit), 2)
    ensures basisKeys.Some? ==> basisV == KeysAtLevel(labels, Elements(basisKeys.value), 1)
    ensures basisKeys.Some? ==> basisAd == KeysAtLevel(labels, Elements(basisKeys.value), 2)
    ensures AreOfLevel(labels, basisV, 1) && AreOfLevel(labels, basisAd, 2)
  {
    var ad;
    q, v, ad := ClassifyKeys(labels, SortedKeys(GraphKeys(merit)));
    basisV, basisAd := ChooseBasis(labels, basisKeys, v, ad);
  }

  ghost predicate AreOfLevel(labels: Labels, keys: set<Key>, level: nat) {
    forall k :: k in keys ==> LevelOf(labels, k) == level
  }

  /** The factors with constants of the two upper levels; the last level's know earlier variables only. */
  ghost predicate AreSound(constVarsV: seq<ConstVarFactor>, constVarsAd: seq<ConstVarFactor>, earlier: set<Key>)
    reads constVarsV, constVarsAd
  {
    && (forall c :: c in constVarsV ==> c.Valid())
    && (forall c :: c in constVarsAd ==> c.Valid() && c !in constVarsV && c.fixedValues.Keys <= earlier)
  }

  /** The graphs of the three levels, lower levels held constant. */
  method BuildGraphs(labels: Labels, merit: seq<Factor>, q: set<Key>, qv: set<Key>)
    returns (gq: Graph, gv: Graph, gad: Graph, cv: seq<ConstVarFactor>, cad: seq<ConstVarFactor>)
    ensures IsPartialEvaluation(AtLevel(labels, merit, 0), {}, gq)
    ensures IsPartialEvaluation(AtLevel(labels, merit, 1), q, gv)
    ensures IsPartialEvaluation(AtLevel(labels, merit, 2), qv, gad)
    ensures Objects(gv) == (set c | c in cv) && Objects(gad) == (set c | c in cad)
    ensures forall c :: c in cv || c in cad ==> fresh(c)
    ensures forall earlier :: AreSound(cv, cad, earlier)
  {
    var factorsQ, factorsV, factorsAd := SplitFactors(labels, merit);
    AsGraphIsPartial(factorsQ);
    gq := AsGraph(factorsQ);
    gv, cv := ConstVarGraph(factorsV, q);
    gad, cad := ConstVarGraph(factorsAd, qv);
  }

  /** Every held variable has a value. */
  ghost predicate AllSet(constVars: seq<ConstVarFactor>)
    reads constVars
  {
    forall c :: c in constVars ==> c.fixedKeys <= c.fixedValues.Keys
  }

  /** The first held variable without a value, which evaluating the graph would stumble on. */
  method FindUnset(constVars: seq<ConstVarFactor>) returns (unset: Option<Key>)
    ensures unset.None? <==> AllSet(constVars)
    ensures unset.Some? ==> exists c :: c in constVars && unset.value in c.fixedKeys - c.fixedValues.Keys
  {
    for i := 0 to |constVars|
      invariant forall c :: c in constVars[..i] ==> c.fixedKeys <= c.fixedValues.Keys
    {
      var missing := constVars[i].fixedKeys - constVars[i].fixedValues.Keys;
      if missing != {} {
        assert MinKey(missing) in constVars[i].fixedKeys;
        return Some(MinKey(missing));
      }
      assert forall k :: k in constVars[i].fixedKeys ==> k !in missing;
      assert constVars[..i + 1] == constVars[..i] + [constVars[i]];
    }
    assert constVars[..|constVars|] == constVars;
    unset := None;
  }

  /** The factor has taken over what `known` says about its held variables. */
  ghost predicate Recorded(c: ConstVarFactor, known: Values)
    reads c
  {
    forall k :: k in c.fixedKeys && k in known ==> k in c.fixedValues && c.fixedValues[k] == known[k]
  }

  ghost predicate Contains(all: Values, part: Values) {
    forall k :: k in part ==> k in all && all[k] == part[k]
  }

  lemma {:induction false} NoConstants(graph: seq<Factor>, g: Graph)
    requires IsPartialEvaluation(graph, {}, g)
    ensures Objects(g) == {}
  {
    if graph != [] {
      var h, e := g[..|g| - 1], g[|g| - 1];
      NoConstants(graph[..|graph| - 1], h);
      ObjectsAppend(h, e);
      assert g == h + [e];
    }
  }

  lemma OverwrittenIsRecorded(c: ConstVarFactor, known: Values, before: Values)
    requires c.fixedValues == before + Restrict(known, c.fixedKeys)
    ensures Recorded(c, known) && c.fixedValues.Keys <= before.Keys + known.Keys
  {
  }

  /** Gives every listed factor what is known about its held variables. */
  method Record(constVars: seq<ConstVarFactor>, known: Values)
    requires forall c :: c in constVars ==> c.Valid()
    modifies constVars
    ensures forall c :: c in constVars ==> c.Valid() && Recorded(c, known)
    ensures forall c :: c in constVars ==> c.fixedValues.Keys <= old(c.fixedValues.Keys) + known.Keys
  {
    SetAllFixedValues(constVars, known);
    forall c | c in constVars ensures Recorded(c, known) && c.fixedValues.Keys <= old(c.fixedValues.Keys) + known.Keys {
      OverwrittenIsRecorded(c, known, old(c.fixedValues));
    }
  }

  lemma RecordedHolds(c: ConstVarFactor, known: Values)
    requires c.Valid() && Recorded(c, known) && c.fixedKeys <= known.Keys
    ensures c.fixedValues == Restrict(known, c.fixedKeys)
  {
  }

  /** Levels solved for from a part of the velocities and bases of their own level. */
  lemma JoinedKeys(q: set<Key>, v: set<Key>, ad: set<Key>, someV: set<Key>, basisV: set<Key>, basisAd: set<Key>)
    requires q !! v && (q + v) !! ad && someV <= v
    requires basisV !! q + ad && basisAd !! q + v
    ensures q + (someV + basisV) + (ad + basisAd) == q + v + ad
       <==> v <= someV + basisV && basisV <= q + v + ad && basisAd <= q + v + ad
  {
    var all, merit := q + (someV + basisV) + (ad + basisAd), q + v + ad;
    if all == merit {
      forall k | k in v ensures k in someV + basisV {
        assert k in merit;
      }
      assert forall k :: k in basisV || k in basisAd ==> k in all;
    }
  }

  // ---------------------------------------------------------------------------------------
  // The retractor

  /** One part of a graph as an optimizer sees it; the values of held variables it is told apart. */
  datatype Part = FactorPart(factor: Factor) | PriorPart(key: Key, prior: Value)

  function Parts(g: Graph): seq<Part> {
    seq(|g|, i requires 0 <= i < |g| =>
      match g[i]
      case Plain(f) => FactorPart(f)
      case ConstVar(c) => FactorPart(c.base)
      case Prior(k, value) => PriorPart(k, value))
  }

  /** The inner optimizer of a stage: any function of what it can see that keeps the variables. */
  type StageSolver = (nat, seq<Part>, Values, Values) -> Values

  ghost predicate KeepsVariables(solve: StageSolver) {
    forall stage, parts, known, init :: solve(stage, parts, known, init).Keys == init.Keys
  }

  /** The graphs with priors of the three levels. */
  datatype Stages = Stages(q: Graph, v: Graph, ad: Graph)

  class DynamicsRetractor {
    const merit: seq<Factor>
    const labels: Labels
    const solve: StageSolver
    const basisQ: set<Key>
    const basisV: set<Key>
    const basisAd: set<Key>
    // prior-free graphs
    const graphQ: Graph
    const graphV: Graph
    const graphAd: Graph
    const constVarsV: seq<ConstVarFactor>
    const constVarsAd: seq<ConstVarFactor>
    // graphs with priors; they share the factors with constants with the prior-free graphs
    var withPriorsQ: Graph
    var withPriorsV: Graph
    var withPriorsAd: Graph

    ghost function QKeys(): set<Key> { KeysAtLevel(labels, GraphKeys(merit), 0) }
    ghost function VKeys(): set<Key> { KeysAtLevel(labels, GraphKeys(merit), 1) }

    /** The variables held constant at a level. */
    ghost function HeldAt(level: nat): set<Key> {
      if level == 0 then {} else if level == 1 then QKeys() else QKeys() + VKeys()
    }

    ghost function GraphAt(level: nat): Graph {
      if level == 0 then graphQ else if level == 1 then graphV else graphAd
    }

    /** The prior-free graph of a level has the level's factors, lower levels held constant. */
    ghost predicate IsLevel(level: nat) {
      IsPartialEvaluation(AtLevel(labels, merit, level), HeldAt(level), GraphAt(level))
    }

    ghost predicate IsLeveled() {
      && (forall level: nat :: level <= 2 ==> IsLevel(level))
      && Objects(graphV) == (set c | c in constVarsV) && Objects(graphAd) == (set c | c in constVarsAd)
      && basisQ == QKeys()
      && AreOfLevel(labels, basisV, 1) && AreOfLevel(labels, basisAd, 2)
    }

    /** What every call keeps, whether or not it fails. */
    ghost predicate Valid()
      reads this, constVarsV, constVarsAd
    {
      && IsLeveled() && AreWithinLevels()
      && AreSound(constVarsV, constVarsAd, SolvedEarlier())
    }

    /** The variables that have been solved for when the last level starts. */
    ghost function SolvedEarlier(): set<Key> {
      QKeys() + KeysOfGraph(graphV) + basisV
    }

    /** Each graph with priors mentions variables of its prior-free graph and basis only. */
    ghost predicate AreWithinLevels()
      reads this
    {
      && StaysWithin(withPriorsQ, graphQ, basisQ)
      && StaysWithin(withPriorsV, graphV, basisV)
      && StaysWithin(withPriorsAd, graphAd, basisAd)
    }

    /** The three graphs with priors. */
    ghost function Graphs(): Stages
      reads this
    {
      Stages(withPriorsQ, withPriorsV, withPriorsAd)
    }

    /** Every update finds enough factors to erase. */
    ghost predicate Erasable(g: Stages) {
      |basisQ| <= |g.q| && |basisV| <= |g.v| && |basisAd| <= |g.ad|
    }

    /** Each graph is its prior-free graph followed by one prior per basis variable. */
    ghost predicate InShape(g: Stages) {
      HasPriors(g.q, graphQ, basisQ) && HasPriors(g.v, graphV, basisV) && HasPriors(g.ad, graphAd, basisAd)
    }

    /** Updating the priors finds enough factors to erase; the original does not check this. */
    ghost predicate CanErase()
      reads this
    {
      Erasable(Graphs())
    }

    /** Each graph with priors is its prior-free graph followed by one prior per basis variable. */
    ghost predicate PriorsInPlace()
      reads this
    {
      InShape(Graphs())
    }

    /**
     * Classifies the keys and the factors of the merit graph. Without explicit basis keys every
     * variable is one; the poses and angles always are.
     */
    constructor (merit: seq<Factor>, labels: Labels, basisKeys: Option<seq<Key>>, solve: StageSolver,
                 default: Key -> Value)
      ensures Valid() && PriorsInPlace() && CanErase()
      ensures this.merit == merit && this.labels == labels && this.solve == solve
      ensures basisKeys.None? ==> basisV == VKeys()
      ensures basisKeys.None? ==> basisAd == KeysAtLevel(labels, GraphKeys(merit), 2)
      ensures basisKeys.Some? ==> basisV == KeysAtLevel(labels, Elements(basisKeys.value), 1)
      ensures basisKeys.Some? ==> basisAd == KeysAtLevel(labels, Elements(basisKeys.value), 2)
      ensures forall c :: c in constVarsV || c in constVarsAd ==> fresh(c)
    {
      hide HasPriors, IsPartialEvaluation, StaysWithin, KeysOfGraph, Objects, KeysAtLevel, GraphKeys, AtLevel;
      hide Elements, AreSound, AreOfLevel, LevelOf, FactorLevel;
      var q, v, bv, bad := ClassifyAll(labels, merit, basisKeys);
      var gq, gv, gad, cv, cad := BuildGraphs(labels, merit, q, q + v);
      var pq := AddDefaultPriors(q, default, gq);
      var pv := AddDefaultPriors(bv, default, gv);
      var pad := AddDefaultPriors(bad, default, gad);
      this.merit := merit;
      this.labels := labels;
      this.solve := solve;
      basisQ, basisV, basisAd := q, bv, bad;
      graphQ, graphV, graphAd := gq, gv, gad;
      constVarsV, constVarsAd := cv, cad;
      withPriorsQ, withPriorsV, withPriorsAd := pq, pv, pad;
    }

    /**
     * The result of a level: optimized without priors from what was optimized with them, and that
     * from the given values. Both times the variables of earlier levels are at their known values.
     */
    ghost predicate IsSolved(stage: nat, values: Values, known: Values, withPriors: Graph, free: Graph,
                             result: Values)
    {
      var first := solve(2 * stage, Parts(withPriors), known, Restrict(values, KeysOfGraph(withPriors)));
      result == solve(2 * stage + 1, Parts(free), known, first)
    }

    /** The three results, each from its graph with priors as the call leaves it. */
    ghost predicate AreSolvedFrom(values: Values, g: Stages, q: Values, v: Values, ad: Values) {
      && IsSolved(0, values, map[], g.q, graphQ, q)
      && IsSolved(1, values, q, g.v, graphV, v)
      && IsSolved(2, values, q + v, g.ad, graphAd, ad)
    }

    /**
     * One level, once its priors are updated: optimize with them, then without them from there.
     * Setting an optimizer's values evaluates its graph, which needs every variable's value.
     */
    method SolveLevel(stage: nat, values: Values, known: Values, constVars: seq<ConstVarFactor>, withPriors: Graph,
                      free: Graph)
      returns (r: Result<Values>)
      requires KeepsVariables(solve)
      ensures r.Ok? <==> Evaluable(withPriors, free, values) && AllSet(constVars)
      ensures r.Ok? ==> r.value.Keys == KeysOfGraph(withPriors)
      ensures r.Ok? ==> IsSolved(stage, values, known, withPriors, free, r.value)
    {
      var initial := SelectValues(values, KeysOfGraph(withPriors));
      if initial.Err? {
        return initial;
      }
      var unset := FindUnset(constVars);
      if unset.Some? {
        return Err(KeyDoesNotExist(unset.value));
      }
      var first := solve(2 * stage, Parts(withPriors), known, initial.value);
      var started := SelectValues(first, KeysOfGraph(free));
      if started.Err? {
        return started;
      }
      r := Ok(solve(2 * stage + 1, Parts(free), known, first));
    }

    /** Every velocity held constant at the last level is solved for at the velocity level. */
    ghost predicate VelocitiesCovered() {
      KeysAtLevel(labels, GraphKeys(AtLevel(labels, merit, 2)), 1) <= KeysOfGraph(graphV) + basisV
    }

    /** The variables that need an initial value. */
    ghost function Needed(): set<Key> {
      QKeys() + KeysOfGraph(graphV) + basisV + KeysOfGraph(graphAd) + basisAd
    }

    /** The variables of the three prior-free graphs are of their own level only. */
    lemma LevelKeys()
      requires IsLeveled()
      ensures KeysOfGraph(graphQ) <= QKeys()
      ensures forall k :: k in KeysOfGraph(graphV) ==> LevelOf(labels, k) == 1
      ensures forall k :: k in KeysOfGraph(graphAd) ==> LevelOf(labels, k) == 2
    {
      LevelGraphKeys(0);
      LevelGraphKeys(1);
      LevelGraphKeys(2);
    }

    /** Every pose and angle is a basis variable, so it gets a prior and is mentioned. */
    lemma PosesSolvable(before: Graph, values: Values)
      requires IsLeveled() && |basisQ| <= |before|
      ensures LevelSolvable(before, graphQ, basisQ, values) <==> QKeys() <= values.Keys
      ensures KeysOfGraph(graphQ) + basisQ == QKeys()
    {
      PoseKeys();
    }

    lemma PoseKeys()
      requires IsLeveled()
      ensures KeysOfGraph(graphQ) + basisQ == QKeys()
    {
      LevelKeys();
    }

    lemma LevelGraphKeys(level: nat)
      requires IsLevel(level)
      ensures KeysOfGraph(GraphAt(level)) == GraphKeys(AtLevel(labels, merit, level)) - HeldAt(level)
      ensures forall k :: k in KeysOfGraph(GraphAt(level)) ==> k in GraphKeys(merit) && LevelOf(labels, k) <= level
    {
      PartialEvaluationKeys(AtLevel(labels, merit, level), HeldAt(level), GraphAt(level));
      KeysOfLevel(labels, merit, level);
    }

    lemma LevelDropsNothing(level: nat, fixed: set<Key>)
      requires level > 0 && forall k :: k in fixed ==> LevelOf(labels, k) < level
      ensures Dropped(AtLevel(labels, merit, level), fixed) == []
    {
      FactorsAtLevel(labels, merit, level);
      NothingDropped(labels, AtLevel(labels, merit, level), level, fixed);
    }

    /** At the velocity level every held variable has just been solved for. */
    lemma HeldVelocityFactors(q: Values)
      requires IsLeveled() && q.Keys == QKeys()
      requires forall c :: c in constVarsV ==> c.Valid() && Recorded(c, q)
      ensures Holds(graphV, q) && AllSet(constVarsV)
    {
      assert IsLevel(1);
      PartialEvaluationObjects(AtLevel(labels, merit, 1), QKeys(), graphV);
      forall c | c in constVarsV ensures c.fixedKeys <= c.fixedValues.Keys {
        assert c in Objects(graphV);
      }
      forall c | c in Objects(graphV) ensures c.fixedKeys <= q.Keys && c.fixedValues == Restrict(q, c.fixedKeys) {
        RecordedHolds(c, q);
      }
    }

    /** At the last level every held variable has a value exactly if the velocities are covered. */
    lemma HeldLastFactors(known: Values)
      requires IsLeveled() && known.Keys == SolvedEarlier()
      requires forall c :: c in constVarsAd ==> c.Valid() && Recorded(c, known) && c.fixedValues.Keys <= SolvedEarlier()
      ensures VelocitiesCovered() <==> AllSet(constVarsAd)
      ensures VelocitiesCovered() ==> Holds(graphAd, known)
    {
      var held := QKeys() + VKeys();
      assert IsLevel(2);
      LevelDropsNothing(2, held);
      if VelocitiesCovered() {
        forall c | c in constVarsAd ensures c.fixedKeys <= known.Keys {
          forall k | k in c.fixedKeys ensures k in known {
            ConstantKey(c, k);
          }
        }
        forall c | c in constVarsAd ensures c.fixedKeys <= known.Keys && c.fixedValues == Restrict(known, c.fixedKeys) {
          RecordedHolds(c, known);
        }
      }
      if AllSet(constVarsAd) {
        forall k | k in KeysAtLevel(labels, GraphKeys(AtLevel(labels, merit, 2)), 1)
          ensures k in KeysOfGraph(graphV) + basisV
        {
          KeysOfLevel(labels, merit, 2);
          ConstantsAreMentioned(AtLevel(labels, merit, 2), held, graphAd, k);
          var c :| c in Objects(graphAd) && k in c.fixedKeys;
          assert c in constVarsAd;
        }
      }
    }

    /** A variable held at the last level is a pose, an angle, or a velocity of that level's factors. */
    lemma ConstantKey(c: ConstVarFactor, k: Key)
      requires IsLeveled() && c in constVarsAd && k in c.fixedKeys
      ensures k in QKeys() || k in KeysAtLevel(labels, GraphKeys(AtLevel(labels, merit, 2)), 1)
    {
      var held := QKeys() + VKeys();
      assert IsLevel(2);
      LevelDropsNothing(2, held);
      ConstantsAreMentioned(AtLevel(labels, merit, 2), held, graphAd, k);
      assert c in Objects(graphAd);
      assert k in GraphKeys(AtLevel(labels, merit, 2)) * held;
    }

    /** The merit error of `all` is the sum of the three graphs' errors, each at its own values. */
    ghost predicate ErrorsAddUp(all: Values, q: Values, v: Values, ad: Values)
      reads Objects(graphQ), Objects(graphV), Objects(graphAd)
    {
      && PriorFree(graphQ) && PriorFree(graphV) && PriorFree(graphAd)
      && TotalError(merit, all) == GraphError(graphQ, q) + GraphError(graphV, v) + GraphError(graphAd, ad)
    }

    /** The three groups of values share no variable. */
    lemma SolvedApart(q: Values, v: Values, ad: Values)
      requires IsLeveled() && AreSolved(q, v, ad)
      ensures q.Keys == QKeys() && q.Keys !! v.Keys && (q.Keys + v.Keys) !! ad.Keys
      ensures forall k :: k in v ==> LevelOf(labels, k) == 1
      ensures forall k :: k in ad ==> LevelOf(labels, k) == 2
    {
      LevelKeys();
    }

    lemma QError(q: Values, all: Values)
      requires IsLeveled() && AllLocal(merit) && q.Keys == QKeys() && Contains(all, q)
      ensures PriorFree(graphQ) && GraphError(graphQ, q) == TotalError(AtLevel(labels, merit, 0), all)
    {
      LevelKeys();
      FactorsAtLevel(labels, merit, 0);
      LevelGraphKeys(0);
      NothingHeld(AtLevel(labels, merit, 0));
      PartialEvaluationObjects(AtLevel(labels, merit, 0), {}, graphQ);
      NoConstants(AtLevel(labels, merit, 0), graphQ);
      LevelError(AtLevel(labels, merit, 0), {}, graphQ, map[], q, all);
    }

    lemma VError(q: Values, v: Values, all: Values)
      requires IsLeveled() && AllLocal(merit) && q.Keys == QKeys() && v.Keys == KeysOfGraph(graphV) + basisV
      requires Holds(graphV, q) && Contains(all, q) && Contains(all, v)
      ensures PriorFree(graphV) && GraphError(graphV, v) == TotalError(AtLevel(labels, merit, 1), all)
    {
      LevelKeys();
      FactorsAtLevel(labels, merit, 1);
      LevelGraphKeys(1);
      LevelDropsNothing(1, QKeys());
      LevelError(AtLevel(labels, merit, 1), QKeys(), graphV, q, v, all);
    }

    lemma AdError(q: Values, v: Values, ad: Values, all: Values)
      requires IsLeveled() && AllLocal(merit) && AreSolved(q, v, ad) && VelocitiesCovered()
      requires Holds(graphAd, q + v) && Contains(all, q + v) && Contains(all, ad)
      ensures PriorFree(graphAd) && GraphError(graphAd, ad) == TotalError(AtLevel(labels, merit, 2), all)
    {
      SolvedApart(q, v, ad);
      FactorsAtLevel(labels, merit, 2);
      LevelGraphKeys(2);
      LevelDropsNothing(2, QKeys() + VKeys());
      LevelError(AtLevel(labels, merit, 2), QKeys() + VKeys(), graphAd, q + v, ad, all);
    }

    lemma FinalErrors(q: Values, v: Values, ad: Values)
      requires IsLeveled() && AllLocal(merit) && AreSolved(q, v, ad) && VelocitiesCovered()
      requires Holds(graphV, q) && Holds(graphAd, q + v)
      ensures IsAnswer(q + v + ad, q, v, ad)
    {
      var all := q + v + ad;
      SolvedApart(q, v, ad);
      QError(q, all);
      VError(q, v, all);
      AdError(q, v, ad, all);
      LevelsAddUp(labels, merit, q + v + ad);
    }

    /** The three groups of values have the variables of their levels. */
    ghost predicate AreSolved(q: Values, v: Values, ad: Values) {
      && q.Keys == KeysOfGraph(graphQ) + basisQ
      && v.Keys == KeysOfGraph(graphV) + basisV
      && ad.Keys == KeysOfGraph(graphAd) + basisAd
    }

    /** First stage: poses and angles, with nothing held constant. */
    method SolvePoses(values: Values) returns (r: Result<Values>)
      requires Valid() && |basisQ| <= |withPriorsQ| && KeepsVariables(solve)
      modifies this`withPriorsQ
      ensures Valid()
      ensures withPriorsQ == Updated(old(withPriorsQ), basisQ, values)
      ensures r.Ok? <==> QKeys() <= values.Keys
      ensures r.Ok? ==> r.value.Keys == QKeys()
      ensures r.Ok? ==> IsSolved(0, values, map[], withPriorsQ, graphQ, r.value)
    {
      hide Updated, LevelSolvable, IsLevel, StaysWithin, Holds, KeysAtLevel, KeysOfGraph, IsSolved;
      PosesSolvable(withPriorsQ, values);
      var missing;
      withPriorsQ, missing := RefreshLevel(values, basisQ, withPriorsQ, graphQ);
      if missing.Some? {
        return Err(KeyDoesNotExist(missing.value));
      }
      r := SolveLevel(0, values, map[], [], withPriorsQ, graphQ);
    }

    method HoldPoses(known: Values)
      requires Valid() && known.Keys == QKeys()
      modifies constVarsV
      ensures Valid() && Holds(graphV, known) && AllSet(constVarsV)
    {
      Record(constVarsV, known);
      HeldVelocityFactors(known);
    }

    method HoldEarlier(known: Values, ghost poses: Values)
      requires Valid() && known.Keys == SolvedEarlier() && Holds(graphV, poses)
      modifies constVarsAd
      ensures Valid() && Holds(graphV, poses)
      ensures AllSet(constVarsAd) <==> VelocitiesCovered()
      ensures VelocitiesCovered() ==> Holds(graphAd, known)
    {
      Record(constVarsAd, known);
      HeldLastFactors(known);
    }

    /** Second stage: velocities, at the poses and angles just found. */
    method SolveVelocities(values: Values, known: Values) returns (r: Result<Values>)
      requires Valid() && |basisV| <= |withPriorsV| && KeepsVariables(solve) && known.Keys == QKeys()
      modifies this`withPriorsV, constVarsV
      ensures Valid()
      ensures withPriorsV == Updated(old(withPriorsV), basisV, values)
      ensures r.Ok? <==> LevelSolvable(old(withPriorsV), graphV, basisV, values)
      ensures r.Ok? ==> r.value.Keys == KeysOfGraph(graphV) + basisV && Holds(graphV, known)
      ensures r.Ok? ==> IsSolved(1, values, known, withPriorsV, graphV, r.value)
    {
      hide Updated, LevelSolvable, IsLevel, StaysWithin, Holds, KeysAtLevel, KeysOfGraph, IsSolved;
      var missing;
      withPriorsV, missing := RefreshLevel(values, basisV, withPriorsV, graphV);
      if missing.Some? {
        return Err(KeyDoesNotExist(missing.value));
      }
      HoldPoses(known);
      r := SolveLevel(1, values, known, constVarsV, withPriorsV, graphV);
    }

    /** Last stage: accelerations and forces, at everything found before. */
    method SolveRest(values: Values, known: Values, ghost poses: Values) returns (r: Result<Values>)
      requires Valid() && |basisAd| <= |withPriorsAd| && KeepsVariables(solve)
      requires known.Keys == SolvedEarlier() && Holds(graphV, poses)
      modifies this`withPriorsAd, constVarsAd
      ensures Valid()
      ensures withPriorsAd == Updated(old(withPriorsAd), basisAd, values)
      ensures r.Ok? <==> LevelSolvable(old(withPriorsAd), graphAd, basisAd, values) && VelocitiesCovered()
      ensures r.Ok? ==> r.value.Keys == KeysOfGraph(graphAd) + basisAd && Holds(graphAd, known) && Holds(graphV, poses)
      ensures r.Ok? ==> IsSolved(2, values, known, withPriorsAd, graphAd, r.value)
    {
      hide Updated, LevelSolvable, IsLevel, StaysWithin, Holds, KeysAtLevel, KeysOfGraph, IsSolved;
      var missing;
      withPriorsAd, missing := RefreshLevel(values, basisAd, withPriorsAd, graphAd);
      if missing.Some? {
        return Err(KeyDoesNotExist(missing.value));
      }
      HoldEarlier(known, poses);
      r := SolveLevel(2, values, known, constVarsAd, withPriorsAd, graphAd);
    }

    /** The first two stages can be solved from the given graphs with priors. */
    ghost predicate EarlierSolvable(beforeV: Graph, values: Values)
      requires |basisV| <= |beforeV|
    {
      QKeys() <= values.Keys && LevelSolvable(beforeV, graphV, basisV, values)
    }

    /** The first two stages. */
    method SolveEarlierLevels(values: Values) returns (r: Result<(Values, Values)>)
      requires Valid() && CanErase() && KeepsVariables(solve)
      modifies this`withPriorsQ, this`withPriorsV, constVarsV
      ensures Valid()
      ensures withPriorsQ == Updated(old(withPriorsQ), basisQ, values)
      ensures withPriorsV
           == if QKeys() <= values.Keys then Updated(old(withPriorsV), basisV, values) else old(withPriorsV)
      ensures r.Ok? <==> EarlierSolvable(old(withPriorsV), values)
      ensures r.Ok? ==> r.value.0.Keys == QKeys() == KeysOfGraph(graphQ) + basisQ
      ensures r.Ok? ==> r.value.1.Keys == KeysOfGraph(graphV) + basisV && Holds(graphV, r.value.0)
      ensures r.Ok? ==> IsSolved(0, values, map[], withPriorsQ, graphQ, r.value.0)
      ensures r.Ok? ==> IsSolved(1, values, r.value.0, withPriorsV, graphV, r.value.1)
    {
      hide Updated, LevelSolvable, IsLevel, StaysWithin, Holds, KeysAtLevel, KeysOfGraph, IsSolved;
      PoseKeys();
      ghost var beforeV := withPriorsV;
      var poses := SolvePoses(values);
      if poses.Err? {
        return Err(poses.error);
      }
      var velocities := SolveVelocities(values, poses.value);
      if velocities.Err? {
        return Err(velocities.error);
      }
      r := Ok((poses.value, velocities.value));
    }

    /** All three stages can be solved from the given graphs with priors. */
    ghost predicate Solvable(beforeV: Graph, beforeAd: Graph, values: Values)
      requires |basisV| <= |beforeV| && |basisAd| <= |beforeAd|
    {
      EarlierSolvable(beforeV, values) && LevelSolvable(beforeAd, graphAd, basisAd, values) && VelocitiesCovered()
    }

    /**
     * The answer is the three levels' values side by side, and its merit error is the sum of the
     * errors of the three prior-free graphs, each with the lower levels held at their values.
     */
    ghost predicate IsAnswer(all: Values, q: Values, v: Values, ad: Values)
      reads Objects(graphQ), Objects(graphV), Objects(graphAd)
    {
      && AreSolved(q, v, ad) && all == q + v + ad
      && q.Keys !! v.Keys && (q.Keys + v.Keys) !! ad.Keys
      && ErrorsAddUp(all, q, v, ad)
    }

    /** Which variables need a value for the priors to stay in place. */
    ghost predicate PriorsSurvive(values: Values) {
      QKeys() + basisV <= values.Keys && (KeysOfGraph(graphV) <= values.Keys ==> basisAd <= values.Keys)
    }

    /**
     * From graphs in shape, nothing but missing values can make a level fail; and a call leaves the
     * graphs in shape exactly when `PriorsSurvive`, which a call that fails need not meet.
     */
    lemma FromGraphsInPlace(wpQ: Graph, wpV: Graph, wpAd: Graph, values: Values)
      requires IsLeveled()
      requires HasPriors(wpQ, graphQ, basisQ) && HasPriors(wpV, graphV, basisV) && HasPriors(wpAd, graphAd, basisAd)
      ensures |basisQ| <= |wpQ| && |basisV| <= |wpV| && |basisAd| <= |wpAd|
      ensures Solvable(wpV, wpAd, values) <==> Needed() <= values.Keys && VelocitiesCovered()
      ensures Solvable(wpV, wpAd, values) ==> PriorsSurvive(values)
      ensures PriorsSurvive(values) <==>
              && HasPriors(Updated(wpQ, basisQ, values), graphQ, basisQ)
              && HasPriors(if QKeys() <= values.Keys then Updated(wpV, basisV, values) else wpV, graphV, basisV)
              && HasPriors(if EarlierSolvable(wpV, values) then Updated(wpAd, basisAd, values) else wpAd, graphAd,
                           basisAd)
    {
      LevelKeys();
      ShapeAfter(wpQ, graphQ, basisQ, values, true);
      ShapeAfter(wpV, graphV, basisV, values, QKeys() <= values.Keys);
      ShapeAfter(wpAd, graphAd, basisAd, values, EarlierSolvable(wpV, values));
    }

    /** What a call leaves of the graphs: a level that it does not reach stays. */
    ghost function AfterCall(g: Stages, values: Values): Stages
      requires Erasable(g)
    {
      Stages(
        Updated(g.q, basisQ, values),
        if QKeys() <= values.Keys then Updated(g.v, basisV, values) else g.v,
        if EarlierSolvable(g.v, values) then Updated(g.ad, basisAd, values) else g.ad)
    }

    /** The graphs after a run of calls; `None` once one finds too few factors to erase. */
    ghost function AfterCalls(g: Stages, run: seq<Values>): Option<Stages> {
      if run == [] then Some(g)
      else
        var before := AfterCalls(g, run[..|run| - 1]);
        if before.None? || !Erasable(before.value) then None else Some(AfterCall(before.value, run[|run| - 1]))
    }

    /** Some graph is too short to be in shape. */
    ghost predicate IsShort(g: Stages) {
      || |g.q| < |graphQ| + |basisQ| || |g.v| < |graphV| + |basisV| || |g.ad| < |graphAd| + |basisAd|
    }

    /** A graph that has become too short stays too short, and cannot be in shape. */
    lemma ShortStaysShort(g: Stages, values: Values)
      requires Erasable(g) && IsShort(g)
      ensures IsShort(AfterCall(g, values))
    {
      UpdatesNeverGrow(g.q, basisQ, values);
      UpdatesNeverGrow(g.v, basisV, values);
      UpdatesNeverGrow(g.ad, basisAd, values);
    }

    lemma ShortIsNotInShape(g: Stages)
      requires InShape(g)
      ensures Erasable(g) && !IsShort(g)
    {
      ShapeKept(g.q, graphQ, basisQ, map[]);
      ShapeKept(g.v, graphV, basisV, map[]);
      ShapeKept(g.ad, graphAd, basisAd, map[]);
    }

    /** One call from graphs in shape leaves them in shape, or some graph too short. */
    lemma ShapeAfterCall(g: Stages, values: Values)
      requires IsLeveled() && InShape(g)
      ensures Erasable(g)
      ensures if PriorsSurvive(values) then InShape(AfterCall(g, values)) else IsShort(AfterCall(g, values))
    {
      ShortIsNotInShape(g);
      FromGraphsInPlace(g.q, g.v, g.ad, values);
      ShortUnlessShaped(g.q, graphQ, basisQ, values, true);
      ShortUnlessShaped(g.v, graphV, basisV, values, QKeys() <= values.Keys);
      ShortUnlessShaped(g.ad, graphAd, basisAd, values, EarlierSolvable(g.v, values));
    }

    /**
     * Over any run of calls: all three graphs are in shape afterwards exactly if every call had the
     * values its priors needed. A call that had not leaves some graph too short for good.
     */
    lemma {:induction false} ShapeOverCalls(g: Stages, run: seq<Values>)
      requires IsLeveled() && InShape(g)
      ensures var after := AfterCalls(g, run);
        && (after.Some? && InShape(after.value) <==> forall values :: values in run ==> PriorsSurvive(values))
        && (after.Some? ==> InShape(after.value) || IsShort(after.value))
    {
      hide IsLeveled, InShape, IsShort, PriorsSurvive, Erasable, AfterCall;
      if run != [] {
        var earlier, last := run[..|run| - 1], run[|run| - 1];
        ShapeOverCalls(g, earlier);
        assert forall values :: values in run <==> values in earlier || values == last;
        var before := AfterCalls(g, earlier);
        if before.Some? && Erasable(before.value) {
          OneMoreCall(before.value, last);
        } else if before.Some? && InShape(before.value) {
          ShapeAfterCall(before.value, last);
        }
      }
    }

    lemma OneMoreCall(g: Stages, values: Values)
      requires IsLeveled() && Erasable(g) && (InShape(g) || IsShort(g))
      ensures var after := AfterCall(g, values);
        (InShape(after) <==> InShape(g) && PriorsSurvive(values)) && (InShape(after) || IsShort(after))
    {
      hide InShape, IsShort, PriorsSurvive, AfterCall, IsLeveled;
      if InShape(g) {
        ShortIsNotInShape(g);
        ShapeAfterCall(g, values);
      } else {
        ShortStaysShort(g, values);
      }
      if InShape(AfterCall(g, values)) {
        ShortIsNotInShape(AfterCall(g, values));
      }
    }

    /** Every velocity is in a velocity-level factor or the basis, and the basis is in the merit graph. */
    ghost predicate CoversMerit() {
      VKeys() <= KeysOfGraph(graphV) + basisV && basisV <= GraphKeys(merit) && basisAd <= GraphKeys(merit)
    }

    /** The condition for the answer to have exactly the merit graph's variables. */
    lemma AnswerKeys(all: Values, q: Values, v: Values, ad: Values)
      requires IsLeveled() && AreSolved(q, v, ad) && all == q + v + ad
      ensures all.Keys == GraphKeys(merit) <==> CoversMerit()
      ensures CoversMerit() ==> VelocitiesCovered()
    {
      hide KeysOfGraph, KeysAtLevel, IsLevel, AtLevel, AreOfLevel;
      LevelKeys();
      LastLevelKeys();
      MeritKeys();
      VelocityKeys();
      LevelsApart();
      JoinedKeys(QKeys(), VKeys(), KeysAtLevel(labels, GraphKeys(merit), 2), KeysOfGraph(graphV), basisV, basisAd);
    }

    lemma VelocityKeys()
      requires IsLeveled()
      ensures KeysOfGraph(graphV) <= VKeys()
      ensures KeysAtLevel(labels, GraphKeys(AtLevel(labels, merit, 2)), 1) <= VKeys()
    {
      hide KeysOfGraph, IsLevel;
      LevelGraphKeys(1);
      LevelKeys();
      KeysOfLevel(labels, merit, 2);
    }

    lemma LevelsApart()
      requires IsLeveled()
      ensures QKeys() !! VKeys() && (QKeys() + VKeys()) !! KeysAtLevel(labels, GraphKeys(merit), 2)
      ensures basisV !! QKeys() + KeysAtLevel(labels, GraphKeys(merit), 2)
      ensures basisAd !! QKeys() + VKeys()
    {
      hide IsLevel;
    }

    lemma MeritKeys()
      ensures GraphKeys(merit) == QKeys() + VKeys() + KeysAtLevel(labels, GraphKeys(merit), 2)
    {
    }

    /** Every variable of the last level is in a factor of that level. */
    lemma LastLevelKeys()
      requires IsLeveled()
      ensures KeysOfGraph(graphAd) == KeysAtLevel(labels, GraphKeys(merit), 2)
    {
      LevelGraphKeys(2);
      LevelKeys();
      forall k | k in KeysAtLevel(labels, GraphKeys(merit), 2) ensures k in GraphKeys(AtLevel(labels, merit, 2)) {
        var i :| 0 <= i < |merit| && k in merit[i].keys;
        IsAtItsLevel(labels, merit, i);
      }
    }

    /** The three stages, one after the other. */
    method SolveStages(values: Values)
      returns (r: Result<Values>, ghost q: Values, ghost v: Values, ghost ad: Values)
      requires Valid() && CanErase() && KeepsVariables(solve) && AllLocal(merit)
      modifies this`withPriorsQ, this`withPriorsV, this`withPriorsAd, constVarsV, constVarsAd
      ensures Valid() && Graphs() == AfterCall(old(Graphs()), values)
      ensures r.Ok? <==> Solvable(old(withPriorsV), old(withPriorsAd), values)
      ensures r.Ok? ==> IsAnswer(r.value, q, v, ad) && AreSolvedFrom(values, Graphs(), q, v, ad)
    {
      hide Updated, LevelSolvable, IsLevel, StaysWithin, Holds, KeysAtLevel, KeysOfGraph, HasPriors, ErrorsAddUp;
      hide IsSolved, GraphKeys, IsAnswer, AllLocal, KeepsVariables;
      q, v, ad := map[], map[], map[];
      var earlier := SolveEarlierLevels(values);
      if earlier.Err? {
        return Err(earlier.error), q, v, ad;
      }
      q, v := earlier.value.0, earlier.value.1;
      var known := earlier.value.0 + earlier.value.1;
      var rest := SolveRest(values, known, q);
      if rest.Err? {
        return Err(rest.error), q, v, ad;
      }
      ad := rest.value;
      FinalErrors(q, v, ad);
      r := Ok(known + rest.value);
    }

    /**
     * The staged solve. What it does to the graphs with priors is stated for every outcome. From
     * graphs in shape it succeeds exactly when every variable it solves for has an initial value and
     * every velocity held at the last level was solved for before.
     */
    method RetractConstraints(values: Values)
      returns (r: Result<Values>, ghost q: Values, ghost v: Values, ghost ad: Values)
      requires Valid() && CanErase() && KeepsVariables(solve) && AllLocal(merit)
      modifies this`withPriorsQ, this`withPriorsV, this`withPriorsAd, constVarsV, constVarsAd
      ensures Valid()
      ensures r.Ok? <==> Solvable(old(withPriorsV), old(withPriorsAd), values)
      ensures r.Ok? ==> IsAnswer(r.value, q, v, ad) && AreSolvedFrom(values, Graphs(), q, v, ad)
      ensures r.Ok? ==> (r.value.Keys == GraphKeys(merit) <==> CoversMerit())
      ensures old(PriorsInPlace()) ==> (r.Ok? <==> Needed() <= values.Keys && VelocitiesCovered())
      ensures old(PriorsInPlace()) ==> (PriorsInPlace() <==> PriorsSurvive(values))
      ensures Graphs() == AfterCall(old(Graphs()), values)
    {
      hide Updated, HasPriors, ErrorsAddUp, AreSolvedFrom, CoversMerit, GraphKeys, AllLocal, KeepsVariables;
      hide PriorsSurvive, VelocitiesCovered, Needed, Solvable, IsLeveled, AreWithinLevels, AreSound;
      if PriorsInPlace() {
        FromGraphsInPlace(withPriorsQ, withPriorsV, withPriorsAd, values);
      }
      r, q, v, ad := SolveStages(values);
      if r.Ok? {
        AnswerKeys(r.value, q, v, ad);
      }
    }
  }

  // ---------------------------------------------------------------------------------------
  // Making a retractor

  /** Basis keys are used if asked for, and then they must be given. */
  method MakeRetractor(merit: seq<Factor>, labels: Labels, useBasisKeys: bool, basisKeys: Option<seq<Key>>,
                       solve: StageSolver, default: Key -> Value)
    returns (r: Option<DynamicsRetractor>, failure: Option<Error>)
    ensures failure == if useBasisKeys && basisKeys.None? then Some(NoBasisKeys) else None
    ensures r.None? <==> failure.Some?
    ensures r.Some? ==> fresh(r.value)
    ensures r.Some? ==> forall c :: c in r.value.constVarsV || c in r.value.constVarsAd ==> fresh(c)
    ensures r.Some? ==> r.value.Valid() && r.value.PriorsInPlace() && r.value.CanErase()
    ensures r.Some? ==> r.value.merit == merit && r.value.labels == labels && r.value.solve == solve
    ensures r.Some? && useBasisKeys ==>
      && r.value.basisV == KeysAtLevel(labels, Elements(basisKeys.value), 1)
      && r.value.basisAd == KeysAtLevel(labels, Elements(basisKeys.value), 2)
    ensures r.Some? && !useBasisKeys ==>
      && r.value.basisV == KeysAtLevel(labels, GraphKeys(merit), 1)
      && r.value.basisAd == KeysAtLevel(labels, GraphKeys(merit), 2)
  {
    if useBasisKeys && basisKeys.None? {
      return None, Some(NoBasisKeys);
    }
    hide DynamicsRetractor.Valid, DynamicsRetractor.PriorsInPlace, DynamicsRetractor.CanErase;
    hide KeysAtLevel, GraphKeys, Elements;
    var retractor := new DynamicsRetractor(merit, labels, if useBasisKeys then basisKeys else None, solve, default);
    r, failure := Some(retractor), None;
  }

  /**
   * An input that always fails: one factor on a velocity and an acceleration, and an empty basis.
   * No level solves for the velocity, which the last level holds constant.
   */
  method UncoveredVelocityFails(f: Factor, solve: StageSolver, default: Key -> Value, values: Values)
    returns (r: Result<Values>)
    requires f.keys == [0, 1] && Local(f) && KeepsVariables(solve)
    ensures r.Err?
  {
    var labels: Labels := k => if k == 0 then "V" else "A";
    hide DynamicsRetractor.PriorsInPlace, DynamicsRetractor.CanErase, DynamicsRetractor.VelocitiesCovered;
    hide DynamicsRetractor.IsLeveled, DynamicsRetractor.AreWithinLevels, DynamicsRetractor.IsAnswer;
    hide DynamicsRetractor.Solvable, DynamicsRetractor.AfterCall, DynamicsRetractor.CoversMerit;
    hide DynamicsRetractor.Needed, DynamicsRetractor.PriorsSurvive, AreSound, KeepsVariables, GraphKeys;
    var made, _ := MakeRetractor([f], labels, true, Some([]), solve, default);
    var retractor := made.value;
    assert retractor.basisV == {};
    VelocityIsUncovered(retractor, f);
    forall i | 0 <= i < |retractor.constVarsV| ensures fresh(retractor.constVarsV[i]) {
      assert retractor.constVarsV[i] in retractor.constVarsV;
    }
    forall i | 0 <= i < |retractor.constVarsAd| ensures fresh(retractor.constVarsAd[i]) {
      assert retractor.constVarsAd[i] in retractor.constVarsAd;
    }
    var result, _, _, _ := retractor.RetractConstraints(values);
    r := result;
  }

  lemma VelocityIsUncovered(d: DynamicsRetractor, f: Factor)
    requires d.IsLeveled() && d.merit == [f] && f.keys == [0, 1] && d.basisV == {}
    requires d.labels(0) == "V" && d.labels(1) == "A"
    ensures !d.VelocitiesCovered()
  {
    var labels := d.labels;
    assert [f][..0] == [] && f.keys[..1] == [0] && [0][..0] == [];
    assert FactorLevel(labels, [0]) == 1 && FactorLevel(labels, f.keys) == 2;
    assert AtLevel(labels, [f], 1) == AtLevel(labels, [], 1) == [];
    assert AtLevel(labels, [f], 2) == AtLevel(labels, [], 2) + [f] == [f];
    assert d.IsLevel(1) && d.graphV == [] && KeysOfGraph(d.graphV) == {};
    assert [f][0].keys[0] == 0 && 0 in f.keys;
    assert 0 in GraphKeys([f]);
    assert 0 in KeysAtLevel(labels, GraphKeys([f]), 1);
  }
}

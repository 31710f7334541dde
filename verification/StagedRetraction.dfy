/**
 * What the staged solve of a dynamics retractor achieves, in terms of the component's own factors:
 * no level gets worse, and each is minimal given the levels before it if the solver finds minima.
 */
module StagedRetraction {
  import opened Prelude
  import opened LinearAlgebra
  import opened Factors
  import opened ConstVar
  import opened DynamicsRetraction

  // ---------------------------------------------------------------------------------------
  // What a solver sees

  /** What a prior on a key and value costs at another value. */
  type PriorCost = (Key, Value, Value) -> real

  ghost predicate IsDistance(cost: PriorCost) {
    forall k, a, b :: cost(k, a, b) >= 0.0 && cost(k, a, a) == 0.0
  }

  /** The error of one part at `x`, with the held variables at their known values. */
  function PartError(part: Part, known: Values, cost: PriorCost, x: Values): real {
    match part
    case FactorPart(f) => f.Error(known + x)
    case PriorPart(k, a) => if k in x then cost(k, a, x[k]) else 0.0
  }

  function PartsError(parts: seq<Part>, known: Values, cost: PriorCost, x: Values): real {
    if parts == [] then 0.0
    else PartsError(parts[..|parts| - 1], known, cost, x) + PartError(parts[|parts| - 1], known, cost, x)
  }

  lemma {:induction false} PartsErrorSplits(a: seq<Part>, b: seq<Part>, known: Values, cost: PriorCost, x: Values)
    ensures PartsError(a + b, known, cost, x) == PartsError(a, known, cost, x) + PartsError(b, known, cost, x)
  {
    if b == [] {
      assert a + b == a;
    } else {
      PartsErrorSplits(a, b[..|b| - 1], known, cost, x);
      assert (a + b)[..|a + b| - 1] == a + b[..|b| - 1];
    }
  }

  /** Factors that keep their variables, and factors with constants, count with their own errors. */
  lemma {:induction false} PartsOfPartial(graph: seq<Factor>, fixed: set<Key>, g: Graph, known: Values,
                                          cost: PriorCost, x: Values)
    requires IsPartialEvaluation(graph, fixed, g) && Dropped(graph, fixed) == []
    ensures PartsError(Parts(g), known, cost, x) == TotalError(graph, known + x)
  {
    if graph != [] {
      var n := |g| - 1;
      PartsOfPartial(graph[..|graph| - 1], fixed, g[..n], known, cost, x);
      assert Parts(g)[..n] == Parts(g[..n]);
    }
  }

  // ---------------------------------------------------------------------------------------
  // Priors

  /** What moving the keys away from the given values costs. */
  function Moving(ks: seq<Key>, values: Values, cost: PriorCost, x: Values): real {
    if ks == [] then 0.0
    else
      var k := ks[|ks| - 1];
      Moving(ks[..|ks| - 1], values, cost, x)
      + if k in values && k in x then cost(k, values[k], x[k]) else 0.0
  }

  lemma {:induction false} MovingIsDistance(ks: seq<Key>, values: Values, cost: PriorCost, x: Values)
    requires IsDistance(cost)
    ensures Moving(ks, values, cost, x) >= 0.0
    ensures (forall k :: k in ks && k in x ==> k in values && x[k] == values[k]) ==> Moving(ks, values, cost, x) == 0.0
  {
    if ks != [] {
      MovingIsDistance(ks[..|ks| - 1], values, cost, x);
      assert ks[|ks| - 1] in ks;
    }
  }

  /** The priors of a complete update cost what moving the basis away from the given values costs. */
  lemma {:induction false} PriorsCostMoving(ks: seq<Key>, values: Values, known: Values, cost: PriorCost, x: Values)
    requires forall k :: k in ks ==> k in values
    ensures PartsError(Parts(LeadingPriors(ks, values)), known, cost, x) == Moving(ks, values, cost, x)
  {
    if ks != [] {
      var n := |ks| - 1;
      PriorsCostMoving(ks[..n], values, known, cost, x);
      OneMorePrior(ks, values, n);
      assert ks[..n + 1] == ks;
      var tail, before := LeadingPriors(ks, values), LeadingPriors(ks[..n], values);
      assert ks[n] in ks && tail == before + [Prior(ks[n], values[ks[n]])];
      assert Parts(tail)[..|before|] == Parts(before);
      assert Parts(tail)[|before|] == PriorPart(ks[n], values[ks[n]]);
    }
  }

  /** A graph in shape, updated with all its priors: the level's factors, and what moving the basis costs. */
  lemma UpdatedError(graph: seq<Factor>, fixed: set<Key>, g: Graph, before: Graph, keys: set<Key>, values: Values,
                     known: Values, cost: PriorCost, x: Values)
    requires IsPartialEvaluation(graph, fixed, g) && Dropped(graph, fixed) == []
    requires HasPriors(before, g, keys) && keys <= values.Keys
    ensures |keys| <= |before|
    ensures PartsError(Parts(Updated(before, keys, values)), known, cost, x)
         == TotalError(graph, known + x) + Moving(SortedKeys(keys), values, cost, x)
  {
    hide HasPriors, IsPartialEvaluation, LeadingPriors, TotalError, Moving, Dropped;
    ShapeKept(before, g, keys, values);
    var tail := LeadingPriors(SortedKeys(keys), values);
    assert Parts(g + tail) == Parts(g) + Parts(tail);
    PartsErrorSplits(Parts(g), Parts(tail), known, cost, x);
    PartsOfPartial(graph, fixed, g, known, cost, x);
    assert forall k :: k in SortedKeys(keys) ==> k in Elements(SortedKeys(keys));
    PriorsCostMoving(SortedKeys(keys), values, known, cost, x);
  }

  // ---------------------------------------------------------------------------------------
  // Solvers

  /** A solve ends no worse than it starts. */
  ghost predicate NeverRaises(solve: StageSolver, cost: PriorCost) {
    forall stage, parts, known, init ::
      PartsError(parts, known, cost, solve(stage, parts, known, init)) <= PartsError(parts, known, cost, init)
  }

  /** No values of the same variables have a smaller error. */
  ghost predicate IsLowest(parts: seq<Part>, known: Values, cost: PriorCost, x: Values) {
    forall y: Values :: y.Keys == x.Keys ==> PartsError(parts, known, cost, x) <= PartsError(parts, known, cost, y)
  }

  ghost predicate HasLowest(parts: seq<Part>, known: Values, cost: PriorCost, keys: set<Key>) {
    exists y: Values :: y.Keys == keys && IsLowest(parts, known, cost, y)
  }

  /** A solve finds a minimum whenever there is one. */
  ghost predicate FindsMinima(solve: StageSolver, cost: PriorCost) {
    forall stage, parts, known, init: Values ::
      HasLowest(parts, known, cost, init.Keys) ==> IsLowest(parts, known, cost, solve(stage, parts, known, init))
  }

  // ---------------------------------------------------------------------------------------
  // The levels

  ghost function BasisAt(d: DynamicsRetractor, level: nat): set<Key> {
    if level == 0 then d.basisQ else if level == 1 then d.basisV else d.basisAd
  }

  lemma NothingIsDropped(d: DynamicsRetractor, level: nat)
    requires d.IsLeveled() && level <= 2
    ensures d.IsLevel(level) && Dropped(AtLevel(d.labels, d.merit, level), d.HeldAt(level)) == []
  {
    if level == 0 {
      NothingHeld(AtLevel(d.labels, d.merit, 0));
    } else {
      d.LevelDropsNothing(level, d.HeldAt(level));
    }
  }

  /** The error of a level's own factors, with the earlier levels at their values. */
  ghost function LevelErrorAt(d: DynamicsRetractor, level: nat, earlier: Values, x: Values): real {
    TotalError(AtLevel(d.labels, d.merit, level), earlier + x)
  }

  /** Without priors, the solver sees the level's factors. */
  lemma FreeGraphError(d: DynamicsRetractor, level: nat, earlier: Values, cost: PriorCost, x: Values)
    requires d.IsLeveled() && level <= 2
    ensures PartsError(Parts(d.GraphAt(level)), earlier, cost, x) == LevelErrorAt(d, level, earlier, x)
  {
    NothingIsDropped(d, level);
    PartsOfPartial(AtLevel(d.labels, d.merit, level), d.HeldAt(level), d.GraphAt(level), earlier, cost, x);
  }

  /**
   * One level: its factors' error at the result, and whatever it cost to move the basis on the way,
   * is at most their error at the given values.
   */
  lemma LevelDescends(d: DynamicsRetractor, level: nat, before: Graph, values: Values, earlier: Values,
                      cost: PriorCost, result: Values)
    requires d.IsLeveled() && level <= 2 && HasPriors(before, d.GraphAt(level), BasisAt(d, level))
    requires NeverRaises(d.solve, cost) && IsDistance(cost) && BasisAt(d, level) <= values.Keys
    requires |BasisAt(d, level)| <= |before|
    requires KeysOfGraph(Updated(before, BasisAt(d, level), values)) == result.Keys <= values.Keys
    requires d.IsSolved(level, values, earlier, Updated(before, BasisAt(d, level), values), d.GraphAt(level), result)
    ensures LevelErrorAt(d, level, earlier, result)
         <= LevelErrorAt(d, level, earlier, Restrict(values, result.Keys))
  {
    var basis, start := BasisAt(d, level), Restrict(values, result.Keys);
    var withPriors := Updated(before, basis, values);
    var first := d.solve(2 * level, Parts(withPriors), earlier, start);
    NothingIsDropped(d, level);
    UpdatedError(AtLevel(d.labels, d.merit, level), d.HeldAt(level), d.GraphAt(level), before, basis, values, earlier,
                 cost, start);
    UpdatedError(AtLevel(d.labels, d.merit, level), d.HeldAt(level), d.GraphAt(level), before, basis, values, earlier,
                 cost, first);
    MovingIsDistance(SortedKeys(basis), values, cost, start);
    MovingIsDistance(SortedKeys(basis), values, cost, first);
    FreeGraphError(d, level, earlier, cost, first);
    FreeGraphError(d, level, earlier, cost, result);
  }

  /** No values of the level's variables give its factors a smaller error, given the earlier levels. */
  ghost predicate IsLevelMinimum(d: DynamicsRetractor, level: nat, earlier: Values, x: Values) {
    forall y: Values :: y.Keys == x.Keys ==> LevelErrorAt(d, level, earlier, x) <= LevelErrorAt(d, level, earlier, y)
  }

  lemma LevelMinimumIs(d: DynamicsRetractor, level: nat, earlier: Values, cost: PriorCost, x: Values)
    requires d.IsLeveled() && level <= 2
    ensures IsLowest(Parts(d.GraphAt(level)), earlier, cost, x) <==> IsLevelMinimum(d, level, earlier, x)
  {
    forall y: Values
      ensures PartsError(Parts(d.GraphAt(level)), earlier, cost, y) == LevelErrorAt(d, level, earlier, y)
    {
      FreeGraphError(d, level, earlier, cost, y);
    }
  }

  /** The level is at a minimum, if it has one over the same variables. */
  ghost predicate MinimalIfAny(d: DynamicsRetractor, level: nat, earlier: Values, x: Values) {
    forall y: Values ::
      y.Keys == x.Keys && IsLevelMinimum(d, level, earlier, y) ==> IsLevelMinimum(d, level, earlier, x)
  }

  lemma LevelIsMinimal(d: DynamicsRetractor, level: nat, withPriors: Graph, values: Values, earlier: Values,
                       cost: PriorCost, result: Values)
    requires d.IsLeveled() && level <= 2 && FindsMinima(d.solve, cost) && KeepsVariables(d.solve)
    requires d.IsSolved(level, values, earlier, withPriors, d.GraphAt(level), result)
    ensures MinimalIfAny(d, level, earlier, result)
  {
    hide DynamicsRetractor.IsLeveled, IsLevelMinimum, IsLowest, Parts;
    var parts := Parts(d.GraphAt(level));
    var first := d.solve(2 * level, Parts(withPriors), earlier, Restrict(values, KeysOfGraph(withPriors)));
    assert result.Keys == first.Keys;
    forall y: Values | y.Keys == result.Keys && IsLevelMinimum(d, level, earlier, y)
      ensures IsLevelMinimum(d, level, earlier, result)
    {
      LevelMinimumIs(d, level, earlier, cost, y);
      assert HasLowest(parts, earlier, cost, first.Keys);
      LevelMinimumIs(d, level, earlier, cost, result);
    }
  }

  // ---------------------------------------------------------------------------------------
  // The whole retraction

  /** The level's factors have at most the error they have at the given values. */
  ghost predicate NoWorseThanGiven(d: DynamicsRetractor, level: nat, earlier: Values, values: Values, result: Values) {
    LevelErrorAt(d, level, earlier, result) <= LevelErrorAt(d, level, earlier, Restrict(values, result.Keys))
  }

  lemma LevelFromShape(d: DynamicsRetractor, level: nat, before: Graph, values: Values, earlier: Values,
                       cost: PriorCost, result: Values)
    requires d.IsLeveled() && level <= 2 && HasPriors(before, d.GraphAt(level), BasisAt(d, level))
    requires NeverRaises(d.solve, cost) && IsDistance(cost)
    requires |BasisAt(d, level)| <= |before| && result.Keys <= values.Keys
    requires result.Keys == KeysOfGraph(d.GraphAt(level)) + BasisAt(d, level)
    requires d.IsSolved(level, values, earlier, Updated(before, BasisAt(d, level), values), d.GraphAt(level), result)
    ensures NoWorseThanGiven(d, level, earlier, values, result)
  {
    hide HasPriors, Updated, KeysOfGraph, LevelErrorAt, BasisAt;
    KeysOfShaped(d, level, before, values);
    LevelDescends(d, level, before, values, earlier, cost, result);
  }

  /**
   * Retraction never makes a level worse: from graphs in shape, each level's factors have at the
   * answer at most the error they have at the given values, with the earlier levels as solved.
   */
  lemma RetractionDescends(d: DynamicsRetractor, g: Stages, values: Values, cost: PriorCost,
                           q: Values, v: Values, ad: Values)
    requires d.IsLeveled() && d.InShape(g) && d.Erasable(g) && d.Needed() <= values.Keys
    requires NeverRaises(d.solve, cost) && IsDistance(cost)
    requires d.AreSolved(q, v, ad) && d.AreSolvedFrom(values, d.AfterCall(g, values), q, v, ad)
    ensures NoWorseThanGiven(d, 0, map[], values, q)
    ensures NoWorseThanGiven(d, 1, q, values, v)
    ensures NoWorseThanGiven(d, 2, q + v, values, ad)
  {
    AllLevelsReached(d, g, values);
    hide DynamicsRetractor.IsSolved, DynamicsRetractor.IsLeveled, HasPriors, Updated, KeysOfGraph, KeysAtLevel;
    hide NoWorseThanGiven, NeverRaises, IsDistance, DynamicsRetractor.AfterCall, DynamicsRetractor.QKeys;
    d.PoseKeys();
    LevelFromShape(d, 0, g.q, values, map[], cost, q);
    LevelFromShape(d, 1, g.v, values, q, cost, v);
    LevelFromShape(d, 2, g.ad, values, q + v, cost, ad);
  }

  lemma KeysOfShaped(d: DynamicsRetractor, level: nat, before: Graph, values: Values)
    requires HasPriors(before, d.GraphAt(level), BasisAt(d, level)) && BasisAt(d, level) <= values.Keys
    ensures |BasisAt(d, level)| <= |before|
    ensures KeysOfGraph(Updated(before, BasisAt(d, level), values))
         == KeysOfGraph(d.GraphAt(level)) + BasisAt(d, level)
  {
    ShapeKept(before, d.GraphAt(level), BasisAt(d, level), values);
    KeysOfUpdated(before, BasisAt(d, level), values);
  }

  /** When all needed values are given, every level's graph is updated. */
  lemma AllLevelsReached(d: DynamicsRetractor, g: Stages, values: Values)
    requires d.IsLeveled() && d.InShape(g) && d.Erasable(g) && d.Needed() <= values.Keys
    ensures d.AfterCall(g, values)
         == Stages(Updated(g.q, d.basisQ, values), Updated(g.v, d.basisV, values), Updated(g.ad, d.basisAd, values))
    ensures d.basisQ + d.basisV + d.basisAd <= values.Keys
  {
    d.PoseKeys();
    ShapeAfter(g.v, d.graphV, d.basisV, values, true);
  }

  /**
   * If the solver finds minima, each level's factors are at a minimum over the level's variables,
   * with the earlier levels as solved, whenever they have one. In particular a level whose
   * constraints can be met, given the earlier levels, is met.
   */
  lemma RetractionIsMinimal(d: DynamicsRetractor, after: Stages, values: Values, cost: PriorCost,
                            q: Values, v: Values, ad: Values)
    requires d.IsLeveled() && FindsMinima(d.solve, cost) && KeepsVariables(d.solve)
    requires d.AreSolvedFrom(values, after, q, v, ad)
    ensures MinimalIfAny(d, 0, map[], q) && MinimalIfAny(d, 1, q, v) && MinimalIfAny(d, 2, q + v, ad)
  {
    hide DynamicsRetractor.IsSolved, DynamicsRetractor.IsLeveled, FindsMinima, KeepsVariables, MinimalIfAny;
    LevelIsMinimal(d, 0, after.q, values, map[], cost, q);
    LevelIsMinimal(d, 1, after.v, values, q, cost, v);
    LevelIsMinimal(d, 2, after.ad, values, q + v, cost, ad);
  }

  /** Which variables each level solves for, by their labels. */
  lemma StagesByLabel(d: DynamicsRetractor, q: Values, v: Values, ad: Values)
    requires d.IsLeveled() && d.AreSolved(q, v, ad)
    ensures forall k :: k in q <==> k in GraphKeys(d.merit) && (d.labels(k) == "p" || d.labels(k) == "q")
    ensures forall k :: k in v ==> d.labels(k) == "V" || d.labels(k) == "v"
    ensures forall k :: k in ad ==> d.labels(k) !in ["p", "q", "V", "v"]
  {
    d.SolvedApart(q, v, ad);
  }
}

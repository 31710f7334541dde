/**
 * A whole run of the manifold optimizer: transform, optimize without constraints, read the answer
 * back (ManifoldOptimizerType1::optimize). The unconstrained optimizer is an arbitrary function.
 */
module ManifoldRun {
  import opened Prelude
  import opened LinearAlgebra
  import opened Factors
  import opened Substitute
  import opened ManifoldProblem
  import opened ManifoldOptimizer
  import C = Components

  /** The optimizer of the transformed problem; an error stands for what its evaluations throw. */
  type MixedSolver = (seq<MixedFactor>, MixedValues) -> Result<MixedValues>

  /** It returns every variable as the kind of variable it is. */
  ghost predicate KeepsShape(solve: MixedSolver) {
    forall g, start, l: Layout :: Fits(l, start) && solve(g, start).Ok? ==> Fits(l, solve(g, start).value)
  }

  /** It ends no worse than it starts. */
  ghost predicate NeverRaises(solve: MixedSolver) {
    forall g, start :: AllEvaluable(g, start) && solve(g, start).Ok? ==> IsNoWorse(g, start, solve(g, start).value)
  }

  ghost predicate IsNoWorse(g: seq<MixedFactor>, start: MixedValues, end: MixedValues)
    requires AllEvaluable(g, start)
  {
    AllEvaluable(g, end) && MixedTotal(g, end) <= MixedTotal(g, start)
  }

  ghost predicate FinishKeepsAll(feasible: (Key, Values) -> Values) {
    forall m, v :: feasible(m, v).Keys == v.Keys
  }

  /** A component's initial values, retracted if they are to be. */
  ghost function StartOf(ec: ConstrainedProblem, params: ManifoldParams, c: C.Component): Values {
    var start := Restrict(ec.values, c.keys);
    if params.retractInit then params.retract(c, start) else start
  }

  /** `start` has the components' initial values, retracted if they are to be, and the others as given. */
  ghost predicate IsStart(ec: ConstrainedProblem, params: ManifoldParams, comps: seq<C.Component>, start: Values) {
    && start.Keys == GraphKeys(ec.costs) + C.AllKeys(ec.constraints)
    && (forall c :: c in comps ==> Includes(start, StartOf(ec, params, c)))
    && forall u :: u in GraphKeys(ec.costs) && u !in C.AllKeys(ec.constraints) ==>
         u in ec.values && u in start && start[u] == ec.values[u]
  }

  /** The transformed problem's initial assignment stands for the problem's initial values. */
  lemma StartsAtInitialValues(p: ManifoldOptProblem, ec: ConstrainedProblem, params: ManifoldParams)
    requires IsTransformOf(p, ec, params) && KeepsKeys(params, ec.constraints)
    ensures IsLayout(LayoutOf(p)) && Fits(LayoutOf(p), p.values)
    ensures IsStart(ec, params, p.components, BaseValuesOf(LayoutOf(p), p.values))
  {
    TransformGivesLayout(p, ec, params);
    InitialValuesFit(p, ec, params);
    var l := LayoutOf(p);
    var start := BaseValuesOf(l, p.values);
    forall c | c in p.components ensures Includes(start, StartOf(ec, params, c)) {
      ComponentStarts(p, ec, params, c);
    }
  }

  lemma ComponentStarts(p: ManifoldOptProblem, ec: ConstrainedProblem, params: ManifoldParams, c: C.Component)
    requires IsTransformOf(p, ec, params) && KeepsKeys(params, ec.constraints) && c in p.components
    requires IsLayout(LayoutOf(p)) && Fits(LayoutOf(p), p.values)
    ensures Includes(BaseValuesOf(LayoutOf(p), p.values), StartOf(ec, params, c))
  {
    hide IsLayout, Fits, RewriteAll, C.AllKeys, GraphKeys;
    var n :| 0 <= n < |p.components| && p.components[n] == c;
    var m, point := MinKey(c.keys), PointOf(ec, params, c);
    PointsAreTheComponents(ec, params, p.components);
    assert C.IsComponent(ec.constraints, c);
    PointHoldsItsComponent(ec, params, c);
    forall k | k in c.keys
      ensures k in BaseValuesOf(LayoutOf(p), p.values) && BaseValuesOf(LayoutOf(p), p.values)[k] == point.values[k]
    {
      HomeIsFirstKey(p.components, k);
      assert C.Holds(p.components, n, k);
      assert p.components[n].keys == c.keys && LayoutOf(p).home[k] == m;
      BaseValueIs(LayoutOf(p), p.values, k);
    }
  }

  lemma BaseValueIs(l: Layout, x: MixedValues, k: Key)
    requires IsLayout(l) && Fits(l, x) && k in l.home
    ensures k in BaseValuesOf(l, x)
    ensures l.home[k] in l.fixed ==> k in l.fixed[l.home[k]].values
    ensures l.home[k] in l.fixed ==> BaseValuesOf(l, x)[k] == l.fixed[l.home[k]].values[k]
    ensures l.home[k] !in l.fixed ==> l.home[k] in l.manifoldKeys && k in x[l.home[k]].point.values
    ensures l.home[k] !in l.fixed ==> BaseValuesOf(l, x)[k] == x[l.home[k]].point.values[k]
  {
  }

  /** Without initial retraction the start is the problem's initial values. */
  lemma UnretractedStart(ec: ConstrainedProblem, params: ManifoldParams, comps: seq<C.Component>, start: Values)
    requires IsStart(ec, params, comps, start) && !params.retractInit
    requires forall k :: C.KeyHeld(comps, k) <==> k in C.AllKeys(ec.constraints)
    requires forall c :: c in comps ==> c.keys <= ec.values.Keys
    ensures start == Restrict(ec.values, GraphKeys(ec.costs) + C.AllKeys(ec.constraints))
  {
    forall k | k in start ensures k in ec.values && start[k] == ec.values[k] {
      if k in C.AllKeys(ec.constraints) {
        assert C.KeyHeld(comps, k);
        var n: nat :| C.Holds(comps, n, k);
        assert comps[n] in comps && k in StartOf(ec, params, comps[n]);
      }
    }
  }

  /**
   * The whole run. The answer has the variables of the problem; without a final retraction it costs
   * no more than the start does, by the original costs, whatever the optimizer returns.
   */
  method Optimize(ec: ConstrainedProblem, params: ManifoldParams, solve: MixedSolver, retractFinal: bool,
                  feasible: (Key, Values) -> Values)
    returns (r: Result<Values>, ghost p: ManifoldOptProblem, ghost start: Values)
    requires KeepsKeys(params, ec.constraints) && AllLocal(ec.costs)
    requires KeepsShape(solve) && NeverRaises(solve) && FinishKeepsAll(feasible)
    ensures r.Ok? ==> IsTransformOf(p, ec, params) && solve(p.graph, p.values).Ok?
    ensures r.Ok? ==> r.value.Keys == GraphKeys(ec.costs) + C.AllKeys(ec.constraints)
    ensures r.Ok? ==> IsStart(ec, params, p.components, start)
    ensures r.Ok? ==> Fits(LayoutOf(p), solve(p.graph, p.values).value)
    ensures r.Ok? ==> AreFinalValues(LayoutOf(p), solve(p.graph, p.values).value, retractFinal, feasible, r.value)
    ensures r.Ok? && !retractFinal && MovesOnce(p, ec) ==> TotalError(ec.costs, r.value) <= TotalError(ec.costs, start)
    ensures r.Ok? && !params.retractInit ==>
      start == Restrict(ec.values, GraphKeys(ec.costs) + C.AllKeys(ec.constraints))
  {
    hide IsStart, AreFinalValues, AllLocal, KeepsKeys, MovesOnce, TotalError, BaseValuesOf, Fits, IsLayout;
    start := map[];
    var problem, failure := ProblemTransform(ec, params);
    p := problem;
    if failure.Some? {
      return Err(failure.value), p, start;
    }
    StartsAtInitialValues(p, ec, params);
    AnswerCoversTheProblem(p, ec, params);
    start := BaseValuesOf(LayoutOf(p), p.values);
    var solved := solve(problem.graph, problem.values);
    if solved.Err? {
      return Err(solved.error), p, start;
    }
    r := BaseValues(problem, solved.value, retractFinal, feasible);
    RunIsNoWorse(p, ec, params, solve);
    if !params.retractInit {
      UnretractedStart(ec, params, p.components, start);
    }
  }

  lemma RunIsNoWorse(p: ManifoldOptProblem, ec: ConstrainedProblem, params: ManifoldParams, solve: MixedSolver)
    requires IsTransformOf(p, ec, params) && KeepsKeys(params, ec.constraints) && AllLocal(ec.costs)
    requires KeepsShape(solve) && NeverRaises(solve) && solve(p.graph, p.values).Ok?
    ensures IsLayout(LayoutOf(p)) && Fits(LayoutOf(p), p.values)
    ensures Fits(LayoutOf(p), solve(p.graph, p.values).value)
    ensures MovesOnce(p, ec) ==>
      TotalError(ec.costs, BaseValuesOf(LayoutOf(p), solve(p.graph, p.values).value))
      <= TotalError(ec.costs, BaseValuesOf(LayoutOf(p), p.values))
  {
    hide KeepsKeys, Fits, IsLayout, MovesOnce, TotalError, BaseValuesOf, RewriteAll, C.IsDecomposition;
    var end := solve(p.graph, p.values).value;
    StartsAtInitialValues(p, ec, params);
    assert Fits(LayoutOf(p), end);
    SameOrder(p, ec, params, end, p.values);
    if MovesOnce(p, ec) {
      assert IsNoWorse(p.graph, p.values, end);
    }
  }
}

/**
 * The Levenberg-Marquardt loop whose graph and values can be replaced between runs
 * (MutableLMOptimizer). The linear solver is an arbitrary function.
 */
module LevenbergMarquardt {
  import opened Prelude
  import opened Factors
  import opened Powers

  /** A solved damped system: the values it proposes, and the linearized error before and after. */
  datatype Proposal = Proposal(values: Values, oldLinear: real, newLinear: real)

  /** A cost graph: its error, and what solving its system at some values and damping proposes. */
  datatype CostGraph = CostGraph(error: Values -> real, solve: (Values, real) -> Option<Proposal>)

  /** Linearized errors are sums of squares. */
  ghost predicate IsSound(graph: CostGraph) {
    forall x, damping :: graph.solve(x, damping).Some? ==> graph.solve(x, damping).value.oldLinear >= 0.0
  }

  /** The optimizer's state; `damping` is the original's lambda. */
  datatype State = State(values: Values, error: real, damping: real, factor: real, iterations: nat,
                         innerIterations: nat)

  /** `raise` and `lower` give the next damping and its factor; `epsilon` is the machine's. */
  datatype Params = Params(
    dampingInitial: real, dampingFactor: real, dampingUpperBound: real, minModelFidelity: real,
    relativeErrorTol: real, epsilon: real,
    raise: (real, real) -> (real, real), lower: (real, real, real) -> (real, real))

  /**
   * Damping stays positive and its factor at least `growth`, which exceeds 1; raising multiplies
   * the damping by at least `growth`.
   */
  ghost predicate Admissible(p: Params, growth: real) {
    && growth > 1.0 && p.dampingInitial > 0.0 && p.dampingFactor >= growth && p.epsilon >= 0.0
    && (forall damping, factor :: damping > 0.0 && factor >= growth ==>
          p.raise(damping, factor).0 >= damping * growth && p.raise(damping, factor).1 >= growth)
    && (forall damping, factor, fidelity :: damping > 0.0 && factor >= growth ==>
          p.lower(damping, factor, fidelity).0 > 0.0 && p.lower(damping, factor, fidelity).1 >= growth)
  }

  function Max(a: real, b: real): real { if a < b then b else a }

  /**
   * Multiplying the damping by the stored factor, which is kept or doubled, is admissible, however
   * the damping is lowered as long as it stays positive.
   */
  lemma MultiplyingIsAdmissible(p: Params, fixedFactor: bool, lowerBound: real, lowered: (real, real, real) -> real)
    requires p.dampingInitial > 0.0 && p.dampingFactor > 1.0 && p.epsilon >= 0.0
    requires forall damping, factor, fidelity :: damping > 0.0 && factor >= p.dampingFactor ==>
      Max(lowerBound, lowered(damping, factor, fidelity)) > 0.0
    requires forall damping, factor ::
      p.raise(damping, factor) == (damping * factor, if fixedFactor then factor else 2.0 * factor)
    requires forall damping, factor, fidelity ::
      p.lower(damping, factor, fidelity)
        == (Max(lowerBound, lowered(damping, factor, fidelity)), if fixedFactor then factor else 2.0 * factor)
    ensures Admissible(p, p.dampingFactor)
  {
    forall damping: real, factor: real | damping > 0.0 && factor >= p.dampingFactor
      ensures p.raise(damping, factor).0 >= damping * p.dampingFactor
    {
      ProductIsNonNegative(factor - p.dampingFactor, damping);
    }
  }

  // ---------------------------------------------------------------------------------------
  // One try

  datatype Verdict = Accept(proposal: Proposal, fidelity: real) | GiveUp | Raise

  function Abs(x: real): real { if x < 0.0 then -x else x }

  /** What one try does, given the cached state. */
  function Judge(graph: CostGraph, p: Params, s: State): Verdict
    requires p.epsilon >= 0.0
    requires graph.solve(s.values, s.damping).Some? ==> graph.solve(s.values, s.damping).value.oldLinear >= 0.0
  {
    match graph.solve(s.values, s.damping)
    case None => Raise
    case Some(proposal) =>
      var linearChange := proposal.oldLinear - proposal.newLinear;
      if linearChange < 0.0 then Raise
      else
        var change := s.error - graph.error(proposal.values);
        NoDivisionByZero(linearChange, p.epsilon, proposal.oldLinear);
        if linearChange > p.epsilon * proposal.oldLinear && change / linearChange > p.minModelFidelity then
          Accept(proposal, change / linearChange)
        else if Abs(change) < p.relativeErrorTol * s.error then GiveUp
        else Raise
  }

  lemma NoDivisionByZero(linearChange: real, epsilon: real, oldLinear: real)
    requires epsilon >= 0.0 && oldLinear >= 0.0
    ensures linearChange > epsilon * oldLinear ==> linearChange > 0.0
  {
    assert epsilon * oldLinear >= 0.0;
  }

  /**
   * A proposal is accepted exactly when the model predicts a real decrease and the cost falls by
   * more than the required share of it; with a nonnegative share the cost strictly falls.
   */
  lemma AcceptedIffCostFalls(graph: CostGraph, p: Params, s: State)
    requires p.epsilon >= 0.0
    requires graph.solve(s.values, s.damping).Some? ==> graph.solve(s.values, s.damping).value.oldLinear >= 0.0
    ensures Judge(graph, p, s).Accept? <==>
      && graph.solve(s.values, s.damping).Some?
      && var proposal := graph.solve(s.values, s.damping).value;
         var predicted := proposal.oldLinear - proposal.newLinear;
         && predicted > p.epsilon * proposal.oldLinear
         && s.error - graph.error(proposal.values) > p.minModelFidelity * predicted
    ensures Judge(graph, p, s).Accept? && p.minModelFidelity >= 0.0 ==>
      graph.error(Judge(graph, p, s).proposal.values) < s.error
  {
    match graph.solve(s.values, s.damping)
    case None =>
    case Some(proposal) =>
      var predicted, change := proposal.oldLinear - proposal.newLinear, s.error - graph.error(proposal.values);
      NoDivisionByZero(predicted, p.epsilon, proposal.oldLinear);
      if predicted > 0.0 {
        QuotientExceeds(change, predicted, p.minModelFidelity);
      }
  }

  /** The decrease the linear model predicts, and the one that was found. */
  function Predicted(proposal: Proposal): real { proposal.oldLinear - proposal.newLinear }

  function Found(graph: CostGraph, s: State, proposal: Proposal): real { s.error - graph.error(proposal.values) }

  /** The damped system has a solution, by which the model really decreases and the cost falls enough. */
  ghost predicate Succeeds(graph: CostGraph, p: Params, s: State) {
    match graph.solve(s.values, s.damping)
    case None => false
    case Some(proposal) =>
      && Predicted(proposal) > p.epsilon * proposal.oldLinear
      && Found(graph, s, proposal) > p.minModelFidelity * Predicted(proposal)
  }

  /** It has none of that kind, but one by which the model does not increase and the cost hardly changes. */
  ghost predicate Stalls(graph: CostGraph, p: Params, s: State) {
    && !Succeeds(graph, p, s)
    && match graph.solve(s.values, s.damping)
       case None => false
       case Some(proposal) =>
         && Predicted(proposal) >= 0.0
         && -(p.relativeErrorTol * s.error) < Found(graph, s, proposal) < p.relativeErrorTol * s.error
  }

  /** `after` has the proposed values, and a damping lowered by the share of the prediction that was found. */
  ghost predicate StepTaken(graph: CostGraph, p: Params, s: State, after: State) {
    match graph.solve(s.values, s.damping)
    case None => false
    case Some(proposal) =>
      && after.values == proposal.values && after.error == graph.error(after.values)
      && after.iterations == s.iterations + 1 && after.innerIterations == s.innerIterations + 1
      && exists fidelity: real ::
           && fidelity * Predicted(proposal) == Found(graph, s, proposal)
           && p.lower(s.damping, s.factor, fidelity) == (after.damping, after.factor)
  }

  /** `after` has the same values and a raised damping. */
  ghost predicate DampingRaised(p: Params, s: State, after: State) {
    && after.values == s.values && after.error == s.error && after.iterations == s.iterations
    && after.innerIterations == s.innerIterations + 1
    && (after.damping, after.factor) == p.raise(s.damping, s.factor)
  }

  /** What one try makes of the state, and whether it is the last. */
  ghost predicate IsTried(graph: CostGraph, p: Params, s: State, after: State, done: bool) {
    if Succeeds(graph, p, s) then done && StepTaken(graph, p, s, after)
    else if Stalls(graph, p, s) then done && after == s
    else DampingRaised(p, s, after) && (done <==> after.damping >= p.dampingUpperBound)
  }

  /** The three outcomes, by what the proposal does to the model and to the cost. */
  lemma VerdictIs(graph: CostGraph, p: Params, s: State)
    requires p.epsilon >= 0.0
    requires graph.solve(s.values, s.damping).Some? ==> graph.solve(s.values, s.damping).value.oldLinear >= 0.0
    ensures match Judge(graph, p, s)
      case Accept(proposal, fidelity) =>
        && Succeeds(graph, p, s) && graph.solve(s.values, s.damping) == Some(proposal)
        && fidelity * Predicted(proposal) == Found(graph, s, proposal)
      case GiveUp => Stalls(graph, p, s)
      case Raise => !Succeeds(graph, p, s) && !Stalls(graph, p, s)
  {
    AcceptedIffCostFalls(graph, p, s);
    match graph.solve(s.values, s.damping)
    case None =>
    case Some(proposal) =>
      NoDivisionByZero(Predicted(proposal), p.epsilon, proposal.oldLinear);
  }

  lemma QuotientExceeds(a: real, b: real, c: real)
    requires b > 0.0
    ensures a / b > c <==> a > c * b
    ensures a / b > c && c >= 0.0 ==> a > 0.0
  {
    assert a / b * b == a;
    if a / b > c {
      assert (a / b - c) * b > 0.0;
      if c >= 0.0 {
        assert c * b >= 0.0;
      }
    } else {
      assert (c - a / b) * b >= 0.0;
    }
  }

  // ---------------------------------------------------------------------------------------
  // How often the damping can grow

  /** A number of tries after which the damping has reached its bound. */
  function EnoughTries(damping: real, growth: real, bound: real): nat
    requires damping > 0.0 && growth > 1.0
  {
    var n := (bound / damping / (growth - 1.0)).Floor + 1;
    if n < 1 then 1 else n
  }

  /** After `n` raises from `start`, the damping is at least `bound`. */
  ghost predicate Reaches(start: real, growth: real, n: nat, bound: real) {
    start * Power(growth, n) >= bound
  }

  /** `damping` is at least what `n` raises make of `start`. */
  ghost predicate RaisedAtLeast(start: real, growth: real, n: nat, damping: real) {
    damping >= start * Power(growth, n)
  }

  lemma EnoughIsPositive(damping: real, growth: real, bound: real)
    requires damping > 0.0 && growth > 1.0
    ensures EnoughTries(damping, growth, bound) >= 1
  {
  }

  lemma EnoughTriesReach(damping: real, growth: real, bound: real)
    requires damping > 0.0 && growth > 1.0
    ensures Reaches(damping, growth, EnoughTries(damping, growth, bound), bound)
  {
    var n, d := EnoughTries(damping, growth, bound), growth - 1.0;
    var ratio := bound / damping;
    var x := ratio / d;
    PowerIsLarge(growth, n);
    assert n as real >= x;
    ProductIsNonNegative(n as real - x, d);
    assert x * d == ratio && ratio * damping == bound;
    ProductIsNonNegative(Power(growth, n) - ratio, damping);
  }

  lemma RaisedOnce(start: real, growth: real, n: nat, before: real, after: real)
    requires growth > 1.0 && RaisedAtLeast(start, growth, n, before) && after >= before * growth
    ensures RaisedAtLeast(start, growth, n + 1, after)
  {
    assert (before - start * Power(growth, n)) * growth >= 0.0;
    assert start * (growth * Power(growth, n)) == start * Power(growth, n) * growth;
  }

  /** While the damping is below its bound, more tries are needed than were made. */
  lemma NotYet(start: real, growth: real, bound: real, tried: nat, damping: real, n: nat)
    requires start > 0.0 && growth > 1.0
    requires RaisedAtLeast(start, growth, tried, damping) && damping < bound && Reaches(start, growth, n, bound)
    ensures tried < n
  {
    if n <= tried {
      MoreRaises(start, growth, n, tried);
    }
  }

  lemma MoreRaises(start: real, growth: real, m: nat, n: nat)
    requires start > 0.0 && growth > 1.0 && m <= n
    ensures start * Power(growth, m) <= start * Power(growth, n)
  {
    PowerGrows(growth, m, n);
    assert start * (Power(growth, n) - Power(growth, m)) >= 0.0;
  }

  lemma StaysPositive(damping: real, growth: real, raised: real)
    requires damping > 0.0 && growth > 1.0 && raised >= damping * growth
    ensures raised > 0.0
  {
    assert damping * growth > 0.0;
  }

  // ---------------------------------------------------------------------------------------
  // The optimizer

  class MutableLMOptimizer {
    var graph: CostGraph
    const params: Params
    ghost const growth: real
    var state: State

    ghost predicate Valid()
      reads this
    {
      IsSound(graph) && Admissible(params, growth) && state.damping > 0.0 && state.factor >= growth
    }

    /** The cached error is the graph's error at the cached values. */
    ghost predicate Agrees()
      reads this
    {
      state.error == graph.error(state.values)
    }

    constructor (graph: CostGraph, values: Values, params: Params, ghost growth: real)
      requires IsSound(graph) && Admissible(params, growth)
      ensures Valid() && Agrees() && this.graph == graph && this.params == params && state.values == values
    {
      this.graph := graph;
      this.params := params;
      this.growth := growth;
      state := State(values, graph.error(values), params.dampingInitial, params.dampingFactor, 0, 0);
    }

    /** Without values the cached error is zero, whatever the graph. */
    constructor WithoutValues(graph: CostGraph, params: Params, ghost growth: real)
      requires IsSound(graph) && Admissible(params, growth)
      ensures Valid() && this.graph == graph && this.params == params && state.values == map[] && state.error == 0.0
      ensures Agrees() <==> graph.error(map[]) == 0.0
    {
      this.graph := graph;
      this.params := params;
      this.growth := growth;
      state := State(map[], 0.0, params.dampingInitial, params.dampingFactor, 0, 0);
    }

    /** Replaces the graph and keeps the state: the cached error belongs to the old graph. */
    method SetGraph(graph: CostGraph)
      requires Valid() && IsSound(graph)
      modifies this`graph
      ensures Valid() && this.graph == graph
      ensures old(Agrees()) ==> (Agrees() <==> graph.error(state.values) == old(this.graph).error(state.values))
    {
      this.graph := graph;
    }

    /** Starts afresh at these values. */
    method SetValues(values: Values)
      requires Valid()
      modifies this`state
      ensures Valid() && Agrees() && state.values == values
      ensures state.damping == params.dampingInitial && state.factor == params.dampingFactor
    {
      state := State(values, graph.error(values), params.dampingInitial, params.dampingFactor, 0, 0);
    }

    /** One damping; says whether the search for a damping is over. */
    method TryLambda() returns (done: bool)
      requires Valid()
      modifies this`state
      ensures Valid()
      ensures IsTried(graph, params, old(state), state, done)
      ensures !done ==> state.damping >= old(state.damping) * growth
    {
      VerdictIs(graph, params, state);
      var verdict := Judge(graph, params, state);
      match verdict {
        case Accept(proposal, fidelity) =>
          var lowered := params.lower(state.damping, state.factor, fidelity);
          state := State(proposal.values, graph.error(proposal.values), lowered.0, lowered.1,
                         state.iterations + 1, state.innerIterations + 1);
          done := true;
        case GiveUp =>
          done := true;
        case Raise =>
          var raised := params.raise(state.damping, state.factor);
          StaysPositive(state.damping, growth, raised.0);
          state := state.(damping := raised.0, factor := raised.1, innerIterations := state.innerIterations + 1);
          done := state.damping >= params.dampingUpperBound;
      }
    }

    /** The values were kept, or replaced by values of strictly smaller error. */
    ghost predicate Improves(before: State, after: State) {
      || (after.values == before.values && after.error == before.error && after.iterations == before.iterations)
      || (after.error < before.error && after.iterations == before.iterations + 1)
    }

    /** The states that were tried, one after the other from `start`, and the state they led to. */
    ghost predicate IsSearch(start: State, tried: seq<State>, after: State, done: bool)
      reads this`graph
    {
      if tried == [] then after == start && !done
      else
        && tried[0] == start
        && (forall i :: 0 < i < |tried| ==> IsTried(graph, params, tried[i - 1], tried[i], false))
        && IsTried(graph, params, tried[|tried| - 1], after, done)
    }

    lemma OneMoreTry(start: State, tried: seq<State>, before: State, after: State, done: bool)
      requires IsSearch(start, tried, before, false) && IsTried(graph, params, before, after, done)
      ensures IsSearch(start, tried + [before], after, done)
    {
      hide IsTried;
    }

    /**
     * Raises the damping until a step is accepted or the search gives up; `tried` are the states on
     * the way. It ends: any positive number of raises that would lift the damping to its bound is
     * enough tries. A cached error that is not the graph's becomes right exactly when a step is accepted.
     */
    method Iterate() returns (tries: nat, ghost tried: seq<State>)
      requires Valid() && params.minModelFidelity >= 0.0
      modifies this`state
      ensures Valid()
      ensures |tried| == tries && IsSearch(old(state), tried, state, true)
      ensures Improves(old(state), state)
      ensures Agrees() <==> old(Agrees()) || state.iterations == old(state.iterations) + 1
      ensures forall n: nat :: n >= 1 && Reaches(old(state.damping), growth, n, params.dampingUpperBound) ==> tries <= n
    {
      ghost var start := state;
      tries, tried := 0, [];
      var done := false;
      EnoughTriesReach(start.damping, growth, params.dampingUpperBound);
      SearchBegins(state);
      hide IsSearch, Underway, OneTry, Admissible, IsSound, IsTried;
      while !done
        invariant |tried| == tries && IsSearch(start, tried, state, done) && Underway(start, tries, state, done)
        invariant Valid() && (Agrees() <==> old(Agrees()) || state.iterations == start.iterations + 1)
        invariant tries <= EnoughTries(start.damping, growth, params.dampingUpperBound)
        decreases !done, EnoughTries(start.damping, growth, params.dampingUpperBound) - tries
      {
        ghost var before := state;
        done := TryOnce();
        OneMoreTry(start, tried, before, state, done);
        tried := tried + [before];
        StaysUnderway(start, tries, before, state, done);
        tries := tries + 1;
      }
      TriesAreFew(start, tries, state);
    }

    /** What a try does for the search: it ends it with an improvement, or raises the damping below its bound. */
    ghost predicate OneTry(before: State, after: State, done: bool) {
      if done then Improves(before, after)
      else
        && after.values == before.values && after.error == before.error && after.iterations == before.iterations
        && before.damping * growth <= after.damping < params.dampingUpperBound
    }

    /** The search after `tries` tries. */
    ghost predicate Underway(start: State, tries: nat, now: State, done: bool) {
      if done then tries > 0 && Improves(start, now) && (tries > 1 ==> WasBelow(start.damping, tries - 1))
      else IsPending(start, tries, now)
    }

    lemma StaysUnderway(start: State, tries: nat, before: State, after: State, done: bool)
      requires growth > 1.0 && start.damping > 0.0
      requires Underway(start, tries, before, false) && OneTry(before, after, done)
      ensures Underway(start, tries + 1, after, done) && before.iterations == start.iterations
      ensures tries + 1 <= EnoughTries(start.damping, growth, params.dampingUpperBound)
    {
      var bound := params.dampingUpperBound;
      EnoughTriesReach(start.damping, growth, bound);
      hide Reaches, RaisedAtLeast, EnoughTries;
      if tries > 0 {
        NotYet(start.damping, growth, bound, tries, before.damping, EnoughTries(start.damping, growth, bound));
      } else {
        EnoughIsPositive(start.damping, growth, bound);
      }
      if !done {
        RaisedOnce(start.damping, growth, tries, before.damping, after.damping);
      }
    }

    lemma SearchBegins(start: State)
      ensures IsSearch(start, [], start, false) && Underway(start, 0, start, false)
    {
    }

    lemma TriesAreFew(start: State, tries: nat, now: State)
      requires start.damping > 0.0 && growth > 1.0 && Underway(start, tries, now, true)
      ensures Improves(start, now)
      ensures forall n: nat :: n >= 1 && Reaches(start.damping, growth, n, params.dampingUpperBound) ==> tries <= n
    {
      forall n: nat | n >= 1 && Reaches(start.damping, growth, n, params.dampingUpperBound) ensures tries <= n {
        if tries > 1 {
          BelowMeansMore(start.damping, tries - 1, n);
        }
      }
    }

    /** What one try means for the loop. */
    method TryOnce() returns (done: bool)
      requires Valid() && params.minModelFidelity >= 0.0
      modifies this`state
      ensures Valid() && (Agrees() <==> old(Agrees()) || state.iterations == old(state.iterations) + 1)
      ensures IsTried(graph, params, old(state), state, done)
      ensures OneTry(old(state), state, done)
    {
      AcceptedIffCostFalls(graph, params, state);
      done := TryLambda();
    }

    /** `tries` failed tries have changed nothing but the damping, which is below its bound. */
    ghost predicate IsPending(start: State, tries: nat, now: State) {
      && now.values == start.values && now.error == start.error && now.iterations == start.iterations
      && RaisedAtLeast(start.damping, growth, tries, now.damping)
      && (tries > 0 ==> now.damping < params.dampingUpperBound)
    }

    /** After `tries` raises the damping was still below its bound. */
    ghost predicate WasBelow(start: real, tries: nat) {
      exists damping :: RaisedAtLeast(start, growth, tries, damping) && damping < params.dampingUpperBound
    }

    lemma BelowMeansMore(start: real, tries: nat, n: nat)
      requires start > 0.0 && growth > 1.0 && WasBelow(start, tries)
      requires Reaches(start, growth, n, params.dampingUpperBound)
      ensures tries < n
    {
      var damping :| RaisedAtLeast(start, growth, tries, damping) && damping < params.dampingUpperBound;
      NotYet(start, growth, params.dampingUpperBound, tries, damping, n);
    }

    /** One round leads from one state to the next. */
    ghost predicate IsRound(before: State, after: State)
      reads this`graph
    {
      exists tried :: IsSearch(before, tried, after, true)
    }

    /** The states after each round: it goes on as long as it may and the rule does not say to stop. */
    ghost predicate AreRounds(rounds: seq<State>, maxIterations: nat, converged: (real, real) -> bool, done: bool)
      reads this`graph
    {
      && 1 <= |rounds| <= maxIterations + 1
      && (forall i :: 0 < i < |rounds| ==> IsRound(rounds[i - 1], rounds[i]))
      && (forall i :: 0 < i < |rounds| - 1 ==> !converged(rounds[i - 1].error, rounds[i].error))
      && (done ==> |rounds| == maxIterations + 1 || (|rounds| > 1 && Stopped(rounds, converged)))
      && (!done && |rounds| > 1 ==> !Stopped(rounds, converged))
    }

    ghost predicate Stopped(rounds: seq<State>, converged: (real, real) -> bool)
      requires |rounds| > 1
    {
      converged(rounds[|rounds| - 2].error, rounds[|rounds| - 1].error)
    }

    lemma OneMoreRound(rounds: seq<State>, tried: seq<State>, after: State, maxIterations: nat,
                       converged: (real, real) -> bool)
      requires AreRounds(rounds, maxIterations, converged, false) && |rounds| <= maxIterations
      requires IsSearch(rounds[|rounds| - 1], tried, after, true)
      ensures AreRounds(rounds + [after], maxIterations, converged, Stopped(rounds + [after], converged))
    {
      hide IsSearch;
      var all := rounds + [after];
      assert IsRound(rounds[|rounds| - 1], after);
      forall i | 0 < i < |all| ensures IsRound(all[i - 1], all[i]) {
        if i < |rounds| {
          assert IsRound(rounds[i - 1], rounds[i]);
        }
      }
      forall i | 0 < i < |all| - 1 ensures !converged(all[i - 1].error, all[i].error) {
        if i == |rounds| - 1 {
          assert !Stopped(rounds, converged);
        }
      }
    }

    /**
     * Iterates until some rule says to stop; `rounds` are the states on the way. From values just
     * set, each has its error cached correctly, and no state is worse than an earlier one.
     */
    method Optimize(values: Values, maxIterations: nat, converged: (real, real) -> bool)
      returns (ghost rounds: seq<State>)
      requires Valid() && params.minModelFidelity >= 0.0
      modifies this`state
      ensures Valid() && Agrees()
      ensures AreRounds(rounds, maxIterations, converged, true)
      ensures rounds[0].values == values && rounds[0].error == graph.error(values)
      ensures rounds[0].damping == params.dampingInitial && rounds[0].factor == params.dampingFactor
      ensures rounds[|rounds| - 1] == state
      ensures state.error <= graph.error(values)
      ensures state.error == graph.error(values) ==> state.values == values
    {
      hide IsSearch, IsRound, IsSound, Admissible;
      SetValues(values);
      rounds := [state];
      var done := maxIterations == 0;
      var n := 0;
      while !done
        invariant Valid() && Agrees() && state.error <= graph.error(values)
        invariant state.error == graph.error(values) ==> state.values == values
        invariant AreRounds(rounds, maxIterations, converged, done) && |rounds| == n + 1
        invariant !done ==> n < maxIterations
        invariant rounds[0].values == values && rounds[0].error == graph.error(values)
        invariant rounds[0].damping == params.dampingInitial && rounds[0].factor == params.dampingFactor
        invariant rounds[|rounds| - 1] == state
        decreases !done, maxIterations - n
      {
        var before := state.error;
        var _, tried := Iterate();
        OneMoreRound(rounds, tried, state, maxIterations, converged);
        rounds := rounds + [state];
        n := n + 1;
        done := converged(before, state.error) || n == maxIterations;
      }
    }
  }

  /** Replacing the graph can leave a cached error that is not the new graph's. */
  lemma StaleErrorExists() returns (before: CostGraph, after: CostGraph, s: State)
    ensures IsSound(before) && IsSound(after)
    ensures s.error == before.error(s.values) && s.error != after.error(s.values)
  {
    before := CostGraph(x => 0.0, (x, damping) => None);
    after := CostGraph(x => 1.0, (x, damping) => None);
    s := State(map[], 0.0, 1.0, 10.0, 0, 0);
  }
}

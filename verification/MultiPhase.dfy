/**
 * The time indices of a trajectory with several phases: which slices the factor graph covers
 * (DynamicsGraph::multiPhaseTrajectoryFG) and how Trajectory numbers them.
 */
module MultiPhase {

  /** The contact points of a slice: those of a phase, or those two phases share. */
  datatype Contacts = InPhase(phase: int) | Between(before: int)

  /** A part of the factor graph: the dynamics of one slice, or collocation from `k` to `k + 1`. */
  datatype Part = Slice(k: int, contacts: Contacts) | Collocation(k: int, phase: int)

  function Max(a: int, b: int): int { if a < b then b else a }

  /** The slices a phase of `steps` steps takes: at least one, for the slice that ends it. */
  function Taken(steps: int): nat { Max(steps, 1) }

  /** The collocation intervals of a phase. */
  function Intervals(steps: int): nat { Max(steps, 0) }

  /** The slice that ends the first `p` phases. */
  function EndOf(phaseSteps: seq<int>, p: nat): nat
    requires p <= |phaseSteps|
  {
    if p == 0 then 0 else EndOf(phaseSteps, p - 1) + Taken(phaseSteps[p - 1])
  }

  /** The number of collocation intervals of the first `p` phases. */
  function IntervalsBefore(phaseSteps: seq<int>, p: nat): nat
    requires p <= |phaseSteps|
  {
    if p == 0 then 0 else IntervalsBefore(phaseSteps, p - 1) + Intervals(phaseSteps[p - 1])
  }

  /** The prefix sums. */
  function StepsBefore(phaseSteps: seq<int>, p: nat): int
    requires p <= |phaseSteps|
  {
    if p == 0 then 0 else StepsBefore(phaseSteps, p - 1) + phaseSteps[p - 1]
  }

  ghost predicate AllPositive(phaseSteps: seq<int>) {
    forall p :: 0 <= p < |phaseSteps| ==> phaseSteps[p] >= 1
  }

  /** Slice `k` of phase `p`: its dynamics, unless a transition ends the phase there. */
  function SliceIn(phaseSteps: seq<int>, transitions: seq<Part>, p: nat, k: nat): Part
    requires p < |phaseSteps| && |phaseSteps| <= |transitions| + 1
  {
    if k == EndOf(phaseSteps, p + 1) && p < |phaseSteps| - 1 then transitions[p] else Slice(k, InPhase(p))
  }

  /** `parts` has one part per slice: slice 0, then the slices of phases 0 to `p - 1` in order. */
  ghost predicate CoversSlices(phaseSteps: seq<int>, transitions: seq<Part>, p: nat, parts: seq<Part>)
    requires p <= |phaseSteps| <= |transitions| + 1
  {
    && |parts| == EndOf(phaseSteps, p) + 1 && parts[0] == Slice(0, InPhase(0))
    && forall n, k :: 0 <= n < p && EndOf(phaseSteps, n) < k <= EndOf(phaseSteps, n + 1) && k < |parts| ==>
         parts[k] == SliceIn(phaseSteps, transitions, n, k)
  }

  /** `parts` has one collocation per interval of the first `p` phases, in order. */
  ghost predicate CoversIntervals(phaseSteps: seq<int>, p: nat, parts: seq<Part>)
    requires p <= |phaseSteps|
  {
    && |parts| == IntervalsBefore(phaseSteps, p)
    && forall n, k ::
         0 <= n < p && IntervalsBefore(phaseSteps, n) <= k < IntervalsBefore(phaseSteps, n + 1) && k < |parts| ==>
         parts[k] == Collocation(k, n)
  }

  lemma {:induction false} EndsGrow(phaseSteps: seq<int>, p: nat, q: nat)
    requires p <= q <= |phaseSteps|
    ensures EndOf(phaseSteps, p) + (q - p) <= EndOf(phaseSteps, q)
    ensures IntervalsBefore(phaseSteps, p) <= IntervalsBefore(phaseSteps, q)
    decreases q
  {
    if p < q {
      EndsGrow(phaseSteps, p, q - 1);
    }
  }

  /** The slices of the graph, phase by phase; `transitions` are graphs built by the caller. */
  method AddSlices(phaseSteps: seq<int>, transitions: seq<Part>) returns (graph: seq<Part>)
    requires |phaseSteps| <= |transitions| + 1
    ensures CoversSlices(phaseSteps, transitions, |phaseSteps|, graph)
  {
    graph := [Slice(0, InPhase(0))];
    var k := 0;
    for p := 0 to |phaseSteps|
      invariant k == EndOf(phaseSteps, p)
      invariant CoversSlices(phaseSteps, transitions, p, graph)
    {
      ghost var before := graph;
      var step := 0;
      while step < phaseSteps[p] - 1
        invariant 0 <= step <= Max(phaseSteps[p] - 1, 0) && k == EndOf(phaseSteps, p) + step
        invariant |graph| == k + 1 && before <= graph
        invariant forall i :: |before| <= i < |graph| ==> graph[i] == Slice(i, InPhase(p))
      {
        k := k + 1;
        graph := graph + [Slice(k, InPhase(p))];
        step := step + 1;
      }
      if p == |phaseSteps| - 1 {
        k := k + 1;
        graph := graph + [Slice(k, InPhase(p))];
      } else {
        graph := graph + [transitions[p]];
        k := k + 1;
      }
      CoverNextPhase(phaseSteps, transitions, p, before, graph);
    }
  }

  lemma CoverNextPhase(phaseSteps: seq<int>, transitions: seq<Part>, p: nat, before: seq<Part>, parts: seq<Part>)
    requires p < |phaseSteps| <= |transitions| + 1
    requires CoversSlices(phaseSteps, transitions, p, before) && before <= parts
    requires |parts| == EndOf(phaseSteps, p + 1) + 1
    requires forall k :: |before| <= k < |parts| ==> parts[k] == SliceIn(phaseSteps, transitions, p, k)
    ensures CoversSlices(phaseSteps, transitions, p + 1, parts)
  {
    forall n, k | 0 <= n < p + 1 && EndOf(phaseSteps, n) < k <= EndOf(phaseSteps, n + 1) && k < |parts|
      ensures parts[k] == SliceIn(phaseSteps, transitions, n, k)
    {
      if n < p {
        EndsGrow(phaseSteps, n + 1, p);
        assert parts[k] == before[k];
      }
    }
  }

  /** The collocation factors. */
  method AddCollocations(phaseSteps: seq<int>) returns (graph: seq<Part>)
    ensures CoversIntervals(phaseSteps, |phaseSteps|, graph)
  {
    graph := [];
    var k := 0;
    for p := 0 to |phaseSteps|
      invariant k == IntervalsBefore(phaseSteps, p)
      invariant CoversIntervals(phaseSteps, p, graph)
    {
      ghost var before := graph;
      var step := 0;
      while step < phaseSteps[p]
        invariant 0 <= step <= Max(phaseSteps[p], 0) && k == IntervalsBefore(phaseSteps, p) + step
        invariant |graph| == k && before <= graph
        invariant forall i :: |before| <= i < |graph| ==> graph[i] == Collocation(i, p)
      {
        graph := graph + [Collocation(k, p)];
        k := k + 1;
        step := step + 1;
      }
      CoverNextIntervals(phaseSteps, p, before, graph);
    }
  }

  lemma CoverNextIntervals(phaseSteps: seq<int>, p: nat, before: seq<Part>, parts: seq<Part>)
    requires p < |phaseSteps| && CoversIntervals(phaseSteps, p, before) && before <= parts
    requires |parts| == IntervalsBefore(phaseSteps, p + 1)
    requires forall k :: |before| <= k < |parts| ==> parts[k] == Collocation(k, p)
    ensures CoversIntervals(phaseSteps, p + 1, parts)
  {
    forall n, k |
      0 <= n < p + 1 && IntervalsBefore(phaseSteps, n) <= k < IntervalsBefore(phaseSteps, n + 1) && k < |parts|
      ensures parts[k] == Collocation(k, n)
    {
      if n < p {
        EndsGrow(phaseSteps, n + 1, p);
        assert parts[k] == before[k];
      }
    }
  }

  /** The parts of a whole graph: one per slice, then one per collocation interval. */
  ghost predicate CoversTrajectory(phaseSteps: seq<int>, transitions: seq<Part>, graph: seq<Part>)
    requires |phaseSteps| <= |transitions| + 1
  {
    var p := |phaseSteps|;
    var slices := EndOf(phaseSteps, p) + 1;
    && slices <= |graph|
    && CoversSlices(phaseSteps, transitions, p, graph[..slices]) && CoversIntervals(phaseSteps, p, graph[slices..])
  }

  /** The whole graph: all slices, then all collocations. */
  method MultiPhaseTrajectoryFG(phaseSteps: seq<int>, transitions: seq<Part>) returns (graph: seq<Part>)
    requires |phaseSteps| <= |transitions| + 1
    ensures CoversTrajectory(phaseSteps, transitions, graph)
  {
    var slices := AddSlices(phaseSteps, transitions);
    var collocations := AddCollocations(phaseSteps);
    graph := slices + collocations;
    assert graph[..|slices|] == slices && graph[|slices|..] == collocations;
  }

  // ---------------------------------------------------------------------------------------
  // Every slice and every interval belongs to exactly one phase

  lemma {:induction false} PhaseOfSlice(phaseSteps: seq<int>, p: nat, k: nat) returns (n: nat)
    requires p <= |phaseSteps| && 0 < k <= EndOf(phaseSteps, p)
    ensures n < p && EndOf(phaseSteps, n) < k <= EndOf(phaseSteps, n + 1)
    ensures forall m: nat :: m < p && EndOf(phaseSteps, m) < k <= EndOf(phaseSteps, m + 1) ==> m == n
  {
    if k > EndOf(phaseSteps, p - 1) {
      n := p - 1;
    } else {
      n := PhaseOfSlice(phaseSteps, p - 1, k);
    }
    forall m: nat | m < p && EndOf(phaseSteps, m) < k <= EndOf(phaseSteps, m + 1) ensures m == n {
      if m < n {
        EndsAreApart(phaseSteps, m, n, k);
      } else if n < m {
        EndsAreApart(phaseSteps, n, m, k);
      }
    }
  }

  lemma EndsAreApart(phaseSteps: seq<int>, m: nat, n: nat, k: nat)
    requires m < n < |phaseSteps|
    ensures k <= EndOf(phaseSteps, m + 1) ==> k <= EndOf(phaseSteps, n)
  {
    EndsGrow(phaseSteps, m + 1, n);
  }

  lemma {:induction false} PhaseOfInterval(phaseSteps: seq<int>, p: nat, k: nat) returns (n: nat)
    requires p <= |phaseSteps| && k < IntervalsBefore(phaseSteps, p)
    ensures n < p && IntervalsBefore(phaseSteps, n) <= k < IntervalsBefore(phaseSteps, n + 1)
  {
    if k >= IntervalsBefore(phaseSteps, p - 1) {
      n := p - 1;
    } else {
      n := PhaseOfInterval(phaseSteps, p - 1, k);
    }
  }

  /**
   * Slices and collocation intervals line up, for every number of leading phases, exactly when
   * every phase has at least one step; both are then counted by the prefix sums.
   */
  lemma {:induction false} LineUpIffPositive(phaseSteps: seq<int>)
    ensures AllPositive(phaseSteps) <==> EndOf(phaseSteps, |phaseSteps|) == IntervalsBefore(phaseSteps, |phaseSteps|)
    ensures AllPositive(phaseSteps) ==> forall p :: 0 <= p <= |phaseSteps| ==>
      EndOf(phaseSteps, p) == IntervalsBefore(phaseSteps, p) == StepsBefore(phaseSteps, p)
  {
    LineUpTo(phaseSteps, |phaseSteps|);
    if AllPositive(phaseSteps) {
      forall p | 0 <= p <= |phaseSteps|
        ensures EndOf(phaseSteps, p) == IntervalsBefore(phaseSteps, p) == StepsBefore(phaseSteps, p)
      {
        LineUpTo(phaseSteps, p);
      }
    }
  }

  lemma {:induction false} LineUpTo(phaseSteps: seq<int>, p: nat)
    requires p <= |phaseSteps|
    ensures IntervalsBefore(phaseSteps, p) <= EndOf(phaseSteps, p)
    ensures (forall n :: 0 <= n < p ==> phaseSteps[n] >= 1) <==> EndOf(phaseSteps, p) == IntervalsBefore(phaseSteps, p)
    ensures (forall n :: 0 <= n < p ==> phaseSteps[n] >= 1) ==> StepsBefore(phaseSteps, p) == EndOf(phaseSteps, p)
  {
    if p > 0 {
      LineUpTo(phaseSteps, p - 1);
    }
  }

  /** The number of the first `p` phases that have no steps. */
  function EmptyPhases(phaseSteps: seq<int>, p: nat): nat
    requires p <= |phaseSteps|
  {
    if p == 0 then 0 else EmptyPhases(phaseSteps, p - 1) + if phaseSteps[p - 1] < 1 then 1 else 0
  }

  /** Every phase without steps leaves its end slice without a collocation towards it. */
  lemma {:induction false} EmptyPhasesAreTheGap(phaseSteps: seq<int>, p: nat)
    requires p <= |phaseSteps|
    ensures EndOf(phaseSteps, p) == IntervalsBefore(phaseSteps, p) + EmptyPhases(phaseSteps, p)
  {
    if p > 0 {
      EmptyPhasesAreTheGap(phaseSteps, p - 1);
    }
  }

  /** For instance, with an empty second phase. */
  lemma EmptyPhaseLeavesGap()
    ensures EndOf([2, 0, 3], 3) == 6 && IntervalsBefore([2, 0, 3], 3) == 5
  {
    assert EndOf([2, 0, 3], 1) == 2 && IntervalsBefore([2, 0, 3], 1) == 2;
    assert EndOf([2, 0, 3], 2) == 3 && IntervalsBefore([2, 0, 3], 2) == 2;
  }

  // ---------------------------------------------------------------------------------------
  // Trajectory

  /** The last slice of each phase, as a running sum. */
  method FinalTimeSteps(durations: seq<int>) returns (final: seq<int>)
    ensures |final| == |durations| && forall p :: 0 <= p < |final| ==> final[p] == StepsBefore(durations, p + 1)
  {
    var finalTimeStep := 0;
    final := [];
    for i := 0 to |durations|
      invariant finalTimeStep == StepsBefore(durations, i)
      invariant |final| == i && forall p :: 0 <= p < i ==> final[p] == StepsBefore(durations, p + 1)
    {
      finalTimeStep := finalTimeStep + durations[i];
      final := final + [finalTimeStep];
    }
  }

  method GetStartTimeStep(durations: seq<int>, p: nat) returns (k: int)
    requires p < |durations|
    ensures k == StepsBefore(durations, p) + if p == 0 then 0 else 1
  {
    var final := FinalTimeSteps(durations);
    k := final[p] - durations[p];
    if p != 0 {
      k := k + 1;
    }
  }

  method GetEndTimeStep(durations: seq<int>, p: nat) returns (k: int)
    requires p < |durations|
    ensures k == StepsBefore(durations, p + 1)
  {
    var final := FinalTimeSteps(durations);
    k := final[p];
  }

  /** One graph per pair of consecutive phases, at the first one's last slice. */
  function TransitionsOf(durations: seq<int>): (transitions: seq<Part>)
    ensures |transitions| == Max(|durations| - 1, 0)
    ensures forall p :: 0 <= p < |transitions| ==> transitions[p] == Slice(StepsBefore(durations, p + 1), Between(p))
  {
    seq(Max(|durations| - 1, 0),
        p requires 0 <= p < Max(|durations| - 1, 0) => Slice(StepsBefore(durations, p + 1), Between(p)))
  }

  method GetTransitionGraphs(durations: seq<int>) returns (transitions: seq<Part>)
    ensures transitions == TransitionsOf(durations)
  {
    transitions := [];
    var final := FinalTimeSteps(durations);
    var p := 1;
    while p < |durations|
      invariant 1 <= p <= Max(|durations|, 1)
      invariant |transitions| == p - 1
      invariant forall i :: 0 <= i < |transitions| ==>
        transitions[i] == Slice(StepsBefore(durations, i + 1), Between(i))
    {
      transitions := transitions + [Slice(final[p - 1], Between(p - 1))];
      p := p + 1;
    }
  }

  method MultiPhaseFactorGraph(durations: seq<int>) returns (graph: seq<Part>)
    ensures CoversTrajectory(durations, TransitionsOf(durations), graph)
  {
    var transitions := GetTransitionGraphs(durations);
    graph := MultiPhaseTrajectoryFG(durations, transitions);
  }

  /** Slice `k` of phase `p` as the trajectory numbers it. */
  ghost predicate InRange(durations: seq<int>, p: nat, k: int)
    requires p < |durations|
  {
    StepsBefore(durations, p) + (if p == 0 then 0 else 1) <= k <= StepsBefore(durations, p + 1)
  }

  /**
   * When every phase has a step, slice `k` of the graph is about time `k`, for every `k` up to
   * the last: the dynamics of the phase whose range contains `k`, or the transition that ends it.
   */
  lemma SlicesAreInOrder(durations: seq<int>, graph: seq<Part>, k: nat) returns (p: nat)
    requires AllPositive(durations) && durations != []
    requires CoversTrajectory(durations, TransitionsOf(durations), graph) && k <= StepsBefore(durations, |durations|)
    ensures |graph| == 2 * StepsBefore(durations, |durations|) + 1
    ensures p < |durations| && InRange(durations, p, k)
    ensures forall m: nat :: m < |durations| && InRange(durations, m, k) ==> m == p
    ensures var ends := k == StepsBefore(durations, p + 1) && p < |durations| - 1;
      graph[k] == Slice(k, if ends then Between(p) else InPhase(p))
  {
    LineUpIffPositive(durations);
    if k == 0 {
      p := 0;
      FirstRange(durations);
      assert graph[..EndOf(durations, |durations|) + 1][0] == Slice(0, InPhase(0));
    } else {
      p := PhaseOfSlice(durations, |durations|, k);
      assert graph[..EndOf(durations, |durations|) + 1][k] == SliceIn(durations, TransitionsOf(durations), p, k);
    }
    forall m: nat | m < |durations| && InRange(durations, m, k) ensures m == p {
      if m < p {
        RangesAreDisjoint(durations, m, p, k);
      } else if p < m {
        RangesAreDisjoint(durations, p, m, k);
      }
    }
  }

  lemma RangesAreDisjoint(durations: seq<int>, m: nat, n: nat, k: int)
    requires AllPositive(durations) && m < n < |durations|
    ensures !(InRange(durations, m, k) && InRange(durations, n, k))
  {
    LineUpIffPositive(durations);
    EndsGrow(durations, m + 1, n);
  }

  lemma FirstRange(durations: seq<int>)
    requires AllPositive(durations) && durations != []
    ensures InRange(durations, 0, 0) && StepsBefore(durations, 1) > 0
  {
    assert StepsBefore(durations, 1) == StepsBefore(durations, 0) + durations[0];
  }

  /** When every phase has a step, collocation `k` connects slices `k` and `k + 1` in the phase that contains them. */
  lemma CollocationsAreInOrder(durations: seq<int>, transitions: seq<Part>, graph: seq<Part>, k: nat) returns (p: nat)
    requires AllPositive(durations) && |durations| <= |transitions| + 1
    requires CoversTrajectory(durations, transitions, graph) && k < StepsBefore(durations, |durations|)
    ensures |graph| == 2 * StepsBefore(durations, |durations|) + 1
    ensures p < |durations| && StepsBefore(durations, p) <= k < StepsBefore(durations, p + 1)
    ensures graph[StepsBefore(durations, |durations|) + 1 + k] == Collocation(k, p)
  {
    LineUpIffPositive(durations);
    p := PhaseOfInterval(durations, |durations|, k);
    assert graph[EndOf(durations, |durations|) + 1..][k] == Collocation(k, p);
  }

  // ---------------------------------------------------------------------------------------
  // A single phase

  /** The one-phase trajectory: a slice at each step, and a collocation after each but the last. */
  method TrajectoryFG(numSteps: int) returns (graph: seq<Part>)
    ensures |graph| == if numSteps < 0 then 0 else 2 * numSteps + 1
    ensures forall k :: 0 <= k <= numSteps ==> graph[2 * k] == Slice(k, InPhase(0))
    ensures forall k :: 0 <= k < numSteps ==> graph[2 * k + 1] == Collocation(k, 0)
  {
    graph := [];
    var t := 0;
    while t < numSteps + 1
      invariant 0 <= t <= Max(numSteps + 1, 0)
      invariant |graph| == if t <= numSteps then 2 * t else Max(2 * numSteps + 1, 0)
      invariant forall k :: 0 <= k < t ==> graph[2 * k] == Slice(k, InPhase(0))
      invariant forall k :: 0 <= k < t && k < numSteps ==> graph[2 * k + 1] == Collocation(k, 0)
    {
      graph := graph + [Slice(t, InPhase(0))];
      if t < numSteps {
        graph := graph + [Collocation(t, 0)];
      }
      t := t + 1;
    }
  }
}

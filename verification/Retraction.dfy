/**
 * Moving along a constraint manifold: the retractor that fixes the basis variables
 * (BasisRetractor) and the manifold point built on it (ConstraintManifold).
 */
module Retraction {
  import opened Prelude
  import opened LinearAlgebra
  import opened Factors
  import opened ConstVar
  import opened BayesNet
  import opened TangentBasis

  /** The inner optimizer: any function of the held values and the initial values that keeps the keys. */
  type Solver = (Values, Values) -> Values

  ghost predicate KeepsVariables(solve: Solver) {
    forall held, init :: solve(held, init).Keys == init.Keys
  }

  /** Optimizing a variable does not change its kind. */
  ghost predicate KeepsDims(solve: Solver, chart: Chart) {
    forall held, init, k :: k in init && k in solve(held, init) ==>
      chart.dim(solve(held, init)[k]) == chart.dim(init[k])
  }

  class BasisRetractor {
    const merit: seq<Factor>
    const basisKeys: seq<Key>
    const solve: Solver
    const graph: Graph
    const constVars: seq<ConstVarFactor>

    ghost predicate Valid()
      reads constVars
    {
      && IsPartialEvaluation(merit, Elements(basisKeys), graph)
      && Objects(graph) == (set c | c in constVars)
      && (forall c :: c in constVars ==> c.Valid())
    }

    constructor (merit: seq<Factor>, basisKeys: seq<Key>, solve: Solver)
      ensures Valid() && this.merit == merit && this.basisKeys == basisKeys && this.solve == solve
      ensures forall c :: c in constVars ==> fresh(c)
    {
      var g, cs := ConstVarGraph(merit, Elements(basisKeys));
      this.merit := merit;
      this.basisKeys := basisKeys;
      this.solve := solve;
      this.graph := g;
      this.constVars := cs;
    }

    /** The retracted values: the solver's answer on the free variables, the given values on the basis. */
    ghost function Retracted(values: Values): Values {
      var free := GraphKeys(merit) - Elements(basisKeys);
      var held := Restrict(values, Elements(basisKeys));
      solve(held, Restrict(values, free)) + held
    }

    /**
     * Holds the basis variables at their values and optimizes the others. Without a collision the
     * answer has the component's variables and the basis, and the basis is untouched; the error
     * the optimizer sees is the merit error, up to the dropped factors' constant, both at the answer
     * and where it starts; so an optimizer that ends no worse does not raise the merit error.
     */
    method RetractConstraints(values: Values) returns (r: Result<Values>)
      requires Valid() && KeepsVariables(solve) && AllLocal(merit)
      modifies constVars
      ensures Valid()
      ensures r.Ok? <==> GraphKeys(merit) + Elements(basisKeys) <= values.Keys && NoDuplicates(basisKeys)
      ensures r.Ok? ==> r.value == Retracted(values)
      ensures r.Ok? ==> r.value.Keys == GraphKeys(merit) + Elements(basisKeys)
      ensures r.Ok? ==> forall k :: k in basisKeys ==> r.value[k] == values[k]
      ensures r.Ok? ==> SawMeritThroughout(values, r.value)
    {
      ghost var basis := Elements(basisKeys);
      PartialEvaluationKeys(merit, basis, graph);
      SetAllFixedValues(constVars, values);
      var initial := SelectValues(values, KeysOfGraph(graph));
      if initial.Err? {
        return Err(initial.error);
      }
      var answer := solve(Restrict(values, Elements(basisKeys)), initial.value);
      assert answer.Keys == GraphKeys(merit) - basis;
      r := InsertBasis(answer, values, basisKeys);
      if r.Ok? {
        assert ConstVar.Holds(graph, values) by {
          HoldsBasis(values);
        }
        OptimizerSawMerit(values, answer);
        StartSawMerit(values);
      }
    }

    /** What the optimizer minimizes, plus the constant errors of the dropped factors, is the merit error. */
    ghost predicate SawMerit(values: Values, all: Values)
      reads Objects(graph)
    {
      && PriorFree(graph)
      && GraphError(graph, Restrict(all, GraphKeys(merit) - Elements(basisKeys)))
         + TotalError(Dropped(merit, Elements(basisKeys)), values)
         == TotalError(merit, all)
    }

    /** Both where it ends and where it starts. */
    ghost predicate SawMeritThroughout(values: Values, all: Values)
      reads Objects(graph)
    {
      SawMerit(values, all) && SawMerit(values, Restrict(values, all.Keys))
    }

    /** After the update, every factor with constants holds exactly the basis values. */
    lemma HoldsBasis(values: Values)
      requires Valid() && Elements(basisKeys) <= values.Keys
      requires forall c :: c in constVars ==>
        (forall k :: k in c.fixedKeys && k in values ==> k in c.fixedValues && c.fixedValues[k] == values[k])
      ensures ConstVar.Holds(graph, values)
    {
      PartialEvaluationObjects(merit, Elements(basisKeys), graph);
      forall c | c in Objects(graph)
        ensures c.fixedKeys <= values.Keys && c.fixedValues == Restrict(values, c.fixedKeys)
      {
        assert c in constVars && c.Valid();
        assert c.fixedKeys <= Elements(basisKeys);
      }
    }

    lemma StartSawMerit(values: Values)
      requires Valid() && AllLocal(merit) && GraphKeys(merit) + Elements(basisKeys) <= values.Keys
      requires ConstVar.Holds(graph, values)
      ensures SawMerit(values, Restrict(values, GraphKeys(merit) + Elements(basisKeys)))
    {
      var free, all := GraphKeys(merit) - Elements(basisKeys), GraphKeys(merit) + Elements(basisKeys);
      OptimizerSawMerit(values, Restrict(values, free));
      assert Restrict(values, free) + Restrict(values, Elements(basisKeys)) == Restrict(values, all);
    }

    lemma OptimizerSawMerit(values: Values, answer: Values)
      requires Valid() && AllLocal(merit) && Elements(basisKeys) <= values.Keys
      requires answer.Keys == GraphKeys(merit) - Elements(basisKeys)
      requires ConstVar.Holds(graph, values)
      ensures SawMerit(values, answer + Restrict(values, Elements(basisKeys)))
    {
      var basis := Elements(basisKeys);
      PartialEvaluationObjects(merit, basis, graph);
      assert Restrict(answer + Restrict(values, basis), GraphKeys(merit) - basis) == answer;
      PartialEvaluationIsExact(merit, basis, graph, values, answer);
    }
  }

  /** Adds the values of the basis variables, one after the other. */
  method InsertBasis(answer: Values, values: Values, basisKeys: seq<Key>) returns (r: Result<Values>)
    requires answer.Keys !! Elements(basisKeys)
    ensures r.Ok? <==> Elements(basisKeys) <= values.Keys && NoDuplicates(basisKeys)
    ensures r.Ok? ==> r.value == answer + Restrict(values, Elements(basisKeys))
  {
    hide Restrict, Elements;
    var result: Values := answer;
    for i := 0 to |basisKeys|
      invariant NoDuplicates(basisKeys[..i]) && Elements(basisKeys[..i]) <= values.Keys
      invariant result == answer + Restrict(values, Elements(basisKeys[..i]))
    {
      var key := basisKeys[i];
      PrefixElements(basisKeys, i);
      assert key in Elements(basisKeys);
      if key !in values {
        return Err(KeyDoesNotExist(key));
      }
      if key in result {
        assert key in Elements(basisKeys[..i]);
        DuplicateFound(basisKeys, i);
        return Err(KeyAlreadyExists(key));
      }
      RestrictGrows(answer, values, Elements(basisKeys[..i]), key);
      assert NoDuplicates(basisKeys[..i + 1]) by {
        assert key !in Elements(basisKeys[..i]);
        assert basisKeys[..i + 1] == basisKeys[..i] + [key];
      }
      result := result[key := values[key]];
    }
    assert basisKeys[..|basisKeys|] == basisKeys;
    r := Ok(result);
  }

  lemma DuplicateFound(keys: seq<Key>, i: nat)
    requires i < |keys| && keys[i] in Elements(keys[..i])
    ensures !NoDuplicates(keys)
  {
    var j :| 0 <= j < i && keys[..i][j] == keys[i];
    assert keys[j] == keys[i];
  }

  // ---------------------------------------------------------------------------------------
  // The manifold point

  /** Values moved by the given steps; variables without a step stay. */
  function MoveValues(chart: Chart, values: Values, delta: map<Key, Vector>): Values {
    map k | k in values :: if k in delta then chart.retract(values[k], delta[k]) else values[k]
  }

  class ConstraintManifold {
    const chart: Chart
    const retractor: BasisRetractor
    const values: Values
    const basis: FixedVarBasis

    ghost predicate Valid()
      reads retractor, retractor.constVars, basis
    {
      && retractor.Valid() && KeepsVariables(retractor.solve) && AllLocal(retractor.merit)
      && basis.Valid() && basis.BuiltAt(values)
      && ChartDims(chart) && KeepsDims(retractor.solve, chart)
      && basis.basisKeys == retractor.basisKeys
      && values.Keys == GraphKeys(retractor.merit) && Elements(basis.basisKeys) <= values.Keys
      && basis.varDim == DimsOf(values, chart)
    }

    constructor (chart: Chart, retractor: BasisRetractor, values: Values, basis: FixedVarBasis)
      ensures this.chart == chart && this.retractor == retractor && this.values == values && this.basis == basis
    {
      this.chart := chart;
      this.retractor := retractor;
      this.values := values;
      this.basis := basis;
    }

    /** The basis determines all variables at this point. */
    ghost predicate IsRegular() {
      basis.GoodAt(values)
    }

    method MakeSureBasisConstructed()
      requires Valid() && IsRegular()
      modifies basis
      ensures Valid() && basis.isConstructed
    {
      if !basis.isConstructed {
        basis.Construct(values);
      }
    }

    /** The values after a step with coordinates `xi`; the state of the lazily built basis plays no role. */
    ghost function RetractedValues(xi: Vector): Values
      requires basis.Shape() && IsRegular() && |xi| == basis.totalDim
    {
      retractor.Retracted(MoveValues(chart, values, TangentAt(xi)))
    }

    /** The variables in `part` have been moved from this point by the given steps. */
    ghost predicate IsMoved(part: Values, delta: map<Key, Vector>) {
      part.Keys <= values.Keys <= delta.Keys && forall k :: k in part ==> part[k] == chart.retract(values[k], delta[k])
    }

    /**
     * `after` is what the inner optimizer makes of this point moved along `delta`: it holds the moved
     * basis, starts from the other variables where they were moved to, and the basis stays there.
     */
    ghost predicate IsRetracted(after: Values, delta: map<Key, Vector>) {
      exists held: Values, start: Values ::
        && held.Keys == Elements(basis.basisKeys) && IsMoved(held, delta)
        && start.Keys == values.Keys - held.Keys && IsMoved(start, delta)
        && after == retractor.solve(held, start) + held
    }

    lemma RetractedIs(delta: map<Key, Vector>)
      requires values.Keys == delta.Keys == GraphKeys(retractor.merit) && Elements(basis.basisKeys) <= values.Keys
      requires basis.basisKeys == retractor.basisKeys
      ensures IsRetracted(retractor.Retracted(MoveValues(chart, values, delta)), delta)
    {
      var moved, basisKeys := MoveValues(chart, values, delta), Elements(basis.basisKeys);
      var held, start := Restrict(moved, basisKeys), Restrict(moved, values.Keys - basisKeys);
      assert held.Keys == basisKeys && IsMoved(held, delta);
      assert start.Keys == values.Keys - held.Keys && IsMoved(start, delta);
    }

    /** The steps that coordinates `xi` cause at this point. */
    ghost function TangentAt(xi: Vector): map<Key, Vector>
      requires basis.Shape() && IsRegular() && |xi| == basis.totalDim
    {
      var j := JacobiansAt(basis.eliminate, basis.basisKeys, basis.varDim, basis.tol, values);
      JacobiansCoverVariables(basis.eliminate, basis.basisKeys, basis.varDim, basis.tol, values);
      TangentVector(j, basis.basisKeys, basis.varDim, xi)
    }

    /**
     * Moves along the tangent vector and back onto the manifold. It always succeeds, whatever the
     * inner optimizer returns for its variables, and the new point has the same variables. Only a
     * basis that is built at once needs the new point to be regular.
     */
    method Retract(xi: Vector) returns (r: Result<ConstraintManifold>)
      requires Valid() && IsRegular() && |xi| == basis.totalDim
      requires basis.alwaysConstruct ==> basis.GoodAt(RetractedValues(xi))
      modifies basis, retractor.constVars
      ensures Valid() && basis.isConstructed
      ensures r.Ok? && fresh(r.value) && r.value.Valid()
      ensures r.value.chart == chart && r.value.retractor == retractor && r.value.basis.basisKeys == basis.basisKeys
      ensures r.value.values == RetractedValues(xi) && r.value.values.Keys == values.Keys
      ensures IsRetracted(r.value.values, TangentAt(xi))
      ensures forall k :: k in basis.basisKeys ==>
        r.value.values[k] == chart.retract(values[k], Segments(basis.basisKeys, basis.varDim, xi)[k])
    {
      var newValues := Step(xi);
      var newBasis := new FixedVarBasis.WithNewValues(newValues, basis);
      var point := new ConstraintManifold(chart, retractor, newValues, newBasis);
      r := Ok(point);
    }

    /** The values a retraction reaches. */
    method Step(xi: Vector) returns (newValues: Values)
      requires Valid() && IsRegular() && |xi| == basis.totalDim
      modifies basis, retractor.constVars
      ensures Valid() && basis.isConstructed
      ensures newValues == RetractedValues(xi) && newValues.Keys == values.Keys
      ensures IsRetracted(newValues, TangentAt(xi))
      ensures DimsOf(newValues, chart) == DimsOf(values, chart)
      ensures forall k :: k in basis.basisKeys ==>
        newValues[k] == chart.retract(values[k], Segments(basis.basisKeys, basis.varDim, xi)[k])
    {
      hide IsRetracted, BasisRetractor.Retracted, MoveValues, DimsOf, Segments, TangentAt;
      var delta := TangentStep(xi);
      newValues := RetractMoved(delta);
    }

    /** The values moved by the given steps and retracted. */
    method RetractMoved(delta: map<Key, Vector>) returns (newValues: Values)
      requires Valid() && delta.Keys == values.Keys
      requires forall k :: k in delta ==> |delta[k]| == chart.dim(values[k])
      modifies retractor.constVars
      ensures Valid()
      ensures newValues == retractor.Retracted(MoveValues(chart, values, delta)) && newValues.Keys == values.Keys
      ensures IsRetracted(newValues, delta) && DimsOf(newValues, chart) == DimsOf(values, chart)
      ensures forall k :: k in basis.basisKeys ==> newValues[k] == chart.retract(values[k], delta[k])
    {
      hide IsRetracted, BasisRetractor.Retracted, BasisRetractor.SawMeritThroughout;
      var moved := MoveValues(chart, values, delta);
      assert moved.Keys == values.Keys;
      newValues := RetractAll(moved);
      RetractionKeepsDims(moved, newValues, delta);
      RetractedIs(delta);
      forall k | k in basis.basisKeys ensures newValues[k] == chart.retract(values[k], delta[k]) {
        assert k in Elements(basis.basisKeys);
      }
    }

    /** Values of the manifold's variables can always be retracted. */
    method RetractAll(moved: Values) returns (newValues: Values)
      requires Valid() && moved.Keys == values.Keys
      modifies retractor.constVars
      ensures Valid() && newValues == retractor.Retracted(moved) && newValues.Keys == values.Keys
      ensures forall k :: k in basis.basisKeys ==> k in newValues && newValues[k] == moved[k]
    {
      hide BasisRetractor.Retracted, BasisRetractor.SawMeritThroughout;
      var retracted := retractor.RetractConstraints(moved);
      newValues := retracted.value;
    }

    /** The steps of all variables for coordinates `xi`, building the basis first if need be. */
    method TangentStep(xi: Vector) returns (delta: map<Key, Vector>)
      requires Valid() && IsRegular() && |xi| == basis.totalDim
      modifies basis
      ensures Valid() && basis.isConstructed && delta == TangentAt(xi)
      ensures delta.Keys == values.Keys && forall k :: k in delta ==> |delta[k]| == chart.dim(values[k])
      ensures forall k :: k in basis.basisKeys ==>
        k in delta && delta[k] == Segments(basis.basisKeys, basis.varDim, xi)[k]
    {
      MakeSureBasisConstructed();
      delta := basis.ComputeTangentVector(xi);
      TangentFits(xi);
    }

    lemma TangentFits(xi: Vector)
      requires basis.Shape() && IsRegular() && |xi| == basis.totalDim && basis.varDim == DimsOf(values, chart)
      requires Elements(basis.basisKeys) <= values.Keys
      ensures TangentAt(xi).Keys == values.Keys
      ensures forall k :: k in TangentAt(xi) ==> |TangentAt(xi)[k]| == chart.dim(values[k])
      ensures forall k :: k in basis.basisKeys ==>
        k in TangentAt(xi) && TangentAt(xi)[k] == Segments(basis.basisKeys, basis.varDim, xi)[k]
    {
      JacobiansCoverVariables(basis.eliminate, basis.basisKeys, basis.varDim, basis.tol, values);
      assert forall k :: k in basis.basisKeys ==> k in Elements(basis.basisKeys);
    }

    lemma RetractionKeepsDims(moved: Values, newValues: Values, delta: map<Key, Vector>)
      requires ChartDims(chart) && KeepsDims(retractor.solve, chart) && KeepsVariables(retractor.solve)
      requires moved == MoveValues(chart, values, delta) && newValues == retractor.Retracted(moved)
      requires forall k :: k in delta ==> k in values && |delta[k]| == chart.dim(values[k])
      requires newValues.Keys == values.Keys
      ensures DimsOf(newValues, chart) == DimsOf(values, chart)
    {
      var free := GraphKeys(retractor.merit) - Elements(retractor.basisKeys);
      var held := Restrict(moved, Elements(retractor.basisKeys));
      forall k | k in values ensures chart.dim(newValues[k]) == chart.dim(values[k]) {
        assert chart.dim(moved[k]) == chart.dim(values[k]);
        if k !in held {
          assert k in retractor.solve(held, Restrict(moved, free));
        }
      }
    }

    /** The coordinates of another point: how its basis variables differ from these. */
    method LocalCoordinates(g: ConstraintManifold) returns (xi: Vector)
      requires Valid() && IsRegular() && basis.Valid() && g.values.Keys == values.Keys
      modifies basis
      ensures Valid() && basis.isConstructed
      ensures xi == LocalOf(chart, basis.basisKeys, basis.varDim, values, g.values)
    {
      MakeSureBasisConstructed();
      forall k | k in basis.basisKeys ensures k in values {
        assert k in Elements(basis.basisKeys);
      }
      xi := basis.LocalCoordinates(chart, values, g.values);
    }

    /** The value of a variable, and its Jacobian with respect to the manifold's coordinates. */
    method Recover(key: Key) returns (value: Value, h: Matrix)
      requires Valid() && IsRegular() && key in values
      modifies basis
      ensures Valid() && basis.isConstructed && value == values[key]
      ensures h.rows == chart.dim(values[key]) && h.cols == basis.totalDim
      ensures forall xi: Vector :: |xi| == basis.totalDim ==>
        Apply(h, xi) == RowsOf(basis.jacobians[key], basis.varDim[key], basis.basisKeys, basis.varDim, xi)
    {
      MakeSureBasisConstructed();
      h := basis.RecoverJacobian(key);
      value := values[key];
    }
  }

  /**
   * Without pruning, the steps by which a point is moved before it is retracted satisfy the
   * constraints linearized there, and move each basis variable by its own segment.
   */
  lemma StepIsTangent(m: ConstraintManifold, xi: Vector)
    requires m.basis.Shape() && m.IsRegular() && |xi| == m.basis.totalDim && m.basis.tol == 0.0
    ensures forall c :: c in m.basis.eliminate(m.values) ==> BayesNet.Holds(c, m.TangentAt(xi), m.basis.varDim)
    ensures forall k :: k in m.basis.basisKeys ==>
      k in m.TangentAt(xi) && m.TangentAt(xi)[k] == Segments(m.basis.basisKeys, m.basis.varDim, xi)[k]
  {
    TangentVectorsAreTangent(m.basis.eliminate, m.basis.basisKeys, m.basis.varDim, m.values, xi);
    assert forall k :: k in m.basis.basisKeys ==> k in Elements(m.basis.basisKeys);
  }

  /** The coordinates, in some basis, of the difference between two assignments. */
  ghost function LocalOf(chart: Chart, basis: seq<Key>, width: map<Key, nat>, values: Values, other: Values): Vector
    requires Known(basis, width) && ChartDims(chart)
    requires forall k :: k in basis ==> k in values && k in other && chart.dim(values[k]) == width[k]
  {
    Stack(basis, Differences(chart, basis, values, other), width)
  }

  /** The basis variables of `other` are those of `values` moved by the segments of `xi`. */
  ghost predicate BasisMoved(chart: Chart, basis: seq<Key>, width: map<Key, nat>, values: Values, other: Values,
                             xi: Vector) {
    && Known(basis, width) && NoDuplicates(basis) && |xi| == Offset(basis, width)
    && forall k :: k in basis ==>
         && k in values && k in other && chart.dim(values[k]) == width[k]
         && other[k] == chart.retract(values[k], Segments(basis, width, xi)[k])
  }

  /**
   * The local coordinates of a retracted point are the coordinates that led to it exactly when
   * each basis variable's own chart undoes its own segment; the other variables, and so the inner
   * optimizer, play no role.
   */
  lemma LocalUndoesRetractIff(chart: Chart, basis: seq<Key>, width: map<Key, nat>, values: Values, other: Values,
                              xi: Vector)
    requires ChartDims(chart) && BasisMoved(chart, basis, width, values, other, xi)
    ensures LocalOf(chart, basis, width, values, other) == xi
       <==> forall k :: k in basis ==>
              var segment := Segments(basis, width, xi)[k];
              chart.local(values[k], chart.retract(values[k], segment)) == segment
  {
    var s, d := Segments(basis, width, xi), Differences(chart, basis, values, other);
    CoordinatesAreSegments(basis, width, xi);
    if forall k :: k in basis ==> d[k] == s[k] {
      StackSame(basis, d, s, width);
    }
    if Stack(basis, d, width) == xi {
      SegmentsOfStack(basis, width, d);
    }
  }

  /** The chart's local coordinates undo its retraction for the steps in a domain. */
  ghost predicate RoundTripsWithin(chart: Chart, near: (Value, Vector) -> bool) {
    forall v, d :: |d| == chart.dim(v) && near(v, d) ==> chart.local(v, chart.retract(v, d)) == d
  }

  /** Local coordinates undo retraction for every step whose segments lie in the charts' domain. */
  lemma LocalUndoesRetract(chart: Chart, near: (Value, Vector) -> bool, basis: seq<Key>, width: map<Key, nat>,
                           values: Values, other: Values, xi: Vector)
    requires ChartDims(chart) && RoundTripsWithin(chart, near) && BasisMoved(chart, basis, width, values, other, xi)
    requires forall k :: k in basis ==> near(values[k], Segments(basis, width, xi)[k])
    ensures LocalOf(chart, basis, width, values, other) == xi
  {
    LocalUndoesRetractIff(chart, basis, width, values, other, xi);
  }

  /**
   * Retract, then read the coordinates of the result: the original coordinates come back exactly if
   * every basis variable's own chart undoes its own segment, whatever the inner optimizer does.
   */
  method RetractThenLocal(m: ConstraintManifold, xi: Vector) returns (back: Vector)
    requires m.Valid() && m.IsRegular() && |xi| == m.basis.totalDim
    requires m.basis.alwaysConstruct ==> m.basis.GoodAt(m.RetractedValues(xi))
    modifies m.basis, m.retractor.constVars
    ensures back == xi <==> forall k :: k in m.basis.basisKeys ==>
      var segment := Segments(m.basis.basisKeys, m.basis.varDim, xi)[k];
      k in m.values && m.chart.local(m.values[k], m.chart.retract(m.values[k], segment)) == segment
  {
    var moved := m.Retract(xi);
    back := m.LocalCoordinates(moved.value);
    LocalUndoesRetractIff(m.chart, m.basis.basisKeys, m.basis.varDim, m.values, moved.value.values, xi);
  }

  function VectorRetract(v: Value, d: Vector): Value {
    if |v| == |d| then Plus(v, d) else v
  }

  function VectorLocal(v: Value, w: Value): Vector {
    if |v| == |w| then Plus(w, Negate(v)) else Zero(|v|)
  }

  /** Vector-valued variables: adding and subtracting, exactly. */
  function VectorChart(): Chart {
    Chart((v: Value) => |v|, VectorRetract, VectorLocal)
  }

  lemma AddThenSubtract(v: Value, d: Vector)
    requires |v| == |d|
    ensures VectorLocal(v, VectorRetract(v, d)) == d
  {
    forall i | 0 <= i < |d| ensures Plus(Plus(v, d), Negate(v))[i] == d[i] {
      assert Plus(v, d)[i] == v[i] + d[i];
    }
  }

  /** Vectors round-trip without restriction. */
  lemma VectorChartRoundTrips()
    ensures ChartDims(VectorChart()) && RoundTripsWithin(VectorChart(), (v, d) => true)
  {
    forall v: Value, d: Vector | |d| == VectorChart().dim(v)
      ensures VectorChart().local(v, VectorChart().retract(v, d)) == d
    {
      AddThenSubtract(v, d);
    }
  }

  /** The representative, in turns, of an angle: at least minus a half, less than a half. */
  function Wrapped(a: real): (w: real)
    ensures -0.5 <= w < 0.5
  {
    a - (a + 0.5).Floor as real
  }

  function WrappedAll(v: Vector): (w: Vector)
    ensures |w| == |v| && forall i :: 0 <= i < |v| ==> w[i] == Wrapped(v[i])
  {
    seq(|v|, i requires 0 <= i < |v| => Wrapped(v[i]))
  }

  function AngleRetract(v: Value, d: Vector): Value {
    if |v| == |d| then WrappedAll(Plus(v, d)) else v
  }

  function AngleLocal(v: Value, w: Value): Vector {
    if |v| == |w| then WrappedAll(Plus(w, Negate(v))) else Zero(|v|)
  }

  /** Rotation angles: adding and subtracting up to whole turns. */
  function AngleChart(): Chart {
    Chart((v: Value) => |v|, AngleRetract, AngleLocal)
  }

  ghost predicate WithinHalfTurn(v: Value, d: Vector) {
    forall i :: 0 <= i < |d| ==> -0.5 <= d[i] < 0.5
  }

  lemma WrappedDifference(a: real, d: real)
    ensures Wrapped(Wrapped(a + d) + -a) == Wrapped(d)
  {
    var n := (a + d + 0.5).Floor;
    assert Wrapped(a + d) + -a == d - n as real;
    FloorShift(d + 0.5, n);
  }

  lemma FloorShift(x: real, n: int)
    ensures (x - n as real).Floor == x.Floor - n
  {
  }

  /** Rotation angles round-trip exactly for steps of at least minus a half and less than half a turn. */
  lemma AngleChartRoundTripsIff(v: Value, d: Vector)
    requires |d| == |v|
    ensures ChartDims(AngleChart())
    ensures AngleChart().local(v, AngleChart().retract(v, d)) == d <==> WithinHalfTurn(v, d)
  {
    var back := AngleChart().local(v, AngleChart().retract(v, d));
    forall i | 0 <= i < |d| ensures back[i] == Wrapped(d[i]) {
      WrappedDifference(v[i], d[i]);
    }
    if WithinHalfTurn(v, d) {
      assert back == d;
    }
  }
}

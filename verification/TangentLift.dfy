/**
 * Constraint-manifold points as the rewritten factors see them, and what the Jacobian of a
 * rewritten factor means in terms of tangent vectors.
 */
module TangentLift {
  import opened Prelude
  import opened LinearAlgebra
  import opened Factors
  import opened BayesNet
  import opened TangentBasis
  import opened Retraction
  import S = Substitute
  import L = Linearize
  import C = Components
  import M = ManifoldOptimizer

  /** How a variable of the component moves when the manifold moves along `xi`. */
  ghost function StepOf(m: ConstraintManifold, xi: Vector, key: Key): (v: Vector)
    requires m.basis.Shape() && m.IsRegular() && |xi| == m.basis.totalDim && key in m.basis.varDim
    ensures |v| == m.basis.varDim[key]
  {
    JacobiansCoverVariables(m.basis.eliminate, m.basis.basisKeys, m.basis.varDim, m.basis.tol, m.values);
    m.TangentAt(xi)[key]
  }

  /** The matrix maps coordinates to the variable's step. */
  ghost predicate IsRecovered(h: Matrix, m: ConstraintManifold, key: Key) {
    && m.basis.Shape() && m.IsRegular() && key in m.basis.varDim
    && h.rows == m.basis.varDim[key] && h.cols == m.basis.totalDim
    && forall xi: Vector :: |xi| == m.basis.totalDim ==> Apply(h, xi) == StepOf(m, xi, key)
  }

  /** What a factor reads at the manifold `m`: its values and its recover Jacobians. */
  ghost predicate IsPointOf(p: S.ManifoldValue, m: ConstraintManifold) {
    && p.values == m.values && p.dim == m.basis.totalDim
    && forall k :: k in m.values ==> k in p.recover && IsRecovered(p.recover[k], m, k)
  }

  /** The recover Jacobian of a variable at a manifold point is the derivative of its step. */
  method RecoverStep(m: ConstraintManifold, key: Key) returns (h: Matrix)
    requires m.Valid() && m.IsRegular() && key in m.values
    modifies m.basis
    ensures m.Valid() && IsRecovered(h, m, key)
  {
    var value;
    value, h := m.Recover(key);
    forall xi: Vector | |xi| == m.basis.totalDim ensures Apply(h, xi) == StepOf(m, xi, key) {
      RecoveredAgreesWithStep(m.basis.eliminate, m.basis.basisKeys, m.basis.varDim, m.basis.tol, m.values, xi, key);
    }
  }

  /** Reads the values and all recover Jacobians. */
  method PointOf(m: ConstraintManifold) returns (p: S.ManifoldValue)
    requires m.Valid() && m.IsRegular()
    modifies m.basis
    ensures m.Valid() && IsPointOf(p, m)
  {
    var recover: map<Key, Matrix> := map[];
    var todo := m.values.Keys;
    while todo != {}
      invariant m.Valid() && todo <= m.values.Keys && recover.Keys == m.values.Keys - todo
      invariant forall k :: k in recover ==> IsRecovered(recover[k], m, k)
      decreases todo
    {
      var key := MinKey(todo);
      var h := RecoverStep(m, key);
      recover := recover[key := h];
      todo := todo - {key};
    }
    p := S.ManifoldValue(m.values, m.basis.totalDim, recover);
  }

  // ---------------------------------------------------------------------------------------
  // Rewritten factors

  /** The manifold variables of the factor are points of the given manifolds. */
  ghost predicate ArePoints(s: S.SubstituteFactor, x: S.MixedValues, points: map<Key, ConstraintManifold>) {
    forall m :: m in s.manifoldKeys ==> m in points && m in x && x[m].OnManifold? && IsPointOf(x[m].point, points[m])
  }

  /**
   * The step of a base variable: zero when it is fixed, its own when it is unconstrained, and
   * otherwise the tangent vector of its manifold at the manifold's coordinates.
   */
  ghost function BaseStep(s: S.SubstituteFactor, x: S.MixedValues, points: map<Key, ConstraintManifold>,
                          baseH: seq<Matrix>, n: nat,
                          d: map<Key, Vector>, k: Key): Vector
    requires L.Matches(s, x, baseH, n) && L.StepFits(s, x, baseH, n, d) && k in s.base.keys && ArePoints(s, x, points)
  {
    if k in s.fixedValues then Zero(baseH[s.baseKeyIndex[k]].cols)
    else if k in s.unconstrainedKeys then d[k]
    else
      var m := s.replacement[k];
      assert IsRecovered(x[m].point.recover[k], points[m], k);
      StepOf(points[m], d[m], k)
  }

  lemma LiftedIsBaseStep(s: S.SubstituteFactor, x: S.MixedValues, points: map<Key, ConstraintManifold>,
                         baseH: seq<Matrix>, n: nat,
                         d: map<Key, Vector>, k: Key)
    requires L.Matches(s, x, baseH, n) && L.StepFits(s, x, baseH, n, d) && k in s.base.keys && ArePoints(s, x, points)
    ensures L.Lifted(s, x, baseH, n, d, k) == BaseStep(s, x, points, baseH, n, d, k)
  {
    if k !in s.fixedValues && k !in s.unconstrainedKeys {
      var m := s.replacement[k];
      assert IsRecovered(x[m].point.recover[k], points[m], k);
    }
  }

  /** The base Jacobian blocks applied to the base variables' steps, in order. */
  ghost function StepActions(s: S.SubstituteFactor, x: S.MixedValues, points: map<Key, ConstraintManifold>,
                             baseH: seq<Matrix>, n: nat,
                             d: map<Key, Vector>): (vs: seq<Vector>)
    requires L.Matches(s, x, baseH, n) && L.StepFits(s, x, baseH, n, d) && NoDuplicates(s.base.keys)
    requires ArePoints(s, x, points)
    ensures |vs| == |baseH| && forall i :: 0 <= i < |vs| ==> |vs[i]| == n
  {
    seq(|baseH|, i requires 0 <= i < |baseH| => StepAction(s, x, points, baseH, n, d, i))
  }

  ghost function StepAction(s: S.SubstituteFactor, x: S.MixedValues, points: map<Key, ConstraintManifold>,
                            baseH: seq<Matrix>, n: nat,
                            d: map<Key, Vector>, i: nat): (v: Vector)
    requires L.Matches(s, x, baseH, n) && L.StepFits(s, x, baseH, n, d) && NoDuplicates(s.base.keys)
    requires ArePoints(s, x, points)
    requires i < |baseH|
    ensures |v| == n && v == L.BaseAction(s, x, baseH, n, d, i)
  {
    L.IndexIsPosition(s.base.keys, i);
    LiftedIsBaseStep(s, x, points, baseH, n, d, s.base.keys[i]);
    Apply(baseH[i], BaseStep(s, x, points, baseH, n, d, s.base.keys[i]))
  }

  lemma StepActionsAreBaseActions(s: S.SubstituteFactor, x: S.MixedValues, points: map<Key, ConstraintManifold>,
                                  baseH: seq<Matrix>, n: nat,
                                  d: map<Key, Vector>)
    requires L.Matches(s, x, baseH, n) && L.StepFits(s, x, baseH, n, d) && NoDuplicates(s.base.keys)
    requires ArePoints(s, x, points)
    ensures StepActions(s, x, points, baseH, n, d) == L.BaseActions(s, x, baseH, n, d)
  {
  }

  /**
   * The Jacobian of a constructed factor, applied to a step of the new variables, is the base
   * factor's Jacobian applied to the steps its variables make: the tangent vectors of their
   * manifolds, whatever the pruning tolerance.
   */
  lemma JacobianFollowsTangents(base: Factor, replacement: map<Key, Key>, fixed: S.Manifolds, s: S.SubstituteFactor,
                                x: S.MixedValues,
                                points: map<Key, ConstraintManifold>, baseH: seq<Matrix>, n: nat,
                                d: map<Key, Vector>, h: seq<Matrix>)
    requires s == S.Substituted(base, replacement, fixed) && s.keys != []
    requires NoDuplicates(s.base.keys) && L.NamesApart(base, replacement, fixed)
    requires L.Matches(s, x, baseH, n) && L.StepFits(s, x, baseH, n, d) && ArePoints(s, x, points)
    requires L.AreSlots(s, x, baseH, n, h)
    ensures L.SlotsFit(s, h, n, d)
    ensures L.SumSeq(L.SlotActions(s, h, n, d), n) == L.SumSeq(StepActions(s, x, points, baseH, n, d), n)
  {
    hide L.SlotActions, L.SumSeq, L.AreSlots, L.SlotsFit, L.BaseActions, L.NamesApart;
    hide StepActions, ArePoints, S.Substituted;
    L.ConstructedFactorLinearizes(base, replacement, fixed, s, x, baseH, n, d, h);
    StepActionsAreBaseActions(s, x, points, baseH, n, d);
  }

  // ---------------------------------------------------------------------------------------
  // The retraction that the transformed problem relies on

  /** The retractor's merit graph and basis have exactly the component's variables. */
  ghost predicate Serves(r: BasisRetractor, c: C.Component) {
    KeepsVariables(r.solve) && GraphKeys(r.merit) + Elements(r.basisKeys) == c.keys
  }

  /** Retracting a component's values keeps its variables, whatever the inner optimizer returns. */
  lemma RetractedKeepsComponent(r: BasisRetractor, c: C.Component, v: Values)
    requires Serves(r, c) && v.Keys == c.keys
    ensures r.Retracted(v).Keys == c.keys
  {
  }

  /** Basis retractors, one for each component, meet what the transform asks of its retraction. */
  lemma BasisRetractorsKeepKeys(params: M.ManifoldParams, cs: C.Constraints,
                                retractors: map<C.Component, BasisRetractor>)
    requires forall c :: C.IsComponent(cs, c) ==> c in retractors && Serves(retractors[c], c)
    requires forall c, v: Values :: c in retractors && v.Keys == c.keys ==>
      params.retract(c, v) == retractors[c].Retracted(v)
    ensures M.KeepsKeys(params, cs)
  {
    forall c, v: Values | C.IsComponent(cs, c) && v.Keys == c.keys ensures params.retract(c, v).Keys == c.keys {
      RetractedKeepsComponent(retractors[c], c, v);
    }
  }
}

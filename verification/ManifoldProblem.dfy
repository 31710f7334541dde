/**
 * The transform of an equality-constrained problem into an unconstrained one over manifold
 * variables, and back (ManifoldOptimizerType1): why it preserves the meaning of every cost.
 */
module ManifoldProblem {
  import opened Prelude
  import opened LinearAlgebra
  import opened Factors
  import opened Substitute

  /** A cost of the transformed problem: as it was, or reading manifold variables. */
  datatype MixedFactor = Original(cost: Factor) | Rewritten(subst: SubstituteFactor)

  /**
   * Where every base variable lives: `home` names the manifold of a constrained one, `fixed`
   * holds the fully constrained manifolds, and the rest is unconstrained.
   */
  datatype Layout = Layout(home: map<Key, Key>, fixed: Manifolds, manifoldKeys: set<Key>, unconstrained: set<Key>)

  /** The manifold `m` holds exactly the variables whose home it is. */
  ghost predicate HoldsItsVariables(home: map<Key, Key>, m: Key, values: Values) {
    forall k :: k in values <==> k in home && home[k] == m
  }

  ghost predicate IsLayout(l: Layout) {
    && (forall k :: k in l.home ==> l.home[k] in l.fixed.Keys + l.manifoldKeys)
    && l.fixed.Keys !! l.manifoldKeys
    && (forall m :: m in l.fixed ==> HoldsItsVariables(l.home, m, l.fixed[m].values))
    && l.manifoldKeys + l.fixed.Keys <= l.home.Keys
    && l.unconstrained !! l.home.Keys
  }

  /** The assignment gives every variable of the transformed problem a value of its kind. */
  ghost predicate Fits(l: Layout, x: MixedValues) {
    && (forall m :: m in l.manifoldKeys ==>
          m in x && x[m].OnManifold? && HoldsItsVariables(l.home, m, x[m].point.values))
    && (forall u :: u in l.unconstrained ==> u in x && x[u].Free?)
  }

  /** The values of the original variables that an assignment stands for. */
  ghost function BaseValuesOf(l: Layout, x: MixedValues): Values
    requires IsLayout(l) && Fits(l, x)
  {
    map k | k in l.home.Keys + l.unconstrained ::
      if k in l.unconstrained then x[k].value
      else if l.home[k] in l.fixed then l.fixed[l.home[k]].values[k]
      else x[l.home[k]].point.values[k]
  }

  /** The values of the fully constrained variables: the same for every assignment. */
  ghost function FixedBaseValues(l: Layout): Values
    requires IsLayout(l)
  {
    map k | k in l.home && l.home[k] in l.fixed :: l.fixed[l.home[k]].values[k]
  }

  // ---------------------------------------------------------------------------------------
  // Rewriting the costs

  function ReplacementOf(keys: seq<Key>, home: map<Key, Key>): map<Key, Key> {
    map k | k in keys && k in home :: home[k]
  }

  /** One cost: kept, rewritten, or dropped when none of its variables can move. */
  function RewriteCost(f: Factor, home: map<Key, Key>, fixed: Manifolds): Option<MixedFactor> {
    var replacement := ReplacementOf(f.keys, home);
    if replacement == map[] then Some(Original(f))
    else
      var s := Substituted(f, replacement, fixed);
      if s.keys == [] then None else Some(Rewritten(s))
  }

  function RewriteAll(costs: seq<Factor>, home: map<Key, Key>, fixed: Manifolds): seq<MixedFactor> {
    if costs == [] then []
    else
      RewriteAll(costs[..|costs| - 1], home, fixed) +
      (match RewriteCost(costs[|costs| - 1], home, fixed) case Some(e) => [e] case None => [])
  }

  /** The rewritten costs keep the order of the costs. */
  lemma {:induction false} CostsInOrder(costs: seq<Factor>, home: map<Key, Key>, fixed: Manifolds, n: nat)
    requires n < |costs|
    ensures
      var before := RewriteAll(costs[..n], home, fixed);
      match RewriteCost(costs[n], home, fixed)
      case Some(e) => before + [e] <= RewriteAll(costs, home, fixed)
      case None => before <= RewriteAll(costs, home, fixed)
    decreases |costs|
  {
    hide RewriteCost;
    if n + 1 < |costs| {
      var some := costs[..|costs| - 1];
      assert some[..n] == costs[..n];
      CostsInOrder(some, home, fixed, n);
    } else {
      assert costs[..n] == costs[..|costs| - 1];
    }
  }

  function InactiveCosts(costs: seq<Factor>, home: map<Key, Key>, fixed: Manifolds): seq<Factor> {
    if costs == [] then []
    else
      InactiveCosts(costs[..|costs| - 1], home, fixed) +
      (if RewriteCost(costs[|costs| - 1], home, fixed).None? then [costs[|costs| - 1]] else [])
  }

  /** The plain values of an assignment. */
  function PlainPart(x: MixedValues): Values {
    map k | k in x && x[k].Free? :: x[k].value
  }

  /** Evaluating the cost at `x` does not fail. */
  ghost predicate Evaluable(e: MixedFactor, x: MixedValues) {
    match e
    case Original(f) => Elements(f.keys) <= PlainPart(x).Keys
    case Rewritten(s) => Consistent(s) && Suits(s, x) && MovedKeysDistinct(s)
  }

  ghost predicate AllEvaluable(g: seq<MixedFactor>, x: MixedValues) {
    forall e :: e in g ==> Evaluable(e, x)
  }

  /** The variable's home is a manifold that can move. */
  ghost predicate IsMoving(k: Key, home: map<Key, Key>, fixed: set<Key>) {
    k in home && home[k] !in fixed
  }

  /** No variable whose home is a free manifold is listed twice. */
  ghost predicate MovesDistinct(f: Factor, home: map<Key, Key>, fixed: set<Key>) {
    forall i, j :: 0 <= i < j < |f.keys| && IsMoving(f.keys[j], home, fixed) ==> f.keys[i] != f.keys[j]
  }

  ghost predicate AllMovesDistinct(costs: seq<Factor>, home: map<Key, Key>, fixed: set<Key>) {
    forall f :: f in costs ==> MovesDistinct(f, home, fixed)
  }

  lemma MovesIfItsHomeDoes(f: Factor, home: map<Key, Key>, fixed: Manifolds, k: Key)
    requires RewriteCost(f, home, fixed).Some? && RewriteCost(f, home, fixed).value.Rewritten? && k in f.keys
    ensures Moves(RewriteCost(f, home, fixed).value.subst, k) <==> IsMoving(k, home, fixed.Keys)
  {
    hide NewKeys, FixedValuesOf, UnconstrainedKeysOf, IndexOf;
    var s := RewriteCost(f, home, fixed).value.subst;
    assert s.manifoldKeys == ManifoldKeysOf(f.keys, s.replacement, fixed.Keys);
  }

  /** Costs that move with no free manifold satisfy this, and the others keep the property when rewritten. */
  lemma MovesDistinctIffEvaluable(f: Factor, home: map<Key, Key>, fixed: Manifolds)
    ensures match RewriteCost(f, home, fixed)
      case Some(Rewritten(s)) => MovedKeysDistinct(s) <==> MovesDistinct(f, home, fixed.Keys)
      case _ => MovesDistinct(f, home, fixed.Keys)
  {
    hide NewKeys, FixedValuesOf, UnconstrainedKeysOf, ManifoldKeysOf, IndexOf;
    var replacement := ReplacementOf(f.keys, home);
    match RewriteCost(f, home, fixed) {
      case None =>
        InactiveIffAllFixed(f, replacement, fixed.Keys);
        forall j | 0 <= j < |f.keys| ensures f.keys[j] in home && home[f.keys[j]] in fixed {
          assert IsFixedKey(f.keys[j], replacement, fixed.Keys);
        }
      case Some(Original(_)) =>
        forall j | 0 <= j < |f.keys| ensures f.keys[j] !in home {
          assert f.keys[j] !in replacement;
        }
      case Some(Rewritten(s)) =>
        hide Moves;
        forall j | 0 <= j < |f.keys| ensures Moves(s, f.keys[j]) <==> IsMoving(f.keys[j], home, fixed.Keys) {
          MovesIfItsHomeDoes(f, home, fixed, f.keys[j]);
        }
    }
  }

  /** A rewritten cost keeps the noise model of the cost it wraps. */
  ghost function MixedError(e: MixedFactor, x: MixedValues): real
    requires Evaluable(e, x)
  {
    match e
    case Original(f) => f.Error(PlainPart(x))
    case Rewritten(s) => s.base.Error(BaseAssignment(s, x))
  }

  ghost function MixedTotal(g: seq<MixedFactor>, x: MixedValues): real
    requires AllEvaluable(g, x)
  {
    if g == [] then 0.0 else MixedTotal(g[..|g| - 1], x) + MixedError(g[|g| - 1], x)
  }

  // ---------------------------------------------------------------------------------------
  // Meaning is preserved

  /** The fields of a rewritten cost, in terms of the layout. */
  ghost predicate FollowsLayout(l: Layout, f: Factor, s: SubstituteFactor) {
    && s.base == f
    && s.replacement == ReplacementOf(f.keys, l.home)
    && s.manifoldKeys <= l.manifoldKeys
    && (forall k :: k in f.keys && k in l.home && l.home[k] in l.manifoldKeys ==> l.home[k] in s.manifoldKeys)
    && (forall k :: k in s.unconstrainedKeys <==> k in f.keys && k !in l.home)
    && (forall k :: k in s.fixedValues <==> k in f.keys && k in l.home && l.home[k] in l.fixed)
    && (forall k :: k in s.fixedValues ==>
          k in l.fixed[l.home[k]].values && s.fixedValues[k] == l.fixed[l.home[k]].values[k])
  }

  lemma RewrittenFollowsLayout(l: Layout, f: Factor)
    requires IsLayout(l)
    requires RewriteCost(f, l.home, l.fixed).Some? && RewriteCost(f, l.home, l.fixed).value.Rewritten?
    ensures FollowsLayout(l, f, RewriteCost(f, l.home, l.fixed).value.subst)
  {
    var s := RewriteCost(f, l.home, l.fixed).value.subst;
    assert s.manifoldKeys == ManifoldKeysOf(f.keys, s.replacement, l.fixed.Keys);
    assert s.unconstrainedKeys == UnconstrainedKeysOf(f.keys, s.replacement);
    forall k | k in f.keys && k in l.home && l.home[k] in l.fixed ensures k in l.fixed[l.home[k]].values {
      assert HoldsItsVariables(l.home, l.home[k], l.fixed[l.home[k]].values);
    }
    assert s.fixedValues == FixedValuesOf(f.keys, s.replacement, l.fixed);
    forall k | k in f.keys && k in l.home && l.home[k] in l.manifoldKeys ensures l.home[k] in s.manifoldKeys {
      assert s.replacement[k] !in l.fixed.Keys;
    }
  }

  lemma FollowingIsConsistent(l: Layout, f: Factor, s: SubstituteFactor)
    requires IsLayout(l) && FollowsLayout(l, f, s) && Elements(f.keys) <= l.home.Keys + l.unconstrained
    ensures Consistent(s)
  {
    forall k | k in f.keys ensures k in l.home || k in l.unconstrained {
      assert k in Elements(f.keys);
    }
    forall m | m in s.manifoldKeys ensures m !in s.unconstrainedKeys {
      assert m in l.home;
    }
    assert s.unconstrainedKeys == UnconstrainedKeysOf(s.base.keys, s.replacement);
  }

  lemma FollowingSuits(l: Layout, f: Factor, s: SubstituteFactor, x: MixedValues)
    requires IsLayout(l) && Fits(l, x) && FollowsLayout(l, f, s) && Elements(f.keys) <= l.home.Keys + l.unconstrained
    ensures Suits(s, x)
  {
    forall k | k in s.unconstrainedKeys ensures k in x && x[k].Free? {
      assert k in Elements(f.keys);
    }
    forall m | m in s.manifoldKeys
      ensures m in x && x[m].OnManifold?
      ensures forall k :: k in f.keys ==> (k in x[m].point.values <==> k in s.replacement && s.replacement[k] == m)
    {
      assert HoldsItsVariables(l.home, m, x[m].point.values);
    }
  }

  /** A rewritten cost sees, at its keys, the values the assignment stands for. */
  lemma RewrittenSeesBaseValues(l: Layout, f: Factor, s: SubstituteFactor, x: MixedValues)
    requires IsLayout(l) && Fits(l, x) && FollowsLayout(l, f, s) && Elements(f.keys) <= l.home.Keys + l.unconstrained
    requires Consistent(s) && Suits(s, x)
    ensures Agree(BaseAssignment(s, x), BaseValuesOf(l, x), f.keys)
  {
    forall k | k in f.keys ensures k in BaseAssignment(s, x) && k in BaseValuesOf(l, x)
                                && BaseAssignment(s, x)[k] == BaseValuesOf(l, x)[k] {
      assert k in Elements(f.keys);
      SeesBaseValue(l, f, s, x, k);
    }
  }

  lemma SeesBaseValue(l: Layout, f: Factor, s: SubstituteFactor, x: MixedValues, k: Key)
    requires IsLayout(l) && Fits(l, x) && FollowsLayout(l, f, s) && Consistent(s) && Suits(s, x)
    requires k in f.keys && (k in l.home || k in l.unconstrained)
    ensures Lookup(s, x, k) == BaseValuesOf(l, x)[k]
  {
    if k in s.fixedValues {
      assert BaseValuesOf(l, x)[k] == l.fixed[l.home[k]].values[k];
    } else if k in l.home {
      assert s.replacement[k] == l.home[k];
    }
  }

  /** A dropped cost looks only at fully constrained variables. */
  lemma DroppedSeesFixedValues(l: Layout, f: Factor, x: MixedValues)
    requires IsLayout(l) && Fits(l, x)
    requires RewriteCost(f, l.home, l.fixed).None?
    ensures Agree(FixedBaseValues(l), BaseValuesOf(l, x), f.keys)
  {
    var replacement := ReplacementOf(f.keys, l.home);
    InactiveIffAllFixed(f, replacement, l.fixed.Keys);
    var seen, meant := FixedBaseValues(l), BaseValuesOf(l, x);
    forall k | k in f.keys ensures k in seen && k in meant && seen[k] == meant[k] {
      assert IsFixedKey(k, replacement, l.fixed.Keys);
    }
  }

  /**
   * A kept cost can be evaluated exactly if it lists no moving variable twice, and then has its
   * original error; a dropped one lists none at all, and its error does not depend on the assignment.
   */
  ghost predicate OneCostHolds(l: Layout, f: Factor, x: MixedValues)
    requires IsLayout(l) && Fits(l, x)
  {
    match RewriteCost(f, l.home, l.fixed)
    case Some(e) =>
      && (Evaluable(e, x) <==> MovesDistinct(f, l.home, l.fixed.Keys))
      && (Evaluable(e, x) ==> MixedError(e, x) == f.Error(BaseValuesOf(l, x)))
    case None =>
      && MovesDistinct(f, l.home, l.fixed.Keys)
      && f.Error(FixedBaseValues(l)) == f.Error(BaseValuesOf(l, x))
  }

  lemma OneCostPreserved(l: Layout, f: Factor, x: MixedValues)
    requires IsLayout(l) && Fits(l, x) && Local(f)
    requires Elements(f.keys) <= l.home.Keys + l.unconstrained
    ensures OneCostHolds(l, f, x)
  {
    MovesDistinctIffEvaluable(f, l.home, l.fixed);
    match RewriteCost(f, l.home, l.fixed) {
      case None =>
        DroppedSeesFixedValues(l, f, x);
      case Some(Rewritten(s)) =>
        RewrittenFollowsLayout(l, f);
        FollowingIsConsistent(l, f, s);
        FollowingSuits(l, f, s, x);
        RewrittenSeesBaseValues(l, f, s, x);
      case Some(Original(_)) =>
        forall k | k in f.keys ensures k in PlainPart(x) && k in l.unconstrained {
          assert k in Elements(f.keys);
          assert k !in ReplacementOf(f.keys, l.home);
        }
        assert Agree(PlainPart(x), BaseValuesOf(l, x), f.keys);
    }
  }

  lemma MixedTotalAppend(g: seq<MixedFactor>, e: MixedFactor, x: MixedValues)
    ensures AllEvaluable(g + [e], x) <==> AllEvaluable(g, x) && Evaluable(e, x)
    ensures AllEvaluable(g + [e], x) ==> MixedTotal(g + [e], x) == MixedTotal(g, x) + MixedError(e, x)
  {
    assert (g + [e])[..|g|] == g;
    assert forall d :: d in g + [e] <==> d in g || d == e;
  }

  /** The statement of `TransformPreservesCost` for some of the costs. */
  ghost predicate CostsPreserved(l: Layout, costs: seq<Factor>, x: MixedValues)
    requires IsLayout(l) && Fits(l, x)
  {
    var g, dropped := RewriteAll(costs, l.home, l.fixed), InactiveCosts(costs, l.home, l.fixed);
    && (AllEvaluable(g, x) <==> AllMovesDistinct(costs, l.home, l.fixed.Keys))
    && (AllEvaluable(g, x) ==>
          MixedTotal(g, x) + TotalError(dropped, FixedBaseValues(l)) == TotalError(costs, BaseValuesOf(l, x)))
  }

  /**
   * Meaning preservation: at every assignment of the transformed problem, every factor of its graph
   * can be evaluated exactly if no cost lists a moving variable twice; and then the error of the
   * graph plus the error of the dropped costs is the original cost of the values the assignment
   * stands for. The dropped costs are evaluated without looking at the assignment.
   */
  lemma {:induction false} TransformPreservesCost(l: Layout, costs: seq<Factor>, x: MixedValues)
    requires IsLayout(l) && Fits(l, x) && AllLocal(costs)
    requires GraphKeys(costs) <= l.home.Keys + l.unconstrained
    ensures var g, dropped := RewriteAll(costs, l.home, l.fixed), InactiveCosts(costs, l.home, l.fixed);
      && (AllEvaluable(g, x) <==> AllMovesDistinct(costs, l.home, l.fixed.Keys))
      && (AllEvaluable(g, x) ==>
            MixedTotal(g, x) + TotalError(dropped, FixedBaseValues(l)) == TotalError(costs, BaseValuesOf(l, x)))
  {
    if costs != [] {
      var f, before := costs[|costs| - 1], costs[..|costs| - 1];
      assert costs == before + [f] && f in costs;
      forall k | k in GraphKeys(before) ensures k in GraphKeys(costs) {
        var i :| 0 <= i < |before| && k in before[i].keys;
        assert costs[i] == before[i];
      }
      forall k | k in f.keys ensures k in GraphKeys(costs) {
        assert costs[|costs| - 1] == f;
      }
      TransformPreservesCost(l, before, x);
      assert CostsPreserved(l, before, x);
      OneCostPreserved(l, f, x);
      AddOneCost(l, before, f, x);
    }
  }

  lemma NextRewritten(before: seq<Factor>, f: Factor, home: map<Key, Key>, fixed: Manifolds)
    ensures match RewriteCost(f, home, fixed)
      case Some(e) =>
        && RewriteAll(before + [f], home, fixed) == RewriteAll(before, home, fixed) + [e]
        && InactiveCosts(before + [f], home, fixed) == InactiveCosts(before, home, fixed)
      case None =>
        && RewriteAll(before + [f], home, fixed) == RewriteAll(before, home, fixed)
        && InactiveCosts(before + [f], home, fixed) == InactiveCosts(before, home, fixed) + [f]
    ensures AllMovesDistinct(before + [f], home, fixed.Keys)
       <==> AllMovesDistinct(before, home, fixed.Keys) && MovesDistinct(f, home, fixed.Keys)
  {
    hide RewriteCost, MovesDistinct;
    assert (before + [f])[..|before|] == before;
    assert forall c :: c in before + [f] <==> c in before || c == f;
  }

  lemma AddOneCost(l: Layout, before: seq<Factor>, f: Factor, x: MixedValues)
    requires IsLayout(l) && Fits(l, x)
    requires CostsPreserved(l, before, x) && OneCostHolds(l, f, x)
    ensures CostsPreserved(l, before + [f], x)
  {
    hide IsLayout, Fits, MovesDistinct, AllMovesDistinct, Evaluable, AllEvaluable, MixedError, MixedTotal, TotalError;
    hide RewriteCost, RewriteAll, InactiveCosts, BaseValuesOf, FixedBaseValues;
    NextRewritten(before, f, l.home, l.fixed);
    TotalErrorAppend(before, f, BaseValuesOf(l, x));
    match RewriteCost(f, l.home, l.fixed) {
      case Some(e) =>
        MixedTotalAppend(RewriteAll(before, l.home, l.fixed), e, x);
      case None =>
        TotalErrorAppend(InactiveCosts(before, l.home, l.fixed), f, FixedBaseValues(l));
    }
  }
}

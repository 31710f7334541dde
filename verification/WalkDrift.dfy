/**
 * How far pruning can move the Jacobians that the walk over an eliminated system computes
 * (ComputeBayesNetJacobian with the tolerance of MultiJacobian).
 */
module WalkDrift {
  import opened Prelude
  import opened LinearAlgebra
  import opened Factors
  import opened MultiJacobian
  import opened BayesNet
  import opened TangentBasis

  // ---------------------------------------------------------------------------------------
  // The bound

  function Larger(a: real, b: real): real { if a < b then b else a }

  /** The largest absolute row sum. */
  function MaxRowSum(rows: seq<Vector>): (m: real)
    ensures m >= 0.0
    ensures forall i :: 0 <= i < |rows| ==> AbsSum(rows[i]) <= m
  {
    if rows == [] then 0.0 else Larger(AbsSum(rows[0]), MaxRowSum(rows[1..]))
  }

  /** For each variable, how many tolerances its entries may be off; none if it is not listed. */
  type Bounds = map<Key, real>

  function BoundOf(a: Bounds, k: Key): real {
    if k in a then a[k] else 0.0
  }

  ghost predicate NonNegative(a: Bounds) {
    forall k :: k in a ==> a[k] >= 0.0
  }

  function Amplified(norm: real, bound: real): real {
    norm * bound
  }

  lemma AmplifiedIsNonNegative(norm: real, bound: real)
    requires norm >= 0.0 && bound >= 0.0
    ensures Amplified(norm, bound) >= 0.0
  {
  }

  /** One frontal: each parent adds its own bound, amplified by its block of the dependence, and one. */
  function FrontalBound(a: Bounds, f: Key, m: Matrix, position: nat, parents: seq<Key>, width: map<Key, nat>): (b: real)
    requires Known(parents, width) && f in width
    requires position + width[f] <= m.rows && Offset(parents, width) <= m.cols
    ensures NonNegative(a) ==> b >= 0.0
  {
    if parents == [] then 0.0
    else
      var before, p := parents[..|parents| - 1], parents[|parents| - 1];
      var soFar := FrontalBound(a, f, m, position, before, width);
      var norm := MaxRowSum(Block(m, position, Offset(before, width), width[f], width[p]).row);
      var parent := if p == f then soFar else BoundOf(a, p);
      assert NonNegative(a) ==> Amplified(norm, parent) >= 0.0 by {
        if NonNegative(a) {
          AmplifiedIsNonNegative(norm, parent);
        }
      }
      soFar + Amplified(norm, parent) + 1.0
  }

  function NewBound(a: Bounds, c: Conditional, n: nat, width: map<Key, nat>): (b: real)
    requires WellFormed(c, width) && n < |c.frontals|
    ensures NonNegative(a) ==> b >= 0.0
  {
    OffsetPrefix(c.frontals, n, width);
    FrontalBound(a, c.frontals[n], Dependence(c), Offset(c.frontals[..n], width), c.parents, width)
  }

  function FrontalsBound(a: Bounds, c: Conditional, n: nat, width: map<Key, nat>): (r: Bounds)
    requires WellFormed(c, width) && n <= |c.frontals|
    ensures NonNegative(a) ==> NonNegative(r)
  {
    if n == 0 then a
    else
      var before := FrontalsBound(a, c, n - 1, width);
      before[c.frontals[n - 1] := NewBound(before, c, n - 1, width)]
  }

  /** The bounds after the whole walk: a number per variable that depends on the net only. */
  function WalkBound(a: Bounds, net: seq<Conditional>, width: map<Key, nat>): (r: Bounds)
    requires forall c :: c in net ==> WellFormed(c, width)
    ensures NonNegative(a) ==> NonNegative(r)
    decreases |net|
  {
    if net == [] then a
    else
      var c := net[|net| - 1];
      WalkBound(FrontalsBound(a, c, |c.frontals|, width), net[..|net| - 1], width)
  }

  // ---------------------------------------------------------------------------------------
  // Nearness

  function Tolerances(n: real, tol: real): real {
    n * tol
  }

  /** Every entry of the two maps differs by at most `e`. */
  ghost predicate EntriesNear(x: Blocks, y: Blocks, rows: nat, width: map<Key, nat>, e: real) {
    forall b, i: nat, j: nat :: b in width && i < rows && j < width[b] ==>
      WithinOf(Entry(x, b, i, j), Entry(y, b, i, j), e)
  }

  ghost predicate NearAt(x: Jacobians, y: Jacobians, a: Bounds, tol: real, width: map<Key, nat>, k: Key) {
    k in width ==> EntriesNear(Of(x, k), Of(y, k), width[k], width, Tolerances(BoundOf(a, k), tol))
  }

  /** Every variable's Jacobians differ by at most its bound times the tolerance. */
  ghost predicate Near(x: Jacobians, y: Jacobians, a: Bounds, tol: real, width: map<Key, nat>) {
    forall k :: NearAt(x, y, a, tol, width, k)
  }

  lemma RowWithinNorm(rows: seq<Vector>, i: nat, b: real, tol: real)
    requires i < |rows| && b >= 0.0 && tol >= 0.0
    ensures RowBound(rows[i], Tolerances(b, tol)) <= Tolerances(Amplified(MaxRowSum(rows), b), tol)
  {
    hide AbsSum, MaxRowSum, Amplified, Tolerances, RowBound;
    assert AbsSum(rows[i]) <= MaxRowSum(rows);
    ProductsCompare(AbsSum(rows[i]), MaxRowSum(rows), b, tol);
    RowBoundIs(rows[i], Tolerances(b, tol));
  }

  lemma RowBoundIs(row: Vector, e: real)
    ensures RowBound(row, e) == Amplified(AbsSum(row), e)
  {
  }

  lemma ProductsCompare(s: real, n: real, b: real, tol: real)
    requires s <= n && b >= 0.0 && tol >= 0.0
    ensures Amplified(s, Tolerances(b, tol)) <= Tolerances(Amplified(n, b), tol)
  {
    var e := b * tol;
    assert e >= 0.0;
    assert (n - s) * e >= 0.0;
    assert n * e == n * b * tol;
  }

  lemma TolerancesAdd(a: real, b: real, tol: real)
    ensures Tolerances(a + b + 1.0, tol) == Tolerances(a, tol) + Tolerances(b, tol) + tol
  {
  }

  lemma NoRowBound(row: Vector)
    ensures RowBound(row, 0.0) == 0.0
  {
  }

  // ---------------------------------------------------------------------------------------
  // One parent, one frontal, one conditional

  /** What a pruned and an unpruned chain rule make of near operands, in one entry. */
  lemma EntryStep(x: Blocks, y: Blocks, relative: Matrix, p: Blocks, q: Blocks, tol: real, width: map<Key, nat>,
                  a: real, b: real, key: Key, i: nat, j: nat)
    requires Shaped(x, relative.rows, width) && Shaped(y, relative.rows, width)
    requires Shaped(p, relative.cols, width) && Shaped(q, relative.cols, width)
    requires EntriesNear(x, y, relative.rows, width, Tolerances(a, tol))
    requires EntriesNear(p, q, relative.cols, width, Tolerances(b, tol))
    requires tol >= 0.0 && b >= 0.0 && key in width && i < relative.rows && j < width[key]
    ensures WithinOf(Entry(ChainRule(x, relative, p, tol, width), key, i, j),
                     Entry(ChainRule(y, relative, q, 0.0, width), key, i, j),
                     Tolerances(a + Amplified(MaxRowSum(relative.row), b) + 1.0, tol))
  {
    hide ChainRule, Shaped, MaxRowSum, RowBound, Tolerances, Amplified;
    var column, norm := Column(q, key, relative.cols, j), MaxRowSum(relative.row);
    assert ColumnWithin(p, key, j, column, Tolerances(b, tol));
    assert ColumnWithin(q, key, j, column, 0.0);
    assert WithinOf(Entry(x, key, i, j), Entry(y, key, i, j), Tolerances(a, tol));
    ChainRuleDrift(x, relative, p, tol, width, key, i, j, Entry(y, key, i, j), column, Tolerances(a, tol),
                   Tolerances(b, tol));
    ChainRuleDrift(y, relative, q, 0.0, width, key, i, j, Entry(y, key, i, j), column, 0.0, 0.0);
    NoRowBound(relative.row[i]);
    RowWithinNorm(relative.row, i, b, tol);
    TolerancesAdd(a, Amplified(norm, b), tol);
  }

  lemma ParentStep(x: Blocks, y: Blocks, relative: Matrix, p: Blocks, q: Blocks, tol: real, width: map<Key, nat>,
                   a: real, b: real)
    requires Shaped(x, relative.rows, width) && Shaped(y, relative.rows, width)
    requires Shaped(p, relative.cols, width) && Shaped(q, relative.cols, width)
    requires EntriesNear(x, y, relative.rows, width, Tolerances(a, tol))
    requires EntriesNear(p, q, relative.cols, width, Tolerances(b, tol))
    requires tol >= 0.0 && b >= 0.0
    ensures EntriesNear(ChainRule(x, relative, p, tol, width), ChainRule(y, relative, q, 0.0, width),
                        relative.rows, width, Tolerances(a + Amplified(MaxRowSum(relative.row), b) + 1.0, tol))
  {
    hide ChainRule, Shaped, MaxRowSum, Tolerances, Amplified, Entry;
    forall key, i: nat, j: nat | key in width && i < relative.rows && j < width[key]
      ensures WithinOf(Entry(ChainRule(x, relative, p, tol, width), key, i, j),
                       Entry(ChainRule(y, relative, q, 0.0, width), key, i, j),
                       Tolerances(a + Amplified(MaxRowSum(relative.row), b) + 1.0, tol))
    {
      EntryStep(x, y, relative, p, q, tol, width, a, b, key, i, j);
    }
  }

  lemma NothingIsNear(rows: nat, width: map<Key, nat>, tol: real)
    ensures EntriesNear(map[], map[], rows, width, Tolerances(0.0, tol))
  {
  }

  lemma {:induction false} FrontalDrift(x: Jacobians, y: Jacobians, a: Bounds, f: Key, m: Matrix, position: nat,
                                        parents: seq<Key>, tol: real, width: map<Key, nat>)
    requires AllShaped(x, width) && AllShaped(y, width) && Near(x, y, a, tol, width) && NonNegative(a) && tol >= 0.0
    requires Known(parents, width) && f in width
    requires position + width[f] <= m.rows && Offset(parents, width) <= m.cols
    ensures EntriesNear(FrontalBlocks(x, f, m, position, parents, tol, width),
                        FrontalBlocks(y, f, m, position, parents, 0.0, width),
                        width[f], width, Tolerances(FrontalBound(a, f, m, position, parents, width), tol))
  {
    if parents == [] {
      NothingIsNear(width[f], width, tol);
    } else {
      hide EntriesNear, Tolerances, ChainRule, MaxRowSum, Amplified;
      var before, p := parents[..|parents| - 1], parents[|parents| - 1];
      FrontalDrift(x, y, a, f, m, position, before, tol, width);
      var soFarX := FrontalBlocks(x, f, m, position, before, tol, width);
      var soFarY := FrontalBlocks(y, f, m, position, before, 0.0, width);
      var soFar := FrontalBound(a, f, m, position, before, width);
      assert NearAt(x, y, a, tol, width, p);
      ParentStep(soFarX, soFarY, Block(m, position, Offset(before, width), width[f], width[p]),
                 ParentBlocks(x, f, soFarX, p), ParentBlocks(y, f, soFarY, p), tol, width,
                 soFar, if p == f then soFar else BoundOf(a, p));
    }
  }

  lemma OfWithFrontal(j: Jacobians, f: Key, blocks: Blocks, parents: seq<Key>, k: Key)
    ensures Of(WithFrontal(j, f, blocks, parents), k) == if k == f then blocks else Of(j, k)
  {
    WithFrontalIs(j, f, blocks, parents);
  }

  lemma WithFrontalDrift(x: Jacobians, y: Jacobians, a: Bounds, f: Key, newX: Blocks, newY: Blocks, b: real,
                         parents: seq<Key>, tol: real, width: map<Key, nat>)
    requires Near(x, y, a, tol, width) && f in width && EntriesNear(newX, newY, width[f], width, Tolerances(b, tol))
    ensures Near(WithFrontal(x, f, newX, parents), WithFrontal(y, f, newY, parents), a[f := b], tol, width)
  {
    hide EntriesNear, Tolerances, WithFrontal, Of;
    var afterX, afterY, after := WithFrontal(x, f, newX, parents), WithFrontal(y, f, newY, parents), a[f := b];
    forall k ensures NearAt(afterX, afterY, after, tol, width, k) {
      assert NearAt(x, y, a, tol, width, k);
      OfWithFrontal(x, f, newX, parents, k);
      OfWithFrontal(y, f, newY, parents, k);
    }
  }

  /** One step of the two recursions. */
  lemma OneMoreFrontal(j: Jacobians, a: Bounds, c: Conditional, n: nat, tol: real, width: map<Key, nat>)
    requires AllShaped(j, width) && WellFormed(c, width) && n <= |c.frontals|
    ensures n == 0 ==> AddFrontals(j, c, n, tol, width) == j && FrontalsBound(a, c, n, width) == a
    ensures n > 0 ==>
      var before, bound := AddFrontals(j, c, n - 1, tol, width), FrontalsBound(a, c, n - 1, width);
      && AddFrontals(j, c, n, tol, width)
         == WithFrontal(before, c.frontals[n - 1], NewBlocks(before, c, n - 1, tol, width), c.parents)
      && FrontalsBound(a, c, n, width) == bound[c.frontals[n - 1] := NewBound(bound, c, n - 1, width)]
  {
  }

  lemma {:induction false} FrontalsDrift(x: Jacobians, y: Jacobians, a: Bounds, c: Conditional, n: nat, tol: real,
                                         width: map<Key, nat>)
    requires AllShaped(x, width) && AllShaped(y, width) && Near(x, y, a, tol, width) && NonNegative(a) && tol >= 0.0
    requires WellFormed(c, width) && n <= |c.frontals|
    ensures Near(AddFrontals(x, c, n, tol, width), AddFrontals(y, c, n, 0.0, width), FrontalsBound(a, c, n, width),
                 tol, width)
  {
    hide AddFrontals, FrontalsBound;
    OneMoreFrontal(x, a, c, n, tol, width);
    OneMoreFrontal(y, a, c, n, 0.0, width);
    if n > 0 {
      hide Near, EntriesNear, Tolerances, WithFrontal, NewBlocks, NewBound, WellFormed, AllShaped, NonNegative;
      var beforeX, beforeY := AddFrontals(x, c, n - 1, tol, width), AddFrontals(y, c, n - 1, 0.0, width);
      var before := FrontalsBound(a, c, n - 1, width);
      FrontalsDrift(x, y, a, c, n - 1, tol, width);
      NewBlocksDrift(beforeX, beforeY, before, c, n - 1, tol, width);
      WithFrontalDrift(beforeX, beforeY, before, c.frontals[n - 1], NewBlocks(beforeX, c, n - 1, tol, width),
                       NewBlocks(beforeY, c, n - 1, 0.0, width), NewBound(before, c, n - 1, width),
                       c.parents, tol, width);
    }
  }

  lemma NewBlocksDrift(x: Jacobians, y: Jacobians, a: Bounds, c: Conditional, n: nat, tol: real, width: map<Key, nat>)
    requires AllShaped(x, width) && AllShaped(y, width) && Near(x, y, a, tol, width) && NonNegative(a) && tol >= 0.0
    requires WellFormed(c, width) && n < |c.frontals|
    ensures c.frontals[n] in width
    ensures EntriesNear(NewBlocks(x, c, n, tol, width), NewBlocks(y, c, n, 0.0, width), width[c.frontals[n]], width,
                        Tolerances(NewBound(a, c, n, width), tol))
  {
    hide FrontalBlocks, FrontalBound, EntriesNear, Tolerances;
    OffsetPrefix(c.frontals, n, width);
    FrontalDrift(x, y, a, c.frontals[n], Dependence(c), Offset(c.frontals[..n], width), c.parents, tol, width);
  }

  // ---------------------------------------------------------------------------------------
  // The whole walk

  lemma {:induction false} WalkDrifts(x: Jacobians, y: Jacobians, a: Bounds, net: seq<Conditional>, tol: real,
                                      width: map<Key, nat>)
    requires AllShaped(x, width) && AllShaped(y, width) && Near(x, y, a, tol, width) && NonNegative(a) && tol >= 0.0
    requires forall c :: c in net ==> WellFormed(c, width)
    ensures Near(Walk(x, net, tol, width), Walk(y, net, 0.0, width), WalkBound(a, net, width), tol, width)
    decreases |net|
  {
    if net != [] {
      hide Near, AddFrontals, FrontalsBound, WellFormed, AllShaped, NonNegative;
      var c, n := net[|net| - 1], |net[|net| - 1].frontals|;
      FrontalsDrift(x, y, a, c, n, tol, width);
      WalkDrifts(AddFrontals(x, c, n, tol, width), AddFrontals(y, c, n, 0.0, width), FrontalsBound(a, c, n, width),
                 net[..|net| - 1], tol, width);
    }
  }

  lemma NearItself(j: Jacobians, tol: real, width: map<Key, nat>)
    ensures Near(j, j, map[], tol, width)
  {
    forall k ensures NearAt(j, j, map[], tol, width, k) {
      assert Tolerances(0.0, tol) == 0.0;
    }
  }

  /**
   * For every net, in any order, and every tolerance: each entry of the pruned walk differs from the
   * unpruned one by at most the tolerance times a number that the net alone determines.
   */
  lemma PrunedWalkDrift(j: Jacobians, net: seq<Conditional>, tol: real, width: map<Key, nat>,
                        k: Key, b: Key, row: nat, col: nat)
    requires AllShaped(j, width) && tol >= 0.0 && forall c :: c in net ==> WellFormed(c, width)
    requires k in width && b in width && row < width[k] && col < width[b]
    ensures WithinOf(Entry(Of(Walk(j, net, tol, width), k), b, row, col),
                     Entry(Of(Walk(j, net, 0.0, width), k), b, row, col),
                     Tolerances(BoundOf(WalkBound(map[], net, width), k), tol))
  {
    hide Walk, WalkBound, Entry, Of, BoundOf, Tolerances;
    NearItself(j, tol, width);
    WalkDrifts(j, j, map[], net, tol, width);
    assert NearAt(Walk(j, net, tol, width), Walk(j, net, 0.0, width), WalkBound(map[], net, width), tol, width, k);
  }

  /** The Jacobians of a tangent basis are that near to those whose tangent vectors are tangent. */
  lemma PrunedJacobiansDrift(eliminate: Values -> seq<Conditional>, basis: seq<Key>, width: map<Key, nat>, tol: real,
                             v: Values, k: Key, b: Key, row: nat, col: nat)
    requires GoodElimination(eliminate, basis, width, v) && tol >= 0.0
    requires k in width && b in width && row < width[k] && col < width[b]
    ensures
      var pruned := JacobiansAt(eliminate, basis, width, tol, v);
      var exact := JacobiansAt(eliminate, basis, width, 0.0, v);
      && k in pruned && k in exact
      && WithinOf(Entry(pruned[k], b, row, col), Entry(exact[k], b, row, col),
                  Tolerances(BoundOf(WalkBound(map[], eliminate(v), width), k), tol))
  {
    JacobiansCoverVariables(eliminate, basis, width, tol, v);
    JacobiansCoverVariables(eliminate, basis, width, 0.0, v);
    PrunedWalkDrift(WithBasis(map[], basis, width), eliminate(v), tol, width, k, b, row, col);
  }
}

/**
 * Jacobians of one variable with respect to several others, kept sparse by pruning blocks that
 * are zero up to a tolerance (MultiJacobian).
 */
module MultiJacobian {
  import opened Prelude
  import opened LinearAlgebra

  type Blocks = map<Key, Matrix>

  /** All blocks have `rows` rows, and as many columns as their variable has dimensions. */
  predicate Shaped(blocks: Blocks, rows: nat, width: map<Key, nat>) {
    forall k :: k in blocks ==> k in width && blocks[k].rows == rows && blocks[k].cols == width[k]
  }

  predicate BlockFits(key: Key, m: Matrix, rows: nat, width: map<Key, nat>) {
    key in width && m.rows == rows && m.cols == width[key]
  }

  /** The Jacobian of a variable with respect to itself. */
  function IdentityBlocks(key: Key, dim: nat): (r: Blocks)
    ensures r.Keys == {key} && r[key] == Identity(dim)
  {
    var none: Blocks := map[];
    none[key := Identity(dim)]
  }

  /** Adding a block, and dropping the result when it is zero up to `tol`. */
  function AddBlock(blocks: Blocks, key: Key, m: Matrix, tol: real): (r: Blocks)
    requires key in blocks ==> blocks[key].rows == m.rows && blocks[key].cols == m.cols
  {
    if key !in blocks then
      if IsZero(m, tol) then blocks else blocks[key := m]
    else
      var sum := MatrixPlus(blocks[key], m);
      if IsZero(sum, tol) then blocks - {key} else blocks[key := sum]
  }

  lemma AddBlockShaped(blocks: Blocks, key: Key, m: Matrix, tol: real, rows: nat, width: map<Key, nat>)
    requires Shaped(blocks, rows, width) && BlockFits(key, m, rows, width)
    ensures Shaped(AddBlock(blocks, key, m, tol), rows, width)
  {
  }

  /** Adding, for every parent block, its product with the relative Jacobian, in key order. */
  function ChainRule(blocks: Blocks, relative: Matrix, parent: Blocks, tol: real, width: map<Key, nat>): (r: Blocks)
    requires Shaped(blocks, relative.rows, width) && Shaped(parent, relative.cols, width)
    ensures Shaped(r, relative.rows, width)
    decreases |parent|
  {
    if parent == map[] then blocks
    else
      var k := MinKey(parent.Keys);
      assert |parent - {k}| < |parent|;
      AddBlockShaped(blocks, k, Multiply(relative, parent[k]), tol, relative.rows, width);
      assert Shaped(parent - {k}, relative.cols, width);
      ChainRule(AddBlock(blocks, k, Multiply(relative, parent[k]), tol), relative, parent - {k}, tol, width)
  }

  /** The chain rule introduces no variable that neither operand mentions. */
  lemma {:induction false} ChainRuleKeys(blocks: Blocks, relative: Matrix, parent: Blocks, tol: real,
                                         width: map<Key, nat>)
    requires Shaped(blocks, relative.rows, width) && Shaped(parent, relative.cols, width)
    ensures ChainRule(blocks, relative, parent, tol, width).Keys <= blocks.Keys + parent.Keys
    decreases |parent|
  {
    if parent != map[] {
      var k := MinKey(parent.Keys);
      assert |parent - {k}| < |parent|;
      AddBlockShaped(blocks, k, Multiply(relative, parent[k]), tol, relative.rows, width);
      ChainRuleKeys(AddBlock(blocks, k, Multiply(relative, parent[k]), tol), relative, parent - {k}, tol, width);
    }
  }

  class MultiJacobian {
    var blocks: Blocks

    constructor ()
      ensures blocks == map[]
    {
      blocks := map[];
    }

    /** Adds a block in place; afterwards a present block is not zero up to the tolerance. */
    method AddJacobian(key: Key, m: Matrix, tol: real)
      requires key in blocks ==> blocks[key].rows == m.rows && blocks[key].cols == m.cols
      modifies this
      ensures blocks == AddBlock(old(blocks), key, m, tol)
      ensures key in blocks ==> !IsZero(blocks[key], tol)
    {
      if key !in blocks {
        if !IsZero(m, tol) {
          blocks := blocks[key := m];
        }
      } else {
        blocks := blocks[key := MatrixPlus(blocks[key], m)];
        if IsZero(blocks[key], tol) {
          blocks := blocks - {key};
        }
      }
      assert old(blocks)[key := m] - {key} == old(blocks) - {key};
    }

    method AddJacobianChainRule(relative: Matrix, parent: Blocks, tol: real, ghost width: map<Key, nat>)
      requires Shaped(blocks, relative.rows, width) && Shaped(parent, relative.cols, width)
      modifies this
      ensures blocks == ChainRule(old(blocks), relative, parent, tol, width)
      ensures Shaped(blocks, relative.rows, width)
    {
      var todo := parent;
      while todo != map[]
        invariant Shaped(blocks, relative.rows, width) && Shaped(todo, relative.cols, width)
        invariant ChainRule(blocks, relative, todo, tol, width) == ChainRule(old(blocks), relative, parent, tol, width)
        decreases |todo|
      {
        var k := MinKey(todo.Keys);
        var product := Multiply(relative, todo[k]);
        AddBlockShaped(blocks, k, product, tol, relative.rows, width);
        AddJacobian(k, product, tol);
        assert |todo - {k}| < |todo|;
        todo := todo - {k};
      }
    }
  }

  // ---------------------------------------------------------------------------------------
  // What a sparse Jacobian does to a step, without pruning error

  ghost predicate Covers(xi: map<Key, Vector>, width: map<Key, nat>, blocks: Blocks) {
    forall k :: k in blocks ==> k in xi && k in width && |xi[k]| == width[k]
  }

  ghost function Products(blocks: Blocks, rows: nat, width: map<Key, nat>, xi: map<Key, Vector>): (t: map<Key, Vector>)
    requires Shaped(blocks, rows, width) && Covers(xi, width, blocks)
    ensures Uniform(t, rows)
  {
    map k | k in blocks :: Apply(blocks[k], xi[k])
  }

  /** The variable's step when the others step by `xi`. */
  ghost function Act(blocks: Blocks, rows: nat, width: map<Key, nat>, xi: map<Key, Vector>): (v: Vector)
    requires Shaped(blocks, rows, width) && Covers(xi, width, blocks)
    ensures |v| == rows
  {
    Sum(Products(blocks, rows, width, xi), rows)
  }

  lemma ActSplit(blocks: Blocks, rows: nat, width: map<Key, nat>, xi: map<Key, Vector>, k: Key)
    requires Shaped(blocks, rows, width) && Covers(xi, width, blocks) && k in blocks
    ensures Shaped(blocks - {k}, rows, width) && Covers(xi, width, blocks - {k})
    ensures Act(blocks, rows, width, xi) == Plus(Apply(blocks[k], xi[k]), Act(blocks - {k}, rows, width, xi))
  {
    var t := Products(blocks, rows, width, xi);
    SumSplit(t, rows, k);
    assert t - {k} == Products(blocks - {k}, rows, width, xi);
  }

  lemma ActAdd(blocks: Blocks, rows: nat, width: map<Key, nat>, xi: map<Key, Vector>, k: Key, m: Matrix)
    requires Shaped(blocks, rows, width) && Covers(xi, width, blocks) && k !in blocks
    requires BlockFits(k, m, rows, width) && k in xi && |xi[k]| == width[k]
    ensures Shaped(blocks[k := m], rows, width) && Covers(xi, width, blocks[k := m])
    ensures Act(blocks[k := m], rows, width, xi) == Plus(Apply(m, xi[k]), Act(blocks, rows, width, xi))
  {
    assert blocks[k := m] - {k} == blocks;
    ActSplit(blocks[k := m], rows, width, xi, k);
  }

  /** With tolerance zero, adding a block adds its action, pruned or not. */
  lemma AddBlockActs(blocks: Blocks, rows: nat, width: map<Key, nat>, xi: map<Key, Vector>, k: Key, m: Matrix)
    requires Shaped(blocks, rows, width) && Covers(xi, width, blocks)
    requires BlockFits(k, m, rows, width) && k in xi && |xi[k]| == width[k]
    ensures Shaped(AddBlock(blocks, k, m, 0.0), rows, width) && Covers(xi, width, AddBlock(blocks, k, m, 0.0))
    ensures Act(AddBlock(blocks, k, m, 0.0), rows, width, xi) == Plus(Apply(m, xi[k]), Act(blocks, rows, width, xi))
  {
    if k !in blocks {
      if IsZero(m, 0.0) {
        ApplyIsZero(m, xi[k]);
        PlusZero(Act(blocks, rows, width, xi));
      } else {
        ActAdd(blocks, rows, width, xi, k, m);
      }
    } else {
      AddToPresentBlockActs(blocks, rows, width, xi, k, m);
    }
  }

  lemma AddToPresentBlockActs(blocks: Blocks, rows: nat, width: map<Key, nat>, xi: map<Key, Vector>, k: Key, m: Matrix)
    requires Shaped(blocks, rows, width) && Covers(xi, width, blocks) && k in blocks
    requires BlockFits(k, m, rows, width) && |xi[k]| == width[k]
    ensures Shaped(AddBlock(blocks, k, m, 0.0), rows, width) && Covers(xi, width, AddBlock(blocks, k, m, 0.0))
    ensures Act(AddBlock(blocks, k, m, 0.0), rows, width, xi) == Plus(Apply(m, xi[k]), Act(blocks, rows, width, xi))
  {
    var sum, rest := MatrixPlus(blocks[k], m), blocks - {k};
    ActSplit(blocks, rows, width, xi, k);
    ApplyMatrixPlus(blocks[k], m, xi[k]);
    var a, b, c := Apply(blocks[k], xi[k]), Apply(m, xi[k]), Act(rest, rows, width, xi);
    PlusRotate(b, a, c);
    PlusAssociative(a, b, c);
    if IsZero(sum, 0.0) {
      ApplyIsZero(sum, xi[k]);
      PlusZero(c);
    } else {
      ActAdd(rest, rows, width, xi, k, sum);
      assert rest[k := sum] == blocks[k := sum];
    }
  }

  /** With tolerance zero, the chain rule adds the relative Jacobian applied to the parent's step. */
  lemma {:induction false} ChainRuleActs(blocks: Blocks, relative: Matrix, parent: Blocks, width: map<Key, nat>,
                                         xi: map<Key, Vector>)
    requires Shaped(blocks, relative.rows, width) && Shaped(parent, relative.cols, width)
    requires Covers(xi, width, blocks) && Covers(xi, width, parent)
    ensures Covers(xi, width, ChainRule(blocks, relative, parent, 0.0, width))
    ensures Act(ChainRule(blocks, relative, parent, 0.0, width), relative.rows, width, xi)
         == Plus(Apply(relative, Act(parent, relative.cols, width, xi)), Act(blocks, relative.rows, width, xi))
    decreases |parent|
  {
    if parent == map[] {
      ApplyToZero(relative);
      PlusZero(Act(blocks, relative.rows, width, xi));
    } else {
      var k := MinKey(parent.Keys);
      var rest, product := parent - {k}, Multiply(relative, parent[k]);
      assert |rest| < |parent|;
      AddBlockActs(blocks, relative.rows, width, xi, k, product);
      ChainRuleActs(AddBlock(blocks, k, product, 0.0), relative, rest, width, xi);
      ActSplit(parent, relative.cols, width, xi, k);
      ApplyMultiply(relative, parent[k], xi[k]);
      var p, q := Apply(parent[k], xi[k]), Act(rest, relative.cols, width, xi);
      ApplyPlus(relative, p, q);
      RegroupStep(Apply(relative, q), Apply(relative, p), Act(blocks, relative.rows, width, xi));
    }
  }

  lemma RegroupStep(q: Vector, p: Vector, b: Vector)
    requires |q| == |p| == |b|
    ensures Plus(q, Plus(p, b)) == Plus(Plus(p, q), b)
  {
  }

  // ---------------------------------------------------------------------------------------
  // How far pruning can drift

  /** An entry of the stored Jacobian; an absent block counts as zero. */
  function Entry(blocks: Blocks, key: Key, i: nat, j: nat): real {
    if key in blocks && i < blocks[key].rows && j < blocks[key].cols then blocks[key].row[i][j] else 0.0
  }

  datatype Addition = Addition(key: Key, block: Matrix)

  /** A sequence of additions, performed one after the other. */
  function AddMany(calls: seq<Addition>, rows: nat, width: map<Key, nat>, tol: real): (r: Blocks)
    requires forall n :: 0 <= n < |calls| ==> BlockFits(calls[n].key, calls[n].block, rows, width)
    ensures Shaped(r, rows, width)
  {
    if calls == [] then map[]
    else
      var last := calls[|calls| - 1];
      assert BlockFits(calls[|calls| - 1].key, calls[|calls| - 1].block, rows, width);
      AddBlockShaped(AddMany(calls[..|calls| - 1], rows, width, tol), last.key, last.block, tol, rows, width);
      AddBlock(AddMany(calls[..|calls| - 1], rows, width, tol), last.key, last.block, tol)
  }

  function CallsOn(calls: seq<Addition>, key: Key): nat {
    if calls == [] then 0
    else CallsOn(calls[..|calls| - 1], key) + (if calls[|calls| - 1].key == key then 1 else 0)
  }

  /** The entry of the exact, unpruned sum. */
  function ExactEntry(calls: seq<Addition>, key: Key, i: nat, j: nat): real {
    if calls == [] then 0.0
    else
      var last := calls[|calls| - 1];
      ExactEntry(calls[..|calls| - 1], key, i, j) +
      (if last.key == key && i < last.block.rows && j < last.block.cols then last.block.row[i][j] else 0.0)
  }

  /** One addition moves the stored entry by the added entry, up to the tolerance. */
  lemma OneAdditionDrift(blocks: Blocks, rows: nat, width: map<Key, nat>, k: Key, m: Matrix, tol: real, key: Key,
                         i: nat, j: nat)
    requires Shaped(blocks, rows, width) && BlockFits(k, m, rows, width) && tol >= 0.0
    requires key in width && i < rows && j < width[key]
    ensures var after := Entry(AddBlock(blocks, k, m, tol), key, i, j);
      if k == key then WithinOf(after, Entry(blocks, key, i, j) + m.row[i][j], tol)
      else after == Entry(blocks, key, i, j)
  {
    if k == key {
      var sum := if k in blocks then MatrixPlus(blocks[k], m) else m;
      assert sum.row[i][j] == Entry(blocks, key, i, j) + m.row[i][j];
      if IsZero(sum, tol) {
        assert VectorWithin(sum.row[i], tol);
      }
    }
  }

  function Repeated(n: nat, tol: real): real {
    if n == 0 then 0.0 else Repeated(n - 1, tol) + tol
  }

  function TimesTolerance(n: nat, tol: real): real {
    n as real * tol
  }

  lemma {:induction false} RepeatedIsProduct(n: nat, tol: real)
    ensures Repeated(n, tol) == TimesTolerance(n, tol)
  {
    if n > 0 {
      RepeatedIsProduct(n - 1, tol);
      assert n as real * tol == (n - 1) as real * tol + tol;
    }
  }

  lemma {:induction false} DriftAccumulates(calls: seq<Addition>, rows: nat, width: map<Key, nat>, tol: real, key: Key,
                                            i: nat, j: nat)
    requires forall n :: 0 <= n < |calls| ==> BlockFits(calls[n].key, calls[n].block, rows, width)
    requires tol >= 0.0 && key in width && i < rows && j < width[key]
    ensures WithinOf(Entry(AddMany(calls, rows, width, tol), key, i, j), ExactEntry(calls, key, i, j),
                     Repeated(CallsOn(calls, key), tol))
  {
    if calls != [] {
      var before, last := calls[..|calls| - 1], calls[|calls| - 1];
      DriftAccumulates(before, rows, width, tol, key, i, j);
      assert BlockFits(calls[|calls| - 1].key, calls[|calls| - 1].block, rows, width);
      OneAdditionDrift(AddMany(before, rows, width, tol), rows, width, last.key, last.block, tol, key, i, j);
    }
  }

  /**
   * After any sequence of additions, the stored block differs from the exact sum, in every entry,
   * by at most the number of additions to that block times the tolerance.
   */
  lemma PruningDrift(calls: seq<Addition>, rows: nat, width: map<Key, nat>, tol: real, key: Key, i: nat, j: nat)
    requires forall n :: 0 <= n < |calls| ==> BlockFits(calls[n].key, calls[n].block, rows, width)
    requires tol >= 0.0 && key in width && i < rows && j < width[key]
    ensures WithinOf(Entry(AddMany(calls, rows, width, tol), key, i, j), ExactEntry(calls, key, i, j),
                     TimesTolerance(CallsOn(calls, key), tol))
  {
    DriftAccumulates(calls, rows, width, tol, key, i, j);
    RepeatedIsProduct(CallsOn(calls, key), tol);
  }

  /** Without a tolerance nothing is lost. */
  lemma NoToleranceNoDrift(calls: seq<Addition>, rows: nat, width: map<Key, nat>, key: Key, i: nat, j: nat)
    requires forall n :: 0 <= n < |calls| ==> BlockFits(calls[n].key, calls[n].block, rows, width)
    requires key in width && i < rows && j < width[key]
    ensures Entry(AddMany(calls, rows, width, 0.0), key, i, j) == ExactEntry(calls, key, i, j)
  {
    PruningDrift(calls, rows, width, 0.0, key, i, j);
    assert CallsOn(calls, key) as real * 0.0 == 0.0;
  }

  function AbsSum(a: Vector): real {
    if a == [] then 0.0 else AbsReal(a[0]) + AbsSum(a[1..])
  }

  /** The entry of a column of a block, as a vector; zero for an absent block. */
  function Column(blocks: Blocks, key: Key, rows: nat, j: nat): (c: Vector)
    ensures |c| == rows
  {
    seq(rows, i requires 0 <= i < rows => Entry(blocks, key, i, j))
  }

  function Total(v: Vector): real {
    if v == [] then 0.0 else v[0] + Total(v[1..])
  }

  function Times(a: Vector, x: Vector): (t: Vector)
    requires |a| == |x|
    ensures |t| == |a|
  {
    seq(|a|, i requires 0 <= i < |a| => a[i] * x[i])
  }

  lemma TimesTail(a: Vector, x: Vector)
    requires |a| == |x| && a != []
    ensures Times(a, x)[1..] == Times(a[1..], x[1..])
  {
    forall i | 0 <= i < |a| - 1 ensures Times(a, x)[1..][i] == Times(a[1..], x[1..])[i] {
      assert a[1..][i] == a[i + 1] && x[1..][i] == x[i + 1];
      assert Times(a, x)[1..][i] == Times(a, x)[i + 1];
    }
  }

  lemma BoundsTail(a: Vector, e: real)
    requires a != []
    ensures Bounds(a, e)[1..] == Bounds(a[1..], e)
  {
    forall i | 0 <= i < |a| - 1 ensures Bounds(a, e)[1..][i] == Bounds(a[1..], e)[i] {
      assert a[1..][i] == a[i + 1];
      assert Bounds(a, e)[1..][i] == Bounds(a, e)[i + 1];
    }
  }

  lemma {:induction false} DotIsTotal(a: Vector, x: Vector)
    requires |a| == |x|
    ensures Dot(a, x) == Total(Times(a, x))
  {
    if a != [] {
      DotIsTotal(a[1..], x[1..]);
      TimesTail(a, x);
    }
  }

  /** The magnitudes of the entries, each times `e`. */
  function Bounds(a: Vector, e: real): (b: Vector)
    ensures |b| == |a|
  {
    seq(|a|, i requires 0 <= i < |a| => AbsReal(a[i]) * e)
  }

  lemma {:induction false} BoundsAddUp(a: Vector, e: real)
    ensures Total(Bounds(a, e)) == RowBound(a, e)
  {
    if a == [] {
      assert AbsSum(a) * e == 0.0;
    } else {
      BoundsAddUp(a[1..], e);
      BoundsTail(a, e);
      Distribute(AbsReal(a[0]), AbsSum(a[1..]), e);
    }
  }

  lemma Distribute(a: real, b: real, e: real)
    ensures (a + b) * e == a * e + b * e
  {
  }

  lemma {:induction false} TotalDrift(p: Vector, q: Vector, b: Vector)
    requires |p| == |q| == |b| && forall i :: 0 <= i < |p| ==> WithinOf(p[i], q[i], b[i])
    ensures WithinOf(Total(p), Total(q), Total(b))
  {
    if p != [] {
      TotalDrift(p[1..], q[1..], b[1..]);
    }
  }

  ghost predicate WithinOf(x: real, y: real, e: real) {
    AbsReal(x - y) <= e
  }

  /** The bound on what a parent's drift does to a row of a product. */
  function RowBound(a: Vector, e: real): real {
    AbsSum(a) * e
  }

  lemma DotDrift(a: Vector, x: Vector, y: Vector, e: real)
    requires |a| == |x| == |y| && forall i :: 0 <= i < |x| ==> WithinOf(x[i], y[i], e)
    ensures WithinOf(Dot(a, x), Dot(a, y), RowBound(a, e))
  {
    DotIsTotal(a, x);
    DotIsTotal(a, y);
    BoundsAddUp(a, e);
    TimesDrift(a, x, y, e);
    TotalDrift(Times(a, x), Times(a, y), Bounds(a, e));
  }

  lemma TimesDrift(a: Vector, x: Vector, y: Vector, e: real)
    requires |a| == |x| == |y| && forall i :: 0 <= i < |x| ==> WithinOf(x[i], y[i], e)
    ensures forall i :: 0 <= i < |a| ==> WithinOf(Times(a, x)[i], Times(a, y)[i], Bounds(a, e)[i])
  {
    forall i | 0 <= i < |a| ensures WithinOf(Times(a, x)[i], Times(a, y)[i], Bounds(a, e)[i]) {
      ProductDrift(a[i], x[i], y[i], e);
    }
  }

  lemma ProductDrift(a: real, x: real, y: real, e: real)
    requires AbsReal(x - y) <= e
    ensures AbsReal(a * x - a * y) <= AbsReal(a) * e
  {
    assert a * x - a * y == a * (x - y);
    AbsProduct(a, x - y);
    assert AbsReal(a) * AbsReal(x - y) <= AbsReal(a) * e;
  }

  lemma AbsProduct(a: real, b: real)
    ensures AbsReal(a * b) == AbsReal(a) * AbsReal(b)
  {
    if a < 0.0 {
      assert -(a * b) == (-a) * b;
    }
    if b < 0.0 {
      assert -(a * b) == a * (-b);
      assert a * b == (-a) * (-b);
    }
    assert AbsReal(a) * AbsReal(b) >= 0.0;
  }

  /** The entry of a product is the row of the left factor times the column of the right one. */
  lemma {:induction false} CombineEntry(a: Vector, rows: seq<Vector>, n: nat, j: nat, column: Vector)
    requires |a| == |rows| == |column| && j < n
    requires forall i :: 0 <= i < |rows| ==> |rows[i]| == n && rows[i][j] == column[i]
    ensures Combine(a, rows, n)[j] == Dot(a, column)
  {
    if a != [] {
      CombineEntry(a[1..], rows[1..], n, j, column[1..]);
    }
  }

  /** Every entry of the parent's column is within `e` of its exact value. */
  ghost predicate ColumnWithin(parent: Blocks, key: Key, j: nat, exact: Vector, e: real) {
    forall l :: 0 <= l < |exact| ==> WithinOf(Entry(parent, key, l, j), exact[l], e)
  }

  /**
   * The drift through the chain rule: when the accumulated entry is within `d` of its exact value
   * and every entry of the parent's column is within `e`, the new entry is within `d`, plus the
   * absolute row sum of the relative Jacobian times `e`, plus one tolerance.
   */
  lemma ChainRuleDrift(blocks: Blocks, relative: Matrix, parent: Blocks, tol: real, width: map<Key, nat>,
                       key: Key, i: nat, j: nat, exactSoFar: real, exactParent: Vector, d: real, e: real)
    requires Shaped(blocks, relative.rows, width) && Shaped(parent, relative.cols, width)
    requires key in width && i < relative.rows && j < width[key] && tol >= 0.0
    requires |exactParent| == relative.cols
    requires AbsReal(Entry(blocks, key, i, j) - exactSoFar) <= d
    requires ColumnWithin(parent, key, j, exactParent, e)
    ensures WithinOf(Entry(ChainRule(blocks, relative, parent, tol, width), key, i, j),
                     exactSoFar + Dot(relative.row[i], exactParent), d + RowBound(relative.row[i], e) + tol)
  {
    ContributionDrift(relative, parent, width, key, i, j, exactParent, e);
    EntryDrift(blocks, relative, parent, tol, width, key, i, j, exactSoFar, Dot(relative.row[i], exactParent), d,
               RowBound(relative.row[i], e));
  }

  lemma EntryDrift(blocks: Blocks, relative: Matrix, parent: Blocks, tol: real, width: map<Key, nat>,
                   key: Key, i: nat, j: nat, exactSoFar: real, exactAdded: real, d: real, f: real)
    requires Shaped(blocks, relative.rows, width) && Shaped(parent, relative.cols, width)
    requires key in width && i < relative.rows && j < width[key] && tol >= 0.0
    requires AbsReal(Entry(blocks, key, i, j) - exactSoFar) <= d
    requires WithinOf(Contribution(relative, parent, key, i, j), exactAdded, f)
    ensures WithinOf(Entry(ChainRule(blocks, relative, parent, tol, width), key, i, j), exactSoFar + exactAdded,
                     d + f + tol)
  {
    ChainRuleEntry(blocks, relative, parent, tol, width, key, i, j);
  }

  /** What the chain rule adds to an entry: nothing, when the parent has no such block. */
  function Contribution(relative: Matrix, parent: Blocks, key: Key, i: nat, j: nat): real
    requires i < relative.rows && (key in parent ==> parent[key].rows == relative.cols)
  {
    if key in parent && j < parent[key].cols then Multiply(relative, parent[key]).row[i][j] else 0.0
  }

  lemma ContributionDrift(relative: Matrix, parent: Blocks, width: map<Key, nat>, key: Key, i: nat, j: nat,
                          exactParent: Vector, e: real)
    requires Shaped(parent, relative.cols, width) && key in width && i < relative.rows && j < width[key]
    requires |exactParent| == relative.cols
    requires ColumnWithin(parent, key, j, exactParent, e)
    ensures WithinOf(Contribution(relative, parent, key, i, j), Dot(relative.row[i], exactParent),
                     RowBound(relative.row[i], e))
  {
    ContributionIsDot(relative, parent, width, key, i, j);
    DotDrift(relative.row[i], Column(parent, key, relative.cols, j), exactParent, e);
  }

  lemma ContributionIsDot(relative: Matrix, parent: Blocks, width: map<Key, nat>, key: Key, i: nat, j: nat)
    requires Shaped(parent, relative.cols, width) && key in width && i < relative.rows && j < width[key]
    ensures Contribution(relative, parent, key, i, j) == Dot(relative.row[i], Column(parent, key, relative.cols, j))
  {
    var column := Column(parent, key, relative.cols, j);
    if key in parent {
      CombineEntry(relative.row[i], parent[key].row, width[key], j, column);
    } else {
      assert column == Zero(relative.cols);
      DotZeroRight(relative.row[i]);
    }
  }

  /** The chain rule moves an entry by its contribution, up to one tolerance. */
  lemma {:induction false} ChainRuleEntry(blocks: Blocks, relative: Matrix, parent: Blocks, tol: real,
                                          width: map<Key, nat>, key: Key, i: nat, j: nat)
    requires Shaped(blocks, relative.rows, width) && Shaped(parent, relative.cols, width)
    requires key in width && i < relative.rows && j < width[key] && tol >= 0.0
    ensures WithinOf(Entry(ChainRule(blocks, relative, parent, tol, width), key, i, j),
                     Entry(blocks, key, i, j) + Contribution(relative, parent, key, i, j),
                     if key in parent then tol else 0.0)
    decreases |parent|
  {
    if parent != map[] {
      var k := MinKey(parent.Keys);
      var rest, product := parent - {k}, Multiply(relative, parent[k]);
      assert |rest| < |parent|;
      AddBlockShaped(blocks, k, product, tol, relative.rows, width);
      OneAdditionDrift(blocks, relative.rows, width, k, product, tol, key, i, j);
      ChainRuleEntry(AddBlock(blocks, k, product, tol), relative, rest, tol, width, key, i, j);
    }
  }
}

/** Vectors and matrices over exact reals, and the laws the Jacobian code relies on. */
module LinearAlgebra {
  import opened Prelude

  type Vector = seq<real>

  function Zero(n: nat): (z: Vector)
    ensures |z| == n
  {
    seq(n, _ => 0.0)
  }

  function Plus(a: Vector, b: Vector): (c: Vector)
    requires |a| == |b|
    ensures |c| == |a|
  {
    seq(|a|, i requires 0 <= i < |a| => a[i] + b[i])
  }

  function Scale(c: real, a: Vector): (b: Vector)
    ensures |b| == |a|
  {
    seq(|a|, i requires 0 <= i < |a| => c * a[i])
  }

  function Negate(a: Vector): (b: Vector)
    ensures |b| == |a|
  {
    seq(|a|, i requires 0 <= i < |a| => -a[i])
  }

  function Dot(a: Vector, b: Vector): real
    requires |a| == |b|
  {
    if a == [] then 0.0 else a[0] * b[0] + Dot(a[1..], b[1..])
  }

  datatype RawMatrix = Matrix(rows: nat, cols: nat, row: seq<Vector>) {
    predicate Valid() {
      |row| == rows && forall i :: 0 <= i < rows ==> |row[i]| == cols
    }
  }

  type Matrix = m: RawMatrix | m.Valid() witness Matrix(0, 0, [])

  function Apply(m: Matrix, x: Vector): (y: Vector)
    requires |x| == m.cols
    ensures |y| == m.rows
  {
    seq(m.rows, i requires 0 <= i < m.rows => Dot(m.row[i], x))
  }

  function ZeroMatrix(r: nat, c: nat): (m: Matrix)
    ensures m.rows == r && m.cols == c
  {
    Matrix(r, c, seq(r, _ => Zero(c)))
  }

  function UnitVector(n: nat, i: nat): (e: Vector)
    ensures |e| == n
  {
    seq(n, j => if i == j then 1.0 else 0.0)
  }

  function Identity(n: nat): (m: Matrix)
    ensures m.rows == n && m.cols == n
  {
    Matrix(n, n, seq(n, i requires 0 <= i < n => UnitVector(n, i)))
  }

  function MatrixPlus(a: Matrix, b: Matrix): (c: Matrix)
    requires a.rows == b.rows && a.cols == b.cols
    ensures c.rows == a.rows && c.cols == a.cols
  {
    Matrix(a.rows, a.cols, seq(a.rows, i requires 0 <= i < a.rows => Plus(a.row[i], b.row[i])))
  }

  /** The linear combination of `rows` with coefficients `a`. */
  function Combine(a: Vector, rows: seq<Vector>, n: nat): (r: Vector)
    requires |a| == |rows| && forall i :: 0 <= i < |rows| ==> |rows[i]| == n
    ensures |r| == n
  {
    if a == [] then Zero(n) else Plus(Scale(a[0], rows[0]), Combine(a[1..], rows[1..], n))
  }

  /** The product: each row combines the rows of the right factor. */
  function Multiply(a: Matrix, b: Matrix): (c: Matrix)
    requires a.cols == b.rows
    ensures c.rows == a.rows && c.cols == b.cols
  {
    Matrix(a.rows, b.cols, seq(a.rows, i requires 0 <= i < a.rows => Combine(a.row[i], b.row, b.cols)))
  }

  function Block(m: Matrix, r0: nat, c0: nat, r: nat, c: nat): (b: Matrix)
    requires r0 + r <= m.rows && c0 + c <= m.cols
    ensures b.rows == r && b.cols == c
  {
    Matrix(r, c, seq(r, i requires 0 <= i < r => m.row[r0 + i][c0..c0 + c]))
  }

  function AbsReal(x: real): (y: real)
    ensures y >= 0.0 && (y == x || y == -x)
  {
    if x < 0.0 then -x else x
  }

  /** Every entry is at most `tol` in magnitude. */
  predicate VectorWithin(v: Vector, tol: real) {
    forall i :: 0 <= i < |v| ==> AbsReal(v[i]) <= tol
  }

  predicate IsZero(m: Matrix, tol: real) {
    forall i :: 0 <= i < m.rows ==> VectorWithin(m.row[i], tol)
  }

  // ---------------------------------------------------------------------------------------
  // Linearity

  lemma {:induction false} DotPlusRight(a: Vector, x: Vector, y: Vector)
    requires |a| == |x| == |y|
    ensures Dot(a, Plus(x, y)) == Dot(a, x) + Dot(a, y)
  {
    if a != [] {
      assert Plus(x, y)[1..] == Plus(x[1..], y[1..]);
      DotPlusRight(a[1..], x[1..], y[1..]);
      assert a[0] * (x[0] + y[0]) == a[0] * x[0] + a[0] * y[0];
    }
  }

  lemma {:induction false} DotSymmetric(a: Vector, b: Vector)
    requires |a| == |b|
    ensures Dot(a, b) == Dot(b, a)
  {
    if a != [] {
      DotSymmetric(a[1..], b[1..]);
      assert a[0] * b[0] == b[0] * a[0];
    }
  }

  lemma DotPlusLeft(a: Vector, b: Vector, x: Vector)
    requires |a| == |b| == |x|
    ensures Dot(Plus(a, b), x) == Dot(a, x) + Dot(b, x)
  {
    DotSymmetric(Plus(a, b), x);
    DotSymmetric(a, x);
    DotSymmetric(b, x);
    DotPlusRight(x, a, b);
  }

  lemma {:induction false} DotScaleLeft(c: real, a: Vector, x: Vector)
    requires |a| == |x|
    ensures Dot(Scale(c, a), x) == c * Dot(a, x)
  {
    if a != [] {
      ScaleTail(c, a);
      DotScaleLeft(c, a[1..], x[1..]);
      DistributeScale(c, a[0], x[0], Dot(a[1..], x[1..]));
    }
  }

  lemma {:induction false} DotScaleRight(c: real, x: Vector, a: Vector)
    requires |a| == |x|
    ensures Dot(x, Scale(c, a)) == c * Dot(x, a)
  {
    if a != [] {
      ScaleTail(c, a);
      DotScaleRight(c, x[1..], a[1..]);
      DistributeScaleRight(c, x[0], a[0], Dot(x[1..], a[1..]));
    }
  }

  lemma DistributeScaleRight(c: real, x: real, a: real, d: real)
    ensures x * (c * a) + c * d == c * (x * a + d)
  {
  }

  lemma ScaleTail(c: real, a: Vector)
    requires a != []
    ensures Scale(c, a)[1..] == Scale(c, a[1..])
  {
    forall i | 0 <= i < |a| - 1 ensures Scale(c, a)[1..][i] == Scale(c, a[1..])[i] {
      assert a[1..][i] == a[i + 1];
      assert Scale(c, a)[1..][i] == Scale(c, a)[i + 1];
    }
  }

  lemma DistributeScale(c: real, a: real, x: real, d: real)
    ensures (c * a) * x + c * d == c * (a * x + d)
  {
  }

  lemma {:induction false} DotZeroLeft(n: nat, x: Vector)
    requires |x| == n
    ensures Dot(Zero(n), x) == 0.0
  {
    if n > 0 {
      assert Zero(n)[1..] == Zero(n - 1);
      DotZeroLeft(n - 1, x[1..]);
    }
  }

  lemma {:induction false} DotConcat(a: Vector, b: Vector, x: Vector, y: Vector)
    requires |a| == |x| && |b| == |y|
    ensures Dot(a + b, x + y) == Dot(a, x) + Dot(b, y)
  {
    if a == [] {
      assert a + b == b && x + y == y;
    } else {
      assert (a + b)[1..] == a[1..] + b && (x + y)[1..] == x[1..] + y;
      DotConcat(a[1..], b, x[1..], y);
    }
  }

  lemma {:induction false} DotUnit(n: nat, i: nat, x: Vector)
    requires i < n == |x|
    ensures Dot(UnitVector(n, i), x) == x[i]
  {
    var e := UnitVector(n, i);
    if i == 0 {
      assert e[1..] == Zero(n - 1);
      DotZeroLeft(n - 1, x[1..]);
    } else {
      assert e[1..] == UnitVector(n - 1, i - 1);
      DotUnit(n - 1, i - 1, x[1..]);
    }
  }

  lemma DotPlusScale(c: real, r: Vector, rest: Vector, x: Vector)
    requires |r| == |rest| == |x|
    ensures Dot(Plus(Scale(c, r), rest), x) == c * Dot(r, x) + Dot(rest, x)
  {
    DotPlusLeft(Scale(c, r), rest, x);
    DotScaleLeft(c, r, x);
  }

  /** The dot products of some rows with `x`. */
  function RowDots(rows: seq<Vector>, x: Vector): (y: Vector)
    requires forall i :: 0 <= i < |rows| ==> |rows[i]| == |x|
    ensures |y| == |rows|
  {
    if rows == [] then [] else [Dot(rows[0], x)] + RowDots(rows[1..], x)
  }

  lemma {:induction false} RowDotsAt(rows: seq<Vector>, x: Vector, i: nat)
    requires i < |rows| && forall i :: 0 <= i < |rows| ==> |rows[i]| == |x|
    ensures RowDots(rows, x)[i] == Dot(rows[i], x)
  {
    if i > 0 {
      RowDotsAt(rows[1..], x, i - 1);
    }
  }

  lemma {:induction false} DotCombine(a: Vector, rows: seq<Vector>, x: Vector)
    requires |a| == |rows| && forall i :: 0 <= i < |rows| ==> |rows[i]| == |x|
    ensures Dot(Combine(a, rows, |x|), x) == Dot(a, RowDots(rows, x))
  {
    if a == [] {
      DotZeroLeft(|x|, x);
    } else {
      DotCombine(a[1..], rows[1..], x);
      DotPlusScale(a[0], rows[0], Combine(a[1..], rows[1..], |x|), x);
      assert RowDots(rows, x)[1..] == RowDots(rows[1..], x);
    }
  }

  lemma ApplyPlus(m: Matrix, x: Vector, y: Vector)
    requires |x| == |y| == m.cols
    ensures Apply(m, Plus(x, y)) == Plus(Apply(m, x), Apply(m, y))
  {
    forall i | 0 <= i < m.rows ensures Apply(m, Plus(x, y))[i] == Plus(Apply(m, x), Apply(m, y))[i] {
      DotPlusRight(m.row[i], x, y);
    }
  }

  lemma ApplyMatrixPlus(a: Matrix, b: Matrix, x: Vector)
    requires a.rows == b.rows && a.cols == b.cols == |x|
    ensures Apply(MatrixPlus(a, b), x) == Plus(Apply(a, x), Apply(b, x))
  {
    forall i | 0 <= i < a.rows ensures Apply(MatrixPlus(a, b), x)[i] == Plus(Apply(a, x), Apply(b, x))[i] {
      DotPlusLeft(a.row[i], b.row[i], x);
    }
  }

  /** Applying a product is applying its factors in turn. */
  lemma ApplyMultiply(a: Matrix, b: Matrix, x: Vector)
    requires a.cols == b.rows && b.cols == |x|
    ensures Apply(Multiply(a, b), x) == Apply(a, Apply(b, x))
  {
    forall i | 0 <= i < b.rows ensures RowDots(b.row, x)[i] == Apply(b, x)[i] {
      RowDotsAt(b.row, x, i);
    }
    assert RowDots(b.row, x) == Apply(b, x);
    forall i | 0 <= i < a.rows ensures Apply(Multiply(a, b), x)[i] == Apply(a, Apply(b, x))[i] {
      DotCombine(a.row[i], b.row, x);
    }
  }

  lemma ApplyZeroMatrix(r: nat, c: nat, x: Vector)
    requires |x| == c
    ensures Apply(ZeroMatrix(r, c), x) == Zero(r)
  {
    DotZeroLeft(c, x);
  }

  lemma ApplyIdentity(n: nat, x: Vector)
    requires |x| == n
    ensures Apply(Identity(n), x) == x
  {
    forall i | 0 <= i < n ensures Apply(Identity(n), x)[i] == x[i] {
      DotUnit(n, i, x);
    }
  }

  /** A matrix all of whose entries are zero maps everything to zero. */
  lemma ApplyIsZero(m: Matrix, x: Vector)
    requires |x| == m.cols && IsZero(m, 0.0)
    ensures Apply(m, x) == Zero(m.rows)
  {
    forall i | 0 <= i < m.rows ensures Dot(m.row[i], x) == 0.0 {
      assert VectorWithin(m.row[i], 0.0);
      assert m.row[i] == Zero(m.cols);
      DotZeroLeft(m.cols, x);
    }
  }

  lemma {:induction false} DotZeroRight(a: Vector)
    ensures Dot(a, Zero(|a|)) == 0.0
  {
    DotSymmetric(a, Zero(|a|));
    DotZeroLeft(|a|, a);
  }

  lemma ApplyToZero(m: Matrix)
    ensures Apply(m, Zero(m.cols)) == Zero(m.rows)
  {
    forall i | 0 <= i < m.rows ensures Dot(m.row[i], Zero(m.cols)) == 0.0 {
      DotZeroRight(m.row[i]);
    }
  }

  /** Splitting the columns of a matrix splits its action. */
  lemma ApplySplitColumns(m: Matrix, c: nat, x: Vector, y: Vector)
    requires c <= m.cols && |x| == c && |x| + |y| == m.cols
    ensures Apply(m, x + y) == Plus(Apply(Block(m, 0, 0, m.rows, c), x), Apply(Block(m, 0, c, m.rows, m.cols - c), y))
  {
    forall i | 0 <= i < m.rows
      ensures Dot(m.row[i], x + y) == Dot(m.row[i][0..c], x) + Dot(m.row[i][c..m.cols], y)
    {
      assert m.row[i] == m.row[i][0..c] + m.row[i][c..m.cols];
      DotConcat(m.row[i][0..c], m.row[i][c..m.cols], x, y);
    }
  }

  // ---------------------------------------------------------------------------------------
  // Sums of vectors indexed by keys

  ghost predicate Uniform(terms: map<Key, Vector>, n: nat) {
    forall k :: k in terms ==> |terms[k]| == n
  }

  /** The sum of the vectors of a map, all of dimension `n`. */
  ghost function Sum(terms: map<Key, Vector>, n: nat): (s: Vector)
    requires Uniform(terms, n)
    ensures |s| == n
  {
    if terms == map[] then Zero(n)
    else
      var k := MinKey(terms.Keys);
      Plus(terms[k], Sum(terms - {k}, n))
  }

  lemma PlusRotate(a: Vector, b: Vector, c: Vector)
    requires |a| == |b| == |c|
    ensures Plus(a, Plus(b, c)) == Plus(b, Plus(a, c))
  {
  }

  /** Any term can be split off a sum. */
  lemma {:induction false} SumSplit(terms: map<Key, Vector>, n: nat, k: Key)
    requires Uniform(terms, n) && k in terms
    ensures Uniform(terms - {k}, n)
    ensures Sum(terms, n) == Plus(terms[k], Sum(terms - {k}, n))
    decreases |terms|
  {
    var m := MinKey(terms.Keys);
    if m != k {
      var rest := terms - {m};
      SumSplit(rest, n, k);
      SumSplit(terms - {k}, n, m) by {
        assert m in terms - {k};
        assert |terms - {k}| < |terms|;
      }
      assert rest - {k} == terms - {k} - {m};
      PlusRotate(terms[m], terms[k], Sum(rest - {k}, n));
    }
  }

  lemma SumAdd(terms: map<Key, Vector>, n: nat, k: Key, v: Vector)
    requires Uniform(terms, n) && k !in terms && |v| == n
    ensures Uniform(terms[k := v], n)
    ensures Sum(terms[k := v], n) == Plus(v, Sum(terms, n))
  {
    SumSplit(terms[k := v], n, k);
    assert terms[k := v] - {k} == terms;
  }

  lemma PlusAssociative(a: Vector, b: Vector, c: Vector)
    requires |a| == |b| == |c|
    ensures Plus(Plus(a, b), c) == Plus(a, Plus(b, c))
  {
  }

  lemma PlusZero(a: Vector)
    ensures Plus(a, Zero(|a|)) == a && Plus(Zero(|a|), a) == a
  {
  }

  /** Sums over disjoint key sets add up. */
  lemma {:induction false} SumUnion(a: map<Key, Vector>, b: map<Key, Vector>, n: nat)
    requires Uniform(a, n) && Uniform(b, n) && a.Keys !! b.Keys
    ensures Uniform(a + b, n)
    ensures Sum(a + b, n) == Plus(Sum(a, n), Sum(b, n))
    decreases |a|
  {
    if a == map[] {
      assert a + b == b;
      PlusZero(Sum(b, n));
    } else {
      var k := MinKey(a.Keys);
      var rest := a - {k};
      assert |rest| < |a|;
      SumUnion(rest, b, n);
      SplitUnion(a, b, n, k);
      PlusAssociative(a[k], Sum(rest, n), Sum(b, n));
    }
  }

  lemma SplitUnion(a: map<Key, Vector>, b: map<Key, Vector>, n: nat, k: Key)
    requires Uniform(a, n) && Uniform(b, n) && a.Keys !! b.Keys && k in a
    ensures Uniform(a + b, n) && Uniform(a - {k} + b, n)
    ensures Sum(a + b, n) == Plus(a[k], Sum(a - {k} + b, n))
  {
    SumSplit(a + b, n, k);
    assert (a + b) - {k} == a - {k} + b;
  }

  lemma {:induction false} SumOfZeros(terms: map<Key, Vector>, n: nat)
    requires Uniform(terms, n) && forall k :: k in terms ==> terms[k] == Zero(n)
    ensures Sum(terms, n) == Zero(n)
    decreases |terms|
  {
    if terms != map[] {
      var k := MinKey(terms.Keys);
      SumOfZeros(terms - {k}, n);
      PlusZero(Zero(n));
    }
  }

  lemma SumSingle(k: Key, v: Vector)
    ensures Sum(map[k := v], |v|) == v
  {
    var terms := map[k := v];
    assert terms.Keys == {k};
    assert terms - {k} == map[];
    PlusZero(v);
  }
}

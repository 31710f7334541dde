/** Solving with an upper triangular matrix, row by row from the bottom. */
module Triangular {
  import opened Prelude
  import opened LinearAlgebra

  predicate IsUpper(r: Matrix) {
    && r.rows == r.cols
    && (forall i, j :: 0 <= j < i < r.rows ==> r.row[i][j] == 0.0)
    && (forall i :: 0 <= i < r.rows ==> r.row[i][i] != 0.0)
  }

  /** Rows `i..` of the solution of `r * x == s`. */
  function SolveFrom(r: Matrix, s: Matrix, i: nat): (x: seq<Vector>)
    requires IsUpper(r) && s.rows == r.rows && i <= r.rows
    ensures |x| == r.rows - i && forall j :: 0 <= j < |x| ==> |x[j]| == s.cols
    decreases r.rows - i
  {
    if i == r.rows then []
    else
      var below := SolveFrom(r, s, i + 1);
      var rest := Combine(r.row[i][i + 1..], below, s.cols);
      [Scale(1.0 / r.row[i][i], Plus(s.row[i], Negate(rest)))] + below
  }

  function SolveUpper(r: Matrix, s: Matrix): (x: Matrix)
    requires IsUpper(r) && s.rows == r.rows
    ensures x.rows == s.rows && x.cols == s.cols
  {
    Matrix(s.rows, s.cols, SolveFrom(r, s, 0))
  }

  lemma {:induction false} CombineZeros(a: Vector, rows: seq<Vector>, n: nat)
    requires |a| == |rows| && forall i :: 0 <= i < |rows| ==> |rows[i]| == n
    requires forall i :: 0 <= i < |a| ==> a[i] == 0.0
    ensures Combine(a, rows, n) == Zero(n)
  {
    if a != [] {
      CombineZeros(a[1..], rows[1..], n);
      assert Scale(a[0], rows[0]) == Zero(n);
      PlusZero(Zero(n));
    }
  }

  lemma {:induction false} CombineSplit(a: Vector, b: Vector, rows: seq<Vector>, more: seq<Vector>, n: nat)
    requires |a| == |rows| && forall i :: 0 <= i < |rows| ==> |rows[i]| == n
    requires |b| == |more| && forall i :: 0 <= i < |more| ==> |more[i]| == n
    ensures forall i :: 0 <= i < |rows + more| ==> |(rows + more)[i]| == n
    ensures Combine(a + b, rows + more, n) == Plus(Combine(a, rows, n), Combine(b, more, n))
  {
    if a == [] {
      assert a + b == b && rows + more == more;
      PlusZero(Combine(b, more, n));
    } else {
      assert (a + b)[1..] == a[1..] + b && (rows + more)[1..] == rows[1..] + more;
      CombineSplit(a[1..], b, rows[1..], more, n);
      PlusAssociative(Scale(a[0], rows[0]), Combine(a[1..], rows[1..], n), Combine(b, more, n));
    }
  }

  /** The rows computed later do not depend on where the recursion started. */
  lemma {:induction false} SolveSuffix(r: Matrix, s: Matrix, i: nat)
    requires IsUpper(r) && s.rows == r.rows && i <= r.rows
    ensures SolveFrom(r, s, 0)[i..] == SolveFrom(r, s, i)
  {
    if i > 0 {
      SolveSuffix(r, s, i - 1);
      var x := SolveFrom(r, s, 0);
      assert x[i..] == x[i - 1..][1..];
    }
  }

  lemma ScaleBack(c: real, s: Vector, rest: Vector)
    requires c != 0.0 && |s| == |rest|
    ensures Plus(Scale(c, Scale(1.0 / c, Plus(s, Negate(rest)))), rest) == s
  {
    forall i | 0 <= i < |s| ensures c * ((1.0 / c) * (s[i] - rest[i])) + rest[i] == s[i] {
      assert c * ((1.0 / c) * (s[i] - rest[i])) == (c * (1.0 / c)) * (s[i] - rest[i]);
      assert c * (1.0 / c) == 1.0;
    }
    var v := Plus(s, Negate(rest));
    forall i | 0 <= i < |s| ensures Plus(Scale(c, Scale(1.0 / c, v)), rest)[i] == s[i] {
      assert v[i] == s[i] - rest[i];
    }
  }

  lemma RowOfSolution(r: Matrix, s: Matrix, i: nat)
    requires IsUpper(r) && s.rows == r.rows && i < r.rows
    ensures Combine(r.row[i], SolveFrom(r, s, 0), s.cols) == s.row[i]
  {
    var x, a, n := SolveFrom(r, s, 0), r.row[i], s.cols;
    var below := SolveFrom(r, s, i + 1);
    var tail := SolveFrom(r, s, i);
    SolveSuffix(r, s, i);
    assert x == x[..i] + tail && a == a[..i] + a[i..];
    CombineSplit(a[..i], a[i..], x[..i], tail, n);
    CombineZeros(a[..i], x[..i], n);
    PlusZero(Combine(a[i..], tail, n));
    assert a[i..][1..] == a[i + 1..] && tail[1..] == below;
    ScaleBack(a[i], s.row[i], Combine(a[i + 1..], below, n));
  }

  /** Back-substitution solves the system. */
  lemma SolveUpperSolves(r: Matrix, s: Matrix)
    requires IsUpper(r) && s.rows == r.rows
    ensures Multiply(r, SolveUpper(r, s)) == s
  {
    forall i | 0 <= i < r.rows ensures Multiply(r, SolveUpper(r, s)).row[i] == s.row[i] {
      RowOfSolution(r, s, i);
    }
  }

  /** An upper triangular matrix with nonzero diagonal maps only zero to zero. */
  lemma {:induction false} UpperIsInjective(r: Matrix, u: Vector, i: nat)
    requires IsUpper(r) && |u| == r.cols && i <= r.rows
    requires Apply(r, u) == Zero(r.rows)
    ensures forall j :: i <= j < |u| ==> u[j] == 0.0
    decreases r.rows - i
  {
    if i < r.rows {
      UpperIsInjective(r, u, i + 1);
      var a := r.row[i];
      assert a == a[..i] + [a[i]] + a[i + 1..] && u == u[..i] + [u[i]] + u[i + 1..];
      DotConcat(a[..i] + [a[i]], a[i + 1..], u[..i] + [u[i]], u[i + 1..]);
      DotConcat(a[..i], [a[i]], u[..i], [u[i]]);
      assert a[..i] == Zero(i) && u[i + 1..] == Zero(r.rows - i - 1);
      DotZeroLeft(i, u[..i]);
      DotZeroRight(a[i + 1..]);
      assert Dot([a[i]], [u[i]]) == a[i] * u[i] + Dot([a[i]][1..], [u[i]][1..]);
      assert Apply(r, u)[i] == 0.0;
      assert a[i] * u[i] == 0.0;
    }
  }

  function NegateMatrix(m: Matrix): (n: Matrix)
    ensures n.rows == m.rows && n.cols == m.cols
  {
    Matrix(m.rows, m.cols, seq(m.rows, i requires 0 <= i < m.rows => Negate(m.row[i])))
  }

  lemma {:induction false} DotNegate(a: Vector, x: Vector)
    requires |a| == |x|
    ensures Dot(Negate(a), x) == -Dot(a, x)
  {
    if a != [] {
      assert Negate(a)[1..] == Negate(a[1..]);
      DotNegate(a[1..], x[1..]);
      assert (-a[0]) * x[0] == -(a[0] * x[0]);
    }
  }

  lemma ApplyNegate(m: Matrix, x: Vector)
    requires |x| == m.cols
    ensures Apply(NegateMatrix(m), x) == Negate(Apply(m, x))
  {
    forall i | 0 <= i < m.rows ensures Apply(NegateMatrix(m), x)[i] == -Dot(m.row[i], x) {
      DotNegate(m.row[i], x);
    }
  }

  /**
   * The conditional `r * f + s * p == 0` says exactly that `f` is the negated solution of
   * `r * x == s` applied to `p`.
   */
  lemma ConditionalIffSolved(r: Matrix, s: Matrix, f: Vector, p: Vector)
    requires IsUpper(r) && s.rows == r.rows && |f| == r.cols && |p| == s.cols
    ensures Plus(Apply(r, f), Apply(s, p)) == Zero(r.rows) <==> f == Apply(NegateMatrix(SolveUpper(r, s)), p)
  {
    var x := SolveUpper(r, s);
    SolveUpperSolves(r, s);
    ApplyMultiply(r, x, p);
    ApplyNegate(x, p);
    var u := Plus(f, Apply(x, p));
    ApplyPlus(r, f, Apply(x, p));
    assert Apply(r, u) == Plus(Apply(r, f), Apply(s, p));
    if Apply(r, u) == Zero(r.rows) {
      UpperIsInjective(r, u, 0);
      forall i | 0 <= i < |f| ensures f[i] == Negate(Apply(x, p))[i] {
        assert u[i] == f[i] + Apply(x, p)[i];
      }
    }
    if f == Negate(Apply(x, p)) {
      assert u == Zero(r.cols);
      ApplyToZero(r);
    }
  }
}

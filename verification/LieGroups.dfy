/**
 * Poses and twists, as far as kinematics uses them: a group acting on a vector space, with an
 * exponential map. Each law is a named predicate, so that a proof cites the instance it uses.
 */
module LieGroups {

  datatype LieGroup<!G(!new), !A(!new)> = LieGroup(
    compose: (G, G) -> G,
    identity: G,
    inverse: G -> G,
    adjoint: (G, A) -> A,
    exp: A -> G,
    zero: A,
    add: (A, A) -> A,
    scale: (A, real) -> A)
  {
    ghost predicate Associates(a: G, b: G, c: G) {
      compose(compose(a, b), c) == compose(a, compose(b, c))
    }

    ghost predicate Unital(a: G) {
      compose(identity, a) == a && compose(a, identity) == a
    }

    ghost predicate Invertible(a: G) {
      compose(a, inverse(a)) == identity && compose(inverse(a), a) == identity
    }

    ghost predicate AdjointComposes(g: G, h: G, x: A) {
      adjoint(compose(g, h), x) == adjoint(g, adjoint(h, x))
    }

    ghost predicate AdjointOfIdentity(x: A) {
      adjoint(identity, x) == x
    }

    ghost predicate AdjointAdds(g: G, x: A, y: A) {
      adjoint(g, add(x, y)) == add(adjoint(g, x), adjoint(g, y))
    }

    ghost predicate AdjointScales(g: G, x: A, r: real) {
      adjoint(g, scale(x, r)) == scale(adjoint(g, x), r)
    }

    ghost predicate ExpConjugates(g: G, x: A) {
      exp(adjoint(g, x)) == compose(compose(g, exp(x)), inverse(g))
    }

    ghost predicate ExpKeepsAxis(x: A, q: real) {
      adjoint(exp(scale(x, q)), x) == x
    }

    ghost predicate AddAssociates(x: A, y: A, z: A) {
      add(add(x, y), z) == add(x, add(y, z))
    }

    ghost predicate Cancels(x: A) {
      add(x, scale(x, -1.0)) == zero && add(scale(x, -1.0), x) == zero
    }

    ghost predicate AddsZero(x: A) {
      add(x, zero) == x && add(zero, x) == x
    }

    ghost predicate ScaleScales(x: A, r: real, s: real) {
      scale(scale(x, r), s) == scale(x, r * s)
    }

    ghost predicate GroupLaws() {
      && (forall a, b, c :: Associates(a, b, c))
      && (forall a :: Unital(a))
      && (forall a :: Invertible(a))
    }

    ghost predicate ActionLaws() {
      && (forall g, h, x :: AdjointComposes(g, h, x))
      && (forall x :: AdjointOfIdentity(x))
      && (forall g, x, y :: AdjointAdds(g, x, y))
      && (forall g, x, r :: AdjointScales(g, x, r))
    }

    ghost predicate ExpLaws() {
      && (forall g, x :: ExpConjugates(g, x))
      && (forall x, q :: ExpKeepsAxis(x, q))
    }

    ghost predicate VectorLaws() {
      && (forall x, y, z :: AddAssociates(x, y, z))
      && (forall x :: Cancels(x))
      && (forall x :: AddsZero(x))
      && (forall x, r, s :: ScaleScales(x, r, s))
    }

    ghost predicate Laws() {
      GroupLaws() && ActionLaws() && ExpLaws() && VectorLaws()
    }

    // -------------------------------------------------------------------------------------
    // Consequences

    lemma CancelLeft(a: G, b: G)
      requires Laws()
      ensures compose(inverse(a), compose(a, b)) == b && compose(a, compose(inverse(a), b)) == b
    {
      assert Associates(inverse(a), a, b) && Associates(a, inverse(a), b);
      assert Invertible(a) && Unital(b);
    }

    lemma CancelRight(a: G, b: G)
      requires Laws()
      ensures compose(compose(a, b), inverse(b)) == a && compose(compose(a, inverse(b)), b) == a
    {
      assert Associates(a, b, inverse(b)) && Associates(a, inverse(b), b);
      assert Invertible(b) && Unital(a);
    }

    /** A right inverse is the inverse. */
    lemma InverseIsUnique(a: G, b: G)
      requires Laws() && compose(a, b) == identity
      ensures b == inverse(a)
    {
      CancelLeft(a, b);
      assert Unital(inverse(a));
    }

    lemma InverseOfProduct(a: G, b: G)
      requires Laws()
      ensures inverse(compose(a, b)) == compose(inverse(b), inverse(a))
    {
      var c := compose(inverse(b), inverse(a));
      assert Associates(a, b, c);
      CancelLeft(b, inverse(a));
      assert Invertible(a);
      InverseIsUnique(compose(a, b), c);
    }

    lemma InverseOfInverse(a: G)
      requires Laws()
      ensures inverse(inverse(a)) == a
    {
      assert Invertible(a);
      InverseIsUnique(inverse(a), a);
    }

    lemma AdjointUndone(g: G, x: A)
      requires Laws()
      ensures adjoint(g, adjoint(inverse(g), x)) == x && adjoint(inverse(g), adjoint(g, x)) == x
    {
      assert AdjointComposes(g, inverse(g), x) && AdjointComposes(inverse(g), g, x);
      assert Invertible(g) && AdjointOfIdentity(x);
    }

    /** Adding and then subtracting changes nothing. */
    lemma AddThenSubtract(x: A, y: A)
      requires Laws()
      ensures add(add(x, y), scale(y, -1.0)) == x && add(add(x, scale(y, -1.0)), y) == x
    {
      assert AddAssociates(x, y, scale(y, -1.0)) && AddAssociates(x, scale(y, -1.0), y);
      assert Cancels(y) && AddsZero(x);
    }

    lemma NegateThenScale(x: A, r: real)
      requires Laws()
      ensures scale(scale(x, -1.0), r) == scale(scale(x, r), -1.0)
    {
      assert ScaleScales(x, -1.0, r) && ScaleScales(x, r, -1.0);
    }

    // -------------------------------------------------------------------------------------
    // Products of several poses

    /** The product of the poses, first to last. */
    function Product(poses: seq<G>): G {
      if poses == [] then identity else compose(Product(poses[..|poses| - 1]), poses[|poses| - 1])
    }

    lemma ProductAppend(poses: seq<G>, last: G)
      ensures Product(poses + [last]) == compose(Product(poses), last)
    {
      assert (poses + [last])[..|poses|] == poses;
    }

    lemma {:induction false} ProductSplit(xs: seq<G>, ys: seq<G>)
      requires Laws()
      ensures Product(xs + ys) == compose(Product(xs), Product(ys))
    {
      if ys == [] {
        assert xs + ys == xs;
        assert Unital(Product(xs));
      } else {
        var n := |ys| - 1;
        ProductSplit(xs, ys[..n]);
        assert (xs + ys)[..|xs + ys| - 1] == xs + ys[..n];
        assert Associates(Product(xs), Product(ys[..n]), ys[n]);
      }
    }
  }

  // ---------------------------------------------------------------------------------------
  // A concrete, noncommutative instance

  /** A unit upper triangular 3 by 3 matrix: the entries (1,2), (2,3) and (1,3). */
  datatype Shear = Shear(a: real, b: real, c: real)

  function Heisenberg(): LieGroup<Shear, Shear> {
    LieGroup(
      (g: Shear, h: Shear) => Shear(g.a + h.a, g.b + h.b, g.c + h.c + g.a * h.b),
      Shear(0.0, 0.0, 0.0),
      (g: Shear) => Shear(-g.a, -g.b, -g.c + g.a * g.b),
      (g: Shear, x: Shear) => Shear(x.a, x.b, x.c + g.a * x.b - g.b * x.a),
      (x: Shear) => Shear(x.a, x.b, x.c + x.a * x.b / 2.0),
      Shear(0.0, 0.0, 0.0),
      (x: Shear, y: Shear) => Shear(x.a + y.a, x.b + y.b, x.c + y.c),
      (x: Shear, r: real) => Shear(x.a * r, x.b * r, x.c * r))
  }

  lemma HeisenbergGroupLaws()
    ensures Heisenberg().GroupLaws()
  {
    var lie := Heisenberg();
    forall a, b, c ensures lie.Associates(a, b, c) {
      assert (a.c + b.c + a.a * b.b) + c.c + (a.a + b.a) * c.b == a.c + (b.c + c.c + b.a * c.b) + a.a * (b.b + c.b);
    }
    forall a ensures lie.Unital(a) {
      assert lie.compose(lie.identity, a) == a;
      assert lie.compose(a, lie.identity) == a;
    }
    forall a ensures lie.Invertible(a) {
      assert a.a * (-a.b) == -(a.a * a.b);
      assert (-a.a) * a.b == -(a.a * a.b);
      assert lie.compose(a, lie.inverse(a)) == lie.identity;
    }
  }

  lemma HeisenbergActionLaws()
    ensures Heisenberg().ActionLaws()
  {
    var lie := Heisenberg();
    forall g, h, x ensures lie.AdjointComposes(g, h, x) {
      assert x.c + (g.a + h.a) * x.b - (g.b + h.b) * x.a == (x.c + h.a * x.b - h.b * x.a) + g.a * x.b - g.b * x.a;
    }
    forall x ensures lie.AdjointOfIdentity(x) {
      assert lie.adjoint(lie.identity, x) == x;
    }
    forall g, x, y ensures lie.AdjointAdds(g, x, y) {
      assert (x.c + y.c) + g.a * (x.b + y.b) - g.b * (x.a + y.a)
        == (x.c + g.a * x.b - g.b * x.a) + (y.c + g.a * y.b - g.b * y.a);
    }
    forall g, x, r ensures lie.AdjointScales(g, x, r) {
      assert x.c * r + g.a * (x.b * r) - g.b * (x.a * r) == (x.c + g.a * x.b - g.b * x.a) * r;
    }
  }

  lemma HeisenbergExpLaws()
    ensures Heisenberg().ExpLaws()
  {
    var lie := Heisenberg();
    forall g, x ensures lie.ExpConjugates(g, x) {
      assert (x.c + g.a * x.b - g.b * x.a) + x.a * x.b / 2.0
          == (g.c + (x.c + x.a * x.b / 2.0) + g.a * x.b) + (-g.c + g.a * g.b) + (g.a + x.a) * (-g.b);
      assert lie.exp(lie.adjoint(g, x)).a == lie.compose(lie.compose(g, lie.exp(x)), lie.inverse(g)).a;
    }
    forall x, q ensures lie.ExpKeepsAxis(x, q) {
      assert x.a * q * x.b - x.b * q * x.a == 0.0;
      assert lie.adjoint(lie.exp(lie.scale(x, q)), x).c == x.c;
    }
  }

  lemma HeisenbergVectorLaws()
    ensures Heisenberg().VectorLaws()
  {
    var lie := Heisenberg();
    forall x, y, z ensures lie.AddAssociates(x, y, z) {
      assert lie.add(lie.add(x, y), z) == lie.add(x, lie.add(y, z));
    }
    forall x, r, s ensures lie.ScaleScales(x, r, s) {
      assert lie.scale(lie.scale(x, r), s) == lie.scale(x, r * s);
    }
  }

  /** The laws can be met, and they do not force the group to commute. */
  lemma HeisenbergIsLieGroup()
    ensures Heisenberg().Laws()
    ensures exists g, h :: Heisenberg().compose(g, h) != Heisenberg().compose(h, g)
  {
    HeisenbergGroupLaws();
    HeisenbergActionLaws();
    HeisenbergExpLaws();
    HeisenbergVectorLaws();
    var lie, g, h := Heisenberg(), Shear(1.0, 0.0, 0.0), Shear(0.0, 1.0, 0.0);
    assert lie.compose(g, h) != lie.compose(h, g);
  }
}

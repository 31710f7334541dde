/**
 * Equality constraints as penalty terms (EqualityConstraint) and the augmented Lagrangian loop
 * around an arbitrary unconstrained optimizer (AugmentedLagrangianOptimizer).
 */
module AugmentedLagrangian {
  import opened Prelude
  import opened LinearAlgebra
  import opened Factors
  import opened Powers

  /** A constraint `violation(x) = 0`, with a tolerance in each dimension. */
  datatype Constraint = Constraint(violation: Values -> Vector, tolerance: Vector)

  ghost predicate IsSound(c: Constraint) {
    (forall x :: |c.violation(x)| == |c.tolerance|) && forall i :: 0 <= i < |c.tolerance| ==> c.tolerance[i] > 0.0
  }

  ghost predicate AllSound(constraints: seq<Constraint>) {
    forall i :: 0 <= i < |constraints| ==> IsSound(constraints[i])
  }

  // ---------------------------------------------------------------------------------------
  // What the penalty factor means

  function HalfSquare(residual: real, sigma: real): real
    requires sigma != 0.0
  {
    residual / sigma * (residual / sigma) / 2.0
  }

  function HalfTimes(mu: real, square: real): real {
    mu / 2.0 * square
  }

  /** The error of a factor with independent noise: half the sum of squared whitened residuals. */
  function FactorError(g: Vector, measured: Vector, sigmas: Vector): real
    requires |g| == |measured| == |sigmas|
    requires forall i :: 0 <= i < |sigmas| ==> sigmas[i] != 0.0
  {
    if g == [] then 0.0
    else HalfSquare(g[0] - measured[0], sigmas[0]) + FactorError(g[1..], measured[1..], sigmas[1..])
  }

  /** The noise model of a penalty factor: tolerances divided by the root of the penalty. */
  function Sigmas(tolerance: Vector, root: real): (sigmas: Vector)
    requires root > 0.0
    ensures |sigmas| == |tolerance|
    ensures forall i :: 0 <= i < |tolerance| ==> sigmas[i] == tolerance[i] / root
  {
    seq(|tolerance|, i requires 0 <= i < |tolerance| => tolerance[i] / root)
  }

  function Over(a: Vector, b: Vector): (r: Vector)
    requires |a| == |b| && forall i :: 0 <= i < |b| ==> b[i] != 0.0
    ensures |r| == |a| && forall i :: 0 <= i < |r| ==> r[i] == a[i] / b[i]
  {
    seq(|a|, i requires 0 <= i < |a| => a[i] / b[i])
  }

  /** Half the penalty times the squared norm of the scaled, shifted violation. */
  function PenaltyTerm(g: Vector, tolerance: Vector, mu: real, bias: Vector): real
    requires |g| == |bias| == |tolerance|
    requires forall i :: 0 <= i < |tolerance| ==> tolerance[i] != 0.0
  {
    var shifted := Over(Plus(g, bias), tolerance);
    HalfTimes(mu, Dot(shifted, shifted))
  }

  ghost predicate Positive(v: Vector) {
    forall i :: 0 <= i < |v| ==> v[i] > 0.0
  }

  /** The factor created for a penalty and a bias has the error the design asks for. */
  lemma {:induction false} FactorIsPenalty(g: Vector, tolerance: Vector, mu: real, root: real, bias: Vector)
    requires |g| == |bias| == |tolerance| && Positive(tolerance) && root > 0.0 && root * root == mu
    ensures forall i :: 0 <= i < |tolerance| ==> Sigmas(tolerance, root)[i] > 0.0
    ensures FactorError(g, Negate(bias), Sigmas(tolerance, root)) == PenaltyTerm(g, tolerance, mu, bias)
  {
    SigmasArePositive(tolerance, root);
    if g != [] {
      FactorIsPenalty(g[1..], tolerance[1..], mu, root, bias[1..]);
      assert Negate(bias)[1..] == Negate(bias[1..]);
      assert Sigmas(tolerance, root)[1..] == Sigmas(tolerance[1..], root);
      var shifted := Over(Plus(g, bias), tolerance);
      assert shifted[1..] == Over(Plus(g[1..], bias[1..]), tolerance[1..]);
      FirstResidual(g, tolerance, mu, root, bias);
      var rest := Dot(shifted[1..], shifted[1..]);
      assert FactorError(g[1..], Negate(bias)[1..], Sigmas(tolerance, root)[1..]) == HalfTimes(mu, rest);
      assert Dot(shifted, shifted) == shifted[0] * shifted[0] + rest;
      HalfOfSum(mu, shifted[0] * shifted[0], rest);
    } else {
      assert Over(Plus(g, bias), tolerance) == [];
    }
  }

  lemma FirstResidual(g: Vector, tolerance: Vector, mu: real, root: real, bias: Vector)
    requires |g| == |bias| == |tolerance| > 0 && Positive(tolerance) && root > 0.0 && root * root == mu
    ensures Sigmas(tolerance, root)[0] != 0.0
    ensures var shifted := Over(Plus(g, bias), tolerance);
      HalfSquare(g[0] - Negate(bias)[0], Sigmas(tolerance, root)[0]) == HalfTimes(mu, shifted[0] * shifted[0])
  {
    WhitenedResidual(g[0], bias[0], tolerance[0], mu, root);
  }

  lemma SigmasArePositive(tolerance: Vector, root: real)
    requires Positive(tolerance) && root > 0.0
    ensures forall i :: 0 <= i < |tolerance| ==> Sigmas(tolerance, root)[i] > 0.0
  {
    forall i | 0 <= i < |tolerance| ensures tolerance[i] / root > 0.0 {
      assert tolerance[i] / root * root == tolerance[i];
    }
  }

  lemma HalfOfSum(mu: real, a: real, b: real)
    ensures HalfTimes(mu, a + b) == HalfTimes(mu, a) + HalfTimes(mu, b)
  {
  }

  lemma WhitenedResidual(g: real, b: real, t: real, mu: real, root: real)
    requires t > 0.0 && root > 0.0 && root * root == mu
    ensures t / root > 0.0
    ensures HalfSquare(g - (-b), t / root) == HalfTimes(mu, (g + b) / t * ((g + b) / t))
  {
    var s, w, u := t / root, (g + b) / (t / root), (g + b) / t;
    assert s * root == t;
    assert s > 0.0;
    assert w * s == u * t;
    assert w * s == u * (s * root);
    assert (w - u * root) * s == 0.0;
    assert w == u * root;
    assert w * w == u * u * (root * root);
  }

  /** The constant part of the penalty term. */
  function Offset(z: Vector, tolerance: Vector, mu: real): real
    requires |z| == |tolerance| && mu > 0.0
    requires forall i :: 0 <= i < |tolerance| ==> tolerance[i] != 0.0
  {
    Dot(Over(z, tolerance), Over(z, tolerance)) / (2.0 * mu)
  }

  /**
   * With the multipliers over the penalty as bias, the penalty term is the augmented Lagrangian's:
   * the penalty on the scaled violation, plus the multipliers' pull, plus a constant.
   */
  lemma PenaltyIsLagrangian(g: Vector, tolerance: Vector, mu: real, z: Vector)
    requires |g| == |z| == |tolerance| && Positive(tolerance) && mu > 0.0
    ensures PenaltyTerm(g, tolerance, mu, Scale(1.0 / mu, z))
         == HalfTimes(mu, Dot(Over(g, tolerance), Over(g, tolerance))) + Dot(Over(z, tolerance), Over(g, tolerance))
          + Offset(z, tolerance, mu)
  {
    var a, b := Over(g, tolerance), Over(z, tolerance);
    var shifted := Over(Plus(g, Scale(1.0 / mu, z)), tolerance);
    forall i | 0 <= i < |g| ensures shifted[i] == Plus(a, Scale(1.0 / mu, b))[i] {
      ShiftedEntry(g[i], z[i], tolerance[i], 1.0 / mu);
    }
    assert shifted == Plus(a, Scale(1.0 / mu, b));
    SquareOfShifted(a, b, mu);
  }

  lemma SquareOfShifted(a: Vector, b: Vector, mu: real)
    requires |a| == |b| && mu > 0.0
    ensures var shifted := Plus(a, Scale(1.0 / mu, b));
      HalfTimes(mu, Dot(shifted, shifted)) == HalfTimes(mu, Dot(a, a)) + Dot(b, a) + Dot(b, b) / (2.0 * mu)
  {
    var c := 1.0 / mu;
    SquareOfSum(a, b, c);
    CompleteSquare(mu, c, Dot(a, a), Dot(b, a), Dot(b, b));
  }

  lemma ShiftedEntry(g: real, z: real, t: real, c: real)
    requires t > 0.0
    ensures (g + c * z) / t == g / t + c * (z / t)
  {
    assert g / t * t == g && z / t * t == z;
    assert (g + c * z) / t * t == g + c * z;
    assert ((g + c * z) / t - (g / t + c * (z / t))) * t == 0.0;
  }

  function Times(a: real, b: real): real {
    a * b
  }

  lemma SquareOfSum(a: Vector, b: Vector, c: real)
    requires |a| == |b|
    ensures var sum := Plus(a, Scale(c, b));
      Dot(sum, sum) == Dot(a, a) + Times(c, Dot(b, a)) + Times(c, Dot(b, a)) + Times(c, Times(c, Dot(b, b)))
  {
    var s := Scale(c, b);
    SquareSplits(a, s);
    ScaledLeft(c, b, a);
    ScaledLeft(c, b, s);
    ScaledRight(c, b, b);
  }

  lemma SquareSplits(a: Vector, s: Vector)
    requires |a| == |s|
    ensures Dot(Plus(a, s), Plus(a, s)) == Dot(a, a) + Dot(s, a) + Dot(s, a) + Dot(s, s)
  {
    DotPlusLeft(a, s, Plus(a, s));
    DotPlusRight(a, a, s);
    DotPlusRight(s, a, s);
    DotSymmetric(a, s);
  }

  lemma ScaledLeft(c: real, b: Vector, x: Vector)
    requires |b| == |x|
    ensures Dot(Scale(c, b), x) == Times(c, Dot(b, x))
  {
    DotScaleLeft(c, b, x);
  }

  lemma ScaledRight(c: real, x: Vector, b: Vector)
    requires |b| == |x|
    ensures Dot(x, Scale(c, b)) == Times(c, Dot(x, b))
  {
    DotScaleRight(c, x, b);
  }

  lemma CompleteSquare(mu: real, c: real, aa: real, ba: real, bb: real)
    requires mu > 0.0 && c == 1.0 / mu
    ensures HalfTimes(mu, aa + Times(c, ba) + Times(c, ba) + Times(c, Times(c, bb)))
         == HalfTimes(mu, aa) + ba + bb / (2.0 * mu)
  {
    assert mu * c == 1.0;
    HalfScaled(mu, c, bb);
    Distribute(mu / 2.0, aa, c * ba, c * (c * bb));
    Reassociate(mu, c, ba);
    Reassociate(mu, c, c * bb);
  }

  lemma Distribute(h: real, x: real, y: real, z: real)
    ensures h * (x + y + y + z) == h * x + 2.0 * (h * y) + h * z
  {
  }

  lemma Reassociate(mu: real, c: real, x: real)
    requires mu * c == 1.0
    ensures mu / 2.0 * (c * x) == x / 2.0
  {
    assert mu / 2.0 * (c * x) == (mu * c) * x / 2.0;
  }

  lemma HalfScaled(mu: real, c: real, b: real)
    requires mu > 0.0 && mu * c == 1.0
    ensures b / (2.0 * mu) == c * b / 2.0
  {
    var q := b / (2.0 * mu);
    assert q * (2.0 * mu) == b;
    assert c * b / 2.0 * (2.0 * mu) == (mu * c) * b;
    assert (q - c * b / 2.0) * (2.0 * mu) == 0.0;
  }

  // ---------------------------------------------------------------------------------------
  // Feasibility

  /** The violation in units of the tolerance. */
  method ToleranceScaledViolation(c: Constraint, x: Values) returns (scaled: Vector)
    requires IsSound(c)
    ensures scaled == Over(c.violation(x), c.tolerance)
  {
    var violation := c.violation(x);
    scaled := [];
    for i := 0 to |violation|
      invariant |scaled| == i && forall j :: 0 <= j < i ==> scaled[j] == violation[j] / c.tolerance[j]
    {
      scaled := scaled + [violation[i] / c.tolerance[i]];
    }
  }

  /** Feasible means that no entry of the scaled violation exceeds one. */
  method Feasible(c: Constraint, x: Values) returns (feasible: bool)
    requires IsSound(c)
    ensures feasible <==> VectorWithin(Over(c.violation(x), c.tolerance), 1.0)
  {
    var violation := c.violation(x);
    for i := 0 to |violation|
      invariant forall j :: 0 <= j < i ==> AbsReal(violation[j]) <= c.tolerance[j]
    {
      if AbsReal(violation[i]) > c.tolerance[i] {
        WithinOne(violation[i], c.tolerance[i]);
        return false;
      }
    }
    forall i | 0 <= i < |violation| ensures AbsReal(violation[i] / c.tolerance[i]) <= 1.0 {
      WithinOne(violation[i], c.tolerance[i]);
    }
    feasible := true;
  }

  lemma WithinOne(v: real, t: real)
    requires t > 0.0
    ensures AbsReal(v) <= t <==> AbsReal(v / t) <= 1.0
  {
    var u := v / t;
    assert u * t == v;
    if u > 1.0 {
      assert (u - 1.0) * t > 0.0;
    } else if u < -1.0 {
      assert (-1.0 - u) * t > 0.0;
    } else {
      assert (1.0 - u) * t >= 0.0 && (u + 1.0) * t >= 0.0;
    }
  }

  // ---------------------------------------------------------------------------------------
  // The outer loop

  /** The squared norm of all scaled violations. */
  function TotalViolation(constraints: seq<Constraint>, x: Values): (v: real)
    requires AllSound(constraints)
    ensures v >= 0.0
  {
    if constraints == [] then 0.0
    else
      var last := constraints[|constraints| - 1];
      assert IsSound(last);
      var scaled := Over(last.violation(x), last.tolerance);
      SquaresAreNonNegative(scaled);
      TotalViolation(constraints[..|constraints| - 1], x) + Dot(scaled, scaled)
  }

  /** The scaled violations of all constraints, stacked. */
  ghost function AllViolations(constraints: seq<Constraint>, x: Values): Vector
    requires AllSound(constraints)
  {
    if constraints == [] then []
    else
      var last := constraints[|constraints| - 1];
      assert IsSound(last);
      AllViolations(constraints[..|constraints| - 1], x)
      + seq(|last.tolerance|, i requires 0 <= i < |last.tolerance| => last.violation(x)[i] / last.tolerance[i])
  }

  lemma {:induction false} DotOfStacked(a: Vector, b: Vector)
    ensures Dot(a + b, a + b) == Dot(a, a) + Dot(b, b)
  {
    if a == [] {
      assert a + b == b;
    } else {
      DotOfStacked(a[1..], b);
      assert (a + b)[1..] == a[1..] + b;
    }
  }

  /** The total is the squared norm of everything the constraints violate, in units of their tolerances. */
  lemma {:induction false} TotalIsSquaredNorm(constraints: seq<Constraint>, x: Values)
    requires AllSound(constraints)
    ensures TotalViolation(constraints, x) == Dot(AllViolations(constraints, x), AllViolations(constraints, x))
  {
    if constraints != [] {
      var before, last := constraints[..|constraints| - 1], constraints[|constraints| - 1];
      TotalIsSquaredNorm(before, x);
      assert IsSound(last);
      var scaled := Over(last.violation(x), last.tolerance);
      assert AllViolations(constraints, x) == AllViolations(before, x) + scaled;
      DotOfStacked(AllViolations(before, x), scaled);
    }
  }

  lemma {:induction false} SquaresAreNonNegative(v: Vector)
    ensures Dot(v, v) >= 0.0
  {
    if v != [] {
      SquaresAreNonNegative(v[1..]);
      assert v[0] * v[0] >= 0.0;
    }
  }

  /** Whether the violation fell by too little: less than to a quarter, so a sixteenth squared. */
  predicate FellTooLittle(before: real, after: real) {
    16.0 * after >= before
  }

  lemma ProductIsPositive(a: real, b: real)
    requires a > 0.0 && b > 0.0
    ensures a * b > 0.0
  {
  }

  /** The comparison of squared norms is the original's comparison of norms. */
  lemma ComparesNorms(before: real, after: real, normBefore: real, normAfter: real)
    requires normBefore >= 0.0 && normAfter >= 0.0
    requires normBefore * normBefore == before && normAfter * normAfter == after
    ensures FellTooLittle(before, after) <==> normAfter >= 0.25 * normBefore
  {
    var a, b := 4.0 * normAfter, normBefore;
    assert 16.0 * after - before == (a - b) * (a + b);
    if a >= b {
      assert (a - b) * (a + b) >= 0.0;
    } else {
      ProductIsPositive(b - a, a + b);
    }
  }

  function NextPenalty(constraints: seq<Constraint>, previous: Values, current: Values, mu: real): real
    requires AllSound(constraints)
  {
    if FellTooLittle(TotalViolation(constraints, previous), TotalViolation(constraints, current)) then mu * 2.0 else mu
  }

  ghost predicate MatchDimensions(constraints: seq<Constraint>, z: seq<Vector>) {
    |z| == |constraints| && forall i :: 0 <= i < |z| ==> |z[i]| == |constraints[i].tolerance|
  }

  function UpdatedMultiplier(c: Constraint, current: Values, mu: real, z: Vector): (r: Vector)
    requires IsSound(c) && |z| == |c.tolerance|
    ensures |r| == |z|
  {
    Plus(z, Scale(mu, c.violation(current)))
  }

  /** `after` adds the penalty times the current violation to each multiplier. */
  ghost predicate AreUpdated(constraints: seq<Constraint>, current: Values, mu: real, before: seq<Vector>,
                             after: seq<Vector>)
    requires AllSound(constraints) && MatchDimensions(constraints, before)
  {
    && MatchDimensions(constraints, after)
    && forall i :: 0 <= i < |after| ==> after[i] == UpdatedMultiplier(constraints[i], current, mu, before[i])
  }

  /** Updates the multipliers in place and returns the next penalty. */
  method UpdateParameters(constraints: seq<Constraint>, previous: Values, current: Values, mu: real, z: array<Vector>)
    returns (next: real)
    requires AllSound(constraints) && MatchDimensions(constraints, z[..])
    modifies z
    ensures MatchDimensions(constraints, z[..]) && AreUpdated(constraints, current, mu, old(z[..]), z[..])
    ensures next == NextPenalty(constraints, previous, current, mu)
  {
    var previousError, currentError := 0.0, 0.0;
    ghost var before := z[..];
    for i := 0 to |constraints|
      invariant forall j :: 0 <= j < i ==> z[j] == UpdatedMultiplier(constraints[j], current, mu, before[j])
      invariant forall j :: i <= j < z.Length ==> z[j] == before[j]
      invariant AllSound(constraints[..i])
      invariant previousError == TotalViolation(constraints[..i], previous)
      invariant currentError == TotalViolation(constraints[..i], current)
    {
      var c := constraints[i];
      assert constraints[..i + 1][..i] == constraints[..i];
      var violation := c.violation(current);
      z[i] := Plus(z[i], Scale(mu, violation));
      var scaledBefore := ToleranceScaledViolation(c, previous);
      previousError := previousError + Dot(scaledBefore, scaledBefore);
      var scaledNow := ToleranceScaledViolation(c, current);
      currentError := currentError + Dot(scaledNow, scaledNow);
    }
    assert constraints[..|constraints|] == constraints;
    next := if FellTooLittle(previousError, currentError) then mu * 2.0 else mu;
  }

  /** A square root of positive numbers. */
  ghost predicate IsRoot(root: real -> real) {
    forall a :: a > 0.0 ==> root(a) > 0.0 && root(a) * root(a) == a
  }

  /** The error of the factor created for a constraint, with the multiplier over the penalty as bias. */
  function CreatedError(c: Constraint, mu: real, root: real, z: Vector, x: Values): real
    requires IsSound(c) && |z| == |c.tolerance| && mu > 0.0 && root > 0.0
  {
    SigmasArePositive(c.tolerance, root);
    FactorError(c.violation(x), Negate(Scale(1.0 / mu, z)), Sigmas(c.tolerance, root))
  }

  /** The merit function: the costs plus one created factor per constraint. */
  function MeritError(costs: Values -> real, constraints: seq<Constraint>, mu: real, root: real, z: seq<Vector>,
                      x: Values): real
    requires AllSound(constraints) && MatchDimensions(constraints, z) && mu > 0.0 && root > 0.0
  {
    if constraints == [] then costs(x)
    else
      var n := |constraints| - 1;
      MeritError(costs, constraints[..n], mu, root, z[..n], x) + CreatedError(constraints[n], mu, root, z[n], x)
  }

  /** What a constraint adds to the augmented Lagrangian: penalty, multiplier and constant. */
  function LagrangianTerm(c: Constraint, mu: real, z: Vector, x: Values): real
    requires IsSound(c) && |z| == |c.tolerance| && mu > 0.0
  {
    var scaled, multiplier := Over(c.violation(x), c.tolerance), Over(z, c.tolerance);
    HalfTimes(mu, Dot(scaled, scaled)) + Dot(multiplier, scaled) + Offset(z, c.tolerance, mu)
  }

  /** The augmented Lagrangian, up to a constant that the multipliers and the penalty determine. */
  function LagrangianError(costs: Values -> real, constraints: seq<Constraint>, mu: real, z: seq<Vector>,
                           x: Values): real
    requires AllSound(constraints) && MatchDimensions(constraints, z) && mu > 0.0
  {
    if constraints == [] then costs(x)
    else
      var n := |constraints| - 1;
      LagrangianError(costs, constraints[..n], mu, z[..n], x) + LagrangianTerm(constraints[n], mu, z[n], x)
  }

  lemma CreatedErrorIsLagrangian(c: Constraint, mu: real, root: real, z: Vector, x: Values)
    requires IsSound(c) && |z| == |c.tolerance| && mu > 0.0 && root > 0.0 && root * root == mu
    ensures CreatedError(c, mu, root, z, x) == LagrangianTerm(c, mu, z, x)
  {
    FactorIsPenalty(c.violation(x), c.tolerance, mu, root, Scale(1.0 / mu, z));
    PenaltyIsLagrangian(c.violation(x), c.tolerance, mu, z);
  }

  /** The graph that is optimized in a round has the error of the augmented Lagrangian. */
  lemma {:induction false} MeritIsLagrangian(costs: Values -> real, constraints: seq<Constraint>, mu: real, root: real,
                                             z: seq<Vector>, x: Values)
    requires AllSound(constraints) && MatchDimensions(constraints, z) && mu > 0.0 && root > 0.0 && root * root == mu
    ensures MeritError(costs, constraints, mu, root, z, x) == LagrangianError(costs, constraints, mu, z, x)
  {
    if constraints != [] {
      var n := |constraints| - 1;
      MeritIsLagrangian(costs, constraints[..n], mu, root, z[..n], x);
      assert IsSound(constraints[n]);
      CreatedErrorIsLagrangian(constraints[n], mu, root, z[n], x);
    }
  }

  /**
   * The problem, and the unconstrained optimizer: what it makes of a merit function and a start.
   * `root` is the square root.
   */
  datatype Problem = Problem(costs: Values -> real, constraints: seq<Constraint>, root: real -> real,
                             minimize: (Values -> real, Values) -> Values)

  ghost predicate IsSoundProblem(p: Problem) {
    AllSound(p.constraints) && IsRoot(p.root)
  }

  function Merit(p: Problem, mu: real, z: seq<Vector>): Values -> real
    requires IsSoundProblem(p) && MatchDimensions(p.constraints, z) && mu > 0.0
  {
    x => MeritError(p.costs, p.constraints, mu, p.root(mu), z, x)
  }

  /** A run of the loop: the iterates, penalties and multipliers. */
  datatype Run = Run(xs: seq<Values>, mus: seq<real>, zs: seq<seq<Vector>>)

  ghost predicate HasShape(p: Problem, run: Run, n: nat) {
    && IsSoundProblem(p)
    && |run.xs| == |run.mus| == |run.zs| == n + 1
    && (forall i :: 0 <= i <= n ==> run.mus[i] > 0.0)
    && (forall i :: 0 <= i <= n ==> MatchDimensions(p.constraints, run.zs[i]))
  }

  /** Round `i`: optimize the merit function from the last iterate, then update. */
  ghost predicate IsRound(p: Problem, run: Run, n: nat, i: nat)
    requires HasShape(p, run, n)
  {
    i < n ==>
      && run.xs[i + 1] == p.minimize(Merit(p, run.mus[i], run.zs[i]), run.xs[i])
      && run.mus[i + 1] == NextPenalty(p.constraints, run.xs[i], run.xs[i + 1], run.mus[i])
      && AreUpdated(p.constraints, run.xs[i + 1], run.mus[i], run.zs[i], run.zs[i + 1])
  }

  ghost predicate IsRun(p: Problem, run: Run, n: nat, initial: Values) {
    && HasShape(p, run, n) && run.xs[0] == initial && run.mus[0] == 1.0
    && (forall c :: 0 <= c < |p.constraints| ==> run.zs[0][c] == Zero(|p.constraints[c].tolerance|))
    && forall i :: IsRound(p, run, n, i)
  }

  ghost function ExtendRun(run: Run, x: Values, mu: real, z: seq<Vector>): Run {
    Run(run.xs + [x], run.mus + [mu], run.zs + [z])
  }

  lemma ExtendedIsRun(p: Problem, run: Run, n: nat, initial: Values, x: Values, mu: real, z: seq<Vector>)
    requires IsRun(p, run, n, initial) && mu > 0.0 && MatchDimensions(p.constraints, z)
    requires x == p.minimize(Merit(p, run.mus[n], run.zs[n]), run.xs[n])
    requires mu == NextPenalty(p.constraints, run.xs[n], x, run.mus[n])
    requires AreUpdated(p.constraints, x, run.mus[n], run.zs[n], z)
    ensures IsRun(p, ExtendRun(run, x, mu, z), n + 1, initial)
  {
    var next, m := ExtendRun(run, x, mu, z), n + 1;
    forall i ensures IsRound(p, next, m, i) {
      assert IsRound(p, run, n, i);
    }
  }

  lemma RunStarts(p: Problem, initial: Values, z: seq<Vector>)
    requires IsSoundProblem(p) && MatchDimensions(p.constraints, z)
    requires forall c :: 0 <= c < |p.constraints| ==> z[c] == Zero(|p.constraints[c].tolerance|)
    ensures IsRun(p, Run([initial], [1.0], [z]), 0, initial)
  {
  }

  /** The loop. Besides the last iterate it reports the iterates and penalties after each round. */
  method Optimize(p: Problem, initial: Values, numIterations: nat)
    returns (values: Values, iterates: seq<Values>, penalties: seq<real>)
    requires IsSoundProblem(p)
    ensures exists run ::
      && IsRun(p, run, numIterations, initial)
      && values == run.xs[numIterations] && iterates == run.xs[1..] && penalties == run.mus[1..]
  {
    hide IsRound, MeritError, AreUpdated, AllSound, IsRoot;
    values := initial;
    var mu := 1.0;
    var z := new Vector[|p.constraints|](i requires 0 <= i < |p.constraints| => Zero(|p.constraints[i].tolerance|));
    iterates, penalties := [], [];
    ghost var run := Run([initial], [mu], [z[..]]);
    RunStarts(p, initial, z[..]);
    for i := 0 to numIterations
      invariant IsRun(p, run, i, initial)
      invariant values == run.xs[i] && mu == run.mus[i] && z[..] == run.zs[i]
      invariant iterates == run.xs[1..] && penalties == run.mus[1..]
    {
      ghost var before := z[..];
      var result := p.minimize(Merit(p, mu, z[..]), values);
      var next := UpdateParameters(p.constraints, values, result, mu, z);
      ExtendedIsRun(p, run, i, initial, result, next, z[..]);
      run := ExtendRun(run, result, next, z[..]);
      values, mu := result, next;
      iterates, penalties := iterates + [values], penalties + [mu];
    }
  }

  // ---------------------------------------------------------------------------------------
  // Whole runs

  /** In every round, what is minimized from the last iterate is the augmented Lagrangian of that round. */
  lemma IteratesMinimizeLagrangian(p: Problem, run: Run, n: nat, initial: Values, i: nat)
    requires IsRun(p, run, n, initial) && i < n
    ensures exists f: Values -> real ::
      && run.xs[i + 1] == p.minimize(f, run.xs[i])
      && forall x :: f(x) == LagrangianError(p.costs, p.constraints, run.mus[i], run.zs[i], x)
  {
    var f := Merit(p, run.mus[i], run.zs[i]);
    assert IsRound(p, run, n, i);
    forall x ensures f(x) == LagrangianError(p.costs, p.constraints, run.mus[i], run.zs[i], x) {
      MeritIsLagrangian(p.costs, p.constraints, run.mus[i], p.root(run.mus[i]), run.zs[i], x);
    }
  }

  ghost predicate IsLowest(f: Values -> real, y: Values) {
    forall x :: f(y) <= f(x)
  }

  ghost predicate HasLowest(f: Values -> real) {
    exists y :: IsLowest(f, y)
  }

  /** `y` is a minimum of the augmented Lagrangian for this penalty and these multipliers. */
  ghost predicate IsMinimum(p: Problem, mu: real, z: seq<Vector>, y: Values)
    requires IsSoundProblem(p) && MatchDimensions(p.constraints, z) && mu > 0.0
  {
    forall x :: LagrangianError(p.costs, p.constraints, mu, z, y) <= LagrangianError(p.costs, p.constraints, mu, z, x)
  }

  /** An optimizer that finds a minimum whenever there is one. */
  ghost predicate FindsMinima(p: Problem) {
    forall f: Values -> real, start: Values :: HasLowest(f) ==> IsLowest(f, p.minimize(f, start))
  }

  /** With such an optimizer, every iterate is a minimum of its round's augmented Lagrangian, if it has one. */
  lemma ExactIteratesAreMinima(p: Problem, run: Run, n: nat, initial: Values, i: nat, y: Values)
    requires IsRun(p, run, n, initial) && i < n && FindsMinima(p)
    requires IsMinimum(p, run.mus[i], run.zs[i], y)
    ensures IsMinimum(p, run.mus[i], run.zs[i], run.xs[i + 1])
  {
    IteratesMinimizeLagrangian(p, run, n, initial, i);
    var f: Values -> real :|
      && run.xs[i + 1] == p.minimize(f, run.xs[i])
      && forall x :: f(x) == LagrangianError(p.costs, p.constraints, run.mus[i], run.zs[i], x);
    assert IsLowest(f, y);
    assert IsLowest(f, p.minimize(f, run.xs[i]));
  }

  /** The sum of penalty times violation over the first `n` rounds. */
  ghost function WeightedViolations(p: Problem, run: Run, c: nat, n: nat): (sum: Vector)
    requires AllSound(p.constraints) && c < |p.constraints| && n < |run.xs| && |run.mus| == |run.xs|
    ensures |sum| == |p.constraints[c].tolerance|
  {
    if n == 0 then Zero(|p.constraints[c].tolerance|)
    else Plus(WeightedViolations(p, run, c, n - 1), Scale(run.mus[n - 1], p.constraints[c].violation(run.xs[n])))
  }

  /** After `n` rounds a multiplier is the sum of the penalties times the violations met. */
  lemma {:induction false} MultiplierIsWeightedSum(p: Problem, run: Run, n: nat, initial: Values, c: nat, k: nat)
    requires IsRun(p, run, n, initial) && c < |p.constraints| && k <= n
    ensures run.zs[k][c] == WeightedViolations(p, run, c, k)
  {
    if k > 0 {
      MultiplierIsWeightedSum(p, run, n, initial, c, k - 1);
      assert IsRound(p, run, n, k - 1);
    }
  }

  ghost predicate Doubles(p: Problem, run: Run, i: nat)
    requires AllSound(p.constraints) && i + 1 < |run.xs|
  {
    FellTooLittle(TotalViolation(p.constraints, run.xs[i]), TotalViolation(p.constraints, run.xs[i + 1]))
  }

  /** The number of the first `n` rounds that doubled the penalty. */
  ghost function Doublings(p: Problem, run: Run, n: nat): (count: nat)
    requires AllSound(p.constraints) && n < |run.xs|
    ensures count <= n
  {
    if n == 0 then 0 else Doublings(p, run, n - 1) + if Doubles(p, run, n - 1) then 1 else 0
  }

  /** The penalty is two to the number of doublings. */
  lemma {:induction false} PenaltyIsPowerOfTwo(p: Problem, run: Run, n: nat, initial: Values, k: nat)
    requires IsRun(p, run, n, initial) && k <= n
    ensures run.mus[k] == Power(2.0, Doublings(p, run, k))
  {
    if k > 0 {
      PenaltyIsPowerOfTwo(p, run, n, initial, k - 1);
      assert IsRound(p, run, n, k - 1);
    }
  }

  /** The penalty never decreases. */
  lemma {:induction false} PenaltyNeverFalls(p: Problem, run: Run, n: nat, initial: Values, i: nat, j: nat)
    requires IsRun(p, run, n, initial) && i <= j <= n
    ensures run.mus[i] <= run.mus[j]
    decreases j
  {
    if i < j {
      PenaltyNeverFalls(p, run, n, initial, i, j - 1);
      assert IsRound(p, run, n, j - 1);
    }
  }

  /**
   * Over any stretch of rounds that leaves the penalty unchanged, the squared violation falls by
   * more than sixteen to the number of rounds.
   */
  lemma {:induction false} ViolationFallsGeometrically(p: Problem, run: Run, n: nat, initial: Values, i: nat, k: nat)
    requires IsRun(p, run, n, initial) && k >= 1 && i + k <= n
    requires run.mus[i + k] == run.mus[i]
    ensures TotalViolation(p.constraints, run.xs[i + k]) * Power(16.0, k) < TotalViolation(p.constraints, run.xs[i])
  {
    var m := i + k - 1;
    PenaltyNeverFalls(p, run, n, initial, i, m);
    assert IsRound(p, run, n, m);
    assert !Doubles(p, run, m);
    var start := TotalViolation(p.constraints, run.xs[i]);
    var before, after := TotalViolation(p.constraints, run.xs[m]), TotalViolation(p.constraints, run.xs[m + 1]);
    if k > 1 {
      ViolationFallsGeometrically(p, run, n, initial, i, k - 1);
      OneMoreFall(start, before, after, k - 1);
    } else {
      assert Power(16.0, 1) == 16.0 * Power(16.0, 0);
    }
  }

  lemma OneMoreFall(start: real, before: real, after: real, k: nat)
    requires before * Power(16.0, k) < start && 16.0 * after < before
    ensures after * Power(16.0, k + 1) < start
  {
    PowerGrows(16.0, 0, k);
    ProductIsPositive(before - 16.0 * after, Power(16.0, k));
    assert after * (16.0 * Power(16.0, k)) == 16.0 * after * Power(16.0, k);
  }

  /** In terms of norms: by more than four to the number of rounds. */
  lemma NormFallsGeometrically(p: Problem, run: Run, n: nat, initial: Values, i: nat, k: nat, normBefore: real,
                               normAfter: real)
    requires IsRun(p, run, n, initial) && k >= 1 && i + k <= n && run.mus[i + k] == run.mus[i]
    requires normBefore >= 0.0 && normBefore * normBefore == TotalViolation(p.constraints, run.xs[i])
    requires normAfter >= 0.0 && normAfter * normAfter == TotalViolation(p.constraints, run.xs[i + k])
    ensures normAfter * Power(4.0, k) < normBefore
  {
    ViolationFallsGeometrically(p, run, n, initial, i, k);
    PowerOfProduct(4.0, 4.0, k);
    PowerGrows(4.0, 0, k);
    var f := Power(4.0, k);
    SquaresCompare(normAfter, f, normBefore);
  }

  lemma SquaresCompare(a: real, f: real, b: real)
    requires a >= 0.0 && f >= 1.0 && b >= 0.0
    requires a * a * (f * f) < b * b
    ensures a * f < b
  {
    var s := a * f;
    assert s * s == a * a * (f * f);
    if s >= b {
      SquareIsMonotone(b, s);
    }
  }

  lemma SquareIsMonotone(b: real, s: real)
    requires 0.0 <= b <= s
    ensures b * b <= s * s
  {
    ProductGrows(b, b, s);
    ProductGrows(s, b, s);
  }

  lemma ProductGrows(c: real, x: real, y: real)
    requires c >= 0.0 && x <= y
    ensures c * x <= c * y
  {
  }
}

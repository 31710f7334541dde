/**
 * Serial kinematic chains and the product of exponentials (Chain), and the three-joint chain of
 * a leg (BuildChain).
 */
module Chains {
  import opened Prelude
  import opened LieGroups
  import opened Joints

  /** The rest pose of the chain's end, and the joints' screw axes in the frame of the end. */
  datatype Chain<G, A> = Chain(sMb: G, axes: seq<A>)

  function EmptyChain<G(!new), A(!new)>(lie: LieGroup<G, A>): Chain<G, A> {
    Chain(lie.identity, [])
  }

  /** The same motions, seen from a frame displaced by `g`. */
  function MoveAxes<G(!new), A(!new)>(lie: LieGroup<G, A>, g: G, axes: seq<A>): (r: seq<A>)
    ensures |r| == |axes| && forall i :: 0 <= i < |r| ==> r[i] == lie.adjoint(g, axes[i])
  {
    seq(|axes|, i requires 0 <= i < |axes| => lie.adjoint(g, axes[i]))
  }

  /** The chain that continues `a` with `b`. */
  function Then<G(!new), A(!new)>(lie: LieGroup<G, A>, a: Chain<G, A>, b: Chain<G, A>): Chain<G, A> {
    Chain(lie.compose(a.sMb, b.sMb), MoveAxes(lie, lie.inverse(b.sMb), a.axes) + b.axes)
  }

  /** All chains in a row. */
  function Composed<G(!new), A(!new)>(lie: LieGroup<G, A>, chains: seq<Chain<G, A>>): Chain<G, A> {
    if chains == [] then EmptyChain(lie) else Then(lie, Composed(lie, chains[..|chains| - 1]), chains[|chains| - 1])
  }

  method Compose<G(!new), A(!new)>(lie: LieGroup<G, A>, chains: seq<Chain<G, A>>) returns (total: Chain<G, A>)
    ensures total == Composed(lie, chains)
  {
    total := EmptyChain(lie);
    for i := 0 to |chains|
      invariant total == Composed(lie, chains[..i])
    {
      assert chains[..i + 1][..i] == chains[..i];
      total := Then(lie, total, chains[i]);
    }
    assert chains[..|chains|] == chains;
  }

  // ---------------------------------------------------------------------------------------
  // The monoid

  lemma MoveTwice<G(!new), A(!new)>(lie: LieGroup<G, A>, g: G, h: G, axes: seq<A>)
    requires lie.Laws()
    ensures MoveAxes(lie, g, MoveAxes(lie, h, axes)) == MoveAxes(lie, lie.compose(g, h), axes)
  {
    forall i | 0 <= i < |axes|
      ensures lie.adjoint(g, lie.adjoint(h, axes[i])) == lie.adjoint(lie.compose(g, h), axes[i])
    {
      assert lie.AdjointComposes(g, h, axes[i]);
    }
  }

  lemma ThenIsAssociative<G(!new), A(!new)>(lie: LieGroup<G, A>, a: Chain<G, A>, b: Chain<G, A>, c: Chain<G, A>)
    requires lie.Laws()
    ensures Then(lie, Then(lie, a, b), c) == Then(lie, a, Then(lie, b, c))
  {
    assert lie.Associates(a.sMb, b.sMb, c.sMb);
    lie.InverseOfProduct(b.sMb, c.sMb);
    MoveTwice(lie, lie.inverse(c.sMb), lie.inverse(b.sMb), a.axes);
    assert Then(lie, Then(lie, a, b), c).axes == Then(lie, a, Then(lie, b, c)).axes;
  }

  lemma EmptyChainIsIdentity<G(!new), A(!new)>(lie: LieGroup<G, A>, a: Chain<G, A>)
    requires lie.Laws()
    ensures Then(lie, EmptyChain(lie), a) == a && Then(lie, a, EmptyChain(lie)) == a
  {
    assert lie.Unital(a.sMb);
    assert lie.Unital(lie.inverse(lie.identity)) && lie.Invertible(lie.identity);
    forall i | 0 <= i < |a.axes| ensures lie.adjoint(lie.inverse(lie.identity), a.axes[i]) == a.axes[i] {
      assert lie.AdjointOfIdentity(a.axes[i]);
    }
    assert MoveAxes(lie, lie.inverse(lie.identity), a.axes) == a.axes;
  }

  lemma {:induction false} ComposedSplits<G(!new), A(!new)>(lie: LieGroup<G, A>, xs: seq<Chain<G, A>>,
                                                            ys: seq<Chain<G, A>>)
    requires lie.Laws()
    ensures Composed(lie, xs + ys) == Then(lie, Composed(lie, xs), Composed(lie, ys))
  {
    if ys == [] {
      assert xs + ys == xs;
      EmptyChainIsIdentity(lie, Composed(lie, xs));
    } else {
      var n := |ys| - 1;
      ComposedSplits(lie, xs, ys[..n]);
      assert (xs + ys)[..|xs + ys| - 1] == xs + ys[..n];
      ThenIsAssociative(lie, Composed(lie, xs), Composed(lie, ys[..n]), ys[n]);
    }
  }

  // ---------------------------------------------------------------------------------------
  // The product of exponentials

  /** Each joint's displacement at its angle. */
  function Exponentials<G(!new), A(!new)>(lie: LieGroup<G, A>, axes: seq<A>, q: seq<real>): (r: seq<G>)
    requires |q| == |axes|
    ensures |r| == |q| && forall i :: 0 <= i < |r| ==> r[i] == lie.exp(lie.scale(axes[i], q[i]))
  {
    seq(|q|, i requires 0 <= i < |q| => lie.exp(lie.scale(axes[i], q[i])))
  }

  /** The end pose of a chain at joint angles `q`. */
  function EndPose<G(!new), A(!new)>(lie: LieGroup<G, A>, chain: Chain<G, A>, q: seq<real>): G
    requires |q| == |chain.axes|
  {
    lie.compose(chain.sMb, lie.Product(Exponentials(lie, chain.axes, q)))
  }

  function Tool<G(!new), A(!new)>(lie: LieGroup<G, A>, fTe: Option<G>): G {
    if fTe.Some? then fTe.value else lie.identity
  }

  /** Everything after joint `j`: the later joints' displacements, then the tool. */
  function After<G(!new), A(!new)>(lie: LieGroup<G, A>, exps: seq<G>, j: nat, tool: G): G
    requires j < |exps|
  {
    lie.compose(lie.Product(exps[j + 1..]), tool)
  }

  /** `jacobian` has, for each joint, its axis seen from the end past everything after it. */
  ghost predicate IsJacobian<G(!new), A(!new)>(lie: LieGroup<G, A>, axes: seq<A>, exps: seq<G>, tool: G,
                                               jacobian: seq<A>)
  {
    && |jacobian| == |axes| == |exps|
    && forall j :: 0 <= j < |axes| ==> jacobian[j] == lie.adjoint(lie.inverse(After(lie, exps, j, tool)), axes[j])
  }

  /**
   * The end pose, and the Jacobian when asked for. Fails when there is not one angle per axis.
   * The pose is the same on the path with the Jacobian and on the one without.
   */
  method Poe<G(!new), A(!new)>(lie: LieGroup<G, A>, chain: Chain<G, A>, q: seq<real>, fTe: Option<G>,
                               withJacobian: bool)
    returns (r: Result<(G, Option<seq<A>>)>)
    requires lie.Laws()
    ensures r.Ok? <==> |q| == |chain.axes|
    ensures r.Ok? ==> r.value.0 == lie.compose(EndPose(lie, chain, q), Tool(lie, fTe))
    ensures r.Ok? ==> (r.value.1.Some? <==> withJacobian)
    ensures r.Ok? && withJacobian ==>
      IsJacobian(lie, chain.axes, Exponentials(lie, chain.axes, q), Tool(lie, fTe), r.value.1.value)
  {
    if |q| != |chain.axes| {
      return Err(WrongSize);
    }
    var exps := DisplacementLoop(lie, chain.axes, q);
    assert lie.Unital(EndPose(lie, chain, q));
    if !withJacobian {
      var pose := PoseLoop(lie, chain.sMb, exps);
      if fTe.Some? {
        pose := lie.compose(pose, fTe.value);
      }
      r := Ok((pose, None));
    } else {
      var total := JacobianLoop(lie, chain, exps);
      ghost var before := total.axes;
      if fTe.Some? {
        total := Then(lie, total, Chain(fTe.value, []));
        MoveJacobian(lie, chain.axes, exps, before, fTe.value, total.axes);
      }
      r := Ok((total.sMb, Some(total.axes)));
    }
  }

  method DisplacementLoop<G(!new), A(!new)>(lie: LieGroup<G, A>, axes: seq<A>, q: seq<real>) returns (exps: seq<G>)
    requires |q| == |axes|
    ensures exps == Exponentials(lie, axes, q)
  {
    exps := [];
    for i := 0 to |q|
      invariant |exps| == i && forall j :: 0 <= j < i ==> exps[j] == lie.exp(lie.scale(axes[j], q[j]))
    {
      exps := exps + [lie.exp(lie.scale(axes[i], q[i]))];
    }
  }

  method PoseLoop<G(!new), A(!new)>(lie: LieGroup<G, A>, start: G, exps: seq<G>) returns (pose: G)
    requires lie.Laws()
    ensures pose == lie.compose(start, lie.Product(exps))
  {
    pose := start;
    assert lie.Unital(start);
    for i := 0 to |exps|
      invariant pose == lie.compose(start, lie.Product(exps[..i]))
    {
      assert exps[..i + 1][..i] == exps[..i];
      assert lie.Associates(start, lie.Product(exps[..i]), exps[i]);
      pose := lie.compose(pose, exps[i]);
    }
    assert exps[..|exps|] == exps;
  }

  /** The monoid composition of one-joint chains displaced by the joint angles. */
  method JacobianLoop<G(!new), A(!new)>(lie: LieGroup<G, A>, chain: Chain<G, A>, exps: seq<G>)
    returns (total: Chain<G, A>)
    requires lie.Laws() && |exps| == |chain.axes|
    ensures total.sMb == lie.compose(chain.sMb, lie.Product(exps))
    ensures IsJacobian(lie, chain.axes, exps, lie.identity, total.axes)
  {
    total := Chain(chain.sMb, []);
    assert lie.Unital(chain.sMb);
    for i := 0 to |exps|
      invariant total.sMb == lie.compose(chain.sMb, lie.Product(exps[..i]))
      invariant IsJacobian(lie, chain.axes[..i], exps[..i], lie.identity, total.axes)
    {
      ghost var before := total.axes;
      assert lie.Associates(chain.sMb, lie.Product(exps[..i]), exps[i]);
      total := Then(lie, total, Chain(exps[i], [chain.axes[i]]));
      assert exps[..i + 1] == exps[..i] + [exps[i]] && chain.axes[..i + 1] == chain.axes[..i] + [chain.axes[i]];
      lie.ProductAppend(exps[..i], exps[i]);
      ExtendJacobian(lie, chain.axes[..i], exps[..i], before, chain.axes[i], exps[i]);
    }
    assert exps[..|exps|] == exps && chain.axes[..|exps|] == chain.axes;
  }

  /** A further displacement at the end moves every column. */
  lemma MoveJacobian<G(!new), A(!new)>(lie: LieGroup<G, A>, axes: seq<A>, exps: seq<G>, jacobian: seq<A>, tool: G,
                                       moved: seq<A>)
    requires lie.Laws() && IsJacobian(lie, axes, exps, lie.identity, jacobian)
    requires moved == MoveAxes(lie, lie.inverse(tool), jacobian)
    ensures IsJacobian(lie, axes, exps, tool, moved)
  {
    forall j | 0 <= j < |axes| ensures moved[j] == lie.adjoint(lie.inverse(After(lie, exps, j, tool)), axes[j]) {
      var later := lie.Product(exps[j + 1..]);
      assert lie.Unital(later);
      MoveColumn(lie, later, tool, axes[j]);
    }
  }

  lemma MoveColumn<G(!new), A(!new)>(lie: LieGroup<G, A>, later: G, further: G, axis: A)
    requires lie.Laws()
    ensures lie.adjoint(lie.inverse(further), lie.adjoint(lie.inverse(later), axis))
         == lie.adjoint(lie.inverse(lie.compose(later, further)), axis)
  {
    lie.InverseOfProduct(later, further);
    assert lie.AdjointComposes(lie.inverse(further), lie.inverse(later), axis);
  }

  /** One more joint: earlier columns are moved past it, and its own axis is the last column. */
  lemma ExtendJacobian<G(!new), A(!new)>(lie: LieGroup<G, A>, axes: seq<A>, exps: seq<G>, jacobian: seq<A>, axis: A,
                                         last: G)
    requires lie.Laws() && IsJacobian(lie, axes, exps, lie.identity, jacobian)
    ensures IsJacobian(lie, axes + [axis], exps + [last], lie.identity,
                       MoveAxes(lie, lie.inverse(last), jacobian) + [axis])
  {
    var moved := MoveAxes(lie, lie.inverse(last), jacobian);
    var all := exps + [last];
    forall j | 0 <= j < |axes| ensures moved[j] == lie.adjoint(lie.inverse(After(lie, all, j, lie.identity)), axes[j]) {
      assert all[j + 1..] == exps[j + 1..] + [last];
      lie.ProductAppend(exps[j + 1..], last);
      assert lie.Unital(lie.Product(exps[j + 1..])) && lie.Unital(lie.Product(all[j + 1..]));
      MoveColumn(lie, lie.Product(exps[j + 1..]), last, axes[j]);
    }
    assert all[|axes| + 1..] == [];
    assert lie.Unital(lie.identity) && lie.Invertible(lie.identity) && lie.AdjointOfIdentity(axis);
    assert lie.Unital(lie.inverse(lie.identity));
  }

  // ---------------------------------------------------------------------------------------
  // Composition preserves kinematics

  function Conjugate<G(!new), A(!new)>(lie: LieGroup<G, A>, g: G, h: G): G {
    lie.compose(lie.compose(g, h), lie.inverse(g))
  }

  function Conjugates<G(!new), A(!new)>(lie: LieGroup<G, A>, g: G, poses: seq<G>): (r: seq<G>)
    ensures |r| == |poses| && forall i :: 0 <= i < |r| ==> r[i] == Conjugate(lie, g, poses[i])
  {
    seq(|poses|, i requires 0 <= i < |poses| => Conjugate(lie, g, poses[i]))
  }

  lemma ConjugateOfProduct<G(!new), A(!new)>(lie: LieGroup<G, A>, g: G, a: G, b: G)
    requires lie.Laws()
    ensures lie.compose(Conjugate(lie, g, a), Conjugate(lie, g, b)) == Conjugate(lie, g, lie.compose(a, b))
  {
    var ga, gb, gi := lie.compose(g, a), lie.compose(g, b), lie.inverse(g);
    assert lie.Associates(lie.compose(ga, gi), gb, gi);
    assert lie.Associates(ga, gi, gb);
    lie.CancelLeft(g, b);
    assert lie.Associates(g, a, b);
  }

  lemma {:induction false} ProductOfConjugates<G(!new), A(!new)>(lie: LieGroup<G, A>, g: G, poses: seq<G>)
    requires lie.Laws()
    ensures lie.Product(Conjugates(lie, g, poses)) == Conjugate(lie, g, lie.Product(poses))
  {
    if poses == [] {
      assert lie.Unital(g) && lie.Invertible(g);
    } else {
      var n := |poses| - 1;
      assert Conjugates(lie, g, poses)[..n] == Conjugates(lie, g, poses[..n]);
      ProductOfConjugates(lie, g, poses[..n]);
      ConjugateOfProduct(lie, g, lie.Product(poses[..n]), poses[n]);
    }
  }

  /** The displacements of a composed chain: the first part's seen from the second's rest frame. */
  lemma ExponentialsOfThen<G(!new), A(!new)>(lie: LieGroup<G, A>, a: Chain<G, A>, b: Chain<G, A>, qa: seq<real>,
                                             qb: seq<real>)
    requires lie.Laws() && |qa| == |a.axes| && |qb| == |b.axes|
    ensures Exponentials(lie, Then(lie, a, b).axes, qa + qb)
         == Conjugates(lie, lie.inverse(b.sMb), Exponentials(lie, a.axes, qa)) + Exponentials(lie, b.axes, qb)
  {
    var g := lie.inverse(b.sMb);
    forall i | 0 <= i < |qa|
      ensures lie.exp(lie.scale(lie.adjoint(g, a.axes[i]), qa[i]))
           == Conjugate(lie, g, lie.exp(lie.scale(a.axes[i], qa[i])))
    {
      assert lie.AdjointScales(g, a.axes[i], qa[i]);
      assert lie.ExpConjugates(g, lie.scale(a.axes[i], qa[i]));
    }
  }

  /** The end of a composed chain is reached by reaching the end of each part in turn. */
  lemma EndPoseOfThen<G(!new), A(!new)>(lie: LieGroup<G, A>, a: Chain<G, A>, b: Chain<G, A>, qa: seq<real>,
                                        qb: seq<real>)
    requires lie.Laws() && |qa| == |a.axes| && |qb| == |b.axes|
    ensures EndPose(lie, Then(lie, a, b), qa + qb) == lie.compose(EndPose(lie, a, qa), EndPose(lie, b, qb))
  {
    var g := lie.inverse(b.sMb);
    var ea, eb := Exponentials(lie, a.axes, qa), Exponentials(lie, b.axes, qb);
    ExponentialsOfThen(lie, a, b, qa, qb);
    lie.ProductSplit(Conjugates(lie, g, ea), eb);
    ProductOfConjugates(lie, g, ea);
    EndPoseAlgebra(lie, a.sMb, b.sMb, lie.Product(ea), lie.Product(eb));
  }

  lemma EndPoseAlgebra<G(!new), A(!new)>(lie: LieGroup<G, A>, sa: G, sb: G, pa: G, pb: G)
    requires lie.Laws()
    ensures lie.compose(lie.compose(sa, sb), lie.compose(Conjugate(lie, lie.inverse(sb), pa), pb))
         == lie.compose(lie.compose(sa, pa), lie.compose(sb, pb))
  {
    var c := Conjugate(lie, lie.inverse(sb), pa);
    lie.InverseOfInverse(sb);
    assert lie.Associates(lie.inverse(sb), pa, sb) && lie.Associates(sa, sb, lie.compose(c, pb));
    assert lie.Associates(sb, c, pb) && lie.Associates(pa, sb, pb) && lie.Associates(sa, pa, lie.compose(sb, pb));
    lie.CancelLeft(sb, lie.compose(pa, sb));
  }

  /** The Jacobian of a composed chain: the first part's, seen past the second, then the second's. */
  lemma JacobianOfThen<G(!new), A(!new)>(lie: LieGroup<G, A>, a: Chain<G, A>, b: Chain<G, A>, qa: seq<real>,
                                         qb: seq<real>,
                                         ja: seq<A>, jb: seq<A>)
    requires lie.Laws() && |qa| == |a.axes| && |qb| == |b.axes|
    requires IsJacobian(lie, a.axes, Exponentials(lie, a.axes, qa), lie.identity, ja)
    requires IsJacobian(lie, b.axes, Exponentials(lie, b.axes, qb), lie.identity, jb)
    ensures IsJacobian(lie, Then(lie, a, b).axes, Exponentials(lie, Then(lie, a, b).axes, qa + qb), lie.identity,
                       MoveAxes(lie, lie.inverse(EndPose(lie, b, qb)), ja) + jb)
  {
    var g := lie.inverse(b.sMb);
    var ea, eb := Exponentials(lie, a.axes, qa), Exponentials(lie, b.axes, qb);
    var e := Conjugates(lie, g, ea) + eb;
    ExponentialsOfThen(lie, a, b, qa, qb);
    var moved := MoveAxes(lie, lie.inverse(EndPose(lie, b, qb)), ja);
    FirstColumns(lie, b.sMb, a.axes, ea, eb, ja);
    SecondColumns(lie, b.axes, Conjugates(lie, g, ea), eb, jb);
    JoinColumns(lie, MoveAxes(lie, g, a.axes), b.axes, e, moved, jb);
  }

  /** The axes' columns, when the first of them belongs to the joint at position `from`. */
  ghost predicate AreColumns<G(!new), A(!new)>(lie: LieGroup<G, A>, axes: seq<A>, exps: seq<G>, from: nat,
                                               columns: seq<A>)
  {
    && |columns| == |axes| && from + |axes| <= |exps|
    && forall j :: 0 <= j < |axes| ==>
      columns[j] == lie.adjoint(lie.inverse(After(lie, exps, from + j, lie.identity)), axes[j])
  }

  lemma FirstColumns<G(!new), A(!new)>(lie: LieGroup<G, A>, sb: G, axes: seq<A>, ea: seq<G>, eb: seq<G>, ja: seq<A>)
    requires lie.Laws() && IsJacobian(lie, axes, ea, lie.identity, ja)
    ensures
      var e := Conjugates(lie, lie.inverse(sb), ea) + eb;
      var moved := MoveAxes(lie, lie.inverse(lie.compose(sb, lie.Product(eb))), ja);
      AreColumns(lie, MoveAxes(lie, lie.inverse(sb), axes), e, 0, moved)
  {
    forall j | 0 <= j < |axes|
      ensures lie.adjoint(lie.inverse(lie.compose(sb, lie.Product(eb))), ja[j])
           == lie.adjoint(lie.inverse(After(lie, Conjugates(lie, lie.inverse(sb), ea) + eb, 0 + j, lie.identity)),
                          lie.adjoint(lie.inverse(sb), axes[j]))
    {
      FirstColumn(lie, sb, ea, eb, j, axes[j]);
    }
  }

  lemma SecondColumns<G(!new), A(!new)>(lie: LieGroup<G, A>, axes: seq<A>, before: seq<G>, eb: seq<G>, jb: seq<A>)
    requires IsJacobian(lie, axes, eb, lie.identity, jb)
    ensures AreColumns(lie, axes, before + eb, |before|, jb)
  {
    forall j | 0 <= j < |axes|
      ensures jb[j] == lie.adjoint(lie.inverse(After(lie, before + eb, |before| + j, lie.identity)), axes[j])
    {
      assert (before + eb)[|before| + j + 1..] == eb[j + 1..];
    }
  }

  lemma JoinColumns<G(!new), A(!new)>(lie: LieGroup<G, A>, first: seq<A>, second: seq<A>, exps: seq<G>, ja: seq<A>,
                                      jb: seq<A>)
    requires |exps| == |first| + |second|
    requires AreColumns(lie, first, exps, 0, ja) && AreColumns(lie, second, exps, |first|, jb)
    ensures IsJacobian(lie, first + second, exps, lie.identity, ja + jb)
  {
    var n := |first|;
    forall j | 0 <= j < n + |second|
      ensures (ja + jb)[j] == lie.adjoint(lie.inverse(After(lie, exps, j, lie.identity)), (first + second)[j])
    {
      if j < n {
        assert ja[j] == lie.adjoint(lie.inverse(After(lie, exps, 0 + j, lie.identity)), first[j]);
      } else {
        assert jb[j - n] == lie.adjoint(lie.inverse(After(lie, exps, n + (j - n), lie.identity)), second[j - n]);
      }
    }
  }

  lemma FirstColumn<G(!new), A(!new)>(lie: LieGroup<G, A>, sb: G, ea: seq<G>, eb: seq<G>, j: nat, axis: A)
    requires lie.Laws() && j < |ea|
    ensures lie.adjoint(lie.inverse(lie.compose(sb, lie.Product(eb))),
                        lie.adjoint(lie.inverse(After(lie, ea, j, lie.identity)), axis))
         == lie.adjoint(lie.inverse(After(lie, Conjugates(lie, lie.inverse(sb), ea) + eb, j, lie.identity)),
                        lie.adjoint(lie.inverse(sb), axis))
  {
    var g, pa, pb := lie.inverse(sb), lie.Product(ea[j + 1..]), lie.Product(eb);
    var e := Conjugates(lie, g, ea) + eb;
    assert e[j + 1..] == Conjugates(lie, g, ea[j + 1..]) + eb;
    lie.ProductSplit(Conjugates(lie, g, ea[j + 1..]), eb);
    ProductOfConjugates(lie, g, ea[j + 1..]);
    assert lie.Unital(pa) && lie.Unital(lie.Product(e[j + 1..]));
    // After(e, j) is g · (pa · (sb · pb))
    var end := lie.compose(sb, pb);
    lie.InverseOfInverse(sb);
    assert lie.Associates(lie.compose(g, pa), sb, pb) && lie.Associates(g, pa, end);
    MoveColumn(lie, g, lie.compose(pa, end), lie.adjoint(g, axis));
    lie.AdjointUndone(g, axis);
    MoveColumn(lie, pa, end, axis);
  }

  // ---------------------------------------------------------------------------------------
  // Chains of joints

  /** The one-joint chain: rest pose and screw axis in the child. */
  function ChainOf<G(!new), A(!new)>(lie: LieGroup<G, A>, joint: Joint<G, A>): Chain<G, A> {
    Chain(RestPose(lie, joint), [joint.cScrewAxis])
  }

  function ChainsOf<G(!new), A(!new)>(lie: LieGroup<G, A>, joints: seq<Joint<G, A>>): (r: seq<Chain<G, A>>)
    ensures |r| == |joints| && forall i :: 0 <= i < |r| ==> r[i] == ChainOf(lie, joints[i])
  {
    seq(|joints|, i requires 0 <= i < |joints| => ChainOf(lie, joints[i]))
  }

  /** Crossing the joints one after another, parent to child. */
  function Cross<G(!new), A(!new)>(lie: LieGroup<G, A>, joints: seq<Joint<G, A>>, at: PoseTwist<G, A>, q: seq<real>,
                                   qDot: seq<real>): PoseTwist<G, A>
    requires |q| == |joints| == |qDot|
  {
    if joints == [] then at
    else
      var n := |joints| - 1;
      ChildPoseTwist(lie, joints[n], Cross(lie, joints[..n], at, q[..n], qDot[..n]), q[n], qDot[n])
  }

  /** A linear combination of Jacobian columns. */
  function Combine<G(!new), A(!new)>(lie: LieGroup<G, A>, jacobian: seq<A>, qDot: seq<real>): A
    requires |qDot| == |jacobian|
  {
    if jacobian == [] then lie.zero
    else
      var n := |jacobian| - 1;
      lie.add(Combine(lie, jacobian[..n], qDot[..n]), lie.scale(jacobian[n], qDot[n]))
  }

  lemma {:induction false} CombineMoved<G(!new), A(!new)>(lie: LieGroup<G, A>, g: G, jacobian: seq<A>, qDot: seq<real>)
    requires lie.Laws() && |qDot| == |jacobian|
    ensures Combine(lie, MoveAxes(lie, g, jacobian), qDot) == lie.adjoint(g, Combine(lie, jacobian, qDot))
  {
    if jacobian == [] {
      AdjointOfZero(lie, g);
    } else {
      var n := |jacobian| - 1;
      assert MoveAxes(lie, g, jacobian)[..n] == MoveAxes(lie, g, jacobian[..n]);
      CombineMoved(lie, g, jacobian[..n], qDot[..n]);
      assert lie.AdjointAdds(g, Combine(lie, jacobian[..n], qDot[..n]), lie.scale(jacobian[n], qDot[n]));
      assert lie.AdjointScales(g, jacobian[n], qDot[n]);
    }
  }

  lemma AdjointOfZero<G(!new), A(!new)>(lie: LieGroup<G, A>, g: G)
    requires lie.Laws()
    ensures lie.adjoint(g, lie.zero) == lie.zero
  {
    var z := lie.zero;
    assert lie.Cancels(z) && lie.AdjointAdds(g, z, lie.scale(z, -1.0)) && lie.AdjointScales(g, z, -1.0);
    assert lie.Cancels(lie.adjoint(g, z));
  }

  /** With a tool, the Jacobian times the joint velocities is the end's twist seen from the tool. */
  lemma ToolSeesTheTwist<G(!new), A(!new)>(lie: LieGroup<G, A>, axes: seq<A>, exps: seq<G>, tool: G,
                                           jacobian: seq<A>, atTool: seq<A>, qDot: seq<real>)
    requires lie.Laws() && |qDot| == |axes|
    requires IsJacobian(lie, axes, exps, lie.identity, jacobian) && IsJacobian(lie, axes, exps, tool, atTool)
    ensures Combine(lie, atTool, qDot) == lie.adjoint(lie.inverse(tool), Combine(lie, jacobian, qDot))
  {
    var moved := MoveAxes(lie, lie.inverse(tool), jacobian);
    MoveJacobian(lie, axes, exps, jacobian, tool, moved);
    assert moved == atTool;
    CombineMoved(lie, lie.inverse(tool), jacobian, qDot);
  }

  /**
   * Composition preserves kinematics: from any pose, the composed chain's end pose is where
   * crossing the joints one by one leads, and its Jacobian times the joint velocities is the
   * twist that crossing them produces from rest.
   */
  lemma {:induction false} CompositionPreservesKinematics<G(!new), A(!new)>(
      lie: LieGroup<G, A>, joints: seq<Joint<G, A>>, start: G, q: seq<real>, qDot: seq<real>, jacobian: seq<A>)
    requires lie.Laws() && |q| == |joints| == |qDot|
    requires
      var chain := Composed(lie, ChainsOf(lie, joints));
      |chain.axes| == |q| && IsJacobian(lie, chain.axes, Exponentials(lie, chain.axes, q), lie.identity, jacobian)
    ensures
      var chain := Composed(lie, ChainsOf(lie, joints));
      && |chain.axes| == |jacobian| == |joints|
      && Cross(lie, joints, PoseTwist(start, lie.zero), q, qDot)
         == PoseTwist(lie.compose(start, EndPose(lie, chain, q)), Combine(lie, jacobian, qDot))
  {
    if joints == [] {
      assert lie.Unital(lie.identity) && lie.Unital(start);
    } else {
      var n := |joints| - 1;
      var cs := ChainsOf(lie, joints);
      assert cs[..n] == ChainsOf(lie, joints[..n]);
      ChainLength(lie, joints[..n]);
      var first, last := Composed(lie, cs[..n]), ChainOf(lie, joints[n]);
      var ja := JacobianAt(lie, first, q[..n]);
      CompositionPreservesKinematics(lie, joints[..n], start, q[..n], qDot[..n], ja);
      OneMoreJoint(lie, first, joints[n], start, q, qDot, ja, jacobian);
    }
  }

  lemma {:induction false} ChainLength<G(!new), A(!new)>(lie: LieGroup<G, A>, joints: seq<Joint<G, A>>)
    ensures |Composed(lie, ChainsOf(lie, joints)).axes| == |joints|
  {
    if joints != [] {
      ChainLength(lie, joints[..|joints| - 1]);
      assert ChainsOf(lie, joints)[..|joints| - 1] == ChainsOf(lie, joints[..|joints| - 1]);
    }
  }

  /** The Jacobian as a value. */
  function JacobianAt<G(!new), A(!new)>(lie: LieGroup<G, A>, chain: Chain<G, A>, q: seq<real>): (jacobian: seq<A>)
    requires |q| == |chain.axes|
    ensures IsJacobian(lie, chain.axes, Exponentials(lie, chain.axes, q), lie.identity, jacobian)
  {
    var exps := Exponentials(lie, chain.axes, q);
    seq(|q|, j requires 0 <= j < |q| => lie.adjoint(lie.inverse(After(lie, exps, j, lie.identity)), chain.axes[j]))
  }

  lemma OneMoreJoint<G(!new), A(!new)>(lie: LieGroup<G, A>, first: Chain<G, A>, joint: Joint<G, A>, start: G,
                                       q: seq<real>, qDot: seq<real>, ja: seq<A>, jacobian: seq<A>)
    requires lie.Laws() && |q| == |qDot| == |first.axes| + 1
    requires IsJacobian(lie, first.axes, Exponentials(lie, first.axes, q[..|q| - 1]), lie.identity, ja)
    requires
      var chain := Then(lie, first, ChainOf(lie, joint));
      IsJacobian(lie, chain.axes, Exponentials(lie, chain.axes, q), lie.identity, jacobian)
    ensures
      var n := |q| - 1;
      var chain := Then(lie, first, ChainOf(lie, joint));
      && |jacobian| == |q|
      && ChildPoseTwist(lie, joint,
                        PoseTwist(lie.compose(start, EndPose(lie, first, q[..n])), Combine(lie, ja, qDot[..n])),
                        q[n], qDot[n])
         == PoseTwist(lie.compose(start, EndPose(lie, chain, q)), Combine(lie, jacobian, qDot))
  {
    var n, last := |q| - 1, ChainOf(lie, joint);
    var pTc := ParentTchild(lie, joint, q[n]);
    OneJointChain(lie, joint, q[n]);
    assert q == q[..n] + [q[n]];
    EndPoseOfThen(lie, first, last, q[..n], [q[n]]);
    assert lie.Associates(start, EndPose(lie, first, q[..n]), pTc);
    JacobianOfThen(lie, first, last, q[..n], [q[n]], ja, [joint.cScrewAxis]);
    var moved := MoveAxes(lie, lie.inverse(pTc), ja);
    assert jacobian == moved + [joint.cScrewAxis];
    assert jacobian[..n] == moved;
    CombineMoved(lie, lie.inverse(pTc), ja, qDot[..n]);
  }

  lemma OneJointChain<G(!new), A(!new)>(lie: LieGroup<G, A>, joint: Joint<G, A>, q: real)
    requires lie.Laws()
    ensures EndPose(lie, ChainOf(lie, joint), [q]) == ParentTchild(lie, joint, q)
    ensures IsJacobian(lie, [joint.cScrewAxis], Exponentials(lie, [joint.cScrewAxis], [q]), lie.identity,
                       [joint.cScrewAxis])
  {
    var e := Exponentials(lie, [joint.cScrewAxis], [q]);
    assert e[..0] == [] && e[1..] == [];
    assert lie.Product(e) == lie.compose(lie.Product(e[..0]), e[0]);
    assert lie.Unital(e[0]) && lie.Unital(lie.identity) && lie.Invertible(lie.identity);
    assert lie.Unital(lie.inverse(lie.identity)) && lie.AdjointOfIdentity(joint.cScrewAxis);
  }

  /** The chain of a leg with three joints. */
  method BuildChain<G(!new), A(!new)>(lie: LieGroup<G, A>, joints: seq<Joint<G, A>>) returns (chain: Chain<G, A>)
    requires lie.Laws() && |joints| >= 3
    ensures |chain.axes| == 3
    ensures forall q0, q1, q2 :: EndPose(lie, chain, [q0, q1, q2]) == LegPose(lie, joints, q0, q1, q2)
  {
    var chain1 := Chain(RestPose(lie, joints[0]), [joints[0].cScrewAxis]);
    var chain2 := Chain(RestPose(lie, joints[1]), [joints[1].cScrewAxis]);
    var chain3 := Chain(RestPose(lie, joints[2]), [joints[2].cScrewAxis]);
    chain := Compose(lie, [chain1, chain2, chain3]);
    assert ChainsOf(lie, joints[..3]) == [chain1, chain2, chain3];
    ChainLength(lie, joints[..3]);
    forall q0, q1, q2 ensures EndPose(lie, chain, [q0, q1, q2]) == LegPose(lie, joints, q0, q1, q2) {
      LegPoseAsCrossing(lie, joints[..3], [q0, q1, q2]);
    }
  }

  /** Hip, upper and lower joint, one after another. */
  ghost function LegPose<G(!new), A(!new)>(lie: LieGroup<G, A>, joints: seq<Joint<G, A>>, q0: real, q1: real,
                                           q2: real): G
    requires |joints| >= 3
  {
    lie.compose(lie.compose(ParentTchild(lie, joints[0], q0), ParentTchild(lie, joints[1], q1)),
                ParentTchild(lie, joints[2], q2))
  }

  lemma LegPoseAsCrossing<G(!new), A(!new)>(lie: LieGroup<G, A>, joints: seq<Joint<G, A>>, q: seq<real>)
    requires lie.Laws() && |joints| == |q| == 3
    ensures |Composed(lie, ChainsOf(lie, joints)).axes| == 3
    ensures EndPose(lie, Composed(lie, ChainsOf(lie, joints)), q) == LegPose(lie, joints, q[0], q[1], q[2])
  {
    var at, rest := PoseTwist(lie.identity, lie.zero), [0.0, 0.0, 0.0];
    ChainLength(lie, joints);
    var chain := Composed(lie, ChainsOf(lie, joints));
    CompositionPreservesKinematics(lie, joints, lie.identity, q, rest, JacobianAt(lie, chain, q));
    assert lie.Unital(EndPose(lie, chain, q)) && lie.Unital(ParentTchild(lie, joints[0], q[0]));
    assert joints[..2][..1] == joints[..1] && q[..2][..1] == q[..1] && rest[..2][..1] == rest[..1];
    assert Cross(lie, joints[..1], at, q[..1], rest[..1]).pose == ParentTchild(lie, joints[0], q[0]);
    assert Cross(lie, joints[..2], at, q[..2], rest[..2]).pose
        == lie.compose(ParentTchild(lie, joints[0], q[0]), ParentTchild(lie, joints[1], q[1]));
  }
}

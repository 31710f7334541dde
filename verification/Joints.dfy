/**
 * Joints: the relative pose and twist of the two links a joint connects (Joint).
 */
module Joints {
  import opened Prelude
  import opened LieGroups

  type LinkId = nat
  type JointId = nat

  /** A joint between two links; the screw axes are expressed in the two links' frames. */
  datatype Joint<G, A> = Joint(
    id: JointId, parent: LinkId, child: LinkId, jMp: G, jMc: G, pScrewAxis: A, cScrewAxis: A)

  /** Builds a joint from rest poses in the base frame and a screw axis in the joint frame. */
  function MakeJoint<G(!new), A(!new)>(lie: LieGroup<G, A>, id: JointId, parent: LinkId, child: LinkId,
                                       bTj: G, bMp: G, bMc: G, jScrewAxis: A): Joint<G, A>
  {
    var jMp := lie.compose(lie.inverse(bTj), bMp);
    var jMc := lie.compose(lie.inverse(bTj), bMc);
    Joint(id, parent, child, jMp, jMc,
          lie.scale(lie.adjoint(lie.inverse(jMp), jScrewAxis), -1.0),
          lie.adjoint(lie.inverse(jMc), jScrewAxis))
  }

  /** The pose of the child in the parent at rest. */
  function RestPose<G(!new), A(!new)>(lie: LieGroup<G, A>, joint: Joint<G, A>): G {
    lie.compose(lie.inverse(joint.jMp), joint.jMc)
  }

  /** At rest, the two screw axes are one motion seen from either link, with opposite signs. */
  ghost predicate AxesAgree<G(!new), A(!new)>(lie: LieGroup<G, A>, joint: Joint<G, A>) {
    joint.pScrewAxis == lie.scale(lie.adjoint(RestPose(lie, joint), joint.cScrewAxis), -1.0)
  }

  lemma MadeJointsAgree<G(!new), A(!new)>(lie: LieGroup<G, A>, id: JointId, parent: LinkId, child: LinkId,
                                          bTj: G, bMp: G, bMc: G, jScrewAxis: A)
    requires lie.Laws()
    ensures AxesAgree(lie, MakeJoint(lie, id, parent, child, bTj, bMp, bMc, jScrewAxis))
  {
    var joint := MakeJoint(lie, id, parent, child, bTj, bMp, bMc, jScrewAxis);
    assert lie.AdjointComposes(lie.inverse(joint.jMp), joint.jMc, joint.cScrewAxis);
    lie.AdjointUndone(joint.jMc, jScrewAxis);
  }

  /** The rest pose does not depend on where the joint frame is: it is `bMp⁻¹ · bMc`. */
  lemma MadeJointRestPose<G(!new), A(!new)>(lie: LieGroup<G, A>, id: JointId, parent: LinkId, child: LinkId,
                                            bTj: G, bMp: G, bMc: G, jScrewAxis: A)
    requires lie.Laws()
    ensures RestPose(lie, MakeJoint(lie, id, parent, child, bTj, bMp, bMc, jScrewAxis))
         == lie.compose(lie.inverse(bMp), bMc)
  {
    var jTb := lie.inverse(bTj);
    lie.InverseOfProduct(jTb, bMp);
    lie.InverseOfInverse(bTj);
    assert lie.Associates(lie.inverse(bMp), bTj, lie.compose(jTb, bMc));
    lie.CancelLeft(bTj, bMc);
  }

  /** Whether the link is the child; fails for a link the joint does not connect. */
  function IsChildLink<G, A>(joint: Joint<G, A>, link: LinkId): Result<bool> {
    if link != joint.child && link != joint.parent then Err(NotConnected) else Ok(link == joint.child)
  }

  function OtherLink<G, A>(joint: Joint<G, A>, link: LinkId): Result<LinkId> {
    match IsChildLink(joint, link)
    case Err(e) => Err(e)
    case Ok(isChild) => Ok(if isChild then joint.parent else joint.child)
  }

  /** The pose of the child in the parent at joint angle `q`. */
  function ParentTchild<G(!new), A(!new)>(lie: LieGroup<G, A>, joint: Joint<G, A>, q: real): G {
    lie.compose(RestPose(lie, joint), lie.exp(lie.scale(joint.cScrewAxis, q)))
  }

  function ChildTparent<G(!new), A(!new)>(lie: LieGroup<G, A>, joint: Joint<G, A>, q: real): G {
    lie.inverse(ParentTchild(lie, joint, q))
  }

  function RelativePoseOf<G(!new), A(!new)>(lie: LieGroup<G, A>, joint: Joint<G, A>, link: LinkId, q: real): Result<G> {
    match IsChildLink(joint, link)
    case Err(e) => Err(e)
    case Ok(isChild) => Ok(if isChild then ParentTchild(lie, joint, q) else ChildTparent(lie, joint, q))
  }

  /** The world pose of a link, given the other link's. */
  function PoseOf<G(!new), A(!new)>(lie: LieGroup<G, A>, joint: Joint<G, A>, link: LinkId, other: G,
                                    q: real): Result<G>
  {
    match RelativePoseOf(lie, joint, link, q)
    case Err(e) => Err(e)
    case Ok(relative) => Ok(lie.compose(other, relative))
  }

  function ScrewAxis<G, A>(joint: Joint<G, A>, link: LinkId): Result<A> {
    match IsChildLink(joint, link)
    case Err(e) => Err(e)
    case Ok(isChild) => Ok(if isChild then joint.cScrewAxis else joint.pScrewAxis)
  }

  /** The twist of a link, given the other link's twist, if any, and the joint velocity. */
  function TransformTwistTo<G(!new), A(!new)>(lie: LieGroup<G, A>, joint: Joint<G, A>, link: LinkId,
                                              q: real, qDot: real, otherTwist: Option<A>): Result<A>
  {
    match OtherLink(joint, link)
    case Err(e) => Err(e)
    case Ok(other) =>
      var twist := if otherTwist.Some? then otherTwist.value else lie.zero;
      match RelativePoseOf(lie, joint, other, q)
      case Err(e) => Err(e)
      case Ok(relative) =>
        match ScrewAxis(joint, link)
        case Err(e) => Err(e)
        case Ok(axis) => Ok(lie.add(lie.adjoint(relative, twist), lie.scale(axis, qDot)))
  }

  /** A link's pose in the world and its twist in its own frame. */
  datatype PoseTwist<G, A> = PoseTwist(pose: G, twist: A)

  function ChildPoseTwist<G(!new), A(!new)>(lie: LieGroup<G, A>, joint: Joint<G, A>, at: PoseTwist<G, A>,
                                            q: real, qDot: real): PoseTwist<G, A>
  {
    var pTc := ParentTchild(lie, joint, q);
    PoseTwist(lie.compose(at.pose, pTc),
              lie.add(lie.adjoint(lie.inverse(pTc), at.twist), lie.scale(joint.cScrewAxis, qDot)))
  }

  function ParentPoseTwist<G(!new), A(!new)>(lie: LieGroup<G, A>, joint: Joint<G, A>, at: PoseTwist<G, A>,
                                             q: real, qDot: real): PoseTwist<G, A>
  {
    var pTc := ParentTchild(lie, joint, q);
    PoseTwist(lie.compose(at.pose, lie.inverse(pTc)),
              lie.add(lie.adjoint(pTc, at.twist), lie.scale(joint.pScrewAxis, qDot)))
  }

  /** The other link's pose and twist. */
  function OtherPoseTwist<G(!new), A(!new)>(lie: LieGroup<G, A>, joint: Joint<G, A>, link: LinkId, at: PoseTwist<G, A>,
                                            q: real, qDot: real): Result<PoseTwist<G, A>>
  {
    match IsChildLink(joint, link)
    case Err(e) => Err(e)
    case Ok(isChild) =>
      Ok(if isChild then ParentPoseTwist(lie, joint, at, q, qDot) else ChildPoseTwist(lie, joint, at, q, qDot))
  }

  // ---------------------------------------------------------------------------------------
  // Properties

  /** The screw axes agree at every joint angle, because a rotation about an axis keeps the axis. */
  lemma AxesAgreeAtEveryAngle<G(!new), A(!new)>(lie: LieGroup<G, A>, joint: Joint<G, A>, q: real)
    requires lie.Laws() && AxesAgree(lie, joint)
    ensures joint.pScrewAxis == lie.scale(lie.adjoint(ParentTchild(lie, joint, q), joint.cScrewAxis), -1.0)
  {
    assert lie.AdjointComposes(RestPose(lie, joint), lie.exp(lie.scale(joint.cScrewAxis, q)), joint.cScrewAxis);
    assert lie.ExpKeepsAxis(joint.cScrewAxis, q);
  }

  /** The joint's own motion, seen from the parent, is undone by the parent's share of it. */
  lemma JointMotionCancels<G(!new), A(!new)>(lie: LieGroup<G, A>, joint: Joint<G, A>, q: real, qDot: real)
    requires lie.Laws() && AxesAgree(lie, joint)
    ensures lie.scale(joint.pScrewAxis, qDot)
         == lie.scale(lie.adjoint(ParentTchild(lie, joint, q), lie.scale(joint.cScrewAxis, qDot)), -1.0)
  {
    var pTc := ParentTchild(lie, joint, q);
    AxesAgreeAtEveryAngle(lie, joint, q);
    lie.NegateThenScale(lie.adjoint(pTc, joint.cScrewAxis), qDot);
    assert lie.AdjointScales(pTc, joint.cScrewAxis, qDot);
  }

  /** Going to the child and back to the parent changes neither pose nor twist. */
  lemma ParentUndoesChild<G(!new), A(!new)>(lie: LieGroup<G, A>, joint: Joint<G, A>, at: PoseTwist<G, A>, q: real,
                                            qDot: real)
    requires lie.Laws() && AxesAgree(lie, joint)
    ensures ParentPoseTwist(lie, joint, ChildPoseTwist(lie, joint, at, q, qDot), q, qDot) == at
  {
    var pTc := ParentTchild(lie, joint, q);
    lie.CancelRight(at.pose, pTc);
    var carried, own := lie.adjoint(lie.inverse(pTc), at.twist), lie.scale(joint.cScrewAxis, qDot);
    assert lie.AdjointAdds(pTc, carried, own);
    lie.AdjointUndone(pTc, at.twist);
    JointMotionCancels(lie, joint, q, qDot);
    lie.AddThenSubtract(at.twist, lie.adjoint(pTc, own));
  }

  /** Going to the parent and back to the child changes neither pose nor twist. */
  lemma ChildUndoesParent<G(!new), A(!new)>(lie: LieGroup<G, A>, joint: Joint<G, A>, at: PoseTwist<G, A>, q: real,
                                            qDot: real)
    requires lie.Laws() && AxesAgree(lie, joint)
    ensures ChildPoseTwist(lie, joint, ParentPoseTwist(lie, joint, at, q, qDot), q, qDot) == at
  {
    var pTc := ParentTchild(lie, joint, q);
    lie.CancelRight(at.pose, pTc);
    var carried, own := lie.adjoint(pTc, at.twist), lie.scale(joint.cScrewAxis, qDot);
    JointMotionCancels(lie, joint, q, qDot);
    var back := lie.scale(lie.adjoint(pTc, own), -1.0);
    assert lie.AdjointAdds(lie.inverse(pTc), carried, back);
    assert lie.AdjointScales(lie.inverse(pTc), lie.adjoint(pTc, own), -1.0);
    lie.AdjointUndone(pTc, at.twist);
    lie.AdjointUndone(pTc, own);
    lie.AddThenSubtract(at.twist, own);
  }

  /** Crossing a joint and crossing it back is the identity, from either side. */
  lemma CrossingBack<G(!new), A(!new)>(lie: LieGroup<G, A>, joint: Joint<G, A>, link: LinkId, at: PoseTwist<G, A>,
                                       q: real, qDot: real)
    requires lie.Laws() && AxesAgree(lie, joint)
    requires joint.parent != joint.child && (link == joint.parent || link == joint.child)
    ensures var other, there := OtherLink(joint, link).value, OtherPoseTwist(lie, joint, link, at, q, qDot).value;
      OtherPoseTwist(lie, joint, other, there, q, qDot) == Ok(at)
  {
    ParentUndoesChild(lie, joint, at, q, qDot);
    ChildUndoesParent(lie, joint, at, q, qDot);
  }

  /** The three ways of moving a pose or a twist across a joint agree. */
  lemma TransformsAgree<G(!new), A(!new)>(lie: LieGroup<G, A>, joint: Joint<G, A>, link: LinkId, at: PoseTwist<G, A>,
                                          q: real, qDot: real)
    requires joint.parent != joint.child
    ensures var across, other := OtherPoseTwist(lie, joint, link, at, q, qDot), OtherLink(joint, link);
      && (across.Ok? <==> other.Ok?)
      && (across.Ok? ==> PoseOf(lie, joint, other.value, at.pose, q) == Ok(across.value.pose))
      && (across.Ok? ==> TransformTwistTo(lie, joint, other.value, q, qDot, Some(at.twist)) == Ok(across.value.twist))
    ensures TransformTwistTo(lie, joint, link, q, qDot, None)
         == TransformTwistTo(lie, joint, link, q, qDot, Some(lie.zero))
  {
  }

  // ---------------------------------------------------------------------------------------
  // A joint as it was described: rest poses in the base frame, and an axis in the joint frame

  /** The motion of the child about the axis, in the base frame. */
  ghost function JointMotion<G(!new), A(!new)>(lie: LieGroup<G, A>, bTj: G, jScrewAxis: A, q: real): G {
    lie.compose(bTj, lie.compose(lie.exp(lie.scale(jScrewAxis, q)), lie.inverse(bTj)))
  }

  /**
   * Parent and child stand as at rest but for the child's motion about the joint axis, and in the
   * world the child moves as the parent does and about the axis besides.
   */
  ghost predicate JointRelates<G(!new), A(!new)>(lie: LieGroup<G, A>, bTj: G, bMp: G, bMc: G, jScrewAxis: A,
                                                 p: PoseTwist<G, A>, c: PoseTwist<G, A>, q: real, qDot: real)
  {
    && lie.compose(lie.inverse(p.pose), c.pose)
       == lie.compose(lie.inverse(bMp), lie.compose(JointMotion(lie, bTj, jScrewAxis, q), bMc))
    && lie.adjoint(c.pose, c.twist)
       == lie.add(lie.adjoint(p.pose, p.twist),
                  lie.adjoint(lie.compose(c.pose, lie.compose(lie.inverse(bMc), bTj)), lie.scale(jScrewAxis, qDot)))
  }

  /** The relative pose at angle `q` is `bMp⁻¹ · (bTj · exp(q · axis) · bTj⁻¹) · bMc`. */
  lemma MadeJointPose<G(!new), A(!new)>(lie: LieGroup<G, A>, id: JointId, parent: LinkId, child: LinkId,
                                        bTj: G, bMp: G, bMc: G, jScrewAxis: A, q: real)
    requires lie.Laws()
    ensures ParentTchild(lie, MakeJoint(lie, id, parent, child, bTj, bMp, bMc, jScrewAxis), q)
         == lie.compose(lie.inverse(bMp), lie.compose(JointMotion(lie, bTj, jScrewAxis, q), bMc))
  {
    var joint, turn := MakeJoint(lie, id, parent, child, bTj, bMp, bMc, jScrewAxis), lie.exp(lie.scale(jScrewAxis, q));
    var jTb, rest := lie.inverse(bTj), RestPose(lie, joint);
    assert lie.AdjointScales(lie.inverse(joint.jMc), jScrewAxis, q);
    assert lie.ExpConjugates(lie.inverse(joint.jMc), lie.scale(jScrewAxis, q));
    lie.InverseOfInverse(joint.jMc);
    TurnBetween(lie, joint.jMp, joint.jMc, turn);
    lie.InverseOfProduct(jTb, bMp);
    lie.InverseOfInverse(bTj);
    assert lie.Associates(lie.inverse(bMp), bTj, lie.compose(turn, joint.jMc));
    assert lie.Associates(turn, jTb, bMc) && lie.Associates(bTj, lie.compose(turn, jTb), bMc);
  }

  lemma TurnBetween<G(!new), A(!new)>(lie: LieGroup<G, A>, jMp: G, jMc: G, turn: G)
    requires lie.Laws()
    ensures lie.compose(lie.compose(lie.inverse(jMp), jMc), lie.compose(lie.compose(lie.inverse(jMc), turn), jMc))
         == lie.compose(lie.inverse(jMp), lie.compose(turn, jMc))
  {
    var back := lie.compose(lie.compose(lie.inverse(jMc), turn), jMc);
    assert lie.Associates(lie.inverse(jMp), jMc, back);
    assert lie.Associates(lie.inverse(jMc), turn, jMc);
    lie.CancelLeft(jMc, lie.compose(turn, jMc));
  }

  /** The child's axis is the joint's, seen from the child at rest. */
  lemma MadeJointAxis<G(!new), A(!new)>(lie: LieGroup<G, A>, id: JointId, parent: LinkId, child: LinkId,
                                        bTj: G, bMp: G, bMc: G, jScrewAxis: A)
    requires lie.Laws()
    ensures var joint := MakeJoint(lie, id, parent, child, bTj, bMp, bMc, jScrewAxis);
      && lie.inverse(joint.jMc) == lie.compose(lie.inverse(bMc), bTj)
      && lie.adjoint(lie.compose(lie.inverse(bTj), bMc), joint.cScrewAxis) == jScrewAxis
  {
    lie.InverseOfProduct(lie.inverse(bTj), bMc);
    lie.InverseOfInverse(bTj);
    lie.AdjointUndone(lie.compose(lie.inverse(bTj), bMc), jScrewAxis);
  }

  lemma ChildRelates<G(!new), A(!new)>(lie: LieGroup<G, A>, id: JointId, parent: LinkId, child: LinkId,
                                       bTj: G, bMp: G, bMc: G, jScrewAxis: A, p: PoseTwist<G, A>, q: real, qDot: real)
    requires lie.Laws()
    ensures var joint := MakeJoint(lie, id, parent, child, bTj, bMp, bMc, jScrewAxis);
      JointRelates(lie, bTj, bMp, bMc, jScrewAxis, p, ChildPoseTwist(lie, joint, p, q, qDot), q, qDot)
  {
    var joint := MakeJoint(lie, id, parent, child, bTj, bMp, bMc, jScrewAxis);
    var pTc, c, back := ParentTchild(lie, joint, q), ChildPoseTwist(lie, joint, p, q, qDot), lie.inverse(joint.jMc);
    MadeJointPose(lie, id, parent, child, bTj, bMp, bMc, jScrewAxis, q);
    lie.CancelLeft(p.pose, pTc);
    lie.CancelRight(p.pose, pTc);
    MadeJointAxis(lie, id, parent, child, bTj, bMp, bMc, jScrewAxis);
    assert lie.AdjointAdds(c.pose, lie.adjoint(lie.inverse(pTc), p.twist), lie.scale(joint.cScrewAxis, qDot));
    assert lie.AdjointComposes(c.pose, lie.inverse(pTc), p.twist);
    assert lie.AdjointScales(back, jScrewAxis, qDot);
    assert lie.AdjointComposes(c.pose, back, lie.scale(jScrewAxis, qDot));
  }

  /** Given the parent, only one child stands in that relation. */
  lemma RelatedIsUnique<G(!new), A(!new)>(lie: LieGroup<G, A>, bTj: G, bMp: G, bMc: G, jScrewAxis: A,
                                          p: PoseTwist<G, A>, c: PoseTwist<G, A>, d: PoseTwist<G, A>,
                                          q: real, qDot: real)
    requires lie.Laws()
    requires JointRelates(lie, bTj, bMp, bMc, jScrewAxis, p, c, q, qDot)
    requires JointRelates(lie, bTj, bMp, bMc, jScrewAxis, p, d, q, qDot)
    ensures c == d
  {
    lie.CancelLeft(p.pose, c.pose);
    lie.CancelLeft(p.pose, d.pose);
    lie.AdjointUndone(c.pose, c.twist);
    lie.AdjointUndone(c.pose, d.twist);
  }

  /**
   * Crossing the joint, from either side, leads exactly to where the joint as described puts the
   * other link and how it makes it move.
   */
  lemma CrossingIsJointMotion<G(!new), A(!new)>(lie: LieGroup<G, A>, id: JointId, parent: LinkId, child: LinkId,
                                                bTj: G, bMp: G, bMc: G, jScrewAxis: A,
                                                p: PoseTwist<G, A>, c: PoseTwist<G, A>, q: real, qDot: real)
    requires lie.Laws() && parent != child
    ensures var joint := MakeJoint(lie, id, parent, child, bTj, bMp, bMc, jScrewAxis);
      && OtherLink(joint, parent) == Ok(child) && OtherLink(joint, child) == Ok(parent)
      && (forall l :: l != parent && l != child ==>
            OtherLink(joint, l) == Err(NotConnected) && OtherPoseTwist(lie, joint, l, p, q, qDot) == Err(NotConnected))
      && (OtherPoseTwist(lie, joint, parent, p, q, qDot) == Ok(c) <==>
            JointRelates(lie, bTj, bMp, bMc, jScrewAxis, p, c, q, qDot))
      && (OtherPoseTwist(lie, joint, child, c, q, qDot) == Ok(p) <==>
            JointRelates(lie, bTj, bMp, bMc, jScrewAxis, p, c, q, qDot))
  {
    var joint := MakeJoint(lie, id, parent, child, bTj, bMp, bMc, jScrewAxis);
    var there := ChildPoseTwist(lie, joint, p, q, qDot);
    ChildRelates(lie, id, parent, child, bTj, bMp, bMc, jScrewAxis, p, q, qDot);
    if JointRelates(lie, bTj, bMp, bMc, jScrewAxis, p, c, q, qDot) {
      RelatedIsUnique(lie, bTj, bMp, bMc, jScrewAxis, p, c, there, q, qDot);
    }
    MadeJointsAgree(lie, id, parent, child, bTj, bMp, bMc, jScrewAxis);
    ParentUndoesChild(lie, joint, p, q, qDot);
    ChildUndoesParent(lie, joint, c, q, qDot);
  }
}

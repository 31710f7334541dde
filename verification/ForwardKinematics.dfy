/**
 * Forward kinematics: a breadth-first search over links and joints that places every link it can
 * reach and checks the links it meets again (Robot::forwardKinematics).
 */
module ForwardKinematics {
  import opened Prelude
  import opened LieGroups
  import opened Joints

  /** A link, the joints it lists, and its pose if it is fixed. */
  datatype Link<G, A> = Link(name: string, fixedPose: Option<G>, joints: seq<Joint<G, A>>)

  /** Link poses and twists, joint angles and velocities, at one time step. */
  datatype Configuration<G, A> = Configuration(
    poses: map<LinkId, G>, twists: map<LinkId, A>, angles: map<JointId, real>, velocities: map<JointId, real>)

  /** A walk over links, and the joints crossed. */
  datatype Walk<G, A> = Walk(links: seq<LinkId>, joints: seq<Joint<G, A>>)

  /** What a run has done so far: links that have left the queue, and a route to each one visited. */
  datatype Trace<G, A> = Trace(start: Configuration<G, A>, root: LinkId, seen: set<LinkId>,
                               routes: map<LinkId, Walk<G, A>>)

  /**
   * Why a search cannot fail, if it cannot: the robot has no loops, or some configuration
   * satisfies all the joints.
   */
  datatype Goal<G, A> = Anything | Tree | Toward(c: Configuration<G, A>)

  /** The facts a search keeps, in three groups. */
  datatype SearchFact = Start | Frontier | Routes

  ghost predicate Contains<V>(large: map<nat, V>, small: map<nat, V>) {
    forall k :: k in small ==> k in large && large[k] == small[k]
  }

  /** Nothing known before has changed. */
  ghost predicate Grows<G, A>(before: Configuration<G, A>, after: Configuration<G, A>) {
    && Contains(after.poses, before.poses) && Contains(after.twists, before.twists)
    && Contains(after.angles, before.angles) && Contains(after.velocities, before.velocities)
  }

  /** Angles and velocities that were added are zero. */
  ghost predicate ZeroDefaults<G, A>(before: Configuration<G, A>, after: Configuration<G, A>) {
    && (forall k :: k in after.angles ==> k in before.angles || after.angles[k] == 0.0)
    && (forall k :: k in after.velocities ==> k in before.velocities || after.velocities[k] == 0.0)
  }

  /** Besides, a twist was added for each pose that was, and for no other link. */
  ghost predicate OnlyDefaults<G, A>(before: Configuration<G, A>, after: Configuration<G, A>) {
    && ZeroDefaults(before, after)
    && after.twists.Keys == before.twists.Keys + (after.poses.Keys - before.poses.Keys)
    && (after.poses.Keys - before.poses.Keys) !! before.twists.Keys
  }

  /** A joint whose angle or velocity is unknown is taken to be at zero and at rest. */
  method InsertZeroDefaults<G, A>(j: JointId, values: Configuration<G, A>) returns (after: Configuration<G, A>)
    ensures Grows(values, after) && OnlyDefaults(values, after)
    ensures after.poses == values.poses && after.twists == values.twists
    ensures after.angles.Keys == values.angles.Keys + {j} && after.velocities.Keys == values.velocities.Keys + {j}
  {
    after := values;
    if j !in after.angles {
      after := after.(angles := after.angles[j := 0.0]);
    }
    if j !in after.velocities {
      after := after.(velocities := after.velocities[j := 0.0]);
    }
  }

  lemma AddUpdated<V>(base: map<nat, V>, more: map<nat, V>, k: nat, v: V)
    ensures base + more[k := v] == (base + more)[k := v]
  {
  }

  /** The errors a step of the search can raise. */
  predicate IsSearchError(error: Error) {
    error.NotConnected? || error.InconsistentJointAngles? || error.KeyAlreadyExists? || error.KeyDoesNotExist?
  }

  function Reversed<T>(s: seq<T>): (r: seq<T>)
    ensures |r| == |s| && forall i :: 0 <= i < |r| ==> r[i] == s[|s| - 1 - i]
  {
    seq(|s|, i requires 0 <= i < |s| => s[|s| - 1 - i])
  }

  ghost predicate NoRepeat<T>(s: seq<T>) {
    forall i :: 0 < i < |s| ==> s[i - 1] != s[i]
  }

  lemma {:induction false} BoundedIds(ids: set<LinkId>, bound: nat)
    requires forall l :: l in ids ==> l < bound
    ensures |ids| <= bound
  {
    if bound == 0 {
      assert ids == {};
    } else {
      BoundedIds(ids - {bound - 1}, bound - 1);
      assert ids <= ids - {bound - 1} + {bound - 1};
    }
  }

  /**
   * A robot: its links, and their ids in the order of their names. `near` and `nearTwist` say
   * when two poses or twists count as equal; the original uses a tolerance of 1e-4 for both.
   */
  datatype Robot<!G(!new), !A(!new)> = Robot(
    lie: LieGroup<G, A>, near: (G, G) -> bool, nearTwist: (A, A) -> bool,
    links: map<LinkId, Link<G, A>>, byName: seq<LinkId>)
  {
    /** Names and ids are unique, ids fit in eight bits, and joints connect links of the robot. */
    ghost predicate WellFormed() {
      && NoDuplicates(byName) && (forall l :: l in byName <==> l in links)
      && (forall a, b :: a in links && b in links && links[a].name == links[b].name ==> a == b)
      && SoundLinks()
    }

    ghost predicate SoundLinks() {
      forall l :: SoundLink(l)
    }

    ghost predicate SoundLink(l: LinkId) {
      l in links ==>
        && l < 256
        && forall joint :: joint in links[l].joints ==> joint.parent in links && joint.child in links
    }

    // -------------------------------------------------------------------------------------
    // The root and the fixed links

    predicate IsFixed(l: LinkId) {
      l in links && links[l].fixedPose.Some?
    }

    /** The named link; without a name, the last fixed link in the order of names. */
    ghost predicate IsRoot(prior: Option<string>, root: LinkId) {
      match prior
      case Some(name) => root in links && links[root].name == name
      case None => exists i :: 0 <= i < |byName| && byName[i] == root && IsLastFixed(i)
    }

    ghost predicate IsLastFixed(i: nat)
      requires i < |byName|
    {
      IsFixed(byName[i]) && forall n :: i < n < |byName| ==> !IsFixed(byName[n])
    }

    method FindRootLink(prior: Option<string>) returns (r: Result<LinkId>)
      requires WellFormed()
      ensures r.Ok? ==> r.value in links && IsRoot(prior, r.value)
      ensures r.Err? ==> r.error == NoRootLink && forall l :: !IsRoot(prior, l)
    {
      if prior.Some? {
        for i := 0 to |byName|
          invariant forall n :: 0 <= n < i ==> links[byName[n]].name != prior.value
        {
          if links[byName[i]].name == prior.value {
            return Ok(byName[i]);
          }
        }
        forall l | l in links ensures links[l].name != prior.value {
          assert l in byName;
        }
      } else {
        for i := |byName| downto 0
          invariant forall n :: i <= n < |byName| ==> !IsFixed(byName[n])
        {
          if IsFixed(byName[i]) {
            assert IsLastFixed(i);
            return Ok(byName[i]);
          }
        }
      }
      r := Err(NoRootLink);
    }

    lemma RootIsUnique(prior: Option<string>, a: LinkId, b: LinkId)
      requires WellFormed() && IsRoot(prior, a) && IsRoot(prior, b)
      ensures a == b
    {
      if prior.None? {
        var i :| 0 <= i < |byName| && byName[i] == a && IsLastFixed(i);
        var j :| 0 <= j < |byName| && byName[j] == b && IsLastFixed(j);
      }
    }

    ghost function FixedAmong(some: set<LinkId>): set<LinkId> {
      set l | l in some && IsFixed(l)
    }

    ghost function FixedPoses(some: set<LinkId>): (poses: map<LinkId, G>)
      ensures poses.Keys == FixedAmong(some)
      ensures forall l :: l in poses ==> poses[l] == links[l].fixedPose.value
    {
      map l | l in FixedAmong(some) :: links[l].fixedPose.value
    }

    ghost function FixedTwists(some: set<LinkId>): (twists: map<LinkId, A>)
      ensures twists.Keys == FixedAmong(some)
      ensures forall l :: l in twists ==> twists[l] == lie.zero
    {
      map l | l in FixedAmong(some) :: lie.zero
    }

    ghost function FixedLinks(): set<LinkId> {
      FixedAmong(links.Keys)
    }

    /** The fixed links among `some` stand at their poses and do not move. */
    ghost function WithFixed(values: Configuration<G, A>, some: set<LinkId>): (after: Configuration<G, A>)
      ensures after.poses.Keys == values.poses.Keys + FixedAmong(some)
      ensures after.twists.Keys == values.twists.Keys + FixedAmong(some)
    {
      values.(poses := values.poses + FixedPoses(some), twists := values.twists + FixedTwists(some))
    }

    lemma FixedAmongGrows(some: set<LinkId>, link: LinkId)
      ensures FixedAmong(some + {link}) == FixedAmong(some) + if IsFixed(link) then {link} else {}
    {
    }

    lemma WithFixedGrows(values: Configuration<G, A>, some: set<LinkId>, link: LinkId)
      ensures IsFixed(link) ==> FixedPoses(some + {link}) == FixedPoses(some)[link := links[link].fixedPose.value]
      ensures IsFixed(link) ==> FixedTwists(some + {link}) == FixedTwists(some)[link := lie.zero]
      ensures !IsFixed(link) ==> WithFixed(values, some + {link}) == WithFixed(values, some)
    {
      FixedAmongGrows(some, link);
      if !IsFixed(link) {
        assert FixedPoses(some + {link}) == FixedPoses(some);
        assert FixedTwists(some + {link}) == FixedTwists(some);
      }
    }

    lemma PlaceFixed(values: Configuration<G, A>, some: set<LinkId>, link: LinkId)
      requires IsFixed(link)
      ensures WithFixed(values, some + {link})
           == Place(WithFixed(values, some), link, PoseTwist(links[link].fixedPose.value, lie.zero))
    {
      WithFixedGrows(values, some, link);
      AddUpdated(values.poses, FixedPoses(some), link, links[link].fixedPose.value);
      AddUpdated(values.twists, FixedTwists(some), link, lie.zero);
    }

    lemma NoneFixed(values: Configuration<G, A>)
      ensures WithFixed(values, {}) == values
    {
      assert values.poses + FixedPoses({}) == values.poses;
      assert values.twists + FixedTwists({}) == values.twists;
    }

    method InsertFixedLink(link: LinkId, values: Configuration<G, A>) returns (r: Result<Configuration<G, A>>)
      requires IsFixed(link)
      ensures r.Ok? <==> link !in values.poses && link !in values.twists
      ensures r.Ok? ==> r.value == Place(values, link, PoseTwist(links[link].fixedPose.value, lie.zero))
      ensures r.Err? ==> r.error == KeyAlreadyExists(link)
    {
      if link in values.poses || link in values.twists {
        return Err(KeyAlreadyExists(link));
      }
      r := Ok(values.(poses := values.poses[link := links[link].fixedPose.value],
                      twists := values.twists[link := lie.zero]));
    }

    /** Neither a pose nor a twist of these links is given. */
    ghost predicate Unplaced(values: Configuration<G, A>, some: set<LinkId>) {
      forall l :: l in some ==> l !in values.poses && l !in values.twists
    }

    /** Fails when a fixed link already has a pose or a twist. */
    method InsertFixedLinks(values: Configuration<G, A>) returns (r: Result<Configuration<G, A>>)
      requires WellFormed()
      ensures r.Ok? <==> Unplaced(values, FixedLinks())
      ensures r.Ok? ==> r.value == WithFixed(values, links.Keys)
      ensures r.Err? ==> r.error.KeyAlreadyExists?
    {
      var after := values;
      NoneFixed(values);
      assert Elements(byName[..0]) == {};
      for i := 0 to |byName|
        invariant after == WithFixed(values, Elements(byName[..i]))
        invariant Unplaced(values, FixedAmong(Elements(byName[..i])))
      {
        PrefixElements(byName, i);
        var link := byName[i];
        FixedAmongGrows(Elements(byName[..i]), link);
        if IsFixed(link) {
          assert link in FixedLinks();
          var placed := InsertFixedLink(link, after);
          if placed.Err? {
            return Err(placed.error);
          }
          PlaceFixed(values, Elements(byName[..i]), link);
          after := placed.value;
        } else {
          WithFixedGrows(values, Elements(byName[..i]), link);
        }
      }
      assert Elements(byName[..|byName|]) == links.Keys;
      r := Ok(after);
    }

    /** What is known when the search starts: the root is at the origin and at rest by default. */
    ghost function StartAt(known: Configuration<G, A>, root: LinkId): Configuration<G, A> {
      var fixed := WithFixed(known, links.Keys);
      fixed.(poses := if root in fixed.poses then fixed.poses else fixed.poses[root := lie.identity],
             twists := if root in fixed.twists then fixed.twists else fixed.twists[root := lie.zero])
    }

    /** Every fixed link stands at its fixed pose and does not move. */
    ghost predicate FixedLinksStand(values: Configuration<G, A>) {
      forall l :: l in links && links[l].fixedPose.Some? ==>
        && l in values.poses && values.poses[l] == links[l].fixedPose.value
        && l in values.twists && values.twists[l] == lie.zero
    }

    /** The root is placed; where nothing says otherwise it is at the origin, or at rest. */
    ghost predicate RootStands(known: Configuration<G, A>, root: LinkId, values: Configuration<G, A>) {
      var free := root !in links || links[root].fixedPose.None?;
      && root in values.poses && (root !in known.poses && free ==> values.poses[root] == lie.identity)
      && root in values.twists && (root !in known.twists && free ==> values.twists[root] == lie.zero)
    }

    /** What is known at the start: what was given, the fixed links and the root, and nothing else. */
    ghost predicate IsStart(known: Configuration<G, A>, root: LinkId, start: Configuration<G, A>) {
      && Grows(known, start) && FixedLinksStand(start) && RootStands(known, root, start)
      && start.poses.Keys == known.poses.Keys + FixedLinks() + {root}
      && start.twists.Keys == known.twists.Keys + FixedLinks() + {root}
      && start.angles == known.angles && start.velocities == known.velocities
    }

    /** This is all there is to the start: it has these properties, and nothing else has. */
    lemma StartIs(known: Configuration<G, A>, root: LinkId)
      requires Unplaced(known, FixedLinks())
      ensures forall start :: IsStart(known, root, start) <==> start == StartAt(known, root)
    {
      var begin := StartAt(known, root);
      assert IsStart(known, root, begin);
      forall start | IsStart(known, root, start) ensures start == begin {
        SamePlaces(known, root, start, begin);
      }
    }

    lemma SamePlaces(known: Configuration<G, A>, root: LinkId, a: Configuration<G, A>, b: Configuration<G, A>)
      requires IsStart(known, root, a) && IsStart(known, root, b)
      ensures a == b
    {
      forall l | l in a.poses ensures a.poses[l] == b.poses[l] {
        assert l in known.poses || l in FixedLinks() || l == root;
      }
      forall l | l in a.twists ensures a.twists[l] == b.twists[l] {
        assert l in known.twists || l in FixedLinks() || l == root;
      }
      assert a.poses == b.poses && a.twists == b.twists;
    }

    /** Whatever extends the start has the fixed links and the root where they belong. */
    lemma StartIsKept(known: Configuration<G, A>, root: LinkId, values: Configuration<G, A>)
      requires Unplaced(known, FixedLinks()) && Grows(StartAt(known, root), values)
      ensures Grows(known, values) && FixedLinksStand(values) && RootStands(known, root, values)
    {
      StartIs(known, root);
      var start := StartAt(known, root);
      assert IsStart(known, root, start);
    }

    // -------------------------------------------------------------------------------------
    // Reachable links

    ghost predicate Crosses(a: LinkId, joint: Joint<G, A>, b: LinkId) {
      a in links && joint in links[a].joints && OtherLink(joint, a) == Ok(b)
    }

    /** A route from the root over links that had no pose at the start. */
    ghost predicate IsRoute(pre: set<LinkId>, root: LinkId, walk: Walk<G, A>) {
      && |walk.links| == |walk.joints| + 1 && walk.links[0] == root
      && (forall i :: 0 <= i < |walk.joints| ==> Crosses(walk.links[i], walk.joints[i], walk.links[i + 1]))
      && (forall i :: 0 < i < |walk.joints| ==> walk.links[i] !in pre || walk.links[i] == root)
    }

    ghost function End(walk: Walk<G, A>): LinkId
      requires walk.links != []
    {
      walk.links[|walk.links| - 1]
    }

    ghost predicate Reachable(pre: set<LinkId>, root: LinkId, link: LinkId) {
      exists walk :: IsRoute(pre, root, walk) && End(walk) == link
    }

    /** The links whose joints the search follows. */
    ghost predicate Followed(pre: set<LinkId>, root: LinkId, link: LinkId) {
      link == root || (link !in pre && Reachable(pre, root, link))
    }

    /** The joint relates the poses and twists of its two links, as far as `near` can tell. */
    ghost predicate JointHolds(values: Configuration<G, A>, link: LinkId, joint: Joint<G, A>) {
      && link in values.poses && link in values.twists
      && joint.id in values.angles && joint.id in values.velocities
      && var across := OtherPoseTwist(lie, joint, link, PoseTwist(values.poses[link], values.twists[link]),
                                      values.angles[joint.id], values.velocities[joint.id]);
      var other := OtherLink(joint, link);
      && across.Ok? && other.Ok? && other.value in values.poses && other.value in values.twists
      && Matches(across.value, values.poses[other.value], values.twists[other.value])
    }

    ghost predicate Matches(across: PoseTwist<G, A>, pose: G, twist: A) {
      (across.pose == pose && across.twist == twist) || (near(across.pose, pose) && nearTwist(across.twist, twist))
    }

    ghost predicate HoldsAmong(values: Configuration<G, A>, link: LinkId, joints: seq<Joint<G, A>>,
                               joint: Joint<G, A>) {
      joint in joints ==> JointHolds(values, link, joint)
    }

    ghost predicate AllHold(values: Configuration<G, A>, link: LinkId, joints: seq<Joint<G, A>>) {
      forall joint :: HoldsAmong(values, link, joints, joint)
    }

    /** All the joints of a link hold. */
    ghost predicate JointsHold(values: Configuration<G, A>, link: LinkId) {
      link in links && AllHold(values, link, links[link].joints)
    }

    lemma JointHoldsLater(before: Configuration<G, A>, after: Configuration<G, A>, link: LinkId, joint: Joint<G, A>)
      requires JointHolds(before, link, joint) && Grows(before, after)
      ensures JointHolds(after, link, joint)
    {
    }

    lemma JointsHoldLater(before: Configuration<G, A>, after: Configuration<G, A>, link: LinkId)
      requires JointsHold(before, link) && Grows(before, after)
      ensures JointsHold(after, link)
    {
      forall joint ensures HoldsAmong(after, link, links[link].joints, joint) {
        assert HoldsAmong(before, link, links[link].joints, joint);
        if joint in links[link].joints {
          JointHoldsLater(before, after, link, joint);
        }
      }
    }

    // -------------------------------------------------------------------------------------
    // The state of the search

    /** The root and the links placed since the start. */
    ghost function Visited(t: Trace<G, A>, values: Configuration<G, A>): set<LinkId> {
      {t.root} + (values.poses.Keys - t.start.poses.Keys)
    }

    /** Nothing known at the start has changed, and what was added has the right form. */
    ghost predicate KeepsStart(t: Trace<G, A>, values: Configuration<G, A>) {
      && t.root in t.start.poses && t.root in t.start.twists
      && Grows(t.start, values) && OnlyDefaults(t.start, values)
    }

    /** The visited links are those seen and those in the queue, and each has a route. */
    ghost predicate KeepsFrontier(t: Trace<G, A>, values: Configuration<G, A>, queue: seq<LinkId>) {
      && NoDuplicates(queue) && t.seen !! Elements(queue)
      && Visited(t, values) == t.seen + Elements(queue) == t.routes.Keys <= links.Keys
    }

    /** The routes lead from the root to the visited links. */
    ghost predicate KeepsRoutes(t: Trace<G, A>) {
      && t.root in t.routes && t.routes[t.root] == Walk([t.root], [])
      && forall l :: RouteLeadsTo(t, l)
    }

    ghost predicate Keeps(fact: SearchFact, t: Trace<G, A>, values: Configuration<G, A>, queue: seq<LinkId>) {
      match fact
      case Start => KeepsStart(t, values)
      case Frontier => KeepsFrontier(t, values, queue)
      case Routes => KeepsRoutes(t)
    }

    /** What every step of the search keeps. */
    ghost predicate Searching(t: Trace<G, A>, values: Configuration<G, A>, queue: seq<LinkId>) {
      forall fact :: Keeps(fact, t, values, queue)
    }

    lemma FactsOf(t: Trace<G, A>, values: Configuration<G, A>, queue: seq<LinkId>)
      requires Searching(t, values, queue)
      ensures KeepsStart(t, values) && KeepsFrontier(t, values, queue) && KeepsRoutes(t)
    {
      assert Keeps(Start, t, values, queue) && Keeps(Frontier, t, values, queue) && Keeps(Routes, t, values, queue);
    }

    ghost predicate RouteLeadsTo(t: Trace<G, A>, l: LinkId) {
      l in t.routes ==> IsRoute(t.start.poses.Keys, t.root, t.routes[l]) && End(t.routes[l]) == l
    }

    lemma SearchAfterDefaults(t: Trace<G, A>, values: Configuration<G, A>, after: Configuration<G, A>,
                              queue: seq<LinkId>)
      requires Searching(t, values, queue)
      requires Grows(values, after) && OnlyDefaults(values, after) && after.poses == values.poses
      ensures Searching(t, after, queue)
    {
      FactsOf(t, values, queue);
    }

    ghost function Extend(walk: Walk<G, A>, joint: Joint<G, A>, link: LinkId): Walk<G, A> {
      Walk(walk.links + [link], walk.joints + [joint])
    }

    lemma ExtendRoute(pre: set<LinkId>, root: LinkId, walk: Walk<G, A>, joint: Joint<G, A>, link: LinkId)
      requires IsRoute(pre, root, walk) && Crosses(End(walk), joint, link)
      requires End(walk) !in pre || End(walk) == root
      ensures IsRoute(pre, root, Extend(walk, joint, link)) && End(Extend(walk, joint, link)) == link
    {
    }

    ghost function Place(values: Configuration<G, A>, link: LinkId, at: PoseTwist<G, A>): Configuration<G, A> {
      values.(poses := values.poses[link := at.pose], twists := values.twists[link := at.twist])
    }

    lemma SearchAfterInsert(t: Trace<G, A>, values: Configuration<G, A>, queue: seq<LinkId>,
                            link: LinkId, joint: Joint<G, A>, other: LinkId, at: PoseTwist<G, A>)
      requires Searching(t, values, queue)
      requires link in t.seen && link in t.routes && Crosses(link, joint, other) && other in links
      requires other !in values.poses && other !in values.twists
      ensures Searching(Extended(t, link, joint, other), Place(values, other, at), queue + [other])
    {
      hide IsRoute, Crosses, End;
      FactsOf(t, values, queue);
      assert RouteLeadsTo(t, link);
      ExtendRoute(t.start.poses.Keys, t.root, t.routes[link], joint, other);
      forall l ensures RouteLeadsTo(Extended(t, link, joint, other), l) {
        assert RouteLeadsTo(t, l);
      }
      assert Elements(queue + [other]) == Elements(queue) + {other};
      assert other !in Visited(t, values);
    }

    ghost function Extended(t: Trace<G, A>, link: LinkId, joint: Joint<G, A>, other: LinkId): Trace<G, A>
      requires link in t.routes
    {
      t.(routes := t.routes[other := Extend(t.routes[link], joint, other)])
    }

    lemma SearchAfterPop(t: Trace<G, A>, values: Configuration<G, A>, queue: seq<LinkId>)
      requires Searching(t, values, queue) && queue != []
      ensures Searching(t.(seen := t.seen + {queue[0]}), values, queue[1..])
    {
      FactsOf(t, values, queue);
      assert queue == [queue[0]] + queue[1..];
      forall l ensures RouteLeadsTo(t.(seen := t.seen + {queue[0]}), l) {
        assert RouteLeadsTo(t, l);
      }
      assert Elements(queue) == {queue[0]} + Elements(queue[1..]);
    }

    lemma VisitedHaveTwists(t: Trace<G, A>, values: Configuration<G, A>, queue: seq<LinkId>, link: LinkId)
      requires Searching(t, values, queue) && link in t.routes
      ensures link in values.poses && link in values.twists && link in links
    {
      FactsOf(t, values, queue);
    }

    /** A link without a pose is placed; a link with one is checked, pose before twist. */
    ghost predicate IsChecked(link: LinkId, at: PoseTwist<G, A>, values: Configuration<G, A>,
                              r: Result<(Configuration<G, A>, bool)>) {
      if link !in values.poses then
        r == if link in values.twists then Err(KeyAlreadyExists(link)) else Ok((Place(values, link, at), true))
      else if !near(at.pose, values.poses[link]) then r == Err(InconsistentJointAngles)
      else
        r == if link !in values.twists then Err(KeyDoesNotExist(link))
             else if nearTwist(at.twist, values.twists[link]) then Ok((values, false))
             else Err(InconsistentJointAngles)
    }

    /** Places the link, or checks its place; says whether it was placed. */
    method InsertWithCheck(link: LinkId, at: PoseTwist<G, A>, values: Configuration<G, A>)
      returns (r: Result<(Configuration<G, A>, bool)>)
      ensures IsChecked(link, at, values, r)
    {
      var exists_ := link in values.poses;
      if !exists_ {
        if link in values.twists {
          return Err(KeyAlreadyExists(link));
        }
        return Ok((values.(poses := values.poses[link := at.pose], twists := values.twists[link := at.twist]), true));
      }
      if !near(at.pose, values.poses[link]) {
        return Err(InconsistentJointAngles);
      }
      if link !in values.twists {
        return Err(KeyDoesNotExist(link));
      }
      if !nearTwist(at.twist, values.twists[link]) {
        return Err(InconsistentJointAngles);
      }
      r := Ok((values, false));
    }

    // -------------------------------------------------------------------------------------
    // Robots without loops

    ghost predicate JointOf(joint: Joint<G, A>) {
      exists l :: l in links && joint in links[l].joints
    }

    ghost predicate Connects(joint: Joint<G, A>, a: LinkId, b: LinkId) {
      (a == joint.parent && b == joint.child) || (a == joint.child && b == joint.parent)
    }

    /** Walks over joints in either direction that never turn back on the joint just crossed. */
    ghost predicate IsWalk(walk: Walk<G, A>) {
      && |walk.links| == |walk.joints| + 1 && NoRepeat(walk.joints)
      && forall i :: 0 <= i < |walk.joints| ==>
        JointOf(walk.joints[i]) && Connects(walk.joints[i], walk.links[i], walk.links[i + 1])
    }

    /** No such walk returns to where it began. */
    ghost predicate Acyclic() {
      forall walk :: IsWalk(walk) && walk.joints != [] ==> walk.links[0] != End(walk)
    }

    /** Every link's joints connect it, and their two screw axes describe one motion. */
    ghost predicate JointsAgree() {
      forall l, joint :: l in links && joint in links[l].joints ==>
        OtherLink(joint, l).Ok? && AxesAgree(lie, joint)
    }

    ghost predicate NearIsReflexive() {
      (forall g :: near(g, g)) && (forall v :: nearTwist(v, v))
    }

    ghost predicate IsTree() {
      lie.Laws() && Acyclic() && JointsAgree() && NearIsReflexive()
    }

    /** `link` stands exactly where crossing `joint` from `from` puts it. */
    ghost predicate PlacedFrom(values: Configuration<G, A>, from: LinkId, joint: Joint<G, A>, link: LinkId) {
      && from in values.poses && from in values.twists && link in values.poses && link in values.twists
      && joint.id in values.angles && joint.id in values.velocities
      && OtherPoseTwist(lie, joint, from, PoseTwist(values.poses[from], values.twists[from]),
                        values.angles[joint.id], values.velocities[joint.id])
         == Ok(PoseTwist(values.poses[link], values.twists[link]))
    }

    /** Only the root was placed at the start; every other link was placed from its predecessor. */
    ghost predicate InTree(t: Trace<G, A>, values: Configuration<G, A>) {
      && t.start.poses.Keys == {t.root} && t.start.twists.Keys == {t.root}
      && forall l :: IsPlaced(t, values, l)
    }

    ghost predicate IsPlaced(t: Trace<G, A>, values: Configuration<G, A>, l: LinkId) {
      l in t.routes ==> WellPlaced(t.root, values, t.routes[l], l)
    }

    ghost predicate WellPlaced(root: LinkId, values: Configuration<G, A>, walk: Walk<G, A>, l: LinkId) {
      && NoRepeat(walk.joints)
      && (l != root ==>
            var n := |walk.joints|;
            0 < n < |walk.links| && PlacedFrom(values, walk.links[n - 1], walk.joints[n - 1], l))
    }

    lemma PlacedLater(before: Configuration<G, A>, after: Configuration<G, A>, from: LinkId, joint: Joint<G, A>,
                      link: LinkId)
      requires PlacedFrom(before, from, joint, link) && Grows(before, after)
      ensures PlacedFrom(after, from, joint, link)
    {
    }

    lemma InTreeLater(t: Trace<G, A>, before: Configuration<G, A>, after: Configuration<G, A>)
      requires InTree(t, before) && Grows(before, after)
      ensures InTree(t, after)
    {
      forall l ensures IsPlaced(t, after, l) {
        assert IsPlaced(t, before, l);
        if l in t.routes && l != t.root {
          var n := |t.routes[l].joints|;
          PlacedLater(before, after, t.routes[l].links[n - 1], t.routes[l].joints[n - 1], l);
        }
      }
    }

    lemma NoSelfJoint(joint: Joint<G, A>)
      requires Acyclic() && JointOf(joint)
      ensures joint.parent != joint.child
    {
      var walk := Walk([joint.parent, joint.child], [joint]);
      assert IsWalk(walk);
    }

    lemma RouteIsWalk(pre: set<LinkId>, root: LinkId, walk: Walk<G, A>)
      requires IsRoute(pre, root, walk) && NoRepeat(walk.joints)
      ensures IsWalk(walk)
    {
      forall i | 0 <= i < |walk.joints|
        ensures JointOf(walk.joints[i]) && Connects(walk.joints[i], walk.links[i], walk.links[i + 1])
      {
        assert Crosses(walk.links[i], walk.joints[i], walk.links[i + 1]);
      }
    }

    ghost predicate EndsWith(walk: Walk<G, A>, joint: Joint<G, A>) {
      walk.joints != [] && walk.joints[|walk.joints| - 1] == joint
    }

    /** Out along one walk, over a joint, and back along another: a closed walk. */
    ghost function Loop(out: Walk<G, A>, joint: Joint<G, A>, back: Walk<G, A>): Walk<G, A> {
      Walk(out.links + Reversed(back.links), out.joints + [joint] + Reversed(back.joints))
    }

    lemma ReversedWalk(walk: Walk<G, A>)
      requires IsWalk(walk)
      ensures IsWalk(Walk(Reversed(walk.links), Reversed(walk.joints)))
    {
      var n, back := |walk.joints|, Walk(Reversed(walk.links), Reversed(walk.joints));
      forall i | 0 <= i < n
        ensures JointOf(back.joints[i]) && Connects(back.joints[i], back.links[i], back.links[i + 1])
      {
        assert Connects(walk.joints[n - 1 - i], walk.links[n - 1 - i], walk.links[n - 1 - i + 1]);
      }
      forall i | 0 < i < n ensures back.joints[i - 1] != back.joints[i] {
        assert walk.joints[n - 1 - i] != walk.joints[n - 1 - i + 1];
      }
    }

    lemma JoinedWalk(out: Walk<G, A>, joint: Joint<G, A>, back: Walk<G, A>)
      requires IsWalk(out) && IsWalk(back) && JointOf(joint) && Connects(joint, End(out), back.links[0])
      requires !EndsWith(out, joint) && (back.joints != [] ==> back.joints[0] != joint)
      ensures IsWalk(Walk(out.links + back.links, out.joints + [joint] + back.joints))
    {
      var n, all := |out.joints|, Walk(out.links + back.links, out.joints + [joint] + back.joints);
      forall i | 0 <= i < |all.joints|
        ensures JointOf(all.joints[i]) && Connects(all.joints[i], all.links[i], all.links[i + 1])
      {
        if i > n {
          assert all.joints[i] == back.joints[i - n - 1];
        }
      }
      forall i | 0 < i < |all.joints| ensures all.joints[i - 1] != all.joints[i] {
        if i > n + 1 {
          assert all.joints[i - 1] == back.joints[i - n - 2] && all.joints[i] == back.joints[i - n - 1];
        }
      }
    }

    lemma LoopIsClosed(out: Walk<G, A>, joint: Joint<G, A>, back: Walk<G, A>)
      requires IsWalk(out) && IsWalk(back) && out.links[0] == back.links[0]
      requires JointOf(joint) && Connects(joint, End(out), End(back))
      requires !EndsWith(out, joint) && !EndsWith(back, joint)
      ensures var all := Loop(out, joint, back); IsWalk(all) && all.joints != [] && all.links[0] == End(all)
    {
      ReversedWalk(back);
      JoinedWalk(out, joint, Walk(Reversed(back.links), Reversed(back.joints)));
    }

    /** Without loops, a joint between two visited links was the last one on the way to one of them. */
    lemma JointWasUsed(out: Walk<G, A>, joint: Joint<G, A>, back: Walk<G, A>)
      requires Acyclic() && IsWalk(out) && IsWalk(back) && out.links[0] == back.links[0]
      requires JointOf(joint) && Connects(joint, End(out), End(back))
      ensures EndsWith(out, joint) || EndsWith(back, joint)
    {
      if !EndsWith(out, joint) && !EndsWith(back, joint) {
        LoopIsClosed(out, joint, back);
      }
    }

    /** Crossing back to where a link was placed from gives exactly the pose and twist there. */
    lemma CrossedBack(values: Configuration<G, A>, from: LinkId, joint: Joint<G, A>, link: LinkId)
      requires IsTree() && PlacedFrom(values, from, joint, link) && Crosses(from, joint, link)
      ensures PlacedFrom(values, link, joint, from) && OtherLink(joint, link) == Ok(from)
    {
      NoSelfJoint(joint);
      CrossingBack(lie, joint, from, PoseTwist(values.poses[from], values.twists[from]),
                   values.angles[joint.id], values.velocities[joint.id]);
    }

    /** A visited link met again is met exactly where it stands. */
    lemma MetAgain(t: Trace<G, A>, values: Configuration<G, A>, queue: seq<LinkId>, link: LinkId, joint: Joint<G, A>,
                   other: LinkId)
      requires Searching(t, values, queue) && IsTree() && InTree(t, values)
      requires link in t.routes && other in t.routes && Crosses(link, joint, other)
      ensures PlacedFrom(values, link, joint, other)
    {
      FactsOf(t, values, queue);
      var out, back := t.routes[link], t.routes[other];
      assert IsPlaced(t, values, link) && IsPlaced(t, values, other) && RouteLeadsTo(t, link) && RouteLeadsTo(t, other);
      RouteIsWalk(t.start.poses.Keys, t.root, out);
      RouteIsWalk(t.start.poses.Keys, t.root, back);
      JointWasUsed(out, joint, back);
      NoSelfJoint(joint);
      if EndsWith(out, joint) {
        LastStep(t, values, queue, link, joint);
        CrossedBack(values, out.links[|out.joints| - 1], joint, link);
      } else {
        LastStep(t, values, queue, other, joint);
      }
    }

    /** A link whose route ends with the joint was placed across it. */
    lemma LastStep(t: Trace<G, A>, values: Configuration<G, A>, queue: seq<LinkId>, link: LinkId, joint: Joint<G, A>)
      requires Searching(t, values, queue) && InTree(t, values) && link in t.routes && EndsWith(t.routes[link], joint)
      ensures var walk := t.routes[link]; |walk.links| == |walk.joints| + 1
      ensures var walk := t.routes[link]; var from := walk.links[|walk.joints| - 1];
        Crosses(from, joint, link) && PlacedFrom(values, from, joint, link)
    {
      FactsOf(t, values, queue);
      var walk := t.routes[link];
      assert IsPlaced(t, values, link) && RouteLeadsTo(t, link);
      assert Crosses(walk.links[|walk.joints| - 1], walk.joints[|walk.joints| - 1], walk.links[|walk.joints|]);
    }

    /** A link met for the first time is not met over the joint the search came by. */
    lemma NewOverNewJoint(t: Trace<G, A>, values: Configuration<G, A>, queue: seq<LinkId>, link: LinkId,
                          joint: Joint<G, A>, other: LinkId)
      requires Searching(t, values, queue) && IsTree() && InTree(t, values)
      requires link in t.routes && Crosses(link, joint, other) && other !in values.poses
      ensures !EndsWith(t.routes[link], joint)
    {
      FactsOf(t, values, queue);
      if EndsWith(t.routes[link], joint) {
        LastStep(t, values, queue, link, joint);
        CrossedBack(values, t.routes[link].links[|t.routes[link].joints| - 1], joint, link);
      }
    }

    lemma ExtendedIsWellPlaced(root: LinkId, values: Configuration<G, A>, walk: Walk<G, A>, link: LinkId,
                               joint: Joint<G, A>, other: LinkId)
      requires WellPlaced(root, values, walk, link) && !EndsWith(walk, joint)
      requires |walk.links| == |walk.joints| + 1 && End(walk) == link
      requires PlacedFrom(values, link, joint, other)
      ensures WellPlaced(root, values, Extend(walk, joint, other), other)
    {
    }

    lemma InTreeAfterInsert(t: Trace<G, A>, values: Configuration<G, A>, queue: seq<LinkId>,
                            link: LinkId, joint: Joint<G, A>, other: LinkId, at: PoseTwist<G, A>)
      requires Searching(t, values, queue) && IsTree() && InTree(t, values)
      requires link in t.routes && Crosses(link, joint, other)
      requires other !in values.poses && other !in values.twists
      requires PlacedFrom(Place(values, other, at), link, joint, other)
      ensures InTree(Extended(t, link, joint, other), Place(values, other, at))
    {
      FactsOf(t, values, queue);
      var after, longer := Place(values, other, at), Extended(t, link, joint, other);
      NewOverNewJoint(t, values, queue, link, joint, other);
      assert Grows(values, after);
      InTreeLater(t, values, after);
      assert IsPlaced(t, after, link) && RouteLeadsTo(t, link);
      ExtendedIsWellPlaced(t.root, after, t.routes[link], link, joint, other);
      forall l ensures IsPlaced(longer, after, l) {
        assert IsPlaced(t, after, l);
      }
    }

    // -------------------------------------------------------------------------------------
    // Robots whose joints some configuration satisfies

    /** Poses and twists are compared exactly. */
    ghost predicate NearIsEqual() {
      (forall g, h :: near(g, h) <==> g == h) && (forall v, w :: nearTwist(v, w) <==> v == w)
    }

    ghost predicate HoldsIfFollowed(start: Configuration<G, A>, root: LinkId, c: Configuration<G, A>, l: LinkId) {
      Followed(start.poses.Keys, root, l) ==> JointsHold(c, l)
    }

    /**
     * `c` extends what is known at the start, with zero for other angles and velocities, and
     * satisfies every joint of every link the search follows.
     */
    ghost predicate Explains(start: Configuration<G, A>, root: LinkId, c: Configuration<G, A>) {
      && Grows(start, c) && ZeroDefaults(start, c)
      && forall l :: HoldsIfFollowed(start, root, c, l)
    }

    ghost predicate TogetherIfReached(start: Configuration<G, A>, root: LinkId, l: LinkId) {
      Reachable(start.poses.Keys, root, l) ==> (l in start.poses <==> l in start.twists)
    }

    /** Of the links that can be reached, pose and twist are given together or not at all. */
    ghost predicate GivenTogether(start: Configuration<G, A>, root: LinkId) {
      forall l :: TogetherIfReached(start, root, l)
    }

    /** The search has found a part of `c`. */
    ghost predicate Heads(t: Trace<G, A>, values: Configuration<G, A>, c: Configuration<G, A>) {
      GivenTogether(t.start, t.root) && Explains(t.start, t.root, c) && Grows(values, c)
    }

    /** What the robot must be like for the goal. */
    ghost predicate Allows(goal: Goal<G, A>) {
      (goal.Tree? ==> IsTree()) && (goal.Toward? ==> NearIsEqual())
    }

    ghost predicate OnCourse(goal: Goal<G, A>, t: Trace<G, A>, values: Configuration<G, A>) {
      match goal
      case Anything => true
      case Tree => InTree(t, values)
      case Toward(c) => Heads(t, values, c)
    }

    /** A visited link is followed, and so reaches whatever its joints lead to. */
    lemma VisitedIsFollowed(t: Trace<G, A>, values: Configuration<G, A>, queue: seq<LinkId>, link: LinkId)
      requires Searching(t, values, queue) && link in t.routes
      ensures Followed(t.start.poses.Keys, t.root, link)
      ensures forall joint, other :: Crosses(link, joint, other) ==> Reachable(t.start.poses.Keys, t.root, other)
    {
      FactsOf(t, values, queue);
      assert RouteLeadsTo(t, link) && link in Visited(t, values);
      forall joint, other | Crosses(link, joint, other) ensures Reachable(t.start.poses.Keys, t.root, other) {
        ExtendRoute(t.start.poses.Keys, t.root, t.routes[link], joint, other);
      }
    }

    lemma JointOfGoal(t: Trace<G, A>, values: Configuration<G, A>, queue: seq<LinkId>, link: LinkId, joint: Joint<G, A>,
                      c: Configuration<G, A>)
      requires Searching(t, values, queue) && Heads(t, values, c)
      requires link in t.routes && link in links && joint in links[link].joints
      ensures JointHolds(c, link, joint)
    {
      VisitedIsFollowed(t, values, queue, link);
      assert HoldsIfFollowed(t.start, t.root, c, link);
      assert HoldsAmong(c, link, links[link].joints, joint);
    }

    lemma DefaultsOnCourse(goal: Goal<G, A>, t: Trace<G, A>, values: Configuration<G, A>, ready: Configuration<G, A>,
                           queue: seq<LinkId>,
                           link: LinkId, joint: Joint<G, A>)
      requires Searching(t, values, queue) && OnCourse(goal, t, values) && Grows(values, ready)
      requires OnlyDefaults(values, ready)
      requires link in t.routes && link in links && joint in links[link].joints
      requires ready.poses == values.poses && ready.twists == values.twists
      requires ready.angles.Keys == values.angles.Keys + {joint.id}
      requires ready.velocities.Keys == values.velocities.Keys + {joint.id}
      ensures OnCourse(goal, t, ready)
    {
      FactsOf(t, values, queue);
      match goal
      case Anything =>
      case Tree => InTreeLater(t, values, ready);
      case Toward(c) => JointOfGoal(t, values, queue, link, joint, c);
    }

    /** A link met or placed stands where the goal has it, so nothing fails. */
    lemma JointTowardGoal(t: Trace<G, A>, values: Configuration<G, A>, queue: seq<LinkId>, link: LinkId,
                          joint: Joint<G, A>, other: LinkId,
                          at: PoseTwist<G, A>, r: Result<(Configuration<G, A>, bool)>, c: Configuration<G, A>)
      requires Searching(t, values, queue) && NearIsEqual() && Heads(t, values, c) && IsChecked(other, at, values, r)
      requires link in t.routes && link in values.poses && link in values.twists && Crosses(link, joint, other)
      requires joint.id in values.angles && joint.id in values.velocities
      requires OtherPoseTwist(lie, joint, link, PoseTwist(values.poses[link], values.twists[link]),
                              values.angles[joint.id], values.velocities[joint.id]) == Ok(at)
      ensures r.Ok? && Heads(Next(t, link, joint, other, r.value.1), r.value.0, c)
    {
      FactsOf(t, values, queue);
      JointOfGoal(t, values, queue, link, joint, c);
      VisitedIsFollowed(t, values, queue, link);
      assert TogetherIfReached(t.start, t.root, other);
    }

    lemma JointOnCourse(goal: Goal<G, A>, t: Trace<G, A>, values: Configuration<G, A>, queue: seq<LinkId>, link: LinkId,
                        joint: Joint<G, A>, other: LinkId,
                        at: PoseTwist<G, A>, r: Result<(Configuration<G, A>, bool)>)
      requires Searching(t, values, queue) && !goal.Anything? && Allows(goal) && OnCourse(goal, t, values)
      requires IsChecked(other, at, values, r)
      requires link in t.routes && link in values.poses && link in values.twists && Crosses(link, joint, other)
      requires joint.id in values.angles && joint.id in values.velocities
      requires OtherPoseTwist(lie, joint, link, PoseTwist(values.poses[link], values.twists[link]),
                              values.angles[joint.id], values.velocities[joint.id]) == Ok(at)
      ensures r.Ok? && OnCourse(goal, Next(t, link, joint, other, r.value.1), r.value.0)
    {
      if goal.Tree? {
        JointInTree(t, values, queue, link, joint, other, at, r);
      } else {
        JointTowardGoal(t, values, queue, link, joint, other, at, r, goal.c);
      }
    }

    lemma OnCourseAfterPop(goal: Goal<G, A>, t: Trace<G, A>, values: Configuration<G, A>, link: LinkId)
      requires OnCourse(goal, t, values)
      ensures OnCourse(goal, t.(seen := t.seen + {link}), values)
    {
      if goal.Tree? {
        InTreeAfterPop(t, values, link);
      }
    }

    // -------------------------------------------------------------------------------------
    // The search

    /** Gives the joint's angle and velocity their defaults; the search stays where it is. */
    method PrepareJoint(joint: Joint<G, A>, values: Configuration<G, A>, ghost link: LinkId, ghost queue: seq<LinkId>,
                        ghost t: Trace<G, A>,
                        ghost goal: Goal<G, A>)
      returns (ready: Configuration<G, A>)
      requires Searching(t, values, queue) && OnCourse(goal, t, values)
      requires link in t.routes && link in links && joint in links[link].joints
      ensures Searching(t, ready, queue) && Grows(values, ready) && OnCourse(goal, t, ready)
      ensures ready.poses == values.poses && ready.twists == values.twists
      ensures joint.id in ready.angles && joint.id in ready.velocities
    {
      ready := InsertZeroDefaults(joint.id, values);
      SearchAfterDefaults(t, values, ready, queue);
      DefaultsOnCourse(goal, t, values, ready, queue, link, joint);
    }

    /** One joint of the current link: place the link across it and queue it, or check its place. */
    method CrossJoint(link: LinkId, at: PoseTwist<G, A>, joint: Joint<G, A>, values: Configuration<G, A>,
                      queue: seq<LinkId>,
                      ghost t: Trace<G, A>, ghost goal: Goal<G, A>)
      returns (r: Result<(Configuration<G, A>, seq<LinkId>)>, ghost t': Trace<G, A>)
      requires SoundLinks() && Searching(t, values, queue) && link in t.seen && link in links
      requires joint in links[link].joints
      requires link in values.poses && link in values.twists && at == PoseTwist(values.poses[link], values.twists[link])
      requires joint.id in values.angles && joint.id in values.velocities
      requires Allows(goal) && OnCourse(goal, t, values)
      ensures t'.start == t.start && t'.root == t.root && t'.seen == t.seen
      ensures r.Ok? ==>
        Searching(t', r.value.0, r.value.1) && Grows(values, r.value.0) && JointHolds(r.value.0, link, joint)
      ensures r.Err? ==> IsSearchError(r.error)
      ensures !goal.Anything? ==> r.Ok? && OnCourse(goal, t', r.value.0)
    {
      FactsOf(t, values, queue);
      t' := t;
      assert SoundLink(link);
      var across := OtherPoseTwist(lie, joint, link, at, values.angles[joint.id], values.velocities[joint.id]);
      var otherLink := OtherLink(joint, link);
      if goal.Toward? {
        JointOfGoal(t, values, queue, link, joint, goal.c);
      }
      if across.Err? || otherLink.Err? {
        return Err(NotConnected), t';
      }
      var other := otherLink.value;
      var inserted := InsertWithCheck(other, across.value, values);
      if !goal.Anything? {
        JointOnCourse(goal, t, values, queue, link, joint, other, across.value, inserted);
      }
      if inserted.Err? {
        return Err(inserted.error), t';
      }
      CheckedHolds(values, link, joint, other, across.value, inserted);
      SearchAfterCheck(t, values, queue, link, joint, other, across.value, inserted);
      t' := Next(t, link, joint, other, inserted.value.1);
      r := Ok((inserted.value.0, if inserted.value.1 then queue + [other] else queue));
    }

    ghost function Next(t: Trace<G, A>, link: LinkId, joint: Joint<G, A>, other: LinkId, placed: bool): Trace<G, A>
      requires link in t.routes
    {
      if placed then Extended(t, link, joint, other) else t
    }

    lemma SearchAfterCheck(t: Trace<G, A>, values: Configuration<G, A>, queue: seq<LinkId>, link: LinkId,
                           joint: Joint<G, A>, other: LinkId,
                           at: PoseTwist<G, A>, r: Result<(Configuration<G, A>, bool)>)
      requires Searching(t, values, queue) && link in t.seen && link in t.routes && Crosses(link, joint, other)
      requires other in links
      requires IsChecked(other, at, values, r) && r.Ok?
      ensures Searching(Next(t, link, joint, other, r.value.1), r.value.0, if r.value.1 then queue + [other] else queue)
    {
      if r.value.1 {
        SearchAfterInsert(t, values, queue, link, joint, other, at);
      }
    }

    lemma CheckedHolds(values: Configuration<G, A>, link: LinkId, joint: Joint<G, A>, other: LinkId,
                       at: PoseTwist<G, A>, r: Result<(Configuration<G, A>, bool)>)
      requires IsChecked(other, at, values, r) && r.Ok? && OtherLink(joint, link) == Ok(other)
      requires link in values.poses && link in values.twists
      requires joint.id in values.angles && joint.id in values.velocities
      requires OtherPoseTwist(lie, joint, link, PoseTwist(values.poses[link], values.twists[link]),
                              values.angles[joint.id], values.velocities[joint.id]) == Ok(at)
      ensures Grows(values, r.value.0) && JointHolds(r.value.0, link, joint)
    {
    }

    lemma CheckedAgain(values: Configuration<G, A>, link: LinkId, joint: Joint<G, A>, other: LinkId,
                       at: PoseTwist<G, A>, r: Result<(Configuration<G, A>, bool)>)
      requires IsChecked(other, at, values, r) && NearIsReflexive() && PlacedFrom(values, link, joint, other)
      requires OtherPoseTwist(lie, joint, link, PoseTwist(values.poses[link], values.twists[link]),
                              values.angles[joint.id], values.velocities[joint.id]) == Ok(at)
      ensures r == Ok((values, false))
    {
    }

    lemma PlacedByInsert(values: Configuration<G, A>, link: LinkId, joint: Joint<G, A>, other: LinkId,
                         at: PoseTwist<G, A>)
      requires link in values.poses && link in values.twists && other !in values.poses
      requires joint.id in values.angles && joint.id in values.velocities
      requires OtherPoseTwist(lie, joint, link, PoseTwist(values.poses[link], values.twists[link]),
                              values.angles[joint.id], values.velocities[joint.id]) == Ok(at)
      ensures PlacedFrom(Place(values, other, at), link, joint, other)
    {
    }

    lemma OnlyVisitedArePlaced(t: Trace<G, A>, values: Configuration<G, A>, queue: seq<LinkId>, other: LinkId)
      requires Searching(t, values, queue) && InTree(t, values)
      ensures other in values.poses <==> other in t.routes
      ensures other in values.poses <==> other in values.twists
    {
      FactsOf(t, values, queue);
      assert other in t.routes <==> other in Visited(t, values);
    }

    /** On a tree the check succeeds and the tree stays exactly placed. */
    lemma JointInTree(t: Trace<G, A>, values: Configuration<G, A>, queue: seq<LinkId>, link: LinkId, joint: Joint<G, A>,
                      other: LinkId,
                      at: PoseTwist<G, A>, r: Result<(Configuration<G, A>, bool)>)
      requires Searching(t, values, queue) && IsTree() && InTree(t, values) && IsChecked(other, at, values, r)
      requires link in t.routes && link in values.poses && link in values.twists && Crosses(link, joint, other)
      requires joint.id in values.angles && joint.id in values.velocities
      requires OtherPoseTwist(lie, joint, link, PoseTwist(values.poses[link], values.twists[link]),
                              values.angles[joint.id], values.velocities[joint.id]) == Ok(at)
      ensures r.Ok? && InTree(Next(t, link, joint, other, r.value.1), r.value.0)
    {
      FactsOf(t, values, queue);
      OnlyVisitedArePlaced(t, values, queue, other);
      if other in values.poses {
        MetAgain(t, values, queue, link, joint, other);
        CheckedAgain(values, link, joint, other, at, r);
      } else {
        PlacedByInsert(values, link, joint, other, at);
        InTreeAfterInsert(t, values, queue, link, joint, other, at);
      }
    }

    lemma AllHoldLater(before: Configuration<G, A>, after: Configuration<G, A>, link: LinkId, joints: seq<Joint<G, A>>,
                       next: Joint<G, A>)
      requires AllHold(before, link, joints) && Grows(before, after) && JointHolds(after, link, next)
      ensures AllHold(after, link, joints + [next])
    {
      forall joint ensures HoldsAmong(after, link, joints + [next], joint) {
        assert HoldsAmong(before, link, joints, joint);
        if joint in joints {
          JointHoldsLater(before, after, link, joint);
        }
      }
    }

    /** `at` is where the link stands. */
    ghost predicate StandsAt(values: Configuration<G, A>, link: LinkId, at: PoseTwist<G, A>) {
      link in values.poses && link in values.twists && at == PoseTwist(values.poses[link], values.twists[link])
    }

    /** One joint of the current link, after the joints in `before`. */
    method VisitJoint(link: LinkId, at: PoseTwist<G, A>, joint: Joint<G, A>, values: Configuration<G, A>,
                      queue: seq<LinkId>,
                      ghost before: seq<Joint<G, A>>, ghost t: Trace<G, A>, ghost goal: Goal<G, A>)
      returns (r: Result<(Configuration<G, A>, seq<LinkId>)>, ghost t': Trace<G, A>)
      requires SoundLinks() && Searching(t, values, queue) && link in t.seen && link in links
      requires joint in links[link].joints
      requires StandsAt(values, link, at) && AllHold(values, link, before)
      requires Allows(goal) && OnCourse(goal, t, values)
      ensures t'.start == t.start && t'.root == t.root && t'.seen == t.seen
      ensures r.Ok? ==> Searching(t', r.value.0, r.value.1) && Grows(values, r.value.0)
      ensures r.Ok? ==> StandsAt(r.value.0, link, at) && AllHold(r.value.0, link, before + [joint])
      ensures r.Err? ==> IsSearchError(r.error)
      ensures !goal.Anything? ==> r.Ok? && OnCourse(goal, t', r.value.0)
    {
      FactsOf(t, values, queue);
      var ready := PrepareJoint(joint, values, link, queue, t, goal);
      r, t' := CrossJoint(link, at, joint, ready, queue, t, goal);
      if r.Ok? {
        AllHoldLater(values, r.value.0, link, before, joint);
      }
    }

    /** All joints of the link just taken from the queue. */
    method VisitLink(link: LinkId, values: Configuration<G, A>, queue: seq<LinkId>, ghost t: Trace<G, A>,
                     ghost goal: Goal<G, A>)
      returns (r: Result<(Configuration<G, A>, seq<LinkId>)>, ghost t': Trace<G, A>)
      requires SoundLinks() && Searching(t, values, queue) && link in t.seen && link in links
      requires link in values.poses && link in values.twists
      requires Allows(goal) && OnCourse(goal, t, values)
      ensures t'.start == t.start && t'.root == t.root && t'.seen == t.seen
      ensures r.Ok? ==> Searching(t', r.value.0, r.value.1) && Grows(values, r.value.0) && JointsHold(r.value.0, link)
      ensures r.Err? ==> IsSearchError(r.error)
      ensures !goal.Anything? ==> r.Ok? && OnCourse(goal, t', r.value.0)
    {
      var at, joints := PoseTwist(values.poses[link], values.twists[link]), links[link].joints;
      var current, waiting := values, queue;
      t' := t;
      for i := 0 to |joints|
        invariant t'.start == t.start && t'.root == t.root && t'.seen == t.seen
        invariant Searching(t', current, waiting) && Grows(values, current)
        invariant StandsAt(current, link, at) && AllHold(current, link, joints[..i])
        invariant OnCourse(goal, t', current)
      {
        var crossed;
        crossed, t' := VisitJoint(link, at, joints[i], current, waiting, joints[..i], t', goal);
        if crossed.Err? {
          return Err(crossed.error), t';
        }
        assert joints[..i + 1] == joints[..i] + [joints[i]];
        current, waiting := crossed.value.0, crossed.value.1;
      }
      assert joints[..|joints|] == joints;
      r := Ok((current, waiting));
    }

    lemma SearchBegins(start: Configuration<G, A>, root: LinkId)
      requires root in start.poses && root in start.twists && root in links
      ensures Searching(Trace(start, root, {}, map[root := Walk([root], [])]), start, [root])
      ensures start.poses.Keys == start.twists.Keys == {root} ==>
        InTree(Trace(start, root, {}, map[root := Walk([root], [])]), start)
    {
      assert Visited(Trace(start, root, {}, map[root := Walk([root], [])]), start) == {root};
    }

    lemma SeenAreFew(t: Trace<G, A>, values: Configuration<G, A>, queue: seq<LinkId>)
      requires SoundLinks() && Searching(t, values, queue)
      ensures t.seen <= links.Keys && |t.seen| <= 256
    {
      FactsOf(t, values, queue);
      forall l | l in t.seen ensures l < 256 {
        assert SoundLink(l);
      }
      BoundedIds(t.seen, 256);
    }

    /** A reason why the search cannot fail, if there is one. */
    ghost function ChooseGoal(start: Configuration<G, A>, root: LinkId): (goal: Goal<G, A>)
      requires root in start.poses && root in start.twists && root in links
      ensures Allows(goal) && OnCourse(goal, Trace(start, root, {}, map[root := Walk([root], [])]), start)
      ensures IsTree() && start.poses.Keys == start.twists.Keys == {root} ==> !goal.Anything?
      ensures NearIsEqual() && GivenTogether(start, root) && (exists c :: Explains(start, root, c)) ==> !goal.Anything?
    {
      SearchBegins(start, root);
      if IsTree() && start.poses.Keys == start.twists.Keys == {root} then Tree
      else if NearIsEqual() && GivenTogether(start, root) && exists c :: Explains(start, root, c) then
        var c :| Explains(start, root, c);
        Toward(c)
      else Anything
    }

    /** The joints of every link that has left the queue hold. */
    ghost predicate SeenHold(t: Trace<G, A>, values: Configuration<G, A>) {
      forall l :: HoldsIfSeen(t, values, l)
    }

    ghost predicate HoldsIfSeen(t: Trace<G, A>, values: Configuration<G, A>, l: LinkId) {
      l in t.seen ==> JointsHold(values, l)
    }

    lemma HoldAfterVisit(t: Trace<G, A>, before: Configuration<G, A>, t': Trace<G, A>, after: Configuration<G, A>,
                         link: LinkId)
      requires SeenHold(t, before) && t'.seen == t.seen + {link}
      requires Grows(before, after) && JointsHold(after, link)
      ensures SeenHold(t', after)
    {
      forall l ensures HoldsIfSeen(t', after, l) {
        assert HoldsIfSeen(t, before, l);
        if l in t.seen {
          JointsHoldLater(before, after, l);
        }
      }
    }

    /** Takes the next link from the queue and visits it. */
    method VisitNext(values: Configuration<G, A>, queue: seq<LinkId>, ghost t: Trace<G, A>, ghost goal: Goal<G, A>)
      returns (r: Result<(Configuration<G, A>, seq<LinkId>)>, ghost t': Trace<G, A>)
      requires SoundLinks() && Searching(t, values, queue) && SeenHold(t, values) && queue != []
      requires Allows(goal) && OnCourse(goal, t, values)
      ensures t'.start == t.start && t'.root == t.root && t'.seen == t.seen + {queue[0]}
      ensures queue[0] !in t.seen && queue[0] in links
      ensures r.Ok? ==> Searching(t', r.value.0, r.value.1) && SeenHold(t', r.value.0)
      ensures r.Err? ==> IsSearchError(r.error)
      ensures !goal.Anything? ==> r.Ok? && OnCourse(goal, t', r.value.0)
    {
      var link := queue[0];
      FactsOf(t, values, queue);
      assert link in Elements(queue);
      VisitedHaveTwists(t, values, queue, link);
      SearchAfterPop(t, values, queue);
      OnCourseAfterPop(goal, t, values, link);
      r, t' := VisitLink(link, values, queue[1..], t.(seen := t.seen + {link}), goal);
      if r.Ok? {
        HoldAfterVisit(t, values, t', r.value.0, link);
      }
    }

    lemma InTreeAfterPop(t: Trace<G, A>, values: Configuration<G, A>, link: LinkId)
      requires InTree(t, values)
      ensures InTree(t.(seen := t.seen + {link}), values)
    {
      forall l ensures IsPlaced(t.(seen := t.seen + {link}), values, l) {
        assert IsPlaced(t, values, l);
      }
    }

    /** The search. Its bound on the number of rounds is never reached: ids have eight bits. */
    method Search(start: Configuration<G, A>, root: LinkId)
      returns (r: Result<Configuration<G, A>>, ghost t: Trace<G, A>)
      requires SoundLinks() && root in links && root in start.poses && root in start.twists
      ensures t.start == start && t.root == root
      ensures r.Ok? ==> Searching(t, r.value, []) && SeenHold(t, r.value)
      ensures r.Err? ==> IsSearchError(r.error)
      ensures IsTree() && start.poses.Keys == start.twists.Keys == {root} ==> r.Ok?
      ensures NearIsEqual() && GivenTogether(start, root) && (exists c :: Explains(start, root, c)) ==> r.Ok?
    {
      var values, queue, loopCount := start, [root], 0;
      ghost var goal := ChooseGoal(start, root);
      t := Trace(start, root, {}, map[root := Walk([root], [])]);
      SearchBegins(start, root);
      while queue != []
        invariant t.start == start && t.root == root
        invariant Searching(t, values, queue) && SeenHold(t, values)
        invariant loopCount == |t.seen| && t.seen <= links.Keys
        invariant OnCourse(goal, t, values)
        decreases links.Keys - t.seen
      {
        var visited;
        visited, t := VisitNext(values, queue, t, goal);
        if visited.Err? {
          return Err(visited.error), t;
        }
        values, queue := visited.value.0, visited.value.1;
        SeenAreFew(t, values, queue);
        if loopCount > 100000 {
          return Err(InfiniteLoop), t;
        }
        loopCount := loopCount + 1;
      }
      r := Ok(values);
    }

    // -------------------------------------------------------------------------------------
    // Forward kinematics

    /** The route's links were all placed; all but the last were followed. */
    lemma {:induction false} RouteIsFollowed(t: Trace<G, A>, values: Configuration<G, A>, walk: Walk<G, A>, n: nat)
      requires Searching(t, values, []) && SeenHold(t, values)
      requires IsRoute(t.start.poses.Keys, t.root, walk) && n <= |walk.joints|
      ensures walk.links[n] in values.poses
      ensures n < |walk.joints| ==> walk.links[n] in t.seen
    {
      FactsOf(t, values, []);
      if n > 0 {
        var from, joint := walk.links[n - 1], walk.joints[n - 1];
        RouteIsFollowed(t, values, walk, n - 1);
        assert Crosses(from, joint, walk.links[n]);
        assert HoldsIfSeen(t, values, from);
        assert HoldsAmong(values, from, links[from].joints, joint);
        assert n < |walk.joints| ==> walk.links[n] in Visited(t, values);
      } else {
        assert t.root in Visited(t, values);
      }
    }

    /** When the queue is empty, the links placed are exactly those known or reachable. */
    lemma ReachIsExact(t: Trace<G, A>, values: Configuration<G, A>, link: LinkId)
      requires Searching(t, values, []) && SeenHold(t, values)
      ensures link in values.poses <==> link in t.start.poses || Reachable(t.start.poses.Keys, t.root, link)
      ensures Followed(t.start.poses.Keys, t.root, link) <==> link in t.seen
    {
      FactsOf(t, values, []);
      assert Visited(t, values) == t.seen == t.routes.Keys;
      if link in t.seen {
        assert RouteLeadsTo(t, link);
      }
      if Reachable(t.start.poses.Keys, t.root, link) {
        var walk :| IsRoute(t.start.poses.Keys, t.root, walk) && End(walk) == link;
        RouteIsFollowed(t, values, walk, |walk.joints|);
      }
    }

    /** What forward kinematics promises about its answer. */
    ghost predicate IsSolution(start: Configuration<G, A>, root: LinkId, values: Configuration<G, A>) {
      && Grows(start, values) && OnlyDefaults(start, values)
      && (forall l :: l in values.poses <==> l in start.poses || Reachable(start.poses.Keys, root, l))
      && (forall l :: Followed(start.poses.Keys, root, l) ==> JointsHold(values, l))
    }

    lemma SearchSolves(t: Trace<G, A>, values: Configuration<G, A>)
      requires Searching(t, values, []) && SeenHold(t, values)
      ensures IsSolution(t.start, t.root, values)
    {
      FactsOf(t, values, []);
      forall l ensures l in values.poses <==> l in t.start.poses || Reachable(t.start.poses.Keys, t.root, l) {
        ReachIsExact(t, values, l);
      }
      forall l | Followed(t.start.poses.Keys, t.root, l) ensures JointsHold(values, l) {
        ReachIsExact(t, values, l);
        assert HoldsIfSeen(t, values, l);
      }
    }

    /** A solution satisfies the joints itself, and met no link of which only half was given. */
    lemma SolutionExplains(start: Configuration<G, A>, root: LinkId, values: Configuration<G, A>)
      requires IsSolution(start, root, values) && root in start.poses && root in start.twists
      ensures Explains(start, root, values) && GivenTogether(start, root)
    {
      forall l ensures TogetherIfReached(start, root, l) {
        if Reachable(start.poses.Keys, root, l) {
          ReachedHasTwist(start, root, values, l);
        }
      }
    }

    lemma ReachedHasTwist(start: Configuration<G, A>, root: LinkId, values: Configuration<G, A>, l: LinkId)
      requires IsSolution(start, root, values) && root in start.poses && root in start.twists
      requires Reachable(start.poses.Keys, root, l)
      ensures l in values.poses && l in values.twists
    {
      var walk :| IsRoute(start.poses.Keys, root, walk) && End(walk) == l;
      if walk.joints != [] {
        LastIsFollowed(start.poses.Keys, root, walk, |walk.joints| - 1);
        var n := |walk.joints| - 1;
        assert HoldsAmong(values, walk.links[n], links[walk.links[n]].joints, walk.joints[n]);
      }
    }

    /** Every link of a route but the last is followed. */
    lemma LastIsFollowed(pre: set<LinkId>, root: LinkId, walk: Walk<G, A>, n: nat)
      requires IsRoute(pre, root, walk) && n < |walk.joints|
      ensures Followed(pre, root, walk.links[n]) && Crosses(walk.links[n], walk.joints[n], walk.links[n + 1])
    {
      var part := Walk(walk.links[..n + 1], walk.joints[..n]);
      assert IsRoute(pre, root, part) && End(part) == walk.links[n];
    }

    /** The two agree on a link's pose and twist. */
    ghost predicate AgreeAt(values: Configuration<G, A>, c: Configuration<G, A>, l: LinkId) {
      && l in values.poses && l in values.twists && l in c.poses && l in c.twists
      && values.poses[l] == c.poses[l] && values.twists[l] == c.twists[l]
    }

    lemma {:induction false} RouteAgrees(start: Configuration<G, A>, root: LinkId, values: Configuration<G, A>,
                                         c: Configuration<G, A>,
                                         walk: Walk<G, A>, n: nat)
      requires IsSolution(start, root, values) && root in start.poses && root in start.twists
      requires NearIsEqual() && Explains(start, root, c) && IsRoute(start.poses.Keys, root, walk) && n <= |walk.joints|
      ensures AgreeAt(values, c, walk.links[n])
    {
      if n > 0 {
        var from, joint := walk.links[n - 1], walk.joints[n - 1];
        RouteAgrees(start, root, values, c, walk, n - 1);
        LastIsFollowed(start.poses.Keys, root, walk, n - 1);
        assert HoldsIfFollowed(start, root, c, from);
        assert HoldsAmong(values, from, links[from].joints, joint);
        assert HoldsAmong(c, from, links[from].joints, joint);
      }
    }

    /** Whatever satisfies the joints has the solution's poses and twists. */
    lemma SolutionIsForced(start: Configuration<G, A>, root: LinkId, values: Configuration<G, A>,
                           c: Configuration<G, A>)
      requires IsSolution(start, root, values) && root in start.poses && root in start.twists
      requires NearIsEqual() && Explains(start, root, c)
      ensures Contains(c.poses, values.poses) && Contains(c.twists, values.twists)
    {
      forall l | l in values.poses && l !in start.poses ensures AgreeAt(values, c, l) {
        var walk :| IsRoute(start.poses.Keys, root, walk) && End(walk) == l;
        RouteAgrees(start, root, values, c, walk, |walk.joints|);
      }
    }

    /** The root alone may be given: it is known or fixed, not both, and nothing else is either. */
    ghost predicate OnlyRootGiven(known: Configuration<G, A>, root: LinkId) {
      && known.poses.Keys <= {root} && known.twists.Keys <= {root} && FixedLinks() <= {root}
      && Unplaced(known, FixedLinks())
    }

    lemma StartsFromRoot(known: Configuration<G, A>, root: LinkId)
      requires OnlyRootGiven(known, root)
      ensures StartAt(known, root).poses.Keys == StartAt(known, root).twists.Keys == {root}
    {
    }

    /**
     * Poses and twists of all links that can be reached from the root.
     * On success the answer extends what was known, the fixed links stand where they are fixed and the
     * root stands at the origin unless it is given or fixed; it holds exactly the links known at the start
     * or reachable from the root over links that were not, and every joint of a link the search
     * followed relates its two links. The loop bound is never hit. On a robot without loops of
     * which only the root is given, it never fails. On any robot, when poses and twists are compared
     * exactly, it succeeds if and only if no fixed link is given, no reachable link is given by half,
     * and some configuration satisfies all those joints; and then every such configuration contains
     * the answer's poses and twists.
     */
    method ForwardKinematics(known: Configuration<G, A>, prior: Option<string>)
      returns (r: Result<Configuration<G, A>>, ghost root: LinkId)
      requires WellFormed()
      ensures r.Ok? ==> IsRoot(prior, root) && IsSolution(StartAt(known, root), root, r.value)
      ensures r.Ok? ==> Grows(known, r.value) && FixedLinksStand(r.value) && RootStands(known, root, r.value)
      ensures r.Err? ==> !r.error.InfiniteLoop?
      ensures r.Err? && r.error.NoRootLink? <==> forall l :: !IsRoot(prior, l)
      ensures forall l :: IsTree() && IsRoot(prior, l) && OnlyRootGiven(known, l) ==> r.Ok?
      ensures forall l :: NearIsEqual() && IsRoot(prior, l) ==>
        (r.Ok? <==> Unplaced(known, FixedLinks()) && CanBeExplained(StartAt(known, l), l))
      ensures r.Ok? && NearIsEqual() ==>
        forall c :: Explains(StartAt(known, root), root, c) ==>
          Contains(c.poses, r.value.poses) && Contains(c.twists, r.value.twists)
    {
      root := 0;
      var found := FindRootLink(prior);
      if found.Err? {
        return Err(found.error), root;
      }
      root := found.value;
      OneRoot(prior, root);
      var start := Begin(known, found.value);
      if start.Err? {
        return Err(start.error), root;
      }
      if OnlyRootGiven(known, root) {
        StartsFromRoot(known, root);
      }
      ghost var t;
      r, t := Search(start.value, found.value);
      if r.Ok? {
        SearchSolves(t, r.value);
        SolutionExplains(start.value, root, r.value);
        StartIsKept(known, root, r.value);
        if NearIsEqual() {
          forall c | Explains(start.value, root, c)
            ensures Contains(c.poses, r.value.poses) && Contains(c.twists, r.value.twists)
          {
            SolutionIsForced(start.value, root, r.value, c);
          }
        }
      }
    }

    /** Some configuration extends the start and satisfies the joints of all links followed from there. */
    ghost predicate CanBeExplained(start: Configuration<G, A>, root: LinkId) {
      GivenTogether(start, root) && exists c :: Explains(start, root, c)
    }

    lemma OneRoot(prior: Option<string>, root: LinkId)
      requires WellFormed() && IsRoot(prior, root)
      ensures forall l :: IsRoot(prior, l) ==> l == root
    {
      forall l | IsRoot(prior, l) ensures l == root {
        RootIsUnique(prior, l, root);
      }
    }

    /** Fixed links are placed, and the root if it is not placed yet. */
    method Begin(known: Configuration<G, A>, root: LinkId) returns (r: Result<Configuration<G, A>>)
      requires WellFormed()
      ensures r.Ok? <==> Unplaced(known, FixedLinks())
      ensures r.Ok? ==> r.value == StartAt(known, root)
      ensures r.Err? ==> r.error.KeyAlreadyExists?
    {
      r := InsertFixedLinks(known);
      if r.Ok? {
        var start := r.value;
        if root !in start.poses {
          start := start.(poses := start.poses[root := lie.identity]);
        }
        if root !in start.twists {
          start := start.(twists := start.twists[root := lie.zero]);
        }
        r := Ok(start);
      }
    }
  }

  // ---------------------------------------------------------------------------------------
  // A concrete robot without loops

  /** Two links and one joint between them, over the matrix group of LieGroups. */
  function TwoLinks(joint: Joint<Shear, Shear>): Robot<Shear, Shear> {
    Robot(Heisenberg(), (g: Shear, h: Shear) => g == h, (v: Shear, w: Shear) => v == w,
          map[0 := Link("base", None, [joint]), 1 := Link("tip", None, [joint])], [0, 1])
  }

  lemma WalksAreShort(joint: Joint<Shear, Shear>, walk: Walk<Shear, Shear>)
    requires TwoLinks(joint).IsWalk(walk)
    ensures |walk.joints| <= 1 && forall i :: 0 <= i < |walk.joints| ==> walk.joints[i] == joint
  {
    forall i | 0 <= i < |walk.joints| ensures walk.joints[i] == joint {
      assert TwoLinks(joint).JointOf(walk.joints[i]);
    }
    if |walk.joints| > 1 {
      FirstTwoDiffer(walk.joints);
    }
  }

  lemma FirstTwoDiffer<T>(s: seq<T>)
    requires NoRepeat(s) && |s| > 1
    ensures s[0] != s[1]
  {
    assert s[1 - 1] != s[1];
  }

  /** The assumptions under which forward kinematics cannot fail can be met. */
  lemma TwoLinksAreATree(bTj: Shear, bMp: Shear, bMc: Shear, axis: Shear)
    ensures var robot := TwoLinks(MakeJoint(Heisenberg(), 0, 0, 1, bTj, bMp, bMc, axis));
      && robot.WellFormed() && robot.IsTree() && robot.IsRoot(Some("base"), 0)
      && robot.OnlyRootGiven(Configuration(map[], map[], map[], map[]), 0)
  {
    var joint := MakeJoint(Heisenberg(), 0, 0, 1, bTj, bMp, bMc, axis);
    var robot := TwoLinks(joint);
    HeisenbergIsLieGroup();
    MadeJointsAgree(Heisenberg(), 0, 0, 1, bTj, bMp, bMc, axis);
    forall walk | robot.IsWalk(walk) && walk.joints != [] ensures walk.links[0] != robot.End(walk) {
      WalksAreShort(joint, walk);
      assert robot.Connects(walk.joints[0], walk.links[0], walk.links[1]);
    }
    assert robot.JointsAgree();
    assert robot.SoundLinks();
  }
}

/**
 * Jacobians of all variables with respect to the basis variables, by walking an eliminated
 * linear system backwards (ComputeBayesNetJacobian).
 */
module BayesNet {
  import opened Prelude
  import opened LinearAlgebra
  import opened Triangular
  import opened MultiJacobian

  /** One conditional of the eliminated system: `r * frontals + s * parents == 0`. */
  datatype Conditional = Conditional(frontals: seq<Key>, parents: seq<Key>, r: Matrix, s: Matrix)

  type Jacobians = map<Key, Blocks>

  ghost predicate Known(keys: seq<Key>, width: map<Key, nat>) {
    forall k :: k in keys ==> k in width
  }

  /** The joint dimension of some variables. */
  function Offset(keys: seq<Key>, width: map<Key, nat>): nat
    requires Known(keys, width)
  {
    if keys == [] then 0 else Offset(keys[..|keys| - 1], width) + width[keys[|keys| - 1]]
  }

  ghost predicate WellFormed(c: Conditional, width: map<Key, nat>) {
    && Known(c.frontals, width) && Known(c.parents, width)
    && IsUpper(c.r) && c.r.rows == Offset(c.frontals, width)
    && c.s.rows == c.r.rows && c.s.cols == Offset(c.parents, width)
  }

  /** A vector of the right dimension for each listed variable. */
  ghost predicate Assigns(v: map<Key, Vector>, keys: seq<Key>, width: map<Key, nat>) {
    Known(keys, width) && forall k :: k in keys ==> k in v && |v[k]| == width[k]
  }

  /** The vectors of some variables, one after the other. */
  ghost function Stack(keys: seq<Key>, v: map<Key, Vector>, width: map<Key, nat>): (x: Vector)
    requires Assigns(v, keys, width)
    ensures |x| == Offset(keys, width)
  {
    if keys == [] then [] else Stack(keys[..|keys| - 1], v, width) + v[keys[|keys| - 1]]
  }

  /** The conditional holds of the given steps. */
  ghost predicate Satisfies(c: Conditional, v: map<Key, Vector>, width: map<Key, nat>)
    requires WellFormed(c, width) && Assigns(v, c.frontals, width) && Assigns(v, c.parents, width)
  {
    Plus(Apply(c.r, Stack(c.frontals, v, width)), Apply(c.s, Stack(c.parents, v, width))) == Zero(c.r.rows)
  }

  // ---------------------------------------------------------------------------------------
  // What the walk computes

  function Of(j: Jacobians, k: Key): Blocks {
    if k in j then j[k] else map[]
  }

  ghost predicate AllShaped(j: Jacobians, width: map<Key, nat>) {
    forall k :: k in j ==> k in width && Shaped(j[k], width[k], width)
  }

  /** The dependence of frontals on parents: the negated solution of `r * x == s`. */
  function Dependence(c: Conditional): (m: Matrix)
    requires IsUpper(c.r) && c.s.rows == c.r.rows
    ensures m.rows == c.s.rows && m.cols == c.s.cols
  {
    NegateMatrix(SolveUpper(c.r, c.s))
  }

  /** What a parent contributes from; a frontal that is its own parent sees what it has so far. */
  function ParentBlocks(j: Jacobians, f: Key, soFar: Blocks, p: Key): Blocks {
    if p == f then soFar else Of(j, p)
  }

  /** The Jacobian of the frontal `f`, adding one parent after the other. */
  function FrontalBlocks(j: Jacobians, f: Key, m: Matrix, position: nat, parents: seq<Key>, tol: real,
                         width: map<Key, nat>): (b: Blocks)
    requires AllShaped(j, width) && Known(parents, width) && f in width
    requires position + width[f] <= m.rows && Offset(parents, width) <= m.cols
    ensures Shaped(b, width[f], width)
  {
    if parents == [] then map[]
    else
      var before, p := parents[..|parents| - 1], parents[|parents| - 1];
      var soFar := FrontalBlocks(j, f, m, position, before, tol, width);
      ChainRule(soFar, Block(m, position, Offset(before, width), width[f], width[p]), ParentBlocks(j, f, soFar, p),
                tol, width)
  }

  /** Looking up a variable that has no Jacobian yet gives it an empty one. */
  function WithParents(j: Jacobians, parents: seq<Key>): (r: Jacobians)
    ensures r.Keys == j.Keys + Elements(parents)
    ensures forall k :: k in r ==> r[k] == Of(j, k)
  {
    if parents == [] then j
    else
      var before, p := WithParents(j, parents[..|parents| - 1]), parents[|parents| - 1];
      assert forall k :: k in parents <==> k in parents[..|parents| - 1] || k == p;
      if p in before then before else before[p := map[]]
  }

  /** The frontal's Jacobian is set, and the parents looked up. */
  function WithFrontal(j: Jacobians, f: Key, blocks: Blocks, parents: seq<Key>): Jacobians {
    WithParents(j[f := blocks], parents)
  }

  lemma WithFrontalIs(j: Jacobians, f: Key, blocks: Blocks, parents: seq<Key>)
    ensures var r := WithFrontal(j, f, blocks, parents);
      && r.Keys == j.Keys + {f} + Elements(parents) && r[f] == blocks
      && forall k :: k in r && k != f ==> r[k] == Of(j, k)
  {
  }

  /** With known parents, only the frontal changes. */
  lemma WithFrontalKnown(j: Jacobians, f: Key, blocks: Blocks, parents: seq<Key>)
    requires Elements(parents) <= j.Keys
    ensures WithFrontal(j, f, blocks, parents) == j[f := blocks]
  {
  }

  lemma WithFrontalShaped(j: Jacobians, f: Key, blocks: Blocks, parents: seq<Key>, width: map<Key, nat>)
    requires AllShaped(j, width) && Known(parents, width) && f in width && Shaped(blocks, width[f], width)
    ensures AllShaped(WithFrontal(j, f, blocks, parents), width)
  {
    hide WithFrontal;
    WithFrontalIs(j, f, blocks, parents);
    var r := WithFrontal(j, f, blocks, parents);
    forall k | k in r ensures k in width && Shaped(r[k], width[k], width) {
      assert k in j.Keys + {f} + Elements(parents);
    }
  }

  /** The blocks of frontal `n`. */
  function NewBlocks(j: Jacobians, c: Conditional, n: nat, tol: real, width: map<Key, nat>): (b: Blocks)
    requires AllShaped(j, width) && WellFormed(c, width) && n < |c.frontals|
    ensures c.frontals[n] in width && Shaped(b, width[c.frontals[n]], width)
  {
    OffsetPrefix(c.frontals, n, width);
    FrontalBlocks(j, c.frontals[n], Dependence(c), Offset(c.frontals[..n], width), c.parents, tol, width)
  }

  /** The first `n` frontals of a conditional. */
  function AddFrontals(j: Jacobians, c: Conditional, n: nat, tol: real, width: map<Key, nat>): (r: Jacobians)
    requires AllShaped(j, width) && WellFormed(c, width) && n <= |c.frontals|
    ensures AllShaped(r, width)
  {
    if n == 0 then j
    else
      var before := AddFrontals(j, c, n - 1, tol, width);
      WithFrontalShaped(before, c.frontals[n - 1], NewBlocks(before, c, n - 1, tol, width), c.parents, width);
      WithFrontal(before, c.frontals[n - 1], NewBlocks(before, c, n - 1, tol, width), c.parents)
  }

  /** The conditionals, last one first. */
  function Walk(j: Jacobians, net: seq<Conditional>, tol: real, width: map<Key, nat>): (r: Jacobians)
    requires AllShaped(j, width) && forall c :: c in net ==> WellFormed(c, width)
    ensures AllShaped(r, width)
    decreases |net|
  {
    if net == [] then j
    else
      var c := net[|net| - 1];
      Walk(AddFrontals(j, c, |c.frontals|, tol, width), net[..|net| - 1], tol, width)
  }

  /** Basis variables that have no Jacobian yet depend on themselves only. */
  function WithBasis(j: Jacobians, basis: seq<Key>, width: map<Key, nat>): (r: Jacobians)
    requires AllShaped(j, width) && Known(basis, width)
    ensures AllShaped(r, width)
  {
    if basis == [] then j
    else
      var before, k := WithBasis(j, basis[..|basis| - 1], width), basis[|basis| - 1];
      if k in before then before else before[k := IdentityBlocks(k, width[k])]
  }

  lemma {:induction false} OffsetPrefix(keys: seq<Key>, n: nat, width: map<Key, nat>)
    requires Known(keys, width) && n < |keys|
    ensures Known(keys[..n], width) && keys[n] in width
    ensures Offset(keys[..n], width) + width[keys[n]] == Offset(keys[..n + 1], width)
    ensures Offset(keys[..n + 1], width) <= Offset(keys, width)
    decreases |keys|
  {
    assert keys[..n + 1][..n] == keys[..n];
    if n + 1 < |keys| {
      var before := keys[..|keys| - 1];
      assert before[..n] == keys[..n] && before[..n + 1] == keys[..n + 1];
      OffsetPrefix(before, n, width);
    } else {
      assert keys[..n + 1] == keys;
    }
  }

  // ---------------------------------------------------------------------------------------
  // The loops

  lemma SetFrontal(j: Jacobians, f: Key, result: Jacobians, blocks: Blocks, parents: seq<Key>)
    requires result == WithParents(j[f := map[]], parents)
    ensures result[f := blocks] == WithFrontal(j, f, blocks, parents)
  {
    WithFrontalIs(j, f, blocks, parents);
    var r := WithFrontal(j, f, blocks, parents);
    assert result[f := blocks].Keys == r.Keys;
    forall k | k in r ensures result[f := blocks][k] == r[k] {}
  }

  lemma NextParent(j: Jacobians, parents: seq<Key>, i: nat)
    requires i < |parents|
    ensures var before := WithParents(j, parents[..i]);
      WithParents(j, parents[..i + 1]) == if parents[i] in before then before else before[parents[i] := map[]]
  {
    assert parents[..i + 1][..i] == parents[..i];
  }

  lemma ParentLookedUp(j: Jacobians, f: Key, soFar: Blocks, result: Jacobians, p: Key, width: map<Key, nat>)
    requires AllShaped(j, width) && f in width && p in width && Shaped(soFar, width[f], width)
    requires p in result && result[p] == Of(j[f := map[]], p)
    ensures (if p == f then soFar else result[p]) == ParentBlocks(j, f, soFar, p)
    ensures Shaped(ParentBlocks(j, f, soFar, p), width[p], width)
  {
  }

  /** The innermost loop: the parents of one frontal, at running positions. */
  method FrontalJacobian(j: Jacobians, f: Key, m: Matrix, position: nat, parents: seq<Key>, tol: real,
                         width: map<Key, nat>)
    returns (r: Result<Jacobians>)
    requires AllShaped(j, width) && Known(parents, width) && f in width
    requires position + width[f] <= m.rows && Offset(parents, width) <= m.cols
    ensures r == Ok(WithFrontal(j, f, FrontalBlocks(j, f, m, position, parents, tol, width), parents))
  {
    hide ChainRule, Shaped, ParentBlocks;
    var jacobian := new MultiJacobian();
    var result := j[f := map[]];
    var dim, parentPosition := width[f], 0;
    for i := 0 to |parents|
      invariant parentPosition == Offset(parents[..i], width) <= Offset(parents, width)
      invariant jacobian.blocks == FrontalBlocks(j, f, m, position, parents[..i], tol, width)
      invariant result == WithParents(j[f := map[]], parents[..i])
    {
      OffsetPrefix(parents, i, width);
      assert parents[..i + 1][..i] == parents[..i];
      NextParent(j[f := map[]], parents, i);
      var p := parents[i];
      var parentDim := width[p];
      if position + dim > m.rows || parentPosition + parentDim > m.cols {
        return Err(WrongSize);
      }
      if p !in result {
        result := result[p := map[]];
      }
      var parent := if p == f then jacobian.blocks else result[p];
      ParentLookedUp(j, f, jacobian.blocks, result, p, width);
      jacobian.AddJacobianChainRule(Block(m, position, parentPosition, dim, parentDim), parent, tol, width);
      parentPosition := parentPosition + parentDim;
    }
    assert parents[..|parents|] == parents;
    SetFrontal(j, f, result, jacobian.blocks, parents);
    r := Ok(result[f := jacobian.blocks]);
  }

  /** The loop over the frontals of one conditional. */
  method ConditionalJacobians(j: Jacobians, c: Conditional, tol: real, width: map<Key, nat>)
    returns (r: Result<Jacobians>)
    requires AllShaped(j, width) && WellFormed(c, width)
    ensures r == Ok(AddFrontals(j, c, |c.frontals|, tol, width))
  {
    hide FrontalBlocks, WithFrontal, Shaped;
    var m := Dependence(c);
    var result := j;
    var position := 0;
    for n := 0 to |c.frontals|
      invariant position == Offset(c.frontals[..n], width)
      invariant result == AddFrontals(j, c, n, tol, width)
    {
      OffsetPrefix(c.frontals, n, width);
      var one := FrontalJacobian(result, c.frontals[n], m, position, c.parents, tol, width);
      match one {
        case Err(e) => return Err(e);
        case Ok(next) => result := next;
      }
      position := position + width[c.frontals[n]];
    }
    r := Ok(result);
  }

  /** The whole computation: identities for the basis, then the conditionals in reverse. */
  method ComputeBayesNetJacobian(net: seq<Conditional>, basis: seq<Key>, width: map<Key, nat>, jacobians: Jacobians,
                                 tol: real)
    returns (r: Result<Jacobians>)
    requires AllShaped(jacobians, width) && Known(basis, width) && forall c :: c in net ==> WellFormed(c, width)
    ensures r == Ok(Walk(WithBasis(jacobians, basis, width), net, tol, width))
  {
    var j: Jacobians := jacobians;
    for i := 0 to |basis|
      invariant j == WithBasis(jacobians, basis[..i], width)
    {
      assert basis[..i + 1][..i] == basis[..i];
      if basis[i] !in j {
        j := j[basis[i] := IdentityBlocks(basis[i], width[basis[i]])];
      }
    }
    assert basis[..|basis|] == basis;
    ghost var start := j;
    var n := |net|;
    assert net[..n] == net;
    while n > 0
      invariant 0 <= n <= |net| && AllShaped(j, width)
      invariant forall c :: c in net[..n] ==> WellFormed(c, width)
      invariant Walk(j, net[..n], tol, width) == Walk(start, net, tol, width)
    {
      assert net[..n][..n - 1] == net[..n - 1] && net[..n][n - 1] == net[n - 1] && net[n - 1] in net;
      var one := ConditionalJacobians(j, net[n - 1], tol, width);
      match one {
        case Err(e) => return Err(e);
        case Ok(next) => j := next;
      }
      n := n - 1;
    }
    r := Ok(j);
  }

  // ---------------------------------------------------------------------------------------
  // Blocks and stacks

  lemma BlockOfBlock(m: Matrix, position: nat, dim: nat, c: nat, c0: nat, c1: nat)
    requires position + dim <= m.rows && c <= m.cols && c0 + c1 <= c
    ensures Block(Block(m, position, 0, dim, c), 0, c0, dim, c1) == Block(m, position, c0, dim, c1)
  {
    forall i | 0 <= i < dim
      ensures Block(Block(m, position, 0, dim, c), 0, c0, dim, c1).row[i] == Block(m, position, c0, dim, c1).row[i]
    {
      assert m.row[position + i][0..c][c0..c0 + c1] == m.row[position + i][c0..c0 + c1];
    }
  }

  /** The step of every variable that a basis step `xi` causes. */
  ghost function Tangent(j: Jacobians, width: map<Key, nat>, xi: map<Key, Vector>): (t: map<Key, Vector>)
    requires AllShaped(j, width) && forall k :: k in j ==> Covers(xi, width, j[k])
    ensures t.Keys == j.Keys && forall k :: k in t ==> k in width && |t[k]| == width[k]
  {
    map k | k in j :: Act(j[k], width[k], width, xi)
  }

  /** Jacobians whose blocks refer only to variables that `xi` moves. */
  ghost predicate Driven(j: Jacobians, width: map<Key, nat>, xi: map<Key, Vector>) {
    AllShaped(j, width) && forall k :: k in j ==> Covers(xi, width, j[k])
  }

  /** One frontal's Jacobian applied to a step: its rows of the dependence, applied to the parents' steps. */
  lemma {:induction false} FrontalActs(j: Jacobians, f: Key, m: Matrix, position: nat, parents: seq<Key>,
                                       width: map<Key, nat>, xi: map<Key, Vector>)
    requires Driven(j, width, xi) && Known(parents, width) && f in width
    requires forall p :: p in parents ==> p in j && p != f
    requires position + width[f] <= m.rows && Offset(parents, width) <= m.cols
    ensures Assigns(Tangent(j, width, xi), parents, width)
    ensures Covers(xi, width, FrontalBlocks(j, f, m, position, parents, 0.0, width))
    ensures Act(FrontalBlocks(j, f, m, position, parents, 0.0, width), width[f], width, xi)
         == Apply(Block(m, position, 0, width[f], Offset(parents, width)), Stack(parents, Tangent(j, width, xi), width))
  {
    if parents == [] {
      ApplyToZero(Block(m, position, 0, width[f], 0));
      assert Stack(parents, Tangent(j, width, xi), width) == Zero(0);
    } else {
      var before, p := parents[..|parents| - 1], parents[|parents| - 1];
      assert forall q :: q in before ==> q in parents;
      FrontalActs(j, f, m, position, before, width, xi);
      OneMoreParent(j, m, position, width[f], before, p, FrontalBlocks(j, f, m, position, before, 0.0, width),
                    Stack(before, Tangent(j, width, xi), width), width, xi);
    }
  }

  lemma OneMoreParent(j: Jacobians, m: Matrix, position: nat, dim: nat, before: seq<Key>, p: Key, blocks: Blocks,
                      x: Vector,
                      width: map<Key, nat>, xi: map<Key, Vector>)
    requires Driven(j, width, xi) && Known(before, width) && p in j && p in width && |x| == Offset(before, width)
    requires position + dim <= m.rows && Offset(before, width) + width[p] <= m.cols
    requires Shaped(blocks, dim, width) && Covers(xi, width, blocks)
    requires Act(blocks, dim, width, xi) == Apply(Block(m, position, 0, dim, Offset(before, width)), x)
    ensures var relative := Block(m, position, Offset(before, width), dim, width[p]);
      && Covers(xi, width, ChainRule(blocks, relative, Of(j, p), 0.0, width))
      && Act(ChainRule(blocks, relative, Of(j, p), 0.0, width), dim, width, xi)
         == Apply(Block(m, position, 0, dim, Offset(before, width) + width[p]), x + Tangent(j, width, xi)[p])
  {
    var c, y := Offset(before, width), Tangent(j, width, xi)[p];
    var relative := Block(m, position, c, dim, width[p]);
    ChainRuleActs(blocks, relative, j[p], width, xi);
    var whole := Block(m, position, 0, dim, c + width[p]);
    ApplySplitColumns(whole, c, x, y);
    BlockOfBlock(m, position, dim, c + width[p], 0, c);
    BlockOfBlock(m, position, dim, c + width[p], c, width[p]);
    assert Plus(Apply(relative, y), Act(blocks, dim, width, xi))
      == Plus(Act(blocks, dim, width, xi), Apply(relative, y));
  }

  lemma SliceOfPrefix(x: Vector, y: Vector, a: nat, b: nat)
    requires a <= b <= |x|
    ensures (x + y)[a..b] == x[a..b]
  {
  }

  lemma SliceOfSuffix(x: Vector, y: Vector)
    ensures (x + y)[|x|..|x| + |y|] == y
  {
  }

  /** `piece` is the part of `y` that belongs to variable `n`. */
  ghost predicate IsPiece(keys: seq<Key>, n: nat, width: map<Key, nat>, y: Vector, piece: Vector)
    requires Known(keys, width) && n < |keys|
  {
    var a := Offset(keys[..n], width);
    a + width[keys[n]] <= |y| && piece == y[a..a + width[keys[n]]]
  }

  /** Each variable's vector is its piece of the stack. */
  lemma {:induction false} PieceOfStack(keys: seq<Key>, n: nat, v: map<Key, Vector>, width: map<Key, nat>)
    requires Assigns(v, keys, width) && n < |keys|
    ensures IsPiece(keys, n, width, Stack(keys, v, width), v[keys[n]])
  {
    var last := |keys| - 1;
    var x := Stack(keys[..last], v, width);
    if n < last {
      assert keys[..last][..n] == keys[..n];
      PieceOfStack(keys[..last], n, v, width);
      SliceOfPrefix(x, v[keys[last]], Offset(keys[..n], width), Offset(keys[..n], width) + width[keys[n]]);
    } else {
      SliceOfSuffix(x, v[keys[last]]);
    }
  }

  lemma PieceOfPrefix(keys: seq<Key>, n: nat, width: map<Key, nat>, y: Vector, piece: Vector)
    requires Known(keys, width) && n < |keys| - 1 && IsPiece(keys, n, width, y, piece) && |y| == Offset(keys, width)
    ensures Known(keys[..|keys| - 1], width) && Offset(keys[..|keys| - 1], width) <= |y|
    ensures IsPiece(keys[..|keys| - 1], n, width, y[..Offset(keys[..|keys| - 1], width)], piece)
  {
    var before := keys[..|keys| - 1];
    assert before[..n] == keys[..n];
    OffsetPrefix(before, n, width);
    var b := Offset(before, width);
    assert y == y[..b] + y[b..];
    SliceOfPrefix(y[..b], y[b..], Offset(keys[..n], width), Offset(keys[..n], width) + width[keys[n]]);
  }

  lemma LastPiece(keys: seq<Key>, width: map<Key, nat>, y: Vector, piece: Vector)
    requires Known(keys, width) && keys != [] && |y| == Offset(keys, width)
    requires IsPiece(keys, |keys| - 1, width, y, piece)
    ensures Known(keys[..|keys| - 1], width) && Offset(keys[..|keys| - 1], width) <= |y|
    ensures y == y[..Offset(keys[..|keys| - 1], width)] + piece
  {
  }

  /** A stack is determined by its pieces. */
  lemma {:induction false} StackFromPieces(keys: seq<Key>, v: map<Key, Vector>, width: map<Key, nat>, y: Vector)
    requires Assigns(v, keys, width) && |y| == Offset(keys, width)
    requires forall n :: 0 <= n < |keys| ==> IsPiece(keys, n, width, y, v[keys[n]])
    ensures Stack(keys, v, width) == y
  {
    if keys != [] {
      hide IsPiece, Offset;
      var last := |keys| - 1;
      var before := keys[..last];
      LastPiece(keys, width, y, v[keys[last]]);
      var b := Offset(before, width);
      forall n | 0 <= n < last ensures IsPiece(before, n, width, y[..b], v[before[n]]) {
        PieceOfPrefix(keys, n, width, y, v[keys[n]]);
      }
      StackFromPieces(before, v, width, y[..b]);
    } else {
      assert y == [];
    }
  }

  lemma ApplyBlockRows(m: Matrix, position: nat, dim: nat, x: Vector)
    requires position + dim <= m.rows && |x| == m.cols
    ensures Apply(Block(m, position, 0, dim, m.cols), x) == Apply(m, x)[position..position + dim]
  {
    forall i | 0 <= i < dim ensures Apply(Block(m, position, 0, dim, m.cols), x)[i] == Apply(m, x)[position + i] {
      assert m.row[position + i][0..m.cols] == m.row[position + i];
    }
  }

  // ---------------------------------------------------------------------------------------
  // Soundness and completeness of the walk, without pruning

  /** Last conditional first, every parent is known before its frontals, and no variable is eliminated twice. */
  ghost predicate Ordered(net: seq<Conditional>, known: set<Key>) {
    net != [] ==>
      var c := net[|net| - 1];
      && Elements(c.parents) <= known && NoDuplicates(c.frontals) && Elements(c.frontals) !! known
      && Ordered(net[..|net| - 1], known + Elements(c.frontals))
  }

  ghost function AllFrontals(net: seq<Conditional>): set<Key> {
    if net == [] then {} else AllFrontals(net[..|net| - 1]) + Elements(net[|net| - 1].frontals)
  }

  /** `r` extends `j` without changing it. */
  ghost predicate Extends(r: Jacobians, j: Jacobians) {
    forall k :: k in j ==> k in r && r[k] == j[k]
  }

  lemma {:induction false} SameParentsSameBlocks(j: Jacobians, r: Jacobians, f: Key, m: Matrix, position: nat,
                                                 parents: seq<Key>, width: map<Key, nat>)
    requires AllShaped(j, width) && AllShaped(r, width) && Known(parents, width) && Extends(r, j)
    requires forall p :: p in parents ==> p in j
    requires f in width && position + width[f] <= m.rows && Offset(parents, width) <= m.cols
    ensures FrontalBlocks(r, f, m, position, parents, 0.0, width)
         == FrontalBlocks(j, f, m, position, parents, 0.0, width)
  {
    if parents != [] {
      SameParentsSameBlocks(j, r, f, m, position, parents[..|parents| - 1], width);
    }
  }

  lemma {:induction false} StackSame(keys: seq<Key>, v: map<Key, Vector>, u: map<Key, Vector>, width: map<Key, nat>)
    requires Assigns(v, keys, width) && Assigns(u, keys, width) && forall k :: k in keys ==> v[k] == u[k]
    ensures Stack(keys, v, width) == Stack(keys, u, width)
  {
    if keys != [] {
      StackSame(keys[..|keys| - 1], v, u, width);
    }
  }

  /** What the parents' steps make of the frontals: the dependence applied to them. */
  ghost function Predicted(j: Jacobians, c: Conditional, width: map<Key, nat>, xi: map<Key, Vector>): (y: Vector)
    requires Driven(j, width, xi) && WellFormed(c, width) && Elements(c.parents) <= j.Keys
    ensures Assigns(Tangent(j, width, xi), c.parents, width)
    ensures |y| == c.s.rows
  {
    assert forall p :: p in c.parents ==> p in Elements(c.parents);
    Apply(Dependence(c), Stack(c.parents, Tangent(j, width, xi), width))
  }

  lemma NewFrontal(before: Jacobians, j: Jacobians, c: Conditional, n: nat, width: map<Key, nat>, xi: map<Key, Vector>)
    requires WellFormed(c, width) && Driven(j, width, xi) && Driven(before, width, xi) && Extends(before, j)
    requires n < |c.frontals| && Elements(c.parents) <= j.Keys && Elements(c.frontals) !! j.Keys
    ensures Known(c.frontals[..n], width) && Offset(c.frontals[..n], width) + width[c.frontals[n]] <= c.s.rows
    ensures var f := c.frontals[n];
      var b := FrontalBlocks(before, f, Dependence(c), Offset(c.frontals[..n], width), c.parents, 0.0, width);
      && Covers(xi, width, b)
      && IsPiece(c.frontals, n, width, Predicted(j, c, width, xi), Act(b, width[f], width, xi))
  {
    var f := c.frontals[n];
    assert f in Elements(c.frontals);
    forall p | p in c.parents ensures p in j && p != f {
      assert p in Elements(c.parents);
    }
    OffsetPrefix(c.frontals, n, width);
    var m, position := Dependence(c), Offset(c.frontals[..n], width);
    SameParentsSameBlocks(j, before, f, m, position, c.parents, width);
    FrontalActs(j, f, m, position, c.parents, width, xi);
    ApplyBlockRows(m, position, width[f], Stack(c.parents, Tangent(j, width, xi), width));
  }

  /** The variables known once `n` frontals are added: each frontal, and the parents looked up. */
  ghost function KeysAfter(known: set<Key>, c: Conditional, n: nat): set<Key>
    requires n <= |c.frontals|
  {
    if n == 0 then known else KeysAfter(known, c, n - 1) + {c.frontals[n - 1]} + Elements(c.parents)
  }

  lemma {:induction false} AddFrontalsKeys(j: Jacobians, c: Conditional, n: nat, tol: real, width: map<Key, nat>)
    requires AllShaped(j, width) && WellFormed(c, width) && n <= |c.frontals|
    ensures AddFrontals(j, c, n, tol, width).Keys == KeysAfter(j.Keys, c, n)
  {
    hide NewBlocks, WithFrontal, WellFormed, AllShaped;
    if n > 0 {
      AddFrontalsKeys(j, c, n - 1, tol, width);
      var before := AddFrontals(j, c, n - 1, tol, width);
      WithFrontalIs(before, c.frontals[n - 1], NewBlocks(before, c, n - 1, tol, width), c.parents);
    }
  }

  lemma {:induction false} KeysAfterAre(known: set<Key>, c: Conditional, n: nat)
    requires n <= |c.frontals|
    ensures KeysAfter(known, c, n) == known + Elements(c.frontals[..n]) + if n == 0 then {} else Elements(c.parents)
  {
    if n == 0 {
      assert Elements(c.frontals[..0]) == {};
    } else {
      KeysAfterAre(known, c, n - 1);
      PrefixElements(c.frontals, n - 1);
    }
  }

  /** One more frontal leaves the others alone. */
  lemma OneFrontalChanges(j: Jacobians, c: Conditional, n: nat, tol: real, width: map<Key, nat>, k: Key)
    requires AllShaped(j, width) && WellFormed(c, width) && n < |c.frontals| && k != c.frontals[n]
    ensures var before, r := AddFrontals(j, c, n, tol, width), AddFrontals(j, c, n + 1, tol, width);
      k in before ==> HasEntry(r, k, before[k])
  {
    hide NewBlocks, WithFrontal, WellFormed, AllShaped, Shaped;
    var before := AddFrontals(j, c, n, tol, width);
    WithFrontalIs(before, c.frontals[n], NewBlocks(before, c, n, tol, width), c.parents);
  }

  /** Frontals leave every other variable's Jacobian alone. */
  lemma {:induction false} FrontalsKeep(j: Jacobians, c: Conditional, n: nat, tol: real, width: map<Key, nat>, k: Key)
    requires AllShaped(j, width) && WellFormed(c, width) && n <= |c.frontals| && k in j && k !in Elements(c.frontals)
    ensures HasEntry(AddFrontals(j, c, n, tol, width), k, j[k])
  {
    hide NewBlocks, WithFrontal, WellFormed, AllShaped;
    if n > 0 {
      FrontalsKeep(j, c, n - 1, tol, width, k);
      assert c.frontals[n - 1] in Elements(c.frontals);
      var before := AddFrontals(j, c, n - 1, tol, width);
      WithFrontalIs(before, c.frontals[n - 1], NewBlocks(before, c, n - 1, tol, width), c.parents);
    }
  }

  /** The first `n` frontals are added, and nothing else changes. */
  lemma {:induction false} FrontalsAreAdded(j: Jacobians, c: Conditional, n: nat, width: map<Key, nat>)
    requires AllShaped(j, width) && WellFormed(c, width) && n <= |c.frontals|
    requires Elements(c.parents) <= j.Keys && Elements(c.frontals) !! j.Keys
    ensures var r := AddFrontals(j, c, n, 0.0, width); r.Keys == j.Keys + Elements(c.frontals[..n]) && Extends(r, j)
  {
    hide WellFormed, AllShaped, AddFrontals;
    AddFrontalsKeys(j, c, n, 0.0, width);
    KeysAfterAre(j.Keys, c, n);
    forall k | k in j ensures HasEntry(AddFrontals(j, c, n, 0.0, width), k, j[k]) {
      FrontalsKeep(j, c, n, 0.0, width, k);
    }
  }

  ghost predicate HasEntry(j: Jacobians, k: Key, blocks: Blocks) {
    k in j && j[k] == blocks
  }

  /** Later frontals leave earlier ones alone. */
  lemma {:induction false} EarlierFrontalsStay(j: Jacobians, c: Conditional, i: nat, n: nat, width: map<Key, nat>,
                                               blocks: Blocks)
    requires AllShaped(j, width) && WellFormed(c, width) && i < n <= |c.frontals| && NoDuplicates(c.frontals)
    requires HasEntry(AddFrontals(j, c, i + 1, 0.0, width), c.frontals[i], blocks)
    ensures HasEntry(AddFrontals(j, c, n, 0.0, width), c.frontals[i], blocks)
  {
    hide AddFrontals, WellFormed, AllShaped;
    if i + 1 < n {
      assert c.frontals[i] != c.frontals[n - 1];
      EarlierFrontalsStay(j, c, i, n - 1, width, blocks);
      OneFrontalChanges(j, c, n - 1, 0.0, width, c.frontals[i]);
    }
  }

  lemma DrivenAfter(before: Jacobians, f: Key, blocks: Blocks, width: map<Key, nat>, xi: map<Key, Vector>)
    requires Driven(before, width, xi) && f in width && Shaped(blocks, width[f], width) && Covers(xi, width, blocks)
    ensures Driven(before[f := blocks], width, xi)
  {
  }

  lemma ParentsKnown(j: Jacobians, r: Jacobians, parents: seq<Key>)
    requires Extends(r, j) && Elements(parents) <= j.Keys
    ensures Elements(parents) <= r.Keys
  {
  }

  lemma {:induction false} FrontalsAreDriven(j: Jacobians, c: Conditional, n: nat, width: map<Key, nat>,
                                             xi: map<Key, Vector>)
    requires WellFormed(c, width) && Driven(j, width, xi) && n <= |c.frontals|
    requires Elements(c.parents) <= j.Keys && Elements(c.frontals) !! j.Keys
    ensures Driven(AddFrontals(j, c, n, 0.0, width), width, xi)
  {
    hide NewBlocks, WithFrontal, Covers, Shaped;
    if n > 0 {
      FrontalsAreDriven(j, c, n - 1, width, xi);
      FrontalsAreAdded(j, c, n - 1, width);
      FrontalIsDriven(AddFrontals(j, c, n - 1, 0.0, width), j, c, n - 1, width, xi);
    }
  }

  lemma FrontalIsDriven(before: Jacobians, j: Jacobians, c: Conditional, n: nat, width: map<Key, nat>,
                        xi: map<Key, Vector>)
    requires WellFormed(c, width) && Driven(j, width, xi) && Driven(before, width, xi) && Extends(before, j)
    requires n < |c.frontals| && Elements(c.parents) <= j.Keys && Elements(c.frontals) !! j.Keys
    ensures Driven(WithFrontal(before, c.frontals[n], NewBlocks(before, c, n, 0.0, width), c.parents), width, xi)
  {
    hide FrontalBlocks, WithFrontal, Covers, IsPiece, Offset, Dependence, Act;
    NewFrontal(before, j, c, n, width, xi);
    ParentsKnown(j, before, c.parents);
    WithFrontalKnown(before, c.frontals[n], NewBlocks(before, c, n, 0.0, width), c.parents);
    DrivenAfter(before, c.frontals[n], NewBlocks(before, c, n, 0.0, width), width, xi);
  }

  /** Each frontal's step is its piece of the prediction. */
  lemma FrontalFollowsParents(j: Jacobians, c: Conditional, i: nat, width: map<Key, nat>, xi: map<Key, Vector>)
    requires WellFormed(c, width) && Driven(j, width, xi) && i < |c.frontals|
    requires Elements(c.parents) <= j.Keys && NoDuplicates(c.frontals) && Elements(c.frontals) !! j.Keys
    ensures var r := AddFrontals(j, c, |c.frontals|, 0.0, width);
      && Driven(r, width, xi) && c.frontals[i] in r
      && IsPiece(c.frontals, i, width, Predicted(j, c, width, xi), Tangent(r, width, xi)[c.frontals[i]])
  {
    var before := AddFrontals(j, c, i, 0.0, width);
    FrontalsAreDriven(j, c, i, width, xi);
    FrontalsAreAdded(j, c, i, width);
    NewFrontal(before, j, c, i, width, xi);
    EarlierFrontalsStay(j, c, i, |c.frontals|, width, AddFrontals(j, c, i + 1, 0.0, width)[c.frontals[i]]);
    FrontalsAreDriven(j, c, |c.frontals|, width, xi);
  }

  /** After a conditional is processed, its frontals' steps are the dependence applied to its parents' steps. */
  lemma ConditionalFollows(j: Jacobians, c: Conditional, width: map<Key, nat>, xi: map<Key, Vector>)
    requires WellFormed(c, width) && Driven(j, width, xi)
    requires Elements(c.parents) <= j.Keys && NoDuplicates(c.frontals) && Elements(c.frontals) !! j.Keys
    ensures var r := AddFrontals(j, c, |c.frontals|, 0.0, width);
      && r.Keys == j.Keys + Elements(c.frontals) && Extends(r, j) && Driven(r, width, xi)
      && Assigns(Tangent(j, width, xi), c.parents, width) && Assigns(Tangent(r, width, xi), c.frontals, width)
      && Stack(c.frontals, Tangent(r, width, xi), width)
        == Apply(Dependence(c), Stack(c.parents, Tangent(j, width, xi), width))
  {
    hide AddFrontals, Covers, IsPiece;
    var n := |c.frontals|;
    FrontalsAreAdded(j, c, n, width);
    FrontalsAreDriven(j, c, n, width, xi);
    assert c.frontals[..n] == c.frontals;
    var r, y := AddFrontals(j, c, n, 0.0, width), Predicted(j, c, width, xi);
    forall f | f in c.frontals ensures f in r && f in width {
      assert f in Elements(c.frontals);
    }
    forall i | 0 <= i < n ensures IsPiece(c.frontals, i, width, y, Tangent(r, width, xi)[c.frontals[i]]) {
      FrontalFollowsParents(j, c, i, width, xi);
    }
    StackFromPieces(c.frontals, Tangent(r, width, xi), width, y);
  }

  /** Jacobians that extend others give the same steps where both are defined. */
  lemma TangentExtends(j: Jacobians, r: Jacobians, width: map<Key, nat>, xi: map<Key, Vector>)
    requires Driven(j, width, xi) && Driven(r, width, xi) && Extends(r, j)
    ensures forall k :: k in j ==> Tangent(r, width, xi)[k] == Tangent(j, width, xi)[k]
  {
  }

  /** Every variable of the conditional has a step, and the conditional holds. */
  ghost predicate Holds(c: Conditional, v: map<Key, Vector>, width: map<Key, nat>) {
    && WellFormed(c, width) && Assigns(v, c.frontals, width) && Assigns(v, c.parents, width)
    && Satisfies(c, v, width)
  }

  lemma ConditionalHolds(j: Jacobians, c: Conditional, width: map<Key, nat>, xi: map<Key, Vector>)
    requires WellFormed(c, width) && Driven(j, width, xi)
    requires Elements(c.parents) <= j.Keys && NoDuplicates(c.frontals) && Elements(c.frontals) !! j.Keys
    ensures var r := AddFrontals(j, c, |c.frontals|, 0.0, width);
      Driven(r, width, xi) && Holds(c, Tangent(r, width, xi), width)
  {
    var r := AddFrontals(j, c, |c.frontals|, 0.0, width);
    ConditionalFollows(j, c, width, xi);
    TangentExtends(j, r, width, xi);
    forall k | k in c.parents ensures k in j {
      assert k in Elements(c.parents);
    }
    StackSame(c.parents, Tangent(r, width, xi), Tangent(j, width, xi), width);
    ConditionalIffSolved(c.r, c.s, Stack(c.frontals, Tangent(r, width, xi), width),
                         Stack(c.parents, Tangent(r, width, xi), width));
  }

  lemma HoldsForSameSteps(c: Conditional, v: map<Key, Vector>, u: map<Key, Vector>, width: map<Key, nat>)
    requires Holds(c, v, width)
    requires forall k :: k in c.frontals || k in c.parents ==> k in u && u[k] == v[k]
    ensures Holds(c, u, width)
  {
    StackSame(c.frontals, v, u, width);
    StackSame(c.parents, v, u, width);
  }

  /** The walk adds all frontals, keeps what was known, and stays driven by the basis step. */
  lemma {:induction false} WalkExtends(j: Jacobians, net: seq<Conditional>, width: map<Key, nat>, xi: map<Key, Vector>)
    requires Driven(j, width, xi) && Ordered(net, j.Keys) && forall c :: c in net ==> WellFormed(c, width)
    ensures var w := Walk(j, net, 0.0, width);
      w.Keys == j.Keys + AllFrontals(net) && Extends(w, j) && Driven(w, width, xi)
    decreases |net|
  {
    if net != [] {
      var c := net[|net| - 1];
      ConditionalFollows(j, c, width, xi);
      WalkExtends(AddFrontals(j, c, |c.frontals|, 0.0, width), net[..|net| - 1], width, xi);
    }
  }

  /** The walk is sound: every basis step it extends satisfies every conditional. */
  lemma {:induction false} WalkIsSound(j: Jacobians, net: seq<Conditional>, width: map<Key, nat>, xi: map<Key, Vector>,
                                       d: Conditional)
    requires Driven(j, width, xi) && Ordered(net, j.Keys) && forall c :: c in net ==> WellFormed(c, width)
    requires d in net
    ensures var w := Walk(j, net, 0.0, width); Driven(w, width, xi) && Holds(d, Tangent(w, width, xi), width)
    decreases |net|
  {
    var c, before := net[|net| - 1], net[..|net| - 1];
    var r := AddFrontals(j, c, |c.frontals|, 0.0, width);
    ConditionalFollows(j, c, width, xi);
    if d in before {
      WalkIsSound(r, before, width, xi, d);
    } else {
      assert d == c;
      WalkExtends(r, before, width, xi);
      StillHolds(j, c, Walk(j, net, 0.0, width), width, xi);
    }
  }

  /** What the walk does later leaves a conditional satisfied. */
  lemma StillHolds(j: Jacobians, c: Conditional, w: Jacobians, width: map<Key, nat>, xi: map<Key, Vector>)
    requires WellFormed(c, width) && Driven(j, width, xi) && Driven(w, width, xi)
    requires Elements(c.parents) <= j.Keys && NoDuplicates(c.frontals) && Elements(c.frontals) !! j.Keys
    requires Extends(w, AddFrontals(j, c, |c.frontals|, 0.0, width))
    ensures Holds(c, Tangent(w, width, xi), width)
  {
    var r := AddFrontals(j, c, |c.frontals|, 0.0, width);
    ConditionalFollows(j, c, width, xi);
    ConditionalHolds(j, c, width, xi);
    TangentExtends(r, w, width, xi);
    forall k | k in c.frontals || k in c.parents ensures k in r {
      assert k in Elements(c.frontals) || k in Elements(c.parents);
    }
    HoldsForSameSteps(c, Tangent(r, width, xi), Tangent(w, width, xi), width);
  }

  /** A step that satisfies a conditional and agrees on its parents agrees on its frontals. */
  lemma FrontalsForced(j: Jacobians, c: Conditional, width: map<Key, nat>, xi: map<Key, Vector>, v: map<Key, Vector>)
    requires WellFormed(c, width) && Driven(j, width, xi)
    requires Elements(c.parents) <= j.Keys && NoDuplicates(c.frontals) && Elements(c.frontals) !! j.Keys
    requires Holds(c, v, width) && forall k :: k in j ==> k in v && v[k] == Tangent(j, width, xi)[k]
    ensures var r := AddFrontals(j, c, |c.frontals|, 0.0, width);
      && Driven(r, width, xi) && r.Keys == j.Keys + Elements(c.frontals)
      && forall k :: k in r ==> k in v && v[k] == Tangent(r, width, xi)[k]
  {
    var r := AddFrontals(j, c, |c.frontals|, 0.0, width);
    ConditionalFollows(j, c, width, xi);
    TangentExtends(j, r, width, xi);
    forall k | k in c.parents ensures k in j {
      assert k in Elements(c.parents);
    }
    StackSame(c.parents, v, Tangent(j, width, xi), width);
    ConditionalIffSolved(c.r, c.s, Stack(c.frontals, v, width), Stack(c.parents, v, width));
    forall k | k in c.frontals ensures k in v && v[k] == Tangent(r, width, xi)[k] {
      var n :| 0 <= n < |c.frontals| && c.frontals[n] == k;
      PieceOfStack(c.frontals, n, v, width);
      PieceOfStack(c.frontals, n, Tangent(r, width, xi), width);
    }
    assert forall k :: k in r ==> k in j || k in c.frontals;
  }

  /** The walk is complete: a step that satisfies every conditional is the extension of its basis part. */
  lemma {:induction false} WalkIsComplete(j: Jacobians, net: seq<Conditional>, width: map<Key, nat>,
                                          xi: map<Key, Vector>, v: map<Key, Vector>)
    requires Driven(j, width, xi) && Ordered(net, j.Keys) && forall c :: c in net ==> WellFormed(c, width)
    requires forall k :: k in j ==> k in v && v[k] == Tangent(j, width, xi)[k]
    requires forall c :: c in net ==> Holds(c, v, width)
    ensures var w := Walk(j, net, 0.0, width);
      Driven(w, width, xi) && forall k :: k in w ==> k in v && v[k] == Tangent(w, width, xi)[k]
    decreases |net|
  {
    if net != [] {
      var c := net[|net| - 1];
      FrontalsForced(j, c, width, xi, v);
      WalkIsComplete(AddFrontals(j, c, |c.frontals|, 0.0, width), net[..|net| - 1], width, xi, v);
    }
  }

  // ---------------------------------------------------------------------------------------
  // From the basis

  lemma {:induction false} BasisStepsAreTheirOwn(basis: seq<Key>, width: map<Key, nat>, xi: map<Key, Vector>)
    requires Known(basis, width) && forall k :: k in basis ==> k in xi && |xi[k]| == width[k]
    ensures var j := WithBasis(map[], basis, width);
      && j.Keys == Elements(basis) && Driven(j, width, xi)
      && forall k :: k in j ==> Tangent(j, width, xi)[k] == xi[k]
  {
    if basis != [] {
      var before, k := basis[..|basis| - 1], basis[|basis| - 1];
      assert basis == before + [k];
      BasisStepsAreTheirOwn(before, width, xi);
      IdentityActs(k, width, xi);
    }
  }

  lemma IdentityActs(k: Key, width: map<Key, nat>, xi: map<Key, Vector>)
    requires k in width && k in xi && |xi[k]| == width[k]
    ensures Shaped(IdentityBlocks(k, width[k]), width[k], width) && Covers(xi, width, IdentityBlocks(k, width[k]))
    ensures Act(IdentityBlocks(k, width[k]), width[k], width, xi) == xi[k]
  {
    ApplyIdentity(width[k], xi[k]);
    assert Products(IdentityBlocks(k, width[k]), width[k], width, xi) == map[k := xi[k]];
    SumSingle(k, xi[k]);
  }

  /** The conditions under which the net determines all variables from the basis. */
  ghost predicate Solvable(net: seq<Conditional>, basis: seq<Key>, width: map<Key, nat>) {
    Known(basis, width) && (forall c :: c in net ==> WellFormed(c, width)) && Ordered(net, Elements(basis))
  }

  /** A step of the basis variables. */
  ghost predicate IsBasisStep(basis: seq<Key>, width: map<Key, nat>, xi: map<Key, Vector>)
    requires Known(basis, width)
  {
    forall k :: k in basis ==> k in xi && |xi[k]| == width[k]
  }

  /**
   * Without pruning, and with parents eliminated after their frontals: the steps of all variables
   * computed from a basis step move the basis as told and satisfy every conditional.
   */
  lemma BackSubstitutionIsSound(net: seq<Conditional>, basis: seq<Key>, width: map<Key, nat>, xi: map<Key, Vector>)
    requires Solvable(net, basis, width) && IsBasisStep(basis, width, xi)
    ensures var w := Walk(WithBasis(map[], basis, width), net, 0.0, width);
      && w.Keys == Elements(basis) + AllFrontals(net) && Driven(w, width, xi)
      && (forall k :: k in basis ==> Tangent(w, width, xi)[k] == xi[k])
      && (forall c :: c in net ==> Holds(c, Tangent(w, width, xi), width))
  {
    var j := WithBasis(map[], basis, width);
    BasisStepsAreTheirOwn(basis, width, xi);
    WalkExtends(j, net, width, xi);
    forall c | c in net ensures Holds(c, Tangent(Walk(j, net, 0.0, width), width, xi), width) {
      WalkIsSound(j, net, width, xi, c);
    }
    TangentExtends(j, Walk(j, net, 0.0, width), width, xi);
    forall k | k in basis ensures k in j {
      assert k in Elements(basis);
    }
  }

  /** A step of all variables that satisfies every conditional is the one computed from its basis part. */
  lemma BackSubstitutionIsComplete(net: seq<Conditional>, basis: seq<Key>, width: map<Key, nat>, v: map<Key, Vector>)
    requires Solvable(net, basis, width) && IsBasisStep(basis, width, v)
    requires forall c :: c in net ==> Holds(c, v, width)
    ensures var w := Walk(WithBasis(map[], basis, width), net, 0.0, width);
      Driven(w, width, v) && forall k :: k in w ==> k in v && v[k] == Tangent(w, width, v)[k]
  {
    var j := WithBasis(map[], basis, width);
    BasisStepsAreTheirOwn(basis, width, v);
    forall k | k in j ensures k in v && v[k] == Tangent(j, width, v)[k] {
      assert k in Elements(basis);
    }
    WalkIsComplete(j, net, width, v, v);
  }

  // ---------------------------------------------------------------------------------------
  // With any tolerance, Jacobians mention only basis variables

  ghost predicate OnBasis(j: Jacobians, basis: set<Key>) {
    forall k :: k in j ==> j[k].Keys <= basis
  }

  lemma {:induction false} FrontalBlocksOnBasis(j: Jacobians, f: Key, m: Matrix, position: nat, parents: seq<Key>,
                                                tol: real, width: map<Key, nat>, basis: set<Key>)
    requires AllShaped(j, width) && Known(parents, width) && f in width && OnBasis(j, basis)
    requires position + width[f] <= m.rows && Offset(parents, width) <= m.cols
    ensures FrontalBlocks(j, f, m, position, parents, tol, width).Keys <= basis
  {
    if parents != [] {
      var before, p := parents[..|parents| - 1], parents[|parents| - 1];
      FrontalBlocksOnBasis(j, f, m, position, before, tol, width, basis);
      var soFar := FrontalBlocks(j, f, m, position, before, tol, width);
      ChainRuleKeys(soFar, Block(m, position, Offset(before, width), width[f], width[p]), ParentBlocks(j, f, soFar, p),
                    tol, width);
    }
  }

  lemma {:induction false} AddFrontalsOnBasis(j: Jacobians, c: Conditional, n: nat, tol: real, width: map<Key, nat>,
                                              basis: set<Key>)
    requires AllShaped(j, width) && WellFormed(c, width) && n <= |c.frontals| && OnBasis(j, basis)
    ensures OnBasis(AddFrontals(j, c, n, tol, width), basis)
  {
    hide NewBlocks, OnBasis, AllShaped, WellFormed, WithFrontal;
    if n > 0 {
      var before, f := AddFrontals(j, c, n - 1, tol, width), c.frontals[n - 1];
      AddFrontalsOnBasis(j, c, n - 1, tol, width, basis);
      NewBlocksOnBasis(before, c, n - 1, tol, width, basis);
      FrontalOnBasis(before, f, NewBlocks(before, c, n - 1, tol, width), c.parents, basis);
    }
  }

  lemma NewBlocksOnBasis(j: Jacobians, c: Conditional, n: nat, tol: real, width: map<Key, nat>, basis: set<Key>)
    requires AllShaped(j, width) && WellFormed(c, width) && n < |c.frontals| && OnBasis(j, basis)
    ensures NewBlocks(j, c, n, tol, width).Keys <= basis
  {
    OffsetPrefix(c.frontals, n, width);
    FrontalBlocksOnBasis(j, c.frontals[n], Dependence(c), Offset(c.frontals[..n], width), c.parents, tol, width, basis);
  }

  lemma FrontalOnBasis(j: Jacobians, f: Key, blocks: Blocks, parents: seq<Key>, basis: set<Key>)
    requires OnBasis(j, basis) && blocks.Keys <= basis
    ensures OnBasis(WithFrontal(j, f, blocks, parents), basis)
  {
    hide WithFrontal;
    WithFrontalIs(j, f, blocks, parents);
  }

  /** The variables the walk gives a Jacobian: frontals, and the parents it looks up. */
  ghost function Mentioned(net: seq<Conditional>): set<Key> {
    if net == [] then {}
    else
      var c := net[|net| - 1];
      Mentioned(net[..|net| - 1]) + Elements(c.frontals) + if c.frontals == [] then {} else Elements(c.parents)
  }

  /** In elimination order every parent that is looked up is known already. */
  lemma {:induction false} OrderedMentions(net: seq<Conditional>, known: set<Key>)
    requires Ordered(net, known)
    ensures known + Mentioned(net) == known + AllFrontals(net)
    decreases |net|
  {
    if net != [] {
      OrderedMentions(net[..|net| - 1], known + Elements(net[|net| - 1].frontals));
    }
  }

  /** Whatever the tolerance and the order, the variables with a Jacobian, all of them with respect to the basis. */
  lemma {:induction false} WalkOnBasis(j: Jacobians, net: seq<Conditional>, tol: real, width: map<Key, nat>,
                                       basis: set<Key>)
    requires AllShaped(j, width) && (forall c :: c in net ==> WellFormed(c, width)) && OnBasis(j, basis)
    ensures OnBasis(Walk(j, net, tol, width), basis)
    ensures Walk(j, net, tol, width).Keys == j.Keys + Mentioned(net)
    decreases |net|
  {
    if net != [] {
      var c := net[|net| - 1];
      AddFrontalsOnBasis(j, c, |c.frontals|, tol, width, basis);
      AddFrontalsKeys(j, c, |c.frontals|, tol, width);
      KeysAfterAre(j.Keys, c, |c.frontals|);
      assert c.frontals[..|c.frontals|] == c.frontals;
      WalkOnBasis(AddFrontals(j, c, |c.frontals|, tol, width), net[..|net| - 1], tol, width, basis);
    }
  }

  lemma {:induction false} BasisOnBasis(basis: seq<Key>, width: map<Key, nat>)
    requires Known(basis, width)
    ensures WithBasis(map[], basis, width).Keys == Elements(basis)
    ensures OnBasis(WithBasis(map[], basis, width), Elements(basis))
  {
    if basis != [] {
      var before, k := basis[..|basis| - 1], basis[|basis| - 1];
      assert basis == before + [k];
      BasisOnBasis(before, width);
    }
  }

  /** Walking on from a basis step keeps every entry the basis already has. */
  lemma {:induction false} WalkKeepsBasis(j: Jacobians, net: seq<Conditional>, tol: real, width: map<Key, nat>, k: Key)
    requires AllShaped(j, width) && (forall c :: c in net ==> WellFormed(c, width)) && k in j && k !in AllFrontals(net)
    ensures k in Walk(j, net, tol, width) && Walk(j, net, tol, width)[k] == j[k]
    decreases |net|
  {
    if net != [] {
      var c := net[|net| - 1];
      FrontalsKeep(j, c, |c.frontals|, tol, width, k);
      WalkKeepsBasis(AddFrontals(j, c, |c.frontals|, tol, width), net[..|net| - 1], tol, width, k);
    }
  }
}

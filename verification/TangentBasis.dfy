/**
 * The tangent basis that moves chosen variables freely and lets the others follow
 * (FixedVarBasis).
 */
module TangentBasis {
  import opened Prelude
  import opened LinearAlgebra
  import opened Factors
  import opened MultiJacobian
  import opened BayesNet
  import opened Triangular

  /** How the values of one kind of variable form a manifold. */
  datatype Chart = Chart(dim: Value -> nat, retract: (Value, Vector) -> Value, local: (Value, Value) -> Vector)

  ghost predicate ChartDims(chart: Chart) {
    && (forall v, w :: |chart.local(v, w)| == chart.dim(v))
    && (forall v, d :: |d| == chart.dim(v) ==> chart.dim(chart.retract(v, d)) == chart.dim(v))
  }

  // ---------------------------------------------------------------------------------------
  // Where each basis variable sits in the coordinates

  function Locations(keys: seq<Key>, width: map<Key, nat>): map<Key, nat>
    requires Known(keys, width)
  {
    if keys == [] then map[]
    else Locations(keys[..|keys| - 1], width)[keys[|keys| - 1] := Offset(keys[..|keys| - 1], width)]
  }

  lemma {:induction false} LocationIsOffset(keys: seq<Key>, width: map<Key, nat>, n: nat)
    requires Known(keys, width) && NoDuplicates(keys) && n < |keys|
    ensures keys[n] in Locations(keys, width) && Locations(keys, width)[keys[n]] == Offset(keys[..n], width)
    ensures Offset(keys[..n], width) + width[keys[n]] <= Offset(keys, width)
  {
    OffsetPrefix(keys, n, width);
    var before := keys[..|keys| - 1];
    if n < |keys| - 1 {
      assert before[..n] == keys[..n];
      LocationIsOffset(before, width, n);
    }
  }

  /** The first variable comes first, and each next one right after the one before. */
  lemma LocationsInOrder(keys: seq<Key>, width: map<Key, nat>, n: nat)
    requires Known(keys, width) && NoDuplicates(keys) && n < |keys|
    ensures keys[n] in Locations(keys, width)
    ensures n == 0 ==> Locations(keys, width)[keys[n]] == 0
    ensures var next := Locations(keys, width)[keys[n]] + width[keys[n]];
      if n + 1 < |keys| then keys[n + 1] in Locations(keys, width) && Locations(keys, width)[keys[n + 1]] == next
      else Offset(keys, width) == next
  {
    LocationIsOffset(keys, width, n);
    OffsetPrefix(keys, n, width);
    if n + 1 < |keys| {
      LocationIsOffset(keys, width, n + 1);
    } else {
      assert keys[..n + 1] == keys;
    }
    assert keys[..n + 1][..n] == keys[..n];
  }

  lemma LocationsFit(keys: seq<Key>, width: map<Key, nat>)
    requires Known(keys, width) && NoDuplicates(keys)
    ensures forall k :: k in keys ==>
      k in Locations(keys, width) && Locations(keys, width)[k] + width[k] <= Offset(keys, width)
  {
    forall k | k in keys
      ensures k in Locations(keys, width) && Locations(keys, width)[k] + width[k] <= Offset(keys, width)
    {
      var n :| 0 <= n < |keys| && keys[n] == k;
      LocationIsOffset(keys, width, n);
    }
  }

  /** The part of the coordinates that belongs to each basis variable. */
  ghost function Segments(keys: seq<Key>, width: map<Key, nat>, xi: Vector): (s: map<Key, Vector>)
    requires Known(keys, width) && NoDuplicates(keys) && |xi| == Offset(keys, width)
    ensures s.Keys == Elements(keys) && forall k :: k in keys ==> |s[k]| == width[k]
  {
    LocationsFit(keys, width);
    map k | k in keys :: xi[Locations(keys, width)[k]..Locations(keys, width)[k] + width[k]]
  }

  /** The coordinates are the stack of their segments. */
  lemma CoordinatesAreSegments(keys: seq<Key>, width: map<Key, nat>, xi: Vector)
    requires Known(keys, width) && NoDuplicates(keys) && |xi| == Offset(keys, width)
    ensures Stack(keys, Segments(keys, width, xi), width) == xi
  {
    var s := Segments(keys, width, xi);
    forall n | 0 <= n < |keys| ensures IsPiece(keys, n, width, xi, s[keys[n]]) {
      LocationIsOffset(keys, width, n);
    }
    StackFromPieces(keys, s, width, xi);
  }

  /** Eliminating the constraints linearized at `v` expresses all variables by the basis. */
  ghost predicate GoodElimination(eliminate: Values -> seq<Conditional>, basis: seq<Key>, width: map<Key, nat>,
                                  v: Values) {
    && Solvable(eliminate(v), basis, width)
    && Elements(basis) + AllFrontals(eliminate(v)) == width.Keys && AllFrontals(eliminate(v)) !! Elements(basis)
  }

  /** The Jacobians of all variables at the given values. */
  ghost function JacobiansAt(eliminate: Values -> seq<Conditional>, basis: seq<Key>, width: map<Key, nat>, tol: real,
                             v: Values): (j: Jacobians)
    requires GoodElimination(eliminate, basis, width, v)
    ensures AllShaped(j, width)
  {
    Walk(WithBasis(map[], basis, width), eliminate(v), tol, width)
  }

  lemma JacobiansCoverVariables(eliminate: Values -> seq<Conditional>, basis: seq<Key>, width: map<Key, nat>, tol: real,
                                v: Values)
    requires GoodElimination(eliminate, basis, width, v)
    ensures var j := JacobiansAt(eliminate, basis, width, tol, v); j.Keys == width.Keys && OnBasis(j, Elements(basis))
  {
    BasisOnBasis(basis, width);
    WalkOnBasis(WithBasis(map[], basis, width), eliminate(v), tol, width, Elements(basis));
    OrderedMentions(eliminate(v), Elements(basis));
  }

  /** The steps that coordinates `xi` cause: basis variables move by their segments, the others follow. */
  ghost function TangentVector(j: Jacobians, basis: seq<Key>, width: map<Key, nat>, xi: Vector): (t: map<Key, Vector>)
    requires AllShaped(j, width) && OnBasis(j, Elements(basis)) && Known(basis, width) && NoDuplicates(basis)
    requires |xi| == Offset(basis, width)
    ensures t.Keys == Elements(basis) + j.Keys && forall k :: k in t ==> k in width && |t[k]| == width[k]
  {
    var s := Segments(basis, width, xi);
    BlocksCovered(j, basis, width, s);
    Tangent(j, width, s) + s
  }

  lemma BlocksCovered(j: Jacobians, basis: seq<Key>, width: map<Key, nat>, s: map<Key, Vector>)
    requires AllShaped(j, width) && OnBasis(j, Elements(basis))
    requires s.Keys == Elements(basis) && forall k :: k in basis ==> k in width && |s[k]| == width[k]
    ensures Driven(j, width, s)
  {
    forall k, b | k in j && b in j[k] ensures b in s && b in width && |s[b]| == width[b] {
      assert b in j[k].Keys;
      assert b in Elements(basis);
    }
  }

  // ---------------------------------------------------------------------------------------
  // The basis object

  class FixedVarBasis {
    const basisKeys: seq<Key>
    const basisLocation: map<Key, nat>
    const totalDim: nat
    const varDim: map<Key, nat>
    const eliminate: Values -> seq<Conditional>
    const tol: real
    const alwaysConstruct: bool
    var jacobians: Jacobians
    var isConstructed: bool

    ghost predicate Valid()
      reads this
    {
      && Shape()
      && AllShaped(jacobians, varDim) && OnBasis(jacobians, Elements(basisKeys))
      && (isConstructed ==> jacobians.Keys == varDim.Keys)
      && (!isConstructed ==> jacobians == map[])
    }

    /** What never changes. */
    ghost predicate Shape() {
      && NoDuplicates(basisKeys) && Known(basisKeys, varDim)
      && basisLocation == Locations(basisKeys, varDim) && totalDim == Offset(basisKeys, varDim)
    }

    /** The basis determines all variables at the given values. */
    ghost predicate GoodAt(values: Values) {
      GoodElimination(eliminate, basisKeys, varDim, values)
    }

    /** The Jacobians are those of the given values. */
    ghost predicate BuiltAt(values: Values)
      requires Shape()
      reads this
    {
      isConstructed ==> GoodAt(values) && jacobians == JacobiansAt(eliminate, basisKeys, varDim, tol, values)
    }

    constructor (values: Values, chart: Chart, basisKeys: seq<Key>, eliminate: Values -> seq<Conditional>, tol: real,
                 alwaysConstruct: bool)
      requires NoDuplicates(basisKeys) && forall k :: k in basisKeys ==> k in values
      requires alwaysConstruct ==> GoodElimination(eliminate, basisKeys, DimsOf(values, chart), values)
      ensures Valid() && BuiltAt(values) && this.basisKeys == basisKeys && varDim == DimsOf(values, chart)
      ensures this.eliminate == eliminate && this.tol == tol && this.alwaysConstruct == alwaysConstruct
      ensures isConstructed == alwaysConstruct
    {
      var dims := DimsOf(values, chart);
      var locations: map<Key, nat>, location: nat := map[], 0;
      for i := 0 to |basisKeys|
        invariant locations == Locations(basisKeys[..i], dims) && location == Offset(basisKeys[..i], dims)
      {
        assert basisKeys[..i + 1][..i] == basisKeys[..i];
        locations := locations[basisKeys[i] := location];
        location := location + chart.dim(values[basisKeys[i]]);
      }
      assert basisKeys[..|basisKeys|] == basisKeys;
      this.basisKeys := basisKeys;
      this.basisLocation := locations;
      this.totalDim := location;
      this.varDim := dims;
      this.eliminate := eliminate;
      this.tol := tol;
      this.alwaysConstruct := alwaysConstruct;
      this.jacobians := map[];
      this.isConstructed := false;
      new;
      if alwaysConstruct {
        Construct(values);
      }
    }

    /** A basis of the same shape for other values; nothing is computed that is not asked for. */
    constructor WithNewValues(values: Values, other: FixedVarBasis)
      requires other.Shape() && (other.alwaysConstruct ==> other.GoodAt(values))
      ensures Valid() && BuiltAt(values) && basisKeys == other.basisKeys && varDim == other.varDim
      ensures eliminate == other.eliminate && tol == other.tol && alwaysConstruct == other.alwaysConstruct
      ensures isConstructed == alwaysConstruct
    {
      basisKeys := other.basisKeys;
      basisLocation := other.basisLocation;
      totalDim := other.totalDim;
      varDim := other.varDim;
      eliminate := other.eliminate;
      tol := other.tol;
      alwaysConstruct := other.alwaysConstruct;
      jacobians := map[];
      isConstructed := false;
      new;
      if alwaysConstruct {
        Construct(values);
      }
    }

    /** Eliminates at the given values and walks the result. */
    method Construct(values: Values)
      requires Valid() && !isConstructed && GoodAt(values)
      modifies this
      ensures Valid() && isConstructed && BuiltAt(values)
    {
      var net := eliminate(values);
      var result := ComputeBayesNetJacobian(net, basisKeys, varDim, jacobians, tol);
      JacobiansCoverVariables(eliminate, basisKeys, varDim, tol, values);
      match result {
        case Ok(j) =>
          jacobians := j;
          isConstructed := true;
        case Err(_) =>
          assert false;
      }
    }

    /** The steps of all variables for coordinates `xi`. */
    method ComputeTangentVector(xi: Vector) returns (delta: map<Key, Vector>)
      requires Valid() && isConstructed && |xi| == totalDim
      ensures delta == TangentVector(jacobians, basisKeys, varDim, xi)
    {
      var segments := ReadSegments(basisKeys, basisLocation, varDim, xi);
      BlocksCovered(jacobians, basisKeys, varDim, segments);
      delta := AddFollowers(jacobians, varDim, segments);
    }

    /** The Jacobian of a variable with respect to the coordinates, one column block per basis variable. */
    method RecoverJacobian(key: Key) returns (h: Matrix)
      requires Valid() && isConstructed && key in varDim
      ensures h.rows == varDim[key] && h.cols == totalDim
      ensures forall xi: Vector :: |xi| == totalDim ==>
        Apply(h, xi) == RowsOf(jacobians[key], varDim[key], basisKeys, varDim, xi)
    {
      h := PlaceBlocks(jacobians[key], varDim[key], basisKeys, basisLocation, totalDim, varDim);
      forall xi: Vector | |xi| == totalDim
        ensures Apply(h, xi) == RowsOf(jacobians[key], varDim[key], basisKeys, varDim, xi)
      {
        PlacedBlocksAct(h, jacobians[key], varDim[key], basisKeys, varDim, xi);
      }
    }

    /** The coordinates of the basis variables' differences. */
    method LocalCoordinates(chart: Chart, values: Values, other: Values) returns (xi: Vector)
      requires Valid() && ChartDims(chart)
      requires forall k :: k in basisKeys ==> k in values && k in other && chart.dim(values[k]) == varDim[k]
      ensures xi == Stack(basisKeys, Differences(chart, basisKeys, values, other), varDim)
    {
      xi := Zero(totalDim);
      ghost var d := Differences(chart, basisKeys, values, other);
      for i := 0 to |basisKeys|
        invariant |xi| == totalDim
        invariant Known(basisKeys[..i], varDim) && Assigns(d, basisKeys[..i], varDim)
        invariant Offset(basisKeys[..i], varDim) <= totalDim
        invariant xi[..Offset(basisKeys[..i], varDim)] == Stack(basisKeys[..i], d, varDim)
      {
        var key := basisKeys[i];
        LocationIsOffset(basisKeys, varDim, i);
        assert basisKeys[..i + 1][..i] == basisKeys[..i];
        var a, b := basisLocation[key], basisLocation[key] + varDim[key];
        xi := xi[..a] + chart.local(values[key], other[key]) + xi[b..];
      }
      assert basisKeys[..|basisKeys|] == basisKeys;
    }
  }

  function DimsOf(values: Values, chart: Chart): map<Key, nat> {
    map k | k in values :: chart.dim(values[k])
  }

  ghost function Differences(chart: Chart, keys: seq<Key>, values: Values, other: Values): map<Key, Vector>
    requires forall k :: k in keys ==> k in values && k in other
  {
    map k | k in keys :: chart.local(values[k], other[k])
  }

  /** Cuts the coordinates into the segments of the basis variables. */
  method ReadSegments(basis: seq<Key>, location: map<Key, nat>, width: map<Key, nat>, xi: Vector)
    returns (delta: map<Key, Vector>)
    requires Known(basis, width) && NoDuplicates(basis) && location == Locations(basis, width)
    requires |xi| == Offset(basis, width)
    ensures delta == Segments(basis, width, xi)
  {
    LocationsFit(basis, width);
    delta := map[];
    for i := 0 to |basis|
      invariant delta.Keys == Elements(basis[..i])
      invariant forall k :: k in delta ==> k in basis && delta[k] == Segments(basis, width, xi)[k]
    {
      PrefixElements(basis, i);
      var key := basis[i];
      delta := delta[key := xi[location[key]..location[key] + width[key]]];
    }
    assert basis[..|basis|] == basis;
  }

  /** Adds the steps of the variables that follow the basis; a variable that has a step already keeps it. */
  method AddFollowers(j: Jacobians, width: map<Key, nat>, segments: map<Key, Vector>) returns (delta: map<Key, Vector>)
    requires Driven(j, width, segments)
    ensures delta == Tangent(j, width, segments) + segments
  {
    delta := segments;
    var todo := j.Keys;
    while todo != {}
      invariant todo <= j.Keys
      invariant delta.Keys == segments.Keys + (j.Keys - todo)
      invariant forall k :: k in delta ==>
        delta[k] == if k in segments then segments[k] else Act(j[k], width[k], width, segments)
      decreases todo
    {
      var key := MinKey(todo);
      if key !in delta {
        var v := SumBlocks(j[key], width[key], width, delta, segments);
        delta := delta[key := v];
      }
      todo := todo - {key};
    }
  }

  /** Sums the products of a variable's blocks with the steps of the basis variables. */
  method SumBlocks(blocks: Blocks, rows: nat, width: map<Key, nat>, delta: map<Key, Vector>,
                   ghost segments: map<Key, Vector>)
    returns (v: Vector)
    requires Shaped(blocks, rows, width) && Covers(segments, width, blocks)
    requires forall k :: k in segments ==> k in delta && delta[k] == segments[k]
    ensures v == Act(blocks, rows, width, segments)
  {
    v := Zero(rows);
    ghost var t := Products(blocks, rows, width, segments);
    var todo := blocks.Keys;
    ghost var done: map<Key, Vector> := map[];
    while todo != {}
      invariant todo <= blocks.Keys
      invariant done == (map k | k in blocks.Keys - todo :: t[k]) && Uniform(done, rows)
      invariant v == Sum(done, rows)
      decreases todo
    {
      var k := MinKey(todo);
      var product := Apply(blocks[k], delta[k]);
      SumAdd(done, rows, k, product);
      assert Plus(v, product) == Plus(product, v);
      v := Plus(v, product);
      done := done[k := product];
      todo := todo - {k};
    }
    assert done == t;
  }

  /** A variable's step for coordinates `xi`. */
  ghost function RowsOf(blocks: Blocks, rows: nat, basis: seq<Key>, width: map<Key, nat>, xi: Vector): (v: Vector)
    requires Known(basis, width) && NoDuplicates(basis) && |xi| == Offset(basis, width)
    requires Shaped(blocks, rows, width) && blocks.Keys <= Elements(basis)
  {
    assert forall b :: b in blocks ==> b in blocks.Keys && b in Elements(basis);
    Act(blocks, rows, width, Segments(basis, width, xi))
  }

  /** The columns of `h` at a basis variable are its block, or zero. */
  ghost predicate HasBlock(h: Matrix, blocks: Blocks, rows: nat, basis: seq<Key>, width: map<Key, nat>, n: nat)
    requires Known(basis, width) && n < |basis|
  {
    var a, k := Offset(basis[..n], width), basis[n];
    && h.rows == rows && a + width[k] <= h.cols
    && Block(h, 0, a, rows, width[k]) == (if k in blocks then blocks[k] else ZeroMatrix(rows, width[k]))
  }

  /** Replaces some columns. */
  function SetColumns(h: Matrix, a: nat, b: Matrix): (r: Matrix)
    requires b.rows == h.rows && a + b.cols <= h.cols
    ensures r.rows == h.rows && r.cols == h.cols
  {
    Matrix(h.rows, h.cols, seq(h.rows, i requires 0 <= i < h.rows => h.row[i][..a] + b.row[i] + h.row[i][a + b.cols..]))
  }

  lemma SetColumnsThere(h: Matrix, a: nat, b: Matrix)
    requires b.rows == h.rows && a + b.cols <= h.cols
    ensures Block(SetColumns(h, a, b), 0, a, h.rows, b.cols) == b
  {
    var r := SetColumns(h, a, b);
    forall i | 0 <= i < h.rows ensures r.row[i][a..a + b.cols] == b.row[i] {
      assert h.row[i][..a] + b.row[i] + h.row[i][a + b.cols..] == h.row[i][..a] + (b.row[i] + h.row[i][a + b.cols..]);
    }
    assert Block(r, 0, a, h.rows, b.cols).row == b.row;
  }

  lemma SetColumnsElsewhere(h: Matrix, a: nat, b: Matrix, c: nat, w: nat)
    requires b.rows == h.rows && a + b.cols <= h.cols && c + w <= h.cols
    requires c + w <= a || a + b.cols <= c
    ensures Block(SetColumns(h, a, b), 0, c, h.rows, w) == Block(h, 0, c, h.rows, w)
  {
    var r := SetColumns(h, a, b);
    forall i | 0 <= i < h.rows ensures r.row[i][c..c + w] == h.row[i][c..c + w] {
      forall j | c <= j < c + w ensures r.row[i][j] == h.row[i][j] {}
    }
    assert Block(r, 0, c, h.rows, w).row == Block(h, 0, c, h.rows, w).row;
  }

  lemma {:induction false} PiecesInOrder(keys: seq<Key>, width: map<Key, nat>, m: nat, n: nat)
    requires Known(keys, width) && m < n <= |keys|
    ensures Known(keys[..m], width) && Known(keys[..n], width)
    ensures Offset(keys[..m], width) + width[keys[m]] <= Offset(keys[..n], width)
    decreases n
  {
    OffsetPrefix(keys, m, width);
    OffsetPrefix(keys, n - 1, width);
    if m < n - 1 {
      PiecesInOrder(keys, width, m, n - 1);
    }
  }

  /** After one placement, that variable has its block and the others keep theirs. */
  lemma PlaceOne(h: Matrix, blocks: Blocks, done: Blocks, rows: nat, basis: seq<Key>, width: map<Key, nat>, m: nat,
                 n: nat)
    requires Known(basis, width) && NoDuplicates(basis) && m < |basis| && n < |basis|
    requires h.rows == rows && h.cols == Offset(basis, width) && Shaped(blocks, rows, width) && basis[m] in blocks
    requires HasBlock(h, done, rows, basis, width, n)
    ensures Offset(basis[..m], width) + width[basis[m]] <= h.cols
    ensures HasBlock(SetColumns(h, Offset(basis[..m], width), blocks[basis[m]]), done[basis[m] := blocks[basis[m]]],
                     rows, basis, width, n)
  {
    LocationIsOffset(basis, width, m);
    LocationIsOffset(basis, width, n);
    var a, b := Offset(basis[..m], width), blocks[basis[m]];
    if n == m {
      SetColumnsThere(h, a, b);
    } else {
      if n < m {
        PiecesInOrder(basis, width, n, m);
      } else {
        PiecesInOrder(basis, width, m, n);
      }
      SetColumnsElsewhere(h, a, b, Offset(basis[..n], width), width[basis[n]]);
    }
  }

  lemma BlockOfZero(rows: nat, cols: nat, a: nat, w: nat)
    requires a + w <= cols
    ensures Block(ZeroMatrix(rows, cols), 0, a, rows, w) == ZeroMatrix(rows, w)
  {
    forall i | 0 <= i < rows ensures Block(ZeroMatrix(rows, cols), 0, a, rows, w).row[i] == ZeroMatrix(rows, w).row[i] {
      assert Zero(cols)[a..a + w] == Zero(w);
    }
    assert Block(ZeroMatrix(rows, cols), 0, a, rows, w).row == ZeroMatrix(rows, w).row;
  }

  /** Writes every block into its columns of a zero matrix. */
  method PlaceBlocks(blocks: Blocks, rows: nat, basis: seq<Key>, location: map<Key, nat>, total: nat,
                     width: map<Key, nat>)
    returns (h: Matrix)
    requires Known(basis, width) && NoDuplicates(basis) && location == Locations(basis, width)
    requires total == Offset(basis, width)
    requires Shaped(blocks, rows, width) && blocks.Keys <= Elements(basis)
    ensures h.rows == rows && h.cols == total
    ensures forall n :: 0 <= n < |basis| ==> HasBlock(h, blocks, rows, basis, width, n)
  {
    h := ZeroMatrix(rows, total);
    ghost var done: Blocks := map[];
    forall n | 0 <= n < |basis| ensures HasBlock(h, done, rows, basis, width, n) {
      LocationIsOffset(basis, width, n);
      BlockOfZero(rows, total, Offset(basis[..n], width), width[basis[n]]);
    }
    var todo := blocks.Keys;
    while todo != {}
      invariant todo <= blocks.Keys && h.rows == rows && h.cols == total
      invariant done == map k | k in blocks.Keys - todo :: blocks[k]
      invariant forall n :: 0 <= n < |basis| ==> HasBlock(h, done, rows, basis, width, n)
      decreases todo
    {
      var k := MinKey(todo);
      assert k in Elements(basis);
      ghost var m :| 0 <= m < |basis| && basis[m] == k;
      LocationIsOffset(basis, width, m);
      ghost var before, doneBefore := h, done;
      h := SetColumns(h, location[k], blocks[k]);
      done := done[k := blocks[k]];
      forall n | 0 <= n < |basis| ensures HasBlock(h, done, rows, basis, width, n) {
        PlaceOne(before, blocks, doneBefore, rows, basis, width, m, n);
      }
      todo := todo - {k};
    }
    assert done == blocks;
  }

  function OnlyBlocks(blocks: Blocks, keys: set<Key>): Blocks {
    map k | k in blocks && k in keys :: blocks[k]
  }

  /** What the blocks of some basis variables do to their segments. */
  ghost function PartAct(blocks: Blocks, keys: set<Key>, rows: nat, width: map<Key, nat>,
                         s: map<Key, Vector>): (v: Vector)
    requires Shaped(blocks, rows, width) && Covers(s, width, blocks)
    ensures |v| == rows
  {
    Act(OnlyBlocks(blocks, keys), rows, width, s)
  }

  lemma PartActGrows(blocks: Blocks, keys: set<Key>, rows: nat, width: map<Key, nat>, s: map<Key, Vector>, k: Key)
    requires Shaped(blocks, rows, width) && Covers(s, width, blocks)
    requires k !in keys && k in width && k in s && |s[k]| == width[k]
    ensures PartAct(blocks, keys + {k}, rows, width, s)
         == Plus(PartAct(blocks, keys, rows, width, s),
                 Apply(if k in blocks then blocks[k] else ZeroMatrix(rows, width[k]), s[k]))
  {
    var some, next := OnlyBlocks(blocks, keys), OnlyBlocks(blocks, keys + {k});
    if k in blocks {
      assert next == some[k := blocks[k]];
      ActAdd(some, rows, width, s, k, blocks[k]);
      assert Plus(Apply(blocks[k], s[k]), Act(some, rows, width, s))
        == Plus(Act(some, rows, width, s), Apply(blocks[k], s[k]));
    } else {
      assert next == some;
      ApplyZeroMatrix(rows, width[k], s[k]);
      PlusZero(Act(some, rows, width, s));
    }
  }

  lemma ColumnsSplit(h: Matrix, a: nat, w: nat, xi: Vector)
    requires a + w <= h.cols && |xi| == h.cols
    ensures Apply(Block(h, 0, 0, h.rows, a + w), xi[..a + w])
         == Plus(Apply(Block(h, 0, 0, h.rows, a), xi[..a]), Apply(Block(h, 0, a, h.rows, w), xi[a..a + w]))
  {
    assert xi[..a + w] == xi[..a] + xi[a..a + w];
    ApplySplitColumns(Block(h, 0, 0, h.rows, a + w), a, xi[..a], xi[a..a + w]);
    BlockOfBlock(h, 0, h.rows, a + w, 0, a);
    BlockOfBlock(h, 0, h.rows, a + w, a, w);
  }

  /** The segments are the pieces of the coordinates. */
  ghost predicate AreSegments(basis: seq<Key>, width: map<Key, nat>, xi: Vector, s: map<Key, Vector>) {
    && Known(basis, width) && |xi| == Offset(basis, width)
    && forall n :: 0 <= n < |basis| ==>
      basis[n] in s && |s[basis[n]]| == width[basis[n]] && IsPiece(basis, n, width, xi, s[basis[n]])
  }

  /** The matrix, the blocks and the segments belong together. */
  ghost predicate Recovers(h: Matrix, blocks: Blocks, basis: seq<Key>, width: map<Key, nat>, xi: Vector,
                           s: map<Key, Vector>) {
    && AreSegments(basis, width, xi, s) && NoDuplicates(basis)
    && h.cols == |xi| && Shaped(blocks, h.rows, width) && Covers(s, width, blocks)
    && forall i :: 0 <= i < |basis| ==> HasBlock(h, blocks, h.rows, basis, width, i)
  }

  /** The first columns of the recovered matrix do what the first basis variables' blocks do. */
  ghost predicate ColumnsAct(h: Matrix, blocks: Blocks, basis: seq<Key>, width: map<Key, nat>, xi: Vector,
                             s: map<Key, Vector>, n: nat)
    requires Recovers(h, blocks, basis, width, xi, s) && n <= |basis|
  {
    var a := Offset(basis[..n], width);
    a <= |xi| && Apply(Block(h, 0, 0, h.rows, a), xi[..a]) == PartAct(blocks, Elements(basis[..n]), h.rows, width, s)
  }

  lemma RecoversAt(h: Matrix, blocks: Blocks, basis: seq<Key>, width: map<Key, nat>, xi: Vector, s: map<Key, Vector>,
                   n: nat)
    requires Recovers(h, blocks, basis, width, xi, s) && n < |basis|
    ensures var a, k := Offset(basis[..n], width), basis[n];
      && k !in Elements(basis[..n]) && k in width && k in s && |s[k]| == width[k]
      && a + width[k] == Offset(basis[..n + 1], width) <= |xi| && s[k] == xi[a..a + width[k]]
      && Block(h, 0, a, h.rows, width[k]) == (if k in blocks then blocks[k] else ZeroMatrix(h.rows, width[k]))
      && Elements(basis[..n + 1]) == Elements(basis[..n]) + {k}
  {
    hide Shaped, Covers, Block, ZeroMatrix;
    OffsetPrefix(basis, n, width);
    PrefixElements(basis, n);
    assert HasBlock(h, blocks, h.rows, basis, width, n);
    assert IsPiece(basis, n, width, xi, s[basis[n]]);
  }

  lemma ColumnsActNext(h: Matrix, blocks: Blocks, basis: seq<Key>, width: map<Key, nat>, xi: Vector,
                       s: map<Key, Vector>, n: nat)
    requires Recovers(h, blocks, basis, width, xi, s) && n < |basis| && ColumnsAct(h, blocks, basis, width, xi, s, n)
    ensures ColumnsAct(h, blocks, basis, width, xi, s, n + 1)
  {
    hide Shaped, Covers, PartAct, Elements, Apply, Block, ZeroMatrix, HasBlock, IsPiece, Offset, NoDuplicates;
    RecoversAt(h, blocks, basis, width, xi, s, n);
    NextColumnsAct(h, blocks, width, xi, s, Elements(basis[..n]), basis[n], Offset(basis[..n], width));
  }

  lemma {:induction false} FirstColumnsAct(h: Matrix, blocks: Blocks, basis: seq<Key>, width: map<Key, nat>, xi: Vector,
                                           s: map<Key, Vector>, n: nat)
    requires Recovers(h, blocks, basis, width, xi, s) && n <= |basis|
    ensures ColumnsAct(h, blocks, basis, width, xi, s, n)
  {
    if n == 0 {
      assert OnlyBlocks(blocks, Elements(basis[..0])) == map[];
      ApplyToZero(Block(h, 0, 0, h.rows, 0));
      assert xi[..0] == Zero(0);
    } else {
      FirstColumnsAct(h, blocks, basis, width, xi, s, n - 1);
      ColumnsActNext(h, blocks, basis, width, xi, s, n - 1);
    }
  }

  lemma NextColumnsAct(h: Matrix, blocks: Blocks, width: map<Key, nat>, xi: Vector, s: map<Key, Vector>, keys: set<Key>,
                       k: Key, a: nat)
    requires h.cols == |xi| && Shaped(blocks, h.rows, width) && Covers(s, width, blocks)
    requires k !in keys && k in width && k in s && |s[k]| == width[k] && a + width[k] <= |xi|
    requires s[k] == xi[a..a + width[k]]
    requires Block(h, 0, a, h.rows, width[k]) == if k in blocks then blocks[k] else ZeroMatrix(h.rows, width[k])
    requires Apply(Block(h, 0, 0, h.rows, a), xi[..a]) == PartAct(blocks, keys, h.rows, width, s)
    ensures Apply(Block(h, 0, 0, h.rows, a + width[k]), xi[..a + width[k]])
         == PartAct(blocks, keys + {k}, h.rows, width, s)
  {
    ColumnsSplit(h, a, width[k], xi);
    PartActGrows(blocks, keys, h.rows, width, s, k);
  }

  /** The recovered matrix does to coordinates what the blocks do to their segments. */
  lemma PlacedBlocksAct(h: Matrix, blocks: Blocks, rows: nat, basis: seq<Key>, width: map<Key, nat>, xi: Vector)
    requires Known(basis, width) && NoDuplicates(basis) && |xi| == Offset(basis, width)
    requires h.rows == rows && h.cols == Offset(basis, width) && Shaped(blocks, rows, width)
    requires blocks.Keys <= Elements(basis)
    requires forall i :: 0 <= i < |basis| ==> HasBlock(h, blocks, rows, basis, width, i)
    ensures Apply(h, xi) == RowsOf(blocks, rows, basis, width, xi)
  {
    var s := Segments(basis, width, xi);
    SegmentsCover(blocks, basis, width, s);
    assert Recovers(h, blocks, basis, width, xi, s) by {
      SegmentsAreSegments(basis, width, xi);
    }
    AllColumnsAct(h, blocks, basis, width, xi, s);
  }

  lemma SegmentsCover(blocks: Blocks, basis: seq<Key>, width: map<Key, nat>, s: map<Key, Vector>)
    requires Known(basis, width) && blocks.Keys <= Elements(basis)
    requires s.Keys == Elements(basis) && forall k :: k in basis ==> |s[k]| == width[k]
    ensures Covers(s, width, blocks)
  {
    forall b | b in blocks ensures b in s && b in width && |s[b]| == width[b] {
      assert b in blocks.Keys && b in Elements(basis);
    }
  }

  lemma AllColumnsAct(h: Matrix, blocks: Blocks, basis: seq<Key>, width: map<Key, nat>, xi: Vector, s: map<Key, Vector>)
    requires Recovers(h, blocks, basis, width, xi, s) && blocks.Keys <= Elements(basis)
    ensures Apply(h, xi) == Act(blocks, h.rows, width, s)
  {
    FirstColumnsAct(h, blocks, basis, width, xi, s, |basis|);
    assert ColumnsAct(h, blocks, basis, width, xi, s, |basis|);
    assert basis[..|basis|] == basis;
    WholeMatrix(h, xi);
    assert OnlyBlocks(blocks, Elements(basis)) == blocks;
  }

  lemma SegmentsAreSegments(basis: seq<Key>, width: map<Key, nat>, xi: Vector)
    requires Known(basis, width) && NoDuplicates(basis) && |xi| == Offset(basis, width)
    ensures AreSegments(basis, width, xi, Segments(basis, width, xi))
  {
    forall n | 0 <= n < |basis| ensures IsPiece(basis, n, width, xi, Segments(basis, width, xi)[basis[n]]) {
      LocationIsOffset(basis, width, n);
    }
  }

  lemma WholeMatrix(h: Matrix, xi: Vector)
    requires |xi| == h.cols
    ensures Apply(Block(h, 0, 0, h.rows, h.cols), xi[..h.cols]) == Apply(h, xi)
  {
    assert xi[..h.cols] == xi;
    forall i | 0 <= i < h.rows ensures Block(h, 0, 0, h.rows, h.cols).row[i] == h.row[i] {}
    assert Block(h, 0, 0, h.rows, h.cols).row == h.row;
  }

  // ---------------------------------------------------------------------------------------
  // What the basis is for

  /**
   * Without pruning, the steps computed for any coordinates satisfy the linearized constraints and
   * move every basis variable by its own segment.
   */
  lemma TangentVectorsAreTangent(eliminate: Values -> seq<Conditional>, basis: seq<Key>, width: map<Key, nat>,
                                 v: Values, xi: Vector)
    requires GoodElimination(eliminate, basis, width, v) && NoDuplicates(basis)
    requires |xi| == Offset(basis, width)
    ensures var j := JacobiansAt(eliminate, basis, width, 0.0, v);
      && OnBasis(j, Elements(basis)) && j.Keys == width.Keys
      && (forall c :: c in eliminate(v) ==> Holds(c, TangentVector(j, basis, width, xi), width))
      && (forall k :: k in basis ==> TangentVector(j, basis, width, xi)[k] == Segments(basis, width, xi)[k])
  {
    var j, s := JacobiansAt(eliminate, basis, width, 0.0, v), Segments(basis, width, xi);
    JacobiansCoverVariables(eliminate, basis, width, 0.0, v);
    BlocksCovered(j, basis, width, s);
    BackSubstitutionIsSound(eliminate(v), basis, width, s);
    forall k | k in basis ensures k in j && Tangent(j, width, s)[k] == s[k] {}
    assert TangentVector(j, basis, width, xi) == Tangent(j, width, s);
  }

  lemma {:induction false} BasisEntry(basis: seq<Key>, width: map<Key, nat>, k: Key)
    requires Known(basis, width) && k in basis
    ensures HasEntry(WithBasis(map[], basis, width), k, IdentityBlocks(k, width[k]))
  {
    BasisOnBasis(basis[..|basis| - 1], width);
    if k in basis[..|basis| - 1] {
      BasisEntry(basis[..|basis| - 1], width, k);
    }
  }

  /** Whatever the tolerance, the recovered Jacobian of every variable agrees with its step. */
  lemma RecoveredAgreesWithStep(eliminate: Values -> seq<Conditional>, basis: seq<Key>, width: map<Key, nat>, tol: real,
                                v: Values, xi: Vector, k: Key)
    requires GoodElimination(eliminate, basis, width, v) && NoDuplicates(basis)
    requires |xi| == Offset(basis, width) && k in width
    ensures var j := JacobiansAt(eliminate, basis, width, tol, v);
      && OnBasis(j, Elements(basis)) && j.Keys == width.Keys
      && TangentVector(j, basis, width, xi)[k] == RowsOf(j[k], width[k], basis, width, xi)
  {
    var j, s := JacobiansAt(eliminate, basis, width, tol, v), Segments(basis, width, xi);
    JacobiansCoverVariables(eliminate, basis, width, tol, v);
    BlocksCovered(j, basis, width, s);
    assert k in j.Keys && j[k].Keys <= Elements(basis);
    if k in basis {
      assert k in Elements(basis);
      BasisEntry(basis, width, k);
      WalkKeepsBasis(WithBasis(map[], basis, width), eliminate(v), tol, width, k);
      IdentityActs(k, width, s);
    }
  }

  /** Conversely, every step that satisfies the linearized constraints comes from coordinates: its basis part. */
  lemma EveryTangentHasCoordinates(eliminate: Values -> seq<Conditional>, basis: seq<Key>, width: map<Key, nat>,
                                   v: Values, step: map<Key, Vector>)
    requires GoodElimination(eliminate, basis, width, v) && NoDuplicates(basis)
    requires IsBasisStep(basis, width, step) && forall c :: c in eliminate(v) ==> Holds(c, step, width)
    ensures var j := JacobiansAt(eliminate, basis, width, 0.0, v); var xi := Stack(basis, step, width);
      && OnBasis(j, Elements(basis)) && j.Keys == width.Keys
      && forall k :: k in width ==> k in step && step[k] == TangentVector(j, basis, width, xi)[k]
  {
    var j, xi := JacobiansAt(eliminate, basis, width, 0.0, v), Stack(basis, step, width);
    var s := Segments(basis, width, xi);
    JacobiansCoverVariables(eliminate, basis, width, 0.0, v);
    BlocksCovered(j, basis, width, s);
    SegmentsOfStack(basis, width, step);
    BackSubstitutionIsComplete(eliminate(v), basis, width, step);
    SameBasisStepSameTangent(j, basis, width, s, step);
    forall k | k in width ensures k in step && step[k] == TangentVector(j, basis, width, xi)[k] {
      assert k in j && step[k] == Tangent(j, width, step)[k];
    }
  }

  /** Cutting a stack gives back what was stacked. */
  lemma SegmentsOfStack(basis: seq<Key>, width: map<Key, nat>, step: map<Key, Vector>)
    requires Known(basis, width) && NoDuplicates(basis) && IsBasisStep(basis, width, step)
    ensures forall k :: k in basis ==> Segments(basis, width, Stack(basis, step, width))[k] == step[k]
  {
    forall k | k in basis ensures Segments(basis, width, Stack(basis, step, width))[k] == step[k] {
      var n :| 0 <= n < |basis| && basis[n] == k;
      LocationIsOffset(basis, width, n);
      PieceOfStack(basis, n, step, width);
    }
  }

  lemma SameBasisStepSameTangent(j: Jacobians, basis: seq<Key>, width: map<Key, nat>, s: map<Key, Vector>,
                                 u: map<Key, Vector>)
    requires OnBasis(j, Elements(basis)) && Driven(j, width, s) && Driven(j, width, u)
    requires forall k :: k in basis ==> k in s && k in u && s[k] == u[k]
    ensures Tangent(j, width, s) == Tangent(j, width, u)
  {
    forall k | k in j ensures Act(j[k], width[k], width, s) == Act(j[k], width[k], width, u) {
      forall b | b in j[k] ensures s[b] == u[b] {
        assert b in j[k].Keys;
        assert b in Elements(basis);
      }
      assert Products(j[k], width[k], width, s) == Products(j[k], width[k], width, u);
    }
  }

  // ---------------------------------------------------------------------------------------
  // The circle

  function OneByOne(a: real): (m: Matrix)
    ensures m.rows == 1 && m.cols == 1 && m.row[0] == [a]
  {
    Matrix(1, 1, [[a]])
  }

  /** Eliminating `y` (key 1) from the constraint x^2 + y^2 == 1 linearized at a point: 2y dy + 2x dx == 0. */
  function CircleNet(x: real, y: real): seq<Conditional> {
    [Conditional([1], [0], OneByOne(2.0 * y), OneByOne(2.0 * x))]
  }

  /** The variable x (key 0) is a basis of the circle exactly where y is not zero. */
  lemma CircleBasis(x: real, y: real, eliminate: Values -> seq<Conditional>, v: Values)
    requires eliminate(v) == CircleNet(x, y)
    ensures GoodElimination(eliminate, [0], map[0 := 1, 1 := 1], v) <==> y != 0.0
  {
    var net, width := CircleNet(x, y), map[0 := 1, 1 := 1];
    var c := net[0];
    assert net[..0] == [] && c.frontals[..0] == [] && c.parents[..0] == [];
    assert WellFormed(c, width) <==> y != 0.0 by {
      assert Offset(c.frontals, width) == 1 && Offset(c.parents, width) == 1;
      assert IsUpper(c.r) <==> c.r.row[0][0] != 0.0;
    }
    assert Ordered([], {0} + Elements(c.frontals));
    assert Ordered(net, Elements([0]));
    assert AllFrontals(net) == AllFrontals([]) + {1};
    assert GoodElimination(eliminate, [0], width, v) ==> c in net && WellFormed(c, width);
  }
}

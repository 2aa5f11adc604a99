/**
 * The integer part of the `Sphere` constructor (engine/geometry/sphere.cpp):
 * the (stacks + 1) x (slices + 1) vertex grid, three float components per
 * grid point, and the row-major triangulation of its cells. The float
 * values themselves (sines and cosines of the grid angles) are kept
 * symbolic: a component records which grid point and axis it belongs to.
 */
module Geometry {

  /** Largest `int` of the source; its index arithmetic is done in `int`. */
  const IntMax: int := 0x7FFF_FFFF

  function Nat(x: int): nat
  {
    if x < 0 then 0 else x
  }

  datatype Axis = X | Y | Z

  /** One pushed float: the given axis of the point at stack i, slice j. */
  datatype Component = Component(stack: int, slice: int, axis: Axis)

  /** What the source demands: its `int` index arithmetic and `indexCount_` do not overflow. */
  predicate SizesFit(stacks: int, slices: int)
  {
    6 * (Nat(stacks) + 1) * (Nat(slices) + 1) <= IntMax
  }

  /** The two triangles of cell (i, j): (first, second, first+1), (second, second+1, first+1). */
  function Cell(i: int, j: int, slices: int): seq<int>
  {
    var first := i * (slices + 1) + j;
    var second := first + slices + 1;
    [first, second, first + 1, second, second + 1, first + 1]
  }

  /** The cells (i, 0) .. (i, j - 1) of row i, in order. */
  function RowCells(i: int, j: nat, slices: int): seq<int>
  {
    if j == 0 then [] else RowCells(i, j - 1, slices) + Cell(i, j - 1, slices)
  }

  /** Rows 0 .. n - 1, row after row. */
  function Rows(n: nat, slices: int): seq<int>
  {
    if n == 0 then [] else Rows(n - 1, slices) + RowCells(n - 1, Nat(slices), slices)
  }

  /** The index list of a sphere: every cell, row-major. */
  function Triangulation(stacks: int, slices: int): seq<int>
  {
    Rows(Nat(stacks), slices)
  }

  /** Row i has six indices per cell. */
  lemma {:induction false} RowCellsLength(i: int, j: nat, slices: int)
    ensures |RowCells(i, j, slices)| == 6 * j
  {
    if j > 0 {
      RowCellsLength(i, j - 1, slices);
    }
  }

  /** Cell (i, c) occupies positions 6c .. 6c + 5 of its row. */
  lemma {:induction false} RowCellsCell(i: int, j: nat, slices: int, c: nat)
    requires c < j
    ensures |RowCells(i, j, slices)| == 6 * j
    ensures RowCells(i, j, slices)[6 * c..6 * c + 6] == Cell(i, c, slices)
  {
    RowCellsLength(i, j, slices);
    RowCellsLength(i, j - 1, slices);
    var prev := RowCells(i, j - 1, slices);
    if c < j - 1 {
      RowCellsCell(i, j - 1, slices, c);
      SliceOfPrefix(prev, Cell(i, j - 1, slices), 6 * c);
    } else {
      SliceOfSuffix(prev, Cell(i, j - 1, slices), 0);
    }
  }

  /** The indices of row i lie between its first point and the last point of row i + 1. */
  lemma {:induction false} RowCellsBound(i: int, j: nat, slices: nat, base: int)
    requires j <= slices && base == i * (slices + 1)
    ensures forall k | 0 <= k < |RowCells(i, j, slices)| ::
      base <= RowCells(i, j, slices)[k] < base + 2 * (slices + 1)
  {
    if j > 0 {
      RowCellsBound(i, j - 1, slices, base);
      var prev := RowCells(i, j - 1, slices);
      var cell := Cell(i, j - 1, slices);
      assert forall k | 0 <= k < |cell| :: base <= cell[k] < base + 2 * (slices + 1);
      AllWithinAppend(prev, cell, base, base + 2 * (slices + 1));
    }
  }

  lemma AllWithinAppend(a: seq<int>, b: seq<int>, lo: int, hi: int)
    requires forall k | 0 <= k < |a| :: lo <= a[k] < hi
    requires forall k | 0 <= k < |b| :: lo <= b[k] < hi
    ensures forall k | 0 <= k < |a + b| :: lo <= (a + b)[k] < hi
  {
    forall k | 0 <= k < |a + b| ensures lo <= (a + b)[k] < hi {
      if k < |a| {
        assert (a + b)[k] == a[k];
      } else {
        assert (a + b)[k] == b[k - |a|];
      }
    }
  }

  /** n s = (n - 1) s + s */
  lemma MulPred(n: nat, s: nat)
    requires n > 0
    ensures n * s == (n - 1) * s + s
  {
  }

  /** (n + 1) w = (n - 1) w + 2 w, and (n - 1) w is not negative. */
  lemma MulShift(n: nat, w: nat)
    requires n > 0
    ensures (n + 1) * w == (n - 1) * w + 2 * w
    ensures (n - 1) * w >= 0
  {
  }

  lemma {:induction false} RowsLength(n: nat, slices: nat)
    ensures |Rows(n, slices)| == 6 * (n * slices)
  {
    if n > 0 {
      RowsLength(n - 1, slices);
      RowCellsLength(n - 1, slices, slices);
      MulPred(n, slices);
    }
  }

  /** Every index of rows 0 .. n - 1 names a point of stacks 0 .. n. */
  lemma {:induction false} RowsBound(n: nat, slices: nat)
    ensures forall k | 0 <= k < |Rows(n, slices)| :: 0 <= Rows(n, slices)[k] < (n + 1) * (slices + 1)
  {
    if n > 0 {
      var w := slices + 1;
      RowsBound(n - 1, slices);
      MulShift(n, w);
      MulPred(n, w);
      var base := (n - 1) * w;
      RowCellsBound(n - 1, slices, slices, base);
      AllWithinAppend(Rows(n - 1, slices), RowCells(n - 1, slices, slices), 0, (n + 1) * w);
    }
  }

  /** Earlier rows are a prefix of later ones. */
  lemma {:induction false} RowsPrefix(i: nat, n: nat, slices: int)
    requires i <= n
    ensures Rows(i, slices) <= Rows(n, slices)
  {
    if i < n {
      RowsPrefix(i, n - 1, slices);
      assert Rows(n - 1, slices) <= Rows(n, slices);
    }
  }

  /** Cell (i, j) follows rows 0 .. i - 1 and the first j cells of row i. */
  lemma RowsCell(n: nat, slices: nat, i: nat, j: nat)
    requires i < n && j < slices
    ensures |Rows(i, slices)| + 6 * j + 6 <= |Rows(n, slices)|
    ensures Rows(n, slices)[|Rows(i, slices)| + 6 * j..|Rows(i, slices)| + 6 * j + 6] == Cell(i, j, slices)
  {
    RowsPrefix(i + 1, n, slices);
    RowCellsCell(i, slices, slices, j);
    var a := Rows(i, slices);
    var r := RowCells(i, slices, slices);
    assert Rows(i + 1, slices) == a + r;
    SliceOfSuffix(a, r, 6 * j);
    SliceOfLonger(a + r, Rows(n, slices), |a| + 6 * j);
  }

  lemma SliceOfLonger(p: seq<int>, s: seq<int>, b: nat)
    requires p <= s && b + 6 <= |p|
    ensures s[b..b + 6] == p[b..b + 6]
  {
  }

  lemma SliceOfPrefix(a: seq<int>, c: seq<int>, b: nat)
    requires b + 6 <= |a|
    ensures (a + c)[b..b + 6] == a[b..b + 6]
  {
  }

  lemma SliceOfSuffix(a: seq<int>, c: seq<int>, o: nat)
    requires o + 6 <= |c|
    ensures (a + c)[|a| + o..|a| + o + 6] == c[o..o + 6]
  {
  }

  /** The components of stack i's points 0 .. j - 1, three floats each. */
  function RowPoints(i: int, j: nat): seq<Component>
  {
    if j == 0 then [] else RowPoints(i, j - 1) + [Component(i, j - 1, X), Component(i, j - 1, Y), Component(i, j - 1, Z)]
  }

  /** The components of stacks 0 .. n - 1. */
  function GridPoints(n: nat, slices: int): seq<Component>
  {
    if n == 0 then [] else GridPoints(n - 1, slices) + RowPoints(n - 1, Nat(slices + 1))
  }

  lemma {:induction false} GridPointsCount(n: nat, slices: int)
    ensures |GridPoints(n, slices)| == 3 * (n * Nat(slices + 1))
  {
    if n > 0 {
      GridPointsCount(n - 1, slices);
      RowPointsCount(n - 1, Nat(slices + 1));
    }
  }

  lemma {:induction false} RowPointsCount(i: int, j: nat)
    ensures |RowPoints(i, j)| == 3 * j
  {
    if j > 0 {
      RowPointsCount(i, j - 1);
    }
  }

  /**
   * The vertex loops of the constructor: for each stack i in 0..stacks and
   * each slice j in 0..slices, push the x, y and z of point (i, j).
   */
  method SphereVertices(stacks: int, slices: int) returns (vertices: seq<Component>)
    ensures vertices == GridPoints(Nat(stacks + 1), slices)
  {
    vertices := [];
    var i := 0;
    while i <= stacks
      invariant 0 <= i <= Nat(stacks + 1)
      invariant vertices == GridPoints(i, slices)
    {
      var j := 0;
      while j <= slices
        invariant 0 <= j <= Nat(slices + 1)
        invariant vertices == GridPoints(i, slices) + RowPoints(i, j)
      {
        vertices := vertices + [Component(i, j, X), Component(i, j, Y), Component(i, j, Z)];
        j := j + 1;
      }
      i := i + 1;
    }
  }

  /** The index loops of the constructor, and `indexCount_`. */
  method SphereIndices(stacks: int, slices: int) returns (indices: seq<int>, indexCount: int)
    requires SizesFit(stacks, slices)
    ensures indices == Triangulation(stacks, slices)
    ensures indexCount == |indices|
  {
    indices := [];
    var i := 0;
    while i < stacks
      invariant 0 <= i <= Nat(stacks)
      invariant indices == Rows(i, slices)
    {
      var j := 0;
      while j < slices
        invariant 0 <= j <= Nat(slices)
        invariant indices == Rows(i, slices) + RowCells(i, j, slices)
      {
        var first := i * (slices + 1) + j;
        var second := first + slices + 1;
        indices := indices + [first, second, first + 1];
        indices := indices + [second, second + 1, first + 1];
        j := j + 1;
      }
      i := i + 1;
    }
    indexCount := |indices|;
  }

  /**
   * The sphere's counts and bounds: (stacks + 1)(slices + 1) points of three
   * components, 6 * stacks * slices indices, each naming one of the points.
   */
  lemma SphereCounts(stacks: nat, slices: nat)
    ensures |GridPoints(stacks + 1, slices)| == 3 * ((stacks + 1) * (slices + 1))
    ensures |Triangulation(stacks, slices)| == 6 * (stacks * slices)
    ensures forall k | 0 <= k < |Triangulation(stacks, slices)| ::
      0 <= Triangulation(stacks, slices)[k] < (stacks + 1) * (slices + 1)
  {
    GridPointsCount(stacks + 1, slices);
    RowsLength(stacks, slices);
    RowsBound(stacks, slices);
  }

  /**
   * Cells are emitted row-major: the six indices of cell (i, j) sit at
   * block i * slices + j of the index list.
   */
  lemma TriangulationCell(stacks: nat, slices: nat, i: nat, j: nat)
    requires i < stacks && j < slices
    ensures 6 * (i * slices + j) + 6 <= |Triangulation(stacks, slices)|
    ensures Triangulation(stacks, slices)[6 * (i * slices + j)..6 * (i * slices + j) + 6] == Cell(i, j, slices)
  {
    RowsCell(stacks, slices, i, j);
    RowsLength(i, slices);
  }

  /** `Engine::Geometry::Sphere`: only the index count outlives the constructor. */
  class Sphere {
    var indexCount: int

    constructor (radius: real, stacks: int, slices: int)
      requires SizesFit(stacks, slices)
      ensures indexCount == |Triangulation(stacks, slices)|
    {
      var vertices := SphereVertices(stacks, slices);
      var indices, count := SphereIndices(stacks, slices);
      indexCount := count;
    }
  }
}

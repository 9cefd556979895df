/**
 * What both terrain revisions share after the height map: one vertex per
 * grid point in row-major order, two triangles per grid cell (lower-left
 * (i1, i2, i4), upper-right (i2, i3, i4)), the plane height of a terrain
 * triangle and the triangle lookup by cell.
 */
module TerrainGrid {
  import opened IsanaMath
  import opened Geometry
  import opened HeightField

  /** The vertex generate_terrain pushes for grid point (i, j): (i, j, height). */
  function GridPoint(heights: seq<real>, w: nat, h: nat, i: nat, j: nat): Vec3
    requires |heights| == GridSize(w, h) && i <= w && j <= h
  {
    IdxInBounds(w, h, i, j);
    Vec3(i as real, j as real, heights[Idx(w, i, j)])
  }

  /** Rows 0 .. j - 1 of the vertex buffer hold their grid points. */
  predicate RowsBuilt(positions: seq<Vec3>, heights: seq<real>, w: nat, h: nat, j: nat)
    requires |heights| == GridSize(w, h)
  {
    forall i', j' :: 0 <= i' <= w && 0 <= j' < j && j' <= h ==>
      Idx(w, i', j') < |positions| && positions[Idx(w, i', j')] == GridPoint(heights, w, h, i', j')
  }

  /** The vertex buffer of the whole grid: the vertex of (i, j) sits at idx(i, j). */
  predicate IsGridPositions(positions: seq<Vec3>, heights: seq<real>, w: nat, h: nat)
    requires |heights| == GridSize(w, h)
  {
    |positions| == GridSize(w, h) && RowsBuilt(positions, heights, w, h, h + 1)
  }

  /** The six vertex indices cell (i, j) contributes: i1, i2, i4, then i2, i3, i4. */
  function CellIndices(w: nat, i: nat, j: nat): seq<nat>
  {
    var i1 := Idx(w, i, j);
    var i2 := Idx(w, i + 1, j);
    var i3 := Idx(w, i + 1, j + 1);
    var i4 := Idx(w, i, j + 1);
    [i1, i2, i4, i2, i3, i4]
  }

  /** The number of cells in rows 0 .. j - 1: j w. */
  function CellStart(w: nat, j: nat): nat
  {
    if j == 0 then 0 else CellStart(w, j - 1) + w
  }

  lemma {:induction false} CellStartFormula(w: nat, j: nat)
    ensures CellStart(w, j) == j * w
  {
    if j > 0 {
      CellStartFormula(w, j - 1);
    }
  }

  lemma {:induction false} CellStartMonotone(w: nat, j1: nat, j2: nat)
    requires j1 <= j2
    ensures CellStart(w, j1) <= CellStart(w, j2)
    decreases j2 - j1
  {
    if j1 < j2 {
      CellStartMonotone(w, j1 + 1, j2);
    }
  }

  /** The indices of the first n cells of row j. */
  function RowIndices(w: nat, j: nat, n: nat): (r: seq<nat>)
    ensures |r| == 6 * n
  {
    if n == 0 then [] else RowIndices(w, j, n - 1) + CellIndices(w, n - 1, j)
  }

  /** The indices of the first `rows` full rows of cells. */
  function GridIndices(w: nat, rows: nat): (r: seq<nat>)
    ensures |r| == 6 * CellStart(w, rows)
  {
    if rows == 0 then [] else GridIndices(w, rows - 1) + RowIndices(w, rows - 1, w)
  }

  /** The grid loops emit 6 w h indices, that is 2 w h triangles. */
  lemma GridIndicesLength(w: nat, h: nat)
    ensures |GridIndices(w, h)| == 6 * (w * h) == 3 * (2 * (w * h))
  {
    CellStartFormula(w, h);
  }

  lemma {:induction false} RowIndicesAt(w: nat, j: nat, n: nat, i: nat, k: nat)
    requires i < n && k < 6
    ensures 6 * i + k < |RowIndices(w, j, n)| && RowIndices(w, j, n)[6 * i + k] == CellIndices(w, i, j)[k]
  {
    if i < n - 1 {
      RowIndicesAt(w, j, n - 1, i, k);
    }
  }

  /** Cell (i, j) owns indices 6 (j w + i) .. 6 (j w + i) + 5: cells are emitted row by row. */
  lemma {:induction false} GridIndicesAt(w: nat, rows: nat, i: nat, j: nat, k: nat)
    requires i < w && j < rows && k < 6
    ensures 6 * (CellStart(w, j) + i) + k < |GridIndices(w, rows)|
    ensures GridIndices(w, rows)[6 * (CellStart(w, j) + i) + k] == CellIndices(w, i, j)[k]
  {
    if j == rows - 1 {
      RowIndicesAt(w, j, w, i, k);
    } else {
      GridIndicesAt(w, rows - 1, i, j, k);
    }
  }

  lemma {:induction false} RowIndicesBounded(w: nat, h: nat, j: nat, n: nat)
    requires j < h && n <= w
    ensures forall k :: 0 <= k < |RowIndices(w, j, n)| ==> RowIndices(w, j, n)[k] < GridSize(w, h)
  {
    if n > 0 {
      RowIndicesBounded(w, h, j, n - 1);
      IdxInBounds(w, h, n - 1, j);
      IdxInBounds(w, h, n, j);
      IdxInBounds(w, h, n, j + 1);
      IdxInBounds(w, h, n - 1, j + 1);
    }
  }

  /** Every emitted index names a grid vertex: it is below (w + 1)(h + 1). */
  lemma {:induction false} GridIndicesBounded(w: nat, h: nat, rows: nat)
    requires rows <= h
    ensures forall k :: 0 <= k < |GridIndices(w, rows)| ==> GridIndices(w, rows)[k] < GridSize(w, h)
  {
    if rows > 0 {
      GridIndicesBounded(w, h, rows - 1);
      RowIndicesBounded(w, h, rows - 1, w);
    }
  }

  /**
   * The grid loops of generate_terrain: for j = 0..h, i = 0..w, push the
   * vertex of (i, j) and, unless i = w or j = h, the six indices of cell (i, j).
   */
  method BuildGrid(heights: seq<real>, w: nat, h: nat) returns (positions: seq<Vec3>, indices: seq<nat>)
    requires |heights| == GridSize(w, h)
    ensures IsGridPositions(positions, heights, w, h)
    ensures indices == GridIndices(w, h)
  {
    positions := [];
    indices := [];
    var j := 0;
    while j <= h
      invariant j <= h + 1
      invariant |positions| == RowStart(w, j)
      invariant RowsBuilt(positions, heights, w, h, j)
      invariant indices == GridIndices(w, if j < h then j else h)
    {
      ghost var before := positions;
      positions, indices := BuildRow(heights, w, h, j, positions, indices);
      RowComplete(before, positions, heights, w, h, j);
      j := j + 1;
    }
  }

  /** One pass of the inner loop (row j) of the grid loops. */
  method BuildRow(heights: seq<real>, w: nat, h: nat, j: nat, positions0: seq<Vec3>, indices0: seq<nat>)
    returns (positions: seq<Vec3>, indices: seq<nat>)
    requires |heights| == GridSize(w, h) && j <= h
    requires |positions0| == RowStart(w, j)
    requires indices0 == GridIndices(w, j)
    ensures |positions| == RowStart(w, j + 1) && positions[..|positions0|] == positions0
    ensures PointsUpTo(positions, heights, w, h, j, w + 1)
    ensures j < h ==> indices == GridIndices(w, j + 1)
    ensures j == h ==> indices == indices0
  {
    positions, indices := positions0, indices0;
    var i := 0;
    while i <= w
      invariant i <= w + 1
      invariant |positions| == Idx(w, i, j)
      invariant positions[..|positions0|] == positions0
      invariant PointsUpTo(positions, heights, w, h, j, i)
      invariant j < h ==> indices == indices0 + RowIndices(w, j, if i < w then i else w)
      invariant j == h ==> indices == indices0
    {
      ghost var before := positions;
      positions, indices := GridStep(heights, w, h, i, j, positions, indices);
      PointStep(before, heights, w, h, i, j, |positions0|);
      if i < w && j < h {
        RowIndicesStep(w, j, i, indices0);
      }
      i := i + 1;
    }
  }

  /** The points of row j left of column n are in place. */
  predicate PointsUpTo(positions: seq<Vec3>, heights: seq<real>, w: nat, h: nat, j: nat, n: nat)
    requires |heights| == GridSize(w, h) && j <= h && n <= w + 1
  {
    forall i' :: 0 <= i' < n ==>
      Idx(w, i', j) < |positions| && positions[Idx(w, i', j)] == GridPoint(heights, w, h, i', j)
  }

  lemma PointStep(positions: seq<Vec3>, heights: seq<real>, w: nat, h: nat, i: nat, j: nat, done: nat)
    requires |heights| == GridSize(w, h) && i <= w && j <= h
    requires |positions| == Idx(w, i, j) && done <= |positions|
    requires PointsUpTo(positions, heights, w, h, j, i)
    ensures PointsUpTo(positions + [GridPoint(heights, w, h, i, j)], heights, w, h, j, i + 1)
    ensures (positions + [GridPoint(heights, w, h, i, j)])[..done] == positions[..done]
  {
  }

  lemma RowComplete(positions0: seq<Vec3>, positions: seq<Vec3>, heights: seq<real>, w: nat, h: nat, j: nat)
    requires |heights| == GridSize(w, h) && j <= h
    requires |positions0| == RowStart(w, j) && RowsBuilt(positions0, heights, w, h, j)
    requires |positions0| <= |positions| && positions[..|positions0|] == positions0
    requires PointsUpTo(positions, heights, w, h, j, w + 1)
    ensures RowsBuilt(positions, heights, w, h, j + 1)
  {
    forall i', j' | 0 <= i' <= w && 0 <= j' < j + 1 && j' <= h
      ensures Idx(w, i', j') < |positions| && positions[Idx(w, i', j')] == GridPoint(heights, w, h, i', j')
    {
      if j' < j {
        assert Idx(w, i', j') < |positions0|;
        assert positions[Idx(w, i', j')] == positions[..|positions0|][Idx(w, i', j')];
      }
    }
  }

  lemma RowIndicesStep(w: nat, j: nat, i: nat, prefix: seq<nat>)
    ensures (prefix + RowIndices(w, j, i)) + CellIndices(w, i, j) == prefix + RowIndices(w, j, i + 1)
  {
  }

  /** The body of the grid loops for grid point (i, j). */
  method GridStep(heights: seq<real>, w: nat, h: nat, i: nat, j: nat, positions0: seq<Vec3>, indices0: seq<nat>)
    returns (positions: seq<Vec3>, indices: seq<nat>)
    requires |heights| == GridSize(w, h) && i <= w && j <= h
    ensures positions == positions0 + [GridPoint(heights, w, h, i, j)]
    ensures i != w && j != h ==> indices == indices0 + CellIndices(w, i, j)
    ensures i == w || j == h ==> indices == indices0
  {
    IdxInBounds(w, h, i, j);
    positions := positions0 + [Vec3(i as real, j as real, heights[Idx(w, i, j)])];
    indices := indices0;
    if i != w && j != h {
      // i1 = j (w + 1) + i and so on, which is idx of the four corners (CellIndicesFormula)
      var i1 := Idx(w, i, j);
      var i2 := Idx(w, i + 1, j);
      var i3 := Idx(w, i + 1, j + 1);
      var i4 := Idx(w, i, j + 1);
      indices := indices + [i1, i2, i4, i2, i3, i4];
    }
  }

  /** The source's own index arithmetic gives the cell's six indices. */
  lemma CellIndicesFormula(w: nat, i: nat, j: nat)
    ensures CellIndices(w, i, j) == [j * (w + 1) + i, j * (w + 1) + i + 1, (j + 1) * (w + 1) + i,
                                     j * (w + 1) + i + 1, (j + 1) * (w + 1) + i + 1, (j + 1) * (w + 1) + i]
  {
    IdxFormula(w, i, j);
    IdxFormula(w, i + 1, j);
    IdxFormula(w, i, j + 1);
    IdxFormula(w, i + 1, j + 1);
    assert (w + 1) * j == j * (w + 1) && (w + 1) * (j + 1) == (j + 1) * (w + 1);
  }

  /** glm::cross(p2 - p1, p3 - p1): the (unnormalised) face normal. */
  function FaceNormal(p1: Vec3, p2: Vec3, p3: Vec3): Vec3
  {
    Cross(Sub(p2, p1), Sub(p3, p1))
  }

  /**
   * TerrainTriangle::get_height: the z at which the vertical line through
   * (x, y) meets the plane through p1 with normal n,
   * dot(p1 - (x, y, 0), n) / dot((0, 0, 1), n).
   */
  function PlaneHeight(p1: Vec3, n: Vec3, x: real, y: real): real
    requires n.z != 0.0
  {
    Dot(Sub(p1, Vec3(x, y, 0.0)), n) / Dot(Vec3(0.0, 0.0, 1.0), n)
  }

  /** Normalising the normal does not change the height: only its direction matters. */
  lemma PlaneHeightScaleInvariant(p1: Vec3, n: Vec3, s: real, x: real, y: real)
    requires n.z != 0.0 && s != 0.0
    ensures Scale(s, n).z != 0.0
    ensures PlaneHeight(p1, Scale(s, n), x, y) == PlaneHeight(p1, n, x, y)
  {
    var d := Sub(p1, Vec3(x, y, 0.0));
    assert Dot(d, Scale(s, n)) == s * Dot(d, n);
    assert Dot(Vec3(0.0, 0.0, 1.0), Scale(s, n)) == s * n.z;
  }

  /** On a non-vertical triangle the plane height at each corner is that corner's z. */
  lemma PlaneHeightAtCorners(p1: Vec3, p2: Vec3, p3: Vec3)
    requires FaceNormal(p1, p2, p3).z != 0.0
    ensures PlaneHeight(p1, FaceNormal(p1, p2, p3), p1.x, p1.y) == p1.z
    ensures PlaneHeight(p1, FaceNormal(p1, p2, p3), p2.x, p2.y) == p2.z
    ensures PlaneHeight(p1, FaceNormal(p1, p2, p3), p3.x, p3.y) == p3.z
  {
    var n := FaceNormal(p1, p2, p3);
    var d1 := Sub(p2, p1);
    var d2 := Sub(p3, p1);
    assert Dot(d1, n) == 0.0;
    assert Dot(d2, n) == 0.0;
    assert Dot(Sub(p1, Vec3(p2.x, p2.y, 0.0)), n) == p2.z * n.z - Dot(d1, n);
    assert Dot(Sub(p1, Vec3(p3.x, p3.y, 0.0)), n) == p3.z * n.z - Dot(d2, n);
  }

  /** Whether (x, y) falls in the upper-right triangle of its cell: frac(y) > 1 - frac(x). */
  predicate UpperHalf(x: real, y: real)
    requires x >= 0.0 && y >= 0.0
  {
    y - y.Floor as real > 1.0 - (x - x.Floor as real)
  }

  /**
   * The triangle get_height reads in the current revision:
   * i * 2 + j * width * 2, plus 1 in the upper-right half of the cell.
   */
  function TriangleIndex(w: nat, x: real, y: real): nat
    requires x >= 0.0 && y >= 0.0
  {
    var i := x.Floor as nat;
    var j := y.Floor as nat;
    if UpperHalf(x, y) then i * 2 + j * w * 2 + 1 else i * 2 + j * w * 2
  }

  /**
   * The surface the terrain describes: over the lower-left triangle of cell
   * (i, j) the plane through its corners (i, j), (i+1, j), (i, j+1), over the
   * upper-right one the plane through (i+1, j), (i+1, j+1), (i, j+1).
   */
  function SurfaceHeight(heights: seq<real>, w: nat, h: nat, x: real, y: real): real
    requires |heights| == GridSize(w, h)
    requires 0.0 <= x < w as real && 0.0 <= y < h as real
  {
    var i := x.Floor as nat;
    var j := y.Floor as nat;
    var fx := x - i as real;
    var fy := y - j as real;
    var z1 := GridPoint(heights, w, h, i, j).z;
    var z2 := GridPoint(heights, w, h, i + 1, j).z;
    var z3 := GridPoint(heights, w, h, i + 1, j + 1).z;
    var z4 := GridPoint(heights, w, h, i, j + 1).z;
    if UpperHalf(x, y) then UpperPlaneZ(z2, z3, z4, fx, fy) else LowerPlaneZ(z1, z2, z4, fx, fy)
  }

  /** Height at offset (fx, fy) in a cell, on the plane of its lower-left triangle. */
  function LowerPlaneZ(z1: real, z2: real, z4: real, fx: real, fy: real): real
  {
    z1 + fx * (z2 - z1) + fy * (z4 - z1)
  }

  /** Height at offset (fx, fy) in a cell, on the plane of its upper-right triangle. */
  function UpperPlaneZ(z2: real, z3: real, z4: real, fx: real, fy: real): real
  {
    z2 + (1.0 - fx) * (z4 - z3) - fy * (z2 - z3)
  }

  /** The three corners a triangle list gives triangle t. */
  function Corners(positions: seq<Vec3>, indices: seq<nat>, t: nat): (c: seq<Vec3>)
    requires 3 * t + 2 < |indices|
    requires indices[3 * t] < |positions| && indices[3 * t + 1] < |positions| && indices[3 * t + 2] < |positions|
    ensures |c| == 3
  {
    [positions[indices[3 * t]], positions[indices[3 * t + 1]], positions[indices[3 * t + 2]]]
  }

  /** The lookup formula names the triangle the grid loops emitted for the cell. */
  lemma TriangleIndexIsCell(w: nat, x: real, y: real)
    requires x >= 0.0 && y >= 0.0
    ensures TriangleIndex(w, x, y)
         == 2 * (CellStart(w, y.Floor as nat) + x.Floor as nat) + (if UpperHalf(x, y) then 1 else 0)
  {
    CellStartFormula(w, y.Floor as nat);
  }

  /** The lower-left triangle of a cell: normal (z1 - z2, z1 - z4, 1) and its plane. */
  lemma LowerTrianglePlane(p1: Vec3, p2: Vec3, p4: Vec3, x: real, y: real)
    requires p2.x == p1.x + 1.0 && p2.y == p1.y && p4.x == p1.x && p4.y == p1.y + 1.0
    ensures FaceNormal(p1, p2, p4) == Vec3(p1.z - p2.z, p1.z - p4.z, 1.0)
    ensures PlaneHeight(p1, FaceNormal(p1, p2, p4), x, y) == LowerPlaneZ(p1.z, p2.z, p4.z, x - p1.x, y - p1.y)
  {
    var n := Vec3(p1.z - p2.z, p1.z - p4.z, 1.0);
    var d := Sub(p1, Vec3(x, y, 0.0));
    assert Dot(d, n) == (p1.x - x) * (p1.z - p2.z) + (p1.y - y) * (p1.z - p4.z) + p1.z;
  }

  /** The upper-right triangle of a cell: normal (z4 - z3, z2 - z3, 1) and its plane. */
  lemma UpperTrianglePlane(p2: Vec3, p3: Vec3, p4: Vec3, x: real, y: real)
    requires p3.x == p2.x && p3.y == p2.y + 1.0 && p4.x == p2.x - 1.0 && p4.y == p2.y + 1.0
    ensures FaceNormal(p2, p3, p4) == Vec3(p4.z - p3.z, p2.z - p3.z, 1.0)
    ensures PlaneHeight(p2, FaceNormal(p2, p3, p4), x, y)
         == UpperPlaneZ(p2.z, p3.z, p4.z, x - p4.x, y - p2.y)
  {
    var n := Vec3(p4.z - p3.z, p2.z - p3.z, 1.0);
    var d := Sub(p2, Vec3(x, y, 0.0));
    assert Dot(d, n) == (p2.x - x) * (p4.z - p3.z) + (p2.y - y) * (p2.z - p3.z) + p2.z;
  }

  lemma CellInGrid(w: nat, h: nat, i: nat, j: nat)
    requires i < w && j < h
    ensures CellStart(w, j) + i < CellStart(w, h) == w * h
  {
    CellStartMonotone(w, j + 1, h);
    CellStartFormula(w, h);
  }

  /** Triangle 2 c + u of the list, c the cell of (i, j), has corners 3 u .. 3 u + 2 of that cell. */
  lemma CellTriangle(w: nat, h: nat, i: nat, j: nat, u: nat, k: nat)
    requires i < w && j < h && u < 2 && k < 3
    ensures 2 * (CellStart(w, j) + i) + u < 2 * (w * h)
    ensures 6 * (CellStart(w, j) + i) + 3 * u + k < |GridIndices(w, h)|
    ensures GridIndices(w, h)[6 * (CellStart(w, j) + i) + 3 * u + k] == CellIndices(w, i, j)[3 * u + k]
  {
    CellInGrid(w, h, i, j);
    GridIndicesAt(w, h, i, j, 3 * u + k);
  }

  /**
   * Inside the grid the lookup index is that of one of the two triangles of
   * the cell holding (x, y): the first below the diagonal, the second above.
   */
  lemma LookupIndex(w: nat, h: nat, x: real, y: real, k: nat)
    requires 0.0 <= x < w as real && 0.0 <= y < h as real && k < 3
    ensures x.Floor as nat < w && y.Floor as nat < h
    ensures TriangleIndex(w, x, y) < 2 * (w * h)
    ensures 3 * TriangleIndex(w, x, y) + k < |GridIndices(w, h)|
    ensures GridIndices(w, h)[3 * TriangleIndex(w, x, y) + k]
         == CellIndices(w, x.Floor as nat, y.Floor as nat)[if UpperHalf(x, y) then 3 + k else k]
  {
    var i := x.Floor as nat;
    var j := y.Floor as nat;
    var u := if UpperHalf(x, y) then 1 else 0;
    TriangleIndexIsCell(w, x, y);
    CellTriangle(w, h, i, j, u, k);
  }

  /**
   * The lookup index names a triangle of the list, the one the grid loops
   * emitted for the cell holding (x, y): corners (i, j), (i+1, j), (i, j+1)
   * below the diagonal and (i+1, j), (i+1, j+1), (i, j+1) above it.
   */
  lemma LookupCorners(heights: seq<real>, positions: seq<Vec3>, w: nat, h: nat, x: real, y: real)
    requires |heights| == GridSize(w, h) && IsGridPositions(positions, heights, w, h)
    requires 0.0 <= x < w as real && 0.0 <= y < h as real
    ensures TriangleIndex(w, x, y) < 2 * (w * h)
    ensures 3 * TriangleIndex(w, x, y) + 2 < |GridIndices(w, h)|
    ensures var t := TriangleIndex(w, x, y);
            GridIndices(w, h)[3 * t] < |positions| && GridIndices(w, h)[3 * t + 1] < |positions|
            && GridIndices(w, h)[3 * t + 2] < |positions|
    ensures var i, j := x.Floor as nat, y.Floor as nat;
            var c := Corners(positions, GridIndices(w, h), TriangleIndex(w, x, y));
            IsCellTriangle(heights, w, h, x, y, c[0], c[1], c[2])
  {
    LookupIndex(w, h, x, y, 0);
    LookupIndex(w, h, x, y, 1);
    LookupIndex(w, h, x, y, 2);
    var i := x.Floor as nat;
    var j := y.Floor as nat;
    PointAt(positions, heights, w, h, i + 1, j);
    PointAt(positions, heights, w, h, i, j + 1);
    if UpperHalf(x, y) {
      PointAt(positions, heights, w, h, i + 1, j + 1);
    } else {
      PointAt(positions, heights, w, h, i, j);
    }
  }

  lemma PointAt(positions: seq<Vec3>, heights: seq<real>, w: nat, h: nat, i: nat, j: nat)
    requires |heights| == GridSize(w, h) && IsGridPositions(positions, heights, w, h)
    requires i <= w && j <= h
    ensures Idx(w, i, j) < |positions| && positions[Idx(w, i, j)] == GridPoint(heights, w, h, i, j)
  {
  }

  /** p1, p2, p3 are the corners of the triangle of its cell that holds (x, y), in emission order. */
  predicate IsCellTriangle(heights: seq<real>, w: nat, h: nat, x: real, y: real, p1: Vec3, p2: Vec3, p3: Vec3)
    requires |heights| == GridSize(w, h)
    requires 0.0 <= x < w as real && 0.0 <= y < h as real
  {
    var i, j := x.Floor as nat, y.Floor as nat;
    if UpperHalf(x, y)
    then p1 == GridPoint(heights, w, h, i + 1, j) && p2 == GridPoint(heights, w, h, i + 1, j + 1)
         && p3 == GridPoint(heights, w, h, i, j + 1)
    else p1 == GridPoint(heights, w, h, i, j) && p2 == GridPoint(heights, w, h, i + 1, j)
         && p3 == GridPoint(heights, w, h, i, j + 1)
  }

  /** The plane of the cell triangle holding (x, y) is not vertical and gives the surface height. */
  lemma CellTrianglePlane(heights: seq<real>, w: nat, h: nat, x: real, y: real, p1: Vec3, p2: Vec3, p3: Vec3)
    requires |heights| == GridSize(w, h)
    requires 0.0 <= x < w as real && 0.0 <= y < h as real
    requires IsCellTriangle(heights, w, h, x, y, p1, p2, p3)
    ensures FaceNormal(p1, p2, p3).z == 1.0
    ensures PlaneHeight(p1, FaceNormal(p1, p2, p3), x, y) == SurfaceHeight(heights, w, h, x, y)
  {
    if UpperHalf(x, y) {
      UpperTrianglePlane(p1, p2, p3, x, y);
    } else {
      LowerTrianglePlane(p1, p2, p3, x, y);
    }
  }

  /**
   * Inside the grid the lookup picks a triangle that exists, namely one of
   * the two of the cell holding (x, y); its normal points up (z = 1 before
   * normalisation) and the plane through its corners gives the
   * piecewise-planar surface height there.
   */
  lemma LookupMatchesGeneration(heights: seq<real>, positions: seq<Vec3>, w: nat, h: nat, x: real, y: real)
    requires |heights| == GridSize(w, h) && IsGridPositions(positions, heights, w, h)
    requires 0.0 <= x < w as real && 0.0 <= y < h as real
    ensures TriangleIndex(w, x, y) < 2 * (w * h)
    ensures 3 * TriangleIndex(w, x, y) + 2 < |GridIndices(w, h)|
    ensures var t := TriangleIndex(w, x, y);
            GridIndices(w, h)[3 * t] < |positions| && GridIndices(w, h)[3 * t + 1] < |positions|
            && GridIndices(w, h)[3 * t + 2] < |positions|
    ensures var c := Corners(positions, GridIndices(w, h), TriangleIndex(w, x, y));
            FaceNormal(c[0], c[1], c[2]).z == 1.0
            && PlaneHeight(c[0], FaceNormal(c[0], c[1], c[2]), x, y) == SurfaceHeight(heights, w, h, x, y)
  {
    LookupCorners(heights, positions, w, h, x, y);
    var c := Corners(positions, GridIndices(w, h), TriangleIndex(w, x, y));
    CellTrianglePlane(heights, w, h, x, y, c[0], c[1], c[2]);
  }

  /** The three indices of triangle t of the list are those of triangle u of cell (i, j). */
  lemma TriangleCorners(w: nat, h: nat, t: nat) returns (i: nat, j: nat, u: nat)
    requires t < 2 * (w * h)
    ensures i < w && j < h && u < 2
    ensures 3 * t + 2 < |GridIndices(w, h)|
    ensures GridIndices(w, h)[3 * t] == CellIndices(w, i, j)[3 * u]
    ensures GridIndices(w, h)[3 * t + 1] == CellIndices(w, i, j)[3 * u + 1]
    ensures GridIndices(w, h)[3 * t + 2] == CellIndices(w, i, j)[3 * u + 2]
  {
    i, j, u := TriangleCell(w, h, t);
    var c := CellStart(w, j) + i;
    assert 3 * t == 6 * c + 3 * u;
    CellTriangle(w, h, i, j, u, 0);
    CellTriangle(w, h, i, j, u, 1);
    CellTriangle(w, h, i, j, u, 2);
  }

  /** Triangle t of the list is triangle u of cell (i, j). */
  lemma TriangleCell(w: nat, h: nat, t: nat) returns (i: nat, j: nat, u: nat)
    requires t < 2 * (w * h)
    ensures i < w && j < h && u < 2 && t == 2 * (CellStart(w, j) + i) + u
  {
    var cell := t / 2;
    u := t % 2;
    DivBelow(cell, h, w);
    j := cell / w;
    i := cell % w;
    CellStartFormula(w, j);
  }

  /**
   * Every triangle of the list faces up: its unnormalised face normal has
   * z = 1, so the plane height of TerrainTriangle::get_height is defined
   * whichever triangle a query lands on.
   */
  lemma GridTriangleFacesUp(heights: seq<real>, positions: seq<Vec3>, w: nat, h: nat, t: nat)
    requires |heights| == GridSize(w, h) && IsGridPositions(positions, heights, w, h)
    requires t < 2 * (w * h)
    ensures 3 * t + 2 < |GridIndices(w, h)|
    ensures GridIndices(w, h)[3 * t] < |positions| && GridIndices(w, h)[3 * t + 1] < |positions|
            && GridIndices(w, h)[3 * t + 2] < |positions|
    ensures var c := Corners(positions, GridIndices(w, h), t);
            FaceNormal(c[0], c[1], c[2]).z == 1.0
  {
    var i, j, u := TriangleCorners(w, h, t);
    var ix := GridIndices(w, h);
    PointAt(positions, heights, w, h, i + 1, j);
    PointAt(positions, heights, w, h, i, j + 1);
    if u == 1 {
      PointAt(positions, heights, w, h, i + 1, j + 1);
      var p2, p3, p4 := GridPoint(heights, w, h, i + 1, j), GridPoint(heights, w, h, i + 1, j + 1),
                        GridPoint(heights, w, h, i, j + 1);
      assert Corners(positions, ix, t) == [p2, p3, p4];
      UpperTrianglePlane(p2, p3, p4, 0.0, 0.0);
    } else {
      PointAt(positions, heights, w, h, i, j);
      var p1, p2, p4 := GridPoint(heights, w, h, i, j), GridPoint(heights, w, h, i + 1, j),
                        GridPoint(heights, w, h, i, j + 1);
      assert Corners(positions, ix, t) == [p1, p2, p4];
      LowerTrianglePlane(p1, p2, p4, 0.0, 0.0);
    }
  }

  /** A list of count whole triangles, every index naming a vertex. */
  predicate TriangleList(positions: seq<Vec3>, indices: seq<nat>, count: nat)
  {
    |indices| == 3 * count && forall k :: 0 <= k < |indices| ==> indices[k] < |positions|
  }

  /** The buffers handed to the mesh. */
  datatype MeshBuffers = MeshBuffers(indices: seq<nat>, positions: seq<Vec3>, normals: seq<Vec3>, colors: seq<Vec3>)

  /** Every index the grid loops compute fits an unsigned int (and so does twice the vertex count). */
  predicate FitsU32(w: nat, h: nat)
  {
    2 * GridSize(w, h) < U32Limit
  }

  /** Unsigned cast of a non-negative float below 2^32: truncation toward zero. */
  function UnsignedCast(x: real): (r: nat)
    requires 0.0 <= x < U32Limit as real
    ensures r as real <= x < r as real + 1.0 && r < U32Limit
  {
    x.Floor as nat
  }

  /** There are fewer cells than grid points. */
  lemma {:induction false} CellsBelowPoints(w: nat, rows: nat)
    ensures CellStart(w, rows) <= RowStart(w, rows)
  {
    if rows > 0 {
      CellsBelowPoints(w, rows - 1);
    }
  }

  /** The height map generate_height_map produces for the noise source. */
  ghost predicate HeightMapOf(heights: seq<real>, noise: nat -> real, w: nat, h: nat)
  {
    GridOk(w, h)
    && forall i, j :: 0 <= i <= w && 0 <= j <= h ==>
      Idx(w, i, j) < |heights| && heights[Idx(w, i, j)] == HeightAt(noise, w, h, i, j)
  }
}

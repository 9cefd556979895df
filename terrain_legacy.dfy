/**
 * The older terrain (src/terrain.cpp): the same height map and grid as the
 * current revision, but flat triangles (one face normal repeated for the
 * three corners, no smoothing), a different base colour, a 50 x 50 grid,
 * and a height lookup that indexes the triangle list with the row stride
 * of the height map instead of the triangle rows.
 *
 * glm::normalize is a parameter `unit`, applied to the face normal where it
 * reaches the mesh's normal buffer. The triangle record keeps the face normal
 * itself: its only other reader is the plane height, which does not depend on
 * the normal's length (PlaneHeightScaleInvariant). The Perlin noise generator
 * is a parameter `jitter`, read once per triangle.
 */
module LegacyTerrain {
  import opened IsanaMath
  import opened Geometry
  import opened HeightField
  import opened TerrainGrid

  /**
   * The older TerrainTriangle: three corners, the face normal and a colour.
   * The normal is kept before glm::normalize; the mesh buffers normalise it.
   */
  datatype FlatTriangle = FlatTriangle(p1: Vec3, p2: Vec3, p3: Vec3, normal: Vec3, color: Vec3)

  /** The TerrainTriangle constructor: black, with calculate_normal's face normal. */
  function NewFlatTriangle(p1: Vec3, p2: Vec3, p3: Vec3): FlatTriangle
  {
    FlatTriangle(p1, p2, p3, FaceNormal(p1, p2, p3), Zero3)
  }

  /** TerrainTriangle::get_height: where the vertical line through (x, y) meets the triangle's plane. */
  function FlatTriangleHeight(t: FlatTriangle, x: real, y: real): real
    requires t.normal.z != 0.0
  {
    PlaneHeight(t.p1, t.normal, x, y)
  }

  /** On a non-vertical triangle, get_height at a corner's (x, y) is that corner's height. */
  lemma FlatTriangleHeightAtCorners(p1: Vec3, p2: Vec3, p3: Vec3)
    requires FaceNormal(p1, p2, p3).z != 0.0
    ensures var t := NewFlatTriangle(p1, p2, p3);
            FlatTriangleHeight(t, p1.x, p1.y) == p1.z && FlatTriangleHeight(t, p2.x, p2.y) == p2.z
            && FlatTriangleHeight(t, p3.x, p3.y) == p3.z
  {
    PlaneHeightAtCorners(p1, p2, p3);
  }

  /** The older base colour (156, 112, 105) / 255 plus the grey jitter r * 0.05. */
  function LegacyColor(r: real): Vec3
  {
    Add(Vec3(156.0 / 255.0, 112.0 / 255.0, 105.0 / 255.0), Scale(0.05, Scale(r, Vec3(1.0, 1.0, 1.0))))
  }

  /** Triangle t of the list: its three corners and the t-th jittered colour. */
  function ListFlatTriangle(positions: seq<Vec3>, indices: seq<nat>, jitter: nat -> real, t: nat): FlatTriangle
    requires forall k :: 0 <= k < |indices| ==> indices[k] < |positions|
    requires 3 * t + 2 < |indices|
  {
    var tri := NewFlatTriangle(positions[indices[3 * t]], positions[indices[3 * t + 1]], positions[indices[3 * t + 2]]);
    tri.(color := LegacyColor(jitter(t)))
  }

  /** tris holds one triangle per three indices, in order. */
  ghost predicate FlatTrianglesOf(tris: seq<FlatTriangle>, positions: seq<Vec3>, indices: seq<nat>, jitter: nat -> real)
    requires forall k :: 0 <= k < |indices| ==> indices[k] < |positions|
  {
    3 * |tris| == |indices|
    && forall t :: 0 <= t < |tris| ==> tris[t] == ListFlatTriangle(positions, indices, jitter, t)
  }

  /** The triangle loop of generate_terrain: one TerrainTriangle per three indices, pushed in order. */
  method BuildFlatTriangles(positions: seq<Vec3>, indices: seq<nat>, ghost count: nat, jitter: nat -> real)
    returns (tris: seq<FlatTriangle>)
    requires TriangleList(positions, indices, count)
    ensures |tris| == count && FlatTrianglesOf(tris, positions, indices, jitter)
  {
    tris := [];
    var i := 0;
    while i < |indices|
      invariant i == 3 * |tris| && |tris| <= count
      invariant forall t :: 0 <= t < |tris| ==> tris[t] == ListFlatTriangle(positions, indices, jitter, t)
    {
      var tri := NewFlatTriangle(positions[indices[i]], positions[indices[i + 1]], positions[indices[i + 2]]);
      tri := tri.(color := LegacyColor(jitter(|tris|)));
      tris := tris + [tri];
      i := i + 3;
    }
  }

  /** Corner c (0, 1 or 2) of a flat triangle. */
  function FlatCorner(t: FlatTriangle, c: nat): Vec3
  {
    if c == 0 then t.p1 else if c == 1 then t.p2 else t.p3
  }

  /**
   * The flattened mesh of a flat triangle list: vertex k is corner k % 3 of
   * triangle k / 3, with the triangle's normalised face normal and its colour,
   * and the index buffer is 0, 1, 2, ...
   */
  ghost predicate FlatFlattened(m: MeshBuffers, tris: seq<FlatTriangle>, unit: Vec3 -> Vec3)
  {
    |m.indices| == |m.positions| == |m.normals| == |m.colors| == 3 * |tris|
    && (forall k :: 0 <= k < |m.indices| ==> m.indices[k] == k)
    && forall t, c :: 0 <= t < |tris| && 0 <= c < 3 ==>
         m.positions[3 * t + c] == FlatCorner(tris[t], c) && m.normals[3 * t + c] == unit(tris[t].normal)
         && m.colors[3 * t + c] == tris[t].color
  }

  /** Appending one triangle's three vertices keeps a flattened mesh flattened. */
  lemma FlatStep(m: MeshBuffers, m': MeshBuffers, tris: seq<FlatTriangle>, tri: FlatTriangle, unit: Vec3 -> Vec3)
    requires FlatFlattened(m, tris, unit)
    requires m'.indices == m.indices + [|tris| * 3 + 0, |tris| * 3 + 1, |tris| * 3 + 2]
    requires m'.positions == m.positions + [tri.p1, tri.p2, tri.p3]
    requires m'.normals == m.normals + [unit(tri.normal), unit(tri.normal), unit(tri.normal)]
    requires m'.colors == m.colors + [tri.color, tri.color, tri.color]
    ensures FlatFlattened(m', tris + [tri], unit)
  {
    var all := tris + [tri];
    forall t, c | 0 <= t < |all| && 0 <= c < 3
      ensures m'.positions[3 * t + c] == FlatCorner(all[t], c) && m'.normals[3 * t + c] == unit(all[t].normal)
              && m'.colors[3 * t + c] == all[t].color
    {
      if t < |tris| {
        assert all[t] == tris[t];
        assert m'.positions[3 * t + c] == m.positions[3 * t + c];
        assert m'.normals[3 * t + c] == m.normals[3 * t + c];
        assert m'.colors[3 * t + c] == m.colors[3 * t + c];
      }
    }
  }

  /** The last loop of generate_terrain: three vertices per triangle, the normalised face normal three times. */
  method FlattenFlat(tris: seq<FlatTriangle>, unit: Vec3 -> Vec3) returns (m: MeshBuffers)
    ensures FlatFlattened(m, tris, unit)
  {
    m := MeshBuffers([], [], [], []);
    var i := 0;
    while i < |tris|
      invariant i <= |tris|
      invariant FlatFlattened(m, tris[..i], unit)
    {
      var tri := tris[i];
      var n := unit(tri.normal);
      ghost var before := m;
      m := MeshBuffers(m.indices + [i * 3 + 0, i * 3 + 1, i * 3 + 2],
                       m.positions + [tri.p1, tri.p2, tri.p3],
                       m.normals + [n, n, n],
                       m.colors + [tri.color, tri.color, tri.color]);
      FlatStep(before, m, tris[..i], tri, unit);
      assert tris[..i + 1] == tris[..i] + [tri];
      i := i + 1;
    }
    assert tris[..i] == tris;
  }

  /** The three vertices of a flattened triangle share its normal and colour: the shading is flat. */
  lemma FlatShading(m: MeshBuffers, tris: seq<FlatTriangle>, unit: Vec3 -> Vec3, t: nat)
    requires FlatFlattened(m, tris, unit) && t < |tris|
    ensures 3 * t + 2 < |m.normals| && 3 * t + 2 < |m.colors|
    ensures m.normals[3 * t] == m.normals[3 * t + 1] == m.normals[3 * t + 2] == unit(tris[t].normal)
    ensures m.colors[3 * t] == m.colors[3 * t + 1] == m.colors[3 * t + 2] == tris[t].color
  {
    assert FlatCorner(tris[t], 0) == tris[t].p1 && FlatCorner(tris[t], 1) == tris[t].p2
           && FlatCorner(tris[t], 2) == tris[t].p3;
  }

  /** tri is triangle t of the grid: its corners and colour as generate_terrain makes them. */
  ghost predicate IsFlatGridTriangle(tri: FlatTriangle, positions: seq<Vec3>, w: nat, h: nat, jitter: nat -> real, t: nat)
  {
    var ix := GridIndices(w, h);
    TriangleList(positions, ix, 2 * (w * h)) && t < 2 * (w * h)
    && tri == ListFlatTriangle(positions, ix, jitter, t)
  }

  /** The triangles generate_terrain builds from the grid, in emission order. */
  ghost predicate FlatGridTriangleList(tris: seq<FlatTriangle>, positions: seq<Vec3>, w: nat, h: nat, jitter: nat -> real)
  {
    |tris| == 2 * (w * h)
    && forall t :: 0 <= t < |tris| ==> IsFlatGridTriangle(tris[t], positions, w, h, jitter, t)
  }

  /** The triangles of the grid: corners as listed by the grid indices, facing up. */
  ghost predicate FlatGridTriangles(tris: seq<FlatTriangle>, positions: seq<Vec3>, w: nat, h: nat)
  {
    |tris| == 2 * (w * h) && TriangleList(positions, GridIndices(w, h), |tris|)
    && forall t :: 0 <= t < |tris| ==>
         [tris[t].p1, tris[t].p2, tris[t].p3] == Corners(positions, GridIndices(w, h), t)
         && tris[t].normal == FaceNormal(tris[t].p1, tris[t].p2, tris[t].p3) && tris[t].normal.z == 1.0
  }

  /** The triangles built from the grid are the grid's triangles, all facing up. */
  lemma FlatGridTriangleListFacesUp(tris: seq<FlatTriangle>, heights: seq<real>, positions: seq<Vec3>,
                                    w: nat, h: nat, jitter: nat -> real)
    requires |heights| == GridSize(w, h) && IsGridPositions(positions, heights, w, h)
    requires FlatGridTriangleList(tris, positions, w, h, jitter)
    ensures FlatGridTriangles(tris, positions, w, h)
  {
    GridIndicesLength(w, h);
    GridIndicesBounded(w, h, h);
    forall t | 0 <= t < |tris|
      ensures [tris[t].p1, tris[t].p2, tris[t].p3] == Corners(positions, GridIndices(w, h), t)
      ensures tris[t].normal == FaceNormal(tris[t].p1, tris[t].p2, tris[t].p3) && tris[t].normal.z == 1.0
    {
      GridTriangleFacesUp(heights, positions, w, h, t);
    }
  }

  /** The middle of generate_terrain: the grid and one flat triangle per three grid indices. */
  method FlatGridMesh(heights: seq<real>, w: nat, h: nat, jitter: nat -> real)
    returns (positions: seq<Vec3>, tris: seq<FlatTriangle>)
    requires |heights| == GridSize(w, h)
    ensures IsGridPositions(positions, heights, w, h)
    ensures FlatGridTriangleList(tris, positions, w, h, jitter)
  {
    var indices;
    positions, indices := BuildGrid(heights, w, h);
    GridIndicesBounded(w, h, h);
    GridIndicesLength(w, h);
    ghost var count := 2 * (w * h);
    assert TriangleList(positions, indices, count);
    tris := BuildFlatTriangles(positions, indices, count, jitter);
  }

  /**
   * The triangle the older Terrain::get_height reads: 2 * idx(i, j), plus 1
   * in the upper-right half, in unsigned arithmetic. idx has the row stride
   * width + 1 of the height map.
   */
  function LegacyTriangleIndex(w: nat, x: real, y: real): nat
    requires 0.0 <= x < U32Limit as real && 0.0 <= y < U32Limit as real
  {
    var i := UnsignedCast(x);
    var j := UnsignedCast(y);
    if UpperHalf(x, y) then Wrap32(2 * Idx(w, i, j) + 1) else Wrap32(2 * Idx(w, i, j))
  }

  /**
   * Inside the grid the older lookup is the generation order's index shifted
   * by two triangles per row above the first: it reads the right triangle
   * exactly on row 0.
   */
  lemma LegacyLookupShift(w: nat, h: nat, x: real, y: real)
    requires FitsU32(w, h)
    requires 0.0 <= x < w as real && 0.0 <= y < h as real
    ensures x < U32Limit as real && y < U32Limit as real
    ensures LegacyTriangleIndex(w, x, y) == TriangleIndex(w, x, y) + 2 * y.Floor
    ensures LegacyTriangleIndex(w, x, y) == TriangleIndex(w, x, y) <==> y < 1.0
  {
    var i := x.Floor as nat;
    var j := y.Floor as nat;
    IdxInBounds(w, h, i, j);
    IdxFormula(w, i, j);
    assert (w + 1) * j == w * j + j;
    assert j * w * 2 == 2 * (w * j);
  }

  /**
   * The older lookup overruns the triangle list: on the 50 x 50 grid the
   * query (49.5, 49.5), inside the grid, reads triangle 5096 of 5000.
   */
  lemma LegacyLookupOverrun()
    ensures LegacyTriangleIndex(50, 49.5, 49.5) == 5096 && 5096 >= 2 * (50 * 50)
  {
    assert (49.5).Floor == 49;
    assert !UpperHalf(49.5, 49.5);
    IdxFormula(50, 49, 49);
  }

  /** The constructor's 50 x 50 grid is generable and its indices fit an unsigned int. */
  lemma LegacyGridFits()
    ensures GridOk(50, 50) && FitsU32(50, 50)
  {
    GridSizeFormula(50, 50);
  }

  class Terrain {
    var width: nat
    var height: nat
    var sampleInterval: nat
    var heights: seq<real>
    var triangles: seq<FlatTriangle>
    /** positions_eff of the last generate_terrain; a local of the source, kept here for the invariant. */
    ghost var gridPositions: seq<Vec3>

    ghost predicate Valid()
      reads this
    {
      GridOk(width, height) && FitsU32(width, height) && sampleInterval == SampleInterval
      && |heights| == GridSize(width, height)
      && IsGridPositions(gridPositions, heights, width, height)
      && FlatGridTriangles(triangles, gridPositions, width, height)
    }

    /** The constructor: a 50 x 50 grid sampled every 10 points, generated at once. */
    constructor(noise: nat -> real, jitter: nat -> real, unit: Vec3 -> Vec3)
      ensures Valid()
      ensures width == 50 && height == 50 && sampleInterval == 10
      ensures HeightMapOf(heights, noise, width, height)
      ensures FlatGridTriangleList(triangles, gridPositions, width, height, jitter)
    {
      width := 50;
      height := 50;
      sampleInterval := 10;
      heights := [];
      triangles := [];
      gridPositions := [];
      new;
      LegacyGridFits();
      var mesh := GenerateTerrain(noise, jitter, unit);
      assert triangles[0..] == triangles;
    }

    /**
     * generate_terrain: the height map, the grid, one flat triangle per three
     * indices appended to the triangle list, then the flattened buffers of the
     * whole list.
     */
    method GenerateTerrain(noise: nat -> real, jitter: nat -> real, unit: Vec3 -> Vec3) returns (mesh: MeshBuffers)
      requires GridOk(width, height) && FitsU32(width, height) && sampleInterval == SampleInterval
      modifies this
      ensures width == old(width) && height == old(height) && sampleInterval == old(sampleInterval)
      ensures |heights| == GridSize(width, height) && HeightMapOf(heights, noise, width, height)
      ensures IsGridPositions(gridPositions, heights, width, height)
      ensures |old(triangles)| <= |triangles| && triangles[..|old(triangles)|] == old(triangles)
      ensures FlatGridTriangleList(triangles[|old(triangles)|..], gridPositions, width, height, jitter)
      ensures old(triangles) == [] ==> Valid()
      ensures FlatFlattened(mesh, triangles, unit)
    {
      heights := GenerateHeightMap(noise, width, height);
      var positionsEff, built := FlatGridMesh(heights, width, height, jitter);
      gridPositions := positionsEff;
      ghost var old0 := triangles;
      triangles := triangles + built;
      assert triangles[|old0|..] == built;
      if old0 == [] {
        FlatGridTriangleListFacesUp(built, heights, gridPositions, width, height, jitter);
      }
      mesh := FlattenFlat(triangles, unit);
    }

    /**
     * The older Terrain::get_height: the lookup logs (and carries on) when the
     * column exceeds the width or y exceeds the height, then reads triangle
     * 2 * idx(i, j) (+ 1). On the first row of cells that is the surface.
     */
    method GetHeight(x: real, y: real) returns (z: real, logged: bool)
      requires Valid()
      requires 0.0 <= x < U32Limit as real && 0.0 <= y < U32Limit as real
      requires LegacyTriangleIndex(width, x, y) < |triangles|
      ensures logged <==> UnsignedCast(x) > width || y > height as real
      ensures z == FlatTriangleHeight(triangles[LegacyTriangleIndex(width, x, y)], x, y)
      ensures x < width as real && y < 1.0 ==> z == SurfaceHeight(heights, width, height, x, y)
    {
      var i := UnsignedCast(x);
      var j := UnsignedCast(y);
      logged := i > width || y > height as real;
      var modx := x - i as real;
      var mody := y - j as real;
      var t: nat;
      if mody > 1.0 - modx {
        t := Wrap32(2 * Idx(width, i, j) + 1);
      } else {
        t := Wrap32(2 * Idx(width, i, j));
      }
      z := FlatTriangleHeight(triangles[t], x, y);
      if x < width as real && y < 1.0 {
        FirstRowLookup(x, y);
      }
    }

    /** On the first row of cells the older lookup reads the triangle over (x, y). */
    lemma FirstRowLookup(x: real, y: real)
      requires Valid()
      requires 0.0 <= x < width as real && 0.0 <= y < 1.0
      ensures x < U32Limit as real && y < U32Limit as real
      ensures LegacyTriangleIndex(width, x, y) == TriangleIndex(width, x, y) < |triangles|
      ensures FlatTriangleHeight(triangles[TriangleIndex(width, x, y)], x, y) == SurfaceHeight(heights, width, height, x, y)
    {
      LegacyLookupShift(width, height, x, y);
      LookupMatchesGeneration(heights, gridPositions, width, height, x, y);
    }
  }
}

/**
 * The current terrain (src/environment/terrain.cpp): a height map, the grid
 * of vertices and triangles built from it, smoothed vertex normals, one
 * jittered colour per triangle, the flattened mesh buffers and the height
 * lookup by triangle.
 *
 * glm::normalize is a parameter `unit` (its square root is numerics this
 * model leaves out); the Perlin noise generator that jitters the colours is
 * a parameter `jitter`, read once per triangle in emission order; the mesh
 * buffers are returned instead of being uploaded.
 */
module EnvironmentTerrain {
  import opened IsanaMath
  import opened Geometry
  import opened HeightField
  import opened TerrainGrid

  /**
   * TerrainTriangle: three corners, a normal per corner, the face normal and a
   * colour. The face normal is kept before glm::normalize: only the plane
   * height reads it, and that does not depend on its length.
   */
  datatype Triangle = Triangle(p1: Vec3, p2: Vec3, p3: Vec3, n1: Vec3, n2: Vec3, n3: Vec3,
                               normal: Vec3, color: Vec3)

  /**
   * The TerrainTriangle constructor: black, with calculate_normal's face
   * normal kept unnormalised (PlaneHeightScaleInvariant: the heights do not
   * depend on its length).
   */
  function NewTriangle(p1: Vec3, p2: Vec3, p3: Vec3, n1: Vec3, n2: Vec3, n3: Vec3): Triangle
  {
    Triangle(p1, p2, p3, n1, n2, n3, FaceNormal(p1, p2, p3), Zero3)
  }

  /** TerrainTriangle::get_height: where the vertical line through (x, y) meets the triangle's plane. */
  function TriangleHeight(t: Triangle, x: real, y: real): real
    requires t.normal.z != 0.0
  {
    PlaneHeight(t.p1, t.normal, x, y)
  }

  /** On a non-vertical triangle, get_height at a corner's (x, y) is that corner's height. */
  lemma TriangleHeightAtCorners(p1: Vec3, p2: Vec3, p3: Vec3, n1: Vec3, n2: Vec3, n3: Vec3)
    requires FaceNormal(p1, p2, p3).z != 0.0
    ensures var t := NewTriangle(p1, p2, p3, n1, n2, n3);
            TriangleHeight(t, p1.x, p1.y) == p1.z && TriangleHeight(t, p2.x, p2.y) == p2.z
            && TriangleHeight(t, p3.x, p3.y) == p3.z
  {
    PlaneHeightAtCorners(p1, p2, p3);
  }

  /** The base colour (161, 102, 62) / 255 plus the grey jitter r * 0.05. */
  function TerrainColor(r: real): Vec3
  {
    Add(Vec3(161.0 / 255.0, 102.0 / 255.0, 62.0 / 255.0), Scale(0.05, Scale(r, Vec3(1.0, 1.0, 1.0))))
  }

  /** What corner k of the list adds to the normal of vertex v: the face normal n if it is v. */
  function CornerShare(indices: seq<nat>, k: nat, v: int, n: Vec3): Vec3
    requires k < |indices|
  {
    if indices[k] == v then n else Zero3
  }

  /**
   * normals_eff[v] after the first n triangles: the normalised face normal
   * of every triangle among them, once for each of its corners that is v,
   * added in emission order.
   */
  function NormalSum(positions: seq<Vec3>, indices: seq<nat>, count: nat, unit: Vec3 -> Vec3, n: nat, v: int): Vec3
    requires TriangleList(positions, indices, count) && n <= count
  {
    if n == 0 then Zero3
    else
      var k := 3 * (n - 1);
      var f := unit(FaceNormal(positions[indices[k]], positions[indices[k + 1]], positions[indices[k + 2]]));
      Add(Add(Add(NormalSum(positions, indices, count, unit, n - 1, v), CornerShare(indices, k, v, f)),
              CornerShare(indices, k + 1, v, f)),
          CornerShare(indices, k + 2, v, f))
  }

  /** A vertex that is no corner of the first n triangles keeps a zero normal sum. */
  lemma {:induction false} NormalSumOfUnusedVertex(positions: seq<Vec3>, indices: seq<nat>, count: nat,
                                                   unit: Vec3 -> Vec3, n: nat, v: int)
    requires TriangleList(positions, indices, count) && n <= count
    requires forall k :: 0 <= k < 3 * n ==> indices[k] != v
    ensures NormalSum(positions, indices, count, unit, n, v) == Zero3
  {
    if n > 0 {
      NormalSumOfUnusedVertex(positions, indices, count, unit, n - 1, v);
    }
  }

  /** The smoothed vertex normals: each vertex's normal sum, normalised. */
  function VertexNormals(positions: seq<Vec3>, indices: seq<nat>, count: nat, unit: Vec3 -> Vec3): (ns: seq<Vec3>)
    requires TriangleList(positions, indices, count)
    ensures |ns| == |positions|
  {
    seq(|positions|, v => unit(NormalSum(positions, indices, count, unit, count, v)))
  }

  /**
   * The normals loops of generate_terrain: normals_eff starts as one zero
   * vector per vertex, each triangle adds its normalised face normal to its
   * three corners, then every entry is normalised.
   */
  method AccumulateNormals(positions: seq<Vec3>, indices: seq<nat>, ghost count: nat, unit: Vec3 -> Vec3)
    returns (normals: seq<Vec3>)
    requires TriangleList(positions, indices, count)
    ensures normals == VertexNormals(positions, indices, count, unit)
  {
    var sums := SumFaceNormals(positions, indices, count, unit);
    normals := NormalizeAll(sums, unit);
  }

  /** normals_eff after the first t triangles. */
  function PartialSums(positions: seq<Vec3>, indices: seq<nat>, count: nat, unit: Vec3 -> Vec3, t: nat): (ns: seq<Vec3>)
    requires TriangleList(positions, indices, count) && t <= count
    ensures |ns| == |positions|
  {
    seq(|positions|, v => NormalSum(positions, indices, count, unit, t, v))
  }

  /** Before any triangle every sum is zero. */
  lemma NoPartialSums(positions: seq<Vec3>, indices: seq<nat>, count: nat, unit: Vec3 -> Vec3)
    requires TriangleList(positions, indices, count)
    ensures PartialSums(positions, indices, count, unit, 0) == seq(|positions|, _ => Zero3)
  {
  }

  /** The accumulation loop: normals_eff[v] is the normal sum of v over all triangles. */
  method SumFaceNormals(positions: seq<Vec3>, indices: seq<nat>, ghost count: nat, unit: Vec3 -> Vec3)
    returns (sums: seq<Vec3>)
    requires TriangleList(positions, indices, count)
    ensures sums == PartialSums(positions, indices, count, unit, count)
  {
    sums := seq(|positions|, _ => Zero3);
    var i := 0;
    ghost var t := 0;
    NoPartialSums(positions, indices, count, unit);
    while i < |indices|
      invariant i == 3 * t && t <= count
      invariant sums == PartialSums(positions, indices, count, unit, t)
    {
      sums := AccumulateTriangle(positions, indices, count, unit, t, i, sums);
      i := i + 3;
      t := t + 1;
    }
  }

  /** One pass of the accumulation loop: the face normal of the triangle at i, normalised, added to its corners. */
  method AccumulateTriangle(positions: seq<Vec3>, indices: seq<nat>, ghost count: nat, unit: Vec3 -> Vec3,
                            ghost t: nat, i: nat, sums0: seq<Vec3>)
    returns (sums: seq<Vec3>)
    requires TriangleList(positions, indices, count) && i == 3 * t && t < count
    requires sums0 == PartialSums(positions, indices, count, unit, t)
    ensures sums == PartialSums(positions, indices, count, unit, t + 1)
  {
    var n := unit(FaceNormal(positions[indices[i]], positions[indices[i + 1]], positions[indices[i + 2]]));
    sums := AddToCorners(sums0, indices, i, n);
    PartialSumsNext(positions, indices, count, unit, t);
  }

  /** The three corner entries of triangle t after its face normal n is added. */
  function AddedToCorners(normals: seq<Vec3>, indices: seq<nat>, i: nat, n: Vec3): (ns: seq<Vec3>)
    requires i + 2 < |indices|
    ensures |ns| == |normals|
  {
    seq(|normals|, v requires 0 <= v < |normals| =>
      Add(Add(Add(normals[v], CornerShare(indices, i, v, n)), CornerShare(indices, i + 1, v, n)),
          CornerShare(indices, i + 2, v, n)))
  }

  /** Adding triangle t's face normal to the sums of the first t triangles gives those of the first t + 1. */
  lemma PartialSumsNext(positions: seq<Vec3>, indices: seq<nat>, count: nat, unit: Vec3 -> Vec3, t: nat)
    requires TriangleList(positions, indices, count) && t < count
    ensures var k := 3 * t;
            var f := unit(FaceNormal(positions[indices[k]], positions[indices[k + 1]], positions[indices[k + 2]]));
            AddedToCorners(PartialSums(positions, indices, count, unit, t), indices, k, f)
            == PartialSums(positions, indices, count, unit, t + 1)
  {
  }

  /** One triangle of the accumulation: its face normal n added to the entries of its three corners, in order. */
  method AddToCorners(normals0: seq<Vec3>, indices: seq<nat>, i: nat, n: Vec3) returns (normals: seq<Vec3>)
    requires i + 2 < |indices| && forall k :: i <= k <= i + 2 ==> indices[k] < |normals0|
    ensures normals == AddedToCorners(normals0, indices, i, n)
  {
    normals := normals0[indices[i] := Add(normals0[indices[i]], n)];
    normals := normals[indices[i + 1] := Add(normals[indices[i + 1]], n)];
    normals := normals[indices[i + 2] := Add(normals[indices[i + 2]], n)];
  }

  /** The last normals loop: every entry normalised in place. */
  method NormalizeAll(normals0: seq<Vec3>, unit: Vec3 -> Vec3) returns (normals: seq<Vec3>)
    ensures |normals| == |normals0|
    ensures forall v :: 0 <= v < |normals| ==> normals[v] == unit(normals0[v])
  {
    normals := normals0;
    var k := 0;
    while k < |normals|
      invariant k <= |normals| == |normals0|
      invariant forall v :: 0 <= v < k ==> normals[v] == unit(normals0[v])
      invariant forall v :: k <= v < |normals| ==> normals[v] == normals0[v]
    {
      normals := normals[k := unit(normals[k])];
      k := k + 1;
    }
  }

  /** Triangle t of the list: its corners, their smoothed normals and the t-th jittered colour. */
  function ListTriangle(positions: seq<Vec3>, normals: seq<Vec3>, indices: seq<nat>, jitter: nat -> real, t: nat): Triangle
    requires forall k :: 0 <= k < |indices| ==> indices[k] < |positions|
    requires |normals| == |positions| && 3 * t + 2 < |indices|
  {
    var k := 3 * t;
    NewTriangle(positions[indices[k]], positions[indices[k + 1]], positions[indices[k + 2]],
                normals[indices[k]], normals[indices[k + 1]], normals[indices[k + 2]])
      .(color := TerrainColor(jitter(t)))
  }

  /** tris holds one triangle per three indices, in order, with the given vertex normals. */
  ghost predicate TrianglesOf(tris: seq<Triangle>, positions: seq<Vec3>, normals: seq<Vec3>, indices: seq<nat>,
                              jitter: nat -> real)
    requires forall k :: 0 <= k < |indices| ==> indices[k] < |positions|
    requires |normals| == |positions|
  {
    3 * |tris| == |indices|
    && forall t :: 0 <= t < |tris| ==> tris[t] == ListTriangle(positions, normals, indices, jitter, t)
  }

  /** The triangle loop of generate_terrain: one TerrainTriangle per three indices, pushed in order. */
  method BuildTriangles(positions: seq<Vec3>, normals: seq<Vec3>, indices: seq<nat>, ghost count: nat, jitter: nat -> real)
    returns (tris: seq<Triangle>)
    requires TriangleList(positions, indices, count) && |normals| == |positions|
    ensures |tris| == count && TrianglesOf(tris, positions, normals, indices, jitter)
  {
    tris := [];
    var i := 0;
    while i < |indices|
      invariant i == 3 * |tris| && |tris| <= count
      invariant forall t :: 0 <= t < |tris| ==> tris[t] == ListTriangle(positions, normals, indices, jitter, t)
    {
      var tri := NewTriangle(positions[indices[i]], positions[indices[i + 1]], positions[indices[i + 2]],
                             normals[indices[i]], normals[indices[i + 1]], normals[indices[i + 2]]);
      tri := tri.(color := TerrainColor(jitter(|tris|)));
      tris := tris + [tri];
      i := i + 3;
    }
  }

  /** Corner c (0, 1 or 2) of a triangle, with its normal. */
  function Corner(t: Triangle, c: nat): Vec3
  {
    if c == 0 then t.p1 else if c == 1 then t.p2 else t.p3
  }

  function CornerNormal(t: Triangle, c: nat): Vec3
  {
    if c == 0 then t.n1 else if c == 1 then t.n2 else t.n3
  }

  /**
   * The flattened mesh of a triangle list: vertex k is corner k % 3 of
   * triangle k / 3, with that corner's normal and the triangle's colour,
   * and the index buffer is 0, 1, 2, ...
   */
  ghost predicate Flattened(m: MeshBuffers, tris: seq<Triangle>)
  {
    |m.indices| == |m.positions| == |m.normals| == |m.colors| == 3 * |tris|
    && (forall k :: 0 <= k < |m.indices| ==> m.indices[k] == k)
    && forall t, c :: 0 <= t < |tris| && 0 <= c < 3 ==>
         m.positions[3 * t + c] == Corner(tris[t], c) && m.normals[3 * t + c] == CornerNormal(tris[t], c)
         && m.colors[3 * t + c] == tris[t].color
  }

  /** The last loop of generate_terrain: three vertices per triangle. */
  method Flatten(tris: seq<Triangle>) returns (m: MeshBuffers)
    ensures Flattened(m, tris)
  {
    m := MeshBuffers([], [], [], []);
    var i := 0;
    while i < |tris|
      invariant i <= |tris|
      invariant Flattened(m, tris[..i])
    {
      var tri := tris[i];
      m := MeshBuffers(m.indices + [i * 3 + 0, i * 3 + 1, i * 3 + 2],
                       m.positions + [tri.p1, tri.p2, tri.p3],
                       m.normals + [tri.n1, tri.n2, tri.n3],
                       m.colors + [tri.color, tri.color, tri.color]);
      i := i + 1;
    }
    assert tris[..i] == tris;
  }

  /** Reading the flattened buffers back through the index buffer gives every triangle's corners again. */
  lemma FlattenedCorners(m: MeshBuffers, tris: seq<Triangle>, t: nat)
    requires Flattened(m, tris) && t < |tris|
    ensures 3 * t + 2 < |m.indices| && TriangleList(m.positions, m.indices, |tris|)
    ensures Corners(m.positions, m.indices, t) == [tris[t].p1, tris[t].p2, tris[t].p3]
  {
    assert Corner(tris[t], 0) == tris[t].p1 && Corner(tris[t], 1) == tris[t].p2 && Corner(tris[t], 2) == tris[t].p3;
  }

  /** The triangles of the grid of (w, h): corners as listed by the grid indices, facing up. */
  ghost predicate GridTriangles(tris: seq<Triangle>, positions: seq<Vec3>, w: nat, h: nat)
  {
    |tris| == 2 * (w * h) && TriangleList(positions, GridIndices(w, h), |tris|)
    && forall t :: 0 <= t < |tris| ==>
         [tris[t].p1, tris[t].p2, tris[t].p3] == Corners(positions, GridIndices(w, h), t)
         && tris[t].normal == FaceNormal(tris[t].p1, tris[t].p2, tris[t].p3) && tris[t].normal.z == 1.0
  }

  /** The triangles generate_terrain builds from the grid, in emission order. */
  ghost predicate GridTriangleList(tris: seq<Triangle>, positions: seq<Vec3>, w: nat, h: nat,
                                   unit: Vec3 -> Vec3, jitter: nat -> real)
  {
    |tris| == 2 * (w * h)
    && forall t :: 0 <= t < |tris| ==> IsGridTriangle(tris[t], positions, w, h, unit, jitter, t)
  }

  /** tri is triangle t of the grid: its corners, smoothed normals and colour as generate_terrain makes them. */
  ghost predicate IsGridTriangle(tri: Triangle, positions: seq<Vec3>, w: nat, h: nat,
                                 unit: Vec3 -> Vec3, jitter: nat -> real, t: nat)
  {
    var ix := GridIndices(w, h);
    TriangleList(positions, ix, 2 * (w * h)) && t < 2 * (w * h)
    && tri == ListTriangle(positions, VertexNormals(positions, ix, 2 * (w * h), unit), ix, jitter, t)
  }

  /** The triangles built from the grid are the grid's triangles, all facing up. */
  lemma GridTriangleListFacesUp(tris: seq<Triangle>, heights: seq<real>, positions: seq<Vec3>, w: nat, h: nat,
                                unit: Vec3 -> Vec3, jitter: nat -> real)
    requires |heights| == GridSize(w, h) && IsGridPositions(positions, heights, w, h)
    requires GridTriangleList(tris, positions, w, h, unit, jitter)
    ensures GridTriangles(tris, positions, w, h)
  {
    GridIndicesLength(w, h);
    GridIndicesBounded(w, h, h);
    forall t | 0 <= t < |tris|
      ensures [tris[t].p1, tris[t].p2, tris[t].p3] == Corners(positions, GridIndices(w, h), t)
      ensures tris[t].normal == FaceNormal(tris[t].p1, tris[t].p2, tris[t].p3) && tris[t].normal.z == 1.0
    {
      GridTriangleFacesUp(heights, positions, w, h, t);
    }
  }

  /** The triangle Terrain::get_height reads: i * 2 + j * width * 2 (+ 1), in unsigned arithmetic. */
  function LookupTriangle(w: nat, x: real, y: real): nat
    requires 0.0 <= x < U32Limit as real && 0.0 <= y < U32Limit as real
  {
    Wrap32(TriangleIndex(w, x, y))
  }

  /**
   * The middle of generate_terrain: the grid, the smoothed vertex normals,
   * and one triangle per three grid indices.
   */
  method GridMesh(heights: seq<real>, w: nat, h: nat, unit: Vec3 -> Vec3, jitter: nat -> real)
    returns (positions: seq<Vec3>, tris: seq<Triangle>)
    requires |heights| == GridSize(w, h)
    ensures IsGridPositions(positions, heights, w, h)
    ensures GridTriangleList(tris, positions, w, h, unit, jitter)
  {
    var indices;
    positions, indices := BuildGrid(heights, w, h);
    GridIndicesBounded(w, h, h);
    GridIndicesLength(w, h);
    ghost var count := 2 * (w * h);
    assert TriangleList(positions, indices, count);
    var normals := AccumulateNormals(positions, indices, count, unit);
    tris := BuildTriangles(positions, normals, indices, count, jitter);
  }

  /** The constructor's 100 x 100 grid is generable and its indices fit an unsigned int. */
  lemma DefaultGridFits()
    ensures GridOk(100, 100) && FitsU32(100, 100)
  {
    GridSizeFormula(100, 100);
  }

  class Terrain {
    var width: nat
    var height: nat
    var sampleInterval: nat
    var heights: seq<real>
    var triangles: seq<Triangle>
    /** positions_eff of the last generate_terrain; a local of the source, kept here for the invariant. */
    ghost var gridPositions: seq<Vec3>

    ghost predicate Valid()
      reads this
    {
      GridOk(width, height) && FitsU32(width, height) && sampleInterval == SampleInterval
      && |heights| == GridSize(width, height)
      && IsGridPositions(gridPositions, heights, width, height)
      && GridTriangles(triangles, gridPositions, width, height)
    }

    /** The constructor: a 100 x 100 grid sampled every 10 points, generated at once. */
    constructor(noise: nat -> real, jitter: nat -> real, unit: Vec3 -> Vec3)
      ensures Valid()
      ensures width == 100 && height == 100 && sampleInterval == 10
      ensures HeightMapOf(heights, noise, width, height)
      ensures GridTriangleList(triangles, gridPositions, width, height, unit, jitter)
    {
      width := 100;
      height := 100;
      sampleInterval := 10;
      heights := [];
      triangles := [];
      gridPositions := [];
      new;
      DefaultGridFits();
      var mesh := GenerateTerrain(noise, jitter, unit);
      assert triangles[0..] == triangles;
    }

    /**
     * generate_terrain: the height map, the grid, the smoothed normals, one
     * triangle per three indices appended to the triangle list, then the
     * flattened buffers of the whole list.
     */
    method GenerateTerrain(noise: nat -> real, jitter: nat -> real, unit: Vec3 -> Vec3) returns (mesh: MeshBuffers)
      requires GridOk(width, height) && FitsU32(width, height) && sampleInterval == SampleInterval
      modifies this
      ensures width == old(width) && height == old(height) && sampleInterval == old(sampleInterval)
      ensures |heights| == GridSize(width, height) && HeightMapOf(heights, noise, width, height)
      ensures IsGridPositions(gridPositions, heights, width, height)
      ensures |old(triangles)| <= |triangles| && triangles[..|old(triangles)|] == old(triangles)
      ensures GridTriangleList(triangles[|old(triangles)|..], gridPositions, width, height, unit, jitter)
      ensures old(triangles) == [] ==> Valid()
      ensures Flattened(mesh, triangles)
    {
      heights := GenerateHeightMap(noise, width, height);
      var positionsEff, built := GridMesh(heights, width, height, unit, jitter);
      gridPositions := positionsEff;
      ghost var old0 := triangles;
      triangles := triangles + built;
      assert triangles[|old0|..] == built;
      if old0 == [] {
        GridTriangleListFacesUp(built, heights, gridPositions, width, height, unit, jitter);
      }
      mesh := Flatten(triangles);
    }

    /**
     * Terrain::get_height: the lookup logs (and carries on) when the column
     * exceeds the width or y exceeds the height, then reads the triangle of
     * the cell half holding (x, y). Inside the grid that is the surface.
     */
    method GetHeight(x: real, y: real) returns (z: real, logged: bool)
      requires Valid()
      requires 0.0 <= x < U32Limit as real && 0.0 <= y < U32Limit as real
      requires LookupTriangle(width, x, y) < |triangles|
      ensures logged <==> UnsignedCast(x) > width || y > height as real
      ensures z == TriangleHeight(triangles[LookupTriangle(width, x, y)], x, y)
      ensures x < width as real && y < height as real ==> z == SurfaceHeight(heights, width, height, x, y)
    {
      var i := UnsignedCast(x);
      var j := UnsignedCast(y);
      logged := i > width || y > height as real;
      var modx := x - i as real;
      var mody := y - j as real;
      var t: nat;
      if mody > 1.0 - modx {
        t := Wrap32(i * 2 + j * width * 2 + 1);
      } else {
        t := Wrap32(i * 2 + j * width * 2);
      }
      assert t == LookupTriangle(width, x, y);
      z := TriangleHeight(triangles[t], x, y);
      if x < width as real && y < height as real {
        InGridLookup(x, y);
      }
    }

    /** Inside the grid no index wraps and the triangle read is the one over (x, y). */
    lemma InGridLookup(x: real, y: real)
      requires Valid()
      requires 0.0 <= x < width as real && 0.0 <= y < height as real
      ensures x < U32Limit as real && y < U32Limit as real
      ensures LookupTriangle(width, x, y) == TriangleIndex(width, x, y) < |triangles|
      ensures TriangleHeight(triangles[TriangleIndex(width, x, y)], x, y) == SurfaceHeight(heights, width, height, x, y)
    {
      LookupMatchesGeneration(heights, gridPositions, width, height, x, y);
      CellsBelowPoints(width, height);
      RowStartMonotone(width, height, height + 1);
      CellInGrid(width, height, 0, 0);
    }
  }
}

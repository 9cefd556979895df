/**
 * The Wavefront OBJ loader of src/mesh.cpp: face lines give 1-based
 * position / texture / normal index triples; the loader turns them into
 * flat vertex arrays indexed 0, 1, 2, ... and then centers the positions.
 *
 * The regular expressions and lexical_cast are not modelled: the loader is
 * given the lines already matched and split into numbers (ObjLine).
 */
module ObjMesh {
  import opened IsanaMath
  import opened Geometry

  /**
   * One line of the file as the five patterns classify it: "v x y z",
   * "vt u v", "vn x y z", "f p/t/n p/t/n p/t/n", "f p//n p//n p//n", or a
   * line none of them matches. Face fields are the unsigned ints parsed
   * from the line, still 1-based.
   */
  datatype ObjLine =
    | PositionLine(p: Vec3)
    | TexCoordLine(t: Vec2)
    | NormalLine(n: Vec3)
    | FaceLine(p1: nat, t1: nat, n1: nat, p2: nat, t2: nat, n2: nat, p3: nat, t3: nat, n3: nat)
    | FaceNoTexLine(q1: nat, m1: nat, q2: nat, m2: nat, q3: nat, m3: nat)
    | OtherLine

  /** Every face field fits the unsigned int lexical_cast produces (it throws otherwise). */
  predicate FieldsFit(l: ObjLine)
  {
    match l
    case FaceLine(p1, t1, n1, p2, t2, n2, p3, t3, n3) =>
      p1 < U32Limit && t1 < U32Limit && n1 < U32Limit && p2 < U32Limit && t2 < U32Limit
      && n2 < U32Limit && p3 < U32Limit && t3 < U32Limit && n3 < U32Limit
    case FaceNoTexLine(q1, m1, q2, m2, q3, m3) =>
      q1 < U32Limit && m1 < U32Limit && q2 < U32Limit && m2 < U32Limit && q3 < U32Limit && m3 < U32Limit
    case _ => true
  }

  /**
   * A 1-based face field made 0-based by the unsigned subtraction `- 1`:
   * field 0 wraps around to 2^32 - 1.
   */
  function ZeroBased(v: nat): (r: nat)
    requires v < U32Limit
    ensures r < U32Limit
    ensures v >= 1 ==> r + 1 == v
    ensures v == 0 ==> r == U32Limit - 1
  {
    Wrap32(v - 1)
  }

  /** The six temporary lists the reading loop fills. */
  datatype ObjData = ObjData(positions: seq<Vec3>, texCoords: seq<Vec2>, normals: seq<Vec3>,
                             positionIndices: seq<nat>, textureIndices: seq<nat>, normalIndices: seq<nat>)

  const NoData := ObjData([], [], [], [], [], [])

  /** What one line adds to the temporary lists. */
  function ReadLine(d: ObjData, l: ObjLine): ObjData
    requires FieldsFit(l)
  {
    match l
    case PositionLine(p) => d.(positions := d.positions + [p])
    case TexCoordLine(t) => d.(texCoords := d.texCoords + [t])
    case NormalLine(n) => d.(normals := d.normals + [n])
    case FaceLine(p1, t1, n1, p2, t2, n2, p3, t3, n3) =>
      d.(positionIndices := d.positionIndices + [ZeroBased(p1), ZeroBased(p2), ZeroBased(p3)],
         textureIndices := d.textureIndices + [ZeroBased(t1), ZeroBased(t2), ZeroBased(t3)],
         normalIndices := d.normalIndices + [ZeroBased(n1), ZeroBased(n2), ZeroBased(n3)])
    case FaceNoTexLine(q1, m1, q2, m2, q3, m3) =>
      d.(positionIndices := d.positionIndices + [ZeroBased(q1), ZeroBased(q2), ZeroBased(q3)],
         normalIndices := d.normalIndices + [ZeroBased(m1), ZeroBased(m2), ZeroBased(m3)])
    case OtherLine => d
  }

  predicate AllFieldsFit(lines: seq<ObjLine>)
  {
    forall k :: 0 <= k < |lines| ==> FieldsFit(lines[k])
  }

  /** The temporary lists after reading the lines in order. */
  function Read(lines: seq<ObjLine>): ObjData
    requires AllFieldsFit(lines)
  {
    if lines == [] then NoData else ReadLine(Read(lines[..|lines| - 1]), lines[|lines| - 1])
  }

  /** The number of lines of each kind. */
  function CountFaces(lines: seq<ObjLine>): nat
  {
    if lines == [] then 0
    else CountFaces(lines[..|lines| - 1]) + (if lines[|lines| - 1].FaceLine? || lines[|lines| - 1].FaceNoTexLine? then 1 else 0)
  }

  function CountTexturedFaces(lines: seq<ObjLine>): nat
  {
    if lines == [] then 0
    else CountTexturedFaces(lines[..|lines| - 1]) + (if lines[|lines| - 1].FaceLine? then 1 else 0)
  }

  function CountPositions(lines: seq<ObjLine>): nat
  {
    if lines == [] then 0
    else CountPositions(lines[..|lines| - 1]) + (if lines[|lines| - 1].PositionLine? then 1 else 0)
  }

  /**
   * Three position and three normal indices per face line of either form,
   * three texture indices per textured face line, one position per "v"
   * line. Mixing the two face forms leaves fewer texture indices than
   * position indices.
   */
  lemma {:induction false} ReadCounts(lines: seq<ObjLine>)
    requires AllFieldsFit(lines)
    ensures |Read(lines).positionIndices| == |Read(lines).normalIndices| == 3 * CountFaces(lines)
    ensures |Read(lines).textureIndices| == 3 * CountTexturedFaces(lines)
    ensures |Read(lines).positions| == CountPositions(lines)
  {
    if lines != [] {
      ReadCounts(lines[..|lines| - 1]);
    }
  }

  /** Each temporary list of a is a prefix of the same list of b. */
  predicate Extends(a: ObjData, b: ObjData)
  {
    a.positions <= b.positions && a.texCoords <= b.texCoords && a.normals <= b.normals
    && a.positionIndices <= b.positionIndices && a.textureIndices <= b.textureIndices
    && a.normalIndices <= b.normalIndices
  }

  /** Reading more lines only appends to each temporary list. */
  lemma {:induction false} ReadExtends(lines: seq<ObjLine>, i: nat)
    requires AllFieldsFit(lines) && i <= |lines|
    ensures AllFieldsFit(lines[..i]) && Extends(Read(lines[..i]), Read(lines))
    decreases |lines|
  {
    if i == |lines| {
      assert lines[..i] == lines;
    } else {
      var front := lines[..|lines| - 1];
      assert front[..i] == lines[..i];
      ReadExtends(front, i);
      var a := Read(lines[..i]);
      var b := Read(front);
      var c := ReadLine(b, lines[|lines| - 1]);
      assert Extends(b, c);
    }
  }

  /** The reading loop: every line is offered to each pattern in turn. */
  method ReadLines(lines: seq<ObjLine>) returns (d: ObjData)
    requires AllFieldsFit(lines)
    ensures d == Read(lines)
  {
    d := NoData;
    var i := 0;
    while i < |lines|
      invariant i <= |lines|
      invariant d == Read(lines[..i])
    {
      var l := lines[i];
      assert lines[..i + 1][..i] == lines[..i];
      match l {
        case PositionLine(p) =>
          d := d.(positions := d.positions + [p]);
        case TexCoordLine(t) =>
          d := d.(texCoords := d.texCoords + [t]);
        case NormalLine(n) =>
          d := d.(normals := d.normals + [n]);
        case FaceLine(p1, t1, n1, p2, t2, n2, p3, t3, n3) =>
          d := d.(positionIndices := d.positionIndices + [ZeroBased(p1), ZeroBased(p2), ZeroBased(p3)]);
          d := d.(textureIndices := d.textureIndices + [ZeroBased(t1), ZeroBased(t2), ZeroBased(t3)]);
          d := d.(normalIndices := d.normalIndices + [ZeroBased(n1), ZeroBased(n2), ZeroBased(n3)]);
        case FaceNoTexLine(q1, m1, q2, m2, q3, m3) =>
          d := d.(positionIndices := d.positionIndices + [ZeroBased(q1), ZeroBased(q2), ZeroBased(q3)]);
          d := d.(normalIndices := d.normalIndices + [ZeroBased(m1), ZeroBased(m2), ZeroBased(m3)]);
        case OtherLine =>
      }
      i := i + 1;
    }
    assert lines[..i] == lines;
  }

  /** values[idx[0]], values[idx[1]], ...: a list read through an index list. */
  function Gather<T>(values: seq<T>, idx: seq<nat>): (r: seq<T>)
    requires forall k :: 0 <= k < |idx| ==> idx[k] < |values|
    ensures |r| == |idx|
  {
    seq(|idx|, k requires 0 <= k < |idx| => values[idx[k]])
  }

  /** 0, 1, ..., n - 1. */
  function Iota(n: nat): (r: seq<nat>)
    ensures |r| == n
  {
    seq(n, k => k)
  }

  /** Drawing the de-indexed vertices through 0, 1, 2, ... yields the face corners in order. */
  lemma DeindexedCorners<T>(values: seq<T>, idx: seq<nat>, k: nat)
    requires forall k :: 0 <= k < |idx| ==> idx[k] < |values|
    requires k < |idx|
    ensures Iota(|idx|)[k] < |Gather(values, idx)| && Gather(values, idx)[Iota(|idx|)[k]] == values[idx[k]]
  {
  }

  /**
   * What the de-indexing loops need: every position and normal index names
   * an entry, and in the textured branch there is a texture index per
   * position index, each naming an entry.
   */
  predicate Loadable(d: ObjData)
  {
    var n := |d.positionIndices|;
    n > 0 ==>
      (forall k :: 0 <= k < n ==> d.positionIndices[k] < |d.positions|)
      && |d.normalIndices| >= n && (forall k :: 0 <= k < n ==> d.normalIndices[k] < |d.normals|)
      && (|d.textureIndices| > 0 ==>
            |d.textureIndices| >= n && forall k :: 0 <= k < n ==> d.textureIndices[k] < |d.texCoords|)
  }

  class Mesh {
    var indices: seq<nat>
    var positions: seq<Vec3>
    var normals: seq<Vec3>
    var textureCoordinates: seq<Vec2>

    /** The empty mesh. */
    constructor()
      ensures indices == [] && positions == [] && normals == [] && textureCoordinates == []
    {
      indices := [];
      positions := [];
      normals := [];
      textureCoordinates := [];
    }

    /** Mesh(filename): load the file, then center it. */
    constructor FromFile(lines: seq<ObjLine>)
      requires AllFieldsFit(lines) && Loadable(Read(lines))
      ensures var d := Read(lines); var n := |d.positionIndices|;
              (n > 0 ==> indices == Iota(n) && positions == Centered(Gather(d.positions, d.positionIndices))
                         && normals == Gather(d.normals, d.normalIndices[..n]))
              && (n > 0 && |d.textureIndices| > 0 ==> textureCoordinates == Gather(d.texCoords, d.textureIndices[..n]))
              && (n == 0 || |d.textureIndices| == 0 ==> textureCoordinates == [])
              && (n == 0 ==> indices == [] && positions == [] && normals == [])
    {
      indices := [];
      positions := [];
      normals := [];
      textureCoordinates := [];
      new;
      LoadMeshFromFile(lines);
      ghost var d := Read(lines);
      if |d.positionIndices| > 0 {
        assert positions == Gather(d.positions, d.positionIndices);
      }
      Center();
    }

    /**
     * load_mesh_from_file: read the lines, then append one vertex per face
     * corner. With texture indices the vertex takes position, texture
     * coordinate and normal; without, position and normal only; with no
     * face at all nothing changes. The index buffer is extended by
     * 0 .. n - 1 whatever the mesh held before.
     */
    method LoadMeshFromFile(lines: seq<ObjLine>)
      requires AllFieldsFit(lines) && Loadable(Read(lines))
      modifies this
      ensures var d := Read(lines); var n := |d.positionIndices|;
              (n > 0 ==> indices == old(indices) + Iota(n)
                         && positions == old(positions) + Gather(d.positions, d.positionIndices)
                         && normals == old(normals) + Gather(d.normals, d.normalIndices[..n]))
              && (n > 0 && |d.textureIndices| > 0 ==>
                    textureCoordinates == old(textureCoordinates) + Gather(d.texCoords, d.textureIndices[..n]))
              && (n == 0 || |d.textureIndices| == 0 ==> textureCoordinates == old(textureCoordinates))
              && (n == 0 ==> indices == old(indices) && positions == old(positions) && normals == old(normals))
    {
      var d := ReadLines(lines);
      var n := |d.positionIndices|;
      if n > 0 && |d.textureIndices| > 0 {
        DeindexTextured(d);
      }
      if n > 0 && |d.textureIndices| == 0 {
        DeindexUntextured(d);
      }
    }

    /** The textured de-indexing loop. */
    method DeindexTextured(d: ObjData)
      requires Loadable(d) && |d.positionIndices| > 0 && |d.textureIndices| > 0
      modifies this
      ensures var n := |d.positionIndices|;
              indices == old(indices) + Iota(n)
              && positions == old(positions) + Gather(d.positions, d.positionIndices)
              && textureCoordinates == old(textureCoordinates) + Gather(d.texCoords, d.textureIndices[..n])
              && normals == old(normals) + Gather(d.normals, d.normalIndices[..n])
    {
      var n := |d.positionIndices|;
      var i := 0;
      while i < n
        invariant i <= n
        invariant indices == old(indices) + Iota(i)
        invariant positions == old(positions) + Gather(d.positions, d.positionIndices[..i])
        invariant textureCoordinates == old(textureCoordinates) + Gather(d.texCoords, d.textureIndices[..i])
        invariant normals == old(normals) + Gather(d.normals, d.normalIndices[..i])
      {
        indices := indices + [i];
        positions := positions + [d.positions[d.positionIndices[i]]];
        textureCoordinates := textureCoordinates + [d.texCoords[d.textureIndices[i]]];
        normals := normals + [d.normals[d.normalIndices[i]]];
        i := i + 1;
      }
      assert d.positionIndices[..i] == d.positionIndices;
    }

    /** The untextured de-indexing loop: no texture coordinates are produced. */
    method DeindexUntextured(d: ObjData)
      requires Loadable(d) && |d.positionIndices| > 0
      modifies this
      ensures var n := |d.positionIndices|;
              indices == old(indices) + Iota(n)
              && positions == old(positions) + Gather(d.positions, d.positionIndices)
              && normals == old(normals) + Gather(d.normals, d.normalIndices[..n])
              && textureCoordinates == old(textureCoordinates)
    {
      var n := |d.positionIndices|;
      var i := 0;
      while i < n
        invariant i <= n
        invariant indices == old(indices) + Iota(i)
        invariant positions == old(positions) + Gather(d.positions, d.positionIndices[..i])
        invariant normals == old(normals) + Gather(d.normals, d.normalIndices[..i])
        invariant textureCoordinates == old(textureCoordinates)
      {
        indices := indices + [i];
        positions := positions + [d.positions[d.positionIndices[i]]];
        normals := normals + [d.normals[d.normalIndices[i]]];
        i := i + 1;
      }
      assert d.positionIndices[..i] == d.positionIndices;
    }

    /** center: subtract the mean position from every position, in place. */
    method Center()
      modifies this
      ensures positions == Centered(old(positions))
      ensures indices == old(indices) && normals == old(normals) && textureCoordinates == old(textureCoordinates)
    {
      var sum := SumPositions(positions);
      if |positions| > 0 {
        var c := Mean(sum, |positions|);
        ghost var ps := positions;
        var i := 0;
        while i < |positions|
          invariant i <= |positions| == |ps|
          invariant forall k :: 0 <= k < i ==> positions[k] == Sub(ps[k], c)
          invariant forall k :: i <= k < |positions| ==> positions[k] == ps[k]
          invariant indices == old(indices) && normals == old(normals)
          invariant textureCoordinates == old(textureCoordinates)
        {
          positions := positions[i := Sub(positions[i], c)];
          i := i + 1;
        }
      }
    }
  }

  /** The summing loop of center: the component-wise sum of the positions. */
  method SumPositions(ps: seq<Vec3>) returns (sum: Vec3)
    ensures sum == SumAll(ps)
  {
    sum := Zero3;
    var i := 0;
    while i < |ps|
      invariant i <= |ps|
      invariant sum == SumAll(ps[..i])
    {
      assert ps[..i + 1][..i] == ps[..i];
      sum := Add(sum, ps[i]);
      i := i + 1;
    }
    assert ps[..i] == ps;
  }

  /** A sum of n vectors divided by n. */
  function Mean(sum: Vec3, n: nat): Vec3
    requires n > 0
  {
    Scale(1.0 / n as real, sum)
  }

  /** The mean of a non-empty list of positions. */
  function Centroid(ps: seq<Vec3>): Vec3
    requires |ps| > 0
  {
    Mean(SumAll(ps), |ps|)
  }

  /** The positions after center: each one minus the mean; an empty list stays empty. */
  function Centered(ps: seq<Vec3>): (r: seq<Vec3>)
    ensures |r| == |ps|
  {
    if |ps| == 0 then ps else seq(|ps|, k requires 0 <= k < |ps| => Sub(ps[k], Centroid(ps)))
  }

  /** Subtracting c from each of n vectors subtracts n c from their sum. */
  lemma {:induction false} SumAllShifted(ps: seq<Vec3>, c: Vec3)
    ensures SumAll(seq(|ps|, k requires 0 <= k < |ps| => Sub(ps[k], c))) == Sub(SumAll(ps), Scale(|ps| as real, c))
  {
    var shifted := seq(|ps|, k requires 0 <= k < |ps| => Sub(ps[k], c));
    if ps != [] {
      var front := ps[..|ps| - 1];
      SumAllShifted(front, c);
      assert shifted[..|shifted| - 1] == seq(|front|, k requires 0 <= k < |front| => Sub(front[k], c));
    }
  }

  /** After center the positions sum to zero: their mean is the origin. */
  lemma CenteredSumsToZero(ps: seq<Vec3>)
    ensures SumAll(Centered(ps)) == Zero3
  {
    if |ps| > 0 {
      var n := |ps| as real;
      SumAllShifted(ps, Centroid(ps));
      var s := SumAll(ps);
      assert n * (1.0 / n) == 1.0;
      assert n * ((1.0 / n) * s.x) == s.x && n * ((1.0 / n) * s.y) == s.y && n * ((1.0 / n) * s.z) == s.z;
    }
  }

  /** Centering an already centered list changes nothing. */
  lemma CenterIdempotent(ps: seq<Vec3>)
    ensures Centered(Centered(ps)) == Centered(ps)
  {
    if |ps| > 0 {
      CenteredSumsToZero(ps);
      var cs := Centered(ps);
      assert Centroid(cs) == Zero3;
    }
  }
}

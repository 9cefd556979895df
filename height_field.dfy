/**
 * The height map shared by both terrain revisions: a (width+1) x (height+1)
 * row-major grid of heights, a coarse pass that samples the noise source at
 * every sample_interval-th cell in both directions and a fill pass that sets
 * every other cell by Catmull-Rom bicubic interpolation of a clamped 4 x 4
 * stencil of coarse cells.
 */
module HeightField {
  import opened IsanaMath

  /** Where row j of the grid starts: j rows of width + 1 entries each. */
  function RowStart(w: nat, j: nat): nat
  {
    if j == 0 then 0 else RowStart(w, j - 1) + (w + 1)
  }

  lemma {:induction false} RowStartFormula(w: nat, j: nat)
    ensures RowStart(w, j) == (w + 1) * j
  {
    if j > 0 {
      RowStartFormula(w, j - 1);
      assert (w + 1) * j == (w + 1) * (j - 1) + (w + 1);
    }
  }

  /** Rows do not overlap: a later row starts at least a whole row further on. */
  lemma {:induction false} RowStartMonotone(w: nat, j1: nat, j2: nat)
    requires j1 < j2
    ensures RowStart(w, j1) + (w + 1) <= RowStart(w, j2)
    decreases j2 - j1
  {
    if j1 + 1 < j2 {
      RowStartMonotone(w, j1 + 1, j2);
    }
  }

  /** idx(i, j) = i + (width + 1) j (IdxFormula); rows laid end to end. */
  function Idx(w: nat, i: nat, j: nat): nat
  {
    i + RowStart(w, j)
  }

  lemma IdxFormula(w: nat, i: nat, j: nat)
    ensures Idx(w, i, j) == i + (w + 1) * j
  {
    RowStartFormula(w, j);
  }

  /** (width + 1)(height + 1): the number of grid points. */
  function GridSize(w: nat, h: nat): nat
  {
    RowStart(w, h + 1)
  }

  lemma GridSizeFormula(w: nat, h: nat)
    ensures GridSize(w, h) == (w + 1) * (h + 1)
  {
    RowStartFormula(w, h + 1);
  }

  /** Every grid point has its own entry within the (w+1)(h+1) buffer. */
  lemma IdxInBounds(w: nat, h: nat, i: nat, j: nat)
    requires i <= w && j <= h
    ensures Idx(w, i, j) < GridSize(w, h)
  {
    RowStartMonotone(w, j, h + 1);
  }

  lemma IdxInjective(w: nat, i1: nat, j1: nat, i2: nat, j2: nat)
    requires i1 <= w && i2 <= w && Idx(w, i1, j1) == Idx(w, i2, j2)
    ensures i1 == i2 && j1 == j2
  {
    if j1 < j2 {
      RowStartMonotone(w, j1, j2);
    } else if j2 < j1 {
      RowStartMonotone(w, j2, j1);
    }
  }

  /** floor(c / si) * si: c rounded down to a multiple of the interval. */
  function RoundDown(c: nat, si: nat): (r: nat)
    requires si > 0
    ensures r <= c < r + si && r % si == 0
  {
    RoundDownFacts(c, si);
    (c / si) * si
  }

  lemma RoundDownFacts(c: nat, si: nat)
    requires si > 0
    ensures 0 <= (c / si) * si <= c < (c / si) * si + si && ((c / si) * si) % si == 0
  {
    assert c == (c / si) * si + c % si;
    RowMajorIndex(c / si, 0, c / si + 1, si);
  }

  /** A cell the coarse pass writes: both coordinates are multiples of the interval. */
  predicate IsCoarse(si: nat, i: nat, j: nat)
    requires si > 0
  {
    i % si == 0 && j % si == 0
  }

  /**
   * One axis of the fill pass's stencil for coordinate c of an axis of
   * length n, exactly as the source computes it in unsigned ints:
   * [x - si, x, x + si, x + 10] with x = c rounded down to the interval;
   * the lower two are clamped to 0 when c < si and the upper two to the last
   * multiple of si when c > n - si (where n - si wraps if n < si). The last
   * entry uses the literal 10, not the interval.
   */
  function StencilAxis(c: nat, n: nat, si: nat): (s: seq<nat>)
    requires si > 0 && c <= n && n + si + 10 < U32Limit
    ensures |s| == 4
  {
    var x := RoundDown(c, si);
    var low := if c < si then [0, 0] else [Wrap32(x - si), x];
    var high := if c > Wrap32(n - si) then [RoundDown(n, si), RoundDown(n, si)] else [x + si, x + 10];
    low + high
  }

  /**
   * With the interval the program uses (10), every stencil entry is a
   * coarse coordinate inside the axis, so the fill pass only ever reads
   * cells the coarse pass wrote, and the order in which cells are filled
   * does not matter. The entries come in order, and the last two coincide:
   * the fourth point duplicates the third.
   */
  lemma StencilIsCoarse(c: nat, n: nat)
    requires c <= n && 10 <= n && n + 20 < U32Limit
    ensures forall k :: 0 <= k < 4 ==> StencilAxis(c, n, 10)[k] <= n && StencilAxis(c, n, 10)[k] % 10 == 0
    ensures StencilAxis(c, n, 10)[1] <= c && StencilAxis(c, n, 10)[2] == StencilAxis(c, n, 10)[3]
    ensures StencilAxis(c, n, 10)[0] <= StencilAxis(c, n, 10)[1] <= StencilAxis(c, n, 10)[2]
  {
  }

  /**
   * Any other interval breaks that: with an interval of 5 on an axis of
   * length 100, coordinate 95 puts the fourth stencil entry at 105, past the
   * end of the axis.
   */
  lemma StencilLiteralTenOverruns()
    ensures StencilAxis(95, 100, 5)[3] == 105
  {
    assert RoundDown(95, 5) == 95;
    assert Wrap32(100 - 5) == 95;
  }

  /**
   * cubic_interpolate: the Catmull-Rom segment between p[1] (x = 0) and
   * p[2] (x = 1); it passes through both and reproduces constants.
   */
  function Cubic(p: seq<real>, x: real): (r: real)
    requires |p| == 4
    ensures x == 0.0 ==> r == p[1]
    ensures x == 1.0 ==> r == p[2]
    ensures p[0] == p[1] == p[2] == p[3] ==> r == p[0]
  {
    p[1] + 0.5 * x * (p[2] - p[0] + x * (2.0 * p[0] - 5.0 * p[1] + 4.0 * p[2] - p[3]
                                        + x * (3.0 * (p[1] - p[2]) + p[3] - p[0])))
  }

  /** Catmull-Rom reproduces straight lines: equally spaced samples of a + b t give a + b (1 + x). */
  lemma {:induction false} CubicReproducesLines(a: real, b: real, x: real)
    ensures Cubic([a, a + b, a + 2.0 * b, a + 3.0 * b], x) == a + b * (1.0 + x)
  {
    var p := [a, a + b, a + 2.0 * b, a + 3.0 * b];
    assert 2.0 * p[0] - 5.0 * p[1] + 4.0 * p[2] - p[3] == 0.0;
    assert 3.0 * (p[1] - p[2]) + p[3] - p[0] == 0.0;
    assert p[2] - p[0] == 2.0 * b;
  }

  predicate IsStencil(p: seq<seq<real>>)
  {
    |p| == 4 && forall a :: 0 <= a < 4 ==> |p[a]| == 4
  }

  /** The column values interpolated at y, one per x-stencil entry. */
  function Columns(p: seq<seq<real>>, y: real): (arr: seq<real>)
    requires IsStencil(p)
    ensures |arr| == 4 && forall a :: 0 <= a < 4 ==> arr[a] == Cubic(p[a], y)
  {
    [Cubic(p[0], y), Cubic(p[1], y), Cubic(p[2], y), Cubic(p[3], y)]
  }

  /**
   * bicubic_interpolate: p[a][b] is the stencil value at x-entry a and
   * y-entry b; each column is interpolated in y, the results in x. On the
   * corners of the inner cell it returns the inner stencil values.
   */
  function Bicubic(p: seq<seq<real>>, x: real, y: real): (r: real)
    requires IsStencil(p)
    ensures x == 0.0 && y == 0.0 ==> r == p[1][1]
    ensures x == 1.0 && y == 0.0 ==> r == p[2][1]
    ensures x == 0.0 && y == 1.0 ==> r == p[1][2]
    ensures x == 1.0 && y == 1.0 ==> r == p[2][2]
  {
    Cubic(Columns(p, y), x)
  }

  /** A flat stencil interpolates to its constant everywhere. */
  lemma BicubicConstant(p: seq<seq<real>>, c: real, x: real, y: real)
    requires IsStencil(p) && forall a, b :: 0 <= a < 4 && 0 <= b < 4 ==> p[a][b] == c
    ensures Bicubic(p, x, y) == c
  {
    var arr := Columns(p, y);
    forall a | 0 <= a < 4 ensures arr[a] == c {
      assert p[a][0] == p[a][1] == p[a][2] == p[a][3] == c;
    }
  }

  /** The 16 values of the stencil xs x ys read out of a height buffer. */
  function StencilValues(hs: seq<real>, w: nat, xs: seq<nat>, ys: seq<nat>): (p: seq<seq<real>>)
    requires |xs| == 4 && |ys| == 4
    requires forall a, b :: 0 <= a < 4 && 0 <= b < 4 ==> Idx(w, xs[a], ys[b]) < |hs|
    ensures IsStencil(p)
    ensures forall a, b :: 0 <= a < 4 && 0 <= b < 4 ==> p[a][b] == hs[Idx(w, xs[a], ys[b])]
  {
    seq(4, a requires 0 <= a < 4 => seq(4, b requires 0 <= b < 4 => hs[Idx(w, xs[a], ys[b])]))
  }

  /** The same stencil with the coarse samples taken straight from the noise source. */
  function NoiseStencil(noise: nat -> real, w: nat, xs: seq<nat>, ys: seq<nat>): (p: seq<seq<real>>)
    requires |xs| == 4 && |ys| == 4
    ensures IsStencil(p)
    ensures forall a, b :: 0 <= a < 4 && 0 <= b < 4 ==> p[a][b] == noise(Idx(w, xs[a], ys[b]))
  {
    seq(4, a requires 0 <= a < 4 => seq(4, b requires 0 <= b < 4 => noise(Idx(w, xs[a], ys[b]))))
  }

  /** The interval both terrain constructors use. */
  const SampleInterval: nat := 10

  predicate GridOk(w: nat, h: nat)
  {
    SampleInterval <= w && SampleInterval <= h && w + 20 < U32Limit && h + 20 < U32Limit
  }

  /**
   * The height generate_height_map leaves at grid point (i, j): the noise
   * sample at coarse points (the noise source is seeded with idx(i, j)),
   * the bicubic interpolation of the coarse samples around it elsewhere.
   */
  function HeightAt(noise: nat -> real, w: nat, h: nat, i: nat, j: nat): real
    requires GridOk(w, h) && i <= w && j <= h
  {
    var si := SampleInterval;
    if IsCoarse(si, i, j) then noise(Idx(w, i, j))
    else Bicubic(NoiseStencil(noise, w, StencilAxis(i, w, si), StencilAxis(j, h, si)),
                 (i % si) as real / si as real, (j % si) as real / si as real)
  }

  /** A grid point of the coarse lattice keeps its noise sample. */
  lemma CoarseKeepsNoise(noise: nat -> real, w: nat, h: nat, i: nat, j: nat)
    requires GridOk(w, h) && i <= w && j <= h && IsCoarse(SampleInterval, i, j)
    ensures HeightAt(noise, w, h, i, j) == noise(Idx(w, i, j))
  {
  }

  /** Constant noise gives a flat height map. */
  lemma FlatNoiseFlatMap(noise: nat -> real, c: real, w: nat, h: nat, i: nat, j: nat)
    requires GridOk(w, h) && i <= w && j <= h
    requires forall k :: noise(k) == c
    ensures HeightAt(noise, w, h, i, j) == c
  {
    var si := SampleInterval;
    if !IsCoarse(si, i, j) {
      var p := NoiseStencil(noise, w, StencilAxis(i, w, si), StencilAxis(j, h, si));
      BicubicConstant(p, c, (i % si) as real / si as real, (j % si) as real / si as real);
    }
  }

  /** Every coarse grid point of the buffer holds its noise sample. */
  ghost predicate CoarseFilled(a: array<real>, noise: nat -> real, w: nat, h: nat)
    reads a
  {
    forall i', j' :: 0 <= i' <= w && 0 <= j' <= h && IsCoarse(SampleInterval, i', j') ==>
      Idx(w, i', j') < a.Length && a[Idx(w, i', j')] == noise(Idx(w, i', j'))
  }

  /**
   * generate_height_map: resize to (w+1)(h+1) zeros, the coarse pass over
   * multiples of the interval, then the fill pass over all other points in
   * row-major order.
   */
  method GenerateHeightMap(noise: nat -> real, w: nat, h: nat) returns (heights: seq<real>)
    requires GridOk(w, h)
    ensures |heights| == GridSize(w, h) == (w + 1) * (h + 1)
    ensures forall i, j :: 0 <= i <= w && 0 <= j <= h ==>
              Idx(w, i, j) < |heights| && heights[Idx(w, i, j)] == HeightAt(noise, w, h, i, j)
  {
    GridSizeFormula(w, h);
    var a := new real[(w + 1) * (h + 1)](_ => 0.0);
    CoarsePass(a, noise, w, h);
    FillPass(a, noise, w, h);
    heights := a[..];
  }

  /** The first loop nest: j and i step by the interval. */
  method CoarsePass(a: array<real>, noise: nat -> real, w: nat, h: nat)
    requires GridOk(w, h) && a.Length == GridSize(w, h)
    modifies a
    ensures CoarseFilled(a, noise, w, h)
  {
    var si := SampleInterval;
    var j := 0;
    while j <= h
      invariant j % si == 0
      invariant forall i', j' :: 0 <= i' <= w && 0 <= j' <= h && j' < j && IsCoarse(si, i', j') ==>
                  Idx(w, i', j') < a.Length && a[Idx(w, i', j')] == noise(Idx(w, i', j'))
    {
      CoarseRow(a, noise, w, h, j);
      forall j' | j < j' < j + si ensures j' % si != 0 {
        NoMultipleBetween(j, j');
      }
      j := j + si;
    }
  }

  /** The inner loop of the coarse pass: row j, i stepping by the interval. */
  method CoarseRow(a: array<real>, noise: nat -> real, w: nat, h: nat, j: nat)
    requires GridOk(w, h) && a.Length == GridSize(w, h) && j <= h
    modifies a
    ensures forall i' :: 0 <= i' <= w && i' % SampleInterval == 0 ==>
              Idx(w, i', j) < a.Length && a[Idx(w, i', j)] == noise(Idx(w, i', j))
    ensures forall i', j' :: 0 <= i' <= w && 0 <= j' <= h && j' != j ==>
              Idx(w, i', j') < a.Length && a[Idx(w, i', j')] == old(a[Idx(w, i', j')])
  {
    var si := SampleInterval;
    forall i', j' | 0 <= i' <= w && 0 <= j' <= h ensures Idx(w, i', j') < a.Length {
      IdxInBounds(w, h, i', j');
    }
    var i := 0;
    while i <= w
      invariant i % si == 0
      invariant forall i' :: 0 <= i' <= w && i' < i && i' % si == 0 ==>
                  Idx(w, i', j) < a.Length && a[Idx(w, i', j)] == noise(Idx(w, i', j))
      invariant forall i', j' :: 0 <= i' <= w && 0 <= j' <= h && j' != j ==>
                  Idx(w, i', j') < a.Length && a[Idx(w, i', j')] == old(a[Idx(w, i', j')])
    {
      IdxInBounds(w, h, i, j);
      WriteKeepsOthers(w, i, j);
      a[j * (w + 1) + i] := noise(i + j * (w + 1));
      forall i' | i < i' < i + si ensures i' % si != 0 {
        NoMultipleBetween(i, i');
      }
      i := i + si;
    }
  }

  lemma NoMultipleBetween(x: nat, y: nat)
    requires x % SampleInterval == 0 && x < y < x + SampleInterval
    ensures y % SampleInterval != 0
  {
  }

  /** The second loop nest: every non-coarse point, in row-major order. */
  method FillPass(a: array<real>, noise: nat -> real, w: nat, h: nat)
    requires GridOk(w, h) && a.Length == GridSize(w, h)
    requires CoarseFilled(a, noise, w, h)
    modifies a
    ensures forall i, j :: 0 <= i <= w && 0 <= j <= h ==>
              Idx(w, i, j) < a.Length && a[Idx(w, i, j)] == HeightAt(noise, w, h, i, j)
  {
    var j := 0;
    while j <= h
      invariant j <= h + 1
      invariant CoarseFilled(a, noise, w, h)
      invariant RowsFilled(a, noise, w, h, j)
    {
      FillRow(a, noise, w, h, j);
      j := j + 1;
    }
  }

  /** Rows 0 .. j - 1 hold their final heights. */
  ghost predicate RowsFilled(a: array<real>, noise: nat -> real, w: nat, h: nat, j: nat)
    requires GridOk(w, h)
    reads a
  {
    forall i', j' :: 0 <= i' <= w && 0 <= j' < j && j' <= h ==>
      Idx(w, i', j') < a.Length && a[Idx(w, i', j')] == HeightAt(noise, w, h, i', j')
  }

  /** One pass of the fill pass's inner loop (row j). */
  method FillRow(a: array<real>, noise: nat -> real, w: nat, h: nat, j: nat)
    requires GridOk(w, h) && a.Length == GridSize(w, h) && j <= h
    requires CoarseFilled(a, noise, w, h) && RowsFilled(a, noise, w, h, j)
    modifies a
    ensures CoarseFilled(a, noise, w, h) && RowsFilled(a, noise, w, h, j + 1)
  {
    var si := SampleInterval;
    var i := 0;
    while i <= w
      invariant i <= w + 1
      invariant CoarseFilled(a, noise, w, h) && RowsFilled(a, noise, w, h, j)
      invariant forall i' :: 0 <= i' < i ==>
                  Idx(w, i', j) < a.Length && a[Idx(w, i', j)] == HeightAt(noise, w, h, i', j)
    {
      IdxInBounds(w, h, i, j);
      WriteKeepsOthers(w, i, j);
      if !(i % si == 0 && j % si == 0) {
        FillOne(a, noise, w, h, i, j);
      }
      i := i + 1;
    }
  }

  /** The body of the fill pass for one non-coarse point. */
  method FillOne(a: array<real>, noise: nat -> real, w: nat, h: nat, i: nat, j: nat)
    requires GridOk(w, h) && a.Length == GridSize(w, h)
    requires i <= w && j <= h && !IsCoarse(SampleInterval, i, j)
    requires CoarseFilled(a, noise, w, h)
    modifies a
    ensures Idx(w, i, j) < a.Length && a[Idx(w, i, j)] == HeightAt(noise, w, h, i, j)
    ensures forall k :: 0 <= k < a.Length && k != Idx(w, i, j) ==> a[k] == old(a[k])
  {
    var si := SampleInterval;
    IdxInBounds(w, h, i, j);
    var xs := StencilAxis(i, w, si);
    var ys := StencilAxis(j, h, si);
    StencilIsCoarse(i, w);
    StencilIsCoarse(j, h);
    var p := ReadStencil(a, noise, w, h, xs, ys);
    var xx := (i % si) as real / si as real;
    var yy := (j % si) as real / si as real;
    a[Idx(w, i, j)] := Bicubic(p, xx, yy);
  }

  /** Distinct grid points have distinct entries (and the entry is in range). */
  lemma WriteKeepsOthers(w: nat, i: nat, j: nat)
    requires i <= w
    ensures Idx(w, i, j) == j * (w + 1) + i == i + j * (w + 1)
    ensures forall i', j' :: 0 <= i' <= w && (i' != i || j' != j) ==> Idx(w, i', j') != Idx(w, i, j)
  {
    IdxFormula(w, i, j);
    assert (w + 1) * j == j * (w + 1);
    forall i', j' | 0 <= i' <= w && (i' != i || j' != j)
      ensures Idx(w, i', j') != Idx(w, i, j)
    {
      if Idx(w, i', j') == Idx(w, i, j) {
        IdxInjective(w, i', j', i, j);
      }
    }
  }

  /** The 16 reads of the fill pass; all of them hit coarse cells, which hold noise samples. */
  method ReadStencil(a: array<real>, noise: nat -> real, w: nat, h: nat, xs: seq<nat>, ys: seq<nat>)
    returns (p: seq<seq<real>>)
    requires |xs| == 4 && |ys| == 4
    requires forall k :: 0 <= k < 4 ==> xs[k] <= w && xs[k] % SampleInterval == 0
    requires forall k :: 0 <= k < 4 ==> ys[k] <= h && ys[k] % SampleInterval == 0
    requires CoarseFilled(a, noise, w, h)
    ensures p == NoiseStencil(noise, w, xs, ys)
  {
    assert forall x, y :: 0 <= x < 4 && 0 <= y < 4 ==> IsCoarse(SampleInterval, xs[x], ys[y]);
    p := StencilValues(a[..], w, xs, ys);
    var q := NoiseStencil(noise, w, xs, ys);
    forall x | 0 <= x < 4 ensures p[x] == q[x] {
      assert forall y :: 0 <= y < 4 ==> p[x][y] == q[x][y];
    }
  }
}

/**
 * The font writer: glyph bitmaps rendered by FreeType are unpacked, turned
 * into a (degenerate) signed-distance field and packed ten to a row into one
 * atlas texture; text lines become one textured quad per character.
 * FreeType itself is an input here: each printable character arrives as its
 * monochrome bitmap and its 26.6 fixed-point metrics.
 */
module Fonts {
  import opened IsanaMath
  import opened Geometry

  /* ---------------------------------------------------------------- */
  /* Row-major rasters                                                 */
  /* ---------------------------------------------------------------- */

  /** Position of pixel (row, col) in a raster `cols` wide stored row after row. */
  function Cell(cols: nat, rows: nat, row: nat, col: nat): (k: nat)
    requires row < rows && col < cols
    ensures k < rows * cols
  {
    RowMajorIndex(row, col, rows, cols);
    row * cols + col
  }

  lemma CellInjective(cols: nat, rows: nat, r1: nat, c1: nat, r2: nat, c2: nat)
    requires r1 < rows && c1 < cols && r2 < rows && c2 < cols
    requires Cell(cols, rows, r1, c1) == Cell(cols, rows, r2, c2)
    ensures r1 == r2 && c1 == c2
  {
    QuotientUnique(r1, c1, r2, c2, cols);
  }

  /** Every position of a rows x cols raster is the cell of some pixel. */
  lemma CellCover(cols: nat, rows: nat, k: nat)
    requires k < rows * cols
    ensures cols > 0 && k / cols < rows && Cell(cols, rows, k / cols, k % cols) == k
  {
    DivBelow(k, rows, cols);
  }

  /** Pixel (row, col) comes before the scan position (y, x) in row-major order. */
  predicate Before(row: int, col: int, y: int, x: int)
  {
    row < y || (row == y && col < x)
  }

  /* ---------------------------------------------------------------- */
  /* Monochrome bitmaps                                                */
  /* ---------------------------------------------------------------- */

  /** Bit i of a byte, counted from the most significant bit. */
  function MsbBit(b: bv8, i: nat): bool
    requires i < 8
  {
    b & (1 << (7 - i)) != 0
  }

  /** Reading the eight bits most significant first spells the byte's value. */
  lemma MsbBitsSpellByte(b: bv8)
    ensures b as int == (if MsbBit(b, 0) then 128 else 0) + (if MsbBit(b, 1) then 64 else 0)
                      + (if MsbBit(b, 2) then 32 else 0) + (if MsbBit(b, 3) then 16 else 0)
                      + (if MsbBit(b, 4) then 8 else 0) + (if MsbBit(b, 5) then 4 else 0)
                      + (if MsbBit(b, 6) then 2 else 0) + (if MsbBit(b, 7) then 1 else 0)
  {
  }

  /** FT_Bitmap in FT_PIXEL_MODE_MONO: `rows` rows of `pitch` bytes, one bit per pixel. */
  datatype MonoBitmap = MonoBitmap(rows: nat, width: nat, pitch: nat, buffer: seq<bv8>)

  /** The row stride holds the row's pixels and the buffer holds every row. */
  predicate WellFormed(b: MonoBitmap)
  {
    b.width <= 8 * b.pitch && b.rows * b.pitch <= |b.buffer|
  }

  /** Pixel (y, x) of the bitmap: bit x % 8 of byte x / 8 of row y. */
  function Pixel(b: MonoBitmap, y: nat, x: nat): bool
    requires WellFormed(b) && y < b.rows && x < b.width
  {
    MsbBit(b.buffer[Cell(b.pitch, b.rows, y, x / 8)], x % 8)
  }

  /** Width and height of the bitmap once framed by `padding` empty pixels. */
  function PaddedWidth(b: MonoBitmap, padding: nat): nat { b.width + 2 * padding }

  function PaddedHeight(b: MonoBitmap, padding: nat): nat { b.rows + 2 * padding }

  /** Pixel (cy, cx) of the framed bitmap: the glyph's pixel inside, off in the frame. */
  function PaddedPixel(b: MonoBitmap, padding: nat, cy: nat, cx: nat): bool
    requires WellFormed(b)
  {
    if padding <= cy < b.rows + padding && padding <= cx < b.width + padding
    then Pixel(b, cy - padding, cx - padding)
    else false
  }

  /** The unpacked raster r holds the framed bitmap's pixels before (y, x) and is off elsewhere. */
  ghost predicate UnpackedUpTo(r: seq<bool>, b: MonoBitmap, padding: nat, y: int, x: int)
    requires WellFormed(b)
    requires |r| == PaddedHeight(b, padding) * PaddedWidth(b, padding)
  {
    var w := PaddedWidth(b, padding);
    var h := PaddedHeight(b, padding);
    forall cy: nat, cx: nat {:trigger Cell(w, h, cy, cx)} :: cy < h && cx < w ==>
      r[Cell(w, h, cy, cx)] == (PaddedPixel(b, padding, cy, cx) && Before(cy - padding, cx - padding, y, x))
  }

  lemma UnpackedStart(r: seq<bool>, b: MonoBitmap, padding: nat)
    requires WellFormed(b)
    requires |r| == PaddedHeight(b, padding) * PaddedWidth(b, padding)
    requires forall k :: 0 <= k < |r| ==> !r[k]
    ensures UnpackedUpTo(r, b, padding, 0, 0)
  {
  }

  /** Writing pixel (y, x) moves the scan position one pixel on. */
  lemma UnpackedStep(r: seq<bool>, b: MonoBitmap, padding: nat, y: nat, x: nat)
    requires WellFormed(b) && y < b.rows && x < b.width
    requires |r| == PaddedHeight(b, padding) * PaddedWidth(b, padding)
    requires UnpackedUpTo(r, b, padding, y, x)
    ensures UnpackedUpTo(r[Cell(PaddedWidth(b, padding), PaddedHeight(b, padding), y + padding, x + padding) := Pixel(b, y, x)],
                         b, padding, y, x + 1)
  {
    var w := PaddedWidth(b, padding);
    var h := PaddedHeight(b, padding);
    var k := Cell(w, h, y + padding, x + padding);
    var r' := r[k := Pixel(b, y, x)];
    forall cy: nat, cx: nat | cy < h && cx < w
      ensures r'[Cell(w, h, cy, cx)] == (PaddedPixel(b, padding, cy, cx) && Before(cy - padding, cx - padding, y, x + 1))
    {
      if Cell(w, h, cy, cx) == k {
        CellInjective(w, h, cy, cx, y + padding, x + padding);
      }
    }
  }

  /** A finished row is the same as the start of the next one. */
  lemma UnpackedRowDone(r: seq<bool>, b: MonoBitmap, padding: nat, y: nat)
    requires WellFormed(b)
    requires |r| == PaddedHeight(b, padding) * PaddedWidth(b, padding)
    requires UnpackedUpTo(r, b, padding, y, b.width)
    ensures UnpackedUpTo(r, b, padding, y + 1, 0)
  {
  }

  /** The whole framed bitmap, as unpack_mono_bitmap returns it. */
  ghost predicate IsUnpacked(r: seq<bool>, b: MonoBitmap, padding: nat)
    requires WellFormed(b)
  {
    var w := PaddedWidth(b, padding);
    var h := PaddedHeight(b, padding);
    |r| == h * w &&
    forall cy: nat, cx: nat {:trigger Cell(w, h, cy, cx)} :: cy < h && cx < w ==>
      r[Cell(w, h, cy, cx)] == PaddedPixel(b, padding, cy, cx)
  }

  /**
   * Pixels handled by the inner loop for one byte: at most eight, and none
   * once the byte starts past the row's width (there the source's signed
   * difference is negative).
   */
  function BitsInByte(width: nat, byteIndex: nat): (n: nat)
    ensures n <= 8 && 8 * byteIndex + n <= NatMax(8 * byteIndex, width)
    ensures 8 * byteIndex < width ==> 8 * byteIndex + n == NatMin(8 * (byteIndex + 1), width)
  {
    if 8 * byteIndex <= width then (if width - 8 * byteIndex < 8 then width - 8 * byteIndex else 8) else 0
  }

  function NatMin(a: nat, b: nat): nat { if a <= b then a else b }

  function NatMax(a: nat, b: nat): nat { if a <= b then b else a }

  /** unpack_mono_bitmap: one bool per pixel of the framed bitmap, row after row. */
  method UnpackMonoBitmap(b: MonoBitmap, padding: nat) returns (r: seq<bool>)
    requires WellFormed(b)
    ensures IsUnpacked(r, b, padding)
  {
    var w := PaddedWidth(b, padding);
    var h := PaddedHeight(b, padding);
    var result := new bool[h * w](_ => false);
    UnpackedStart(result[..], b, padding);
    var y := 0;
    while y < b.rows
      invariant y <= b.rows && result.Length == h * w
      invariant UnpackedUpTo(result[..], b, padding, y, 0)
    {
      UnpackRow(result, b, padding, y);
      UnpackedRowDone(result[..], b, padding, y);
      y := y + 1;
    }
    r := result[..];
  }

  /** The byte loop of one bitmap row. */
  method UnpackRow(result: array<bool>, b: MonoBitmap, padding: nat, y: nat)
    requires WellFormed(b) && y < b.rows
    requires result.Length == PaddedHeight(b, padding) * PaddedWidth(b, padding)
    requires UnpackedUpTo(result[..], b, padding, y, 0)
    modifies result
    ensures UnpackedUpTo(result[..], b, padding, y, b.width)
  {
    var w := PaddedWidth(b, padding);
    var byteIndex := 0;
    while byteIndex < b.pitch
      invariant byteIndex <= b.pitch
      invariant UnpackedUpTo(result[..], b, padding, y, NatMin(8 * byteIndex, b.width))
    {
      var byteValue := b.buffer[Cell(b.pitch, b.rows, y, byteIndex)];
      var rowStart := (y + padding) * w + byteIndex * 8 + padding;
      var bitIndex := 0;
      while bitIndex < BitsInByte(b.width, byteIndex)
        invariant bitIndex <= BitsInByte(b.width, byteIndex)
        invariant UnpackedUpTo(result[..], b, padding, y, NatMin(8 * byteIndex, b.width) + bitIndex)
      {
        var x := 8 * byteIndex + bitIndex;
        assert x / 8 == byteIndex && x % 8 == bitIndex;
        assert rowStart + bitIndex == Cell(w, PaddedHeight(b, padding), y + padding, x + padding);
        UnpackedStep(result[..], b, padding, y, x);
        result[rowStart + bitIndex] := MsbBit(byteValue, bitIndex);
        bitIndex := bitIndex + 1;
      }
      byteIndex := byteIndex + 1;
    }
  }

  /* ---------------------------------------------------------------- */
  /* Distance field                                                    */
  /* ---------------------------------------------------------------- */

  /** Neighbourhood radius of the distance search. */
  const SampleDepth: nat := 10

  /**
   * max_dist = sqrt(2 * 10 * 10) as a float; the model relies only on its
   * being positive.
   */
  const MaxDist: real := 14.142135

  /**
   * The byte stored for a pixel whose distance to the nearest pixel of the
   * other kind is `ratio` times max_dist: above the midpoint inside the
   * glyph, below it outside, truncated to uint8.
   */
  function FieldLevel(inside: bool, ratio: real): (level: nat)
    requires 0.0 <= ratio <= 1.0
    ensures level <= 255
    ensures inside ==> level >= 127
    ensures !inside ==> level <= 127
    ensures ratio == 1.0 ==> level == (if inside then 255 else 0)
  {
    if inside then ((0.5 + ratio * 0.5) * 255.0).Floor else ((0.5 - ratio * 0.5) * 255.0).Floor
  }

  /** The field computed so far: every pixel before (k, l) holds 255 inside the glyph and 0 outside. */
  ghost predicate LevelsUpTo(f: seq<bv8>, data: seq<bool>, width: nat, height: nat, k: int, l: int)
    requires |f| == |data| == height * width
  {
    forall kk: nat, ll: nat {:trigger Cell(width, height, kk, ll)} :: kk < height && ll < width && Before(kk, ll, k, l) ==>
      f[Cell(width, height, kk, ll)] == (if data[Cell(width, height, kk, ll)] then 255 else 0)
  }

  lemma LevelsStep(f: seq<bv8>, data: seq<bool>, width: nat, height: nat, k: nat, l: nat)
    requires |f| == |data| == height * width && k < height && l < width
    requires LevelsUpTo(f, data, width, height, k, l)
    ensures LevelsUpTo(f[Cell(width, height, k, l) := if data[Cell(width, height, k, l)] then 255 else 0],
                       data, width, height, k, l + 1)
  {
    var c := Cell(width, height, k, l);
    var f' := f[c := if data[c] then 255 else 0];
    forall kk: nat, ll: nat | kk < height && ll < width && Before(kk, ll, k, l + 1)
      ensures f'[Cell(width, height, kk, ll)] == (if data[Cell(width, height, kk, ll)] then 255 else 0)
    {
      if Cell(width, height, kk, ll) == c {
        CellInjective(width, height, kk, ll, k, l);
      }
    }
  }

  /**
   * calculate_distance_field. The neighbourhood search discards the result of
   * its std::min, so every distance stays max_dist and the field is binary.
   */
  method CalculateDistanceField(field: array<bv8>, data: seq<bool>, width: nat, height: nat)
    requires field.Length == |data| == height * width
    modifies field
    ensures forall i :: 0 <= i < field.Length ==> field[i] == (if data[i] then 255 else 0)
  {
    var k: nat := 0;
    while k < height
      invariant k <= height
      invariant LevelsUpTo(field[..], data, width, height, k, 0)
    {
      var l: nat := 0;
      while l < width
        invariant l <= width
        invariant LevelsUpTo(field[..], data, width, height, k, l)
      {
        var c := Cell(width, height, k, l);
        var distance := MaxDist;
        var level := FieldLevel(data[c], distance / MaxDist);
        LevelsStep(field[..], data, width, height, k, l);
        field[c] := level as bv8;
        l := l + 1;
      }
      k := k + 1;
    }
    LevelsDone(field[..], data, width, height);
  }

  /** Once the scan has passed the last row, every pixel holds its level. */
  lemma LevelsDone(f: seq<bv8>, data: seq<bool>, width: nat, height: nat)
    requires |f| == |data| == height * width
    requires LevelsUpTo(f, data, width, height, height, 0)
    ensures forall i :: 0 <= i < |f| ==> f[i] == (if data[i] then 255 else 0)
  {
    forall i | 0 <= i < |f|
      ensures f[i] == (if data[i] then 255 else 0)
    {
      CellCover(width, height, i);
      assert Before(i / width, i % width, height, 0);
    }
  }

  /* ---------------------------------------------------------------- */
  /* Atlas layout                                                      */
  /* ---------------------------------------------------------------- */

  /** Glyphs per atlas row. */
  const GlyphsPerRow: nat := 10

  /** The pen of both layout loops of generate_character_map after some glyphs. */
  datatype Pen = Pen(counter: nat, x: nat, y: nat, rowHeight: nat, maxWidth: nat)

  /** The pen once one more glyph of padded size width by height is laid out. */
  function PenStep(pen: Pen, width: nat, height: nat): Pen
  {
    var x := pen.x + width;
    var rowHeight := NatMax(pen.rowHeight, height);
    if (pen.counter + 1) % GlyphsPerRow == 0 then Pen(0, 0, pen.y + rowHeight, 0, NatMax(pen.maxWidth, x))
    else Pen(pen.counter + 1, x, pen.y, rowHeight, pen.maxWidth)
  }

  /**
   * The pen after the first n glyphs of padded widths ws and heights hs: x
   * and rowHeight describe the open row, y is the top of the open row and
   * maxWidth the widest closed row; every tenth glyph closes its row.
   */
  function Scan(ws: seq<nat>, hs: seq<nat>, n: nat): (pen: Pen)
    requires |ws| == |hs| && n <= |ws|
    ensures pen.counter < GlyphsPerRow
    ensures pen.counter == 0 ==> pen.x == 0 && pen.rowHeight == 0
  {
    if n == 0 then Pen(0, 0, 0, 0, 0)
    else PenStep(Scan(ws, hs, n - 1), ws[n - 1], hs[n - 1])
  }

  /** The counter that the first loop resets is the glyph count modulo ten. */
  lemma {:induction false} ScanCounter(ws: seq<nat>, hs: seq<nat>, n: nat)
    requires |ws| == |hs| && n <= |ws|
    ensures Scan(ws, hs, n).counter == n % GlyphsPerRow
  {
    if n > 0 {
      ScanCounter(ws, hs, n - 1);
      CounterStep(n);
    }
  }

  /** Counting one more glyph modulo ten: the counter wraps to 0 exactly when it reaches ten. */
  lemma CounterStep(n: nat)
    requires n > 0
    ensures ((n - 1) % GlyphsPerRow + 1) % GlyphsPerRow == n % GlyphsPerRow
  {
  }

  /** Atlas width as generate_character_map computes it: the widest complete row. */
  function AtlasWidthAsWritten(ws: seq<nat>, hs: seq<nat>): nat
    requires |ws| == |hs|
  {
    Scan(ws, hs, |ws|).maxWidth
  }

  /** Atlas width counting the final, partial row as well. */
  function AtlasWidth(ws: seq<nat>, hs: seq<nat>): nat
    requires |ws| == |hs|
  {
    var pen := Scan(ws, hs, |ws|);
    if pen.counter != 0 then NatMax(pen.maxWidth, pen.x) else pen.maxWidth
  }

  /** Atlas height: every row, the final partial one included, as tall as its tallest glyph. */
  function AtlasHeight(ws: seq<nat>, hs: seq<nat>): nat
    requires |ws| == |hs|
  {
    var pen := Scan(ws, hs, |ws|);
    if pen.counter != 0 then pen.y + pen.rowHeight else pen.y
  }

  /**
   * After n glyphs, glyph k < n either is on the open row, left of the pen
   * and no taller than the row, or lies above the open row and within the
   * widest closed row.
   */
  ghost predicate Settled(ws: seq<nat>, hs: seq<nat>, k: nat, n: nat)
    requires |ws| == |hs| && k < n <= |ws|
  {
    var g := Scan(ws, hs, k);
    var pen := Scan(ws, hs, n);
    (pen.counter != 0 && pen.y == g.y && g.x + ws[k] <= pen.x && hs[k] <= pen.rowHeight)
    || (g.y + hs[k] <= pen.y && g.x + ws[k] <= pen.maxWidth)
  }

  lemma {:induction false} GlyphSettles(ws: seq<nat>, hs: seq<nat>, k: nat, n: nat)
    requires |ws| == |hs| && k < n <= |ws|
    ensures Settled(ws, hs, k, n)
  {
    if n > k + 1 {
      GlyphSettles(ws, hs, k, n - 1);
    }
  }

  /** Every glyph's padded box lies inside the atlas. */
  lemma GlyphInAtlas(ws: seq<nat>, hs: seq<nat>, k: nat)
    requires |ws| == |hs| && k < |ws|
    ensures Scan(ws, hs, k).x + ws[k] <= AtlasWidth(ws, hs)
    ensures Scan(ws, hs, k).y + hs[k] <= AtlasHeight(ws, hs)
  {
    GlyphSettles(ws, hs, k, |ws|);
  }

  /** A later glyph starts right of an earlier one on its row, or below it. */
  lemma GlyphsApart(ws: seq<nat>, hs: seq<nat>, j: nat, k: nat)
    requires |ws| == |hs| && j < k < |ws|
    ensures Scan(ws, hs, j).x + ws[j] <= Scan(ws, hs, k).x || Scan(ws, hs, j).y + hs[j] <= Scan(ws, hs, k).y
  {
    GlyphSettles(ws, hs, j, k);
  }

  /** Atlas position of pixel (k, l) of glyph j's padded box. */
  function AtlasCell(ws: seq<nat>, hs: seq<nat>, j: nat, k: nat, l: nat): (c: nat)
    requires |ws| == |hs| && j < |ws| && k < hs[j] && l < ws[j]
    ensures c < AtlasHeight(ws, hs) * AtlasWidth(ws, hs)
  {
    GlyphInAtlas(ws, hs, j);
    Cell(AtlasWidth(ws, hs), AtlasHeight(ws, hs), Scan(ws, hs, j).y + k, Scan(ws, hs, j).x + l)
  }

  /** Two different pixels of the layout never share an atlas position. */
  lemma AtlasCellsDistinct(ws: seq<nat>, hs: seq<nat>, j1: nat, k1: nat, l1: nat, j2: nat, k2: nat, l2: nat)
    requires |ws| == |hs| && j1 < |ws| && k1 < hs[j1] && l1 < ws[j1]
    requires j2 < |ws| && k2 < hs[j2] && l2 < ws[j2]
    requires (j1, k1, l1) != (j2, k2, l2)
    ensures AtlasCell(ws, hs, j1, k1, l1) != AtlasCell(ws, hs, j2, k2, l2)
  {
    GlyphInAtlas(ws, hs, j1);
    GlyphInAtlas(ws, hs, j2);
    if AtlasCell(ws, hs, j1, k1, l1) == AtlasCell(ws, hs, j2, k2, l2) {
      CellInjective(AtlasWidth(ws, hs), AtlasHeight(ws, hs), Scan(ws, hs, j1).y + k1, Scan(ws, hs, j1).x + l1,
                    Scan(ws, hs, j2).y + k2, Scan(ws, hs, j2).x + l2);
      if j1 < j2 {
        GlyphsApart(ws, hs, j1, j2);
      } else if j2 < j1 {
        GlyphsApart(ws, hs, j2, j1);
      }
    }
  }

  /* The as-written width overruns. */

  /** The address generate_character_map writes pixel (k, l) of glyph j to, with its own atlas width. */
  function WriteIndexAsWritten(ws: seq<nat>, hs: seq<nat>, j: nat, k: nat, l: nat): nat
    requires |ws| == |hs| && j < |ws|
  {
    (l + Scan(ws, hs, j).x) + (k + Scan(ws, hs, j).y) * AtlasWidthAsWritten(ws, hs)
  }

  /** Unit boxes that do not fill a row advance the pen one pixel each. */
  lemma {:induction false} UnitRun(ws: seq<nat>, hs: seq<nat>, n: nat, m: nat)
    requires |ws| == |hs| && n <= m <= |ws| && m - n < GlyphsPerRow
    requires Scan(ws, hs, n).counter == 0
    requires forall i :: n <= i < m ==> ws[i] == 1 && hs[i] == 1
    ensures Scan(ws, hs, m) == Pen(m - n, m - n, Scan(ws, hs, n).y, if m == n then 0 else 1, Scan(ws, hs, n).maxWidth)
  {
    if m > n {
      UnitRun(ws, hs, n, m - 1);
      var pen := Scan(ws, hs, m - 1);
      assert Scan(ws, hs, m) == PenStep(pen, ws[m - 1], hs[m - 1]);
      assert ws[m - 1] == 1 && hs[m - 1] == 1;
      RowStaysOpen(pen.counter + 1);
    }
  }

  /** A counter from 1 to 9 does not close a row. */
  lemma RowStaysOpen(c: nat)
    requires 1 <= c < GlyphsPerRow
    ensures c % GlyphsPerRow != 0
  {
  }

  /** After r rows of unit boxes the pen is at the start of row r and the rows are 10 wide. */
  lemma {:induction false} UnitRows(ws: seq<nat>, hs: seq<nat>, r: nat)
    requires |ws| == |hs| && GlyphsPerRow * r <= |ws|
    requires forall i :: 0 <= i < GlyphsPerRow * r ==> ws[i] == 1 && hs[i] == 1
    ensures Scan(ws, hs, GlyphsPerRow * r) == Pen(0, 0, r, 0, if r == 0 then 0 else GlyphsPerRow)
  {
    if r > 0 {
      var n := GlyphsPerRow * (r - 1);
      UnitRows(ws, hs, r - 1);
      UnitRun(ws, hs, n, n + 9);
    }
  }

  /**
   * 95 unit boxes except 'z' (the 91st, first of the partial last row), 20
   * pixels wide: the as-written atlas is 10 x 10, and the top-right pixel of
   * 'z' is written at 109, past the end of the 100-byte buffer.
   */
  lemma AtlasWidthOverrun()
    ensures var ws := seq(95, i => if i == 90 then 20 else 1);
            var hs := seq(95, i => 1);
            AtlasWidthAsWritten(ws, hs) == 10 && AtlasHeight(ws, hs) == 10
            && WriteIndexAsWritten(ws, hs, 90, 0, 19) == 109
            && Scan(ws, hs, 90).x + ws[90] <= AtlasWidth(ws, hs)
  {
    var ws := seq(95, i => if i == 90 then 20 else 1);
    var hs := seq(95, i => 1);
    UnitRows(ws, hs, 9);
    assert Scan(ws, hs, 91) == Pen(1, 20, 9, 1, 10);
    assert Scan(ws, hs, 92) == Pen(2, 21, 9, 1, 10);
    assert Scan(ws, hs, 93) == Pen(3, 22, 9, 1, 10);
    assert Scan(ws, hs, 94) == Pen(4, 23, 9, 1, 10);
    assert Scan(ws, hs, 95) == Pen(5, 24, 9, 1, 10);
    GlyphInAtlas(ws, hs, 90);
  }

  /* ---------------------------------------------------------------- */
  /* Glyphs and the atlas contents                                     */
  /* ---------------------------------------------------------------- */

  /** First and last character code of the map, and the number of characters. */
  const FirstCode: nat := 32
  const LastCode: nat := 126
  const CharmapSize: nat := 95

  /** Size of the glyph table: glyphs.resize(255). */
  const GlyphSlots: nat := 255

  /**
   * FontWriter::Glyph: atlas position, bitmap size, texture rectangle and
   * metrics in whole pixels.
   */
  datatype Glyph = Glyph(x: nat, y: nat, width: nat, height: nat,
                         tx1: real, ty1: real, tx2: real, ty2: real,
                         horizontalBearing: int, verticalBearing: int, horizontalAdvance: int)

  /** The default-constructed glyph: every field zero. */
  const BlankGlyph: Glyph := Glyph(0, 0, 0, 0, 0.0, 0.0, 0.0, 0.0, 0, 0, 0)

  /** What FreeType reports for one character: its bitmap and its metrics in 26.6 fixed point. */
  datatype GlyphFace = GlyphFace(bitmap: MonoBitmap, horiBearingX: int, horiBearingY: int, horiAdvance: int)

  predicate AllWellFormed(faces: seq<GlyphFace>)
  {
    forall j :: 0 <= j < |faces| ==> WellFormed(faces[j].bitmap)
  }

  /** C++ `/ 64` on a signed 26.6 value: whole pixels, rounded toward zero. */
  function Div64(v: int): (r: int)
    ensures v >= 0 ==> 0 <= 64 * r <= v < 64 * r + 64
    ensures v < 0 ==> 64 * r - 64 < v <= 64 * r <= 0
  {
    if v >= 0 then v / 64 else -((-v) / 64)
  }

  /** Padded box widths and heights of the characters, in map order. */
  function BoxWidths(faces: seq<GlyphFace>, padding: nat): (ws: seq<nat>)
    ensures |ws| == |faces|
    ensures forall j :: 0 <= j < |faces| ==> ws[j] == PaddedWidth(faces[j].bitmap, padding)
  {
    seq(|faces|, j requires 0 <= j < |faces| => PaddedWidth(faces[j].bitmap, padding))
  }

  function BoxHeights(faces: seq<GlyphFace>, padding: nat): (hs: seq<nat>)
    ensures |hs| == |faces|
    ensures forall j :: 0 <= j < |faces| ==> hs[j] == PaddedHeight(faces[j].bitmap, padding)
  {
    seq(|faces|, j requires 0 <= j < |faces| => PaddedHeight(faces[j].bitmap, padding))
  }

  /** a / b as a texture fraction; the model leaves 0 where the source would divide by zero. */
  function Fraction(a: nat, b: nat): real
  {
    if b == 0 then 0.0 else a as real / b as real
  }

  /** Glyph j of the map once generate_character_map has placed it. */
  function PlacedGlyph(faces: seq<GlyphFace>, padding: nat, j: nat): Glyph
    requires j < |faces|
  {
    var ws := BoxWidths(faces, padding);
    var hs := BoxHeights(faces, padding);
    var pen := Scan(ws, hs, j);
    var atlasWidth := AtlasWidth(ws, hs);
    var atlasHeight := AtlasHeight(ws, hs);
    Glyph(pen.x, pen.y, faces[j].bitmap.width, faces[j].bitmap.rows,
          Fraction(pen.x, atlasWidth), Fraction(pen.y + hs[j], atlasHeight),
          Fraction(pen.x + ws[j], atlasWidth), Fraction(pen.y, atlasHeight),
          Div64(faces[j].horiBearingX), Div64(faces[j].horiBearingY), Div64(faces[j].horiAdvance))
  }

  /** A placed glyph's texture rectangle lies inside the unit square, left edge before right, top before bottom. */
  lemma PlacedGlyphInUnitSquare(faces: seq<GlyphFace>, padding: nat, j: nat)
    requires j < |faces|
    ensures var g := PlacedGlyph(faces, padding, j);
            0.0 <= g.tx1 <= g.tx2 <= 1.0 && 0.0 <= g.ty2 <= g.ty1 <= 1.0
  {
    var ws := BoxWidths(faces, padding);
    var hs := BoxHeights(faces, padding);
    GlyphInAtlas(ws, hs, j);
    FractionMonotone(Scan(ws, hs, j).x, Scan(ws, hs, j).x + ws[j], AtlasWidth(ws, hs));
    FractionMonotone(Scan(ws, hs, j).x + ws[j], AtlasWidth(ws, hs), AtlasWidth(ws, hs));
    FractionMonotone(Scan(ws, hs, j).y, Scan(ws, hs, j).y + hs[j], AtlasHeight(ws, hs));
    FractionMonotone(Scan(ws, hs, j).y + hs[j], AtlasHeight(ws, hs), AtlasHeight(ws, hs));
  }

  lemma FractionMonotone(a: nat, b: nat, c: nat)
    requires a <= b
    ensures 0.0 <= Fraction(a, c) <= Fraction(b, c)
    ensures c > 0 ==> Fraction(c, c) == 1.0
  {
    if c > 0 {
      assert a as real / c as real <= b as real / c as real by {
        assert a as real * (1.0 / c as real) <= b as real * (1.0 / c as real);
      }
    }
  }

  /** The byte the distance field holds for a pixel. */
  function Level(on: bool): bv8 { if on then 255 else 0 }

  /** Pixel (row, col) of the atlas lies in glyph j's padded box. */
  predicate InBox(ws: seq<nat>, hs: seq<nat>, j: nat, row: nat, col: nat)
    requires |ws| == |hs| && j < |ws|
  {
    var pen := Scan(ws, hs, j);
    pen.y <= row < pen.y + hs[j] && pen.x <= col < pen.x + ws[j]
  }

  /** The distance field of a framed bitmap: 255 on the glyph's pixels, 0 elsewhere. */
  ghost predicate IsUnpackedField(field: seq<bv8>, b: MonoBitmap, padding: nat)
    requires WellFormed(b)
  {
    var w := PaddedWidth(b, padding);
    var h := PaddedHeight(b, padding);
    |field| == h * w &&
    forall cy: nat, cx: nat {:trigger Cell(w, h, cy, cx)} :: cy < h && cx < w ==>
      field[Cell(w, h, cy, cx)] == Level(PaddedPixel(b, padding, cy, cx))
  }

  /**
   * The first n glyphs are drawn: each box holds its glyph's distance field,
   * and every pixel outside those boxes is still 0.
   */
  ghost predicate AtlasHolds(texture: seq<bv8>, faces: seq<GlyphFace>, padding: nat, n: nat)
    requires AllWellFormed(faces) && n <= |faces|
  {
    var ws := BoxWidths(faces, padding);
    var hs := BoxHeights(faces, padding);
    var atlasWidth := AtlasWidth(ws, hs);
    var atlasHeight := AtlasHeight(ws, hs);
    |texture| == atlasHeight * atlasWidth
    && (forall j: nat, k: nat, l: nat {:trigger AtlasCell(ws, hs, j, k, l)} :: j < n && k < hs[j] && l < ws[j] ==>
          texture[AtlasCell(ws, hs, j, k, l)] == Level(PaddedPixel(faces[j].bitmap, padding, k, l)))
    && (forall row: nat, col: nat {:trigger Cell(atlasWidth, atlasHeight, row, col)} ::
          row < atlasHeight && col < atlasWidth && (forall j: nat :: j < n ==> !InBox(ws, hs, j, row, col)) ==>
          texture[Cell(atlasWidth, atlasHeight, row, col)] == 0)
  }

  lemma AtlasHoldsNothing(texture: seq<bv8>, faces: seq<GlyphFace>, padding: nat)
    requires AllWellFormed(faces)
    requires |texture| == AtlasHeight(BoxWidths(faces, padding), BoxHeights(faces, padding))
                       * AtlasWidth(BoxWidths(faces, padding), BoxHeights(faces, padding))
    requires forall i :: 0 <= i < |texture| ==> texture[i] == 0
    ensures AtlasHolds(texture, faces, padding, 0)
  {
  }

  /** A pixel of an earlier glyph j < n lies outside box n, so the copy keeps it. */
  lemma BlitKeepsEarlier(before: seq<bv8>, after: seq<bv8>, field: seq<bv8>, faces: seq<GlyphFace>, padding: nat,
                         n: nat, j: nat, k: nat, l: nat)
    requires AllWellFormed(faces) && j < n < |faces|
    requires AtlasHolds(before, faces, padding, n) && |after| == |before|
    requires |field| == BoxHeights(faces, padding)[n] * BoxWidths(faces, padding)[n]
    requires BlitOf(after, before, field, BoxWidths(faces, padding), BoxHeights(faces, padding), n)
    requires k < BoxHeights(faces, padding)[j] && l < BoxWidths(faces, padding)[j]
    ensures after[AtlasCell(BoxWidths(faces, padding), BoxHeights(faces, padding), j, k, l)]
            == Level(PaddedPixel(faces[j].bitmap, padding, k, l))
  {
    var ws := BoxWidths(faces, padding);
    var hs := BoxHeights(faces, padding);
    GlyphInAtlas(ws, hs, j);
    GlyphsApart(ws, hs, j, n);
    assert !InBox(ws, hs, n, Scan(ws, hs, j).y + k, Scan(ws, hs, j).x + l);
  }

  /** A pixel of box n takes the field's value. */
  lemma BlitWritesBox(before: seq<bv8>, after: seq<bv8>, field: seq<bv8>, faces: seq<GlyphFace>, padding: nat,
                      n: nat, k: nat, l: nat)
    requires AllWellFormed(faces) && n < |faces| && |after| == |before|
    requires |before| == AtlasHeight(BoxWidths(faces, padding), BoxHeights(faces, padding))
                         * AtlasWidth(BoxWidths(faces, padding), BoxHeights(faces, padding))
    requires IsUnpackedField(field, faces[n].bitmap, padding)
    requires BlitOf(after, before, field, BoxWidths(faces, padding), BoxHeights(faces, padding), n)
    requires k < BoxHeights(faces, padding)[n] && l < BoxWidths(faces, padding)[n]
    ensures after[AtlasCell(BoxWidths(faces, padding), BoxHeights(faces, padding), n, k, l)]
            == Level(PaddedPixel(faces[n].bitmap, padding, k, l))
  {
    var ws := BoxWidths(faces, padding);
    var hs := BoxHeights(faces, padding);
    GlyphInAtlas(ws, hs, n);
    assert InBox(ws, hs, n, Scan(ws, hs, n).y + k, Scan(ws, hs, n).x + l);
  }

  /** Copying glyph n's field into its box, and nothing else, draws one more glyph. */
  lemma AtlasStep(before: seq<bv8>, after: seq<bv8>, field: seq<bv8>, faces: seq<GlyphFace>, padding: nat, n: nat)
    requires AllWellFormed(faces) && n < |faces|
    requires AtlasHolds(before, faces, padding, n) && |after| == |before|
    requires IsUnpackedField(field, faces[n].bitmap, padding)
    requires BlitOf(after, before, field, BoxWidths(faces, padding), BoxHeights(faces, padding), n)
    ensures AtlasHolds(after, faces, padding, n + 1)
  {
    var ws := BoxWidths(faces, padding);
    var hs := BoxHeights(faces, padding);
    var atlasWidth := AtlasWidth(ws, hs);
    var atlasHeight := AtlasHeight(ws, hs);
    forall j: nat, k: nat, l: nat | j < n + 1 && k < hs[j] && l < ws[j]
      ensures after[AtlasCell(ws, hs, j, k, l)] == Level(PaddedPixel(faces[j].bitmap, padding, k, l))
    {
      if j < n {
        BlitKeepsEarlier(before, after, field, faces, padding, n, j, k, l);
      } else {
        BlitWritesBox(before, after, field, faces, padding, n, k, l);
      }
    }
    forall row: nat, col: nat | row < atlasHeight && col < atlasWidth && (forall j: nat :: j < n + 1 ==> !InBox(ws, hs, j, row, col))
      ensures after[Cell(atlasWidth, atlasHeight, row, col)] == 0
    {
      assert !InBox(ws, hs, n, row, col);
    }
  }

  /**
   * after is before with glyph n's box overwritten by the field: the pixel
   * at (row, col) of the box takes the field's pixel (row - y, col - x).
   */
  ghost predicate BlitOf(after: seq<bv8>, before: seq<bv8>, field: seq<bv8>, ws: seq<nat>, hs: seq<nat>, n: nat)
    requires |ws| == |hs| && n < |ws| && |field| == hs[n] * ws[n]
    requires |after| == |before| == AtlasHeight(ws, hs) * AtlasWidth(ws, hs)
  {
    var atlasWidth := AtlasWidth(ws, hs);
    var atlasHeight := AtlasHeight(ws, hs);
    forall row: nat, col: nat {:trigger Cell(atlasWidth, atlasHeight, row, col)} ::
      row < atlasHeight && col < atlasWidth ==>
      after[Cell(atlasWidth, atlasHeight, row, col)] ==
        if InBox(ws, hs, n, row, col)
        then field[Cell(ws[n], hs[n], row - Scan(ws, hs, n).y, col - Scan(ws, hs, n).x)]
        else before[Cell(atlasWidth, atlasHeight, row, col)]
  }

  /** The copy into glyph n's box has reached box pixel (k, l). */
  ghost predicate BlitUpTo(after: seq<bv8>, before: seq<bv8>, field: seq<bv8>, ws: seq<nat>, hs: seq<nat>, n: nat, k: int, l: int)
    requires |ws| == |hs| && n < |ws| && |field| == hs[n] * ws[n]
    requires |after| == |before| == AtlasHeight(ws, hs) * AtlasWidth(ws, hs)
  {
    var atlasWidth := AtlasWidth(ws, hs);
    var atlasHeight := AtlasHeight(ws, hs);
    var pen := Scan(ws, hs, n);
    forall row: nat, col: nat {:trigger Cell(atlasWidth, atlasHeight, row, col)} ::
      row < atlasHeight && col < atlasWidth ==>
      after[Cell(atlasWidth, atlasHeight, row, col)] ==
        if InBox(ws, hs, n, row, col) && Before(row - pen.y, col - pen.x, k, l)
        then field[Cell(ws[n], hs[n], row - pen.y, col - pen.x)]
        else before[Cell(atlasWidth, atlasHeight, row, col)]
  }

  lemma BlitStep(after: seq<bv8>, before: seq<bv8>, field: seq<bv8>, ws: seq<nat>, hs: seq<nat>, n: nat, k: nat, l: nat)
    requires |ws| == |hs| && n < |ws| && |field| == hs[n] * ws[n] && k < hs[n] && l < ws[n]
    requires |after| == |before| == AtlasHeight(ws, hs) * AtlasWidth(ws, hs)
    requires BlitUpTo(after, before, field, ws, hs, n, k, l)
    ensures Scan(ws, hs, n).y + k < AtlasHeight(ws, hs) && Scan(ws, hs, n).x + l < AtlasWidth(ws, hs)
    ensures BlitUpTo(after[Cell(AtlasWidth(ws, hs), AtlasHeight(ws, hs), Scan(ws, hs, n).y + k, Scan(ws, hs, n).x + l)
                           := field[Cell(ws[n], hs[n], k, l)]],
                     before, field, ws, hs, n, k, l + 1)
  {
    GlyphInAtlas(ws, hs, n);
    var atlasWidth := AtlasWidth(ws, hs);
    var atlasHeight := AtlasHeight(ws, hs);
    var pen := Scan(ws, hs, n);
    var c := Cell(atlasWidth, atlasHeight, pen.y + k, pen.x + l);
    var after' := after[c := field[Cell(ws[n], hs[n], k, l)]];
    forall row: nat, col: nat | row < atlasHeight && col < atlasWidth
      ensures after'[Cell(atlasWidth, atlasHeight, row, col)] ==
        if InBox(ws, hs, n, row, col) && Before(row - pen.y, col - pen.x, k, l + 1)
        then field[Cell(ws[n], hs[n], row - pen.y, col - pen.x)]
        else before[Cell(atlasWidth, atlasHeight, row, col)]
    {
      BlitStepCell(after, before, field, ws, hs, n, k, l, row, col);
    }
  }

  /** BlitStep at atlas pixel (row, col): only the pixel (k, l) of the box changes. */
  lemma BlitStepCell(after: seq<bv8>, before: seq<bv8>, field: seq<bv8>, ws: seq<nat>, hs: seq<nat>, n: nat,
                     k: nat, l: nat, row: nat, col: nat)
    requires |ws| == |hs| && n < |ws| && |field| == hs[n] * ws[n] && k < hs[n] && l < ws[n]
    requires |after| == |before| == AtlasHeight(ws, hs) * AtlasWidth(ws, hs)
    requires Scan(ws, hs, n).y + k < AtlasHeight(ws, hs) && Scan(ws, hs, n).x + l < AtlasWidth(ws, hs)
    requires BlitUpTo(after, before, field, ws, hs, n, k, l)
    requires row < AtlasHeight(ws, hs) && col < AtlasWidth(ws, hs)
    ensures var pen := Scan(ws, hs, n);
            var atlasWidth := AtlasWidth(ws, hs);
            var atlasHeight := AtlasHeight(ws, hs);
            after[Cell(atlasWidth, atlasHeight, pen.y + k, pen.x + l) := field[Cell(ws[n], hs[n], k, l)]]
                 [Cell(atlasWidth, atlasHeight, row, col)]
            == if InBox(ws, hs, n, row, col) && Before(row - pen.y, col - pen.x, k, l + 1)
               then field[Cell(ws[n], hs[n], row - pen.y, col - pen.x)]
               else before[Cell(atlasWidth, atlasHeight, row, col)]
  {
    var pen := Scan(ws, hs, n);
    var atlasWidth := AtlasWidth(ws, hs);
    var atlasHeight := AtlasHeight(ws, hs);
    if Cell(atlasWidth, atlasHeight, row, col) == Cell(atlasWidth, atlasHeight, pen.y + k, pen.x + l) {
      CellInjective(atlasWidth, atlasHeight, row, col, pen.y + k, pen.x + l);
    }
  }

  /** The two copy loops of generate_character_map for glyph n: its field into its box. */
  method Blit(atlas: array<bv8>, field: seq<bv8>, ws: seq<nat>, hs: seq<nat>, n: nat)
    requires |ws| == |hs| && n < |ws| && |field| == hs[n] * ws[n]
    requires atlas.Length == AtlasHeight(ws, hs) * AtlasWidth(ws, hs)
    modifies atlas
    ensures BlitOf(atlas[..], old(atlas[..]), field, ws, hs, n)
  {
    ghost var before := atlas[..];
    var atlasWidth := AtlasWidth(ws, hs);
    var atlasHeight := AtlasHeight(ws, hs);
    var gx := Scan(ws, hs, n).x;
    var gy := Scan(ws, hs, n).y;
    var width := ws[n];
    var height := hs[n];
    var k: nat := 0;
    while k < height
      invariant k <= height
      invariant BlitUpTo(atlas[..], before, field, ws, hs, n, k, 0)
    {
      var l: nat := 0;
      while l < width
        invariant l <= width
        invariant BlitUpTo(atlas[..], before, field, ws, hs, n, k, l)
      {
        BlitStep(atlas[..], before, field, ws, hs, n, k, l);
        atlas[Cell(atlasWidth, atlasHeight, k + gy, l + gx)] := field[Cell(width, height, k, l)];
        l := l + 1;
      }
      k := k + 1;
    }
  }

  /** Body of the placing loop for glyph n: its distance field, copied into its box. */
  method DrawGlyph(atlas: array<bv8>, faces: seq<GlyphFace>, padding: nat, bitmap: seq<bool>, n: nat)
    requires AllWellFormed(faces) && n < |faces|
    requires IsUnpacked(bitmap, faces[n].bitmap, padding)
    requires AtlasHolds(atlas[..], faces, padding, n)
    modifies atlas
    ensures AtlasHolds(atlas[..], faces, padding, n + 1)
  {
    var ws := BoxWidths(faces, padding);
    var hs := BoxHeights(faces, padding);
    var width := ws[n];
    var height := hs[n];
    var distanceField := new bv8[width * height](_ => 0);
    CalculateDistanceField(distanceField, bitmap, width, height);
    var field := distanceField[..];
    assert IsUnpackedField(field, faces[n].bitmap, padding);
    ghost var before := atlas[..];
    Blit(atlas, field, ws, hs, n);
    AtlasStep(before, atlas[..], field, faces, padding, n);
  }

  /* ---------------------------------------------------------------- */
  /* Quads                                                             */
  /* ---------------------------------------------------------------- */

  /** The six indices of the two triangles of the quad whose corners start at vertex v. */
  function QuadCorners(v: nat): seq<nat>
  {
    [v, v + 1, v + 2, v, v + 2, v + 3]
  }

  /** Indices of n quads whose corners are the vertices from `first` on, four per quad. */
  function QuadIndices(first: nat, n: nat): (ix: seq<nat>)
    ensures |ix| == 6 * n
  {
    if n == 0 then [] else QuadIndices(first, n - 1) + QuadCorners(first + 4 * (n - 1))
  }

  /** Every index names one of the quads' own vertices. */
  lemma {:induction false} QuadIndicesInRange(first: nat, n: nat)
    ensures forall i :: 0 <= i < 6 * n ==> first <= QuadIndices(first, n)[i] < first + 4 * n
  {
    if n > 0 {
      QuadIndicesInRange(first, n - 1);
      var ix := QuadIndices(first, n);
      assert ix == QuadIndices(first, n - 1) + QuadCorners(first + 4 * (n - 1));
    }
  }

  lemma AppendAssociative(a: seq<nat>, b: seq<nat>, c: seq<nat>)
    ensures a + (b + c) == (a + b) + c
  {
  }

  /** Quads drawn in two batches index the same vertices as one batch. */
  lemma {:induction false} QuadIndicesSplit(first: nat, a: nat, b: nat)
    ensures QuadIndices(first, a) + QuadIndices(first + 4 * a, b) == QuadIndices(first, a + b)
  {
    if b > 0 {
      QuadIndicesSplit(first, a, b - 1);
      var front := QuadIndices(first, a);
      var middle := QuadIndices(first + 4 * a, b - 1);
      var last := QuadCorners(first + 4 * (a + b - 1));
      assert first + 4 * a + 4 * (b - 1) == first + 4 * (a + b - 1);
      assert QuadIndices(first + 4 * a, b) == middle + last;
      AppendAssociative(front, middle, last);
    }
  }

  /** A byte of std::string as the glyph index `(unsigned int)line.at(i)`: char is signed, so bytes from 128 on wrap. */
  type Byte = b: int | 0 <= b < 256

  function CharCode(b: Byte): nat
  {
    if b < 128 then b else Wrap32(b - 256)
  }

  /** The glyph table has an entry for a byte exactly when the byte is ASCII. */
  lemma CharCodeInTable(b: Byte)
    ensures CharCode(b) < GlyphSlots <==> b < 128
    ensures b < 128 ==> CharCode(b) == b
  {
  }

  /** Every byte of the line names an entry of the glyph table. */
  predicate Renderable(glyphs: seq<Glyph>, line: seq<Byte>)
  {
    forall i :: 0 <= i < |line| ==> CharCode(line[i]) < |glyphs|
  }

  /** The point size text is drawn at. */
  const FontPoints: real := 8.0

  /** base_font_size as the constructor sets it. */
  const BaseFontSize: nat := 32

  /** glyph height - vertical_bearing as render_line computes it: unsigned, so it wraps when the bearing is larger. */
  function DropAsWritten(g: Glyph): nat
  {
    Wrap32(g.height - g.verticalBearing)
  }

  /** The evidently intended drop of the glyph's bottom below the baseline, negative for glyphs above it. */
  function Drop(g: Glyph): int
  {
    g.height - g.verticalBearing
  }

  /** The two agree unless the glyph lies wholly above the baseline; a 2-pixel glyph 10 pixels up drops 4294967288. */
  lemma DropWraps(g: Glyph)
    ensures 0 <= g.verticalBearing <= g.height < U32Limit ==> DropAsWritten(g) == Drop(g)
    ensures g.height < g.verticalBearing <= g.height + U32Limit ==> DropAsWritten(g) == Drop(g) + U32Limit
    ensures g.height == 2 && g.verticalBearing == 10 ==> DropAsWritten(g) == 4294967288
  {
  }

  /** The four corners of a character's quad with the pen at (wx, wy). */
  function GlyphQuad(g: Glyph, scale: real, wx: real, wy: real): seq<Vec2>
  {
    var fx := wx + g.horizontalBearing as real * scale;
    var fy := wy - Drop(g) as real * scale;
    var w := g.width as real * scale;
    var h := g.height as real * scale;
    [Vec2(fx, fy), Vec2(fx + w, fy), Vec2(fx + w, fy + h), Vec2(fx, fy + h)]
  }

  /** The quad as render_line places it, with the wrapped drop. */
  function GlyphQuadAsWritten(g: Glyph, scale: real, wx: real, wy: real): seq<Vec2>
  {
    var fx := wx + g.horizontalBearing as real * scale;
    var fy := wy - DropAsWritten(g) as real * scale;
    var w := g.width as real * scale;
    var h := g.height as real * scale;
    [Vec2(fx, fy), Vec2(fx + w, fy), Vec2(fx + w, fy + h), Vec2(fx, fy + h)]
  }

  /**
   * The quad is the glyph's box: bearing right of the pen, its top the
   * vertical bearing above the baseline, width by height at the scale.
   * As written, a glyph wholly above the baseline lands 2^32 pixels lower.
   */
  lemma GlyphQuadOnBaseline(g: Glyph, scale: real, wx: real, wy: real)
    ensures var q := GlyphQuad(g, scale, wx, wy);
            q[0].x == q[3].x == wx + g.horizontalBearing as real * scale
            && q[1].x == q[2].x == q[0].x + g.width as real * scale
            && q[2].y == q[3].y == wy + g.verticalBearing as real * scale
            && q[0].y == q[1].y == q[3].y - g.height as real * scale
    ensures g.height < g.verticalBearing <= g.height + U32Limit ==>
            GlyphQuadAsWritten(g, scale, wx, wy)[3].y == wy + g.verticalBearing as real * scale - U32Limit as real * scale
  {
    DropWraps(g);
  }

  /** The texture rectangle of a character, corner for corner with its quad. */
  function GlyphTexture(g: Glyph): seq<Vec2>
  {
    [Vec2(g.tx1, g.ty1), Vec2(g.tx2, g.ty1), Vec2(g.tx2, g.ty2), Vec2(g.tx1, g.ty2)]
  }

  /** The pen's x after the line's characters: each advances it by its horizontal advance. */
  function PenX(glyphs: seq<Glyph>, scale: real, x: real, line: seq<Byte>): real
    requires Renderable(glyphs, line)
  {
    if |line| == 0 then x
    else PenX(glyphs, scale, x, line[..|line| - 1]) + Advance(glyphs[CharCode(line[|line| - 1])], scale)
  }

  /** How far a character moves the pen: its horizontal advance at the scale. */
  function Advance(g: Glyph, scale: real): real
  {
    g.horizontalAdvance as real * scale
  }

  /** The quads of a line, four corners per character. */
  function LineQuads(glyphs: seq<Glyph>, scale: real, x: real, y: real, line: seq<Byte>): (ps: seq<Vec2>)
    requires Renderable(glyphs, line)
    ensures |ps| == 4 * |line|
  {
    if |line| == 0 then []
    else
      var prefix := line[..|line| - 1];
      LineQuads(glyphs, scale, x, y, prefix)
      + GlyphQuad(glyphs[CharCode(line[|line| - 1])], scale, PenX(glyphs, scale, x, prefix), y)
  }

  /** A glyph whose bottom is at or below the baseline: there render_line's unsigned drop does not wrap. */
  predicate ReachesBaseline(g: Glyph)
  {
    0 <= Drop(g) < U32Limit
  }

  /** The quads of a line as render_line places them, with the wrapped drop. */
  function LineQuadsAsWritten(glyphs: seq<Glyph>, scale: real, x: real, y: real, line: seq<Byte>): (ps: seq<Vec2>)
    requires Renderable(glyphs, line)
    ensures |ps| == 4 * |line|
  {
    if |line| == 0 then []
    else
      var prefix := line[..|line| - 1];
      LineQuadsAsWritten(glyphs, scale, x, y, prefix)
      + GlyphQuadAsWritten(glyphs[CharCode(line[|line| - 1])], scale, PenX(glyphs, scale, x, prefix), y)
  }

  /** At a positive scale, a glyph's corrected quad is the one render_line places exactly when it reaches the baseline. */
  lemma GlyphQuadAgrees(g: Glyph, scale: real, wx: real, wy: real)
    requires scale > 0.0
    ensures GlyphQuadAsWritten(g, scale, wx, wy) == GlyphQuad(g, scale, wx, wy) <==> ReachesBaseline(g)
  {
    var qa, qb := GlyphQuadAsWritten(g, scale, wx, wy), GlyphQuad(g, scale, wx, wy);
    if qa == qb {
      assert qa[0].y == qb[0].y;
      assert DropAsWritten(g) as real * scale == Drop(g) as real * scale;
      assert DropAsWritten(g) == Drop(g);
    }
  }

  /**
   * At a positive scale, the corrected quads of a line are the ones
   * render_line places exactly when every character of the line reaches
   * the baseline.
   */
  lemma {:induction false} LineQuadsAgree(glyphs: seq<Glyph>, scale: real, x: real, y: real, line: seq<Byte>)
    requires Renderable(glyphs, line) && scale > 0.0
    ensures LineQuadsAsWritten(glyphs, scale, x, y, line) == LineQuads(glyphs, scale, x, y, line)
            <==> forall i :: 0 <= i < |line| ==> ReachesBaseline(glyphs[CharCode(line[i])])
  {
    if |line| > 0 {
      var prefix := line[..|line| - 1];
      var g := glyphs[CharCode(line[|line| - 1])];
      var pen := PenX(glyphs, scale, x, prefix);
      LineQuadsAgree(glyphs, scale, x, y, prefix);
      GlyphQuadAgrees(g, scale, pen, y);
      ConcatEqual(LineQuadsAsWritten(glyphs, scale, x, y, prefix), GlyphQuadAsWritten(g, scale, pen, y),
                  LineQuads(glyphs, scale, x, y, prefix), GlyphQuad(g, scale, pen, y));
      AllSplit(glyphs, line, prefix);
    }
  }

  /** Every character of a non-empty line reaches the baseline exactly when those before the last and the last one do. */
  lemma AllSplit(glyphs: seq<Glyph>, line: seq<Byte>, prefix: seq<Byte>)
    requires Renderable(glyphs, line) && |line| > 0 && prefix == line[..|line| - 1]
    ensures (forall i :: 0 <= i < |line| ==> ReachesBaseline(glyphs[CharCode(line[i])]))
            <==> (forall i :: 0 <= i < |prefix| ==> ReachesBaseline(glyphs[CharCode(prefix[i])]))
                 && ReachesBaseline(glyphs[CharCode(line[|line| - 1])])
  {
  }

  /** Two concatenations with equally long first parts are equal exactly when both parts are. */
  lemma ConcatEqual<T>(a: seq<T>, b: seq<T>, a': seq<T>, b': seq<T>)
    requires |a| == |a'|
    ensures a + b == a' + b' <==> a == a' && b == b'
  {
    if a + b == a' + b' {
      assert a == (a + b)[..|a|] && a' == (a' + b')[..|a|];
      assert b == (a + b)[|a|..] && b' == (a' + b')[|a|..];
    }
  }

  /** The texture rectangles of a line's characters. */
  function LineTexture(glyphs: seq<Glyph>, line: seq<Byte>): (ts: seq<Vec2>)
    requires Renderable(glyphs, line)
    ensures |ts| == 4 * |line|
  {
    if |line| == 0 then []
    else LineTexture(glyphs, line[..|line| - 1]) + GlyphTexture(glyphs[CharCode(line[|line| - 1])])
  }

  /** One more character of a line: its quad at the pen, then the pen moves on by its advance. */
  lemma LineStep(glyphs: seq<Glyph>, scale: real, x: real, y: real, line: seq<Byte>, i: nat)
    requires Renderable(glyphs, line) && i < |line|
    ensures var g := glyphs[CharCode(line[i])];
            var pen := PenX(glyphs, scale, x, line[..i]);
            LineQuads(glyphs, scale, x, y, line[..i + 1]) == LineQuads(glyphs, scale, x, y, line[..i]) + GlyphQuad(g, scale, pen, y)
            && LineTexture(glyphs, line[..i + 1]) == LineTexture(glyphs, line[..i]) + GlyphTexture(g)
            && PenX(glyphs, scale, x, line[..i + 1]) == pen + Advance(g, scale)
  {
    assert line[..i + 1][..i] == line[..i];
  }

  /** One pass of render_line's loop: character i's quad, texture rectangle and indices, then the pen moves on. */
  method AppendChar(glyphs: seq<Glyph>, scale: real, x: real, y: real, line: seq<Byte>, i: nat,
                    ps: seq<Vec2>, ts: seq<Vec2>, ix: seq<nat>, wx: real,
                    ghost positions: seq<Vec2>, ghost textureCoordinates: seq<Vec2>, ghost q: nat)
    returns (ps': seq<Vec2>, ts': seq<Vec2>, ix': seq<nat>, wx': real)
    requires Renderable(glyphs, line) && i < |line|
    requires |ts| == |ps| == 4 * q && ix == QuadIndices(0, q)
    requires wx == PenX(glyphs, scale, x, line[..i])
    requires ps == positions + LineQuads(glyphs, scale, x, y, line[..i])
    requires ts == textureCoordinates + LineTexture(glyphs, line[..i])
    ensures |ts'| == |ps'| == 4 * (q + 1) && ix' == QuadIndices(0, q + 1)
    ensures wx' == PenX(glyphs, scale, x, line[..i + 1])
    ensures ps' == positions + LineQuads(glyphs, scale, x, y, line[..i + 1])
    ensures ts' == textureCoordinates + LineTexture(glyphs, line[..i + 1])
  {
    var g := glyphs[CharCode(line[i])];
    LineStep(glyphs, scale, x, y, line, i);
    var corners := GlyphQuad(g, scale, wx, y);
    ps' := ps + corners;
    ts' := ts + GlyphTexture(g);
    ix' := ix + QuadCorners(|ps'| - 4);
    wx' := wx + Advance(g, scale);
  }

  /**
   * The loop of render_line: the line's quads, texture rectangles and
   * indices appended to vertex buffers that already hold `quads` quads.
   */
  method AppendLine(glyphs: seq<Glyph>, scale: real, x: real, y: real, line: seq<Byte>,
                    positions: seq<Vec2>, textureCoordinates: seq<Vec2>, indices: seq<nat>, ghost quads: nat)
    returns (ps: seq<Vec2>, ts: seq<Vec2>, ix: seq<nat>)
    requires Renderable(glyphs, line)
    requires |textureCoordinates| == |positions| == 4 * quads && indices == QuadIndices(0, quads)
    ensures ps == positions + LineQuads(glyphs, scale, x, y, line)
    ensures ts == textureCoordinates + LineTexture(glyphs, line)
    ensures ix == QuadIndices(0, quads + |line|)
  {
    var wx := x;
    ps, ts, ix := positions, textureCoordinates, indices;
    ghost var q := quads;
    var i := 0;
    while i < |line|
      invariant i <= |line| && q == quads + i
      invariant |ts| == |ps| == 4 * q && ix == QuadIndices(0, q)
      invariant wx == PenX(glyphs, scale, x, line[..i])
      invariant ps == positions + LineQuads(glyphs, scale, x, y, line[..i])
      invariant ts == textureCoordinates + LineTexture(glyphs, line[..i])
    {
      ps, ts, ix, wx := AppendChar(glyphs, scale, x, y, line, i, ps, ts, ix, wx, positions, textureCoordinates, q);
      q := q + 1;
      i := i + 1;
    }
    assert line[..|line|] == line;
  }

  /** A line of text placed at (x, y), as add_line stores it. */
  datatype TextLine = TextLine(x: real, y: real, line: seq<Byte>)

  predicate AllRenderable(glyphs: seq<Glyph>, lines: seq<TextLine>)
  {
    forall i :: 0 <= i < |lines| ==> Renderable(glyphs, lines[i].line)
  }

  /** Number of characters over all lines. */
  function TotalChars(lines: seq<TextLine>): nat
  {
    if |lines| == 0 then 0 else TotalChars(lines[..|lines| - 1]) + |lines[|lines| - 1].line|
  }

  /** The quads of all lines, in order. */
  function LinesQuads(glyphs: seq<Glyph>, scale: real, lines: seq<TextLine>): (ps: seq<Vec2>)
    requires AllRenderable(glyphs, lines)
    ensures |ps| == 4 * TotalChars(lines)
  {
    if |lines| == 0 then []
    else
      var t := lines[|lines| - 1];
      LinesQuads(glyphs, scale, lines[..|lines| - 1]) + LineQuads(glyphs, scale, t.x, t.y, t.line)
  }

  function LinesTexture(glyphs: seq<Glyph>, lines: seq<TextLine>): (ts: seq<Vec2>)
    requires AllRenderable(glyphs, lines)
    ensures |ts| == 4 * TotalChars(lines)
  {
    if |lines| == 0 then []
    else LinesTexture(glyphs, lines[..|lines| - 1]) + LineTexture(glyphs, lines[|lines| - 1].line)
  }

  /** One more line: its quads and texture rectangles follow those of the lines before it. */
  lemma LinesStep(glyphs: seq<Glyph>, scale: real, lines: seq<TextLine>, i: nat)
    requires AllRenderable(glyphs, lines) && i < |lines|
    ensures var t := lines[i];
            LinesQuads(glyphs, scale, lines[..i + 1]) == LinesQuads(glyphs, scale, lines[..i]) + LineQuads(glyphs, scale, t.x, t.y, t.line)
            && LinesTexture(glyphs, lines[..i + 1]) == LinesTexture(glyphs, lines[..i]) + LineTexture(glyphs, t.line)
            && TotalChars(lines[..i + 1]) == TotalChars(lines[..i]) + |t.line|
  {
    assert lines[..i + 1][..i] == lines[..i];
  }

  /** The quad showing the whole atlas at 1:1, 10 pixels in from the right edge of the screen. */
  function CharmapQuad(screenWidth: real, textureWidth: nat, textureHeight: nat): seq<Vec2>
  {
    var mx := screenWidth - textureWidth as real - 10.0;
    [Vec2(mx, 0.0), Vec2(mx + textureWidth as real, 0.0),
     Vec2(mx + textureWidth as real, textureHeight as real), Vec2(mx, textureHeight as real)]
  }

  /** The atlas quad spans the texture's size and ends 10 pixels before the screen's right edge. */
  lemma CharmapQuadPlacement(screenWidth: real, textureWidth: nat, textureHeight: nat)
    ensures var q := CharmapQuad(screenWidth, textureWidth, textureHeight);
            q[1].x == q[2].x == screenWidth - 10.0 && q[1].x - q[0].x == textureWidth as real
            && q[0].y == q[1].y == 0.0 && q[2].y == q[3].y == textureHeight as real
  {
  }

  /** The full texture, flipped vertically: (0, 1) at the atlas quad's first corner. */
  const CharmapTexture: seq<Vec2> := [Vec2(0.0, 1.0), Vec2(1.0, 1.0), Vec2(1.0, 0.0), Vec2(0.0, 0.0)]

  /* ---------------------------------------------------------------- */
  /* The writer                                                        */
  /* ---------------------------------------------------------------- */

  /** The metrics generate_character_map copies from a face into its glyph. */
  predicate Measured(g: Glyph, face: GlyphFace)
  {
    g.width == face.bitmap.width && g.height == face.bitmap.rows
    && g.horizontalBearing == Div64(face.horiBearingX) && g.verticalBearing == Div64(face.horiBearingY)
    && g.horizontalAdvance == Div64(face.horiAdvance)
  }

  /** Appending the next character's unpacked bitmap keeps every bitmap unpacked from its face. */
  lemma UnpackedAppend(bitmaps: seq<seq<bool>>, unpacked: seq<bool>, faces: seq<GlyphFace>, padding: nat)
    requires |bitmaps| < |faces| && AllWellFormed(faces)
    requires forall j :: 0 <= j < |bitmaps| ==> IsUnpacked(bitmaps[j], faces[j].bitmap, padding)
    requires IsUnpacked(unpacked, faces[|bitmaps|].bitmap, padding)
    ensures forall j :: 0 <= j < |bitmaps| + 1 ==> IsUnpacked((bitmaps + [unpacked])[j], faces[j].bitmap, padding)
  {
    forall j | 0 <= j < |bitmaps| + 1
      ensures IsUnpacked((bitmaps + [unpacked])[j], faces[j].bitmap, padding)
    {
      if j < |bitmaps| {
        assert (bitmaps + [unpacked])[j] == bitmaps[j];
      }
    }
  }

  /**
   * The pen updates of the measuring loop for one glyph of padded size width
   * by height: the counter, the open row's width and height, and on every
   * tenth glyph the closed row's contribution to the atlas size.
   */
  method MovePen(counter: nat, tempX: nat, tempY: nat, imgWidth: nat, imgHeight: nat, width: nat, height: nat)
    returns (counter': nat, tempX': nat, tempY': nat, imgWidth': nat, imgHeight': nat)
    ensures Pen(counter', tempX', imgHeight', tempY', imgWidth')
            == PenStep(Pen(counter, tempX, imgHeight, tempY, imgWidth), width, height)
  {
    counter', tempX', tempY', imgWidth', imgHeight' := counter + 1, tempX + width, NatMax(tempY, height), imgWidth, imgHeight;
    if counter' % GlyphsPerRow == 0 {
      counter' := 0;
      imgWidth' := NatMax(imgWidth', tempX');
      imgHeight' := imgHeight' + tempY';
      tempX' := 0;
      tempY' := 0;
    }
  }

  /**
   * The state of the measuring loop after n characters: the pen where Scan
   * puts it, their bitmaps unpacked, their metrics in their glyphs, and every
   * other glyph as in table.
   */
  ghost predicate Measuring(faces: seq<GlyphFace>, padding: nat, table: seq<Glyph>, glyphs: seq<Glyph>,
                            bitmaps: seq<seq<bool>>, n: nat,
                            counter: nat, tempX: nat, tempY: nat, imgWidth: nat, imgHeight: nat)
  {
    |faces| == CharmapSize && AllWellFormed(faces) && n <= CharmapSize
    && |table| == |glyphs| == GlyphSlots && |bitmaps| == n
    && (var pen := Scan(BoxWidths(faces, padding), BoxHeights(faces, padding), n);
        counter == pen.counter && tempX == pen.x && tempY == pen.rowHeight
        && imgWidth == pen.maxWidth && imgHeight == pen.y)
    && (forall j :: 0 <= j < n ==> IsUnpacked(bitmaps[j], faces[j].bitmap, padding))
    && (forall c :: FirstCode <= c < FirstCode + n ==> Measured(glyphs[c], faces[c - FirstCode]))
    && (forall c :: 0 <= c < GlyphSlots && !(FirstCode <= c < FirstCode + n) ==> glyphs[c] == table[c])
  }

  /** One round of the measuring loop: character code's metrics into its glyph, its bitmap unpacked, the pen moved on. */
  method MeasureNext(faces: seq<GlyphFace>, padding: nat, ghost table: seq<Glyph>, glyphs: seq<Glyph>,
                     bitmaps: seq<seq<bool>>, code: nat,
                     counter: nat, tempX: nat, tempY: nat, imgWidth: nat, imgHeight: nat)
    returns (glyphs': seq<Glyph>, bitmaps': seq<seq<bool>>,
             counter': nat, tempX': nat, tempY': nat, imgWidth': nat, imgHeight': nat)
    requires FirstCode <= code <= LastCode
    requires Measuring(faces, padding, table, glyphs, bitmaps, code - FirstCode,
                       counter, tempX, tempY, imgWidth, imgHeight)
    ensures Measuring(faces, padding, table, glyphs', bitmaps', code - FirstCode + 1,
                      counter', tempX', tempY', imgWidth', imgHeight')
  {
    var face := faces[code - FirstCode];
    var width := face.bitmap.width + 2 * padding;
    var height := face.bitmap.rows + 2 * padding;
    glyphs' := glyphs[code := glyphs[code].(width := face.bitmap.width, height := face.bitmap.rows,
                                            horizontalBearing := Div64(face.horiBearingX),
                                            verticalBearing := Div64(face.horiBearingY),
                                            horizontalAdvance := Div64(face.horiAdvance))];
    var unpacked := UnpackMonoBitmap(face.bitmap, padding);
    UnpackedAppend(bitmaps, unpacked, faces, padding);
    bitmaps' := bitmaps + [unpacked];
    counter', tempX', tempY', imgWidth', imgHeight' := MovePen(counter, tempX, tempY, imgWidth, imgHeight, width, height);
  }

  /**
   * The measuring loop of generate_character_map: each character's metrics
   * into its glyph, its bitmap unpacked, and the atlas size from the pen.
   */
  method MeasureGlyphs(faces: seq<GlyphFace>, padding: nat, table: seq<Glyph>)
    returns (glyphs: seq<Glyph>, bitmaps: seq<seq<bool>>, imgWidth: nat, imgHeight: nat, rowWidth: nat)
    requires |table| == GlyphSlots && |faces| == CharmapSize && AllWellFormed(faces)
    ensures |glyphs| == GlyphSlots && |bitmaps| == CharmapSize
    ensures forall j :: 0 <= j < CharmapSize ==> IsUnpacked(bitmaps[j], faces[j].bitmap, padding)
    ensures forall c :: FirstCode <= c <= LastCode ==> Measured(glyphs[c], faces[c - FirstCode])
    ensures forall c :: 0 <= c < GlyphSlots && !(FirstCode <= c <= LastCode) ==> glyphs[c] == table[c]
    ensures imgWidth == AtlasWidthAsWritten(BoxWidths(faces, padding), BoxHeights(faces, padding))
    ensures imgHeight == AtlasHeight(BoxWidths(faces, padding), BoxHeights(faces, padding))
    ensures rowWidth == Scan(BoxWidths(faces, padding), BoxHeights(faces, padding), CharmapSize).x
    ensures NatMax(imgWidth, rowWidth) == AtlasWidth(BoxWidths(faces, padding), BoxHeights(faces, padding))
  {
    glyphs, bitmaps := table, [];
    imgWidth, imgHeight := 0, 0;
    var tempX: nat, tempY: nat, counter: nat := 0, 0, 0;
    var code := FirstCode;
    while code <= LastCode
      invariant FirstCode <= code <= LastCode + 1
      invariant Measuring(faces, padding, table, glyphs, bitmaps, code - FirstCode,
                          counter, tempX, tempY, imgWidth, imgHeight)
    {
      glyphs, bitmaps, counter, tempX, tempY, imgWidth, imgHeight :=
        MeasureNext(faces, padding, table, glyphs, bitmaps, code, counter, tempX, tempY, imgWidth, imgHeight);
      code := code + 1;
    }
    if counter % GlyphsPerRow != 0 {
      imgHeight := imgHeight + tempY;
    }
    rowWidth := tempX;
  }

  /**
   * The pen updates of the placing loop for one glyph: counter counts every
   * glyph placed so far, this one included, and every tenth glyph starts a
   * new row below the tallest of the row it closes.
   */
  method MoveRowPen(counter: nat, gx: nat, gy: nat, tempY: nat, width: nat, height: nat, ghost pen: Pen)
    returns (gx': nat, gy': nat, tempY': nat)
    requires counter >= 1 && pen.counter == (counter - 1) % GlyphsPerRow
    requires pen.x == gx && pen.y == gy && pen.rowHeight == tempY
    ensures var next := PenStep(pen, width, height);
            gx' == next.x && gy' == next.y && tempY' == next.rowHeight
  {
    gx', gy', tempY' := gx + width, gy, NatMax(tempY, height);
    if counter % GlyphsPerRow == 0 {
      gx' := 0;
      gy' := gy' + tempY';
      tempY' := 0;
    }
  }

  /** The placing loop's writes into glyph j: its box at the pen and its texture rectangle as fractions of the atlas. */
  method PlaceGlyph(glyph: Glyph, gx: nat, gy: nat, width: nat, height: nat, textureWidth: nat, textureHeight: nat,
                    ghost faces: seq<GlyphFace>, ghost padding: nat, ghost j: nat)
    returns (placed: Glyph)
    requires j < |faces| && Measured(glyph, faces[j])
    requires width == glyph.width + 2 * padding && height == glyph.height + 2 * padding
    requires gx == Scan(BoxWidths(faces, padding), BoxHeights(faces, padding), j).x
    requires gy == Scan(BoxWidths(faces, padding), BoxHeights(faces, padding), j).y
    requires textureWidth == AtlasWidth(BoxWidths(faces, padding), BoxHeights(faces, padding))
    requires textureHeight == AtlasHeight(BoxWidths(faces, padding), BoxHeights(faces, padding))
    ensures placed == PlacedGlyph(faces, padding, j)
  {
    placed := glyph.(x := gx, y := gy,
                     tx1 := Fraction(gx, textureWidth), tx2 := Fraction(gx + width, textureWidth),
                     ty1 := Fraction(gy + height, textureHeight), ty2 := Fraction(gy, textureHeight));
  }

  /**
   * The state of the placing loop after n characters: the atlas size, the
   * pen where Scan puts it, and the first n distance fields in the atlas.
   */
  ghost predicate Placing(faces: seq<GlyphFace>, padding: nat, textureWidth: nat, textureHeight: nat,
                          atlas: seq<bv8>, n: nat, gx: nat, gy: nat, tempY: nat)
  {
    |faces| == CharmapSize && AllWellFormed(faces) && n <= CharmapSize
    && textureWidth == AtlasWidth(BoxWidths(faces, padding), BoxHeights(faces, padding))
    && textureHeight == AtlasHeight(BoxWidths(faces, padding), BoxHeights(faces, padding))
    && (var pen := Scan(BoxWidths(faces, padding), BoxHeights(faces, padding), n);
        gx == pen.x && gy == pen.y && tempY == pen.rowHeight)
    && AtlasHolds(atlas, faces, padding, n)
  }

  /** One round of the placing loop: character code's distance field into the atlas, its glyph placed, the pen moved on. */
  method PlaceNext(atlas: array<bv8>, faces: seq<GlyphFace>, padding: nat, bitmap: seq<bool>, glyphs: seq<Glyph>,
                   ghost table: seq<Glyph>, code: nat, counter: nat, gx: nat, gy: nat, tempY: nat,
                   textureWidth: nat, textureHeight: nat)
    returns (glyphs': seq<Glyph>, gx': nat, gy': nat, tempY': nat)
    requires FirstCode <= code <= LastCode && counter == code - FirstCode + 1
    requires PlacedUpTo(glyphs, table, faces, padding, code) && Measured(table[code], faces[code - FirstCode])
    requires Placing(faces, padding, textureWidth, textureHeight, atlas[..], code - FirstCode, gx, gy, tempY)
    requires IsUnpacked(bitmap, faces[code - FirstCode].bitmap, padding)
    modifies atlas
    ensures PlacedUpTo(glyphs', table, faces, padding, code + 1)
    ensures Placing(faces, padding, textureWidth, textureHeight, atlas[..], code - FirstCode + 1, gx', gy', tempY')
  {
    ghost var ws := BoxWidths(faces, padding);
    ghost var hs := BoxHeights(faces, padding);
    var j := code - FirstCode;
    var width := glyphs[code].width + 2 * padding;
    var height := glyphs[code].height + 2 * padding;
    DrawGlyph(atlas, faces, padding, bitmap, j);
    var placed := PlaceGlyph(glyphs[code], gx, gy, width, height, textureWidth, textureHeight, faces, padding, j);
    PlacedExtend(glyphs, table, faces, padding, code);
    glyphs' := glyphs[code := placed];
    ScanCounter(ws, hs, j);
    gx', gy', tempY' := MoveRowPen(counter, gx, gy, tempY, width, height, Scan(ws, hs, j));
  }

  /** The glyphs of the codes before code are placed; every other glyph is still as in table. */
  ghost predicate PlacedUpTo(glyphs: seq<Glyph>, table: seq<Glyph>, faces: seq<GlyphFace>, padding: nat, code: nat)
  {
    |glyphs| == |table| == GlyphSlots && |faces| == CharmapSize && FirstCode <= code <= LastCode + 1
    && (forall c :: FirstCode <= c < code ==> glyphs[c] == PlacedGlyph(faces, padding, c - FirstCode))
    && (forall c :: 0 <= c < GlyphSlots && !(FirstCode <= c < code) ==> glyphs[c] == table[c])
  }

  /** Placing glyph code extends the placed run by one and leaves the rest alone. */
  lemma PlacedExtend(glyphs: seq<Glyph>, table: seq<Glyph>, faces: seq<GlyphFace>, padding: nat, code: nat)
    requires PlacedUpTo(glyphs, table, faces, padding, code) && code <= LastCode
    ensures PlacedUpTo(glyphs[code := PlacedGlyph(faces, padding, code - FirstCode)], table, faces, padding, code + 1)
  {
  }

  /**
   * The placing loop of generate_character_map: each character's box at the
   * pen, its texture rectangle as fractions of the atlas, and its distance
   * field copied into the atlas.
   */
  method PlaceGlyphs(faces: seq<GlyphFace>, padding: nat, bitmaps: seq<seq<bool>>, table: seq<Glyph>,
                     textureWidth: nat, textureHeight: nat)
    returns (glyphs: seq<Glyph>, texture: seq<bv8>)
    requires |table| == GlyphSlots && |faces| == CharmapSize && AllWellFormed(faces)
    requires textureWidth == AtlasWidth(BoxWidths(faces, padding), BoxHeights(faces, padding))
    requires textureHeight == AtlasHeight(BoxWidths(faces, padding), BoxHeights(faces, padding))
    requires |bitmaps| == CharmapSize
    requires forall j :: 0 <= j < CharmapSize ==> IsUnpacked(bitmaps[j], faces[j].bitmap, padding)
    requires forall c :: FirstCode <= c <= LastCode ==> Measured(table[c], faces[c - FirstCode])
    ensures |glyphs| == GlyphSlots
    ensures forall c :: FirstCode <= c <= LastCode ==> glyphs[c] == PlacedGlyph(faces, padding, c - FirstCode)
    ensures forall c :: 0 <= c < GlyphSlots && !(FirstCode <= c <= LastCode) ==> glyphs[c] == table[c]
    ensures AtlasHolds(texture, faces, padding, CharmapSize)
  {
    ghost var ws := BoxWidths(faces, padding);
    ghost var hs := BoxHeights(faces, padding);
    var atlas := new bv8[textureWidth * textureHeight](_ => 0);
    AtlasHoldsNothing(atlas[..], faces, padding);
    glyphs := table;
    var tempY, gy, gx, counter := 0, 0, 0, 0;
    var code := FirstCode;
    while code <= LastCode
      invariant FirstCode <= code <= LastCode + 1 && counter == code - FirstCode
      invariant Placing(faces, padding, textureWidth, textureHeight, atlas[..], code - FirstCode, gx, gy, tempY)
      invariant PlacedUpTo(glyphs, table, faces, padding, code)
    {
      counter := counter + 1;
      glyphs, gx, gy, tempY := PlaceNext(atlas, faces, padding, bitmaps[code - FirstCode], glyphs, table, code, counter,
                                         gx, gy, tempY, textureWidth, textureHeight);
      code := code + 1;
    }
    texture := atlas[..];
  }

  class FontWriter {
    var baseFontSize: nat
    var displayCharmap: bool
    var padding: nat
    var glyphs: seq<Glyph>
    var textureWidth: nat
    var textureHeight: nat
    /** The pixels handed to the GL texture. */
    var texture: seq<bv8>
    var lines: seq<TextLine>
    var positions: seq<Vec2>
    var textureCoordinates: seq<Vec2>
    var indices: seq<nat>
    /** Number of quads in the vertex buffers. */
    ghost var quads: nat

    /** Everything the writer holds except the lines to draw: the font, its atlas and the vertex buffers. */
    ghost function AllButLines(): (seq<Glyph>, nat, bool, nat, nat, nat, seq<bv8>, seq<Vec2>, seq<Vec2>, seq<nat>, nat)
      reads this
    {
      (glyphs, baseFontSize, displayCharmap, padding, textureWidth, textureHeight, texture,
       positions, textureCoordinates, indices, quads)
    }

    /** Four vertices and six indices per quad, the indices drawing each quad's two triangles. */
    ghost predicate Valid()
      reads this
    {
      baseFontSize == BaseFontSize && |glyphs| == GlyphSlots
      && |textureCoordinates| == |positions| == 4 * quads
      && indices == QuadIndices(0, quads)
    }

    /** The scale from the font's base size to the drawn point size. */
    function Scale(): real
      reads this
      requires Valid()
    {
      FontPoints / baseFontSize as real
    }

    /** The glyph table and the atlas hold the character map built from faces. */
    ghost predicate HoldsCharmap(faces: seq<GlyphFace>)
      reads this
      requires |faces| == CharmapSize && AllWellFormed(faces)
    {
      var ws := BoxWidths(faces, padding);
      var hs := BoxHeights(faces, padding);
      |glyphs| == GlyphSlots
      && textureWidth == AtlasWidth(ws, hs) && textureHeight == AtlasHeight(ws, hs)
      && (forall c :: FirstCode <= c <= LastCode ==> glyphs[c] == PlacedGlyph(faces, padding, c - FirstCode))
      && AtlasHolds(texture, faces, padding, CharmapSize)
    }

    /** FontWriter(): default settings, a blank glyph table and the character map built from faces. */
    constructor(faces: seq<GlyphFace>, fontPadding: nat)
      requires |faces| == CharmapSize && AllWellFormed(faces)
      ensures Valid() && HoldsCharmap(faces)
      ensures displayCharmap && padding == fontPadding
      ensures lines == [] && positions == [] && textureCoordinates == [] && indices == []
      ensures forall c :: 0 <= c < GlyphSlots && !(FirstCode <= c <= LastCode) ==> glyphs[c] == BlankGlyph
    {
      baseFontSize := BaseFontSize;
      displayCharmap := true;
      padding := fontPadding;
      glyphs := seq(GlyphSlots, _ => BlankGlyph);
      textureWidth, textureHeight, texture := 0, 0, [];
      lines, positions, textureCoordinates, indices := [], [], [], [];
      quads := 0;
      new;
      GenerateCharacterMap(faces);
    }

    /**
     * generate_character_map: measure and unpack every character, size the
     * atlas, then place the characters ten to a row and copy their distance
     * fields in.
     */
    method GenerateCharacterMap(faces: seq<GlyphFace>)
      requires |glyphs| == GlyphSlots && |faces| == CharmapSize && AllWellFormed(faces)
      modifies this
      ensures HoldsCharmap(faces)
      ensures forall c :: 0 <= c < GlyphSlots && !(FirstCode <= c <= LastCode) ==> glyphs[c] == old(glyphs[c])
      ensures baseFontSize == old(baseFontSize) && displayCharmap == old(displayCharmap) && padding == old(padding)
      ensures lines == old(lines) && positions == old(positions)
      ensures textureCoordinates == old(textureCoordinates) && indices == old(indices) && quads == old(quads)
    {
      var measured, bitmaps, imgWidth, imgHeight, rowWidth := MeasureGlyphs(faces, padding, glyphs);
      // corrected: the final partial row counts towards the width as well
      imgWidth := NatMax(imgWidth, rowWidth);
      textureWidth := imgWidth;
      textureHeight := imgHeight;
      glyphs, texture := PlaceGlyphs(faces, padding, bitmaps, measured, imgWidth, imgHeight);
    }

    /** render_line: one quad and its texture rectangle per character, from the pen at (x, y) on. */
    method RenderLine(x: real, y: real, line: seq<Byte>)
      requires Valid() && Renderable(glyphs, line)
      modifies this
      ensures glyphs == old(glyphs) && lines == old(lines) && displayCharmap == old(displayCharmap)
      ensures textureWidth == old(textureWidth) && textureHeight == old(textureHeight)
      ensures Valid() && quads == old(quads) + |line|
      ensures positions == old(positions) + LineQuads(glyphs, Scale(), x, y, line)
      ensures (forall i :: 0 <= i < |line| ==> ReachesBaseline(glyphs[CharCode(line[i])]))
              ==> positions == old(positions) + LineQuadsAsWritten(glyphs, Scale(), x, y, line)
      ensures textureCoordinates == old(textureCoordinates) + LineTexture(glyphs, line)
    {
      var scale := FontPoints / baseFontSize as real;
      LineQuadsAgree(glyphs, scale, x, y, line);
      positions, textureCoordinates, indices := AppendLine(glyphs, scale, x, y, line, positions, textureCoordinates, indices, quads);
      quads := quads + |line|;
    }

    /** add_charmap_to_screen: the whole atlas as one more quad at the right edge of the screen. */
    method AddCharmapToScreen(screenWidth: real)
      requires Valid()
      modifies this
      ensures glyphs == old(glyphs) && lines == old(lines) && displayCharmap == old(displayCharmap)
      ensures textureWidth == old(textureWidth) && textureHeight == old(textureHeight)
      ensures Valid() && quads == old(quads) + 1
      ensures positions == old(positions) + CharmapQuad(screenWidth, textureWidth, textureHeight)
      ensures textureCoordinates == old(textureCoordinates) + CharmapTexture
    {
      var tscale := 1.0;
      if textureWidth > 200 {
        tscale := 200.0 / textureWidth as real;
      }
      tscale := 1.0;
      var mx := screenWidth - textureWidth as real * tscale - 10.0;
      var my := 0.0;
      positions := positions + [Vec2(mx, my), Vec2(mx + textureWidth as real * tscale, my),
                                Vec2(mx + textureWidth as real * tscale, my + textureHeight as real * tscale),
                                Vec2(mx, my + textureHeight as real * tscale)];
      textureCoordinates := textureCoordinates + CharmapTexture;
      var n := |positions|;
      assert [n - 4, n - 3, n - 2, n - 4, n - 2, n - 1] == QuadCorners(4 * quads);
      indices := indices + [n - 4, n - 3, n - 2, n - 4, n - 2, n - 1];
      quads := quads + 1;
    }

    /**
     * The vertex buffers draw builds: the quads of every stored line, then the
     * atlas quad when the character map is displayed.
     */
    method Draw(screenWidth: real)
      requires Valid() && AllRenderable(glyphs, lines)
      modifies this
      ensures glyphs == old(glyphs) && lines == old(lines) && displayCharmap == old(displayCharmap)
      ensures textureWidth == old(textureWidth) && textureHeight == old(textureHeight)
      ensures Valid() && quads == TotalChars(lines) + (if displayCharmap then 1 else 0)
      ensures positions == LinesQuads(glyphs, Scale(), lines)
                           + (if displayCharmap then CharmapQuad(screenWidth, textureWidth, textureHeight) else [])
      ensures textureCoordinates == LinesTexture(glyphs, lines) + (if displayCharmap then CharmapTexture else [])
    {
      positions := [];
      textureCoordinates := [];
      indices := [];
      quads := 0;
      var i := 0;
      while i < |lines|
        invariant glyphs == old(glyphs) && lines == old(lines) && displayCharmap == old(displayCharmap)
        invariant textureWidth == old(textureWidth) && textureHeight == old(textureHeight)
        invariant i <= |lines| && Valid() && quads == TotalChars(lines[..i])
        invariant positions == LinesQuads(glyphs, Scale(), lines[..i])
        invariant textureCoordinates == LinesTexture(glyphs, lines[..i])
      {
        LinesStep(glyphs, Scale(), lines, i);
        RenderLine(lines[i].x, lines[i].y, lines[i].line);
        i := i + 1;
      }
      assert lines[..|lines|] == lines;
      if displayCharmap {
        AddCharmapToScreen(screenWidth);
      }
    }

    /** add_line: one more line to draw. */
    method AddLine(x: real, y: real, line: seq<Byte>)
      modifies this
      ensures lines == old(lines) + [TextLine(x, y, line)]
      ensures AllButLines() == old(AllButLines())
    {
      lines := lines + [TextLine(x, y, line)];
    }

    /** reset_lines: nothing left to draw. */
    method ResetLines()
      modifies this
      ensures lines == []
      ensures AllButLines() == old(AllButLines())
    {
      lines := [];
    }
  }
}

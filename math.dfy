/**
 * The scalar helpers of src/accessoires/math.h and the constant M_PI, over
 * exact reals (the float and double overloads coincide in this model).
 */
module IsanaMath {

  /** M_PI as the double literal the C library defines. */
  const Pi: real := 3.141592653589793

  function Min(a: real, b: real): real { if b < a then b else a }

  function Max(a: real, b: real): real { if a < b then b else a }

  /** square(v) = v * v; never negative over the reals. */
  function Square(v: real): (r: real)
    ensures r >= 0.0
  {
    v * v
  }

  /**
   * clip(n, lower, upper) = max(lower, min(n, upper)). Because the max is
   * applied last, an empty range (lower > upper) yields lower.
   */
  function Clip(n: real, lower: real, upper: real): (r: real)
    ensures lower <= upper ==> lower <= r <= upper
    ensures lower <= n <= upper ==> r == n
    ensures lower > upper ==> r == lower
    ensures r == n || r == lower || r == upper
  {
    Max(lower, Min(n, upper))
  }

  /** Clipping twice changes nothing (whether or not the range is empty). */
  lemma ClipIdempotent(n: real, lower: real, upper: real)
    ensures Clip(Clip(n, lower, upper), lower, upper) == Clip(n, lower, upper)
  {
  }

  /** Clipping is monotone in its argument. */
  lemma ClipMonotone(a: real, b: real, lower: real, upper: real)
    requires a <= b
    ensures Clip(a, lower, upper) <= Clip(b, lower, upper)
  {
  }

  // Index arithmetic shared by the row-major buffers of the model.

  lemma MulAtLeast(a: nat, c: nat)
    requires a >= 1
    ensures a * c >= c
  {
    var b: nat := a - 1;
    assert a * c == b * c + c;
  }

  /** Quotient and remainder by c are unique. */
  lemma QuotientUnique(q1: nat, r1: nat, q2: nat, r2: nat, c: nat)
    requires r1 < c && r2 < c && q1 * c + r1 == q2 * c + r2
    ensures q1 == q2 && r1 == r2
  {
    if q1 < q2 {
      assert q2 * c == q1 * c + (q2 - q1) * c;
      MulAtLeast(q2 - q1, c);
    } else if q2 < q1 {
      assert q1 * c == q2 * c + (q1 - q2) * c;
      MulAtLeast(q1 - q2, c);
    }
  }

  /** Entry (i, j) of a rows x cols row-major buffer is in range and decodes back to (i, j). */
  lemma RowMajorIndex(i: nat, j: nat, rows: nat, cols: nat)
    requires i < rows && j < cols
    ensures i * cols + j < rows * cols
    ensures (i * cols + j) / cols == i && (i * cols + j) % cols == j
  {
    var x := i * cols + j;
    assert rows * cols == i * cols + (rows - i) * cols;
    MulAtLeast(rows - i, cols);
    QuotientUnique(x / cols, x % cols, i, j, cols);
  }

  /** An index below rows * cols has a row below rows. */
  lemma DivBelow(k: nat, rows: nat, cols: nat)
    requires k < rows * cols
    ensures cols > 0 && k / cols < rows
  {
  }

  /** 2^32: arithmetic on the program's unsigned ints is taken modulo this. */
  const U32Limit: int := 0x1_0000_0000

  /** The value an unsigned int holds after an arithmetic result v. */
  function Wrap32(v: int): (r: nat)
    ensures r < U32Limit
    ensures 0 <= v < U32Limit ==> r == v
    ensures -U32Limit <= v < 0 ==> r == v + U32Limit
  {
    v % U32Limit
  }
}

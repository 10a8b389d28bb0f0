/** Integer facts shared by the buffer, shape and raster modules. */
module Arith {

  function Abs(n: int): nat
  {
    if n < 0 then -n else n
  }

  function Max(a: int, b: int): int
  {
    if a >= b then a else b
  }

  function Min(a: int, b: int): int
  {
    if a <= b then a else b
  }

  /** Monotonicity of multiplication by a non-negative factor. */
  lemma MulLeft(a: int, b: int, c: int)
    requires a <= b && c >= 0
    ensures a * c <= b * c
  {
  }

  /** A non-zero integer multiple of a positive number is at least that number away from zero. */
  lemma MulPos(k: int, den: int)
    requires den > 0
    ensures k >= 1 ==> k * den >= den
    ensures k <= -1 ==> k * den <= -den
  {
  }

  /** Euclidean division is pinned down by the interval its dividend falls in. */
  lemma DivUnique(n: int, den: int, q: int)
    requires den > 0
    requires q * den <= n < q * den + den
    ensures n / den == q
    ensures n % den == n - q * den
  {
    var p := n / den;
    assert (p - q) * den == p * den - q * den;
    MulPos(p - q, den);
  }

  /** Sum of a non-negative count of full rows stays below the next row start. */
  lemma RowBound(i: int, k: int, rows: int, width: int)
    requires width > 0 && 0 <= i < rows && 0 <= k < width
    ensures 0 <= i * width + k < rows * width
  {
    MulLeft(0, i, width);
    MulLeft(i + 1, rows, width);
    assert (i + 1) * width == i * width + width;
  }
}

// Integer facts shared by the texture model: Euclidean division facts, row-major
// indexing of a width-wide image, and the C operators the source relies on.

module Arith {

  /** C's `/` on int, which truncates toward zero (Dafny's `/` is Euclidean). */
  function CDiv(a: int, b: int): (q: int)
    requires b > 0
    ensures a >= 0 ==> q == a / b
    ensures a < 0 ==> q == -((-a) / b)
  {
    if a >= 0 then a / b else -((-a) / b)
  }

  /** A product of a number at least 1 with a positive number is at least that number. */
  lemma MulAtLeast(a: int, d: int)
    requires a >= 1 && d > 0
    ensures a * d >= d
  {
  }

  /** The quotient and remainder of `n` by `d` are determined by `n == q * d + r`, `0 <= r < d`. */
  lemma DivModUnique(n: int, d: int, q: int, r: int)
    requires 0 < d && 0 <= r < d && n == q * d + r
    ensures n / d == q && n % d == r
  {
    var q0, r0 := n / d, n % d;
    assert n == q0 * d + r0;
    if q0 > q {
      MulAtLeast(q0 - q, d);
      assert false;
    } else if q0 < q {
      MulAtLeast(q - q0, d);
      assert false;
    }
  }

  /** Row-major index of texel (px, py) in an image `width` texels wide. */
  function Idx(width: int, px: int, py: int): int
  {
    py * width + px
  }

  /** A row-major index determines its row and column. */
  lemma IdxDivMod(width: int, px: int, py: int)
    requires 0 <= px < width
    ensures Idx(width, px, py) / width == py && Idx(width, px, py) % width == px
  {
    DivModUnique(Idx(width, px, py), width, py, px);
  }

  /** Two texels of the same image share an index only if they are the same texel. */
  lemma IdxInjective(width: int, px: int, py: int, qx: int, qy: int)
    requires 0 <= px < width && 0 <= qx < width
    requires Idx(width, px, py) == Idx(width, qx, qy)
    ensures px == qx && py == qy
  {
    IdxDivMod(width, px, py);
    IdxDivMod(width, qx, qy);
  }

  /** Moving `c` texels right within a row adds `c` to the index. */
  lemma IdxShift(width: int, x: int, y: int, c: int, r: int)
    ensures Idx(width, x, y) + r * width + c == Idx(width, x + c, y + r)
  {
  }

  /** An index inside the run [Idx(x, y), Idx(x, y) + n) of one row is a texel of that run. */
  lemma IdxInRun(width: int, x: int, y: int, n: int, px: int, py: int)
    requires 0 <= x && 0 <= n && x + n <= width && 0 <= px < width
    ensures Idx(width, x, y) <= Idx(width, px, py) < Idx(width, x, y) + n
            <==> py == y && x <= px < x + n
  {
    var k := Idx(width, px, py);
    IdxDivMod(width, px, py);
    if Idx(width, x, y) <= k < Idx(width, x, y) + n {
      DivModUnique(k, width, y, k - y * width);
    }
  }

  /** Texels of rows at or above `rows` have indices below `rows * width`. */
  lemma IdxBelow(width: int, px: int, py: int, rows: int)
    requires 0 <= px < width && 0 <= py < rows
    ensures Idx(width, px, py) < rows * width
  {
    MulAtLeast(rows - py, width);
  }

  /** Monotonicity of multiplication by a non-negative factor. */
  lemma MulMono(a: int, b: int, c: int)
    requires a <= b && 0 <= c
    ensures a * c <= b * c
  {
  }

  /** A value below m * d has a quotient below m and a remainder below d. */
  lemma DivBelow(n: int, d: int, m: int)
    requires 0 < d && 0 <= n < m * d
    ensures 0 <= n / d < m && 0 <= n % d < d
  {
    var q, r := n / d, n % d;
    assert n == q * d + r;
    if q >= m {
      MulMono(m, q, d);
    }
    if q < 0 {
      MulMono(q, -1, d);
    }
  }

  /** Dividing by `a` and then by `b` is dividing by `a * b`; the remainder by `a * b`
      is made of the remainders of the two steps. */
  lemma DivDivMod(n: int, a: int, b: int)
    requires n >= 0 && a > 0 && b > 0
    ensures n / a / b == n / (a * b)
    ensures n % (a * b) == ((n / a) % b) * a + n % a
  {
    var q1, r1 := n / a, n % a;
    var q2, r2 := q1 / b, q1 % b;
    assert q1 * a == (q2 * b + r2) * a;
    assert (q2 * b + r2) * a == q2 * (a * b) + r2 * a;
    MulMono(r2, b - 1, a);
    assert (b - 1) * a == a * b - a;
    DivModUnique(n, a * b, q2, r2 * a + r1);
  }

  /** Every index of a width x height image is the index of one of its texels. */
  lemma IdxOfIndex(width: int, height: int, i: int)
    requires 0 <= i < width * height && 0 <= width
    ensures 0 <= i % width < width && 0 <= i / width < height
    ensures Idx(width, i % width, i / width) == i
  {
    if height <= i / width {
      MulMono(height, i / width, width);
    }
  }

  /** In a length `n` made of whole blocks of `b`, a block that starts before the end ends
      by the end and is one of the `n / b` blocks. */
  lemma BlockCount(n: int, b: int, i: int)
    requires b > 0 && 0 <= n && n % b == 0 && 0 <= i && i * b < n
    ensures i < n / b && (i + 1) * b <= n
  {
    DivModUnique(n, b, n / b, 0);
    if i >= n / b {
      MulMono(n / b, i, b);
    }
    MulMono(i + 1, n / b, b);
  }
}

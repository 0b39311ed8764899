/** Small facts about the row-major addressing `q * w + r` used by every
    flat buffer of the model: an object `q` of width `w` starts at `q * w`. */
module Arith {

  /** Blob dimensions are never zero. */
  type pos = x: int | x >= 1 witness 1

  /** An address built from an in-range row and column stays in range. */
  lemma MulAddBound(q: int, r: int, n: int, w: int)
    requires 0 <= q < n && 0 <= r < w
    ensures 0 <= q * w + r < n * w
  {
    assert (n - q - 1) * w >= 0;
    assert n * w == q * w + w + (n - q - 1) * w;
  }

  /** An address built from column `r` is in a table of `n` rows exactly
      when its row `q` is. */
  lemma MulAddRange(q: int, r: int, n: int, w: int)
    requires w > 0 && 0 <= r < w
    ensures 0 <= q * w + r < n * w <==> 0 <= q < n
  {
    if 0 <= q < n {
      MulAddBound(q, r, n, w);
    } else {
      MulSign(q - n + 1, w);
      MulSign(q, w);
      assert q * w - n * w == (q - n) * w;
    }
  }

  /** Row and column can be read back from an address. */
  lemma DivModOf(q: int, r: int, w: int)
    requires w > 0 && 0 <= r < w
    ensures (q * w + r) / w == q && (q * w + r) % w == r
  {
    var p := q * w + r;
    var d, m := p / w, p % w;
    assert p == d * w + m && 0 <= m < w;
    assert (d - q) * w == r - m;
    MulSign(d - q, w);
  }

  /** A nonzero multiple of `w` is at least `w` away from zero. */
  lemma MulSign(x: int, w: int)
    requires w > 0
    ensures x >= 1 ==> x * w >= w
    ensures x <= -1 ==> x * w <= -w
  {
  }

  /** Row `a` of a table of `rows` rows, each `w` wide, lies inside the table. */
  lemma RowFits(a: int, rows: int, w: int)
    requires 0 <= a < rows && w > 0
    ensures 0 <= a * w && a * w + w <= rows * w && (a + 1) * w == a * w + w
  {
    MulSign(rows - a, w);
  }

  /** Moving `d` rows down moves an address by `d` whole rows. */
  lemma ShiftRows(a: int, d: int, w: int, col: int)
    ensures (a + d) * w + col == d * w + (a * w + col)
  {
  }

  /** Position `col` of row `a` lies in row `b` exactly when `a` is `b`. */
  lemma SameRow(a: int, col: int, b: int, w: int)
    requires w > 0 && 0 <= col < w
    ensures b * w <= a * w + col < b * w + w <==> a == b
  {
    DivModOf(a, col, w);
    if b * w <= a * w + col < b * w + w {
      DivModOf(b, a * w + col - b * w, w);
    }
  }

  /** Equal factors give equal products. */
  lemma MulCongruence(a: int, b: int, w: int)
    requires a == b
    ensures a * w == b * w
  {
  }
}

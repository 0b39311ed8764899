/** Flat tables of objects. A buffer holding objects of width `w` keeps object
    `o` at positions `o * w .. o * w + w`. The two table primitives of the math
    engine, lookup-and-copy and lookup-and-add-to-table, are given their meaning
    here as functions over sequences. */
module Tables {
  import opened Arith

  /** Object `o` of a flat buffer whose objects are `w` values wide. */
  function Object(data: seq<real>, o: int, w: pos): seq<real>
    requires 0 <= o && o * w + w <= |data|
  {
    data[o * w .. o * w + w]
  }

  /** An object made of zeros. */
  function Zeros(n: nat): (z: seq<real>)
    ensures |z| == n && forall i :: 0 <= i < n ==> z[i] == 0.0
  {
    seq(n, _ => 0.0)
  }

  /** Every address names one of the `rows` rows of the table. */
  predicate InTable(addrs: seq<int>, rows: int)
  {
    forall k :: 0 <= k < |addrs| ==> 0 <= addrs[k] < rows
  }

  /** Lookup-and-copy: object `k` of the result is row `addrs[k]` of `table`. */
  function Gathered(table: seq<real>, rows: nat, w: pos, addrs: seq<int>): (g: seq<real>)
    requires |table| == rows * w && InTable(addrs, rows)
    ensures |g| == |addrs| * w
    decreases |addrs|
  {
    if addrs == [] then []
    else
      var n := |addrs| - 1;
      RowFits(addrs[n], rows, w);
      RowFits(n, |addrs|, w);
      Gathered(table, rows, w, addrs[..n]) + Object(table, addrs[n], w)
  }

  /** `t` with the first `j` values of its row `a` increased by those of `row`. */
  function AddToRow(t: seq<real>, a: int, w: pos, j: nat, row: seq<real>): (r: seq<real>)
    requires 0 <= a && a * w + w <= |t| && j <= w && |row| == w
    ensures |r| == |t|
  {
    seq(|t|, p requires 0 <= p < |t| =>
      if a * w <= p < a * w + j then t[p] + row[p - a * w] else t[p])
  }

  /** Every value of `src` multiplied by `scale`. */
  function Scaled(scale: real, src: seq<real>): (r: seq<real>)
    ensures |r| == |src|
  {
    seq(|src|, i requires 0 <= i < |src| => scale * src[i])
  }

  /** Lookup-and-add-to-table: for each `k` in order, object `k` of `src` is
      added into row `addrs[k]` of `table`. */
  function ScatterAdded(table: seq<real>, rows: nat, w: pos, addrs: seq<int>, src: seq<real>): (r: seq<real>)
    requires |table| == rows * w && InTable(addrs, rows) && |src| == |addrs| * w
    ensures |r| == |table|
    decreases |addrs|
  {
    if addrs == [] then table
    else
      var n := |addrs| - 1;
      RowFits(addrs[n], rows, w);
      RowFits(n, |addrs|, w);
      AddToRow(ScatterAdded(table, rows, w, addrs[..n], src[..n * w]),
               addrs[n], w, w, src[n * w .. n * w + w])
  }

  /** Sum of column `col` of the objects of `src` at the positions `k` whose
      address `addrs[k]` is `row`: the gradient mass routed to that row. */
  function Contribution(addrs: seq<int>, src: seq<real>, w: pos, row: int, col: int): real
    requires |src| == |addrs| * w && 0 <= col < w
    decreases |addrs|
  {
    if addrs == [] then 0.0
    else
      var n := |addrs| - 1;
      RowFits(n, |addrs|, w);
      Contribution(addrs[..n], src[..n * w], w, row, col)
        + (if addrs[n] == row then src[n * w + col] else 0.0)
  }

  /** A window inside the first part of a concatenation. */
  lemma WindowInPrefix(prefix: seq<real>, last: seq<real>, lo: int, w: int)
    requires 0 <= lo && 0 <= w && lo + w <= |prefix|
    ensures (prefix + last)[lo .. lo + w] == prefix[lo .. lo + w]
  {
  }

  /** The window just after the first part of a concatenation is the second part. */
  lemma WindowAtLast(prefix: seq<real>, last: seq<real>, lo: int, w: int)
    requires lo == |prefix| && w == |last|
    ensures (prefix + last)[lo .. lo + w] == last
  {
  }

  /** Object `k` of a gathered buffer is the table row that `addrs[k]` names. */
  lemma {:induction false} GatheredObject(table: seq<real>, rows: nat, w: pos, addrs: seq<int>, k: int)
    requires |table| == rows * w && InTable(addrs, rows) && 0 <= k < |addrs|
    ensures 0 <= addrs[k] < rows && k * w + w <= |Gathered(table, rows, w, addrs)|
    ensures addrs[k] * w + w <= |table|
    ensures Object(Gathered(table, rows, w, addrs), k, w) == Object(table, addrs[k], w)
  {
    var n := |addrs| - 1;
    RowFits(addrs[n], rows, w);
    RowFits(addrs[k], rows, w);
    RowFits(k, |addrs|, w);
    var last := Object(table, addrs[n], w);
    var prefix := Gathered(table, rows, w, addrs[..n]);
    assert Gathered(table, rows, w, addrs) == prefix + last;
    if k < n {
      GatheredObject(table, rows, w, addrs[..n], k);
      WindowInPrefix(prefix, last, k * w, w);
    } else {
      MulCongruence(|addrs[..n]|, k, w);
      WindowAtLast(prefix, last, k * w, w);
    }
  }

  /** Value `col` of row `a` after the scatter-add is its old value plus the
      summed contributions of every position addressing row `a`; repeated
      addresses accumulate. */
  lemma {:induction false} ScatterAddedAt(table: seq<real>, rows: nat, w: pos, addrs: seq<int>, src: seq<real>, a: int, col: int)
    requires |table| == rows * w && InTable(addrs, rows) && |src| == |addrs| * w
    requires 0 <= a < rows && 0 <= col < w
    ensures 0 <= a * w + col < |table|
    ensures ScatterAdded(table, rows, w, addrs, src)[a * w + col]
         == table[a * w + col] + Contribution(addrs, src, w, a, col)
    decreases |addrs|
  {
    RowFits(a, rows, w);
    if addrs != [] {
      var n := |addrs| - 1;
      RowFits(n, |addrs|, w);
      var b := addrs[n];
      RowFits(b, rows, w);
      var p := a * w + col;
      var before := src[..n * w];
      var row := src[n * w .. n * w + w];
      var s := ScatterAdded(table, rows, w, addrs[..n], before);
      ScatterAddedStep(table, rows, w, addrs, src, n);
      ScatterAddedAt(table, rows, w, addrs[..n], before, a, col);
      SameRow(a, col, b, w);
      if b == a {
        assert row[col] == src[n * w + col];
      }
    }
  }

  /** One step of the scatter-add: the last address is added on top of the rest. */
  lemma ScatterAddedStep(table: seq<real>, rows: nat, w: pos, addrs: seq<int>, src: seq<real>, n: nat)
    requires |table| == rows * w && InTable(addrs, rows) && |src| == |addrs| * w
    requires n + 1 == |addrs|
    ensures n * w + w <= |src| && 0 <= addrs[n] && addrs[n] * w + w <= |table|
    ensures ScatterAdded(table, rows, w, addrs, src)
        == AddToRow(ScatterAdded(table, rows, w, addrs[..n], src[..n * w]), addrs[n], w, w, src[n * w .. n * w + w])
  {
    RowFits(n, |addrs|, w);
    RowFits(addrs[n], rows, w);
  }

  /** Scatter-adding into a table with `d` zero rows in front (`skip`
      values), then dropping those rows: row `o` of what is left is its old
      value plus what was routed to row `o + d`. */
  lemma ScatterAddedPastPrefix(table: seq<real>, rows: nat, skip: nat, rest: seq<real>, d: nat, n: nat, w: pos,
                               addrs: seq<int>, src: seq<real>, o: int, col: int)
    requires skip == d * w && table == Zeros(skip) + rest && rows == d + n
    requires |rest| == n * w && InTable(addrs, rows) && |src| == |addrs| * w
    requires 0 <= o < n && 0 <= col < w
    ensures |table| == rows * w && 0 <= o * w + col < |rest|
    ensures ScatterAdded(table, rows, w, addrs, src)[skip..][o * w + col]
         == rest[o * w + col] + Contribution(addrs, src, w, o + d, col)
  {
    RowFits(o, n, w);
    assert |table| == rows * w;
    ScatterAddedAt(table, rows, w, addrs, src, o + d, col);
    var p := o * w + col;
    assert (o + d) * w + col == skip + p;
    assert table[skip + p] == rest[p];
  }

  /** If `all` is `c + x` and `sAll` is `k * c + k * x`, then `sAll` is `k * all`. */
  lemma ScaleSum(k: real, all: real, c: real, x: real, sAll: real, sc: real)
    requires all == c + x && sc == k * c && sAll == sc + k * x
    ensures sAll == k * all
  {
  }

  /** The contribution of all positions is that of all but the last, plus the last one's. */
  lemma ContributionLast(addrs: seq<int>, src: seq<real>, w: pos, row: int, col: int)
    requires |src| == |addrs| * w && 0 <= col < w && addrs != []
    ensures (|addrs| - 1) * w + w == |src|
    ensures Contribution(addrs, src, w, row, col)
         == Contribution(addrs[..|addrs| - 1], src[..(|addrs| - 1) * w], w, row, col)
            + (if addrs[|addrs| - 1] == row then src[(|addrs| - 1) * w + col] else 0.0)
  {
    RowFits(|addrs| - 1, |addrs|, w);
  }

  /** The last step of the contribution of a scaled source. */
  lemma ContributionScaledLast(addrs: seq<int>, src: seq<real>, w: pos, scale: real, row: int, col: int, x: real)
    requires |src| == |addrs| * w && 0 <= col < w && addrs != []
    requires (|addrs| - 1) * w + w == |src|
    requires x == (if addrs[|addrs| - 1] == row then src[(|addrs| - 1) * w + col] else 0.0)
    ensures Contribution(addrs, Scaled(scale, src), w, row, col)
         == Contribution(addrs[..|addrs| - 1], Scaled(scale, src[..(|addrs| - 1) * w]), w, row, col) + scale * x
  {
    var n := |addrs| - 1;
    var scaled := Scaled(scale, src);
    assert scaled[..n * w] == Scaled(scale, src[..n * w]) by {
      forall i | 0 <= i < n * w ensures scaled[..n * w][i] == Scaled(scale, src[..n * w])[i] {
      }
    }
    ContributionLast(addrs, scaled, w, row, col);
    var sx := if addrs[n] == row then scaled[n * w + col] else 0.0;
    assert sx == scale * x;
  }

  /** Scaling the source scales every row's contribution: if `total` is what
      row `row` receives from `src`, it receives `scale * total` from the
      scaled source. */
  lemma {:induction false} ContributionScaled(addrs: seq<int>, src: seq<real>, w: pos, scale: real, row: int, col: int, total: real)
    requires |src| == |addrs| * w && 0 <= col < w && total == Contribution(addrs, src, w, row, col)
    ensures Contribution(addrs, Scaled(scale, src), w, row, col) == scale * total
    decreases |addrs|
  {
    if addrs != [] {
      ContributionLast(addrs, src, w, row, col);
      var n := |addrs| - 1;
      var c := Contribution(addrs[..n], src[..n * w], w, row, col);
      ContributionScaled(addrs[..n], src[..n * w], w, scale, row, col, c);
      var x := if addrs[n] == row then src[n * w + col] else 0.0;
      ContributionScaledLast(addrs, src, w, scale, row, col, x);
      ScaleSum(scale, total, c, x, Contribution(addrs, Scaled(scale, src), w, row, col),
               Contribution(addrs[..n], Scaled(scale, src[..n * w]), w, row, col));
    }
  }

  /** A row that no position addresses receives nothing. */
  lemma {:induction false} ContributionUnaddressed(addrs: seq<int>, src: seq<real>, w: pos, row: int, col: int)
    requires |src| == |addrs| * w && 0 <= col < w
    requires forall k :: 0 <= k < |addrs| ==> addrs[k] != row
    ensures Contribution(addrs, src, w, row, col) == 0.0
    decreases |addrs|
  {
    if addrs != [] {
      var n := |addrs| - 1;
      RowFits(n, |addrs|, w);
      ContributionUnaddressed(addrs[..n], src[..n * w], w, row, col);
    }
  }

  /** A row addressed by exactly one position `i` receives that position's object. */
  lemma {:induction false} ContributionSingle(addrs: seq<int>, src: seq<real>, w: pos, row: int, col: int, i: int)
    requires |src| == |addrs| * w && 0 <= col < w
    requires 0 <= i < |addrs| && addrs[i] == row
    requires forall k :: 0 <= k < |addrs| && k != i ==> addrs[k] != row
    ensures 0 <= i * w + col < |src|
    ensures Contribution(addrs, src, w, row, col) == src[i * w + col]
    decreases |addrs|
  {
    var n := |addrs| - 1;
    RowFits(n, |addrs|, w);
    RowFits(i, |addrs|, w);
    if i < n {
      RowFits(i, n, w);
      ContributionSingle(addrs[..n], src[..n * w], w, row, col, i);
    } else {
      ContributionUnaddressed(addrs[..n], src[..n * w], w, row, col);
    }
  }

  /** Moving every address by `d` moves every row's contribution by `d`. */
  lemma {:induction false} ContributionShift(addrs: seq<int>, moved: seq<int>, d: int, src: seq<real>, w: pos, row: int, col: int)
    requires |moved| == |addrs| && |src| == |addrs| * w && 0 <= col < w
    requires forall k :: 0 <= k < |addrs| ==> moved[k] == addrs[k] + d
    ensures Contribution(moved, src, w, row + d, col) == Contribution(addrs, src, w, row, col)
    decreases |addrs|
  {
    if addrs != [] {
      var n := |addrs| - 1;
      RowFits(n, |addrs|, w);
      ContributionShift(addrs[..n], moved[..n], d, src[..n * w], w, row, col);
    }
  }
}

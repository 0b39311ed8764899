/** The math-engine primitives the gather layer issues, each written out as
    the loop it stands for. Buffers are arrays; index buffers hold integers
    (the engine keeps them as floats and converts them on lookup). */
module MathEngine {
  import opened Arith
  import opened Tables

  /** `v` added to every value of `s`. */
  function PlusEach(s: seq<int>, v: int): (r: seq<int>)
    ensures |r| == |s|
  {
    seq(|s|, i requires 0 <= i < |s| => s[i] + v)
  }

  /** Every value of `s` multiplied by `f`. */
  function TimesEach(s: seq<int>, f: int): (r: seq<int>)
    ensures |r| == |s|
  {
    seq(|s|, i requires 0 <= i < |s| => s[i] * f)
  }

  /** Its column number `i % width` added to every value `i` of `s`. */
  function PlusColumn(s: seq<int>, width: pos): (r: seq<int>)
    ensures |r| == |s|
  {
    seq(|s|, i requires 0 <= i < |s| => s[i] + i % width)
  }

  /** VectorFill: the first `count` values of `dst` become `value`. */
  method VectorFill(dst: array<real>, value: real, count: nat)
    requires count <= dst.Length
    modifies dst
    ensures dst[..count] == seq(count, _ => value)
    ensures dst[count..] == old(dst[count..])
  {
    var i := 0;
    while i < count
      invariant 0 <= i <= count
      invariant dst[..i] == seq(i, _ => value)
      invariant dst[count..] == old(dst[count..])
    {
      dst[i] := value;
      i := i + 1;
    }
  }

  /** VectorCopy: `count` values of `src` from `srcOff` on are copied into
      `dst` from `dstOff` on; the rest of `dst` is left as it was. */
  method VectorCopy(dst: array<real>, dstOff: nat, src: array<real>, srcOff: nat, count: nat)
    requires dst != src
    requires dstOff + count <= dst.Length && srcOff + count <= src.Length
    modifies dst
    ensures dst[..] == old(dst[..dstOff]) + src[srcOff .. srcOff + count] + old(dst[dstOff + count ..])
    ensures dstOff == 0 && count == dst.Length && srcOff + count == src.Length ==> dst[..] == src[srcOff..]
  {
    var i := 0;
    while i < count
      invariant 0 <= i <= count
      invariant dst[..dstOff] == old(dst[..dstOff])
      invariant dst[dstOff .. dstOff + i] == src[srcOff .. srcOff + i]
      invariant dst[dstOff + i ..] == old(dst[dstOff + i ..])
    {
      dst[dstOff + i] := src[srcOff + i];
      i := i + 1;
    }
    assert dst[..] == dst[..dstOff] + dst[dstOff .. dstOff + count] + dst[dstOff + count ..];
  }

  /** VectorAddValue: `dst[i] = src[i] + value` for the first `count` values. */
  method VectorAddValue(src: array<int>, dst: array<int>, count: nat, value: int)
    requires src != dst && count <= src.Length && count <= dst.Length
    modifies dst
    ensures dst[..count] == PlusEach(src[..count], value)
    ensures dst[count..] == old(dst[count..])
  {
    var i := 0;
    while i < count
      invariant 0 <= i <= count
      invariant dst[..i] == PlusEach(src[..i], value)
      invariant dst[count..] == old(dst[count..])
    {
      dst[i] := src[i] + value;
      i := i + 1;
    }
  }

  /** VectorMultiply by a scalar: `dst[i] = src[i] * factor` for the first `count` values. */
  method VectorMultiply(src: array<int>, dst: array<int>, count: nat, factor: int)
    requires src != dst && count <= src.Length && count <= dst.Length
    modifies dst
    ensures dst[..count] == TimesEach(src[..count], factor)
    ensures dst[count..] == old(dst[count..])
  {
    var i := 0;
    while i < count
      invariant 0 <= i <= count
      invariant dst[..i] == TimesEach(src[..i], factor)
      invariant dst[count..] == old(dst[count..])
    {
      dst[i] := src[i] * factor;
      i := i + 1;
    }
  }

  /** AddWidthIndex, forward, in place, on a buffer laid out as rows of
      `width` single values: each value gets its own column number added. */
  method AddWidthIndex(data: array<int>, width: pos)
    modifies data
    ensures data[..] == PlusColumn(old(data[..]), width)
  {
    var i := 0;
    while i < data.Length
      invariant 0 <= i <= data.Length
      invariant data[..i] == PlusColumn(old(data[..]), width)[..i]
      invariant data[i..] == old(data[i..])
    {
      data[i] := data[i] + i % width;
      i := i + 1;
    }
  }

  /** Copies row `a` of `table` (rows `w` wide) into object `k` of `out`,
      leaving the objects before it as they were. */
  method CopyRow(table: array<real>, a: int, k: int, w: pos, out: array<real>)
    requires 0 <= a && a * w + w <= table.Length
    requires 0 <= k && k * w + w <= out.Length && out != table
    modifies out
    ensures out[..k * w + w] == old(out[..k * w]) + table[a * w .. a * w + w]
  {
    var j := 0;
    while j < w
      invariant 0 <= j <= w
      invariant out[..k * w + j] == old(out[..k * w]) + table[a * w .. a * w + j]
    {
      out[k * w + j] := table[a * w + j];
      j := j + 1;
    }
  }

  /** Lookup-and-copy with one channel: for each address `addrs[k]`, row
      `addrs[k]` of `table` (a table of `rows` rows, each `w` wide) becomes
      object `k` of `out`. */
  method LookupAndCopy(addrs: array<int>, table: array<real>, rows: nat, w: pos, out: array<real>)
    requires table.Length == rows * w && InTable(addrs[..], rows)
    requires out.Length == addrs.Length * w && out != table
    modifies out
    ensures out[..] == Gathered(table[..], rows, w, addrs[..])
  {
    var k := 0;
    while k < addrs.Length
      invariant 0 <= k <= addrs.Length && InTable(addrs[..k], rows)
      invariant k * w <= out.Length
      invariant out[..k * w] == Gathered(table[..], rows, w, addrs[..k])
    {
      RowFits(k, addrs.Length, w);
      var a := addrs[k];
      RowFits(a, rows, w);
      ghost var done := Gathered(table[..], rows, w, addrs[..k]);
      CopyRow(table, a, k, w, out);
      assert addrs[..k + 1][..k] == addrs[..k];
      assert InTable(addrs[..k + 1], rows);
      assert Gathered(table[..], rows, w, addrs[..k + 1]) == done + Object(table[..], a, w);
      k := k + 1;
    }
    assert addrs[..k] == addrs[..];
    assert out[..] == out[..k * w];
  }

  /** Adds `scale` times object `k` of `src` into row `a` of `table`. */
  method AddScaledRow(table: array<real>, a: int, w: pos, scale: real, src: array<real>, k: int)
    requires 0 <= a && a * w + w <= table.Length
    requires 0 <= k && k * w + w <= src.Length && src != table
    modifies table
    ensures table[..] == AddToRow(old(table[..]), a, w, w, Scaled(scale, src[..])[k * w .. k * w + w])
  {
    ghost var before := table[..];
    ghost var row := Scaled(scale, src[..])[k * w .. k * w + w];
    var j := 0;
    while j < w
      invariant 0 <= j <= w
      invariant table[..] == AddToRow(before, a, w, j, row)
    {
      ghost var was := table[..];
      var p, x := a * w + j, scale * src[k * w + j];
      assert x == row[j];
      table[p] := table[p] + x;
      assert table[..] == AddToRow(before, a, w, j + 1, row) by {
        forall q | 0 <= q < table.Length
          ensures table[q] == AddToRow(before, a, w, j + 1, row)[q]
        {
          assert was[q] == AddToRow(before, a, w, j, row)[q];
        }
      }
      j := j + 1;
    }
  }

  /** Lookup-and-add-to-table with one channel: for each `k` in order,
      `scale` times object `k` of `src` is added into row `addrs[k]` of
      `table`; repeated addresses accumulate. */
  method LookupAndAddToTable(addrs: array<int>, table: array<real>, rows: nat, w: pos, scale: real, src: array<real>)
    requires table.Length == rows * w && InTable(addrs[..], rows)
    requires src.Length == addrs.Length * w && src != table
    modifies table
    ensures table[..] == ScatterAdded(old(table[..]), rows, w, addrs[..], Scaled(scale, src[..]))
  {
    ghost var start := table[..];
    ghost var scaled := Scaled(scale, src[..]);
    var k := 0;
    while k < addrs.Length
      invariant 0 <= k <= addrs.Length && InTable(addrs[..k], rows)
      invariant k * w <= |scaled|
      invariant table[..] == ScatterAdded(start, rows, w, addrs[..k], scaled[..k * w])
    {
      RowFits(k, addrs.Length, w);
      var a := addrs[k];
      RowFits(a, rows, w);
      AddScaledRow(table, a, w, scale, src, k);
      assert InTable(addrs[..k + 1], rows);
      ScatterAddedStep(start, rows, w, addrs[..k + 1], scaled[..(k + 1) * w], k);
      assert addrs[..k + 1][..k] == addrs[..k];
      assert scaled[..(k + 1) * w][..k * w] == scaled[..k * w];
      assert scaled[..(k + 1) * w][k * w .. k * w + w] == scaled[k * w .. k * w + w];
      k := k + 1;
    }
    assert addrs[..k] == addrs[..];
    assert scaled[..k * w] == scaled;
  }
}

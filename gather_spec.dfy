/** What the gather layer computes, as functions of its inputs: the shape
    rule, the flat addresses of the index blob, the padding adapter, the
    forward gather and the backward scatter-add, with the properties each of
    them has. The layer's methods (module Gather) are proved equal to these. */
module GatherSpec {
  import opened Arith
  import opened Tables
  import opened Blobs
  import opened MathEngine

  datatype Option<T> = None | Some(value: T)

  // ---------------------------------------------------------------------
  // Shape check
  // ---------------------------------------------------------------------

  /** The configuration failures the shape check reports, in the order it checks them. */
  datatype ShapeError =
    | BadInputsCount
    | BadWeightsType
    | BadIndexesType
    | BatchWidthMismatch
    | BadWeightsListSize
    | BadIndexesListSize
    | BadIndexesObjectSize

  datatype ShapeResult = Ok(output: BlobDesc) | Err(error: ShapeError)

  /** The input shapes the layer accepts. */
  predicate Compatible(weights: BlobDesc, indexes: BlobDesc)
  {
    weights.dataType == Float && weights.batchWidth == indexes.batchWidth
    && weights.listSize == 1 && indexes.listSize == 1 && indexes.objectSize == 1
  }

  /** The shape check of the layer, checks in source order. The second check
      is the one labelled as the index type check; it tests the weights type
      again, so the type of the index blob is never examined. */
  function CheckShapes(inputs: seq<BlobDesc>): (r: ShapeResult)
    ensures r.Ok? <==> |inputs| == 2 && Compatible(inputs[0], inputs[1])
    ensures r.Ok? ==>
      // one output object per index position, each shaped like a weights object
      && r.output.batchLength == inputs[1].batchLength
      && r.output.batchWidth == inputs[1].batchWidth == inputs[0].batchWidth
      && r.output.ObjectCount() == inputs[1].ObjectCount()
      && r.output.objectSize == inputs[0].objectSize
      && r.output.dataType == inputs[0].dataType
      && r.output.listSize == inputs[0].listSize
    // each error names the first constraint that fails, the earlier ones holding
    ensures r == Err(BadInputsCount) <==> |inputs| != 2
    ensures |inputs| == 2 ==> (r == Err(BadWeightsType) <==> inputs[0].dataType != Float)
    ensures |inputs| == 2 && inputs[0].dataType == Float ==>
      (r == Err(BatchWidthMismatch) <==> inputs[0].batchWidth != inputs[1].batchWidth)
    ensures |inputs| == 2 && inputs[0].dataType == Float && inputs[0].batchWidth == inputs[1].batchWidth ==>
      (r == Err(BadWeightsListSize) <==> inputs[0].listSize != 1)
    ensures |inputs| == 2 && inputs[0].dataType == Float && inputs[0].batchWidth == inputs[1].batchWidth
            && inputs[0].listSize == 1 ==>
      (r == Err(BadIndexesListSize) <==> inputs[1].listSize != 1)
    ensures |inputs| == 2 && inputs[0].dataType == Float && inputs[0].batchWidth == inputs[1].batchWidth
            && inputs[0].listSize == 1 && inputs[1].listSize == 1 ==>
      (r == Err(BadIndexesObjectSize) <==> inputs[1].objectSize != 1)
    // the type of the index blob is never examined
    ensures r.Err? ==> r.error != BadIndexesType
  {
    if |inputs| != 2 then Err(BadInputsCount)
    else
      var weights, indexes := inputs[0], inputs[1];
      if weights.dataType != Float then Err(BadWeightsType)
      else if weights.dataType != Float then Err(BadIndexesType)
      else if weights.batchWidth != indexes.batchWidth then Err(BatchWidthMismatch)
      else if weights.listSize != 1 then Err(BadWeightsListSize)
      else if indexes.listSize != 1 then Err(BadIndexesListSize)
      else if indexes.objectSize != 1 then Err(BadIndexesObjectSize)
      else Ok(weights.(batchLength := indexes.batchLength))
  }

  // ---------------------------------------------------------------------
  // Index flattening
  // ---------------------------------------------------------------------

  /** Flat addresses of an index buffer with `bw` columns: every value
      multiplied by `bw`, then its column number added (the two passes). */
  function FlatAddresses(idx: seq<int>, bw: pos): (r: seq<int>)
    ensures |r| == |idx|
    ensures forall i {:trigger r[i]} :: 0 <= i < |idx| ==> r[i] == idx[i] * bw + i % bw
  {
    PlusColumn(TimesEach(idx, bw), bw)
  }

  /** Index values in the documented range: a time step of the weights. */
  predicate ValidIndexes(idx: seq<int>, batchLength: int)
  {
    forall k :: 0 <= k < |idx| ==> 0 <= idx[k] < batchLength
  }

  /** The flat address of value `v` at position `i` names the weights object
      at time `v` and column `i % bw`: time and column can be read back. */
  lemma FlatAddressNamesObject(idx: seq<int>, bw: pos, i: int)
    requires 0 <= i < |idx|
    ensures FlatAddresses(idx, bw)[i] / bw == idx[i]
    ensures FlatAddresses(idx, bw)[i] % bw == i % bw
  {
    DivModOf(idx[i], i % bw, bw);
  }

  /** Every address lies in a table of `bl * bw` objects exactly when every
      index value is a time step below `bl`. */
  lemma {:induction false} FlatAddressesInTableIff(idx: seq<int>, bw: pos, bl: pos)
    ensures InTable(FlatAddresses(idx, bw), bl * bw) <==> ValidIndexes(idx, bl)
  {
    var addrs := FlatAddresses(idx, bw);
    forall k | 0 <= k < |idx|
      ensures (0 <= addrs[k] < bl * bw) <==> (0 <= idx[k] < bl)
    {
      MulAddRange(idx[k], k % bw, bl, bw);
    }
  }

  // ---------------------------------------------------------------------
  // Padding adapter
  // ---------------------------------------------------------------------

  /** Index values in the documented padded range: a time step or the
      sentinel -1. */
  predicate ValidPaddedIndexes(idx: seq<int>, batchLength: int)
  {
    forall k :: 0 <= k < |idx| ==> -1 <= idx[k] < batchLength
  }

  /** Every index value increased by one, so the sentinel -1 becomes 0. */
  function Shifted(idx: seq<int>): (r: seq<int>)
    ensures |r| == |idx| && forall k {:trigger r[k]} :: 0 <= k < |idx| ==> r[k] - 1 == idx[k]
  {
    PlusEach(idx, 1)
  }

  /** Shape of the padded weights: one time step holding every object plus one. */
  function PaddedDesc(d: BlobDesc): (r: BlobDesc)
    ensures d.listSize == 1 ==> r.ObjectCount() == d.ObjectCount() + 1
    ensures r.objectSize == d.objectSize && r.dataType == d.dataType
    ensures d.listSize == 1 ==> r.DataSize() == d.DataSize() + d.objectSize
  {
    var r := d.(batchLength := 1, batchWidth := 1 + d.ObjectCount());
    RowFits(d.ObjectCount(), d.ObjectCount() + 1, d.objectSize);
    r
  }

  /** Padded weights: a zero object first, then the original objects. */
  function PaddedTable(w: seq<real>, os: pos): (r: seq<real>)
    ensures |r| == |w| + os
    ensures forall p :: 0 <= p < os ==> r[p] == 0.0
    ensures forall p :: 0 <= p < |w| ==> r[os + p] == w[p]
  {
    Zeros(os) + w
  }

  /** Object 0 of the padded table is zero and object `j + 1` is original object `j`. */
  lemma PaddedTableObjects(w: seq<real>, os: pos, count: nat, j: int)
    requires |w| == count * os && 0 <= j < count
    ensures Object(PaddedTable(w, os), 0, os) == Zeros(os)
    ensures j * os + os <= |w| && (j + 1) * os + os <= |PaddedTable(w, os)|
    ensures Object(PaddedTable(w, os), j + 1, os) == Object(w, j, os)
  {
    RowFits(j, count, os);
    var t := PaddedTable(w, os);
    assert t[(j + 1) * os .. (j + 1) * os + os] == w[j * os .. j * os + os];
  }

  // ---------------------------------------------------------------------
  // Forward gather
  // ---------------------------------------------------------------------

  /** The index values the lookup uses: shifted when padding is on. */
  function EffectiveIndexes(idx: seq<int>, padded: bool): seq<int>
  {
    if padded then Shifted(idx) else idx
  }

  /** Number of rows of the table the lookup reads. */
  function EffectiveRows(wd: BlobDesc, padded: bool): pos
  {
    if padded then wd.ObjectCount() + 1 else wd.ObjectCount()
  }

  /** The table the lookup reads: the padded weights when padding is on. */
  function EffectiveTable(w: seq<real>, wd: BlobDesc, padded: bool): seq<real>
  {
    if padded then PaddedTable(w, wd.objectSize) else w
  }

  /** What the layer needs of its inputs before a forward or backward pass:
      the shape check passed, the buffers match their shapes, and every
      address the lookup computes lies inside the table it reads. */
  predicate Ready(wd: BlobDesc, id: BlobDesc, w: seq<real>, idx: seq<int>, padded: bool)
  {
    && Compatible(wd, id) && |w| == wd.DataSize() && |idx| == id.DataSize()
    && InTable(FlatAddresses(EffectiveIndexes(idx, padded), id.batchWidth), EffectiveRows(wd, padded))
  }

  lemma EffectiveTableSize(wd: BlobDesc, id: BlobDesc, w: seq<real>, idx: seq<int>, padded: bool)
    requires Ready(wd, id, w, idx, padded)
    ensures |EffectiveTable(w, wd, padded)| == EffectiveRows(wd, padded) * wd.objectSize
    ensures |idx| == wd.batchWidth * id.batchLength
  {
    RowFits(wd.ObjectCount(), wd.ObjectCount() + 1, wd.objectSize);
  }

  /** The forward pass: object `i` of the output is the table row addressed
      by the flat address of index position `i`. */
  function Forward(w: seq<real>, wd: BlobDesc, idx: seq<int>, id: BlobDesc, padded: bool): (out: seq<real>)
    requires Ready(wd, id, w, idx, padded)
    ensures |out| == |idx| * wd.objectSize
  {
    EffectiveTableSize(wd, id, w, idx, padded);
    Gathered(EffectiveTable(w, wd, padded), EffectiveRows(wd, padded), wd.objectSize,
             FlatAddresses(EffectiveIndexes(idx, padded), id.batchWidth))
  }

  /** Without padding, valid indexes meet the lookup's range requirement. */
  lemma ValidIndexesReady(wd: BlobDesc, id: BlobDesc, w: seq<real>, idx: seq<int>)
    requires Compatible(wd, id) && |w| == wd.DataSize() && |idx| == id.DataSize()
    requires ValidIndexes(idx, wd.batchLength)
    ensures Ready(wd, id, w, idx, false)
  {
    FlatAddressesInTableIff(idx, id.batchWidth, wd.batchLength);
  }

  /** Gather correctness: the output object at time `t`, column `c` is the
      weights object at time `indexes[t][c]`, column `c`. */
  lemma ForwardGathersObjects(w: seq<real>, wd: BlobDesc, idx: seq<int>, id: BlobDesc, t: int, c: int)
    requires Compatible(wd, id) && |w| == wd.DataSize() && |idx| == id.DataSize()
    requires ValidIndexes(idx, wd.batchLength)
    requires 0 <= t < id.batchLength && 0 <= c < id.batchWidth
    ensures Ready(wd, id, w, idx, false)
    ensures var i := t * id.batchWidth + c;
      0 <= i < |idx| && i * wd.objectSize + wd.objectSize <= |idx| * wd.objectSize
    ensures var v := idx[t * id.batchWidth + c];
      0 <= v * id.batchWidth + c < wd.ObjectCount()
      && (v * id.batchWidth + c) * wd.objectSize + wd.objectSize <= |w|
    ensures Object(Forward(w, wd, idx, id, false), t * id.batchWidth + c, wd.objectSize)
         == Object(w, idx[t * id.batchWidth + c] * id.batchWidth + c, wd.objectSize)
  {
    var bw, os := id.batchWidth, wd.objectSize;
    ValidIndexesReady(wd, id, w, idx);
    MulAddBound(t, c, id.batchLength, bw);
    var i := t * bw + c;
    RowFits(i, |idx|, os);
    DivModOf(t, c, bw);
    var addrs := FlatAddresses(idx, bw);
    assert addrs[i] == idx[i] * bw + c;
    GatheredObject(w, wd.ObjectCount(), os, addrs, i);
  }

  /** With padding on, output object `i` is object `(v + 1) * bw + c` of the
      padded table, where `v` is the index value and `c` its column: the zero
      object only when that number is 0, otherwise original object
      `v * bw + c + bw - 1`. */
  lemma PaddedForwardReads(w: seq<real>, wd: BlobDesc, idx: seq<int>, id: BlobDesc, i: int)
    requires Ready(wd, id, w, idx, true) && 0 <= i < |idx|
    ensures 0 <= (idx[i] + 1) * id.batchWidth + i % id.batchWidth <= wd.ObjectCount()
    ensures i * wd.objectSize + wd.objectSize <= |idx| * wd.objectSize
    ensures (idx[i] + 1) * id.batchWidth + i % id.batchWidth != 0 ==>
      0 <= idx[i] * id.batchWidth + i % id.batchWidth + id.batchWidth - 1
      && (idx[i] * id.batchWidth + i % id.batchWidth + id.batchWidth - 1) * wd.objectSize + wd.objectSize <= |w|
    ensures Object(Forward(w, wd, idx, id, true), i, wd.objectSize)
         == if (idx[i] + 1) * id.batchWidth + i % id.batchWidth == 0 then Zeros(wd.objectSize)
            else Object(w, idx[i] * id.batchWidth + i % id.batchWidth + id.batchWidth - 1, wd.objectSize)
  {
    var bw, os, n := id.batchWidth, wd.objectSize, wd.ObjectCount();
    var addrs := FlatAddresses(Shifted(idx), bw);
    var a := addrs[i];
    assert a == (idx[i] + 1) * bw + i % bw;
    RowFits(i, |idx|, os);
    EffectiveTableSize(wd, id, w, idx, true);
    GatheredObject(PaddedTable(w, os), n + 1, os, addrs, i);
    if a == 0 {
      PaddedTableObjects(w, os, n, 0);
    } else {
      PaddedTableObjects(w, os, n, a - 1);
      assert a - 1 == idx[i] * bw + i % bw + bw - 1;
    }
  }

  /** With one column, padding does what it is documented to do: the sentinel
      -1 reads the zero object and a valid index `v` reads weights object `v`. */
  lemma PaddedForwardSingleColumn(w: seq<real>, wd: BlobDesc, idx: seq<int>, id: BlobDesc, i: int)
    requires Compatible(wd, id) && |w| == wd.DataSize() && |idx| == id.DataSize()
    requires id.batchWidth == 1 && ValidPaddedIndexes(idx, wd.batchLength) && 0 <= i < |idx|
    ensures Ready(wd, id, w, idx, true)
    ensures i * wd.objectSize + wd.objectSize <= |idx| * wd.objectSize
    ensures idx[i] >= 0 ==> 0 <= idx[i] < wd.ObjectCount() && idx[i] * wd.objectSize + wd.objectSize <= |w|
    ensures Object(Forward(w, wd, idx, id, true), i, wd.objectSize)
         == if idx[i] == -1 then Zeros(wd.objectSize) else Object(w, idx[i], wd.objectSize)
  {
    var addrs := FlatAddresses(Shifted(idx), 1);
    assert InTable(addrs, wd.ObjectCount() + 1) by {
      forall k | 0 <= k < |addrs| ensures 0 <= addrs[k] < wd.ObjectCount() + 1 {
        assert addrs[k] == idx[k] + 1;
      }
    }
    PaddedForwardReads(w, wd, idx, id, i);
  }

  // ---------------------------------------------------------------------
  // Backward scatter-add
  // ---------------------------------------------------------------------

  /** The backward pass: `lr` times each output-gradient object is added into
      the row its flat address names; with padding on, the accumulation is
      done on the padded copy and everything after its first object is
      copied back. */
  function Backward(old_: seq<real>, wd: BlobDesc, idx: seq<int>, id: BlobDesc, outDiff: seq<real>, lr: real, padded: bool): (r: seq<real>)
    requires Ready(wd, id, old_, idx, padded) && |outDiff| == |idx| * wd.objectSize
    ensures |r| == |old_|
  {
    EffectiveTableSize(wd, id, old_, idx, padded);
    var table := ScatterAdded(EffectiveTable(old_, wd, padded), EffectiveRows(wd, padded), wd.objectSize,
                              FlatAddresses(EffectiveIndexes(idx, padded), id.batchWidth), Scaled(lr, outDiff));
    if padded then table[wd.objectSize..] else table
  }

  /** Gradient attribution without padding: value `j` of object `o` is its old
      value plus the sum of the scaled output gradients of every position
      whose address is `o` (`lr` times the unscaled sum, by ContributionScaled). */
  lemma BackwardAccumulates(old_: seq<real>, wd: BlobDesc, idx: seq<int>, id: BlobDesc, outDiff: seq<real>, lr: real, o: int, j: int)
    requires Ready(wd, id, old_, idx, false) && |outDiff| == |idx| * wd.objectSize
    requires 0 <= o < wd.ObjectCount() && 0 <= j < wd.objectSize
    ensures 0 <= o * wd.objectSize + j < |old_|
    ensures Backward(old_, wd, idx, id, outDiff, lr, false)[o * wd.objectSize + j]
         == old_[o * wd.objectSize + j] + Contribution(FlatAddresses(idx, id.batchWidth), Scaled(lr, outDiff), wd.objectSize, o, j)
  {
    var os, n, addrs := wd.objectSize, wd.ObjectCount(), FlatAddresses(idx, id.batchWidth);
    EffectiveTableSize(wd, id, old_, idx, false);
    assert Backward(old_, wd, idx, id, outDiff, lr, false) == ScatterAdded(old_, n, os, addrs, Scaled(lr, outDiff));
    ScatterAddedAt(old_, n, os, addrs, Scaled(lr, outDiff), o, j);
  }

  /** An object no index position addresses keeps its old value. */
  lemma BackwardUnaddressedUnchanged(old_: seq<real>, wd: BlobDesc, idx: seq<int>, id: BlobDesc, outDiff: seq<real>, lr: real, o: int)
    requires Ready(wd, id, old_, idx, false) && |outDiff| == |idx| * wd.objectSize
    requires 0 <= o < wd.ObjectCount()
    requires forall k :: 0 <= k < |idx| ==> FlatAddresses(idx, id.batchWidth)[k] != o
    ensures o * wd.objectSize + wd.objectSize <= |old_|
    ensures Object(Backward(old_, wd, idx, id, outDiff, lr, false), o, wd.objectSize) == Object(old_, o, wd.objectSize)
  {
    var os, addrs := wd.objectSize, FlatAddresses(idx, id.batchWidth);
    RowFits(o, wd.ObjectCount(), os);
    var r := Backward(old_, wd, idx, id, outDiff, lr, false);
    forall j | 0 <= j < os ensures Object(r, o, os)[j] == Object(old_, o, os)[j] {
      BackwardAccumulates(old_, wd, idx, id, outDiff, lr, o, j);
      ContributionUnaddressed(addrs, Scaled(lr, outDiff), os, o, j);
    }
  }

  /** An object addressed by exactly one position `i` gains the output
      gradient at that position, scaled by `lr`. */
  lemma BackwardSingleWriter(old_: seq<real>, wd: BlobDesc, idx: seq<int>, id: BlobDesc, outDiff: seq<real>, lr: real, i: int, j: int)
    requires Ready(wd, id, old_, idx, false) && |outDiff| == |idx| * wd.objectSize
    requires 0 <= i < |idx| && 0 <= j < wd.objectSize
    requires forall k :: 0 <= k < |idx| && k != i ==> FlatAddresses(idx, id.batchWidth)[k] != FlatAddresses(idx, id.batchWidth)[i]
    ensures var o := FlatAddresses(idx, id.batchWidth)[i];
      0 <= o * wd.objectSize + j < |old_| && 0 <= i * wd.objectSize + j < |outDiff|
      && Backward(old_, wd, idx, id, outDiff, lr, false)[o * wd.objectSize + j]
         == old_[o * wd.objectSize + j] + Scaled(lr, outDiff)[i * wd.objectSize + j]
  {
    var os, addrs := wd.objectSize, FlatAddresses(idx, id.batchWidth);
    var o := addrs[i];
    BackwardAccumulates(old_, wd, idx, id, outDiff, lr, o, j);
    ContributionSingle(addrs, Scaled(lr, outDiff), os, o, j, i);
  }

  /** Padded backward: object `o` of the returned gradient is object `o + 1`
      of the padded accumulator, so whatever was routed to object 0 is
      dropped. */
  lemma PaddedBackwardDropsFirstObject(old_: seq<real>, wd: BlobDesc, idx: seq<int>, id: BlobDesc, outDiff: seq<real>, lr: real, o: int, j: int)
    requires Ready(wd, id, old_, idx, true) && |outDiff| == |idx| * wd.objectSize
    requires 0 <= o < wd.ObjectCount() && 0 <= j < wd.objectSize
    ensures 0 <= o * wd.objectSize + j < |old_|
    ensures Backward(old_, wd, idx, id, outDiff, lr, true)[o * wd.objectSize + j]
         == old_[o * wd.objectSize + j]
            + Contribution(FlatAddresses(Shifted(idx), id.batchWidth), Scaled(lr, outDiff), wd.objectSize, o + 1, j)
  {
    var os, n := wd.objectSize, wd.ObjectCount();
    EffectiveTableSize(wd, id, old_, idx, true);
    ScatterAddedPastPrefix(EffectiveTable(old_, wd, true), EffectiveRows(wd, true), os, old_, 1, n, os,
                           FlatAddresses(EffectiveIndexes(idx, true), id.batchWidth), Scaled(lr, outDiff), o, j);
  }

  /** With one column, padded backward routes each position with index `v`
      to object `v` and drops every sentinel position: the returned gradient
      is the old one plus the scaled gradients of the positions whose index
      is `o`. */
  lemma PaddedBackwardSingleColumn(old_: seq<real>, wd: BlobDesc, idx: seq<int>, id: BlobDesc, outDiff: seq<real>, lr: real, o: int, j: int)
    requires Ready(wd, id, old_, idx, true) && |outDiff| == |idx| * wd.objectSize
    requires id.batchWidth == 1
    requires 0 <= o < wd.ObjectCount() && 0 <= j < wd.objectSize
    ensures 0 <= o * wd.objectSize + j < |old_|
    ensures Backward(old_, wd, idx, id, outDiff, lr, true)[o * wd.objectSize + j]
         == old_[o * wd.objectSize + j] + Contribution(idx, Scaled(lr, outDiff), wd.objectSize, o, j)
  {
    var addrs := FlatAddresses(Shifted(idx), 1);
    PaddedBackwardDropsFirstObject(old_, wd, idx, id, outDiff, lr, o, j);
    ContributionShift(idx, addrs, 1, Scaled(lr, outDiff), wd.objectSize, o, j);
  }
}

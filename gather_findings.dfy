/** Two places where the gather layer does not do what it says, each shown on
    a concrete input, together with the definition that does what was meant
    and the property proved about it:

    1. Padding prepends one zero object, but the shifted index is still
       multiplied by the batch width, so with more than one column every
       padded lookup is off by `batchWidth - 1` objects.
    2. The shape check labelled as the index type check tests the weights
       type a second time. */
module GatherFindings {
  import opened Arith
  import opened Tables
  import opened Blobs
  import opened MathEngine
  import opened GatherSpec

  // ---------------------------------------------------------------------
  // Concrete inputs: three time steps of two columns of scalar weights
  // ---------------------------------------------------------------------

  const Weights: seq<real> := [1.0, 2.0, 3.0, 4.0, 5.0, 6.0]
  const WeightsDesc := BlobDesc(3, 2, 1, 1, Float)
  /** Two time steps of two indexes. */
  const IndexesDesc := BlobDesc(2, 2, 1, 1, Float)

  /** Object `k` of a buffer of scalars is its value `k`. */
  lemma ScalarObject(s: seq<real>, k: int)
    requires 0 <= k < |s|
    ensures Object(s, k, 1) == [s[k]]
  {
  }

  /** Without padding, indexes [0,1],[1,2] pick [1,4],[3,6]. */
  lemma UnpaddedExample()
    ensures Ready(WeightsDesc, IndexesDesc, Weights, [0, 1, 1, 2], false)
    ensures Forward(Weights, WeightsDesc, [0, 1, 1, 2], IndexesDesc, false) == [1.0, 4.0, 3.0, 6.0]
  {
    var idx := [0, 1, 1, 2];
    ValidIndexesReady(WeightsDesc, IndexesDesc, Weights, idx);
    var out := Forward(Weights, WeightsDesc, idx, IndexesDesc, false);
    ForwardGathersObjects(Weights, WeightsDesc, idx, IndexesDesc, 0, 0);
    ForwardGathersObjects(Weights, WeightsDesc, idx, IndexesDesc, 0, 1);
    ForwardGathersObjects(Weights, WeightsDesc, idx, IndexesDesc, 1, 0);
    ForwardGathersObjects(Weights, WeightsDesc, idx, IndexesDesc, 1, 1);
    ScalarObject(out, 0); ScalarObject(out, 1); ScalarObject(out, 2); ScalarObject(out, 3);
    ScalarObject(Weights, 0); ScalarObject(Weights, 3); ScalarObject(Weights, 2); ScalarObject(Weights, 5);
  }

  /** As written, with padding on, indexes [0,1],[-1,0] pick [2,5],[0,3]:
      every real index reads the object one column further on, where
      [1,4],[0,2] was meant. */
  lemma PaddedExampleAsWritten()
    ensures Ready(WeightsDesc, IndexesDesc, Weights, [0, 1, -1, 0], true)
    ensures Forward(Weights, WeightsDesc, [0, 1, -1, 0], IndexesDesc, true) == [2.0, 5.0, 0.0, 3.0]
  {
    var idx := [0, 1, -1, 0];
    var addrs := FlatAddresses(Shifted(idx), 2);
    assert addrs == [2, 5, 0, 3];
    var out := Forward(Weights, WeightsDesc, idx, IndexesDesc, true);
    PaddedForwardReads(Weights, WeightsDesc, idx, IndexesDesc, 0);
    PaddedForwardReads(Weights, WeightsDesc, idx, IndexesDesc, 1);
    PaddedForwardReads(Weights, WeightsDesc, idx, IndexesDesc, 2);
    PaddedForwardReads(Weights, WeightsDesc, idx, IndexesDesc, 3);
    ScalarObject(out, 0); ScalarObject(out, 1); ScalarObject(out, 2); ScalarObject(out, 3);
    ScalarObject(Weights, 1); ScalarObject(Weights, 4); ScalarObject(Weights, 2);
  }

  /** As written, with padding on, the largest valid index in any column but
      the first addresses past the end of the padded table: index 2 in
      column 1 gives address 7 in a table of 7 objects. */
  lemma PaddedRangeAsWritten()
    ensures ValidPaddedIndexes([0, 2], WeightsDesc.batchLength)
    ensures !Ready(WeightsDesc, BlobDesc(1, 2, 1, 1, Float), Weights, [0, 2], true)
  {
    var addrs := FlatAddresses(Shifted([0, 2]), 2);
    assert addrs[1] == 7;
  }

  /** As written, with padding on, the gradient of a padding position leaks
      into a real weight: position 1 holds the sentinel -1 in column 1, and
      its gradient is added to object 0. */
  lemma PaddedGradientLeakAsWritten(old_: seq<real>, outDiff: seq<real>, lr: real)
    requires |old_| == 4 && |outDiff| == 4
    ensures Ready(BlobDesc(2, 2, 1, 1, Float), IndexesDesc, old_, [1, -1, -1, 0], true)
    ensures Backward(old_, BlobDesc(2, 2, 1, 1, Float), [1, -1, -1, 0], IndexesDesc, outDiff, lr, true)[0]
         == old_[0] + Scaled(lr, outDiff)[1]
  {
    var wd, idx := BlobDesc(2, 2, 1, 1, Float), [1, -1, -1, 0];
    var addrs := FlatAddresses(Shifted(idx), 2);
    assert Shifted(idx) == [2, 0, 0, 1];
    assert addrs == [4, 1, 0, 3];
    PaddedBackwardDropsFirstObject(old_, wd, idx, IndexesDesc, outDiff, lr, 0, 0);
    ContributionSingle(addrs, Scaled(lr, outDiff), 1, 1, 0, 1);
  }

  // ---------------------------------------------------------------------
  // Padding as intended: one zero time step, `batchWidth` zero objects
  // ---------------------------------------------------------------------

  /** The padded weights as intended: a whole zero time step in front, so
      that time `v + 1` of the padded table is time `v` of the weights. */
  function IntendedPaddedTable(w: seq<real>, bw: pos, os: pos): (r: seq<real>)
    ensures |r| == bw * os + |w|
    ensures forall p :: 0 <= p < bw * os ==> r[p] == 0.0
    ensures forall p {:trigger w[p]} :: 0 <= p < |w| ==> r[bw * os + p] == w[p]
  {
    MulSign(bw, os);
    Zeros(bw * os) + w
  }

  /** What the intended padding needs: valid shapes and every index a time
      step or the sentinel -1. */
  predicate IntendedReady(wd: BlobDesc, id: BlobDesc, w: seq<real>, idx: seq<int>)
  {
    Compatible(wd, id) && |w| == wd.DataSize() && |idx| == id.DataSize()
    && ValidPaddedIndexes(idx, wd.batchLength)
  }

  /** With a whole zero time step in front, every shifted index is in range. */
  lemma IntendedAddressesInTable(wd: BlobDesc, id: BlobDesc, w: seq<real>, idx: seq<int>)
    requires IntendedReady(wd, id, w, idx)
    ensures InTable(FlatAddresses(Shifted(idx), id.batchWidth), wd.ObjectCount() + id.batchWidth)
    ensures |IntendedPaddedTable(w, id.batchWidth, wd.objectSize)| == (wd.ObjectCount() + id.batchWidth) * wd.objectSize
  {
    var bw := id.batchWidth;
    var s := Shifted(idx);
    assert ValidIndexes(s, wd.batchLength + 1);
    FlatAddressesInTableIff(s, bw, wd.batchLength + 1);
    ShiftRows(wd.batchLength, 1, bw, 0);
    ShiftRows(wd.ObjectCount(), bw, wd.objectSize, 0);
  }

  /** Forward pass with the intended padding. */
  function IntendedPaddedForward(w: seq<real>, wd: BlobDesc, idx: seq<int>, id: BlobDesc): (out: seq<real>)
    requires IntendedReady(wd, id, w, idx)
    ensures |out| == |idx| * wd.objectSize
  {
    IntendedAddressesInTable(wd, id, w, idx);
    Gathered(IntendedPaddedTable(w, id.batchWidth, wd.objectSize), wd.ObjectCount() + id.batchWidth,
             wd.objectSize, FlatAddresses(Shifted(idx), id.batchWidth))
  }

  /** The first `bw` objects of the intended padded table are zero. */
  lemma IntendedTableZero(w: seq<real>, bw: pos, os: pos, a: int)
    requires 0 <= a < bw
    ensures a * os + os <= |IntendedPaddedTable(w, bw, os)|
    ensures Object(IntendedPaddedTable(w, bw, os), a, os) == Zeros(os)
  {
    RowFits(a, bw, os);
    assert IntendedPaddedTable(w, bw, os)[a * os .. a * os + os] == Zeros(os);
  }

  /** Object `b + bw` of the intended padded table is weights object `b`. */
  lemma IntendedTableShift(w: seq<real>, bw: pos, os: pos, n: nat, b: int, a: int)
    requires |w| == n * os && 0 <= b < n && a == b + bw
    ensures a * os + os <= |IntendedPaddedTable(w, bw, os)| && b * os + os <= |w|
    ensures Object(IntendedPaddedTable(w, bw, os), a, os) == Object(w, b, os)
  {
    RowFits(b, n, os);
    ShiftRows(b, bw, os, 0);
    assert IntendedPaddedTable(w, bw, os)[a * os .. a * os + os] == w[b * os .. b * os + os];
  }

  /** Output object `i` of the intended padded gather is object
      `(v + 1) * bw + c` of the intended padded table, where `v` is the index
      value and `c` its column. */
  lemma IntendedPaddedForwardAt(w: seq<real>, wd: BlobDesc, idx: seq<int>, id: BlobDesc, i: int)
    requires IntendedReady(wd, id, w, idx) && 0 <= i < |idx|
    ensures |w| == wd.ObjectCount() * wd.objectSize
    ensures i * wd.objectSize + wd.objectSize <= |idx| * wd.objectSize
    ensures var a := (idx[i] + 1) * id.batchWidth + i % id.batchWidth;
      0 <= a < wd.ObjectCount() + id.batchWidth
      && a * wd.objectSize + wd.objectSize <= |IntendedPaddedTable(w, id.batchWidth, wd.objectSize)|
      && Object(IntendedPaddedForward(w, wd, idx, id), i, wd.objectSize)
         == Object(IntendedPaddedTable(w, id.batchWidth, wd.objectSize), a, wd.objectSize)
  {
    var bw, os, n := id.batchWidth, wd.objectSize, wd.ObjectCount();
    var addrs := FlatAddresses(Shifted(idx), bw);
    RowFits(i, |idx|, os);
    IntendedAddressesInTable(wd, id, w, idx);
    GatheredObject(IntendedPaddedTable(w, bw, os), n + bw, os, addrs, i);
    assert addrs[i] == (idx[i] + 1) * bw + i % bw;
  }

  /** Intended padded gather: the sentinel reads a zero object and a real
      index `v` in column `c` reads weights object `v * bw + c`, for every
      batch width. */
  lemma IntendedPaddedForwardCorrect(w: seq<real>, wd: BlobDesc, idx: seq<int>, id: BlobDesc, i: int)
    requires IntendedReady(wd, id, w, idx) && 0 <= i < |idx|
    ensures i * wd.objectSize + wd.objectSize <= |idx| * wd.objectSize
    ensures idx[i] != -1 ==>
      (0 <= idx[i] * id.batchWidth + i % id.batchWidth < wd.ObjectCount()
       && (idx[i] * id.batchWidth + i % id.batchWidth) * wd.objectSize + wd.objectSize <= |w|)
    ensures Object(IntendedPaddedForward(w, wd, idx, id), i, wd.objectSize)
         == if idx[i] == -1 then Zeros(wd.objectSize)
            else Object(w, idx[i] * id.batchWidth + i % id.batchWidth, wd.objectSize)
  {
    IntendedPaddedForwardAt(w, wd, idx, id, i);
    if idx[i] == -1 {
      ShiftRows(idx[i], 1, id.batchWidth, i % id.batchWidth);
      MulCongruence(idx[i], -1, id.batchWidth);
      IntendedTableZero(w, id.batchWidth, wd.objectSize, (idx[i] + 1) * id.batchWidth + i % id.batchWidth);
    } else {
      MulAddBound(idx[i], i % id.batchWidth, wd.batchLength, id.batchWidth);
      ShiftRows(idx[i], 1, id.batchWidth, i % id.batchWidth);
      IntendedTableShift(w, id.batchWidth, wd.objectSize, wd.ObjectCount(), idx[i] * id.batchWidth + i % id.batchWidth,
                         (idx[i] + 1) * id.batchWidth + i % id.batchWidth);
    }
  }

  /** Backward pass with the intended padding: accumulate on the padded copy,
      copy back everything after the zero time step. */
  function IntendedPaddedBackward(old_: seq<real>, wd: BlobDesc, idx: seq<int>, id: BlobDesc, outDiff: seq<real>, lr: real): (r: seq<real>)
    requires IntendedReady(wd, id, old_, idx) && |outDiff| == |idx| * wd.objectSize
    ensures |r| == |old_|
  {
    IntendedAddressesInTable(wd, id, old_, idx);
    var bw, os := id.batchWidth, wd.objectSize;
    ScatterAdded(IntendedPaddedTable(old_, bw, os), wd.ObjectCount() + bw, os,
                 FlatAddresses(Shifted(idx), bw), Scaled(lr, outDiff))[bw * os..]
  }

  /** Value `p` of the intended padded backward result is value
      `bw * os + p` of the padded accumulator. */
  lemma IntendedPaddedBackwardAt(old_: seq<real>, wd: BlobDesc, idx: seq<int>, id: BlobDesc, outDiff: seq<real>, lr: real, o: int, j: int)
    requires IntendedReady(wd, id, old_, idx) && |outDiff| == |idx| * wd.objectSize
    requires 0 <= o < wd.ObjectCount() && 0 <= j < wd.objectSize
    ensures 0 <= o * wd.objectSize + j < |old_|
    ensures IntendedPaddedBackward(old_, wd, idx, id, outDiff, lr)[o * wd.objectSize + j]
         == old_[o * wd.objectSize + j]
            + Contribution(FlatAddresses(Shifted(idx), id.batchWidth), Scaled(lr, outDiff), wd.objectSize, o + id.batchWidth, j)
  {
    IntendedAddressesInTable(wd, id, old_, idx);
    ScatterAddedPastPrefix(IntendedPaddedTable(old_, id.batchWidth, wd.objectSize), wd.ObjectCount() + id.batchWidth,
                           id.batchWidth * wd.objectSize, old_, id.batchWidth, wd.ObjectCount(), wd.objectSize,
                           FlatAddresses(Shifted(idx), id.batchWidth), Scaled(lr, outDiff), o, j);
  }

  /** Intended padded backward: object `o` gains exactly the scaled gradients
      of the positions whose unpadded address is `o`. A sentinel's unpadded
      address is negative, so padding positions reach no weight. */
  lemma IntendedPaddedBackwardCorrect(old_: seq<real>, wd: BlobDesc, idx: seq<int>, id: BlobDesc, outDiff: seq<real>, lr: real, o: int, j: int)
    requires IntendedReady(wd, id, old_, idx) && |outDiff| == |idx| * wd.objectSize
    requires 0 <= o < wd.ObjectCount() && 0 <= j < wd.objectSize
    ensures 0 <= o * wd.objectSize + j < |old_|
    ensures IntendedPaddedBackward(old_, wd, idx, id, outDiff, lr)[o * wd.objectSize + j]
         == old_[o * wd.objectSize + j] + Contribution(FlatAddresses(idx, id.batchWidth), Scaled(lr, outDiff), wd.objectSize, o, j)
  {
    var bw := id.batchWidth;
    var addrs, flat := FlatAddresses(Shifted(idx), bw), FlatAddresses(idx, bw);
    IntendedPaddedBackwardAt(old_, wd, idx, id, outDiff, lr, o, j);
    forall k | 0 <= k < |idx| ensures addrs[k] == flat[k] + bw {
      ShiftRows(idx[k], 1, bw, k % bw);
    }
    ContributionShift(flat, addrs, bw, Scaled(lr, outDiff), wd.objectSize, o, j);
  }

  /** A sentinel's unpadded address is negative: it names no weight. */
  lemma SentinelAddressNegative(idx: seq<int>, bw: pos, k: int)
    requires 0 <= k < |idx| && idx[k] == -1
    ensures FlatAddresses(idx, bw)[k] < 0
  {
  }

  /** With one column the intended padded table is the padded table as written. */
  lemma SingleColumnTable(w: seq<real>, bw: pos, os: pos)
    requires bw == 1
    ensures bw * os == os && IntendedPaddedTable(w, bw, os) == PaddedTable(w, os)
  {
  }

  /** With one column the intended padding is the padding as written, so the
      layer's padded passes are correct in that case. */
  lemma IntendedAgreesForSingleColumn(w: seq<real>, wd: BlobDesc, idx: seq<int>, id: BlobDesc, outDiff: seq<real>, lr: real)
    requires IntendedReady(wd, id, w, idx) && id.batchWidth == 1 && |outDiff| == |idx| * wd.objectSize
    ensures Ready(wd, id, w, idx, true)
    ensures IntendedPaddedForward(w, wd, idx, id) == Forward(w, wd, idx, id, true)
    ensures IntendedPaddedBackward(w, wd, idx, id, outDiff, lr) == Backward(w, wd, idx, id, outDiff, lr, true)
  {
    IntendedAddressesInTable(wd, id, w, idx);
    SingleColumnTable(w, id.batchWidth, wd.objectSize);
    assert Ready(wd, id, w, idx, true);
    EffectiveTableSize(wd, id, w, idx, true);
    var addrs := FlatAddresses(Shifted(idx), id.batchWidth);
    var acc := ScatterAdded(PaddedTable(w, wd.objectSize), wd.ObjectCount() + 1, wd.objectSize, addrs, Scaled(lr, outDiff));
    assert Forward(w, wd, idx, id, true) == Gathered(PaddedTable(w, wd.objectSize), wd.ObjectCount() + 1, wd.objectSize, addrs);
    assert Backward(w, wd, idx, id, outDiff, lr, true) == acc[wd.objectSize..];
    assert IntendedPaddedBackward(w, wd, idx, id, outDiff, lr) == acc[wd.objectSize..];
  }

  /** With padding intended, a padding position's gradient stays out of the
      weights: in the example where the code as written leaks it into
      object 0, object 0 keeps its value. */
  lemma PaddedGradientIntended(old_: seq<real>, outDiff: seq<real>, lr: real)
    requires |old_| == 4 && |outDiff| == 4
    ensures IntendedReady(BlobDesc(2, 2, 1, 1, Float), IndexesDesc, old_, [1, -1, -1, 0])
    ensures IntendedPaddedBackward(old_, BlobDesc(2, 2, 1, 1, Float), [1, -1, -1, 0], IndexesDesc, outDiff, lr)[0] == old_[0]
  {
    var wd, idx := BlobDesc(2, 2, 1, 1, Float), [1, -1, -1, 0];
    IntendedPaddedBackwardCorrect(old_, wd, idx, IndexesDesc, outDiff, lr, 0, 0);
    var flat := FlatAddresses(idx, 2);
    assert flat == [2, -1, -2, 1];
    ContributionUnaddressed(flat, Scaled(lr, outDiff), 1, 0, 0);
  }

  /** With the intended padding, indexes [0,1],[-1,0] pick [1,4],[0,2]. */
  lemma PaddedExampleIntended()
    ensures IntendedReady(WeightsDesc, IndexesDesc, Weights, [0, 1, -1, 0])
    ensures IntendedPaddedForward(Weights, WeightsDesc, [0, 1, -1, 0], IndexesDesc) == [1.0, 4.0, 0.0, 2.0]
  {
    var idx := [0, 1, -1, 0];
    var out := IntendedPaddedForward(Weights, WeightsDesc, idx, IndexesDesc);
    IntendedPaddedForwardCorrect(Weights, WeightsDesc, idx, IndexesDesc, 0);
    IntendedPaddedForwardCorrect(Weights, WeightsDesc, idx, IndexesDesc, 1);
    IntendedPaddedForwardCorrect(Weights, WeightsDesc, idx, IndexesDesc, 2);
    IntendedPaddedForwardCorrect(Weights, WeightsDesc, idx, IndexesDesc, 3);
    ScalarObject(out, 0); ScalarObject(out, 1); ScalarObject(out, 2); ScalarObject(out, 3);
    ScalarObject(Weights, 0); ScalarObject(Weights, 3); ScalarObject(Weights, 1);
  }

  // ---------------------------------------------------------------------
  // Shape check as intended
  // ---------------------------------------------------------------------

  /** The shape check with the index type tested as its label says. */
  function CheckShapesIntended(inputs: seq<BlobDesc>): (r: ShapeResult)
    ensures r.Ok? <==> |inputs| == 2 && Compatible(inputs[0], inputs[1]) && inputs[1].dataType == Float
    ensures |inputs| == 2 && inputs[0].dataType == Float && inputs[1].dataType != Float ==> r == Err(BadIndexesType)
    ensures |inputs| != 2 || inputs[0].dataType != Float || inputs[1].dataType == Float ==> r == CheckShapes(inputs)
  {
    if |inputs| != 2 then Err(BadInputsCount)
    else
      var weights, indexes := inputs[0], inputs[1];
      if weights.dataType != Float then Err(BadWeightsType)
      else if indexes.dataType != Float then Err(BadIndexesType)
      else if weights.batchWidth != indexes.batchWidth then Err(BatchWidthMismatch)
      else if weights.listSize != 1 then Err(BadWeightsListSize)
      else if indexes.listSize != 1 then Err(BadIndexesListSize)
      else if indexes.objectSize != 1 then Err(BadIndexesObjectSize)
      else Ok(weights.(batchLength := indexes.batchLength))
  }

  /** As written, an integer index blob passes the shape check. */
  lemma IntIndexesAcceptedAsWritten()
    ensures CheckShapes([WeightsDesc, IndexesDesc.(dataType := Int)]).Ok?
    ensures CheckShapesIntended([WeightsDesc, IndexesDesc.(dataType := Int)]) == Err(BadIndexesType)
  {
  }
}

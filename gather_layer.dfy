/** The gather layer: its padding flag, its shape check and its forward and
    backward passes, written as the sequence of math-engine calls they make.
    Each pass is proved to compute the matching function of GatherSpec. */
module Gather {
  import opened Arith
  import opened Tables
  import opened Blobs
  import opened MathEngine
  import opened GatherSpec

  class GatherLayer {
    /** Whether the index value -1 selects a zero object. */
    var arePaddingsUsed: bool
    /** Output shapes set by the last successful shape check. */
    var outputDescs: seq<BlobDesc>

    /** A new layer, padding disabled. */
    constructor ()
      ensures !arePaddingsUsed && outputDescs == []
    {
      arePaddingsUsed := false;
      outputDescs := [];
    }

    /** Turns padding on or off; called without an argument it turns it on. */
    method EnablePaddings(enable: bool := true)
      modifies this`arePaddingsUsed
      ensures arePaddingsUsed == enable
    {
      arePaddingsUsed := enable;
    }

    method ArePaddingsEnabled() returns (enabled: bool)
      ensures enabled == arePaddingsUsed
    {
      enabled := arePaddingsUsed;
    }

    /** Shape check: on success the one output shape is recorded, on a
        configuration error the error is reported and nothing changes. */
    method Reshape(inputDescs: seq<BlobDesc>) returns (error: Option<ShapeError>)
      modifies this`outputDescs
      ensures error.None? <==> |inputDescs| == 2 && Compatible(inputDescs[0], inputDescs[1])
      ensures error.None? ==> outputDescs == [CheckShapes(inputDescs).output]
      ensures error.Some? ==> error.value == CheckShapes(inputDescs).error && outputDescs == old(outputDescs)
    {
      match CheckShapes(inputDescs)
      case Err(e) =>
        error := Some(e);
      case Ok(d) =>
        outputDescs := [d];
        error := None;
    }

    /** Forward pass: fills the output buffer with the gathered objects; the
        inputs are left unchanged. */
    method RunOnce(weights: Blob<real>, indexes: Blob<int>, result: Blob<real>)
      requires weights.Valid() && indexes.Valid() && result.Valid()
      requires CheckShapes([weights.desc, indexes.desc]) == Ok(result.desc)
      requires Ready(weights.desc, indexes.desc, weights.data[..], indexes.data[..], arePaddingsUsed)
      requires result.data != weights.data
      modifies result.data
      ensures result.data[..] == Forward(weights.data[..], weights.desc, indexes.data[..], indexes.desc, arePaddingsUsed)
    {
      var w, i := AddOptionalPaddings(weights, indexes);
      var shiftedIndexes := new int[i.data.Length];
      FlattenIndexes(i, shiftedIndexes);
      EffectiveTableSize(weights.desc, indexes.desc, weights.data[..], indexes.data[..], arePaddingsUsed);
      LookupAndCopy(shiftedIndexes, w.data, w.desc.ObjectCount(), w.desc.objectSize, result.data);
    }

    /** Backward pass: scatter-adds `learningRate` times the output gradient
        into the weights gradient, through a padded copy when padding is on. */
    method BackwardOnce(weightsDiff: Blob<real>, indexes: Blob<int>, resultDiff: Blob?<real>, learningRate: real)
      requires resultDiff != null
      requires weightsDiff.Valid() && indexes.Valid() && resultDiff.Valid()
      requires CheckShapes([weightsDiff.desc, indexes.desc]) == Ok(resultDiff.desc)
      requires Ready(weightsDiff.desc, indexes.desc, weightsDiff.data[..], indexes.data[..], arePaddingsUsed)
      requires resultDiff.data != weightsDiff.data
      modifies weightsDiff.data
      ensures weightsDiff.data[..]
           == Backward(old(weightsDiff.data[..]), weightsDiff.desc, indexes.data[..], indexes.desc,
                       resultDiff.data[..], learningRate, arePaddingsUsed)
    {
      ghost var start := weightsDiff.data[..];
      var wd, i := AddOptionalPaddings(weightsDiff, indexes);
      var shiftedIndexes := new int[i.data.Length];
      FlattenIndexes(i, shiftedIndexes);
      EffectiveTableSize(weightsDiff.desc, indexes.desc, start, indexes.data[..], arePaddingsUsed);
      LookupAndAddToTable(shiftedIndexes, wd.data, wd.desc.ObjectCount(), wd.desc.objectSize, learningRate, resultDiff.data);
      ghost var acc := wd.data[..];
      assert acc == ScatterAdded(EffectiveTable(start, weightsDiff.desc, arePaddingsUsed), EffectiveRows(weightsDiff.desc, arePaddingsUsed),
                                 weightsDiff.desc.objectSize, FlatAddresses(EffectiveIndexes(indexes.data[..], arePaddingsUsed), indexes.desc.batchWidth),
                                 Scaled(learningRate, resultDiff.data[..]));
      if arePaddingsUsed {
        VectorCopy(weightsDiff.data, 0, wd.data, wd.desc.objectSize, weightsDiff.data.Length);
        assert weightsDiff.data[..] == acc[weightsDiff.desc.objectSize..];
      }
    }

    /** Padding adapter. With padding off the blobs are passed through; with
        it on, fresh blobs are built: the weights with a zero object in
        front, and the indexes each increased by one. The given blobs are
        not modified. */
    method AddOptionalPaddings(weights: Blob<real>, indexes: Blob<int>) returns (w: Blob<real>, i: Blob<int>)
      requires weights.Valid() && indexes.Valid() && weights.desc.listSize == 1
      ensures w.Valid() && i.Valid() && i.desc == indexes.desc
      ensures w.desc.objectSize == weights.desc.objectSize
      ensures w.desc.ObjectCount() == EffectiveRows(weights.desc, arePaddingsUsed)
      ensures w.data[..] == EffectiveTable(weights.data[..], weights.desc, arePaddingsUsed)
      ensures i.data[..] == EffectiveIndexes(indexes.data[..], arePaddingsUsed)
      ensures !arePaddingsUsed ==> w == weights && i == indexes
      ensures arePaddingsUsed ==> fresh(w.data) && fresh(i.data) && w.desc == PaddedDesc(weights.desc)
    {
      if !arePaddingsUsed {
        return weights, indexes;
      }
      var os := weights.desc.objectSize;
      var weightsEx := new Blob<real>(PaddedDesc(weights.desc));
      VectorFill(weightsEx.data, 0.0, os);
      VectorCopy(weightsEx.data, os, weights.data, 0, weights.data.Length);
      assert weightsEx.data[..] == PaddedTable(weights.data[..], os);
      var shiftedIndexes := indexes.Clone();
      VectorAddValue(indexes.data, shiftedIndexes.data, indexes.data.Length, 1);
      assert shiftedIndexes.data[..] == shiftedIndexes.data[..indexes.data.Length];
      assert indexes.data[..] == indexes.data[..indexes.data.Length];
      return weightsEx, shiftedIndexes;
    }

    /** Writes the flat address of every index into `result`: the index
        multiplied by the batch width, then its column number added. */
    method FlattenIndexes(indexes: Blob<int>, result: array<int>)
      requires indexes.Valid() && result.Length == indexes.data.Length && result != indexes.data
      modifies result
      ensures result[..] == FlatAddresses(indexes.data[..], indexes.desc.batchWidth)
    {
      var bw := indexes.desc.batchWidth;
      VectorMultiply(indexes.data, result, result.Length, bw);
      assert result[..] == result[..result.Length];
      assert indexes.data[..] == indexes.data[..result.Length];
      AddWidthIndex(result, bw);
    }
  }

  /** A new layer reports padding off; after `EnablePaddings(enable)` it
      reports `enable`, and after `EnablePaddings()` it reports padding on. */
  method PaddingFlagRoundTrip(enable: bool) returns (initially: bool, afterSet: bool, afterDefault: bool)
    ensures !initially && afterSet == enable && afterDefault
  {
    var layer := new GatherLayer();
    initially := layer.ArePaddingsEnabled();
    layer.EnablePaddings(enable);
    afterSet := layer.ArePaddingsEnabled();
    layer.EnablePaddings();
    afterDefault := layer.ArePaddingsEnabled();
  }
}

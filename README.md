# NeoML gather layer

A model of NeoML's `CGatherLayer`. The layer selects objects from a
weights blob by the time-step indexes held in an index blob.

- **Inputs.** The weights blob has shape `(BatchLength, BatchWidth, 1, *)`.
  The index blob has shape `(BatchLength', BatchWidth, 1, 1)`.
- **Output.** The output has shape `(BatchLength', BatchWidth, 1, *)`.
  Its object at time `t`, column `c` is the weights object at time
  `indexes[t][c]` and the same column `c`.
- **Padding.** When padding is enabled, the index value `-1` is meant to
  select a zero object.

The model is split into these modules:

- `Blobs`
  - A blob is a shape descriptor (`BlobDesc`) plus a flat buffer.
  - Objects are stored time-major: the object at time `t`, column `c` is
    object number `t * BatchWidth + c`.
  - `Blob` is a class holding the buffer as an array.
- `Tables`
  - Gives the two table primitives of the math engine their meaning as
    functions over sequences.
  - Lookup-and-copy is `Gathered`. Lookup-and-add-to-table is
    `ScatterAdded`.
  - The gradient mass routed to one row is `Contribution`.
  - Lemmas state what each object of the result is.
- `MathEngine`
  - Each math-engine call the layer makes, written as the loop it stands
    for over arrays: fill, copy, add a value, multiply by a factor, add the
    column index, lookup-and-copy, and lookup-and-add-to-table.
  - Each loop is proved against a function of its inputs.
- `GatherSpec`
  - The layer's behaviour as functions: the shape rule (`CheckShapes`), the
    flat addresses (`FlatAddresses`), the padded table (`PaddedTable`), the
    forward pass (`Forward`) and the backward pass (`Backward`).
  - The properties each function has, stated as lemmas.
- `Gather`
  - The layer itself: a class with the padding flag and the output shapes as
    fields.
  - Its methods are written as the same sequence of math-engine calls as the
    source.
  - Each pass is proved to compute the matching `GatherSpec` function.
- `GatherFindings`
  - Two defects of the source, each shown on a concrete input.
  - For each defect, a corrected definition with the intended property
    proved about it.

Some conventions hold throughout:

- **Values and indexes.** Element values are `real` and index values are
  `int`.
- **Learning rate.** The learning rate is a parameter of the backward pass.
- **Fatal assertions.** The source's fatal assertions become `requires`
  clauses.
- **Shape-check failures.** These become a `ShapeError` value.
- **Lookup preconditions.** The lookup primitives need every address inside
  the table they read. The predicate `Ready` states this requirement of the
  forward and backward passes.

## Model

| member | source | states |
|---|---|---|
| Gather.GatherLayer.constructor | NeoML/include/NeoML/Dnn/Layers/GatherLayer.h:52 | a new layer has padding disabled (and no output shapes yet) |
| Gather.GatherLayer.EnablePaddings | NeoML/include/NeoML/Dnn/Layers/GatherLayer.h:41 | the flag becomes `enable`, and only the flag changes; the argument defaults to `true` |
| Gather.GatherLayer.ArePaddingsEnabled | NeoML/include/NeoML/Dnn/Layers/GatherLayer.h:42 | returns the current flag and changes nothing |
| Gather.PaddingFlagRoundTrip | NeoML/include/NeoML/Dnn/Layers/GatherLayer.h:41-52 | a new layer reports padding off; after `EnablePaddings(e)` it reports `e`; after `EnablePaddings()` it reports padding on |
| Gather.GatherLayer.Reshape | NeoML/src/Dnn/Layers/GatherLayer.cpp:41-60 | succeeds exactly when there are two inputs with compatible shapes; on success the only output shape is the one `CheckShapes` derives; on failure it reports the first failing check and leaves the output shapes unchanged |
| GatherSpec.CheckShapes | NeoML/src/Dnn/Layers/GatherLayer.cpp:45-59 | succeeds exactly when there are two inputs, the weights are float, the batch widths are equal, both list sizes are 1 and the index object size is 1; each failure names the first constraint that fails, given that the earlier checks passed; the output takes BatchLength from the indexes and everything else from the weights; the error "bad indexes type" is never produced |
| GatherSpec.FlatAddresses | NeoML/src/Dnn/Layers/GatherLayer.cpp:140-156 | position `i` holding value `v` gets address `v * BatchWidth + i % BatchWidth` |
| GatherSpec.FlatAddressNamesObject | NeoML/src/Dnn/Layers/GatherLayer.cpp:144-155 | the time step and the column can be read back from an address (`/` and `%` by the batch width) |
| GatherSpec.FlatAddressesInTableIff | NeoML/src/Dnn/Layers/GatherLayer.cpp:76-79 | every address lies in a table of `BatchLength * BatchWidth` objects exactly when every index is a time step `0 <= v < BatchLength` |
| GatherSpec.Shifted | NeoML/src/Dnn/Layers/GatherLayer.cpp:131-135 | every index is increased by one and the length is kept |
| GatherSpec.PaddedDesc | NeoML/src/Dnn/Layers/GatherLayer.cpp:120-122 | the padded shape holds one object more than the weights, with the same object size and type |
| GatherSpec.PaddedTable | NeoML/src/Dnn/Layers/GatherLayer.cpp:124-127 | the first object is zeros, followed by the original values unchanged |
| GatherSpec.PaddedTableObjects | NeoML/src/Dnn/Layers/GatherLayer.cpp:119-128 | padded object 0 is all zeros, and padded object `j + 1` is original object `j` |
| Gather.GatherLayer.AddOptionalPaddings | NeoML/src/Dnn/Layers/GatherLayer.cpp:113-136 | with the flag off, the same blobs are returned; with it on, fresh blobs are returned: a padded weights blob equal to `PaddedTable` and indexes each increased by one; the given blobs are not modified |
| Gather.GatherLayer.FlattenIndexes | NeoML/src/Dnn/Layers/GatherLayer.cpp:140-156 | the result buffer becomes `FlatAddresses` of the index blob, built by the multiply pass followed by the add-column pass |
| GatherSpec.ValidIndexesReady | NeoML/src/Dnn/Layers/GatherLayer.cpp:76-79 | without padding, indexes within `0 <= v < BatchLength` meet the lookup's range requirement |
| GatherSpec.ForwardGathersObjects | NeoML/src/Dnn/Layers/GatherLayer.cpp:62-80 | without padding, the output object at time `t`, column `c` is the weights object at time `indexes[t][c]`, column `c` |
| Gather.GatherLayer.RunOnce | NeoML/src/Dnn/Layers/GatherLayer.cpp:62-80 | writes only the output buffer, which becomes `Forward` of the inputs under the current padding flag |
| GatherSpec.PaddedForwardReads | NeoML/src/Dnn/Layers/GatherLayer.cpp:121-155 | with padding on, index `v` in column `c` reads padded object `(v + 1) * BatchWidth + c`: the zero object when that number is 0, and otherwise original object `v * BatchWidth + c + BatchWidth - 1` |
| GatherSpec.PaddedForwardSingleColumn | NeoML/include/NeoML/Dnn/Layers/GatherLayer.h:39-40 | with padding on and one column, index `-1` reads a zero object and a valid index `v` reads weights object `v` |
| Gather.GatherLayer.BackwardOnce | NeoML/src/Dnn/Layers/GatherLayer.cpp:82-110 | requires a non-null output gradient; the weights gradient becomes `Backward` of its old value: a scatter-add of `learningRate` times the output gradient, done directly, or on the padded copy with everything after its first object copied back |
| GatherSpec.BackwardAccumulates | NeoML/src/Dnn/Layers/GatherLayer.cpp:97-104 | without padding, value `j` of object `o` becomes its old value plus the scaled gradients of every position addressing `o`, so repeated addresses accumulate |
| GatherSpec.BackwardUnaddressedUnchanged | NeoML/src/Dnn/Layers/GatherLayer.cpp:97-104 | without padding, an object that no position addresses keeps its old gradient |
| GatherSpec.BackwardSingleWriter | NeoML/src/Dnn/Layers/GatherLayer.cpp:97-104 | without padding, an object addressed by exactly one position `i` gains `learningRate` times output-gradient object `i` |
| GatherSpec.PaddedBackwardDropsFirstObject | NeoML/src/Dnn/Layers/GatherLayer.cpp:106-109 | with padding on, object `o` of the result is object `o + 1` of the padded accumulator: whatever was routed to the padding object is dropped, and the size is kept |
| GatherSpec.PaddedBackwardSingleColumn | NeoML/src/Dnn/Layers/GatherLayer.cpp:88-109 | with padding on and one column, object `o` gains exactly the gradients of the positions whose index is `o`, and sentinel positions reach no weight |
| MathEngine.VectorFill | NeoML/src/Dnn/Layers/GatherLayer.cpp:125 | the first `count` values become the fill value and the rest are unchanged |
| MathEngine.VectorCopy | NeoML/src/Dnn/Layers/GatherLayer.cpp:127 | the destination window becomes the source window and the rest of the destination is unchanged |
| MathEngine.VectorAddValue | NeoML/src/Dnn/Layers/GatherLayer.cpp:134 | `dst[i] = src[i] + value` for the first `count` values, and the rest are unchanged |
| MathEngine.VectorMultiply | NeoML/src/Dnn/Layers/GatherLayer.cpp:148 | `dst[i] = src[i] * factor` for the first `count` values, and the rest are unchanged |
| MathEngine.AddWidthIndex | NeoML/src/Dnn/Layers/GatherLayer.cpp:152-155 | every value gets its column number `i % width` added, in place |
| MathEngine.LookupAndCopy | NeoML/src/Dnn/Layers/GatherLayer.cpp:76-79 | the output becomes `Gathered`: object `k` is the table row `addrs[k]` |
| MathEngine.LookupAndAddToTable | NeoML/src/Dnn/Layers/GatherLayer.cpp:98-104 | the table becomes `ScatterAdded` of its old value with `scale` times the source, position by position |
| Tables.GatheredObject | NeoML/src/Dnn/Layers/GatherLayer.cpp:76-79 | object `k` of a lookup-and-copy result is the table row addressed by `addrs[k]` |
| Tables.ScatterAddedAt | NeoML/src/Dnn/Layers/GatherLayer.cpp:101-104 | after lookup-and-add-to-table, each row value is its old value plus the summed contributions of every position addressing that row |
| Tables.ContributionScaled | NeoML/src/Dnn/Layers/GatherLayer.cpp:99-104 | what a row receives from the scaled gradient is `learningRate` times what it receives from the unscaled one |
| Tables.ContributionUnaddressed | NeoML/src/Dnn/Layers/GatherLayer.cpp:101-104 | a row that no position addresses receives nothing |
| Tables.ContributionSingle | NeoML/src/Dnn/Layers/GatherLayer.cpp:101-104 | a row addressed by exactly one position receives that position's value |
| Tables.ContributionShift | NeoML/src/Dnn/Layers/GatherLayer.cpp:131-135 | moving every address by `d` moves every row's contribution by `d` |
| Blobs.Blob.constructor | NeoML/src/Dnn/Layers/GatherLayer.cpp:123 | stands for the blob allocator: a fresh blob of the given shape whose buffer holds exactly `DataSize()` values |
| Blobs.Blob.Clone | NeoML/src/Dnn/Layers/GatherLayer.cpp:131 | a fresh blob with the same shape and the same values |
| GatherFindings.UnpaddedExample | NeoML/test/src/GatherLayerTest.cpp:55-84 | weights `[1,2],[3,4],[5,6]` with indexes `[0,1],[1,2]` give `[1,4],[3,6]` |
| GatherFindings.PaddedExampleAsWritten | NeoML/src/Dnn/Layers/GatherLayer.cpp:119-135 | as written, with padding on, indexes `[0,1],[-1,0]` give `[2,5],[0,3]` |
| GatherFindings.PaddedRangeAsWritten | NeoML/src/Dnn/Layers/GatherLayer.cpp:119-135 | as written, a valid index (2 in column 1 of 3 time steps) addresses past the end of the padded table |
| GatherFindings.PaddedGradientLeakAsWritten | NeoML/src/Dnn/Layers/GatherLayer.cpp:106-109 | as written, the gradient at a `-1` position in column 1 is added to weights object 0 |
| GatherFindings.IntendedPaddedForwardCorrect | NeoML/include/NeoML/Dnn/Layers/GatherLayer.h:39-40 | with a whole zero time step prepended, index `-1` reads zeros and index `v` in column `c` reads weights object `v * BatchWidth + c`, for every batch width |
| GatherFindings.IntendedPaddedBackwardCorrect | NeoML/src/Dnn/Layers/GatherLayer.cpp:106-109 | with the intended padding, object `o` gains exactly the gradients of the positions whose unpadded address is `o` |
| GatherFindings.SentinelAddressNegative | NeoML/include/NeoML/Dnn/Layers/GatherLayer.h:39-40 | the unpadded address of a `-1` index is negative, so it names no weight |
| GatherFindings.IntendedAgreesForSingleColumn | NeoML/src/Dnn/Layers/GatherLayer.cpp:119-128 | with one column, the intended padding and the padding as written give the same forward and backward results |
| GatherFindings.PaddedGradientIntended | NeoML/src/Dnn/Layers/GatherLayer.cpp:106-109 | with the intended padding, the leaking example leaves weights object 0 unchanged |
| GatherFindings.PaddedExampleIntended | NeoML/test/src/GatherLayerTest.cpp:160-189 | with the intended padding, indexes `[0,1],[-1,0]` give `[1,4],[0,2]` |
| GatherFindings.CheckShapesIntended | NeoML/src/Dnn/Layers/GatherLayer.cpp:49-55 | the shape check with the index type tested: it fails with "bad indexes type" on a non-float index blob, and agrees with `CheckShapes` on every other input, error results included |
| GatherFindings.IntIndexesAcceptedAsWritten | NeoML/src/Dnn/Layers/GatherLayer.cpp:50 | as written, an integer index blob passes the shape check, while the intended check rejects it |

## Left out

- **Serialize** (`GatherLayer.cpp:32-39`). Archive I/O that goes through the
  base layer's serialization, which is not part of this model.
- **Unused and wrapper code.** The unused `GELUMultiplier` constant
  (`GatherLayer.cpp:23`) and the `Gather()` wrapper factory
  (`GatherLayer.cpp:158-161`) are layer-graph plumbing with no behaviour of
  their own.
- **Base-layer checks.** `CheckInputs` and the exception mechanism of
  `CheckArchitecture` belong to the base layer.
  - A failed check is a `ShapeError` value here.
  - The layer-graph lifecycle that calls `Reshape`, `RunOnce` and
    `BackwardOnce` is not modelled.
- **Fatal assertions.** These are `requires` clauses:
  - `NeoAssert( resultDiff != nullptr )`;
  - the size check of `flatternIndexes`.
- **Behaviour on out-of-range addresses.** The lookup primitives are given
  meaning only for addresses inside the table (`Ready`), so what the engine
  does on an out-of-range address is not modelled.
- **Math-engine internals.**
  - Kernels, threading, memory placement, stack temporaries and
    reference counting are out of scope.
  - The multichannel lookup is modelled for the one channel the layer uses.
  - `AddWidthIndex` is modelled for the forward, in-place use the layer
    makes of it.
- **Number types.**
  - Values are exact reals, not 32-bit floats.
  - Indexes are integers; the float-to-int conversion inside the lookup
    primitives is not modelled.
  - The learning rate returned by `GetBaseLearningRate()` is a parameter.
- **Object dimensions.** Height, width, depth and channels appear only
  through their product, the object size.
- **Test harness.** The solvers and loss layers of the test file are out of
  scope, and so are the backward tests' loss gradients. The forward test
  data are restated in the findings.
- **GatherLayer class (as written vs. corrected).** The `Gather` module
  follows the code as written: its padded path is the one with the defect
  below. The corrected padding and the corrected shape check are stand-alone
  definitions in `GatherFindings`.

## Findings

| source | as written | input that shows it | evidently intended | confidence | as-written member | corrected member |
|---|---|---|---|---|---|---|
| NeoML/src/Dnn/Layers/GatherLayer.cpp:119-135 | padding prepends a single zero object but keeps multiplying the shifted index by BatchWidth, so index `v` in column `c` reads original object `v * BatchWidth + c + BatchWidth - 1`; a `-1` outside column 0 reads a real weight and sends its gradient there, and the largest valid index can fall outside the table | weights `[1,2],[3,4],[5,6]` (BatchWidth 2), indexes `[0,1],[-1,0]`: the output is `[2,5],[0,3]` | prepend one zero time step (BatchWidth objects), so that the output is `[1,4],[0,2]` | not executed | GatherFindings.PaddedExampleAsWritten | GatherFindings.IntendedPaddedForwardCorrect |
| NeoML/src/Dnn/Layers/GatherLayer.cpp:50 | the check labelled "Bad indexes blob type" tests the weights type again, so the index blob's type is never checked | a float weights blob with an integer index blob passes the shape check | reject a non-float index blob with the indexes-type error | not executed | GatherFindings.IntIndexesAcceptedAsWritten | GatherFindings.CheckShapesIntended |

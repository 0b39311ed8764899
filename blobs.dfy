/** Blobs: batched tensors made of a shape descriptor and a flat buffer.
    Objects are stored time-major with the sample column varying fastest:
    the object at time `t`, column `c` is object number `t * BatchWidth + c`. */
module Blobs {
  import opened Arith

  /** Element type a blob descriptor declares. */
  datatype DataType = Float | Int

  /** Shape of a blob. The object dimensions (height, width, depth,
      channels) appear here only through their product, `objectSize`. */
  datatype BlobDesc = BlobDesc(batchLength: pos, batchWidth: pos, listSize: pos,
                               objectSize: pos, dataType: DataType)
  {
    /** Number of objects: BatchLength * BatchWidth * ListSize. */
    function ObjectCount(): (n: pos)
      ensures listSize == 1 ==> n == batchLength * batchWidth
    {
      MulSign(batchLength, batchWidth);
      MulSign(batchLength * batchWidth, listSize);
      batchLength * batchWidth * listSize
    }

    /** Number of values held by a blob of this shape. */
    function DataSize(): (n: pos)
      ensures n == ObjectCount() * objectSize
    {
      MulSign(ObjectCount(), objectSize);
      ObjectCount() * objectSize
    }
  }

  /** A blob: a descriptor and a buffer of exactly `DataSize()` values. */
  class Blob<T(0)> {
    const desc: BlobDesc
    const data: array<T>

    ghost predicate Valid()
    {
      data.Length == desc.DataSize()
    }

    /** A new blob of the given shape. */
    constructor (d: BlobDesc)
      ensures desc == d && fresh(data) && Valid()
    {
      desc := d;
      data := new T[d.DataSize()];
    }

    /** A new blob of the same shape holding a copy of this blob's values. */
    method Clone() returns (c: Blob<T>)
      requires Valid()
      ensures fresh(c) && fresh(c.data) && c.Valid()
      ensures c.desc == desc && c.data[..] == data[..]
    {
      c := new Blob(desc);
      var i := 0;
      while i < data.Length
        invariant 0 <= i <= data.Length
        invariant c.data[..i] == data[..i]
      {
        c.data[i] := data[i];
        i := i + 1;
      }
      assert c.data[..] == c.data[..i];
    }
  }
}

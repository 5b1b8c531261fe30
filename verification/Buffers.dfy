/** Growing and consuming octet buffers, as the `bytes` crate offers them. */
module Buffers {
  import opened Bytes

  class BytesMut {
    var data: bytes

    constructor ()
      ensures data == []
    {
      data := [];
    }

    method Put(b: bytes)
      modifies this
      ensures data == old(data) + b
    {
      data := data + b;
    }

    method PutUint(width: nat, v: nat)
      modifies this
      ensures data == old(data) + BigEndian(width, v)
    {
      data := data + BigEndian(width, v);
    }
  }

  class Cursor {
    const data: bytes
    var pos: nat

    constructor (data: bytes)
      ensures this.data == data && pos == 0
    {
      this.data, pos := data, 0;
    }

    method Take(n: nat) returns (b: bytes)
      requires pos + n <= |data|
      modifies this
      ensures pos == old(pos) + n && b == data[old(pos)..pos]
    {
      b := data[pos..pos + n];
      pos := pos + n;
    }

    method GetUint(width: nat) returns (v: nat)
      requires pos + width <= |data|
      modifies this
      ensures pos == old(pos) + width && v == FromBigEndian(data[old(pos)..pos])
      ensures v < Span(width)
    {
      var b := Take(width);
      v := FromBigEndian(b);
    }
  }
}

/** kr_dbuffer: the growable byte buffer. */
module DBuffers {

  type byte = x: int | 0 <= x < 256

  function Max(a: nat, b: nat): nat {
    if a > b then a else b
  }

  class DBuffer {
    var data: array<byte>
    var size: nat
    var capacity: nat
    /** The memory is not the buffer's own: it is given back by a function that came with it. */
    var hasFreeFn: bool
    /** How many bytes the reallocations have moved. */
    ghost var moved: nat

    ghost predicate Valid()
      reads this
    {
      size <= capacity == data.Length
    }

    ghost function Contents(): seq<byte>
      reads this, data
      requires Valid()
    {
      data[..size]
    }

    /** The amortised bound: it holds of a fresh buffer, and appending keeps it. */
    ghost predicate Amortised()
      reads this
    {
      moved <= capacity <= 2 * size
    }

    /** kr_dbuffer_init. */
    constructor ()
      ensures Valid() && Contents() == [] && Amortised() && moved == 0 && fresh(data)
    {
      data, size, capacity, hasFreeFn, moved := new byte[0], 0, 0, false, 0;
    }

    /** kr_dbuffer_init_from_data. */
    constructor FromData(data: array<byte>, size: nat, hasFreeFn: bool)
      requires size <= data.Length
      ensures Valid() && this.data == data && Contents() == data[..size] && moved == 0
    {
      this.data, this.size, capacity, this.hasFreeFn, moved := data, size, data.Length, hasFreeFn, 0;
    }

    /** kr_dbuffer_realloc_data: by hand when the memory came with a free function, else by realloc; either way the
        common part is kept. */
    method ReallocData(newSize: nat, oldSize: nat)
      requires oldSize == data.Length
      modifies this`data, this`hasFreeFn, this`moved
      ensures fresh(data) && data.Length == newSize && !hasFreeFn
              && moved == old(moved) + (if newSize < oldSize then newSize else oldSize)
      ensures forall k | 0 <= k < newSize && k < oldSize :: data[k] == old(data[k])
    {
      var tmp := new byte[newSize](_ => 0);
      var n := if newSize < oldSize then newSize else oldSize;
      forall k | 0 <= k < n {
        tmp[k] := data[k];
      }
      data := tmp;
      hasFreeFn := false;
      moved := moved + n;
    }

    method EnsureCapacity(newCapacity: nat)
      requires Valid()
      modifies this`data, this`capacity, this`hasFreeFn, this`moved
      ensures Valid() && Contents() == old(Contents()) && capacity >= newCapacity && (data == old(data) || fresh(data))
      ensures capacity == if old(capacity) < newCapacity then Max(2 * old(capacity), newCapacity) else old(capacity)
      ensures moved == old(moved) + if old(capacity) < newCapacity then old(capacity) else 0
    {
      if capacity < newCapacity {
        var cap := Max(capacity * 2, newCapacity);
        ghost var contents := Contents();
        ReallocData(cap, capacity);
        capacity := cap;
        assert Contents() == contents;
      }
    }

    method AppendMem(src: seq<byte>) returns (ok: bool)
      requires Valid()
      modifies this, data
      ensures Valid() && ok && Contents() == old(Contents()) + src && (data == old(data) || fresh(data))
      ensures old(Amortised()) ==> Amortised()
    {
      if |src| == 0 { return true; }
      ghost var contents := Contents();
      EnsureCapacity(size + |src|);
      forall k | 0 <= k < |src| {
        data[size + k] := src[k];
      }
      size := size + |src|;
      assert Contents() == contents + src;
      ok := true;
    }

    method AppendByte(b: byte) returns (ok: bool)
      requires Valid()
      modifies this, data
      ensures Valid() && ok && Contents() == old(Contents()) + [b] && (data == old(data) || fresh(data))
      ensures old(Amortised()) ==> Amortised()
    {
      ghost var contents := Contents();
      EnsureCapacity(size + 1);
      data[size] := b;
      size := size + 1;
      assert Contents() == contents + [b];
      ok := true;
    }
  }

  datatype Append = Mem(src: seq<byte>) | Byte(b: byte)

  function Piece(a: Append): seq<byte> {
    if a.Mem? then a.src else [a.b]
  }

  function Concat(pieces: seq<Append>): seq<byte> {
    if pieces == [] then [] else Concat(pieces[..|pieces| - 1]) + Piece(pieces[|pieces| - 1])
  }

  /** A client: any run of appends on a fresh buffer leaves their concatenation, in at most twice the room, and all
      reallocations together have moved at most twice as many bytes. */
  method AppendAll(pieces: seq<Append>) returns (buf: DBuffer)
    ensures fresh(buf) && buf.Valid() && buf.Contents() == Concat(pieces)
    ensures buf.capacity <= 2 * |Concat(pieces)| && buf.moved <= 2 * |Concat(pieces)|
  {
    buf := new DBuffer();
    for k := 0 to |pieces|
      invariant fresh(buf) && fresh(buf.data) && buf.Valid() && buf.Amortised() && buf.Contents() == Concat(pieces[..k])
    {
      assert pieces[..k + 1][..k] == pieces[..k];
      match pieces[k] {
        case Mem(src) =>
          var _ := buf.AppendMem(src);
        case Byte(b) =>
          var _ := buf.AppendByte(b);
      }
    }
    assert pieces[..|pieces|] == pieces;
    assert |buf.Contents()| == buf.size;
  }
}

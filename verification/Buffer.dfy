// The byte buffer that grows at one end and is consumed at the other, and the lines read from and written to it.
// A byte is a char: nothing here looks at a byte except to compare it.

module Buffers {
  /** An allocated block of which size bytes, from off on, are in use. */
  class Buffer {
    var base: array<char>
    var off: nat
    var size: nat

    ghost predicate Valid()
      reads this
    {
      0 < base.Length && off + size <= base.Length
    }

    ghost function Contents(): seq<char>
      reads this, base
      requires Valid()
    {
      base[off..off + size]
    }

    function Free(): nat
      reads this
      requires Valid()
    {
      base.Length - off - size
    }

    constructor (space: nat)
      requires space > 0
      ensures Valid() && fresh(base) && Contents() == []
    {
      base := new char[space];
      off, size := 0, 0;
    }

    /** Make room for more bytes: by moving the contents to the front, then by doubling the block. */
    method Ensure(more: nat)
      requires Valid() && more > 0
      modifies this, base
      ensures Valid() && Contents() == old(Contents()) && Free() >= more
      ensures base == old(base) || fresh(base)
      ensures old(Free()) >= more ==> base == old(base) && off == old(off)
    {
      if Free() >= more {
        return;
      }
      if off > 0 {
        MoveToFront();
      }
      while base.Length < size + more
        invariant Valid() && off == 0 && Contents() == old(Contents()) && size == old(size)
        invariant base == old(base) || fresh(base)
        decreases size + more - base.Length
      {
        Double();
      }
    }

    method MoveToFront()
      requires Valid()
      modifies this, base
      ensures Valid() && off == 0 && base == old(base) && size == old(size) && Contents() == old(Contents())
    {
      ghost var was := Contents();
      for k := 0 to size
        invariant Valid() && size == old(size) && base == old(base) && off == old(off)
        invariant base[..k] == was[..k]
        invariant base[off + k..off + size] == was[k..]
      {
        assert base[off + k] == base[off + k..off + size][0];
        base[k] := base[off + k];
      }
      off := 0;
    }

    method Double()
      requires Valid() && off == 0
      modifies this
      ensures Valid() && off == 0 && size == old(size) && fresh(base) && base.Length == 2 * old(base.Length)
      ensures Contents() == old(Contents())
    {
      var wider := new char[2 * base.Length];
      for k := 0 to base.Length
        invariant base == old(base) && off == 0 && size == old(size) && wider[..k] == base[..k] && base[..] == old(base[..])
      {
        wider[k] := base[k];
      }
      base := wider;
    }

    /** Count bytes that have been put after the contents as part of them. */
    method Add(more: nat)
      requires Valid() && 0 < more <= Free()
      modifies this
      ensures Valid() && base == old(base) && off == old(off) && size == old(size) + more
      ensures Contents() == old(Contents()) + old(base[off + size..off + size + more])
    {
      size := size + more;
    }

    method Remove(n: nat)
      requires Valid() && 0 < n <= size
      modifies this
      ensures Valid() && base == old(base) && Contents() == old(Contents())[n..]
    {
      size, off := size - n, off + n;
    }

    /** Copy bytes to the free space after the contents, as a read from a socket does. */
    method Receive(data: seq<char>)
      requires Valid() && |data| <= Free()
      modifies base
      ensures Contents() == old(Contents()) && base[off + size..off + size + |data|] == data
    {
      for k := 0 to |data|
        invariant Contents() == old(Contents()) && base[off + size..off + size + k] == data[..k]
      {
        base[off + size + k] := data[k];
      }
    }

    method Write(data: seq<char>)
      requires Valid() && data != []
      modifies this, base
      ensures Valid() && Contents() == old(Contents()) + data && (base == old(base) || fresh(base))
    {
      Ensure(|data|);
      Receive(data);
      Add(|data|);
    }

    method Read(n: nat) returns (data: seq<char>)
      requires Valid() && 0 < n <= size
      modifies this
      ensures Valid() && base == old(base) && data + Contents() == old(Contents()) && |data| == n
    {
      data := base[off..off + n];
      Remove(n);
    }
  }
}

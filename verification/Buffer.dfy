/** Buffer: a growing byte sequence over blocks of a pool. */
module Buffers {
  import opened Bytes
  import opened Capacity

  /** What the allocator was told: the block given back and the capacity named. */
  datatype Freed = Freed(block: array<byte>, capacity: nat)

  class Buffer {
    var offset: nat
    var size: nat
    var capacity: nat
    var block: array<byte>
    var freed: seq<Freed>

    /** The block spans what was clipped off and the capacity; one that was allocated
        has a length that Alloc reports. */
    ghost predicate Valid()
      reads this
    {
      && block.Length == offset + capacity && size <= capacity && block.Length < U32
      && (block.Length > 0 ==> Allocated(block.Length))
      && forall i :: 0 <= i < |freed| ==> freed[i].capacity == freed[i].block.Length && Allocated(freed[i].capacity)
    }

    ghost predicate Allocated(n: nat)
    {
      exists wanted: UInt32 :: ComputeCapacity(wanted) == n
    }

    ghost function Contents(): (s: seq<byte>)
      requires Valid()
      reads this, block
    {
      block[offset..offset + size]
    }

    constructor (n: UInt32)
      ensures Valid() && fresh(block) && |Contents()| == n && freed == []
    {
      hide ComputeCapacity;
      offset, size, freed := 0, n, [];
      var room := if n > 0 then ComputeCapacity(n) else 0;
      CapacityHolds(n);
      capacity := room;
      block := new byte[room];
    }

    /** The block goes back with what it was allocated with, however it was clipped. */
    method Release()
      requires Valid()
      modifies this
      ensures old(block).Length > 0 ==> freed == old(freed) + [Freed(old(block), old(block).Length)]
      ensures old(block).Length == 0 ==> freed == old(freed)
    {
      capacity := capacity + offset;
      if capacity > 0 {
        freed := freed + [Freed(block, capacity)];
      }
    }

    /** Clipping moves no byte. */
    method Clip(n: UInt32)
      requires Valid()
      modifies this, block
      ensures Valid() && block == old(block) && freed == old(freed)
      ensures Contents() == if n >= old(size) then [] else old(Contents())[n..]
    {
      if n >= size {
        var _ := Resize(0, false);
        return;
      }
      if n > 0 {
        offset := offset + n;
        size := size - n;
        capacity := capacity - n;
      }
    }

    /** What fits stays, in place, moved to the front of the block, or copied to a new
        one; the old block is then given back. */
    method Resize(n: UInt32, preserve: bool) returns (moved: bool)
      requires Valid()
      modifies this, block
      ensures Valid() && |Contents()| == n && (moved ==> fresh(block))
      ensures preserve ==> Contents()[..Min(n, old(size))] == old(Contents())[..Min(n, old(size))]
      ensures moved <==> n > old(block).Length
      ensures !moved ==> block == old(block) && freed == old(freed)
      ensures moved && old(block).Length > 0 ==> freed == old(freed) + [Freed(old(block), old(block).Length)]
      ensures moved && old(block).Length == 0 ==> freed == old(freed)
    {
      hide Allocated;
      if n <= capacity {
        Reuse(n, preserve);
        return false;
      }
      ghost var before := Contents();
      assert before[..size] == before;
      moved := Enlarge(n, preserve);
    }

    /** Within the capacity: the block stays, and so does the offset if bytes are to be kept. */
    method Reuse(n: UInt32, preserve: bool)
      requires Valid() && n <= capacity
      modifies this
      ensures Valid() && size == n && block == old(block) && freed == old(freed)
      ensures preserve ==> Contents()[..Min(n, old(size))] == old(Contents())[..Min(n, old(size))]
    {
      hide Allocated;
      ghost var kept := Min(n, size);
      assert block[offset..offset + size][..kept] == block[offset..offset + kept];
      if offset > 0 && !preserve {
        capacity := capacity + offset;
        offset := 0;
      }
      size := n;
      assert block[offset..offset + size][..kept] == block[offset..offset + kept];
    }

    /** More than the capacity: without the offset if that is enough, or in a new block. */
    method Enlarge(n: UInt32, preserve: bool) returns (moved: bool)
      requires Valid() && n > capacity
      modifies this, block
      ensures Valid() && size == n && (moved ==> fresh(block))
      ensures preserve ==> Contents()[..old(size)] == old(Contents())
      ensures moved <==> n > old(block).Length
      ensures !moved ==> block == old(block) && freed == old(freed)
      ensures moved ==> freed == old(freed) + if old(block).Length > 0 then [Freed(old(block), old(block).Length)] else []
    {
      hide Allocated;
      var from := offset;
      capacity := capacity + offset;
      offset := 0;
      if from > 0 && n <= capacity {
        if preserve {
          MoveDown(from);
        }
        size := n;
        assert preserve ==> block[..n][..old(size)] == block[..old(size)];
        return false;
      }
      Grow(n, from, preserve);
      assert preserve ==> block[..n][..old(size)] == block[..old(size)];
      return true;
    }

    /** memmove to the front of the block. */
    method MoveDown(from: nat)
      requires from + size <= block.Length
      modifies block
      ensures block[..size] == old(block[from..from + size])
    {
      for i := 0 to size
        invariant forall k :: 0 <= k < i ==> block[k] == old(block[from + k])
        invariant forall k :: from + i <= k < from + size ==> block[k] == old(block[k])
      {
        block[i] := block[from + i];
      }
    }

    /** A new block, with the old bytes if they are wanted. */
    method Grow(n: UInt32, from: nat, preserve: bool)
      requires offset == 0 && capacity == block.Length && block.Length < n && from + size <= block.Length
      requires block.Length > 0 ==> Allocated(block.Length)
      requires forall i :: 0 <= i < |freed| ==> freed[i].capacity == freed[i].block.Length && Allocated(freed[i].capacity)
      modifies this
      ensures Valid() && fresh(block) && size == n && offset == 0
      ensures preserve ==> block[..old(size)] == old(block[from..from + size])
      ensures freed == old(freed) + if old(block).Length > 0 then [Freed(old(block), old(block).Length)] else []
    {
      hide ComputeCapacity;
      CapacityHolds(n);
      var data := Copied(ComputeCapacity(n), from, preserve);
      if capacity > 0 {
        freed := freed + [Freed(block, capacity)];
      }
      capacity := data.Length;
      size := n;
      block := data;
    }

    /** memcpy into a new block. */
    method Copied(room: nat, from: nat, preserve: bool) returns (data: array<byte>)
      requires size <= room && from + size <= block.Length
      ensures fresh(data) && data.Length == room
      ensures preserve ==> data[..size] == block[from..from + size]
    {
      data := new byte[room];
      if preserve {
        for i := 0 to size
          invariant forall k :: 0 <= k < i ==> data[k] == block[from + k]
        {
          data[i] := block[from + i];
        }
      }
    }

    /** append: the bytes go behind those there are. */
    method Append(data: seq<byte>)
      requires Valid() && size + |data| < U32
      modifies this, block
      ensures Valid() && Contents() == old(Contents()) + data
      ensures block != old(block) ==> fresh(block)
    {
      ghost var before := Contents();
      var oldSize := size;
      var moved := Resize(size + |data|, true);
      assert Contents()[..oldSize] == before[..oldSize] == before;
      Fill(oldSize, data);
      assert Contents() == before + data;
    }

    /** memcpy behind the first `at` bytes. */
    method Fill(at: nat, data: seq<byte>)
      requires Valid() && at + |data| == size
      modifies block
      ensures Contents()[..at] == old(Contents())[..at] && Contents()[at..] == data
    {
      for i := 0 to |data|
        invariant forall k :: 0 <= k < i ==> block[offset + at + k] == data[k]
        invariant block[offset..offset + at] == old(block[offset..offset + at])
      {
        block[offset + at + i] := data[i];
      }
      assert Contents()[..at] == block[offset..offset + at];
    }
  }
}

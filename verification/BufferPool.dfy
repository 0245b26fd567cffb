/** BufferPool::Buffers: free blocks of one size, of which those not needed for a
    while are handed to be deleted. */
module BufferPool {

  /** A block's address; 0 is the null pointer. */
  type Block = nat

  const NULL := 0

  /** vector::resize: cut off, or filled up with null pointers. */
  function Resized(s: seq<Block>, n: nat): (r: seq<Block>)
    ensures |r| == n
  {
    if n <= |s| then s[..n] else s + seq(n - |s|, _ => NULL)
  }

  class Buffers {
    var blocks: seq<Block>
    /** Least number of blocks since the last clean-up, and the greatest after a push. */
    var minSize: nat
    var maxSize: nat

    /** No null slot; the counts bound the number of blocks. */
    predicate Valid()
      reads this
    {
      NULL !in blocks && minSize <= |blocks| && (|blocks| <= maxSize || |blocks| == minSize)
    }

    constructor ()
      ensures Valid() && blocks == []
    {
      blocks, minSize, maxSize := [], 0, 0;
    }

    method Pop() returns (block: Block)
      requires Valid()
      modifies this
      ensures Valid()
      ensures old(blocks) == [] ==> block == NULL && blocks == []
      ensures old(blocks) != [] ==> block != NULL && old(blocks) == blocks + [block]
    {
      if blocks == [] {
        return NULL;
      }
      block := blocks[|blocks| - 1];
      blocks := blocks[..|blocks| - 1];
      if |blocks| < minSize {
        minSize := |blocks|;
      }
    }

    method Push(block: Block)
      requires Valid() && block != NULL
      modifies this
      ensures Valid() && blocks == old(blocks) + [block]
    {
      blocks := blocks + [block];
      if |blocks| > maxSize {
        maxSize := |blocks|;
      }
    }

    /** manage: the blocks never popped since the last time go to `gc`; shrinking by way
        of `maxSize` neither loses a block nor revives a null slot. */
    method Manage(gc: seq<Block>) returns (gc': seq<Block>)
      requires Valid()
      modifies this
      ensures Valid()
      ensures gc' == gc + old(blocks)[|old(blocks)| - old(minSize)..] && blocks == old(blocks)[..|old(blocks)| - old(minSize)]
      ensures multiset(blocks) + multiset(gc') == multiset(old(blocks)) + multiset(gc)
    {
      var kept := |blocks| - minSize;
      ghost var all := blocks;
      gc' := gc + blocks[kept..];
      minSize := kept;
      blocks := Resized(blocks, maxSize);
      blocks := Resized(blocks, minSize);
      maxSize := 0;
      assert blocks == all[..kept];
      assert all == all[..kept] + all[kept..];
    }
  }

  /** The two resizes leave the front of the list and no null slot exactly if the
      intermediate size is no smaller: what the bound on `maxSize` is for. */
  lemma BoundsNeeded(s: seq<Block>, between: nat, n: nat)
    requires NULL !in s && n <= |s|
    ensures Resized(Resized(s, between), n) == s[..n] <==> n <= between
  {
    var r := Resized(Resized(s, between), n);
    if n <= between {
      assert r == s[..n];
    } else {
      assert r[between] == NULL && s[..n][between] == s[between] && s[between] in s;
    }
  }
}

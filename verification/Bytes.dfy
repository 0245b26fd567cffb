/** Bytes, fixed-width unsigned integers and the big-endian primitives of
    BinaryReader and BinaryWriter. */
module Bytes {

  type byte = x: int | 0 <= x < 256
  type UInt16 = x: int | 0 <= x < 0x1_0000
  type UInt32 = x: int | 0 <= x < 0x1_0000_0000

  const U32 := 0x1_0000_0000

  /** Unsigned 32-bit wrap-around. */
  function Wrap32(x: int): (r: UInt32)
  {
    x % U32
  }

  /** The 32-bit pattern of `x` read as a two's-complement number. */
  function Signed32(x: int): (r: int)
    ensures -0x8000_0000 <= r < 0x8000_0000
  {
    var m := x % U32;
    if m >= 0x8000_0000 then m - U32 else m
  }

  /** Util::Distance on 32-bit clocks: how far `to` lies ahead of `from`. */
  function Distance(from: UInt32, to: UInt32): int
  {
    Signed32(to - from)
  }

  lemma WholeTurns(x: int, q: int)
    ensures (x + q * U32) % U32 == x % U32
  {
  }

  function Min(a: int, b: int): int
  {
    if a < b then a else b
  }

  function Max(a: int, b: int): int
  {
    if a < b then b else a
  }

  // ----- writing ---------------------------------------------------------

  function Be16(v: int): (s: seq<byte>)
    ensures |s| == 2
  {
    [(v / 256) % 256, v % 256]
  }

  function Be24(v: int): (s: seq<byte>)
    ensures |s| == 3
  {
    [(v / 65536) % 256, (v / 256) % 256, v % 256]
  }

  function Be32(v: int): (s: seq<byte>)
    ensures |s| == 4
  {
    [(v / 0x100_0000) % 256, (v / 65536) % 256, (v / 256) % 256, v % 256]
  }

  /** `n` copies of `b`. */
  function Fill(n: nat, b: byte): (s: seq<byte>)
    ensures |s| == n
    ensures forall i :: 0 <= i < n ==> s[i] == b
  {
    seq(n, _ => b)
  }

  /** The chunks, one behind the other. */
  function Concat(chunks: seq<seq<byte>>): seq<byte>
  {
    if chunks == [] then [] else chunks[0] + Concat(chunks[1..])
  }

  // ----- reading: each read is a value and what remains ---------------------

  /** The bytes left after skipping `n`, or none if fewer are left. */
  function Drop(s: seq<byte>, n: nat): (r: seq<byte>)
  {
    if n <= |s| then s[n..] else []
  }

  function U8(s: seq<byte>): byte
  {
    if |s| >= 1 then s[0] else 0
  }

  // A read that finds too few bytes gives 0 (and moves to the end, as Drop does).
  function U16(s: seq<byte>): UInt16
  {
    if |s| >= 2 then s[0] as int * 256 + s[1] as int else 0
  }

  function U24(s: seq<byte>): (v: int)
    ensures 0 <= v < 0x100_0000
  {
    if |s| >= 3 then s[0] as int * 65536 + s[1] as int * 256 + s[2] as int else 0
  }

  function U32At(s: seq<byte>): UInt32
  {
    if |s| >= 4 then s[0] as int * 0x100_0000 + s[1] as int * 65536 + s[2] as int * 256 + s[3] as int else 0
  }

  /** As many bytes as `n` says, or all there are. */
  function Take(s: seq<byte>, n: nat): (r: seq<byte>)
    ensures |r| <= |s| && r + Drop(s, n) == s
  {
    if n <= |s| then s[..n] else s
  }

  lemma Associative<T>(a: seq<T>, b: seq<T>, c: seq<T>)
    ensures a + b + c == a + (b + c)
  {
  }

  lemma DropAppend(a: seq<byte>, b: seq<byte>)
    ensures Drop(a + b, |a|) == b
  {
  }

  lemma DropDrop(s: seq<byte>, m: nat, n: nat)
    ensures Drop(Drop(s, m), n) == Drop(s, m + n)
  {
  }

  lemma ReadBe16(v: UInt16, rest: seq<byte>)
    ensures U16(Be16(v) + rest) == v
    ensures Drop(Be16(v) + rest, 2) == rest
  {
    assert v / 256 < 256;
    assert (Be16(v) + rest)[0] == v / 256 && (Be16(v) + rest)[1] == v % 256;
    assert v == 256 * (v / 256) + v % 256;
  }

  lemma ReadBe24(v: int, rest: seq<byte>)
    requires 0 <= v < 0x100_0000
    ensures U24(Be24(v) + rest) == v
    ensures Drop(Be24(v) + rest, 3) == rest
  {
    var s := Be24(v) + rest;
    assert s[0] == v / 65536 && s[1] == (v / 256) % 256 && s[2] == v % 256;
    assert v / 65536 == (v / 256) / 256;
  }

  lemma ReadBe32(v: UInt32, rest: seq<byte>)
    ensures U32At(Be32(v) + rest) == v
    ensures Drop(Be32(v) + rest, 4) == rest
  {
    var s := Be32(v) + rest;
    assert s[0] == v / 0x100_0000 && s[1] == (v / 65536) % 256 && s[2] == (v / 256) % 256 && s[3] == v % 256;
    assert v / 65536 == (v / 256) / 256;
    assert v / 0x100_0000 == ((v / 256) / 256) / 256;
  }

  /** A BinaryWriter over a growing buffer, in network order. */
  class BinaryWriter {
    var data: seq<byte>

    constructor ()
      ensures data == []
    {
      data := [];
    }

    method Write(bytes: seq<byte>)
      modifies this
      ensures data == old(data) + bytes
    {
      data := data + bytes;
    }

    method Write8(v: byte)
      modifies this
      ensures data == old(data) + [v]
    {
      data := data + [v];
    }

    method Write16(v: int)
      modifies this
      ensures data == old(data) + Be16(v)
    {
      data := data + Be16(v);
    }
  }
}

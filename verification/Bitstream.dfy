/** HEVC's BitstreamReader and MPEG4::ReadExpGolomb: bits of a unit without its
    emulation prevention bytes. */
module Bitstream {
  import opened Bytes
  import opened Capacity

  // ----- the bits of a unit --------------------------------------------------------------

  /** The third byte of 00 00 03 is there to be left out. */
  predicate Preventing(data: seq<byte>, i: nat)
    requires i < |data|
  {
    i >= 2 && data[i] == 3 && data[i - 1] == 0 && data[i - 2] == 0
  }

  /** The bytes from `i` on that carry content. */
  function Kept(data: seq<byte>, i: nat): seq<byte>
    requires i <= |data|
    decreases |data| - i
  {
    if i == |data| then []
    else (if Preventing(data, i) then [] else [data[i]]) + Kept(data, i + 1)
  }

  // ----- emulation prevention, as section 7.4.2 of ITU-T H.265 has it written ----------------

  /** Content with a 3 put in wherever two zeros would be followed by a byte up to 3;
      `zeros` says how many zeros were written last, two at most. */
  function Prevented(content: seq<byte>, zeros: nat): seq<byte>
  {
    if content == [] then []
    else if zeros >= 2 && content[0] <= 3 then
      [3, content[0]] + Prevented(content[1..], if content[0] == 0 then 1 else 0)
    else [content[0]] + Prevented(content[1..], if content[0] == 0 then zeros + 1 else 0)
  }

  /** The zeros right before place `i`, two at most. */
  function ZerosBefore(data: seq<byte>, i: nat): (z: nat)
    requires i <= |data|
  {
    if i >= 1 && data[i - 1] == 0 then if i >= 2 && data[i - 2] == 0 then 2 else 1 else 0
  }

  lemma {:induction false} PreventedKept(data: seq<byte>, i: nat, content: seq<byte>, zeros: nat)
    requires i <= |data| && data[i..] == Prevented(content, zeros)
    requires if zeros >= 2 then ZerosBefore(data, i) == 2 else ZerosBefore(data, i) == zeros
    ensures Kept(data, i) == content
    decreases |content|
  {
    if content != [] {
      var b := content[0];
      if zeros >= 2 && b <= 3 {
        assert data[i] == data[i..][0] == 3 && data[i + 1] == data[i..][1] == b;
        assert data[i + 2..] == data[i..][2..];
        PreventedKept(data, i + 2, content[1..], if b == 0 then 1 else 0);
        assert Kept(data, i) == Kept(data, i + 1) == [b] + Kept(data, i + 2);
      } else {
        assert data[i] == data[i..][0] == b;
        assert data[i + 1..] == data[i..][1..];
        PreventedKept(data, i + 1, content[1..], if b == 0 then zeros + 1 else 0);
      }
    }
  }

  /** Whatever the content, what an encoder puts in is what the reader leaves out. */
  lemma ContentKept(content: seq<byte>)
    ensures Kept(Prevented(content, 0), 0) == content
  {
    var data := Prevented(content, 0);
    assert data[0..] == data;
    PreventedKept(data, 0, content, 0);
  }

  // ----- bits ----------------------------------------------------------------------------------

  /** Bit `k` of a byte, the highest first. */
  predicate Bit(b: byte, k: nat)
    requires k < 8
  {
    b / Pow2(7 - k) % 2 == 1
  }

  function BitsOf(b: byte, k: nat): (s: seq<bool>)
    requires k <= 8
    ensures |s| == 8 - k
    decreases 8 - k
  {
    if k == 8 then [] else [Bit(b, k)] + BitsOf(b, k + 1)
  }

  function Bits(bytes: seq<byte>): (s: seq<bool>)
    ensures |s| == 8 * |bytes|
  {
    if bytes == [] then [] else BitsOf(bytes[0], 0) + Bits(bytes[1..])
  }

  // ----- values -----------------------------------------------------------------------------

  /** BitReader::read of `count` bits into 16: too great a value reads as the greatest. */
  function ReadValue(bits: seq<bool>, count: nat, result: UInt16): (UInt16, seq<bool>)
    decreases count
  {
    if bits == [] || count == 0 then (result, bits)
    else if !bits[0] then ReadValue(bits[1..], count - 1, result * 2 % 0x1_0000)
    else if count - 1 >= 16 then (0xFFFF, bits[1..])
    else ReadValue(bits[1..], count - 1, result * 2 % 0x1_0000 + 1)
  }

  /** Leading zeros, up to the first one, which is passed over too; counted on 8 bits. */
  function Zeros(bits: seq<bool>, n: byte): (byte, seq<bool>)
  {
    if bits == [] then (n, bits)
    else if bits[0] then (n, bits[1..])
    else Zeros(bits[1..], (n + 1) % 0x100)
  }

  /** ReadExpGolomb */
  function ReadGolomb(bits: seq<bool>): (UInt16, seq<bool>)
  {
    var zeros := Zeros(bits, 0);
    var value := ReadValue(zeros.1, zeros.0, 0);
    (if zeros.0 > 15 then 0 else (value.0 + Pow2(zeros.0) - 1) % 0x1_0000, value.1)
  }

  // ----- the code ------------------------------------------------------------------------------

  /** `v` in `n` bits. */
  function Binary(v: nat, n: nat): (s: seq<bool>)
    ensures |s| == n
  {
    if n == 0 then [] else Binary(v / 2, n - 1) + [v % 2 == 1]
  }

  function NoBits(n: nat): (s: seq<bool>)
    ensures |s| == n
  {
    if n == 0 then [] else [false] + NoBits(n - 1)
  }

  /** The exponential-Golomb code of `v` of order 0: with 2^n <= v + 1 < 2^(n+1), n zeros,
      a one, and v + 1 - 2^n in n bits. */
  function Golomb(v: nat, n: nat): seq<bool>
    requires Pow2(n) <= v + 1
  {
    NoBits(n) + [true] + Binary(v + 1 - Pow2(n), n)
  }

  lemma SmallPows()
    ensures Pow2(0) == 1 && Pow2(1) == 2 && Pow2(2) == 4 && Pow2(3) == 8
    ensures Pow2(4) == 16 && Pow2(5) == 32 && Pow2(6) == 64 && Pow2(7) == 128
  {
  }

  lemma DivTwice(v: nat, k: nat)
    requires k < 7
    ensures v / 2 / Pow2(k) == v / Pow2(k + 1)
  {
    SmallPows();
    hide Pow2;
    assert v / 2 / 1 == v / 2 && v / 2 / 2 == v / 4 && v / 2 / 4 == v / 8 && v / 2 / 8 == v / 16;
    assert v / 2 / 16 == v / 32 && v / 2 / 32 == v / 64 && v / 2 / 64 == v / 128;
  }

  lemma {:induction false} BinaryHighest(v: nat, n: nat)
    requires 0 < n <= 8
    ensures Binary(v, n) == [v / Pow2(n - 1) % 2 == 1] + Binary(v, n - 1)
    decreases n
  {
    hide Pow2;
    if n > 1 {
      BinaryHighest(v / 2, n - 1);
      SmallPows();
      DivTwice(v, n - 2);
    } else {
      SmallPows();
      assert Binary(v, 1) == Binary(v / 2, 0) + [v % 2 == 1];
    }
  }

  lemma {:induction false} BitsBinary(b: byte, k: nat)
    requires k <= 8
    ensures BitsOf(b, k) == Binary(b, 8 - k)
    decreases 8 - k
  {
    hide Pow2;
    if k < 8 {
      BitsBinary(b, k + 1);
      BinaryHighest(b, 8 - k);
    }
  }

  /** The bits of bytes are those of their values, each in eight, the highest first. */
  lemma ByteBits(b: byte, later: seq<byte>)
    ensures Bits([b] + later) == Binary(b, 8) + Bits(later)
  {
    BitsBinary(b, 0);
    assert ([b] + later)[1..] == later;
  }

  lemma {:induction false} ZerosRead(n: nat, rest: seq<bool>, from: byte)
    requires from + n < 0x100
    ensures Zeros(NoBits(n) + [true] + rest, from) == (from + n, rest)
    decreases n
  {
    if n == 0 {
      assert [] + [true] + rest == [true] + rest;
    } else {
      assert (NoBits(n) + [true] + rest)[1..] == NoBits(n - 1) + [true] + rest;
      ZerosRead(n - 1, rest, from + 1);
    }
  }

  /** `v` without its bit of weight 2^n, if it has it. */
  function Without(v: nat, n: nat): nat
  {
    if v >= Pow2(n) then v - Pow2(n) else v
  }

  lemma {:induction false} BinaryFirst(v: nat, n: nat)
    requires n > 0 && v < Pow2(n)
    ensures Binary(v, n) == [v >= Pow2(n - 1)] + Binary(Without(v, n - 1), n - 1)
    decreases n
  {
    if n > 1 {
      DoublePow(n - 2);
      BinaryFirst(v / 2, n - 1);
      assert Without(v, n - 1) / 2 == Without(v / 2, n - 2) && Without(v, n - 1) % 2 == v % 2;
    } else {
      assert Binary(v, 1) == Binary(v / 2, 0) + [v % 2 == 1];
    }
  }

  lemma ReadOne(bit: bool, later: seq<bool>, count: nat, result: UInt16)
    requires 0 < count <= 16 && result < 0x8000
    ensures ReadValue([bit] + later, count, result) == ReadValue(later, count - 1, result * 2 + if bit then 1 else 0)
  {
    assert ([bit] + later)[1..] == later;
  }

  lemma ReadNone(bits: seq<bool>, result: UInt16)
    ensures ReadValue(bits, 0, result) == (result, bits)
  {
  }

  lemma RoomLeft(result: nat, n: nat)
    requires 0 < n <= 15 && result < Pow2(15 - n)
    ensures result < 0x4000 && result * 2 + 1 < Pow2(15 - (n - 1))
  {
    hide Pow2;
    DoublePow(15 - n);
    Pow15(n - 1);
    assert 15 - (n - 1) == 15 - n + 1;
  }

  /** Fifteen bits at most, whole. */
  lemma {:induction false} ValueReads(v: nat, n: nat, rest: seq<bool>, result: UInt16)
    requires v < Pow2(n) && n <= 15 && result < Pow2(15 - n)
    ensures ReadValue(Binary(v, n) + rest, n, result).0 == result * Pow2(n) + v
    ensures ReadValue(Binary(v, n) + rest, n, result).1 == rest
    decreases n
  {
    hide ReadValue, Binary, Pow2;
    if n == 0 {
      PowNone();
      assert Binary(v, n) + rest == rest;
      ReadNone(rest, result);
    } else {
      BinaryFirst(v, n);
      var one, low := v >= Pow2(n - 1), Without(v, n - 1);
      assert Binary(v, n) + rest == [one] + (Binary(low, n - 1) + rest);
      RoomLeft(result, n);
      ReadOne(one, Binary(low, n - 1) + rest, n, result);
      TopBit(v, n);
      ValueReads(low, n - 1, rest, result * 2 + if one then 1 else 0);
      Shifted(result, n, if one then 1 else 0);
    }
  }

  lemma PowNone()
    ensures Pow2(0) == 1
  {
  }

  lemma Pow15(n: nat)
    requires n <= 15
    ensures Pow2(15 - n) <= 0x8000
  {
    hide Pow2;
    Powers();
    PowGrows(15 - n, 15);
    PowAdds(15, 1);
  }

  lemma TopBit(v: nat, n: nat)
    requires n > 0 && v < Pow2(n)
    ensures v == (if v >= Pow2(n - 1) then Pow2(n - 1) else 0) + Without(v, n - 1) && Without(v, n - 1) < Pow2(n - 1)
  {
  }

  lemma Shifted(result: nat, n: nat, bit: nat)
    requires n > 0
    ensures (result * 2 + bit) * Pow2(n - 1) == result * Pow2(n) + bit * Pow2(n - 1)
  {
    assert result * 2 * Pow2(n - 1) == result * (2 * Pow2(n - 1));
  }

  /** The code of every value below 65535 is read back whole; of any other as 0, if its
      zeros can be counted on 8 bits. */
  lemma GolombReads(v: nat, n: nat, rest: seq<bool>)
    requires Pow2(n) <= v + 1 < Pow2(n + 1)
    ensures v < 65535 ==> ReadGolomb(Golomb(v, n) + rest) == (v, rest)
    ensures v >= 65535 && n < 0x100 ==> ReadGolomb(Golomb(v, n) + rest).0 == 0
  {
    if n < 0x100 {
      CountedReads(v, n, rest);
    } else {
      Powers();
      PowGrows(16, n);
    }
  }

  lemma CountedReads(v: nat, n: nat, rest: seq<bool>)
    requires Pow2(n) <= v + 1 < Pow2(n + 1) && n < 0x100
    ensures ReadGolomb(Golomb(v, n) + rest).0 == if v < 65535 then v else 0
    ensures v < 65535 ==> ReadGolomb(Golomb(v, n) + rest).1 == rest
  {
    hide Pow2, Zeros, ReadValue, Binary, NoBits;
    var low := v + 1 - Pow2(n);
    Powers();
    assert Golomb(v, n) + rest == NoBits(n) + [true] + (Binary(low, n) + rest);
    ZerosRead(n, Binary(low, n) + rest, 0);
    if n <= 15 {
      PowGrows(n + 1, 16);
      DoublePow(n);
      ZeroBelow(15 - n);
      ValueReads(low, n, rest, 0);
    } else {
      PowGrows(16, n);
    }
  }

  lemma DoublePow(n: nat)
    ensures Pow2(n + 1) == 2 * Pow2(n)
  {
  }

  lemma ZeroBelow(n: nat)
    ensures 0 < Pow2(n)
  {
  }

  /** So a value comes back exactly if it is below 65535. */
  lemma GolombExactly(v: nat, n: nat, rest: seq<bool>)
    requires Pow2(n) <= v + 1 < Pow2(n + 1)
    ensures ReadGolomb(Golomb(v, n) + rest) == (v, rest) <==> v < 65535
  {
    hide ReadGolomb, Golomb, Pow2;
    GolombReads(v, n, rest);
    if n >= 0x100 {
      Powers();
      PowGrows(17, n);
      DoublePow(16);
    }
  }

  // ----- the reader ------------------------------------------------------------------------------

  class BitstreamReader {
    const data: seq<byte>
    var current: nat
    var bit: nat

    /** Never on a byte to be left out, nor in the middle of nothing. */
    predicate Valid()
      reads this
    {
      current <= |data| && bit < 8 && (current < |data| ==> !Preventing(data, current)) && (current == |data| ==> bit == 0)
    }

    /** The bits not read yet. */
    function Ahead(): seq<bool>
      requires Valid()
      reads this
    {
      if current == |data| then [] else BitsOf(data[current], bit) + Bits(Kept(data, current + 1))
    }

    constructor (data: seq<byte>)
      ensures this.data == data && Valid() && Ahead() == Bits(Kept(data, 0))
    {
      this.data := data;
      current, bit := 0, 0;
      new;
      if data != [] {
        KeptFirst(data, 0);
      }
    }

    /** One bit; a prevention byte that comes next is passed over at once. */
    method ReadBit() returns (result: bool)
      requires Valid()
      modifies this
      ensures Valid()
      ensures old(Ahead()) == [] ==> !result && Ahead() == []
      ensures old(Ahead()) != [] ==> old(Ahead()) == [result] + Ahead()
    {
      hide Kept, Bits, Bit;
      if current == |data| {
        return false;
      }
      result := Bit(data[current], bit);
      ghost var later := Bits(Kept(data, current + 1));
      assert BitsOf(data[current], bit) + later == [result] + (BitsOf(data[current], bit + 1) + later);
      bit := bit + 1;
      if bit == 8 {
        assert [] + later == later;
        NextByte();
      }
    }

    method NextByte()
      requires current < |data|
      modifies this
      ensures Valid() && Ahead() == Bits(Kept(data, old(current) + 1))
    {
      hide Bits, BitsOf;
      bit := 0;
      current := current + 1;
      if current < |data| {
        KeptFirst(data, current);
        if current >= 2 && data[current] == 3 && data[current - 1] == 0 && data[current - 2] == 0 {
          current := current + 1;
          if current < |data| {
            KeptFirst(data, current);
          }
        }
      }
      if current == |data| {
        NothingKept();
      }
    }

    lemma NothingKept()
      ensures Bits(Kept(data, |data|)) == []
    {
    }

    method Available() returns (more: bool)
      requires Valid()
      ensures more <==> Ahead() != []
    {
      more := (|data| - current) * 8 - bit != 0;
    }

    method ReadBits(count: nat) returns (value: UInt16)
      requires Valid()
      modifies this
      ensures Valid() && (value, Ahead()) == ReadValue(old(Ahead()), count, 0)
    {
      hide Ahead, ReadValue;
      value := 0;
      var left := count;
      while current != |data| && left > 0
        invariant Valid() && ReadValue(Ahead(), left, value) == ReadValue(old(Ahead()), count, 0)
        decreases left
      {
        var one := NextBit(left, value);
        left := left - 1;
        value := value * 2 % 0x1_0000;
        if one {
          if left >= 16 {
            return 0xFFFF;
          }
          value := value + 1;
        }
      }
      AheadNotEmpty();
      ReadEnd(Ahead(), left, value);
    }

    /** A bit that is there, and what becomes of the value it is read into. */
    method NextBit(ghost left: nat, ghost value: UInt16) returns (one: bool)
      requires Valid() && current != |data| && left > 0
      modifies this
      ensures Valid()
      ensures ReadValue(old(Ahead()), left, value)
        == if one && left - 1 >= 16 then (0xFFFF, Ahead())
           else ReadValue(Ahead(), left - 1, value * 2 % 0x1_0000 + if one then 1 else 0)
    {
      hide Ahead, ReadValue;
      ghost var ahead := Ahead();
      AheadNotEmpty();
      one := ReadBit();
      ReadIs(ahead, one, Ahead(), left, value);
    }

    lemma AheadNotEmpty()
      requires Valid()
      ensures Ahead() == [] <==> current == |data|
    {
    }

    method ReadExpGolomb() returns (value: UInt16)
      requires Valid()
      modifies this
      ensures Valid() && (value, Ahead()) == ReadGolomb(old(Ahead()))
    {
      hide ReadValue, Bits, BitsOf, Kept;
      var i: byte := 0;
      var more := Available();
      while more
        invariant Valid() && (more ==> Ahead() != [])
        invariant if more then Zeros(Ahead(), i) == Zeros(old(Ahead()), 0) else Zeros(old(Ahead()), 0) == (i, Ahead())
        decreases |Ahead()| + if more then 1 else 0
      {
        ghost var ahead := Ahead();
        var one := ReadBit();
        assert ahead[1..] == Ahead();
        if one {
          more := false;
        } else {
          i := (i + 1) % 0x100;
          more := Available();
        }
      }
      var result := ReadBits(i);
      if i > 15 {
        return 0;
      }
      return (result + Pow2(i) - 1) % 0x1_0000;
    }
  }

  lemma ReadIs(bits: seq<bool>, one: bool, later: seq<bool>, count: nat, result: UInt16)
    requires bits == [one] + later && count > 0
    ensures ReadValue(bits, count, result)
      == if one && count - 1 >= 16 then (0xFFFF, later)
         else ReadValue(later, count - 1, result * 2 % 0x1_0000 + if one then 1 else 0)
  {
    assert bits[1..] == later;
  }

  lemma ReadEnd(bits: seq<bool>, count: nat, result: UInt16)
    requires bits == [] || count == 0
    ensures ReadValue(bits, count, result) == (result, bits)
  {
  }

  lemma KeptFirst(data: seq<byte>, i: nat)
    requires i < |data|
    ensures !Preventing(data, i) ==> Bits(Kept(data, i)) == BitsOf(data[i], 0) + Bits(Kept(data, i + 1))
    ensures Preventing(data, i) ==> Kept(data, i) == Kept(data, i + 1) && (i + 1 < |data| ==> !Preventing(data, i + 1))
  {
    if Preventing(data, i) {
      assert [] + Kept(data, i + 1) == Kept(data, i + 1);
    } else {
      assert ([data[i]] + Kept(data, i + 1))[1..] == Kept(data, i + 1);
    }
  }
}

/** Crypto::ComputeCRC32: the table-driven loop, the long division of
    polynomials over GF(2) it stands for, and the reflected form its rotate
    options give. */
module Crc32 {
  import opened Gf2
  import opened CrcTable

  datatype RotateOptions = RotateOptions(input: bool, output: bool)

  const PLAIN := RotateOptions(false, false)

  // ----- bit reversal ------------------------------------------------------------

  function Rotate8(value: bv8): bv8
  {
    var v1 := ((value >> 1) & 0x55) | ((value & 0x55) << 1);
    var v2 := ((v1 >> 2) & 0x33) | ((v1 & 0x33) << 2);
    (v2 >> 4) | (v2 << 4)
  }

  function Rotate32(value: bv32): bv32
  {
    var v1 := ((value >> 1) & 0x55555555) | ((value & 0x55555555) << 1);
    var v2 := ((v1 >> 2) & 0x33333333) | ((v1 & 0x33333333) << 2);
    var v3 := ((v2 >> 4) & 0x0F0F0F0F) | ((v2 & 0x0F0F0F0F) << 4);
    var v4 := ((v3 >> 8) & 0x00FF00FF) | ((v3 & 0x00FF00FF) << 8);
    (v4 >> 16) | (v4 << 16)
  }

  // ----- the table-driven loop ---------------------------------------------------

  function Index(crc: bv32, b: bv8): bv8
  {
    (crc >> 24) as bv8 ^ b
  }

  function Update(crc: bv32, b: bv8): bv32
  {
    (crc << 8) ^ Entry(Index(crc, b))
  }

  /** The register after `data`, started at `crc`. */
  function Run(crc: bv32, data: seq<bv8>, rotate: bool): bv32
    decreases |data|
  {
    if data == [] then crc
    else
      var last := data[|data| - 1];
      Update(Run(crc, data[..|data| - 1], rotate), if rotate then Rotate8(last) else last)
  }

  function Compute(data: seq<bv8>, options: RotateOptions): bv32
  {
    var crc := Run(0xFFFFFFFF, data, options.input);
    if options.output then Rotate32(crc) else crc
  }

  method ComputeCRC32(data: seq<bv8>, options: RotateOptions) returns (crc: bv32)
    ensures crc == Compute(data, options)
  {
    hide Rotate8, Rotate32, Entry, Index;
    crc := 0xFFFFFFFF;
    for i := 0 to |data|
      invariant crc == Run(0xFFFFFFFF, data[..i], options.input)
    {
      assert data[..i + 1][..i] == data[..i];
      if options.input {
        crc := (crc << 8) ^ Entry(Index(crc, Rotate8(data[i])));
      } else {
        crc := (crc << 8) ^ Entry(Index(crc, data[i]));
      }
    }
    assert data[..|data|] == data;
    if options.output {
      crc := Rotate32(crc);
    }
  }

  // ----- polynomials as bit sequences, highest degree first ----------------------

  /** The `n` highest bits of `x`. */
  function Bits(x: bv32, n: nat): (s: seq<bool>)
    ensures |s| == n
    decreases n
  {
    if n == 0 then [] else [Top(x)] + Bits(Shl(x), n - 1)
  }

  function ByteBits(b: bv8): (s: seq<bool>)
    ensures |s| == 8
  {
    Bits(Widen(b), 8)
  }

  function Message(data: seq<bv8>): (s: seq<bool>)
    ensures |s| == 8 * |data|
  {
    if data == [] then [] else ByteBits(data[0]) + Message(data[1..])
  }

  function Zeros(n: nat): (s: seq<bool>)
    ensures |s| == n
    ensures forall i :: 0 <= i < n ==> !s[i]
  {
    seq(n, _ => false)
  }

  /** Add `a`, aligned at the highest degree, to `s`. */
  function AddFront(a: seq<bool>, s: seq<bool>): (r: seq<bool>)
    requires |a| <= |s|
    ensures |r| == |s|
    ensures forall i :: 0 <= i < |a| ==> r[i] == (a[i] != s[i])
    ensures forall i :: |a| <= i < |s| ==> r[i] == s[i]
  {
    seq(|s|, i requires 0 <= i < |s| => if i < |a| then a[i] != s[i] else s[i])
  }

  /** The remainder of `s` by x^32 + 0x04C11DB7: schoolbook long division over GF(2).
      A leading 1 is cancelled by subtracting the divisor below it, a leading 0
      is dropped, until 32 bits remain. */
  function Divide(s: seq<bool>): (r: seq<bool>)
    requires |s| >= 32
    ensures |r| == 32
    decreases |s|
  {
    if |s| == 32 then s
    else if s[0] then Divide(AddFront(Bits(POLYNOMIAL, 32), s[1..]))
    else Divide(s[1..])
  }

  // ----- the loop is long division -----------------------------------------------

  /** The register fed one message bit. */
  function FeedBit(r: bv32, bit: bool): bv32
  {
    if Top(r) != bit then Xor(Shl(r), POLYNOMIAL) else Shl(r)
  }

  function Feed(r: bv32, bits: seq<bool>): bv32
    decreases |bits|
  {
    if bits == [] then r else Feed(FeedBit(r, bits[0]), bits[1..])
  }

  lemma {:induction false} BitsXor(x: bv32, y: bv32, n: nat)
    ensures forall i :: 0 <= i < n ==> Bits(Xor(x, y), n)[i] == (Bits(x, n)[i] != Bits(y, n)[i])
    decreases n
  {
    hide Xor, Top, Shl;
    if n > 0 {
      ShlXor(x, y);
      TopXor(x, y);
      BitsXor(Shl(x), Shl(y), n - 1);
    }
  }

  lemma {:induction false} BitsLast(x: bv32, n: nat)
    ensures Bits(x, n + 1) == Bits(x, n) + [Top(Shls(x, n))]
    decreases n
  {
    hide Shl, Top;
    if n > 0 {
      BitsLast(Shl(x), n - 1);
    }
  }

  /** Shifting the register left brings in a zero. */
  lemma BitsShift(x: bv32)
    ensures Bits(x, 32)[1..] + [false] == Bits(Shl(x), 32)
  {
    hide Shl, Top;
    BitsLast(Shl(x), 31);
    ShlsOut(x);
    assert Shls(x, 32) == Shls(Shl(x), 31);
    TopOfZero();
  }

  lemma TopOfZero()
    ensures !Top(0)
  {
  }

  /** Bringing down one message bit, when nothing is to be cancelled. */
  lemma DropFront(r: bv32, bits: seq<bool>)
    requires bits != []
    ensures AddFront(Bits(r, 32), bits + Zeros(32))[0] == (Top(r) != bits[0])
    ensures AddFront(Bits(r, 32), bits + Zeros(32))[1..] == AddFront(Bits(Shl(r), 32), bits[1..] + Zeros(32))
  {
    hide Shl, Top;
    assert Bits(r, 32)[0] == Top(r);
    BitsShift(r);
    hide Bits;
    assert (bits + Zeros(32))[1..] == bits[1..] + Zeros(32);
    ShiftedFront(Bits(r, 32), Bits(Shl(r), 32), bits + Zeros(32));
  }

  lemma ShiftedFront(a: seq<bool>, a': seq<bool>, s: seq<bool>)
    requires |a| == 32 && a' == a[1..] + [false] && |s| >= 33
    ensures AddFront(a, s)[1..] == AddFront(a', s[1..])
  {
  }

  lemma AddTwice(x: bv32, y: bv32, s: seq<bool>)
    requires |s| >= 32
    ensures AddFront(Bits(y, 32), AddFront(Bits(x, 32), s)) == AddFront(Bits(Xor(x, y), 32), s)
  {
    hide Xor, Bits;
    BitsXor(x, y, 32);
  }

  lemma {:induction false} FeedIsLongDivision(r: bv32, bits: seq<bool>)
    ensures Bits(Feed(r, bits), 32) == Divide(AddFront(Bits(r, 32), bits + Zeros(32)))
    decreases |bits|
  {
    hide Shl, Top, Xor, Bits;
    var s := AddFront(Bits(r, 32), bits + Zeros(32));
    if bits == [] {
      assert s == Bits(r, 32);
    } else {
      DropFront(r, bits);
      if s[0] {
        AddTwice(Shl(r), POLYNOMIAL, bits[1..] + Zeros(32));
      }
      FeedIsLongDivision(FeedBit(r, bits[0]), bits[1..]);
    }
  }

  // ----- one table step is eight bit steps ---------------------------------------

  lemma {:induction false} FeedAppend(r: bv32, a: seq<bool>, b: seq<bool>)
    ensures Feed(r, a + b) == Feed(Feed(r, a), b)
    decreases |a|
  {
    hide FeedBit;
    if a == [] {
      assert a + b == b;
    } else {
      assert (a + b)[1..] == a[1..] + b;
      FeedAppend(FeedBit(r, a[0]), a[1..], b);
    }
  }

  lemma StepFeed(r: bv32, m: bv32)
    ensures Step(Xor(r, m)) == Xor(FeedBit(r, Top(m)), Shl(m))
  {
    hide Step, Xor, Shl, Top;
    StepCases(Xor(r, m));
    ShlXor(r, m);
    TopXor(r, m);
    XorLeft(Shl(r), Shl(m), POLYNOMIAL);
  }

  /** Feeding bits one at a time is the same as adding them all to the register first. */
  lemma {:induction false} FeedIsSteps(r: bv32, m: bv32, n: nat)
    ensures Xor(Feed(r, Bits(m, n)), Shls(m, n)) == Steps(Xor(r, m), n)
    decreases n
  {
    hide Step, FeedBit, Top, Xor, Shl;
    if n > 0 {
      assert Bits(m, n)[1..] == Bits(Shl(m), n - 1);
      StepFeed(r, m);
      FeedIsSteps(FeedBit(r, Top(m)), Shl(m), n - 1);
    }
  }

  lemma IndexBits(crc: bv32, b: bv8)
    ensures Widen(Index(crc, b)) == Xor(crc & 0xFF000000, Widen(b))
  {
  }

  lemma SplitBits(crc: bv32)
    ensures crc == Xor(crc & 0xFF000000, crc & 0x00FFFFFF)
  {
  }

  lemma SplitRegister(crc: bv32, b: bv8)
    ensures Xor(crc, Widen(b)) == Xor(Widen(Index(crc, b)), crc & 0x00FFFFFF)
  {
    hide Xor, Widen, Index;
    IndexBits(crc, b);
    SplitBits(crc);
    XorLeft(crc & 0xFF000000, crc & 0x00FFFFFF, Widen(b));
  }

  lemma LowPart(crc: bv32)
    ensures (crc & 0x00FFFFFF) << 8 == crc << 8
    ensures (crc & 0x00FFFFFF) & 0xFF000000 == 0
  {
  }

  lemma UpdateIsXor(crc: bv32, b: bv8)
    ensures Update(crc, b) == Xor(Entry(Index(crc, b)), crc << 8)
  {
    hide Entry, Index;
  }

  /** A table step is eight steps of the bitwise division. */
  lemma UpdateIsStep8(crc: bv32, b: bv8)
    ensures Update(crc, b) == Step8(Xor(crc, Widen(b)))
  {
    hide Step8, Steps, Entry, Xor, Widen, Index, Update;
    SplitRegister(crc, b);
    LowPart(crc);
    UpdateIsXor(crc, b);
    var i := Index(crc, b);
    EntryDivides(i);
    StepsEight(Widen(i));
    StepsEight(crc & 0x00FFFFFF);
    StepsEight(Xor(Widen(i), crc & 0x00FFFFFF));
    StepsXor(Widen(i), crc & 0x00FFFFFF, 8);
    Step8Low(crc & 0x00FFFFFF);
  }

  lemma WidenedOut(b: bv8)
    ensures Widen(b) << 8 == 0
  {
  }

  lemma UpdateIsFeed(crc: bv32, b: bv8)
    ensures Update(crc, b) == Feed(crc, ByteBits(b))
  {
    hide Steps, Step8, Update, Top, Xor, Shl, Shls, Widen;
    UpdateIsStep8(crc, b);
    FeedIsSteps(crc, Widen(b), 8);
    StepsEight(Xor(crc, Widen(b)));
    ShlsEight(Widen(b));
    WidenedOut(b);
    XorLaws(Feed(crc, ByteBits(b)), 0);
  }

  lemma {:induction false} MessageSnoc(data: seq<bv8>, b: bv8)
    ensures Message(data + [b]) == Message(data) + ByteBits(b)
  {
    hide ByteBits;
    if data == [] {
      assert (data + [b])[1..] == [];
    } else {
      assert (data + [b])[1..] == data[1..] + [b];
      MessageSnoc(data[1..], b);
    }
  }

  lemma {:induction false} RunIsFeed(crc: bv32, data: seq<bv8>)
    ensures Run(crc, data, false) == Feed(crc, Message(data))
    decreases |data|
  {
    hide ByteBits, Update, FeedBit;
    if data != [] {
      var init, last := data[..|data| - 1], data[|data| - 1];
      assert data == init + [last];
      RunIsFeed(crc, init);
      MessageSnoc(init, last);
      FeedAppend(crc, Message(init), ByteBits(last));
      UpdateIsFeed(Run(crc, init, false), last);
    }
  }

  /** The table-driven register is the remainder of the whole message times x^32,
      with the initial register added in front. */
  lemma CrcIsLongDivision(crc: bv32, data: seq<bv8>)
    ensures Bits(Run(crc, data, false), 32) == Divide(AddFront(Bits(crc, 32), Message(data) + Zeros(32)))
  {
    hide Run, Feed;
    RunIsFeed(crc, data);
    FeedIsLongDivision(crc, Message(data));
  }

  // ----- sealing: appending the checksum leaves residue 0 --------------------------

  function BigEndian(x: bv32): (s: seq<bv8>)
    ensures |s| == 4
  {
    [(x >> 24) as bv8, ((x >> 16) & 0xFF) as bv8, ((x >> 8) & 0xFF) as bv8, (x & 0xFF) as bv8]
  }

  lemma {:induction false} RunAppend(crc: bv32, a: seq<bv8>, b: seq<bv8>, rotate: bool)
    ensures Run(crc, a + b, rotate) == Run(Run(crc, a, rotate), b, rotate)
    decreases |b|
  {
    hide Update, Rotate8;
    if b == [] {
      assert a + b == a;
    } else {
      var init := b[..|b| - 1];
      assert (a + b)[..|a + b| - 1] == a + init;
      RunAppend(crc, a, init, rotate);
    }
  }

  lemma RunFour(c: bv32, t: seq<bv8>)
    requires |t| == 4
    ensures Run(c, t, false) == Update(Update(Update(Update(c, t[0]), t[1]), t[2]), t[3])
  {
    hide Update;
    assert t[..3][..2] == t[..2] && t[..2][..1] == t[..1] && t[..1][..0] == [];
    assert Run(c, t[..1], false) == Update(c, t[0]);
    assert Run(c, t[..2], false) == Update(Update(c, t[0]), t[1]);
  }

  /** Only index 0 has an entry with a zero low byte. */
  lemma EntryLowByte(i: bv8)
    ensures Entry(i) & 0xFF == 0 ==> i == 0
  {
    hide Entry;
    EntryDivides(i);
    Step8LowByte(i);
  }

  lemma Step8LowByte(i: bv8)
    ensures Step8(Widen(i)) & 0xFF == 0 ==> i == 0
  {
  }

  lemma IndexZero(crc: bv32, b: bv8)
    ensures Index(crc, b) == 0 <==> b == (crc >> 24) as bv8
  {
  }

  lemma EntryZero()
    ensures Entry(0) == 0
  {
  }

  lemma XorLowByte(a: bv32, e: bv32)
    ensures ((a << 8) ^ e) & 0xFF == e & 0xFF
    ensures (a << 8) ^ 0 == a << 8
  {
  }

  /** A step clears the low byte exactly when the byte is the register's top byte. */
  lemma UpdateTop(crc: bv32, b: bv8)
    ensures Update(crc, b) & 0xFF == 0 <==> b == (crc >> 24) as bv8
    ensures b == (crc >> 24) as bv8 ==> Update(crc, b) == crc << 8
  {
    hide Entry, Index;
    IndexZero(crc, b);
    EntryZero();
    EntryLowByte(Index(crc, b));
    XorLowByte(crc, Entry(Index(crc, b)));
  }

  lemma BigEndianShifts(x: bv32)
    ensures (x << 8 >> 24) as bv8 == BigEndian(x)[1]
    ensures (x << 8 << 8 >> 24) as bv8 == BigEndian(x)[2]
    ensures (x << 8 << 8 << 8 >> 24) as bv8 == BigEndian(x)[3]
  {
  }

  /** A sealed section checks to zero, and only the right checksum seals it. */
  lemma SealedResidue(data: seq<bv8>, x: bv32)
    ensures Compute(data + BigEndian(x), PLAIN) == 0 <==> x == Compute(data, PLAIN)
  {
    RunAppend(0xFFFFFFFF, data, BigEndian(x), false);
    var c := Run(0xFFFFFFFF, data, false);
    RunFour(c, BigEndian(x));
    FourSteps(c, x);
  }

  lemma FourSteps(c: bv32, x: bv32)
    ensures var t := BigEndian(x);
      Update(Update(Update(Update(c, t[0]), t[1]), t[2]), t[3]) == 0 <==> x == c
  {
    hide Update, BigEndian;
    var t := BigEndian(x);
    var r1 := Update(c, t[0]);
    var r2 := Update(r1, t[1]);
    var r3 := Update(r2, t[2]);
    var r4 := Update(r3, t[3]);
    UpdateTop(c, t[0]);
    UpdateTop(r1, t[1]);
    UpdateTop(r2, t[2]);
    UpdateTop(r3, t[3]);
    if x == c {
      BigEndianTop(c);
      BigEndianShifts(c);
      ShiftedOut(c);
    }
    if r4 == 0 {
      LowBytes(c, r1, r2, r3, x);
    }
  }

  lemma BigEndianTop(x: bv32)
    ensures (x >> 24) as bv8 == BigEndian(x)[0]
  {
  }

  /** Undoing the four shifts byte by byte. */
  lemma LowBytes(c: bv32, r1: bv32, r2: bv32, r3: bv32, x: bv32)
    requires BigEndian(x)[3] == (r3 >> 24) as bv8 && r3 << 8 == 0
    requires r3 & 0xFF == 0 ==> BigEndian(x)[2] == (r2 >> 24) as bv8 && r3 == r2 << 8
    requires r2 & 0xFF == 0 ==> BigEndian(x)[1] == (r1 >> 24) as bv8 && r2 == r1 << 8
    requires r1 & 0xFF == 0 ==> BigEndian(x)[0] == (c >> 24) as bv8 && r1 == c << 8
    ensures x == c
  {
    assert r3 & 0xFF == 0;
    assert r2 & 0xFF == 0;
    assert r1 & 0xFF == 0;
  }

  // ----- the reflected form --------------------------------------------------------

  const REFLECTED: bv32 := 0xEDB88320

  /** One step of the division, least significant bit first. */
  function ReflectedStep(r: bv32): bv32
  {
    if r & 1 != 0 then (r >> 1) ^ REFLECTED else r >> 1
  }

  function ReflectedUpdate(r: bv32, b: bv8): bv32
  {
    var x := r ^ b as bv32;
    ReflectedStep(ReflectedStep(ReflectedStep(ReflectedStep(
      ReflectedStep(ReflectedStep(ReflectedStep(ReflectedStep(x))))))))
  }

  function ReflectedRun(r: bv32, data: seq<bv8>): bv32
    decreases |data|
  {
    if data == [] then r
    else ReflectedUpdate(ReflectedRun(r, data[..|data| - 1]), data[|data| - 1])
  }

  lemma RotateXor(x: bv32, y: bv32)
    ensures Rotate32(Xor(x, y)) == Xor(Rotate32(x), Rotate32(y))
  {
  }

  lemma RotateShift(x: bv32)
    ensures Rotate32(x << 1) == Rotate32(x) >> 1
  {
  }

  lemma RotateShl(x: bv32)
    ensures Rotate32(Shl(x)) == Rotate32(x) >> 1
  {
    hide Rotate32;
    RotateShift(x);
  }

  lemma RotateTop(x: bv32)
    ensures Top(x) == (Rotate32(x) & 1 != 0)
  {
  }

  lemma RotatePolynomial()
    ensures Rotate32(POLYNOMIAL) == REFLECTED
  {
  }

  lemma ReflectedCases(r: bv32)
    ensures ReflectedStep(r) == if r & 1 != 0 then Xor(r >> 1, REFLECTED) else r >> 1
  {
  }

  lemma RotateStep(r: bv32)
    ensures Rotate32(Step(r)) == ReflectedStep(Rotate32(r))
  {
    hide Rotate32, Step, ReflectedStep, Xor, Shl, Top;
    StepCases(r);
    RotateXor(Shl(r), POLYNOMIAL);
    RotateShl(r);
    RotateTop(r);
    RotatePolynomial();
    ReflectedCases(Rotate32(r));
  }

  lemma RotateAdd(r: bv32, b: bv8)
    ensures Rotate32(Xor(r, Widen(Rotate8(b)))) == Rotate32(r) ^ b as bv32
  {
  }

  lemma RotateUpdate(crc: bv32, b: bv8)
    ensures Rotate32(Update(crc, Rotate8(b))) == ReflectedUpdate(Rotate32(crc), b)
  {
    hide Rotate32, Rotate8, Step, ReflectedStep, Xor, Widen, Update;
    UpdateIsStep8(crc, Rotate8(b));
    RotateAdd(crc, b);
    var x0 := Xor(crc, Widen(Rotate8(b)));
    var x1 := Step(x0);
    var x2 := Step(x1);
    var x3 := Step(x2);
    var x4 := Step(x3);
    var x5 := Step(x4);
    var x6 := Step(x5);
    var x7 := Step(x6);
    RotateStep(x0); RotateStep(x1); RotateStep(x2); RotateStep(x3);
    RotateStep(x4); RotateStep(x5); RotateStep(x6); RotateStep(x7);
  }

  lemma {:induction false} RotatedRun(crc: bv32, data: seq<bv8>)
    ensures Rotate32(Run(crc, data, true)) == ReflectedRun(Rotate32(crc), data)
    decreases |data|
  {
    hide Rotate32, Rotate8, Update, ReflectedUpdate;
    if data != [] {
      RotatedRun(crc, data[..|data| - 1]);
      RotateUpdate(Run(crc, data[..|data| - 1], true), data[|data| - 1]);
    }
  }

  lemma RotateOnes()
    ensures Rotate32(0xFFFFFFFF) == 0xFFFFFFFF
  {
  }

  /** Both rotations together give the least-significant-bit-first CRC with the
      reflected generator. */
  lemma RotatedIsReflected(data: seq<bv8>)
    ensures Compute(data, RotateOptions(true, true)) == ReflectedRun(0xFFFFFFFF, data)
  {
    hide Rotate32, Run, ReflectedRun;
    RotatedRun(0xFFFFFFFF, data);
    RotateOnes();
  }
}

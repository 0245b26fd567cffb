/** write7Bit and read7Bit: seven bits to a byte, eight to the last one there is room for. */
module Varint {
  import opened Bytes
  import opened Capacity

  /** A shift to the right, bit by bit. */
  function Shr(v: nat, n: nat): nat
  {
    if n == 0 then v else Shr(v, n - 1) / 2
  }

  // ----- the bit count ------------------------------------------------------------------

  /** Seven bits for each of `i` bytes, on 8 bits as the code counts them. */
  function Bits(i: nat): byte
  {
    7 * i % 0x100
  }

  /** Seven less, on 8 bits. */
  function Down(bits: byte): byte
  {
    (bits + 249) % 0x100
  }

  /** Which multiple of 7 a count is, on 8 bits: how often it goes down before it is 0. */
  function Index(bits: byte): byte
  {
    bits * 183 % 0x100
  }

  lemma Remainder(x: int, q: int, r: int)
    requires x == 0x100 * q + r && 0 <= r < 0x100
    ensures x % 0x100 == r
  {
  }

  lemma DownNearer(bits: byte)
    ensures bits != 0 ==> Index(bits) > 0 && Index(Down(bits)) == Index(bits) - 1
  {
    if bits != 0 {
      var i, q := Index(bits) as int, bits * 183 / 0x100;
      assert bits * 183 == 0x100 * q + i;
      assert bits == 0x100 * (7 * q - 5 * bits) + 7 * i;
      if bits >= 7 {
        Remainder(bits + 249, 1, bits - 7);
        Remainder((bits - 7) * 183, q - 5, i - 1);
      } else {
        Remainder(bits + 249, 0, bits + 249);
        Remainder((bits + 249) * 183, q + 178, i - 1);
      }
    }
  }

  lemma BitsSteps(i: nat)
    requires i < 0x100
    ensures i > 0 ==> Down(Bits(i)) == Bits(i - 1)
    ensures Bits(i) == 0 <==> i == 0
    ensures Bits(i) == 1 <==> i == 183
  {
    var b, q := Bits(i) as int, 7 * i / 0x100;
    assert 7 * i == 0x100 * q + b;
    assert i == 0x100 * (183 * q - 5 * i) + 183 * b;
    if i > 0 {
      if b >= 7 {
        Remainder(b + 249, 1, b - 7);
        Remainder(7 * (i - 1), q, b - 7);
      } else {
        Remainder(b + 249, 0, b + 249);
        Remainder(7 * (i - 1), q - 1, b + 249);
      }
    }
  }

  /** One bit more. */
  lemma BitsUp(k: nat)
    requires k < 0x100
    ensures (Bits(k) + 1) % 0x100 == Bits(if k <= 72 then k + 183 else k - 73)
  {
    var b, q := Bits(k) as int, 7 * k / 0x100;
    var i: int := if k <= 72 then k + 183 else k - 73;
    var t := q + if k <= 72 then 5 else -2;
    assert 7 * i == 0x100 * t + b + 1;
    if b == 255 {
      Remainder(7 * i, t + 1, 0);
    } else {
      Remainder(7 * i, t, b + 1);
    }
  }

  // ----- what is written ----------------------------------------------------------------

  /** Continuation bytes of `v` from bit `bits` down. */
  function Leading(v: nat, bits: byte): seq<byte>
    decreases Index(bits)
  {
    if bits <= 1 then []
    else
      DownNearer(bits);
      [0x80 + Shr(v, bits) % 0x80] + Leading(v, Down(bits))
  }

  /** The count behind them: 0 or 1. */
  function End(bits: byte): byte
    decreases Index(bits)
  {
    if bits <= 1 then bits
    else
      DownNearer(bits);
      End(Down(bits))
  }

  /** The last byte takes the eighth bit if one is left. */
  function Out(v: nat, bits: byte): seq<byte>
  {
    Leading(v, bits) + [if End(bits) != 0 then v % 0x100 else v % 0x80]
  }

  /** Down from `bits`, to where `v` still has something, or 0. */
  function Top(v: nat, bits: byte): byte
    decreases Index(bits)
  {
    if bits == 0 || Shr(v, bits) != 0 then bits
    else
      DownNearer(bits);
      Top(v, Down(bits))
  }

  /** What would go into the first byte. */
  function Front(v: nat, width: nat, bytes: byte): nat
    requires bytes > 0
  {
    if Bits(bytes - 1) > width then 0 else Shr(v, Bits(bytes - 1))
  }

  /** What write7Bit writes of a value of `width` bits in at most `bytes` bytes; a value
      with more than 8 bits for the first byte becomes the greatest of its type. */
  function Written(v: nat, width: nat, bytes: byte): seq<byte>
    requires bytes > 0
  {
    var front := Front(v, width, bytes);
    if front != 0 then Out(if front > 0xFF then Pow2(width) - 1 else v, (Bits(bytes - 1) + 1) % 0x100)
    else Out(v, Top(v, Down(Bits(bytes - 1))))
  }

  /** read7Bit on `width` bits: the value and what remains. */
  function Read(r: seq<byte>, width: nat, bytes: nat, result: nat): (nat, seq<byte>)
    requires bytes > 0
    decreases bytes
  {
    if bytes == 1 then ((result * 0x100 + U8(r)) % Pow2(width), Drop(r, 1))
    else
      var next := (result * 0x80 + U8(r) % 0x80) % Pow2(width);
      if U8(r) >= 0x80 then Read(Drop(r, 1), width, bytes - 1, next) else (next, Drop(r, 1))
  }

  // ----- shifts -------------------------------------------------------------------------

  lemma ShrNone(v: nat)
    ensures Shr(v, 0) == v
  {
  }

  lemma ShrSeven(v: nat, n: nat)
    ensures Shr(v, n + 7) == Shr(v, n) / 0x80
  {
    var x := Shr(v, n);
    assert Shr(v, n + 2) == x / 2 / 2;
    assert Shr(v, n + 4) == Shr(v, n + 2) / 2 / 2;
    assert Shr(v, n + 6) == Shr(v, n + 4) / 2 / 2;
    assert Shr(v, n + 7) == Shr(v, n + 6) / 2;
    Halves(x);
  }

  lemma Halves(x: nat)
    ensures x / 2 / 2 / 2 / 2 / 2 / 2 / 2 == x / 0x80
  {
    assert x / 2 / 2 == x / 4;
    assert x / 4 / 2 / 2 == x / 16;
    assert x / 16 / 2 / 2 == x / 64;
  }

  lemma {:induction false} ShrBelow(v: nat, n: nat, k: nat)
    requires v < Pow2(n + k)
    ensures Shr(v, n) < Pow2(k)
    decreases n
  {
    if n > 0 {
      ShrBelow(v, n - 1, k + 1);
    }
  }

  lemma {:induction false} ShrAbove(v: nat, n: nat, k: nat)
    requires v >= Pow2(n + k)
    ensures Shr(v, n) >= Pow2(k)
    decreases n
  {
    if n > 0 {
      ShrAbove(v, n - 1, k + 1);
    }
  }

  lemma {:induction false} ShrLess(v: nat, n: nat)
    ensures Shr(v, n) <= v
  {
    if n > 0 {
      ShrLess(v, n - 1);
    }
  }

  lemma {:induction false} ShrOnes(width: nat, n: nat)
    requires n <= width
    ensures Shr(Pow2(width) - 1, n) == Pow2(width - n) - 1
    decreases n
  {
    if n > 0 {
      ShrOnes(width, n - 1);
    }
  }

  lemma LowPowers()
    ensures Pow2(0) == 1 && Pow2(7) == 0x80 && Pow2(8) == 0x100
  {
    Powers();
    assert Pow2(8) == 2 * Pow2(7);
  }

  lemma SevenMore(m: nat)
    ensures Pow2(m + 7) == 0x80 * Pow2(m) && Pow2(m + 8) == 0x100 * Pow2(m)
  {
    hide Pow2;
    LowPowers();
    PowAdds(m, 7);
    PowAdds(m, 8);
  }

  lemma Small(x: nat, p: nat)
    requires x < p
    ensures x % p == x
  {
  }

  lemma {:induction false} ShrNothing(v: nat, n: nat)
    requires v < Pow2(n)
    ensures Shr(v, n) == 0
  {
    hide Pow2, Shr;
    LowPowers();
    ShrBelow(v, n, 0);
  }

  /** What is shifted out to nothing was small. */
  lemma ShrZero(v: nat, n: nat)
    requires Shr(v, n) == 0
    ensures v < Pow2(n)
  {
    hide Pow2, Shr;
    LowPowers();
    if v >= Pow2(n) {
      ShrAbove(v, n, 0);
    }
  }

  lemma ShrFits(v: nat, n: nat)
    requires Shr(v, n) <= 0xFF
    ensures v < Pow2(n + 8)
  {
    hide Pow2, Shr;
    LowPowers();
    if v >= Pow2(n + 8) {
      ShrAbove(v, n, 8);
    }
  }

  // ----- reading back ----------------------------------------------------------------------

  /** The value read so far agrees with `v` from bit `at` on, as far as `width` bits hold it
      once it is shifted up to its place. */
  ghost predicate Agrees(result: int, v: nat, at: nat, width: nat)
  {
    (result - Shr(v, at)) * Pow2(at) % Pow2(width) == 0
  }

  lemma Multiple(c: int, p: nat)
    requires p > 0
    ensures c * p % p == 0
  {
    var q, r := c * p / p, c * p % p;
    assert c * p == p * q + r;
    assert p * (c - q) == r;
    Scale(c - q, p);
    Scale(c - q - 1, p);
    assert p * (c - q - 1) == p * (c - q) - p;
  }

  /** Nothing of such a place is left. */
  lemma AgreesHigh(result: int, v: nat, at: nat, width: nat)
    requires at >= width
    ensures Agrees(result, v, at, width)
  {
    hide Pow2, Shr;
    PowAdds(at - width, width);
    var x := result - Shr(v, at);
    assert x * Pow2(at) == x * Pow2(at - width) * Pow2(width);
    Multiple(x * Pow2(at - width), Pow2(width));
  }

  lemma AgreesNone(v: nat, at: nat, width: nat)
    requires v < Pow2(at) || at >= width
    ensures Agrees(0, v, at, width)
  {
    hide Pow2, Shr;
    if at >= width {
      AgreesHigh(0, v, at, width);
    } else {
      ShrNothing(v, at);
      Multiple(0, Pow2(width));
    }
  }

  /** Seven bits more; those of a place past the width may be any. */
  lemma AgreesStep(result: nat, v: nat, at: nat, width: nat, digit: byte)
    requires Agrees(result, v, at + 7, width) && (at >= width || digit == Shr(v, at) % 0x80)
    ensures Agrees((result * 0x80 + digit) % Pow2(width), v, at, width)
  {
    hide Shr, Agrees, Pow2;
    var m := Pow2(width);
    var x := result * 0x80 + digit;
    if at >= width {
      AgreesHigh(x % m, v, at, width);
    } else {
      ShrSeven(v, at);
      var c := AgreesMultiple(result, v, at + 7, width);
      SevenMore(at);
      Carry(result, Shr(v, at + 7), digit, Pow2(at), m, c);
      AgreesIf(x % m, v, at, width, c - x / m * Pow2(at));
    }
  }

  lemma AgreesMultiple(result: int, v: nat, at: nat, width: nat) returns (c: int)
    requires Agrees(result, v, at, width)
    ensures (result - Shr(v, at)) * Pow2(at) == c * Pow2(width)
  {
    hide Pow2, Shr;
    c := (result - Shr(v, at)) * Pow2(at) / Pow2(width);
  }

  lemma AgreesIf(result: int, v: nat, at: nat, width: nat, c: int)
    requires (result - Shr(v, at)) * Pow2(at) == c * Pow2(width)
    ensures Agrees(result, v, at, width)
  {
    hide Pow2, Shr;
    Multiple(c, Pow2(width));
  }

  /** One digit more on both sides, and what overflows is a multiple too. */
  lemma Carry(result: int, high: int, digit: int, p: nat, m: nat, c: int)
    requires m > 0 && (result - high) * (0x80 * p) == c * m
    ensures var x := result * 0x80 + digit;
      (x % m - (high * 0x80 + digit)) * p == (c - x / m * p) * m
  {
    var x := result * 0x80 + digit;
    var q := x / m;
    assert x % m == x - q * m;
    assert x - (high * 0x80 + digit) == (result - high) * 0x80;
    Spread(result - high, q, m, p);
    Regroup(c, q, p, m);
  }

  lemma Spread(d: int, q: int, m: int, p: int)
    ensures (d * 0x80 - q * m) * p == d * (0x80 * p) - q * m * p
  {
  }

  lemma Regroup(c: int, q: int, p: int, m: int)
    ensures (c - q * p) * m == c * m - q * m * p
  {
  }

  lemma LeadingUnfold(v: nat, i: nat)
    requires i < 0x100
    ensures i == 0 || i == 183 ==> Leading(v, Bits(i)) == [] && End(Bits(i)) == Bits(i)
    ensures i != 0 && i != 183 ==>
      Leading(v, Bits(i)) == [0x80 + Shr(v, Bits(i)) % 0x80] + Leading(v, Bits(i - 1))
      && End(Bits(i)) == End(Bits(i - 1))
  {
    hide Shr, Bits, Down;
    BitsSteps(i);
  }

  lemma ReadOn(digit: byte, later: seq<byte>, width: nat, bytes: nat, result: nat)
    requires digit < 0x80 && bytes > 1
    ensures Read([0x80 + digit] + later, width, bytes, result)
      == Read(later, width, bytes - 1, (result * 0x80 + digit) % Pow2(width))
  {
    hide Pow2;
    var b: byte := 0x80 + digit;
    assert Drop([b] + later, 1) == later && U8([b] + later) == b && b % 0x80 == digit;
  }

  /** Where bit `at` is counted: from a multiple of 7, or one more. */
  lemma BitsAt(i: nat, e: nat)
    requires e <= 1 && i + 183 * e < 0x100
    ensures 7 * i + e < 0x100 ==> Bits(i + 183 * e) == 7 * i + e
  {
    if 7 * i + e < 0x100 {
      Remainder(7 * (i + 183 * e), 5 * e, 7 * i + e);
    }
  }

  /** `i` continuation bytes: the value read agrees with `v` down to the last seven or
      eight bits, if it did before. */
  lemma {:induction false} LeadingReads(v: nat, i: nat, e: nat, tail: seq<byte>, width: nat, bytes: nat, result: nat)
    returns (r: nat)
    requires e <= 1 && i + 183 * e < (if e == 0 then 183 else 0x100) && bytes > i
    requires width <= 0x80 || i <= 36
    ensures Read(Leading(v, Bits(i + 183 * e)) + tail, width, bytes, result) == Read(tail, width, bytes - i, r)
    ensures |Leading(v, Bits(i + 183 * e))| == i && End(Bits(i + 183 * e)) == e
    ensures Agrees(result, v, 7 * i + e + 7, width) ==> Agrees(r, v, e + 7, width)
    decreases i
  {
    hide Pow2, Shr, Read, Bits, Agrees, Leading, End;
    LeadingUnfold(v, i + 183 * e);
    BitsSteps(183 * e);
    if i == 0 {
      assert [] + tail == tail;
      r := result;
    } else {
      var at := Bits(i + 183 * e);
      var digit: byte := Shr(v, at) % 0x80;
      var later := Leading(v, Bits(i - 1 + 183 * e));
      assert Leading(v, at) + tail == [0x80 + digit] + (later + tail);
      ReadOn(digit, later + tail, width, bytes, result);
      var next := (result * 0x80 + digit) % Pow2(width);
      BitsAt(i, e);
      if Agrees(result, v, 7 * i + e + 7, width) {
        AgreesStep(result, v, 7 * i + e, width, digit);
      }
      assert 7 * (i - 1) + e + 7 == 7 * i + e;
      r := LeadingReads(v, i - 1, e, tail, width, bytes - 1, next);
    }
  }

  /** The last bits complete it. */
  lemma AgreesLast(result: nat, v: nat, n: nat, width: nat)
    requires n == 7 || n == 8
    requires Agrees(result, v, n, width) && v < Pow2(width)
    ensures (result * Pow2(n) + v % Pow2(n)) % Pow2(width) == v
  {
    hide Pow2, Shr, Agrees;
    LowPowers();
    var c := AgreesMultiple(result, v, n, width);
    ShrSeven(v, n - 7);
    ShrOne(v);
    assert v == Shr(v, n) * Pow2(n) + v % Pow2(n) by {
      if n == 8 {
        assert v / 2 / 0x80 == v / 0x100;
      }
    }
    Whole(result, Shr(v, n), Pow2(n), v % Pow2(n), c, Pow2(width));
  }

  lemma Whole(result: int, high: int, p: int, low: int, c: int, m: nat)
    requires (result - high) * p == c * m && 0 <= high * p + low < m
    ensures (result * p + low) % m == high * p + low
  {
    var v := high * p + low;
    assert result * p + low == c * m + v;
    Turns(c, v, m);
  }

  lemma Turns(c: int, v: int, m: nat)
    requires 0 <= v < m
    ensures (c * m + v) % m == v
  {
    var x := c * m + v;
    var d := x / m - c;
    assert x == m * (x / m) + x % m;
    assert m * d == v - x % m;
    Scale(d, m);
    Scale(d - 1, m);
    assert m * (d - 1) == m * d - m;
  }

  lemma ShrOne(v: nat)
    ensures Shr(v, 1) == v / 2 && Shr(v, 0) == v
  {
  }

  lemma ReadEnd(b: byte, rest: seq<byte>, width: nat, bytes: nat, result: nat)
    requires bytes > 0
    ensures bytes == 1 ==> Read([b] + rest, width, bytes, result) == ((result * 0x100 + b) % Pow2(width), rest)
    ensures bytes > 1 && b < 0x80 ==> Read([b] + rest, width, bytes, result) == ((result * 0x80 + b) % Pow2(width), rest)
  {
    hide Pow2;
    assert Drop([b] + rest, 1) == rest;
  }

  /** Down to 0, before the bytes run out. */
  lemma SevenReads(v: nat, i: nat, width: nat, bytes: nat, rest: seq<byte>)
    requires i < 183 && i + 1 < bytes && v < Pow2(width) && (width <= 0x80 || i <= 36)
    requires v < Pow2(7 * i + 7) || 7 * i + 7 >= width
    ensures Read(Out(v, Bits(i)) + rest, width, bytes, 0) == (v, rest)
    ensures |Out(v, Bits(i))| == i + 1
  {
    hide Pow2, Shr, Read, Bits, Agrees, Leading, End;
    var last := [v % 0x80];
    AgreesNone(v, 7 * i + 7, width);
    var r := LeadingReads(v, i, 0, last + rest, width, bytes, 0);
    Associative(Leading(v, Bits(i)), last, rest);
    LowPowers();
    AgreesLast(r, v, 7, width);
    ReadEnd(v % 0x80, rest, width, bytes - i, r);
  }

  /** Down to 1, with the last byte there is. */
  lemma EightReads(v: nat, k: nat, width: nat, rest: seq<byte>)
    requires k <= 72 && v < Pow2(width) && (width <= 0x80 || k <= 36)
    requires v < Pow2(7 * k + 8) || 7 * k + 8 >= width
    ensures Read(Out(v, Bits(k + 183)) + rest, width, k + 1, 0) == (v, rest)
    ensures |Out(v, Bits(k + 183))| == k + 1
  {
    hide Pow2, Shr, Read, Bits, Agrees, Leading, End;
    var last := [v % 0x100];
    AgreesNone(v, 7 * k + 8, width);
    var r := LeadingReads(v, k, 1, last + rest, width, k + 1, 0);
    Associative(Leading(v, Bits(k + 183)), last, rest);
    LowPowers();
    AgreesLast(r, v, 8, width);
    ReadEnd(v % 0x100, rest, width, 1, r);
  }

  // ----- a value that fits ------------------------------------------------------------------

  lemma {:induction false} TopAt(v: nat, i: nat) returns (top: nat)
    requires i < 0x100
    ensures top <= i && Top(v, Bits(i)) == Bits(top) && (top == 0 || Shr(v, Bits(top)) != 0)
    ensures forall j :: top < j <= i ==> Shr(v, Bits(j)) == 0
    decreases i
  {
    hide Shr, Bits, Down;
    BitsSteps(i);
    if i == 0 || Shr(v, Bits(i)) != 0 {
      top := i;
    } else {
      top := TopAt(v, i - 1);
    }
  }

  lemma {:induction false} TopOfNothing(bits: byte)
    ensures Top(0, bits) == 0
    decreases Index(bits)
  {
    hide Shr, Down;
    ShrNone(0);
    ShrLess(0, bits);
    if bits != 0 {
      DownNearer(bits);
      TopOfNothing(Down(bits));
    }
  }

  lemma BitsLow(i: nat)
    requires i <= 36
    ensures Bits(i) == 7 * i
  {
  }

  /** Nothing for the first byte: what there is comes back from where it begins. */
  lemma NoFrontReads(v: nat, width: nat, bytes: byte, rest: seq<byte>)
    requires 1 < bytes <= 183 && v < Pow2(width) && Front(v, width, bytes) == 0 && (width <= 0x80 || bytes <= 37)
    ensures Read(Written(v, width, bytes) + rest, width, bytes, 0) == (v, rest)
    ensures |Written(v, width, bytes)| <= bytes
  {
    hide Pow2, Shr, Read, Bits, Top, Out;
    var k := bytes - 1;
    BitsSteps(k);
    var i := TopAt(v, k - 1);
    if i + 1 <= 36 {
      BitsLow(i + 1);
      if i + 1 == k && Bits(k) > width {
        PowGrows(width, 7 * k);
      } else {
        ShrZero(v, 7 * (i + 1));
      }
    }
    SevenReads(v, i, width, bytes, rest);
  }

  /** Eight bits at most for the first byte. */
  lemma FrontReads(v: nat, width: nat, bytes: byte, rest: seq<byte>)
    requires 0 < bytes <= 183 && v < Pow2(width) && 0 < Front(v, width, bytes) <= 0xFF
    requires bytes <= 37 || (width <= 0x80 && Bits(bytes - 1) + 8 >= width)
    ensures Read(Written(v, width, bytes) + rest, width, bytes, 0) == (v, rest)
    ensures |Written(v, width, bytes)| <= bytes
  {
    hide Pow2, Shr, Read, Bits, Out;
    var k := bytes - 1;
    ShrFits(v, Bits(k));
    BitsUp(k);
    if k <= 72 {
      if k <= 36 {
        BitsLow(k);
      }
      EightReads(v, k, width, rest);
    } else {
      FewLeft(k);
      SevenReads(v, k - 73, width, bytes, rest);
    }
  }

  lemma FewLeft(k: nat)
    requires 73 <= k < 0x100 && Bits(k) <= 0x80
    ensures k - 73 <= 36 ==> 7 * (k - 73) + 7 == Bits(k) + 8
  {
    BitsUp(k);
    if k - 73 <= 36 {
      BitsLow(k - 73);
    }
  }

  lemma FittingReads(v: nat, width: nat, bytes: byte, rest: seq<byte>)
    requires 0 < bytes <= 183 && v < Pow2(width)
    requires if bytes <= 37 then v < Pow2(7 * bytes + 1) else width <= 0x80 && Bits(bytes - 1) + 8 >= width
    ensures Read(Written(v, width, bytes) + rest, width, bytes, 0) == (v, rest)
    ensures |Written(v, width, bytes)| <= bytes
  {
    hide Pow2, Shr, Read, Bits, Written;
    var front := Front(v, width, bytes);
    if front == 0 {
      if bytes > 1 {
        NoFrontReads(v, width, bytes, rest);
      } else {
        NothingInOne(v, width);
        OneByteReads(width, rest);
      }
    } else {
      FrontFits(v, width, bytes);
      FrontReads(v, width, bytes, rest);
    }
  }

  /** Without a byte before it, only 0 has nothing for the first one. */
  lemma NothingInOne(v: nat, width: nat)
    requires Front(v, width, 1) == 0
    ensures v == 0
  {
    ShrNone(v);
  }

  lemma OneByteReads(width: nat, rest: seq<byte>)
    ensures Read(Written(0, width, 1) + rest, width, 1, 0) == (0, rest) && |Written(0, width, 1)| == 1
  {
    hide Pow2, Shr, Read, Top;
    ShrNone(0);
    TopOfNothing(Down(Bits(0)));
    assert Out(0, 0) == [0];
    ReadEnd(0, rest, width, 1, 0);
    ZeroLeft(Pow2(width));
  }

  lemma ZeroLeft(m: nat)
    requires m > 0
    ensures 0 % m == 0
  {
  }

  lemma FrontFits(v: nat, width: nat, bytes: byte)
    requires 0 < bytes && v < Pow2(width)
    requires if bytes <= 37 then v < Pow2(7 * bytes + 1) else Bits(bytes - 1) + 8 >= width
    ensures Front(v, width, bytes) <= 0xFF
  {
    hide Pow2, Shr, Bits;
    LowPowers();
    var at: nat := Bits(bytes - 1);
    if bytes <= 37 {
      BitsLow(bytes - 1);
    } else {
      PowGrows(width, at + 8);
    }
    ShrBelow(v, at, 8);
  }

  // ----- saturation --------------------------------------------------------------------------

  lemma OnesDigit(width: nat, bits: nat)
    requires bits + 7 <= width
    ensures Shr(Pow2(width) - 1, bits) % 0x80 == 0x7F
  {
    hide Pow2, Shr;
    ShrOnes(width, bits);
    SevenMore(width - bits - 7);
  }

  /** All ones of any width have the same leading bytes. */
  lemma {:induction false} OnesLeading(width: nat, k: nat, i: nat)
    requires i <= 36 && 7 * i + 8 <= k <= width
    ensures Leading(Pow2(width) - 1, Bits(i + 183)) == Leading(Pow2(k) - 1, Bits(i + 183))
    ensures End(Bits(i + 183)) == 1
    decreases i
  {
    hide Pow2, Shr, Bits, Leading, End;
    LeadingUnfold(Pow2(width) - 1, i + 183);
    LeadingUnfold(Pow2(k) - 1, i + 183);
    BitsSteps(183);
    if i > 0 {
      BitsAt(i, 1);
      OnesDigit(width, 7 * i + 1);
      OnesDigit(k, 7 * i + 1);
      OnesLeading(width, k, i - 1);
    }
  }

  lemma OnesLast(width: nat)
    requires width >= 8
    ensures (Pow2(width) - 1) % 0x100 == 0xFF
  {
    hide Pow2;
    SevenMore(width - 8);
  }

  /** Too large a value is written as the greatest that fits would be. */
  lemma SaturatedIsOnes(v: nat, width: nat, bytes: byte)
    requires 0 < bytes <= 37 && Pow2(7 * bytes + 1) <= v < Pow2(width)
    ensures Written(v, width, bytes) == Out(Pow2(7 * bytes + 1) - 1, Bits(bytes - 1 + 183))
  {
    hide Pow2, Leading, Shr, End, Bits;
    var i: nat, k: nat := bytes - 1, 7 * bytes + 1;
    if width < k {
      PowGrows(width, k);
    }
    LowPowers();
    BitsLow(i);
    BitsUp(i);
    ShrAbove(v, 7 * i, 8);
    OnesLeading(width, k, i);
    OnesLast(width);
    OnesLast(k);
  }

  /** read7Bit inverts write7Bit up to 37 bytes: a value that fits comes back, and any
      larger one as the greatest that fits; exactly the bytes written are read, and there
      are at most `bytes`. */
  lemma VarintRoundTrip(v: nat, width: nat, bytes: byte, rest: seq<byte>)
    requires 0 < bytes <= 37 && v < Pow2(width)
    ensures Read(Written(v, width, bytes) + rest, width, bytes, 0)
      == (if v < Pow2(7 * bytes + 1) then v else Pow2(7 * bytes + 1) - 1, rest)
    ensures |Written(v, width, bytes)| <= bytes
  {
    hide Pow2, Out, Read, Written, Bits;
    if v < Pow2(7 * bytes + 1) {
      FittingReads(v, width, bytes, rest);
    } else {
      SaturatedIsOnes(v, width, bytes);
      PositivePow(7 * bytes + 1);
      EightReads(Pow2(7 * bytes + 1) - 1, bytes - 1, width, rest);
    }
  }

  lemma PositivePow(n: nat)
    ensures Pow2(n) > 0
  {
  }

  // ----- more than 37 bytes: the bit count wraps ---------------------------------------------

  /** Every value of the type is read back, and nothing behind it. */
  ghost predicate AllBack(width: nat, bytes: byte)
    requires bytes > 0
  {
    forall v: nat, rest: seq<byte> :: v < Pow2(width) ==> Read(Written(v, width, bytes) + rest, width, bytes, 0) == (v, rest)
  }

  /** Two values too large for the first byte are written alike. */
  lemma TwoAlike(width: nat, bytes: byte)
    requires bytes > 0 && width >= 2 && Bits(bytes - 1) + 8 < width
    ensures !AllBack(width, bytes)
  {
    hide Pow2, Shr, Read, Bits, Out;
    var a, b := TopTwo(width, Bits(bytes - 1));
    ShrAbove(a, Bits(bytes - 1), 8);
    ShrAbove(b, Bits(bytes - 1), 8);
    LowPowers();
    assert Written(a, width, bytes) == Written(b, width, bytes);
    var none: seq<byte> := [];
    var one := Read(Written(a, width, bytes) + none, width, bytes, 0);
    var other := Read(Written(b, width, bytes) + none, width, bytes, 0);
    assert one == other;
  }

  lemma TopTwo(width: nat, at: nat) returns (a: nat, b: nat)
    requires at + 8 < width
    ensures a < Pow2(width) && b < a && b >= Pow2(at + 8)
  {
    PowGrows(at + 8, width - 1);
    PositivePow(width - 1);
    PowGrows(1, width - 1);
    a, b := Pow2(width) - 1, Pow2(width) - 2;
  }

  lemma {:induction false} SmallShr(n: nat)
    requires n >= 8
    ensures Shr(0xFF, n) == 0
  {
    hide Pow2, Shr;
    LowPowers();
    PowGrows(8, n);
    ShrNothing(0xFF, n);
  }

  lemma {:induction false} ReadShortens(r: seq<byte>, width: nat, bytes: nat, result: nat)
    requires bytes > 0 && r != []
    ensures |Read(r, width, bytes, result).1| < |r|
    decreases bytes
  {
    hide Pow2;
    if bytes > 1 && U8(r) >= 0x80 && Drop(r, 1) != [] {
      ReadShortens(Drop(r, 1), width, bytes - 1, (result * 0x80 + U8(r) % 0x80) % Pow2(width));
    } else if bytes > 1 && U8(r) >= 0x80 {
      ReadNothing(width, bytes - 1, (result * 0x80 + U8(r) % 0x80) % Pow2(width));
    }
  }

  lemma ReadNothing(width: nat, bytes: nat, result: nat)
    requires bytes > 0
    ensures Read([], width, bytes, result).1 == []
  {
    hide Pow2;
  }

  /** From 185 bytes on, 0xFF is written with eight bits in its last byte, but with bytes to
      spare: the reader goes on behind it. */
  lemma ReadsBehind(width: nat, bytes: byte)
    requires bytes >= 185 && 8 <= width <= 0x80 && Bits(bytes - 1) >= 8
    ensures !AllBack(width, bytes)
  {
    hide Pow2, Shr, Read, Bits, Leading, End, Top, Agrees;
    var k := bytes - 1;
    var v: nat := 0xFF;
    SmallShr(Bits(k));
    BitsSteps(k);
    var top := TopAt(v, k - 1);
    BitsSteps(183);
    ShrOne(v);
    assert top >= 183;
    var rest: seq<byte> := [0];
    var last: seq<byte> := [0xFF];
    var r := LeadingReads(v, top - 183, 1, last + rest, width, bytes, 0);
    Associative(Leading(v, Bits(top)), last, rest);
    assert Written(v, width, bytes) == Leading(v, Bits(top)) + last;
    ReadOn(0x7F, rest, width, bytes - (top - 183), r);
    ReadShortens(rest, width, bytes - (top - 183) - 1, (r * 0x80 + 0x7F) % Pow2(width));
    LowPowers();
    PowGrows(8, width);
  }

  /** Exactly when every value comes back, however many bytes there may be. */
  lemma VarintExactly(width: nat, bytes: byte)
    requires bytes > 0 && 16 <= width <= 0x80
    ensures AllBack(width, bytes) <==> bytes <= 183 && Bits(bytes - 1) + 8 >= width
  {
    hide Pow2, Read, Written, Bits, AllBack;
    if bytes <= 183 && Bits(bytes - 1) + 8 >= width {
      AllFit(width, bytes);
    } else if Bits(bytes - 1) + 8 < width {
      TwoAlike(width, bytes);
    } else {
      Bits183();
      ReadsBehind(width, bytes);
    }
  }

  lemma Bits183()
    ensures Bits(183) == 1
  {
  }

  lemma AllFit(width: nat, bytes: byte)
    requires 0 < bytes <= 183 && width <= 0x80 && Bits(bytes - 1) + 8 >= width
    ensures AllBack(width, bytes)
  {
    hide Pow2, Read, Written, Bits;
    forall v: nat, rest: seq<byte> | v < Pow2(width)
      ensures Read(Written(v, width, bytes) + rest, width, bytes, 0) == (v, rest) {
      if bytes <= 37 {
        BitsLow(bytes - 1);
        PowGrows(width, 7 * bytes + 1);
      }
      FittingReads(v, width, bytes, rest);
    }
  }

  /** One that does not: 0xFFFF on 16 bits with 75 bytes, where 518 bits count as 6. */
  lemma Wraps75()
    ensures Written(0xFFFF, 16, 75) == [0xFF, 0x7F]
    ensures Read(Written(0xFFFF, 16, 75), 16, 75, 0) == (0x3FFF, [])
  {
    hide Pow2, Shr, Read, Leading, End;
    Powers();
    LowPowers();
    assert Bits(74) == 6 && Bits(1) == 7;
    ShrOnes(16, 6);
    ShrOnes(16, 7);
    ShrPowers();
    LeadingUnfold(0xFFFF, 1);
    LeadingUnfold(0xFFFF, 0);
    assert Leading(0xFFFF, 7) == [0xFF] && End(7) == 0;
    assert [0xFF] + [0x7F] == [0xFF, 0x7F] == [0x80 + 0x7F] + [0x7F];
    ReadOn(0x7F, [0x7F], 16, 75, 0);
    var none: seq<byte> := [];
    assert [0x7F] + none == [0x7F];
    ReadEnd(0x7F, none, 16, 74, 0x7F);
  }

  lemma ShrPowers()
    ensures Pow2(9) == 0x200 && Pow2(10) == 0x400
  {
    hide Pow2;
    LowPowers();
    PowAdds(8, 1);
    PowAdds(8, 2);
    Powers();
  }

  // ----- the loops ---------------------------------------------------------------------------------

  method Write7Bit(writer: BinaryWriter, v: nat, width: nat, bytes: byte)
    requires bytes > 0 && v < Pow2(width)
    modifies writer
    ensures writer.data == old(writer.data) + Written(v, width, bytes)
  {
    hide Pow2, Shr, Out, Top, Down;
    var value: nat, bits: byte := v, 7 * (bytes - 1) % 0x100;
    var front := if bits > width then 0 else Shr(value, bits);
    if front != 0 {
      bits := (bits + 1) % 0x100;
      if front > 0xFF {
        value := Pow2(width) - 1;
      }
    } else {
      bits := SkipNothing(v, Down(bits));
    }
    WriteBits(writer, value, bits);
  }

  /** Down to the first bits that are not all 0. */
  method SkipNothing(v: nat, from: byte) returns (bits: byte)
    ensures bits == Top(v, from)
  {
    hide Shr, Down, Index;
    bits := from;
    while bits != 0 && Shr(v, bits) == 0
      invariant Top(v, bits) == Top(v, from)
      decreases Index(bits)
    {
      DownNearer(bits);
      bits := Down(bits);
    }
  }

  /** The bytes from bit `from` down, eight bits in the last one if there is one too many. */
  method WriteBits(writer: BinaryWriter, value: nat, from: byte)
    modifies writer
    ensures writer.data == old(writer.data) + Out(value, from)
  {
    hide Shr;
    var bits := from;
    ghost var before, all := writer.data, Leading(value, bits);
    ghost var done: seq<byte> := [];
    assert before + done == before && done + all == all;
    while bits > 1
      invariant End(bits) == End(from)
      invariant writer.data == before + done && done + Leading(value, bits) == all
      decreases Index(bits)
    {
      DownNearer(bits);
      var b: byte := 0x80 + Shr(value, bits) % 0x80;
      Associative(done, [b], Leading(value, Down(bits)));
      Associative(before, done, [b]);
      writer.Write8(b);
      done, bits := done + [b], Down(bits);
    }
    assert done + [] == done;
    var last: byte := if bits != 0 then value % 0x100 else value % 0x80;
    Associative(before, done, [last]);
    writer.Write8(last);
  }

  method Read7Bit(data: seq<byte>, width: nat, bytes: nat) returns (value: nat, rest: seq<byte>)
    requires bytes > 0
    ensures (value, rest) == Read(data, width, bytes, 0)
  {
    hide Pow2;
    value, rest := 0, data;
    var left := bytes;
    var more := true;
    while more
      invariant more ==> left > 0 && Read(rest, width, left, value) == Read(data, width, bytes, 0)
      invariant !more ==> (value, rest) == Read(data, width, bytes, 0)
      decreases left + if more then 1 else 0
    {
      var b := U8(rest);
      left := left - 1;
      rest := Drop(rest, 1);
      if left == 0 {
        return (value * 0x100 + b) % Pow2(width), rest;
      }
      value := (value * 0x80 + b % 0x80) % Pow2(width);
      more := b >= 0x80;
    }
  }
}

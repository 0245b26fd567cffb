/** Buffer::Allocator::ComputeCapacity: the next power of two by smearing bits. */
module Capacity {
  import opened Bytes

  function Pow2(n: nat): (p: nat)
    ensures p > 0
  {
    if n == 0 then 1 else 2 * Pow2(n - 1)
  }

  /** Bitwise or. */
  function Or(a: nat, b: nat): nat
    decreases a + b
  {
    if a == 0 then b else if b == 0 then a else (if a % 2 == 1 || b % 2 == 1 then 1 else 0) + 2 * Or(a / 2, b / 2)
  }

  /** The bits of `x` copied downwards, 31 places in all. */
  function Smear(x: UInt32): nat
  {
    var x1 := Or(x, x / 0x2);
    var x2 := Or(x1, x1 / 0x4);
    var x3 := Or(x2, x2 / 0x10);
    var x4 := Or(x3, x3 / 0x100);
    Or(x4, x4 / 0x1_0000)
  }

  /** 16 bytes at least; past the greatest power of two, the size itself. */
  function ComputeCapacity(size: UInt32): nat
  {
    if size <= 16 then 16
    else
      var capacity := (Smear(size - 1) + 1) % U32;
      if capacity != 0 then capacity else size
  }

  lemma {:induction false} PowAdds(m: nat, n: nat)
    ensures Pow2(m + n) == Pow2(m) * Pow2(n)
    decreases n
  {
    if n > 0 {
      PowAdds(m, n - 1);
      assert Pow2(m + n) == 2 * (Pow2(m) * Pow2(n - 1)) == Pow2(m) * (2 * Pow2(n - 1));
    }
  }

  lemma {:induction false} PowGrows(m: nat, n: nat)
    requires m <= n
    ensures Pow2(m) <= Pow2(n)
    decreases n
  {
    if m < n {
      PowGrows(m, n - 1);
    }
  }

  lemma {:induction false} OrBounds(a: nat, b: nat, k: nat)
    requires a < Pow2(k) && b < Pow2(k)
    ensures a <= Or(a, b) < Pow2(k) && b <= Or(a, b)
    decreases k
  {
    if a > 0 && b > 0 {
      assert k > 0;
      OrBounds(a / 2, b / 2, k - 1);
    }
  }

  /** What lies above the bits of `b` stays. */
  lemma {:induction false} OrBlock(hi: nat, lo: nat, b: nat, m: nat)
    requires lo < Pow2(m) && b < Pow2(m)
    ensures Or(hi * Pow2(m) + lo, b) == hi * Pow2(m) + Or(lo, b)
    decreases m
  {
    var h := hi * Pow2(m);
    if m == 0 {
      assert lo == 0 && b == 0;
    } else if h == 0 || b == 0 {
      assert b == 0 ==> Or(lo, b) == lo;
    } else {
      var half := hi * Pow2(m - 1);
      assert h == 2 * half by {
        assert hi * (2 * Pow2(m - 1)) == 2 * (hi * Pow2(m - 1));
      }
      assert (h + lo) / 2 == half + lo / 2 && (h + lo) % 2 == lo % 2;
      OrBlock(hi, lo / 2, b / 2, m - 1);
      OrHalf(lo, b);
    }
  }

  lemma OrHalf(a: nat, b: nat)
    ensures Or(a, b) == (if a % 2 == 1 || b % 2 == 1 then 1 else 0) + 2 * Or(a / 2, b / 2)
  {
    if a == 0 {
      assert Or(0, b / 2) == b / 2;
    } else if b == 0 {
      assert Or(a / 2, 0) == a / 2;
    }
  }

  /** The top `n` of `length` bits are set. */
  predicate Ones(x: nat, length: nat, n: nat)
  {
    n <= length && Pow2(length) - Pow2(length - n) <= x < Pow2(length)
  }

  /** The bits of `x`, and those `n` to the right of them. */
  function Smeared(x: nat, n: nat): nat
  {
    DivNatural(x, Pow2(n));
    Or(x, x / Pow2(n))
  }

  lemma DivNatural(x: nat, d: nat)
    requires d > 0
    ensures x / d >= 0
  {
    var q := x / d;
    assert x == d * q + x % d;
    Scale(q, d);
  }

  /** The ones, `n` places lower. */
  lemma ShiftedTop(x: nat, length: nat, n: nat)
    requires Ones(x, length, n) && 0 < n
    ensures var m := length - n;
      Pow2(m) - (if m >= n then Pow2(m - n) else 1) <= x / Pow2(n) < Pow2(m)
  {
    hide Pow2;
    var m := length - n;
    var p, q := Pow2(n), Pow2(m);
    PowAdds(n, m);
    if m >= n {
      PowAdds(n, m - n);
      ShiftedHigh(x, p, q, Pow2(m - n));
    } else {
      PowGrows(m, n);
      ShiftedLow(x, p, q);
    }
  }

  /** What lies below the ones takes the other bits. */
  lemma OrOnes(x: nat, y: nat, p: nat, m: nat)
    requires p > 0 && p * Pow2(m) - Pow2(m) <= x < p * Pow2(m) && y < Pow2(m)
    ensures p * Pow2(m) - Pow2(m) + y <= Or(x, y) < p * Pow2(m)
  {
    hide Or, Pow2;
    var q := Pow2(m);
    TopPart(p, q);
    var lo := x - (p - 1) * q;
    OrBlock(p - 1, lo, y, m);
    OrBounds(lo, y, m);
  }

  /** Each step doubles the ones at the top. */
  lemma SmearStep(x: nat, length: nat, n: nat)
    requires Ones(x, length, n) && 0 < n
    ensures Ones(Smeared(x, n), length, Min(2 * n, length))
  {
    hide Or, Pow2;
    var m := length - n;
    PowAdds(n, m);
    PowZero();
    ShiftedTop(x, length, n);
    DivNatural(x, Pow2(n));
    OrOnes(x, x / Pow2(n), Pow2(n), m);
  }

  lemma TopPart(p: nat, q: nat)
    ensures (p - 1) * q == p * q - q
  {
  }

  lemma PowZero()
    ensures Pow2(0) == 1
  {
  }

  /** The same bits lower: still ones at the top. */
  lemma ShiftedHigh(x: nat, p: nat, q: nat, r: nat)
    requires p > 0 && q == p * r && p * q - q <= x < p * q
    ensures q - r <= x / p < q
  {
    assert p * (q - r) == p * q - p * r;
    DivBetween(x, p, q - r, q);
  }

  /** Or nothing but ones left. */
  lemma ShiftedLow(x: nat, p: nat, q: nat)
    requires 0 < q <= p && p * q - q <= x < p * q
    ensures x / p == q - 1
  {
    assert p * (q - 1) == p * q - p;
    DivBetween(x, p, q - 1, q);
  }

  lemma DivBetween(x: nat, p: nat, a: int, b: int)
    requires p > 0 && p * a <= x < p * b
    ensures a <= x / p < b
  {
    var d := x / p;
    assert x == p * d + x % p;
    assert p * (d - a) == p * d - p * a && p * (d - b) == p * d - p * b;
    Scale(d - a, p);
    Scale(d - b, p);
  }

  lemma Scale(d: int, p: int)
    requires p > 0
    ensures d >= 0 ==> p * d >= 0
    ensures d <= -1 ==> p * d <= -p
  {
  }

  lemma {:induction false} BitLength(x: nat, limit: nat) returns (length: nat)
    requires 0 < x < Pow2(limit)
    ensures 0 < length <= limit && Pow2(length - 1) <= x < Pow2(length)
    decreases limit
  {
    if x >= Pow2(limit - 1) {
      length := limit;
    } else {
      length := BitLength(x, limit - 1);
    }
  }

  lemma Powers()
    ensures Pow2(1) == 0x2 && Pow2(2) == 0x4 && Pow2(4) == 0x10 && Pow2(8) == 0x100 && Pow2(16) == 0x1_0000
    ensures Pow2(31) == 0x8000_0000 && Pow2(32) == U32
  {
    assert Pow2(4) == 0x10;
    PowAdds(4, 4);
    PowAdds(8, 8);
    PowAdds(16, 16);
  }

  /** Once all bits are set, a step changes nothing. */
  lemma NextStep(x: nat, length: nat, n: nat)
    requires n > 0 && Ones(x, length, Min(n, length))
    ensures Ones(Smeared(x, n), length, Min(2 * n, length))
  {
    if n <= length {
      SmearStep(x, length, n);
    } else {
      hide Pow2, Or;
      PowGrows(length, n);
      DivBetween(x, Pow2(n), 0, 1);
      OrNothing(x);
    }
  }

  lemma OrNothing(x: nat)
    ensures Or(x, 0) == x
  {
  }

  /** Every bit below the highest is set. */
  lemma SmearFills(x: UInt32, length: nat)
    requires 0 < length <= 32 && Pow2(length - 1) <= x < Pow2(length)
    ensures Smear(x) == Pow2(length) - 1
  {
    hide Or, Pow2;
    Powers();
    PowZero();
    PowAdds(1, length - 1);
    NextStep(x, length, 1);
    var x1 := Or(x, x / 0x2);
    NextStep(x1, length, 2);
    var x2 := Or(x1, x1 / 0x4);
    NextStep(x2, length, 4);
    var x3 := Or(x2, x2 / 0x10);
    NextStep(x3, length, 8);
    var x4 := Or(x3, x3 / 0x100);
    NextStep(x4, length, 16);
    assert Ones(Or(x4, x4 / 0x1_0000), length, length);
  }

  /** The least power of two that holds the size, from 16 to the greatest of 32 bits;
      past that, exactly the size. */
  lemma CapacityIsLeastPower(size: UInt32) returns (k: nat)
    ensures size <= 0x8000_0000 ==>
      4 <= k <= 31 && ComputeCapacity(size) == Pow2(k) && size <= Pow2(k) && (k > 4 ==> Pow2(k - 1) < size)
    ensures size > 0x8000_0000 ==> ComputeCapacity(size) == size
  {
    hide Smear;
    Powers();
    k := 4;
    if size > 16 {
      var length := BitLength(size - 1, 32);
      SmearFills(size - 1, length);
      k := length;
      if length < 32 {
        PowGrows(length, 31);
        if length < 4 {
          PowGrows(length, 4);
        }
      } else {
        assert Pow2(31) <= size - 1;
      }
    }
  }

  /** Room enough, whatever the size. */
  lemma CapacityHolds(size: UInt32)
    ensures size <= ComputeCapacity(size) < U32
  {
    hide Pow2, ComputeCapacity;
    Powers();
    var k := CapacityIsLeastPower(size);
    if size <= 0x8000_0000 {
      PowGrows(k, 31);
    }
  }
}

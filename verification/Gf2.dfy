/** 32-bit registers as polynomials over GF(2), the highest degree in the most
    significant bit. The operators have names so that proofs can treat them as
    unknowns with the few laws they need. */
module Gf2 {

  const POLYNOMIAL: bv32 := 0x04C11DB7

  function Xor(a: bv32, b: bv32): bv32
  {
    a ^ b
  }

  function Shl(a: bv32): bv32
  {
    a << 1
  }

  predicate Top(a: bv32)
  {
    a & 0x80000000 != 0
  }

  /** A byte in the eight highest degrees. */
  function Widen(b: bv8): bv32
  {
    b as bv32 << 24
  }

  /** One step of the division by x^32 + POLYNOMIAL. */
  function Step(r: bv32): bv32
  {
    if r & 0x80000000 != 0 then (r << 1) ^ POLYNOMIAL else r << 1
  }

  function Step8(r: bv32): bv32
  {
    Step(Step(Step(Step(Step(Step(Step(Step(r))))))))
  }

  function Steps(r: bv32, n: nat): bv32
    decreases n
  {
    if n == 0 then r else Steps(Step(r), n - 1)
  }

  function Shls(r: bv32, n: nat): bv32
    decreases n
  {
    if n == 0 then r else Shls(Shl(r), n - 1)
  }

  lemma ShlXor(x: bv32, y: bv32)
    ensures Shl(Xor(x, y)) == Xor(Shl(x), Shl(y))
  {
  }

  lemma TopXor(x: bv32, y: bv32)
    ensures Top(Xor(x, y)) == (Top(x) != Top(y))
  {
  }

  lemma XorLaws(x: bv32, y: bv32)
    ensures Xor(x, y) == Xor(y, x)
    ensures Xor(x, 0) == x
    ensures Xor(x, x) == 0
    ensures Xor(x, y) == 0 ==> x == y
  {
  }

  lemma StepCases(r: bv32)
    ensures Step(r) == if Top(r) then Xor(Shl(r), POLYNOMIAL) else Shl(r)
  {
  }

  lemma XorRight(a: bv32, b: bv32, p: bv32)
    ensures Xor(a, Xor(b, p)) == Xor(Xor(a, b), p)
  {
  }

  lemma XorLeft(a: bv32, b: bv32, p: bv32)
    ensures Xor(Xor(a, p), b) == Xor(Xor(a, b), p)
  {
    hide Xor;
    XorLaws(Xor(a, p), b);
    XorRight(b, a, p);
    XorLaws(a, b);
  }

  lemma XorCommon(a: bv32, b: bv32, p: bv32)
    ensures Xor(Xor(a, p), Xor(b, p)) == Xor(a, b)
  {
    hide Xor;
    XorRight(Xor(a, p), b, p);
    XorLeft(a, b, p);
    XorRight(Xor(a, b), p, p);
    XorLaws(p, p);
    XorLaws(Xor(a, b), p);
  }

  lemma StepXor(x: bv32, y: bv32)
    ensures Step(Xor(x, y)) == Xor(Step(x), Step(y))
  {
    hide Step, Xor, Shl, Top;
    StepCases(x);
    StepCases(y);
    StepCases(Xor(x, y));
    ShlXor(x, y);
    TopXor(x, y);
    XorCommon(Shl(x), Shl(y), POLYNOMIAL);
    XorRight(Shl(x), Shl(y), POLYNOMIAL);
    XorLeft(Shl(x), Shl(y), POLYNOMIAL);
  }

  lemma {:induction false} StepsXor(x: bv32, y: bv32, n: nat)
    ensures Steps(Xor(x, y), n) == Xor(Steps(x, n), Steps(y, n))
    decreases n
  {
    hide Step, Xor;
    if n > 0 {
      StepXor(x, y);
      StepsXor(Step(x), Step(y), n - 1);
    }
  }

  lemma StepsEight(r: bv32)
    ensures Steps(r, 8) == Step8(r)
  {
    hide Step;
    var r1 := Step(r);
    var r2 := Step(r1);
    var r3 := Step(r2);
    var r4 := Step(r3);
    var r5 := Step(r4);
    var r6 := Step(r5);
    var r7 := Step(r6);
    assert Steps(r7, 1) == Step(r7);
    assert Steps(r6, 2) == Step(r7);
    assert Steps(r5, 3) == Step(r7);
    assert Steps(r4, 4) == Step(r7);
    assert Steps(r3, 5) == Step(r7);
    assert Steps(r2, 6) == Step(r7);
    assert Steps(r1, 7) == Step(r7);
  }

  lemma ShlEight(x: bv32)
    ensures x << 1 << 1 << 1 << 1 << 1 << 1 << 1 << 1 == x << 8
  {
  }

  lemma ShlsEight(x: bv32)
    ensures Shls(x, 8) == x << 8
  {
    hide Shls;
    ShlEight(x);
    ShlsUnrolled(x);
  }

  lemma ShlsUnrolled(x: bv32)
    ensures Shls(x, 8) == Shl(Shl(Shl(Shl(Shl(Shl(Shl(Shl(x))))))))
  {
    hide Shl;
    var x1 := Shl(x);
    var x2 := Shl(x1);
    var x3 := Shl(x2);
    var x4 := Shl(x3);
    var x5 := Shl(x4);
    var x6 := Shl(x5);
    var x7 := Shl(x6);
    assert Shls(x7, 1) == Shl(x7);
    assert Shls(x6, 2) == Shl(x7);
    assert Shls(x5, 3) == Shl(x7);
    assert Shls(x4, 4) == Shl(x7);
    assert Shls(x3, 5) == Shl(x7);
    assert Shls(x2, 6) == Shl(x7);
    assert Shls(x1, 7) == Shl(x7);
  }

  lemma {:induction false} ShlsSplit(x: bv32, m: nat, n: nat)
    ensures Shls(x, m + n) == Shls(Shls(x, m), n)
    decreases m
  {
    hide Shl;
    if m > 0 {
      ShlsSplit(Shl(x), m - 1, n);
    }
  }

  lemma ShiftedOut(x: bv32)
    ensures x << 8 << 8 << 8 << 8 == 0
  {
  }

  lemma ShlsOut(x: bv32)
    ensures Shls(x, 32) == 0
  {
    hide Shls;
    ShlsSplit(x, 8, 24);
    ShlsSplit(x << 8, 8, 16);
    ShlsSplit(x << 8 << 8, 8, 8);
    ShlsEight(x);
    ShlsEight(x << 8);
    ShlsEight(x << 8 << 8);
    ShlsEight(x << 8 << 8 << 8);
    ShiftedOut(x);
  }

  /** The bits below degree 24 pass through eight steps unreduced. */
  predicate Low(x: bv32, n: nat)
    decreases n
  {
    n == 0 || (!Top(x) && Low(Shl(x), n - 1))
  }

  lemma {:induction false} StepsLow(x: bv32, n: nat)
    requires Low(x, n)
    ensures Steps(x, n) == Shls(x, n)
    decreases n
  {
    hide Step, Shl, Top;
    if n > 0 {
      StepCases(x);
      StepsLow(Shl(x), n - 1);
    }
  }

  lemma LowTops(x: bv32)
    requires x & 0xFF000000 == 0
    ensures !Top(x) && !Top(Shl(x)) && !Top(Shl(Shl(x))) && !Top(Shl(Shl(Shl(x))))
    ensures !Top(Shl(Shl(Shl(Shl(x))))) && !Top(Shl(Shl(Shl(Shl(Shl(x))))))
    ensures !Top(Shl(Shl(Shl(Shl(Shl(Shl(x)))))))
    ensures !Top(Shl(Shl(Shl(Shl(Shl(Shl(Shl(x))))))))
  {
  }

  lemma Low8(x: bv32)
    requires x & 0xFF000000 == 0
    ensures Low(x, 8)
  {
    LowTops(x);
    hide Shl, Top;
    var x1 := Shl(x);
    var x2 := Shl(x1);
    var x3 := Shl(x2);
    var x4 := Shl(x3);
    var x5 := Shl(x4);
    var x6 := Shl(x5);
    var x7 := Shl(x6);
    assert Low(x7, 1);
    assert Low(x6, 2);
    assert Low(x5, 3);
    assert Low(x4, 4);
    assert Low(x3, 5);
    assert Low(x2, 6);
    assert Low(x1, 7);
  }

  lemma Step8Low(x: bv32)
    requires x & 0xFF000000 == 0
    ensures Step8(x) == x << 8
  {
    hide Step8, Steps, Shls, Low;
    Low8(x);
    StepsLow(x, 8);
    StepsEight(x);
    ShlsEight(x);
  }
}

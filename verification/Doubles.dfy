/** Numbers rounded to the 53 significant bits of a double, ties to even. */
module Doubles {

  const TWO52 := 0x10_0000_0000_0000
  const TWO53 := 0x20_0000_0000_0000

  function Abs(n: int): nat
  {
    if n < 0 then -n else n
  }

  /** The whole number nearest n / d; of two as near, the even one. */
  function Nearest(n: int, d: nat): int
    requires d > 0
  {
    var q, r := n / d, n % d;
    if 2 * r < d || (2 * r == d && q % 2 == 0) then q else q + 1
  }

  /** The value num / den. */
  datatype Double = Double(num: int, den: nat)

  /** n / d rounded: brought to 53 bits before the point, then to the nearest whole number. */
  function Rounded(n: int, d: nat): (x: Double)
    requires d > 0
    ensures x.den > 0
    decreases if Abs(n) >= TWO53 * d then Abs(n) - TWO53 * d + 1 else 0,
              if Abs(n) < TWO52 * d then TWO52 * d - Abs(n) else 0
  {
    if n == 0 then Double(0, 1)
    else if Abs(n) < TWO52 * d then
      var x := Rounded(2 * n, d);
      Double(x.num, 2 * x.den)
    else if Abs(n) >= TWO53 * d then
      var x := Rounded(n, 2 * d);
      Double(2 * x.num, x.den)
    else Double(Nearest(n, d), 1)
  }

  function Floor(x: Double): int
    requires x.den > 0
  {
    x.num / x.den
  }

  // ----- rounding and whole numbers ---------------------------------------------------

  lemma Scaled(a: int, b: int, k: nat)
    requires k > 0
    ensures a < b ==> a * k + k <= b * k
    ensures a <= b <==> a * k <= b * k
  {
    Product(b - a - 1, k);
    Product(a - b - 1, k);
  }

  lemma Product(c: int, k: nat)
    requires k > 0
    ensures c >= 0 ==> c * k >= 0
  {
  }

  lemma NearestBounds(n: int, d: nat, a: int)
    requires d > 0
    ensures a * d <= n ==> a <= Nearest(n, d)
    ensures n <= a * d ==> Nearest(n, d) <= a
    ensures n < a * d && 2 * (a * d - n) > d ==> Nearest(n, d) < a
  {
    var q, r := n / d, n % d;
    assert n == q * d + r;
    if a * d <= n && q < a {
      Scaled(q, a, d);
      assert false;
    }
    if n <= a * d {
      Scaled(q, a, d);
      Scaled(a, q, d);
      if q == a {
        assert r == 0;
      } else {
        Scaled(q + 1, a, d);
        if q + 1 == a && 2 * (a * d - n) > d {
          assert a * d == q * d + d;
        }
      }
    }
  }

  lemma RoundedUnfold(n: int, d: nat)
    requires d > 0 && Abs(n) < TWO53 * d
    ensures n == 0 ==> Rounded(n, d) == Double(0, 1)
    ensures n != 0 && Abs(n) < TWO52 * d ==>
      Rounded(n, d) == Double(Rounded(2 * n, d).num, 2 * Rounded(2 * n, d).den)
    ensures Abs(n) >= TWO52 * d ==> Rounded(n, d) == Double(Nearest(n, d), 1)
  {
    hide Nearest;
  }

  lemma Doubled(a: int, b: int)
    ensures 2 * a * b == 2 * (a * b) == a * (2 * b)
  {
  }

  /** A quotient too small to be halved is rounded to the same side of every whole number. */
  lemma {:induction false} RoundedBounds(n: int, d: nat, a: int)
    requires d > 0 && Abs(n) < TWO53 * d
    ensures var x := Rounded(n, d);
      && (a * d <= n ==> a * x.den <= x.num)
      && (n <= a * d ==> x.num <= a * x.den)
    decreases if Abs(n) < TWO52 * d then TWO52 * d - Abs(n) else 0
  {
    hide Rounded, Nearest;
    RoundedUnfold(n, d);
    if n == 0 {
      Scaled(a, 0, d);
      Scaled(0, a, d);
    } else if Abs(n) < TWO52 * d {
      RoundedBounds(2 * n, d, 2 * a);
      Doubled(a, d);
      Doubled(a, Rounded(2 * n, d).den);
    } else {
      NearestBounds(n, d, a);
    }
  }

  /** It stays below a whole number that is further away than 53 bits can tell. */
  lemma {:induction false} RoundedBelow(n: int, d: nat, a: int)
    requires d > 0 && Abs(n) < TWO53 * d
    requires n < a * d && TWO53 * (a * d - n) > Abs(n)
    ensures Rounded(n, d).num < a * Rounded(n, d).den
    decreases if Abs(n) < TWO52 * d then TWO52 * d - Abs(n) else 0
  {
    hide Rounded, Nearest;
    RoundedUnfold(n, d);
    if n == 0 {
      Scaled(a, 0, d);
    } else if Abs(n) < TWO52 * d {
      Doubled(a, d);
      RoundedBelow(2 * n, d, 2 * a);
      Doubled(a, Rounded(2 * n, d).den);
    } else {
      NearestBounds(n, d, a);
    }
  }

  // ----- whole numbers of more than 53 bits ---------------------------------------------

  /** How far apart doubles are next to a whole number, at least `d`. */
  function Spacing(a: nat, d: nat): (step: nat)
    requires d > 0
    ensures step >= d && a < TWO53 * step
    decreases if a >= TWO53 * d then a - TWO53 * d + 1 else 0
  {
    if a < TWO53 * d then d else Spacing(a, 2 * d)
  }

  /** Such a number goes to the nearest multiple of the spacing. */
  lemma {:induction false} RoundedWhole(n: int, d: nat)
    requires d > 0 && Abs(n) >= TWO52 * d
    ensures var x, step := Rounded(n, d), Spacing(Abs(n), d);
      d * x.num == Nearest(n, step) * step * x.den
    decreases if Abs(n) >= TWO53 * d then Abs(n) - TWO53 * d + 1 else 0
  {
    hide Nearest;
    if Abs(n) >= TWO53 * d {
      RoundedWhole(n, 2 * d);
      var x := Rounded(n, 2 * d);
      assert 2 * d * x.num == d * (2 * x.num);
      assert Rounded(n, d) == Double(2 * x.num, x.den);
      assert Spacing(Abs(n), d) == Spacing(Abs(n), 2 * d);
    } else {
      assert Spacing(Abs(n), d) == d && Rounded(n, d) == Double(Nearest(n, d), 1);
      Commutes(d, Nearest(n, d));
    }
  }

  lemma Commutes(a: int, b: int)
    ensures a * b == b * a * 1
  {
  }

  /** A whole number as a double. */
  function Whole(n: int): int
  {
    Floor(Rounded(n, 1))
  }

  lemma WholeIs(n: int)
    ensures var x, step := Rounded(n, 1), Spacing(Abs(n), 1);
      x.num == Whole(n) * x.den && Whole(n) == Nearest(n, step) * step
  {
    hide Rounded, Nearest, Spacing;
    var x, step := Rounded(n, 1), Spacing(Abs(n), 1);
    if Abs(n) >= TWO52 {
      RoundedWhole(n, 1);
      Divides(Nearest(n, step) * step, x.num, x.den);
    } else {
      RoundedBounds(n, 1, n);
      SpacingOne(n);
      NearestBounds(n, 1, n);
      Divides(n, x.num, x.den);
    }
  }

  lemma SpacingOne(n: int)
    requires Abs(n) < TWO53
    ensures Spacing(Abs(n), 1) == 1
  {
  }

  lemma Divides(q: int, n: int, d: nat)
    requires d > 0 && n == q * d
    ensures n / d == q
  {
    var p := n / d;
    assert n == p * d + n % d;
    Scaled(p, q, d);
    Scaled(q, p, d);
  }

  const STEPS := {1, 2, 4, 8, 16, 32, 64, 128, 256, 512, 1024, 2048}

  /** The spacings that 64-bit numbers have. */
  lemma {:induction false} SpacingIn(a: nat, d: nat)
    requires a <= 0x8000_0000_0000_0000 && d in STEPS && (d > 1 ==> a >= TWO52 * d)
    ensures Spacing(a, d) in STEPS
    ensures Spacing(a, d) > 1 ==> a >= TWO52 * Spacing(a, d)
    decreases if a >= TWO53 * d then a - TWO53 * d + 1 else 0
  {
    if a >= TWO53 * d {
      assert d <= 1024;
      SpacingIn(a, 2 * d);
    }
  }
}

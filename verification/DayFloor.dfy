/** The day number of an instant, as Date takes it: a quotient of doubles, floored. */
module DayFloor {
  import opened Calendar
  import opened Doubles

  /** floor(time / 86400000.0): the time becomes a double, then the quotient does. */
  function DayOf(time: Int64): int
  {
    Floor(Rounded(Whole(time), DAY))
  }

  /** How many milliseconds are left of the day. */
  function Left(time: int): int
  {
    DAY - time % DAY
  }

  /** So close before midnight that the double nearest the time is midnight itself. */
  predicate Late(time: int)
  {
    var step := Spacing(Abs(time), 1);
    2 * Left(time) < step || (2 * Left(time) == step && (time + Left(time)) / step % 2 == 0)
  }

  lemma NeverLate(time: Int64)
    requires Abs(time) <= TWO53
    ensures !Late(time)
  {
  }

  lemma MidnightAfter(time: int)
    ensures time + Left(time) == (time / DAY + 1) * DAY && 0 < Left(time) <= DAY
  {
  }

  /** Midnights need no more than 53 bits. */
  lemma MidnightWhole(day: int, step: nat)
    requires step in STEPS && step <= 1024
    ensures day * DAY == day * DAY / step * step
  {
    assert day * DAY == day * 84375 * 1024;
    var many := 1024 / step;
    assert many * step == 1024;
    Regroup(day * 84375, many, step);
    Divides(day * 84375 * many, day * DAY, step);
  }

  lemma Regroup(a: int, b: int, c: int)
    ensures a * (b * c) == a * b * c
  {
  }

  lemma NearestMidnight(n: int, step: nat, k: int, left: int)
    requires step > 0 && left > 0 && n + left == k * step
    ensures Nearest(n, step) == k <==> 2 * left < step || (2 * left == step && k % 2 == 0)
    ensures Nearest(n, step) <= k
  {
    assert (k - 1) * step == k * step - step;
    if left <= step {
      Between(n, step, k - 1);
      assert n == n / step * step + n % step;
    } else {
      NearestBounds(n, step, k - 1);
    }
  }

  /** The time as a double: never past the next midnight, and there exactly when late. */
  lemma WholeTime(time: Int64)
    requires Spacing(Abs(time), 1) <= 1024
    ensures time / DAY * DAY <= Whole(time) <= time / DAY * DAY + DAY
    ensures Whole(time) == time / DAY * DAY + DAY <==> Late(time)
  {
    hide Whole, Nearest;
    var step := Spacing(Abs(time), 1);
    WholeIs(time);
    SpacingIn(Abs(time), 1);
    hide Spacing;
    var day := time / DAY;
    MidnightAfter(time);
    MidnightWhole(day, step);
    MidnightWhole(day + 1, step);
    var before, after := day * DAY / step, (day + 1) * DAY / step;
    NearestMidnight(time, step, after, Left(time));
    NearestBounds(time, step, before);
    Scaled(before, Nearest(time, step), step);
    Scaled(Nearest(time, step), after, step);
    Scaled(after, Nearest(time, step), step);
  }

  /** No midnight is one step from a power of two: it has a factor 5. */
  lemma OffMidnight(day: int, step: nat)
    requires step in STEPS
    ensures day * DAY != (TWO53 + 1) * step && day * DAY != (1 - TWO53) * step
  {
    assert day * DAY % 5 == 0;
  }

  /** Short of midnight, the double is further from it than 53 bits of the quotient hide. */
  lemma WideGap(time: Int64)
    requires Spacing(Abs(time), 1) <= 1024 && !Late(time)
    ensures TWO53 * (time / DAY * DAY + DAY - Whole(time)) > Abs(Whole(time))
  {
    hide Whole, Nearest, Late;
    var step := Spacing(Abs(time), 1);
    WholeTime(time);
    WholeIs(time);
    SpacingIn(Abs(time), 1);
    hide Spacing;
    var n, day := Nearest(time, step), time / DAY + 1;
    MidnightWhole(day, step);
    NearestBounds(time, step, TWO53);
    NearestBounds(time, step, -TWO53);
    OffMidnight(day, step);
    Gap(n, day * DAY / step, step);
  }

  lemma Gap(n: int, m: int, step: nat)
    requires step > 0 && n * step < m * step && -TWO53 <= n <= TWO53
    requires m * step != (TWO53 + 1) * step && m * step != (1 - TWO53) * step
    ensures TWO53 * (m * step - n * step) > Abs(n * step)
  {
    Scaled(m, n, step);
    Scaled(n, m, step);
    Scaled(n, TWO53, step);
    Scaled(-TWO53, n, step);
    if m > n + 1 {
      Scaled(n + 1, m, step);
    }
  }

  /** The only 64-bit number that wide apart is the least, a power of two. */
  lemma Lowest(time: Int64)
    requires Spacing(Abs(time), 1) > 1024
    ensures time == -0x8000_0000_0000_0000 && Whole(time) == time && !Late(time)
  {
    hide Whole, Nearest;
    SpacingIn(Abs(time), 1);
    WholeIs(time);
    hide Spacing;
    NearestBounds(time, 2048, -TWO52);
  }

  /** The quotient reaches the next whole number only from midnight. */
  lemma QuotientDay(n: int, day: int)
    requires day * DAY <= n <= day * DAY + DAY && Abs(n) < TWO53 * DAY
    requires n == day * DAY + DAY || TWO53 * (day * DAY + DAY - n) > Abs(n)
    ensures Floor(Rounded(n, DAY)) == day + if n == day * DAY + DAY then 1 else 0
  {
    hide Rounded;
    var x := Rounded(n, DAY);
    RoundedBounds(n, DAY, day);
    RoundedBounds(n, DAY, day + 1);
    if n == day * DAY + DAY {
      Divides(day + 1, x.num, x.den);
    } else {
      RoundedBelow(n, DAY, day + 1);
      Between(x.num, x.den, day);
    }
  }

  lemma Between(n: int, d: nat, q: int)
    requires d > 0 && q * d <= n < (q + 1) * d
    ensures n / d == q
  {
    var p := n / d;
    assert n == p * d + n % d;
    Scaled(p + 1, q, d);
    Scaled(q + 1, p, d);
    Scaled(p, q, d);
  }

  /** The day is one too many exactly when late. */
  lemma DayOfIs(time: Int64)
    ensures DayOf(time) == time / DAY + if Late(time) then 1 else 0
  {
    hide Whole, Rounded, Spacing, Late, Floor;
    if Spacing(Abs(time), 1) <= 1024 {
      WholeTime(time);
      if !Late(time) {
        WideGap(time);
      }
    } else {
      Lowest(time);
    }
    QuotientDay(Whole(time), time / DAY);
  }

  /** Two late times, one on either side of 1970. */
  lemma LateDays()
    ensures Late(9007199308799999) && DayOf(9007199308799999) == 9007199308799999 / DAY + 1
    ensures Late(-11596411699200001) && DayOf(-11596411699200001) == -11596411699200001 / DAY + 1
  {
    hide Whole, Rounded, Floor;
    DayOfIs(9007199308799999);
    DayOfIs(-11596411699200001);
  }
}

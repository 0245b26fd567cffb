/** The proleptic Gregorian calendar, and Date's arithmetic on it: both ways
    between a count of milliseconds since 1970 and a calendar date. */
module Calendar {

  type Int32 = x: int | -0x8000_0000 <= x < 0x8000_0000
  type Int64 = x: int | -0x8000_0000_0000_0000 <= x < 0x8000_0000_0000_0000

  const DAY := 86400000

  // ----- the calendar itself ---------------------------------------------------------

  predicate IsLeapYear(year: int)
  {
    year % 400 == 0 || (year % 4 == 0 && year % 100 != 0)
  }

  function YearLength(year: int): int
  {
    if IsLeapYear(year) then 366 else 365
  }

  function MonthLength(year: int, month: int): int
    requires 1 <= month <= 12
  {
    if month == 2 then (if IsLeapYear(year) then 29 else 28)
    else if month in {4, 6, 9, 11} then 30
    else 31
  }

  /** The number of the first day of a year, 1 January 1970 being day 0. */
  function YearStart(year: int): int
    decreases if year < 1970 then 1970 - year else year - 1970
  {
    if year == 1970 then 0
    else if year > 1970 then YearStart(year - 1) + YearLength(year - 1)
    else YearStart(year + 1) - YearLength(year)
  }

  /** Days of the year before a month. */
  function MonthStart(year: int, month: int): int
    requires 1 <= month <= 13
  {
    if month == 1 then 0 else MonthStart(year, month - 1) + MonthLength(year, month - 1)
  }

  datatype Civil = Civil(year: int, month: int, day: int, hour: int, minute: int, second: int, millisecond: int)

  predicate ValidDay(c: Civil)
  {
    1 <= c.month <= 12 && 1 <= c.day <= MonthLength(c.year, c.month)
  }

  predicate ValidClock(c: Civil)
  {
    0 <= c.hour < 24 && 0 <= c.minute < 60 && 0 <= c.second < 60 && 0 <= c.millisecond < 1000
  }

  predicate ValidCivil(c: Civil)
  {
    ValidDay(c) && ValidClock(c)
  }

  function DayNumber(c: Civil): int
    requires 1 <= c.month <= 12
  {
    YearStart(c.year) + MonthStart(c.year, c.month) + c.day - 1
  }

  function ClockOf(c: Civil): int
  {
    c.hour * 3600000 + c.minute * 60000 + c.second * 1000 + c.millisecond
  }

  /** Milliseconds since 1 January 1970. */
  function Instant(c: Civil): int
    requires 1 <= c.month <= 12
  {
    DayNumber(c) * DAY + ClockOf(c)
  }

  lemma YearFollows(year: int)
    ensures YearStart(year + 1) == YearStart(year) + YearLength(year)
  {
  }

  lemma {:induction false} YearsInOrder(a: int, b: int)
    requires a <= b
    ensures YearStart(a) + 365 * (b - a) <= YearStart(b) <= YearStart(a) + 366 * (b - a)
    decreases b - a
  {
    if a < b {
      YearsInOrder(a, b - 1);
      YearFollows(b - 1);
    }
  }

  lemma MonthsFill(year: int)
    ensures MonthStart(year, 1) == 0
    ensures MonthStart(year, 2) == 31
    ensures MonthStart(year, 3) == 31 + MonthLength(year, 2)
    ensures MonthStart(year, 13) == YearLength(year)
  {
    assert MonthStart(year, 4) == MonthStart(year, 3) + 31;
    assert MonthStart(year, 6) == MonthStart(year, 4) + 61;
    assert MonthStart(year, 8) == MonthStart(year, 6) + 61;
    assert MonthStart(year, 10) == MonthStart(year, 8) + 61;
    assert MonthStart(year, 12) == MonthStart(year, 10) + 61;
    assert MonthStart(year, 13) == MonthStart(year, 12) + 31;
  }

  lemma {:induction false} MonthsInOrder(year: int, a: int, b: int)
    requires 1 <= a <= b <= 12
    ensures MonthStart(year, a) + MonthLength(year, a) <= MonthStart(year, b + 1)
    decreases b - a
  {
    if a < b {
      MonthsInOrder(year, a, b - 1);
    }
  }

  /** A date lies within its year. */
  lemma WithinYear(c: Civil)
    requires ValidDay(c)
    ensures YearStart(c.year) <= DayNumber(c) < YearStart(c.year + 1)
  {
    hide MonthLength, MonthStart, YearLength;
    MonthsFill(c.year);
    MonthsInOrder(c.year, c.month, 12);
    YearFollows(c.year);
    MonthNotNegative(c.year, c.month);
  }

  lemma {:induction false} MonthNotNegative(year: int, month: int)
    requires 1 <= month <= 12
    ensures MonthStart(year, month) >= 0
  {
    if month > 1 {
      MonthNotNegative(year, month - 1);
    }
  }

  lemma SameYear(a: Civil, b: Civil)
    requires ValidDay(a) && ValidDay(b) && DayNumber(a) == DayNumber(b)
    ensures a.year <= b.year
  {
    hide YearStart, DayNumber;
    WithinYear(a);
    WithinYear(b);
    if a.year > b.year {
      YearsInOrder(b.year + 1, a.year);
    }
  }

  lemma SameMonth(a: Civil, b: Civil)
    requires ValidDay(a) && ValidDay(b) && DayNumber(a) == DayNumber(b) && a.year == b.year
    ensures a.month <= b.month
  {
    hide YearStart, MonthLength, MonthStart;
    if a.month > b.month {
      MonthsInOrder(a.year, b.month, a.month - 1);
    }
  }

  lemma SameClock(a: Civil, b: Civil)
    requires ValidClock(a) && ValidClock(b) && ClockOf(a) == ClockOf(b)
    ensures a.hour == b.hour && a.minute == b.minute && a.second == b.second && a.millisecond == b.millisecond
  {
    var x, y := a.minute * 60000 + a.second * 1000 + a.millisecond, b.minute * 60000 + b.second * 1000 + b.millisecond;
    assert 0 <= x < 3600000 && 0 <= y < 3600000;
  }

  /** No two dates name the same instant: with Update's contract, Date::update is
      the inverse of Date::time. */
  lemma CivilUnique(a: Civil, b: Civil)
    requires ValidCivil(a) && ValidCivil(b) && Instant(a) == Instant(b)
    ensures a == b
  {
    hide YearStart, MonthLength, MonthStart, DayNumber;
    assert 0 <= ClockOf(a) < DAY && 0 <= ClockOf(b) < DAY;
    assert DayNumber(a) == DayNumber(b) && ClockOf(a) == ClockOf(b);
    hide ClockOf;
    SameYear(a, b);
    SameYear(b, a);
    SameMonth(a, b);
    SameMonth(b, a);
    assert a.day == b.day by {
      SameDay(a, b);
    }
    SameClock(a, b);
  }

  lemma SameDay(a: Civil, b: Civil)
    requires ValidDay(a) && ValidDay(b) && DayNumber(a) == DayNumber(b) && a.year == b.year && a.month == b.month
    ensures a.day == b.day
  {
  }

  // ----- the closed form ---------------------------------------------------------------

  /** C's division: towards zero. */
  function Div(a: int, b: int): int
    requires b > 0
  {
    if a >= 0 then a / b else -(-a / b)
  }

  function Mod(a: int, b: int): int
    requires b > 0
  {
    a - b * Div(a, b)
  }

  function LeapYears(year: int): int
  {
    Div(year, 4) - Div(year, 100) + Div(year, 400) - 477 - if year <= 0 then 1 else 0
  }

  /** Leap years up to `n`, counted from year 1. */
  function Leaps(n: int): int
  {
    n / 4 - n / 100 + n / 400
  }

  lemma LeapsStep(n: int)
    ensures Leaps(n) == Leaps(n - 1) + if IsLeapYear(n) then 1 else 0
  {
    Multiples(n, 4);
    Multiples(n, 100);
    Multiples(n, 400);
    NestedMultiples(n);
  }

  lemma Multiples(n: int, k: int)
    requires k > 1
    ensures n / k == (n - 1) / k + if n % k == 0 then 1 else 0
  {
    var q, r := n / k, n % k;
    assert n == q * k + r;
    if r == 0 {
      assert n - 1 == (q - 1) * k + (k - 1);
      Quotient(n - 1, k, q - 1, k - 1);
    } else {
      assert n - 1 == q * k + (r - 1);
      Quotient(n - 1, k, q, r - 1);
    }
  }

  lemma Quotient(n: int, k: int, q: int, r: int)
    requires k > 0 && 0 <= r < k && n == q * k + r
    ensures n / k == q && n % k == r
  {
    assert (n / k - q) * k == r - n % k;
    Times(n / k - q, k);
  }

  lemma Times(d: int, k: int)
    requires k > 0
    ensures d >= 1 ==> d * k >= k
    ensures d <= -1 ==> d * k <= -k
  {
  }

  lemma NestedMultiples(n: int)
    ensures n % 100 == 0 ==> n % 4 == 0
    ensures n % 400 == 0 ==> n % 100 == 0
  {
    if n % 100 == 0 {
      Quotient(n, 4, 25 * (n / 100), 0);
    }
    if n % 400 == 0 {
      Quotient(n, 100, 4 * (n / 400), 0);
    }
  }

  /** Positive years have their own leap day counted already, the others not. */
  function Counted(year: int): int
  {
    if year > 0 && IsLeapYear(year) then 1 else 0
  }

  lemma DivNegative(year: int, k: int)
    requires year <= 0 && k > 1
    ensures Div(year, k) == (year - 1) / k + 1
  {
    var q, r := (-year) / k, (-year) % k;
    assert year - 1 == (-q - 1) * k + (k - r - 1) by {
      assert -year == q * k + r;
    }
    Quotient(year - 1, k, -q - 1, k - r - 1);
  }

  lemma LeapYearsIs(year: int)
    ensures LeapYears(year) == Leaps(year - 1) - 477 + Counted(year)
  {
    if year <= 0 {
      DivNegative(year, 4);
      DivNegative(year, 100);
      DivNegative(year, 400);
    } else {
      LeapsStep(year);
    }
  }

  lemma {:induction false} YearStartIs(year: int)
    ensures YearStart(year) == 365 * (year - 1970) + Leaps(year - 1) - 477
    decreases if year < 1970 then 1970 - year else year - 1970
  {
    if year > 1970 {
      YearStartIs(year - 1);
      LeapsStep(year - 1);
    } else if year < 1970 {
      YearStartIs(year + 1);
      LeapsStep(year);
    }
  }

  /** The closed form that Date uses both ways. */
  lemma ClosedForm(year: int)
    ensures YearStart(year) == 365 * (year - 1970) + LeapYears(year) - Counted(year)
  {
    hide YearStart, LeapYears, Counted, Leaps;
    YearStartIs(year);
    LeapYearsIs(year);
  }

  // ----- the year by fixpoint iteration --------------------------------------------------

  /** What pads `year` years, counted from 1970, to 366 days each. */
  function Padding(year: int): int
  {
    year - LeapYears(year + 1970)
  }

  lemma PaddingIs(year: int)
    ensures Padding(year) == 366 * year - YearStart(year + 1970) - Counted(year + 1970)
  {
    ClosedForm(year + 1970);
  }

  /** The year, counted from 1970, of a day from 1970 on. */
  ghost predicate YearOf(year: int, day: int)
  {
    YearStart(year + 1970) <= day < YearStart(year + 1971)
  }

  lemma DivIs(n: int, k: int, q: int)
    requires k > 0
    requires if n >= 0 then q * k <= n < (q + 1) * k else (q - 1) * k < n <= q * k
    ensures Div(n, k) == q
  {
    if n >= 0 {
      Quotient(n, k, q, n - q * k);
    } else {
      Quotient(-n, k, -q, -n + q * k);
    }
  }

  lemma {:induction false} LeapDays(a: int, b: int)
    requires 1970 <= a <= b
    ensures YearStart(b) + Counted(b) - YearStart(a) - Counted(a) <= 366 * (b - a)
    decreases b - a
  {
    hide YearStart;
    if a < b {
      LeapDays(a, b - 1);
      YearFollows(b - 1);
    }
  }

  /** From 1970 on, a step from a year too early goes up, and never past the year. */
  lemma StepUp(day: int, y: int, t: int)
    requires 0 <= y <= t && YearOf(t, day)
    ensures y <= Div(day + 1 + Padding(y), 366) <= t
    ensures Div(day + 1 + Padding(y), 366) == y <==> y == t
  {
    hide YearStart, Padding, IsLeapYear;
    PaddingIs(y);
    YearFollows(y + 1970);
    YearFollows(t + 1970);
    LeapDays(y + 1970, t + 1970);
    YearsInOrder(y + 1970, t + 1970);
    var n := day + 1 + Padding(y);
    assert n == 366 * y + (day + 1 - YearStart(y + 1970) - Counted(y + 1970));
    if y < t {
      YearsInOrder(y + 1971, t + 1970);
      assert n >= 366 * (y + 1);
    } else {
      assert n >= 366 * y;
    }
    assert n < 366 * (t + 1);
    hide Counted, YearLength;
    DivBetween(n, 366, y, t);
  }

  lemma DivBetween(n: int, k: int, y: int, t: int)
    requires k > 0 && 0 <= y <= t && k * y <= n < k * (t + 1)
    requires y < t ==> n >= k * (y + 1)
    ensures y <= Div(n, k) <= t
    ensures Div(n, k) == y <==> y == t
  {
    var q := n / k;
    assert n == k * q + n % k;
    assert k * q < k * (t + 1);
    assert k * y < k * (q + 1);
    if y < t {
      assert k * (y + 1) < k * (q + 1);
    }
    Cancel(k, q, t + 1);
    Cancel(k, y, q + 1);
    if y < t {
      Cancel(k, y + 1, q + 1);
    }
  }

  lemma Cancel(k: int, a: int, b: int)
    requires k > 0 && k * a < k * b
    ensures a < b
  {
    Times(a - b, k);
  }

  /** Before 1970, a year is late enough as long as this holds. */
  ghost predicate NotBefore(y: int, day: int)
  {
    day <= YearStart(y + 1970) + Counted(y + 1970)
  }

  lemma {:induction false} LeapDaysBack(a: int, b: int)
    requires a < b
    ensures YearStart(b) + Counted(b) - YearStart(a) - Counted(a) <= 366 * (b - a)
    decreases b - a
  {
    hide YearStart;
    YearFollows(b - 1);
    if a < b - 1 {
      LeapDaysBack(a, b - 1);
    }
  }

  /** Before 1970 every step goes down and keeps the year late enough; when it
      stays, the day lies in the 366 days that end just after the year began. */
  lemma StepDown(day: int, y: int)
    requires y <= 0 && day < 0 && NotBefore(y, day)
    ensures var q := Div(day + Padding(y), 366);
      q <= y && NotBefore(q, day)
      && (q == y ==> YearStart(y + 1970) + Counted(y + 1970) - 366 < day
                     && Mod(day + Padding(y), 366) == day - YearStart(y + 1970) - Counted(y + 1970))
  {
    hide YearStart, Padding, IsLeapYear, Div;
    PaddingIs(y);
    var a := day - YearStart(y + 1970) - Counted(y + 1970);
    assert a <= 0;
    var n := 366 * y + a;
    assert day + Padding(y) == n;
    var k := -a / 366;
    assert 366 * k <= -a < 366 * (k + 1);
    DivNonPositive(n, 366, y - k);
    if k > 0 {
      LeapDaysBack(y - k + 1970, y + 1970);
    }
  }

  lemma DivNonPositive(n: int, k: int, q: int)
    requires k > 0 && n <= 0 && (q - 1) * k < n <= q * k
    ensures Div(n, k) == q
  {
    Times(q, k);
    Times(q - 1, k);
    if n < 0 {
      DivIs(n, k, q);
    }
  }
}

/** Date at offset 0: the calendar date of an instant, and the instant of a date. */
module Dates {
  import opened Calendar
  import opened DayFloor

  /** Days of the year before each month, in ordinary and in leap years. */
  const MONTH_DAYS: seq<int> := [0, 31, 59, 90, 120, 151, 181, 212, 243, 273, 304, 334]
  const LEAP_MONTH_DAYS: seq<int> := [0, 31, 60, 91, 121, 152, 182, 213, 244, 274, 305, 335]

  function MonthDays(leap: bool, month: int): int
    requires 0 <= month < 12
  {
    if leap then LEAP_MONTH_DAYS[month] else MONTH_DAYS[month]
  }

  lemma {:induction false} MonthDaysAre(year: int, month: int)
    requires 1 <= month <= 12
    ensures MonthDays(IsLeapYear(year), month - 1) == MonthStart(year, month)
    decreases month
  {
    hide IsLeapYear;
    if month > 1 {
      MonthDaysAre(year, month - 1);
    }
  }

  /** The 32-bit product wraps around. */
  function Wrap(x: int): (r: Int32)
  {
    var m := x % 0x1_0000_0000;
    if m >= 0x8000_0000 then m - 0x1_0000_0000 else m
  }

  /** Years far enough from 1970 not to overflow the day count's 32-bit product. */
  predicate NearYear(year: int)
  {
    1970 - 5883516 <= year <= 1970 + 5883516
  }

  lemma WrapExactly(year: Int32)
    ensures Wrap((year - 1970) * 365) == (year - 1970) * 365 <==> NearYear(year)
  {
  }

  /** How many days the product comes out wrong by. */
  function Overflow(year: Int32): int
  {
    Wrap((year - 1970) * 365) - (year - 1970) * 365
  }

  lemma OverflowIs(year: Int32)
    ensures Overflow(year) == 0 <==> NearYear(year)
    ensures Overflow(year) == 0 || Overflow(year) <= -0x1_0000_0000 || Overflow(year) >= 0x1_0000_0000
  {
    WrapExactly(year);
  }

  /** Some year begins at or before the day: a bound the descent never passes. */
  lemma YearsUnbounded(day: int)
    requires day < 0
    ensures YearStart(day + 1970) <= day
  {
    hide YearStart;
    YearsInOrder(day + 1970, 1970);
    FirstYear();
  }

  lemma FirstYear()
    ensures YearStart(1970) == 0 && Padding(0) == 0 && Counted(1970) == 0
  {
  }

  lemma {:induction false} YearExists(day: int, from: int)
    requires from >= 0 && YearStart(from + 1970) <= day
    ensures exists t :: t >= from && YearOf(t, day)
    decreases day - YearStart(from + 1970)
  {
    hide YearStart;
    YearFollows(from + 1970);
    if day < YearStart(from + 1971) {
      assert YearOf(from, day);
    } else {
      YearExists(day, from + 1);
    }
  }

  lemma YearBound(year: int, day: int)
    requires -110_000_000_000 <= day <= 110_000_000_000
    requires (year >= 0 && YearStart(year + 1970) <= day) || (year <= 0 && day <= YearStart(year + 1970) + 1)
    ensures -0x2000_0000 < year < 0x2000_0000
  {
    hide YearStart;
    FirstYear();
    if year >= 0 {
      YearsInOrder(1970, year + 1970);
    } else {
      YearsInOrder(year + 1970, 1970);
    }
  }

  /** The year loop from 1970 on: `padded` is the day number, counted from 1. */
  method FindYear(padded: int) returns (year: Int32, days: int)
    requires 0 < padded <= 110_000_000_000
    ensures 0 <= year < 0x2000_0000 && YearOf(year, padded - 1)
    ensures days == padded - YearStart(year + 1970) - Counted(year + 1970)
  {
    hide YearStart, Padding, Counted, Div;
    ghost var day := padded - 1;
    FirstYear();
    YearExists(day, 0);
    ghost var t :| t >= 0 && YearOf(t, day);
    YearBound(t, day);
    days, year := padded, 0;
    var delta := 0;
    StepUp(day, year, t);
    var next := Div(days, 366);
    while next != year
      invariant 0 <= year <= t
      invariant delta == Padding(year) && days == padded + delta
      invariant next == Div(days, 366)
      decreases t - year
    {
      StepUp(day, year, t);
      days := days - delta;
      delta := Padding(next);
      days := days + delta;
      year := next;
      next := Div(days, 366);
    }
    StepUp(day, year, t);
    PaddingIs(year);
    DayWithin(year, day);
    ghost var n := padded - YearStart(year + 1970) - Counted(year + 1970);
    ModIs(days, year, n);
    days := Mod(days, 366);
  }

  lemma DayWithin(year: int, day: int)
    requires year >= 0 && YearOf(year, day)
    ensures 0 <= day + 1 - YearStart(year + 1970) - Counted(year + 1970) < 366
  {
    hide YearStart;
    YearFollows(year + 1970);
  }

  lemma ModIs(days: int, year: int, n: int)
    requires year >= 0 && days == 366 * year + n && 0 <= n < 366
    ensures Mod(days, 366) == n
  {
  }

  /** The year loop before 1970: down to a year that begins at or soon after the day. */
  method FindYearBack(day: int) returns (year: Int32, days: int)
    requires -110_000_000_000 <= day < 0
    ensures year <= 0 && NotBefore(year, day) && YearStart(year + 1970) + Counted(year + 1970) - 366 < day
    ensures days == day - YearStart(year + 1970) - Counted(year + 1970)
  {
    hide YearStart, Padding, Div, Mod, IsLeapYear;
    FirstYear();
    YearsUnbounded(day);
    days, year := day, 0;
    var delta := 0;
    StepDown(day, year);
    var next := Div(days, 366);
    while next != year
      invariant year <= 0 && NotBefore(year, day)
      invariant delta == Padding(year) && days == day + delta
      invariant next == Div(days, 366)
      decreases year - day
    {
      StepDown(day, year);
      YearBound(next, day);
      NotTooEarly(day, next);
      days := days - delta;
      delta := Padding(next);
      days := days + delta;
      year := next;
      next := Div(days, 366);
    }
    StepDown(day, year);
    days := Mod(days, 366);
  }

  /** A late enough year lies at or after every year that begins before the day. */
  lemma NotTooEarly(day: int, year: int)
    requires day < 0 && NotBefore(year, day)
    ensures year >= day
  {
    hide YearStart, IsLeapYear;
    YearsUnbounded(day);
    if year < day {
      YearFollows(year + 1970);
      YearsInOrder(year + 1971, day + 1970);
    }
  }

  /** computeWeekDay: Sunday is 0. */
  function WeekDay(days: int): int
  {
    var result := days + 4;
    if result < 0 then Mod(result + 1, 7) + 6 else Mod(result, 7)
  }

  /** The same day of the week every seven days, on both sides of 1970. */
  lemma WeekDayIsEuclidean(days: int)
    ensures WeekDay(days) == (days + 4) % 7
  {
    var r := days + 4;
    if r < 0 {
      var q, m := (-(r + 1)) / 7, (-(r + 1)) % 7;
      assert -(r + 1) == q * 7 + m;
      assert r == (-q - 1) * 7 + (6 - m);
      Quotient(r, 7, -q - 1, 6 - m);
    }
  }

  lemma DateOnly(a: Civil, b: Civil)
    requires ValidDay(a) && (b.year, b.month, b.day) == (a.year, a.month, a.day)
    ensures ValidDay(b) && DayNumber(b) == DayNumber(a)
  {
    hide YearStart, MonthStart, MonthLength;
  }

  lemma MonthAfter(year: int, month: int)
    requires 1 <= month <= 12
    ensures MonthStart(year, month + 1) == MonthStart(year, month) + MonthLength(year, month)
  {
  }

  lemma LeapYearsBound(year: Int32)
    ensures -0x8000_0000 <= LeapYears(year) < 0x8000_0000
  {
  }

  /** Before 1970 the day stays negative. */
  lemma LateFar(time: Int64)
    ensures -DAY <= time < 0 ==> !Late(time)
  {
    if -DAY <= time < 0 {
      NeverLate(time);
    }
  }

  lemma InstantDay(c: Civil)
    requires ValidCivil(c)
    ensures Instant(c) / DAY == DayNumber(c)
  {
    hide DayNumber;
    var n := DayNumber(c);
    assert 0 <= ClockOf(c) < DAY;
    assert Instant(c) == n * DAY + ClockOf(c);
  }

  class Date {
    var year: Int32
    var month: int
    var day: int
    var weekDay: int
    var hour: int
    var minute: int
    var second: int
    var millisecond: int
    var stamp: Int64
    var changed: bool

    function State(): Civil
      reads this
    {
      Civil(year, month, day, hour, minute, second, millisecond)
    }

    /** A date already in use, whatever it shows. */
    constructor (c: Civil, time: Int64)
      requires -0x8000_0000 <= c.year < 0x8000_0000
      ensures State() == c && stamp == time && changed
    {
      year, month, day := c.year, c.month, c.day;
      hour, minute, second, millisecond := c.hour, c.minute, c.second, c.millisecond;
      weekDay, stamp, changed := 7, time, true;
    }

    /** update(Int64): the one valid date and clock of the instant, unless the quotient
        of doubles comes out at the next midnight; then a day later. */
    method Update(time: Int64)
      modifies this
      ensures ValidCivil(State())
      ensures Instant(State()) == time + if Late(time) then DAY else 0
      ensures weekDay == (Instant(State()) / DAY + 4) % 7
      ensures stamp == time && !changed
    {
      hide DayNumber, YearStart, WeekDay, MonthLength, DayOf, Late;
      stamp, changed := time, false;
      var days := DayOf(time);
      DayOfIs(time);
      LateFar(time);
      ghost var number := days;
      weekDay := WeekDay(days);
      WeekDayIsEuclidean(days);
      var dayOfYear;
      if time >= 0 {
        dayOfYear := SetYear(days + 1);
      } else {
        dayOfYear := SetYearBack(days);
      }
      SetMonthAndDay(dayOfYear);
      ghost var date := State();
      SetClock(time % DAY);
      DateOnly(date, State());
      assert DayNumber(State()) == number && ClockOf(State()) == time % DAY;
      assert time == time / DAY * DAY + time % DAY;
      InstantDay(State());
    }

    method SetYear(padded: int) returns (dayOfYear: int)
      requires 0 < padded <= 110_000_000_000
      modifies `year
      ensures dayOfYear == padded - YearStart(year) && 1 <= dayOfYear <= YearLength(year)
    {
      hide YearStart;
      var since, days := FindYear(padded);
      year := since + 1970;
      YearFollows(year);
      dayOfYear := if IsLeapYear(year) then days + 1 else days;
    }

    method SetYearBack(number: int) returns (dayOfYear: int)
      requires -110_000_000_000 <= number < 0
      modifies `year
      ensures dayOfYear == number + 1 - YearStart(year) && 1 <= dayOfYear <= YearLength(year)
    {
      hide YearStart;
      var since, days := FindYearBack(number);
      YearBound(since, number);
      year := since + 1970;
      var leap := IsLeapYear(year);
      YearFollows(year - 1);
      if year > 0 && leap {
        days := days + 1;
      }
      if days < 0 {
        year := year - 1;
        leap := IsLeapYear(year);
      }
      days := days + 1;
      dayOfYear := if days <= 0 then days + (if leap then 366 else 365) else days;
    }

    method SetMonthAndDay(dayOfYear: int)
      requires 1 <= dayOfYear <= YearLength(year)
      modifies `month, `day
      ensures ValidDay(State()) && DayNumber(State()) == YearStart(year) + dayOfYear - 1
    {
      hide YearStart, MonthStart, IsLeapYear;
      var leap := IsLeapYear(year);
      month := 1;
      var count := 0;
      MonthDaysAre(year, 1);
      while month < 12 && dayOfYear > MonthDays(leap, month)
        invariant 1 <= month <= 12
        invariant count == MonthStart(year, month) == MonthDays(leap, month - 1) && dayOfYear > count
      {
        MonthDaysAre(year, month + 1);
        count := MonthDays(leap, month);
        month := month + 1;
      }
      if month < 12 {
        MonthDaysAre(year, month + 1);
      } else {
        MonthsFill(year);
      }
      MonthAfter(year, month);
      day := dayOfYear - count;
    }

    method SetClock(clock: int)
      requires 0 <= clock < DAY
      modifies `hour, `minute, `second, `millisecond
      ensures ValidClock(State()) && ClockOf(State()) == clock
      ensures (year, month, day) == old((year, month, day))
    {
      hour := clock / 3600000;
      var rest := clock % 3600000;
      minute := rest / 60000;
      rest := rest % 60000;
      second := rest / 1000;
      millisecond := rest % 1000;
    }

    /** time(): recomputed after a change. It is the date's own instant exactly for
        years near enough to 1970. */
    method Time() returns (time: int)
      requires ValidCivil(State())
      modifies `stamp, `changed, `weekDay
      ensures !old(changed) ==> time == old(stamp) && stamp == old(stamp)
      ensures old(changed) ==> (time == Instant(State()) <==> NearYear(year))
      ensures old(changed) ==> time == Instant(State()) + Overflow(year) * DAY
      ensures old(changed) ==> time == stamp
      ensures !changed && State() == old(State())
    {
      hide YearStart, MonthStart, LeapYears, IsLeapYear, Wrap, NearYear;
      if !changed {
        return stamp;
      }
      LeapYearsBound(year);
      var days := day - 1 + LeapYears(year);
      if IsLeapYear(year) && year > 0 {
        days := days - 1;
      }
      days := days + MonthDays(IsLeapYear(year), month - 1);
      days := days + Wrap((year - 1970) * 365);
      time := days * DAY + ClockOf(State());
      MonthDaysAre(year, month);
      ClosedForm(year);
      OverflowIs(year);
      assert time - Instant(State()) == Overflow(year) * DAY;
      stamp, changed, weekDay := time, false, 7;
    }
  }

  /** update, a change, and time() again. */
  method UpdateAndBack(date: Date, time: Int64) returns (back: int)
    modifies date
    ensures back == time <==> !Late(time) && NearYear(date.year)
  {
    hide Late, NearYear;
    date.Update(time);
    date.changed := true;
    back := date.Time();
    OverflowIs(date.year);
  }

  /** time() of a changed date, and update to it again. */
  method TimeAndBack(date: Date)
    requires date.changed && ValidCivil(date.State())
    modifies date
    ensures date.State() == old(date.State())
      <==> NearYear(old(date.year)) && !Late(Instant(old(date.State())))
  {
    hide Late, NearYear, Instant, MonthLength;
    ghost var c := date.State();
    var time := date.Time();
    OverflowIs(c.year);
    date.Update(time);
    if Instant(date.State()) == Instant(c) {
      CivilUnique(date.State(), c);
    }
  }
}

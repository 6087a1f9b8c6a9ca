/**
 The proleptic Gregorian calendar in UTC, as Go's time package computes it: a day number
 (0 is 1 January of year 1) is split into 400-, 100-, 4- and 1-year cycles.
 */
module Calendar {
  import opened Prelude

  const MINUTES_PER_DAY: int := 1440

  predicate Leap(y: int) {
    y % 4 == 0 && (y % 100 != 0 || y % 400 == 0)
  }

  function YearLength(y: int): int {
    if Leap(y) then 366 else 365
  }

  /** Day number of 1 January. */
  function YearStart(y: int): int {
    365 * (y - 1) + (y - 1) / 4 - (y - 1) / 100 + (y - 1) / 400
  }

  function YearOf(day: int): int {
    var in400 := day % 146097;
    var n100 := Min(in400 / 36524, 3);
    var in100 := in400 - 36524 * n100;
    var in4 := in100 % 1461;
    var n1 := Min(in4 / 365, 3);
    400 * (day / 146097) + 100 * n100 + 4 * (in100 / 1461) + n1 + 1
  }

  lemma YearStartOfCycles(a: int, b: int, c: int, d: int)
    requires 0 <= b <= 3 && 0 <= c <= 24 && 0 <= d <= 3
    ensures YearStart(400 * a + 100 * b + 4 * c + d + 1) == 146097 * a + 36524 * b + 1461 * c + 365 * d
  {
    var y := 400 * a + 100 * b + 4 * c + d;
    assert y / 4 == 100 * a + 25 * b + c;
    assert y / 100 == 4 * a + b;
    assert y / 400 == a;
  }

  lemma NextYearStart(y: int)
    ensures YearStart(y + 1) == YearStart(y) + YearLength(y)
  {
    assert y / 4 == (y - 1) / 4 + (if y % 4 == 0 then 1 else 0);
    assert y / 100 == (y - 1) / 100 + (if y % 100 == 0 then 1 else 0);
    assert y / 400 == (y - 1) / 400 + (if y % 400 == 0 then 1 else 0);
  }

  /** The cycle counts of YearOf add up to the day number; only the last day of a leap year
      leaves a remainder of 365. */
  lemma CyclesOf(day: int) returns (a: int, b: int, c: int, d: int, rest: int)
    ensures 0 <= b <= 3 && 0 <= c <= 24 && 0 <= d <= 3 && 0 <= rest <= 365
    ensures YearOf(day) == 400 * a + 100 * b + 4 * c + d + 1
    ensures day == 146097 * a + 36524 * b + 1461 * c + 365 * d + rest
    ensures rest == 365 ==> d == 3 && (c < 24 || b == 3)
  {
    var in400 := day % 146097;
    a, b := day / 146097, Min(in400 / 36524, 3);
    var in100 := in400 - 36524 * b;
    assert 0 <= in100 <= 36524 && (in100 == 36524 ==> b == 3);
    c := in100 / 1461;
    var in4 := in100 % 1461;
    d := Min(in4 / 365, 3);
    rest := in4 - 365 * d;
  }

  lemma LastOfCycleIsLeap(a: int, b: int, c: int)
    requires 0 <= b <= 3 && 0 <= c <= 24 && (c < 24 || b == 3)
    ensures Leap(400 * a + 100 * b + 4 * c + 4)
  {
    var y := 400 * a + 100 * b + 4 * c + 4;
    LastDivision(100 * a + 25 * b + c + 1);
    assert y == 4 * (100 * a + 25 * b + c + 1);
    if c == 24 {
      assert y == 400 * (a + 1);
    } else {
      NotACentury(4 * a + b, 4 * (c + 1));
    }
  }

  lemma LastDivision(q: int)
    ensures (4 * q) % 4 == 0
  {
  }

  lemma NotACentury(q: int, k: int)
    requires 0 < k < 100
    ensures (100 * q + k) % 100 != 0
  {
  }

  /** The cycle arithmetic finds the year whose days bracket the given one. */
  lemma YearBrackets(day: int)
    ensures YearStart(YearOf(day)) <= day < YearStart(YearOf(day)) + YearLength(YearOf(day))
  {
    var a, b, c, d, rest := CyclesOf(day);
    YearStartOfCycles(a, b, c, d);
    if rest == 365 {
      LastOfCycleIsLeap(a, b, c);
    }
  }

  lemma {:induction false} YearsAdvance(y: int, z: int)
    requires y < z
    ensures YearStart(y) + YearLength(y) <= YearStart(z)
    decreases z - y
  {
    NextYearStart(z - 1);
    if y < z - 1 {
      YearsAdvance(y, z - 1);
    }
  }

  function YearDay(day: int): (r: int)
    ensures 0 <= r < YearLength(YearOf(day))
  {
    YearBrackets(day);
    day - YearStart(YearOf(day))
  }

  /** A day is named by its year and day of year in exactly one way. */
  lemma YearIsUnique(y: int, k: int)
    requires 0 <= k < YearLength(y)
    ensures YearOf(YearStart(y) + k) == y && YearDay(YearStart(y) + k) == k
  {
    var day := YearStart(y) + k;
    YearBrackets(day);
    if y < YearOf(day) {
      YearsAdvance(y, YearOf(day));
    } else if YearOf(day) < y {
      YearsAdvance(YearOf(day), y);
    }
  }

  // ---- months

  /** Days of the year before month m; m = 13 stands for the whole year. */
  function DaysBefore(m: int, leap: bool): int
    requires 1 <= m <= 13
  {
    var extra := if leap then 1 else 0;
    match m
    case 1 => 0
    case 2 => 31
    case 3 => 59 + extra
    case 4 => 90 + extra
    case 5 => 120 + extra
    case 6 => 151 + extra
    case 7 => 181 + extra
    case 8 => 212 + extra
    case 9 => 243 + extra
    case 10 => 273 + extra
    case 11 => 304 + extra
    case 12 => 334 + extra
    case 13 => 365 + extra
  }

  function MonthLength(m: int, leap: bool): int
    requires 1 <= m <= 12
  {
    DaysBefore(m + 1, leap) - DaysBefore(m, leap)
  }

  function MonthFrom(yday: int, leap: bool, m: int): (r: int)
    requires 1 <= m <= 12 && DaysBefore(m, leap) <= yday < DaysBefore(13, leap)
    ensures 1 <= r <= 12 && DaysBefore(r, leap) <= yday < DaysBefore(r + 1, leap)
    decreases 12 - m
  {
    if yday < DaysBefore(m + 1, leap) then m else MonthFrom(yday, leap, m + 1)
  }

  lemma {:induction false} MonthsAdvance(m: int, n: int, leap: bool)
    requires 1 <= m < n <= 13
    ensures DaysBefore(m + 1, leap) <= DaysBefore(n, leap)
    decreases n - m
  {
    if m + 1 < n {
      MonthsAdvance(m, n - 1, leap);
    }
  }

  lemma MonthIsUnique(yday: int, leap: bool, m: int)
    requires 1 <= m <= 12 && DaysBefore(m, leap) <= yday < DaysBefore(m + 1, leap)
    requires 0 <= yday < DaysBefore(13, leap)
    ensures MonthFrom(yday, leap, 1) == m
  {
    var found := MonthFrom(yday, leap, 1);
    if found < m {
      MonthsAdvance(found, m, leap);
    } else if m < found {
      MonthsAdvance(m, found, leap);
    }
  }

  function MonthOf(day: int): (r: int)
    ensures 1 <= r <= 12
  {
    MonthFrom(YearDay(day), Leap(YearOf(day)), 1)
  }

  function DayOfMonth(day: int): (r: int)
    ensures 1 <= r <= 31
  {
    var leap := Leap(YearOf(day));
    YearDay(day) - DaysBefore(MonthFrom(YearDay(day), leap, 1), leap) + 1
  }

  /** Day 0 was a Monday; Sunday is 0. */
  function Weekday(day: int): int {
    (day + 1) % 7
  }

  /** Day number of a date; d may exceed the month, as in Go's time.Date. */
  function DayNumber(y: int, m: int, d: int): int
    requires 1 <= m <= 12
  {
    YearStart(y) + DaysBefore(m, Leap(y)) + d - 1
  }

  lemma YearLengthInMonths(y: int)
    ensures YearLength(y) == DaysBefore(13, Leap(y)) && DaysBefore(1, Leap(y)) == 0
  {
  }

  /** Converting a valid date to its day number and back is the identity. */
  lemma DateRoundTrip(y: int, m: int, d: int)
    requires 1 <= m <= 12 && 1 <= d <= MonthLength(m, Leap(y))
    ensures var day := DayNumber(y, m, d);
            YearOf(day) == y && MonthOf(day) == m && DayOfMonth(day) == d
  {
    hide YearOf, YearStart, Leap, MonthFrom, YearLength;
    var k := DaysBefore(m, Leap(y)) + d - 1;
    YearLengthInMonths(y);
    if m < 12 {
      MonthsAdvance(m, 13, Leap(y));
    }
    if m > 1 {
      MonthsAdvance(1, m, Leap(y));
    }
    YearIsUnique(y, k);
    MonthIsUnique(k, Leap(y), m);
  }

  lemma DayRoundTrip(day: int)
    ensures DayNumber(YearOf(day), MonthOf(day), DayOfMonth(day)) == day
  {
  }

  // ---- the calendar repeats after 400 years

  const CYCLE: int := 146097

  lemma YearRepeats(day: int)
    ensures YearOf(day + CYCLE) == YearOf(day) + 400 && Leap(YearOf(day + CYCLE)) == Leap(YearOf(day))
    ensures YearStart(YearOf(day + CYCLE)) == YearStart(YearOf(day)) + CYCLE
  {
    var in400, cycles := day % CYCLE, day / CYCLE;
    assert (day + CYCLE) / CYCLE == cycles + 1 && (day + CYCLE) % CYCLE == in400;
    YearsRepeat(YearOf(day));
  }

  lemma YearsRepeat(y: int)
    ensures YearStart(y + 400) == YearStart(y) + CYCLE && Leap(y + 400) == Leap(y)
  {
    assert (y + 399) / 4 == (y - 1) / 4 + 100 && (y + 399) / 100 == (y - 1) / 100 + 4 && (y + 399) / 400 == (y - 1) / 400 + 1;
  }

  lemma DateRepeats(day: int)
    ensures MonthOf(day + CYCLE) == MonthOf(day) && DayOfMonth(day + CYCLE) == DayOfMonth(day)
    ensures Weekday(day + CYCLE) == Weekday(day)
  {
    YearRepeats(day);
    hide YearOf, YearStart, Leap;
  }

  // ---- minutes

  function DayAt(t: int): int { t / MINUTES_PER_DAY }

  function HourAt(t: int): int { t % MINUTES_PER_DAY / 60 }

  function MinuteAt(t: int): int { t % 60 }

  /** Two dates a reader can check against any calendar. */
  lemma KnownDates()
    ensures DayNumber(1970, 1, 1) == 719162 && Weekday(719162) == 4
    ensures DayNumber(2000, 2, 29) == 730178 && Weekday(730178) == 2
  {
  }
}

/**
 The bounded minute-by-minute search of parseCronSchedule and CalculateNextRun. Minutes and
 nanoseconds count from day 0 of Calendar, in UTC.
 */
module Cron {
  import opened Prelude
  import opened Calendar
  import opened CronField

  const HORIZON: int := 366 * 24 * 60

  // ---- schedules and the minutes they fire at

  datatype Schedule = Schedule(minute: Field, hour: Field, day: Field, month: Field, weekday: Field)

  /** Five fields with a usable minute and hour; the date fields may be unusable. */
  function Parsed(text: string): Option<Schedule> {
    var parts := Fields(text);
    if |parts| != 5 then None
    else
      var minute, hour := Meaning(parts[0], 0, 59), Meaning(parts[1], 0, 23);
      if minute.Unusable? || hour.Unusable? then None
      else Some(Schedule(minute, hour, Meaning(parts[2], 1, 31), Meaning(parts[3], 1, 12), Meaning(parts[4], 0, 6)))
  }

  /** A date field that could not be parsed restricts nothing. */
  predicate Allows(f: Field, min: int, v: int) {
    f.Unusable? || Selects(f, min, v)
  }

  predicate DateFires(s: Schedule, day: int) {
    && Allows(s.day, 1, DayOfMonth(day))
    && Allows(s.month, 1, MonthOf(day))
    && Allows(s.weekday, 0, Weekday(day))
  }

  predicate Fires(s: Schedule, t: int) {
    && Selects(s.minute, 0, MinuteAt(t))
    && Selects(s.hour, 0, HourAt(t))
    && DateFires(s, DayAt(t))
  }

  // ---- matchesCron on the parsed value lists

  function Contains(values: seq<int>, v: int): bool {
    v in values
  }

  predicate MatchesCron(t: int, minute: seq<int>, hour: seq<int>, day: Option<seq<int>>,
                        month: Option<seq<int>>, weekday: Option<seq<int>>)
  {
    && Contains(minute, MinuteAt(t))
    && Contains(hour, HourAt(t))
    && (day.None? || Contains(day.value, DayOfMonth(DayAt(t))))
    && (month.None? || Contains(month.value, MonthOf(DayAt(t))))
    && (weekday.None? || Contains(weekday.value, Weekday(DayAt(t))))
  }

  lemma ListAllows(field: string, min: int, max: int, v: int)
    requires CronRange(min, max) && min <= v <= max
    ensures var f := Meaning(field, min, max);
            var values := FieldValues(f, min, max);
            && (values.None? <==> f.Unusable?)
            && (values.Some? ==> (Contains(values.value, v) <==> Selects(f, min, v)))
  {
    MeaningIsBounded(field, min, max);
    var f := Meaning(field, min, max);
    if FieldValues(f, min, max).Some? {
      ListedIffSelected(f, min, max, v);
    }
  }

  /** The five value lists of a schedule text. */
  datatype Lists = Lists(minute: Option<seq<int>>, hour: Option<seq<int>>, day: Option<seq<int>>,
                         month: Option<seq<int>>, weekday: Option<seq<int>>)

  function ListsOf(parts: seq<string>): Lists
    requires |parts| == 5
  {
    Lists(FieldValues(Meaning(parts[0], 0, 59), 0, 59), FieldValues(Meaning(parts[1], 0, 23), 0, 23),
          FieldValues(Meaning(parts[2], 1, 31), 1, 31), FieldValues(Meaning(parts[3], 1, 12), 1, 12),
          FieldValues(Meaning(parts[4], 0, 6), 0, 6))
  }

  lemma ListsExistIffParsed(text: string)
    requires |Fields(text)| == 5
    ensures var lists := ListsOf(Fields(text));
            lists.minute.Some? && lists.hour.Some? <==> Parsed(text).Some?
  {
    ListAllows(Fields(text)[0], 0, 59, 0);
    ListAllows(Fields(text)[1], 0, 23, 0);
  }

  /** The value lists match a minute exactly when the schedule fires at it. */
  lemma MatchesIffFires(text: string, t: int)
    requires Parsed(text).Some?
    ensures var lists := ListsOf(Fields(text));
            && lists.minute.Some? && lists.hour.Some?
            && (MatchesCron(t, lists.minute.value, lists.hour.value, lists.day, lists.month, lists.weekday)
                <==> Fires(Parsed(text).value, t))
  {
    var parts := Fields(text);
    ListAllows(parts[0], 0, 59, MinuteAt(t));
    ListAllows(parts[1], 0, 23, HourAt(t));
    ListAllows(parts[2], 1, 31, DayOfMonth(DayAt(t)));
    ListAllows(parts[3], 1, 12, MonthOf(DayAt(t)));
    ListAllows(parts[4], 0, 6, Weekday(DayAt(t)));
  }

  // ---- the search

  ghost predicate NoneBetween(s: Schedule, from: int, to: int) {
    forall t | from < t < to :: !Fires(s, t)
  }

  /** What parseCronSchedule may return at minute `now`: the least later minute at which the
      schedule fires, or nothing when it cannot be parsed or does not fire within the horizon. */
  ghost predicate IsNextRun(text: string, now: int, r: Option<int>) {
    match Parsed(text)
    case None => r.None?
    case Some(s) =>
      match r
      case Some(t) => now < t <= now + HORIZON && Fires(s, t) && NoneBetween(s, now, t)
      case None => NoneBetween(s, now, now + HORIZON + 1)
  }

  method ParseCronSchedule(text: string, now: int) returns (r: Option<int>)
    ensures IsNextRun(text, now, r)
  {
    var parts := Fields(text);
    if |parts| != 5 {
      return None;
    }
    var minute := ParseCronField(parts[0], 0, 59);
    var hour := ParseCronField(parts[1], 0, 23);
    var day := ParseCronField(parts[2], 1, 31);
    var month := ParseCronField(parts[3], 1, 12);
    var weekday := ParseCronField(parts[4], 0, 6);
    ListsExistIffParsed(text);
    if minute.None? || hour.None? {
      return None;
    }
    r := Search(text, now, minute.value, hour.value, day, month, weekday);
  }

  /** The loop of parseCronSchedule, starting at the next minute. */
  method Search(ghost text: string, now: int, minute: seq<int>, hour: seq<int>,
                day: Option<seq<int>>, month: Option<seq<int>>, weekday: Option<seq<int>>)
    returns (r: Option<int>)
    requires Parsed(text).Some?
    requires ListsOf(Fields(text)) == Lists(Some(minute), Some(hour), day, month, weekday)
    ensures IsNextRun(text, now, r)
  {
    hide Fires, MatchesCron, Parsed, ListsOf;
    ghost var s := Parsed(text).value;
    var candidate := now + 1;
    var i := 0;
    while i < 366 * 24 * 60
      invariant 0 <= i <= HORIZON && candidate == now + 1 + i
      invariant NoneBetween(s, now, candidate)
    {
      MatchesIffFires(text, candidate);
      if MatchesCron(candidate, minute, hour, day, month, weekday) {
        return Some(candidate);
      }
      candidate := candidate + 1;
      i := i + 1;
    }
    return None;
  }

  /** The answer is determined by the text and the current minute. */
  lemma NextRunIsUnique(text: string, now: int, a: Option<int>, b: Option<int>)
    requires IsNextRun(text, now, a) && IsNextRun(text, now, b)
    ensures a == b
  {
  }

  // ---- when the search succeeds

  predicate Unrestricted(f: Field, min: int, max: int) {
    forall v | min <= v <= max :: Allows(f, min, v)
  }

  /** A usable minute or hour field selects something. */
  lemma SomethingSelected(f: Field, min: int, max: int) returns (v: int)
    requires min <= max && !f.Unusable?
    requires (f.Every? ==> f.step > 0) && (f.Exactly? ==> min <= f.value <= max)
    ensures min <= v <= max && Selects(f, min, v)
  {
    v := if f.Exactly? then f.value else min;
  }

  lemma NoTwoLeapYears(y: int)
    ensures !(Leap(y) && Leap(y + 1))
  {
  }

  /** From one year to the next a date moves by at most the length of a year plus a leap day. */
  lemma DateMoves(y: int, m: int, d: int)
    requires 1 <= m <= 12
    ensures DayNumber(y + 1, m, d) - DayNumber(y, m, d) <= 366
    ensures DayNumber(y, m, d) < DayNumber(y + 1, m, d)
  {
    NextYearStart(y);
    NoTwoLeapYears(y);
    hide Leap, YearStart;
    assert DaysBefore(m, false) <= DaysBefore(m, true) <= DaysBefore(m, false) + 1;
  }

  lemma CommonDateStaysInYear(y: int, m: int, d: int)
    requires 1 <= m <= 12 && 1 <= d <= MonthLength(m, false)
    ensures d <= MonthLength(m, Leap(y))
    ensures YearStart(y) <= DayNumber(y, m, d) < YearStart(y) + YearLength(y)
  {
  }

  /** Any 366 consecutive days contain each day-and-month of a common year: the gap is 366 days
      only across a 29 February. */
  lemma DateRecurs(first: int, m: int, d: int) returns (day: int)
    requires 1 <= m <= 12 && 1 <= d <= MonthLength(m, false)
    ensures first <= day < first + 366 && MonthOf(day) == m && DayOfMonth(day) == d
  {
    hide YearOf, MonthOf, DayOfMonth, Leap, YearStart;
    var y := YearOf(first);
    YearBrackets(first);
    CommonDateStaysInYear(y, m, d);
    CommonDateStaysInYear(y + 1, m, d);
    NextYearStart(y);
    if first <= DayNumber(y, m, d) {
      day := DayNumber(y, m, d);
      DateRoundTrip(y, m, d);
    } else {
      day := DayNumber(y + 1, m, d);
      DateMoves(y, m, d);
      DateRoundTrip(y + 1, m, d);
    }
  }

  lemma WeekdayRecurs(first: int, weekday: int) returns (day: int)
    requires 0 <= weekday <= 6
    ensures first <= day <= first + 6 && Weekday(day) == weekday
  {
    day := first + (weekday - Weekday(first)) % 7;
  }

  lemma FirstOfMonth(y: int, m: int)
    requires 1 <= m <= 12
    ensures YearStart(y) <= DayNumber(y, m, 1) <= YearStart(y) + 335
    ensures forall d :: DayNumber(y, m, d) == DayNumber(y, m, 1) + d - 1
  {
  }

  /** Any 366 consecutive days contain each weekday of each month. */
  lemma WeekdayOfMonthRecurs(first: int, m: int, weekday: int) returns (day: int)
    requires 1 <= m <= 12 && 0 <= weekday <= 6
    ensures first <= day < first + 366 && MonthOf(day) == m && Weekday(day) == weekday
  {
    hide YearOf, MonthOf, DayOfMonth, Leap, YearStart, DayNumber, MonthLength, Weekday;
    var y := YearOf(first);
    YearBrackets(first);
    NextYearStart(y);
    FirstOfMonth(y, m);
    FirstOfMonth(y + 1, m);
    DateMoves(y, m, 1);
    var start := DayNumber(y, m, 1);
    if first <= start {
      day := WeekdayInWeek(y, m, 1, weekday);
    } else if first <= start + 6 {
      day := WeekdayInWeek(y, m, 8, weekday);
    } else {
      day := WeekdayInWeek(y + 1, m, 1, weekday);
    }
  }

  lemma WeekdayInWeek(y: int, m: int, d: int, weekday: int) returns (day: int)
    requires 1 <= m <= 12 && 1 <= d <= 22 && 0 <= weekday <= 6
    ensures DayNumber(y, m, d) <= day <= DayNumber(y, m, d) + 6 && MonthOf(day) == m && Weekday(day) == weekday
  {
    hide YearOf, MonthOf, DayOfMonth, Leap, YearStart;
    FirstOfMonth(y, m);
    day := WeekdayRecurs(DayNumber(y, m, d), weekday);
    CommonDateStaysInYear(y, m, 28);
    DateRoundTrip(y, m, d + day - DayNumber(y, m, d));
  }

  lemma MinuteOfDay(day: int, hour: int, minute: int)
    requires 0 <= hour < 24 && 0 <= minute < 60
    ensures var t := 1440 * day + 60 * hour + minute;
            DayAt(t) == day && HourAt(t) == hour && MinuteAt(t) == minute
  {
    var rest := 60 * hour + minute;
    var t := 1440 * day + rest;
    assert 0 <= rest < 1440;
    assert t / 1440 == day && t % 1440 == rest;
    assert rest / 60 == hour;
    assert t == 60 * (24 * day + hour) + minute;
    assert t % 60 == minute;
  }

  /** The first day on which hour:minute is still ahead. */
  lemma FirstDayAhead(now: int, hour: int, minute: int) returns (first: int)
    requires 0 <= hour < 24 && 0 <= minute < 60
    ensures now < 1440 * first + 60 * hour + minute <= now + 1440
  {
    first := (now - 60 * hour - minute) / 1440 + 1;
  }

  lemma ParsedIsBounded(text: string)
    requires Parsed(text).Some?
    ensures var s := Parsed(text).value;
            && !s.minute.Unusable? && !s.hour.Unusable?
            && (s.minute.Every? ==> s.minute.step > 0) && (s.minute.Exactly? ==> 0 <= s.minute.value <= 59)
            && (s.hour.Every? ==> s.hour.step > 0) && (s.hour.Exactly? ==> 0 <= s.hour.value <= 23)
  {
  }

  /** The 366-day horizon is long enough for every schedule without a weekday restriction that
      lists some date of a common year. */
  lemma SearchSucceeds(text: string, now: int, r: Option<int>, m: int, d: int)
    requires IsNextRun(text, now, r) && Parsed(text).Some?
    requires var s := Parsed(text).value;
             && Unrestricted(s.weekday, 0, 6)
             && 1 <= m <= 12 && 1 <= d <= MonthLength(m, false)
             && Allows(s.month, 1, m) && Allows(s.day, 1, d)
    ensures r.Some?
  {
    var s := Parsed(text).value;
    ParsedIsBounded(text);
    var minute := SomethingSelected(s.minute, 0, 59);
    var hour := SomethingSelected(s.hour, 0, 23);
    var first := FirstDayAhead(now, hour, minute);
    var day := DateRecurs(first, m, d);
    MinuteOfDay(day, hour, minute);
    assert Fires(s, 1440 * day + 60 * hour + minute);
  }

  /** Without any date restriction it succeeds within a day. */
  lemma SearchSucceedsWithinADay(text: string, now: int, r: Option<int>)
    requires IsNextRun(text, now, r) && Parsed(text).Some?
    requires var s := Parsed(text).value;
             Unrestricted(s.day, 1, 31) && Unrestricted(s.month, 1, 12) && Unrestricted(s.weekday, 0, 6)
    ensures r.Some? && r.value <= now + 1440
  {
    var s := Parsed(text).value;
    ParsedIsBounded(text);
    var minute := SomethingSelected(s.minute, 0, 59);
    var hour := SomethingSelected(s.hour, 0, 23);
    var day := FirstDayAhead(now, hour, minute);
    MinuteOfDay(day, hour, minute);
    assert Fires(s, 1440 * day + 60 * hour + minute);
  }

  /** With only a weekday restriction it succeeds within a week. */
  lemma SearchSucceedsWithinAWeek(text: string, now: int, r: Option<int>, weekday: int)
    requires IsNextRun(text, now, r) && Parsed(text).Some?
    requires var s := Parsed(text).value;
             && Unrestricted(s.day, 1, 31) && Unrestricted(s.month, 1, 12)
             && 0 <= weekday <= 6 && Allows(s.weekday, 0, weekday)
    ensures r.Some? && r.value <= now + 7 * 1440
  {
    var s := Parsed(text).value;
    ParsedIsBounded(text);
    var minute := SomethingSelected(s.minute, 0, 59);
    var hour := SomethingSelected(s.hour, 0, 23);
    var first := FirstDayAhead(now, hour, minute);
    var day := WeekdayRecurs(first, weekday);
    MinuteOfDay(day, hour, minute);
    assert Fires(s, 1440 * day + 60 * hour + minute);
  }

  /** An unrestricted day of the month is enough for the search always to succeed, whatever months and
      weekdays are listed. */
  lemma SearchSucceedsInMonth(text: string, now: int, r: Option<int>)
    requires IsNextRun(text, now, r) && Parsed(text).Some? && Unrestricted(Parsed(text).value.day, 1, 31)
    ensures r.Some?
  {
    var s := Parsed(text).value;
    ParsedIsBounded(text);
    DatesAreBounded(text);
    var minute := SomethingSelected(s.minute, 0, 59);
    var hour := SomethingSelected(s.hour, 0, 23);
    var m := SomethingAllowed(s.month, 1, 12);
    var weekday := SomethingAllowed(s.weekday, 0, 6);
    var first := FirstDayAhead(now, hour, minute);
    var day := WeekdayOfMonthRecurs(first, m, weekday);
    MinuteOfDay(day, hour, minute);
    assert Fires(s, 1440 * day + 60 * hour + minute);
  }

  lemma DatesAreBounded(text: string)
    requires Parsed(text).Some?
    ensures var s := Parsed(text).value;
            && (s.month.Every? ==> s.month.step > 0) && (s.month.Exactly? ==> 1 <= s.month.value <= 12)
            && (s.weekday.Every? ==> s.weekday.step > 0) && (s.weekday.Exactly? ==> 0 <= s.weekday.value <= 6)
  {
  }

  lemma SomethingAllowed(f: Field, min: int, max: int) returns (v: int)
    requires min <= max && (f.Every? ==> f.step > 0) && (f.Exactly? ==> min <= f.value <= max)
    ensures min <= v <= max && Allows(f, min, v)
  {
    v := if f.Exactly? then f.value else min;
  }

  // ---- the horizon is tight, and what lies beyond it

  lemma {:induction false} WordLengthOf(word: string, rest: string)
    requires forall i | 0 <= i < |word| :: !IsSpace(word[i])
    requires rest == [] || IsSpace(rest[0])
    ensures WordLength(word + rest) == |word|
  {
    if word != [] {
      assert (word + rest)[1..] == word[1..] + rest;
      WordLengthOf(word[1..], rest);
    } else {
      assert word + rest == rest;
    }
  }

  /** A word, a space, and the remaining fields. */
  lemma FieldsOfWord(word: string, rest: string)
    requires word != [] && forall i | 0 <= i < |word| :: !IsSpace(word[i])
    ensures Fields(word) == [word]
    ensures Fields(word + (" " + rest)) == [word] + Fields(rest)
  {
    WordLengthOf(word, []);
    assert word + [] == word && word[|word|..] == "";
    WordLengthOf(word, " " + rest);
    var all := word + (" " + rest);
    assert all[..|word|] == word && all[|word|..] == " " + rest;
    assert (" " + rest)[1..] == rest;
  }

  predicate Word(s: string) {
    s != [] && forall i | 0 <= i < |s| :: !IsSpace(s[i])
  }

  function Joined(words: seq<string>): string
    requires words != []
  {
    if |words| == 1 then words[0] else words[0] + (" " + Joined(words[1..]))
  }

  /** Splitting a space-separated line gives its words back. */
  lemma {:induction false} FieldsOfJoined(words: seq<string>)
    requires words != [] && forall i | 0 <= i < |words| :: Word(words[i])
    ensures Fields(Joined(words)) == words
  {
    if |words| == 1 {
      FieldsOfWord(words[0], "");
    } else {
      FieldsOfWord(words[0], Joined(words[1..]));
      FieldsOfJoined(words[1..]);
    }
  }

  function Digit(n: int): string
    requires 0 <= n <= 9
  {
    ["0123456789"[n]]
  }

  lemma MeaningOfDigit(n: int, min: int, max: int)
    requires 0 <= n <= 9 && min <= n <= max
    ensures Meaning(Digit(n), min, max) == Exactly(n) && Word(Digit(n))
  {
    assert Decimal(Digit(n)) == 10 * Decimal(Digit(n)[..0]) + n;
  }

  lemma MeaningOfTwentyNine()
    ensures Meaning("29", 1, 31) == Exactly(29) && Word("29")
  {
    assert "29"[..1] == "2" && "2"[..0] == "";
    assert Decimal("2") == 2;
    assert Decimal("29") == 29;
  }

  /** "0 0 <day> <month> *": midnight on one date. */
  function MidnightOn(day: string, month: string): string {
    Joined(["0", "0", day, month, "*"])
  }

  lemma ParsedMidnight(day: string, month: string)
    requires Word(day) && Word(month)
    ensures Parsed(MidnightOn(day, month))
         == Some(Schedule(Exactly(0), Exactly(0), Meaning(day, 1, 31), Meaning(month, 1, 12), Any))
  {
    var words := ["0", "0", day, month, "*"];
    assert "0" == Digit(0);
    MeaningOfDigit(0, 0, 59);
    MeaningOfDigit(0, 0, 23);
    FieldsOfJoined(words);
    assert Fields(MidnightOn(day, month)) == words;
  }

  lemma MidnightOnly(t: int)
    requires HourAt(t) == 0 && MinuteAt(t) == 0
    ensures t == 1440 * DayAt(t)
  {
    var rest := t % 1440;
    assert t == 1440 * DayAt(t) + rest && rest / 60 == 0;
    assert (1440 * DayAt(t) + rest) % 60 == rest % 60;
  }

  lemma YearWithin(day: int, y: int)
    requires YearStart(y) <= day < YearStart(y + 1)
    ensures YearOf(day) == y
  {
    NextYearStart(y);
    YearIsUnique(y, day - YearStart(y));
  }

  lemma NoMarchFirstBetween(day: int)
    requires DayNumber(2023, 3, 1) < day < DayNumber(2024, 3, 1)
    ensures !(MonthOf(day) == 3 && DayOfMonth(day) == 1)
  {
    DayRoundTrip(day);
    if day < YearStart(2024) {
      YearWithin(day, 2023);
    } else {
      YearWithin(day, 2024);
    }
  }

  predicate AtMidnightOn(s: Schedule, m: int, d: int) {
    s == Schedule(Exactly(0), Exactly(0), Exactly(d), Exactly(m), Any)
  }

  lemma FiresAtMidnight(s: Schedule, y: int, m: int, d: int)
    requires AtMidnightOn(s, m, d) && 1 <= m <= 12 && 1 <= d <= MonthLength(m, Leap(y))
    ensures Fires(s, 1440 * DayNumber(y, m, d))
  {
    DateRoundTrip(y, m, d);
    MinuteOfDay(DayNumber(y, m, d), 0, 0);
  }

  lemma FiresOnDateOnly(s: Schedule, m: int, d: int, t: int)
    requires AtMidnightOn(s, m, d) && Fires(s, t)
    ensures t == 1440 * DayAt(t) && MonthOf(DayAt(t)) == m && DayOfMonth(DayAt(t)) == d
  {
    MidnightOnly(t);
  }

  lemma NothingBeforeMarchFirst(s: Schedule, now: int)
    requires AtMidnightOn(s, 3, 1) && now == 1440 * DayNumber(2023, 3, 1)
    ensures NoneBetween(s, now, 1440 * DayNumber(2024, 3, 1))
  {
    forall t | now < t < 1440 * DayNumber(2024, 3, 1) ensures !Fires(s, t) {
      if Fires(s, t) {
        FiresOnDateOnly(s, 3, 1, t);
        NoMarchFirstBetween(DayAt(t));
      }
    }
  }

  /** The horizon cannot be shortened by a minute: asked at midnight on 1 March 2023 for the next
      1 March, the search finds it in its last iteration, across 29 February 2024. */
  lemma HorizonIsTight(text: string)
    requires Parsed(text).Some? && AtMidnightOn(Parsed(text).value, 3, 1)
    ensures var now := 1440 * DayNumber(2023, 3, 1);
            IsNextRun(text, now, Some(now + HORIZON))
  {
    hide Parsed, Fires;
    var s := Parsed(text).value;
    var now := 1440 * DayNumber(2023, 3, 1);
    assert 1440 * DayNumber(2024, 3, 1) == now + HORIZON;
    FiresAtMidnight(s, 2024, 3, 1);
    NothingBeforeMarchFirst(s, now);
  }

  lemma DayWithinMonth(day: int)
    ensures 1 <= DayOfMonth(day) <= MonthLength(MonthOf(day), Leap(YearOf(day)))
  {
  }

  /** A schedule for 29 February alone is not found in most years: asked on 1 March 2025 the
      search gives up, and CalculateNextRun then falls back to "in 24 hours". */
  lemma LeapDayIsMissed(text: string)
    requires Parsed(text).Some? && AtMidnightOn(Parsed(text).value, 2, 29)
    ensures IsNextRun(text, 1440 * DayNumber(2025, 3, 1), None)
  {
    var s := Parsed(text).value;
    var now := 1440 * DayNumber(2025, 3, 1);
    forall t | now < t < now + HORIZON + 1 ensures !Fires(s, t) {
      if Fires(s, t) {
        FiresOnDateOnly(s, 2, 29, t);
        CommonDatesAhead(DayAt(t));
      }
    }
  }

  ghost predicate ListsCommonDate(s: Schedule) {
    exists m, d | 1 <= m <= 12 && 1 <= d <= MonthLength(m, false) :: Allows(s.month, 1, m) && Allows(s.day, 1, d)
  }

  /** The 366 days after 1 March 2025 hold only dates of common years. */
  lemma CommonDatesAhead(day: int)
    requires DayNumber(2025, 3, 1) <= day <= DayNumber(2025, 3, 1) + 366
    ensures 1 <= DayOfMonth(day) <= MonthLength(MonthOf(day), false)
  {
    DayWithinMonth(day);
    if day < YearStart(2026) {
      YearWithin(day, 2025);
    } else {
      YearWithin(day, 2026);
    }
  }

  lemma NoCommonDateNoRun(text: string)
    requires Parsed(text).Some? && !ListsCommonDate(Parsed(text).value)
    ensures IsNextRun(text, 1440 * DayNumber(2025, 3, 1), None)
  {
    hide Parsed, DayOfMonth, MonthOf, Selects;
    var s := Parsed(text).value;
    var now := 1440 * DayNumber(2025, 3, 1);
    forall t | now < t < now + HORIZON + 1 ensures !Fires(s, t) {
      CommonDatesAhead(DayAt(t));
    }
  }

  /** Without a weekday restriction the search succeeds whenever it is asked exactly when the schedule
      lists a date that exists in common years. */
  lemma AlwaysFoundIff(text: string)
    requires Parsed(text).Some? && Unrestricted(Parsed(text).value.weekday, 0, 6)
    ensures (forall now, r | IsNextRun(text, now, r) :: r.Some?) <==> ListsCommonDate(Parsed(text).value)
  {
    var s := Parsed(text).value;
    if m, d :| 1 <= m <= 12 && 1 <= d <= MonthLength(m, false) && Allows(s.month, 1, m) && Allows(s.day, 1, d) {
      forall now, r | IsNextRun(text, now, r) ensures r.Some? {
        SearchSucceeds(text, now, r, m, d);
      }
    } else {
      NoCommonDateNoRun(text);
      var never: Option<int> := None;
      assert IsNextRun(text, 1440 * DayNumber(2025, 3, 1), never) && !never.Some?;
    }
  }

  ghost predicate FiresWithinAYear(s: Schedule, first: int) {
    exists day | first <= day < first + 366 :: DateFires(s, day)
  }

  lemma FiringRepeats(s: Schedule, first: int)
    ensures FiresWithinAYear(s, first) <==> FiresWithinAYear(s, first + CYCLE)
  {
    hide MonthOf, DayOfMonth, Weekday;
    if day :| first <= day < first + 366 && DateFires(s, day) {
      DateRepeats(day);
      assert DateFires(s, day + CYCLE);
    }
    if day :| first + CYCLE <= day < first + CYCLE + 366 && DateFires(s, day) {
      DateRepeats(day - CYCLE);
      assert DateFires(s, day - CYCLE);
    }
  }

  lemma {:induction false} FiringRepeatsOften(s: Schedule, first: int, n: nat)
    ensures FiresWithinAYear(s, first) <==> FiresWithinAYear(s, first + n * CYCLE)
  {
    hide FiresWithinAYear;
    if n > 0 {
      FiringRepeatsOften(s, first, n - 1);
      FiringRepeats(s, first + (n - 1) * CYCLE);
      assert first + (n - 1) * CYCLE + CYCLE == first + n * CYCLE;
    }
  }

  /** What holds on every day of one cycle of the calendar holds on every day. */
  lemma OneCycleIsEnough(s: Schedule, first: int)
    requires forall f | 0 <= f < CYCLE :: FiresWithinAYear(s, f)
    ensures FiresWithinAYear(s, first)
  {
    hide FiresWithinAYear;
    var f, cycles := first % CYCLE, first / CYCLE;
    assert FiresWithinAYear(s, f);
    if cycles >= 0 {
      FiringRepeatsOften(s, f, cycles);
    } else {
      FiringRepeatsOften(s, first, -cycles);
    }
  }

  lemma SilentYear(text: string, first: int)
    requires Parsed(text).Some? && !FiresWithinAYear(Parsed(text).value, first)
    ensures IsNextRun(text, 1440 * first - 1, None)
  {
    hide Parsed, DateFires;
    var s := Parsed(text).value;
    var now := 1440 * first - 1;
    forall t | now < t < now + HORIZON + 1 ensures !Fires(s, t) {
      assert first <= DayAt(t) < first + 366;
    }
  }

  lemma FoundIfSomeDay(text: string, now: int, r: Option<int>)
    requires IsNextRun(text, now, r) && Parsed(text).Some?
    requires forall first :: FiresWithinAYear(Parsed(text).value, first)
    ensures r.Some?
  {
    hide DateFires;
    var s := Parsed(text).value;
    ParsedIsBounded(text);
    var minute := SomethingSelected(s.minute, 0, 59);
    var hour := SomethingSelected(s.hour, 0, 23);
    var first := FirstDayAhead(now, hour, minute);
    assert FiresWithinAYear(s, first);
    var day :| first <= day < first + 366 && DateFires(s, day);
    MinuteOfDay(day, hour, minute);
    assert Fires(s, 1440 * day + 60 * hour + minute);
  }

  /** For any schedule whatever, the search succeeds whenever it is asked exactly when some date fires in the 366
      days from each of the 146097 days of one calendar cycle. */
  lemma AlwaysFoundIffOverOneCycle(text: string)
    requires Parsed(text).Some?
    ensures (forall now, r | IsNextRun(text, now, r) :: r.Some?) <==>
              forall first | 0 <= first < CYCLE :: FiresWithinAYear(Parsed(text).value, first)
  {
    var s := Parsed(text).value;
    hide FiresWithinAYear, IsNextRun, Parsed;
    if forall first | 0 <= first < CYCLE :: FiresWithinAYear(s, first) {
      forall first ensures FiresWithinAYear(s, first) {
        OneCycleIsEnough(s, first);
      }
      forall now, r | IsNextRun(text, now, r) ensures r.Some? {
        FoundIfSomeDay(text, now, r);
      }
    } else {
      var first :| 0 <= first < CYCLE && !FiresWithinAYear(s, first);
      SilentYear(text, first);
      var never: Option<int> := None;
      assert IsNextRun(text, 1440 * first - 1, never) && !never.Some?;
    }
  }

  /** From 14 July 2001 on there is no Friday the 13th for more than a year. */
  lemma NoFridayThe13th(day: int)
    requires DayNumber(2001, 7, 14) <= day <= DayNumber(2001, 7, 14) + 366
    ensures !(DayOfMonth(day) == 13 && Weekday(day) == 5)
  {
    DayRoundTrip(day);
    if day < YearStart(2002) {
      YearWithin(day, 2001);
    } else {
      YearWithin(day, 2002);
    }
    hide YearOf, MonthOf, DayOfMonth;
    var m := MonthOf(day);
    if DayOfMonth(day) == 13 {
      ThirteenthsOf2001(m);
      ThirteenthsOf2002(m);
    }
  }

  lemma ThirteenthsOf2001(m: int)
    requires 1 <= m <= 12
    ensures Weekday(DayNumber(2001, m, 13)) == 5 ==> m == 4 || m == 7
    ensures DayNumber(2001, m, 13) >= DayNumber(2001, 7, 14) ==> m >= 8
  {
  }

  lemma ThirteenthsOf2002(m: int)
    requires 1 <= m <= 12
    ensures Weekday(DayNumber(2002, m, 13)) == 5 ==> m == 9 || m == 12
    ensures DayNumber(2002, m, 13) <= DayNumber(2001, 7, 14) + 366 ==> m <= 7
  {
  }

  /** With a day of the month and a weekday, both of which must match, the search may fail: a schedule for
      Friday the 13th finds nothing when asked on 14 July 2001. */
  lemma FridayThe13thIsMissed(text: string)
    requires Parsed(text).Some?
    requires Parsed(text).value.day == Exactly(13) && Parsed(text).value.weekday == Exactly(5)
    ensures IsNextRun(text, 1440 * DayNumber(2001, 7, 14), None)
  {
    hide Parsed, DayOfMonth, MonthOf, Weekday;
    var s := Parsed(text).value;
    var now := 1440 * DayNumber(2001, 7, 14);
    forall t | now < t < now + HORIZON + 1 ensures !Fires(s, t) {
      NoFridayThe13th(DayAt(t));
    }
  }

  /** The two texts meant above: "0 0 1 3 *" and "0 0 29 2 *". */
  lemma MidnightTexts()
    ensures var text := MidnightOn("1", "3");
            Parsed(text).Some? && AtMidnightOn(Parsed(text).value, 3, 1)
    ensures var text := MidnightOn("29", "2");
            Parsed(text).Some? && AtMidnightOn(Parsed(text).value, 2, 29)
  {
    assert "1" == Digit(1) && "2" == Digit(2) && "3" == Digit(3);
    MeaningOfDigit(1, 1, 31);
    MeaningOfDigit(3, 1, 12);
    ParsedMidnight("1", "3");
    MeaningOfTwentyNine();
    MeaningOfDigit(2, 1, 12);
    ParsedMidnight("29", "2");
  }

  // ---- CalculateNextRun

  const MINUTE_NS: int := 60_000_000_000
  const HOUR_NS: int := 60 * MINUTE_NS
  const DAY_NS: int := 24 * HOUR_NS

  /** time.AddDate(0, 1, 0): the month advances and an overlong day spills into the next one. */
  function DayMonthLater(day: int): int {
    var y, m := YearOf(day), MonthOf(day);
    if m == 12 then DayNumber(y + 1, 1, DayOfMonth(day)) else DayNumber(y, m + 1, DayOfMonth(day))
  }

  function MonthLater(now: int): int {
    DayMonthLater(now / DAY_NS) * DAY_NS + now % DAY_NS
  }

  lemma MonthsDiffer(y: int, m: int, d: int)
    requires 1 <= m <= 12
    ensures m < 12 ==> 28 <= DayNumber(y, m + 1, d) - DayNumber(y, m, d) <= 31
    ensures DayNumber(y + 1, 1, d) - DayNumber(y, 12, d) == 31
  {
    NextYearStart(y);
  }

  lemma MonthLaterIsLater(now: int)
    ensures now + 28 * DAY_NS <= MonthLater(now) <= now + 31 * DAY_NS
  {
    var day := now / DAY_NS;
    DayRoundTrip(day);
    MonthsDiffer(YearOf(day), MonthOf(day), DayOfMonth(day));
    SpanOfDays(now, DayMonthLater(day));
  }

  lemma SpanOfDays(now: int, target: int)
    requires now / DAY_NS + 28 <= target <= now / DAY_NS + 31
    ensures now + 28 * DAY_NS <= target * DAY_NS + now % DAY_NS <= now + 31 * DAY_NS
  {
  }

  /** A month later is the same day of the next month when that month has it; otherwise the days too many
      run on into the month after. The time of day stays. */
  lemma SameDayNextMonth(now: int)
    ensures var day, later := now / 86_400_000_000_000, MonthLater(now) / 86_400_000_000_000;
            var y := if MonthOf(day) == 12 then YearOf(day) + 1 else YearOf(day);
            var m := if MonthOf(day) == 12 then 1 else MonthOf(day) + 1;
            var length := MonthLength(m, Leap(y));
            && MonthLater(now) % 86_400_000_000_000 == now % 86_400_000_000_000
            && YearOf(later) == y
            && (DayOfMonth(day) <= length ==> MonthOf(later) == m && DayOfMonth(later) == DayOfMonth(day))
            && (DayOfMonth(day) > length ==> MonthOf(later) == m + 1 && DayOfMonth(later) == DayOfMonth(day) - length)
  {
    LaterDay(now);
    DateMonthLater(now / 86_400_000_000_000);
    hide YearOf, MonthOf, DayOfMonth, DayMonthLater, Leap, MonthLater, MonthLength;
  }

  lemma LaterDay(now: int)
    ensures MonthLater(now) / 86_400_000_000_000 == DayMonthLater(now / 86_400_000_000_000)
    ensures MonthLater(now) % 86_400_000_000_000 == now % 86_400_000_000_000
  {
    hide DayMonthLater;
    assert DAY_NS == 86_400_000_000_000;
  }

  lemma DateMonthLater(day: int)
    ensures var later := DayMonthLater(day);
            var y := if MonthOf(day) == 12 then YearOf(day) + 1 else YearOf(day);
            var m := if MonthOf(day) == 12 then 1 else MonthOf(day) + 1;
            var length := MonthLength(m, Leap(y));
            && YearOf(later) == y
            && (DayOfMonth(day) <= length ==> MonthOf(later) == m && DayOfMonth(later) == DayOfMonth(day))
            && (DayOfMonth(day) > length ==> MonthOf(later) == m + 1 && DayOfMonth(later) == DayOfMonth(day) - length)
  {
    DayWithinMonth(day);
    var d := DayOfMonth(day);
    var y := if MonthOf(day) == 12 then YearOf(day) + 1 else YearOf(day);
    var m := if MonthOf(day) == 12 then 1 else MonthOf(day) + 1;
    hide YearOf, MonthOf, DayOfMonth, Leap;
    if d <= MonthLength(m, Leap(y)) {
      DateRoundTrip(y, m, d);
    } else {
      DateSpills(y, m, d);
      DateRoundTrip(y, m + 1, d - MonthLength(m, Leap(y)));
    }
  }

  /** A month too short for day d is never December, and the next one has room for the rest. */
  lemma DateSpills(y: int, m: int, d: int)
    requires 1 <= m <= 12 && MonthLength(m, Leap(y)) < d <= 31
    ensures m < 12 && 1 <= d - MonthLength(m, Leap(y)) <= MonthLength(m + 1, Leap(y))
    ensures DayNumber(y, m, d) == DayNumber(y, m + 1, d - MonthLength(m, Leap(y)))
  {
    hide Leap, YearStart;
  }

  predicate Named(schedule: string) {
    schedule in {"@hourly", "@daily", "@weekly", "@monthly"}
  }

  /** The next run for a schedule that is neither empty, a name nor a duration. */
  ghost predicate CronOrDaily(schedule: string, now: int, next: int) {
    || (exists t :: IsNextRun(schedule, now / 60_000_000_000, Some(t)) && next == t * 60_000_000_000)
    || (IsNextRun(schedule, now / 60_000_000_000, None) && next == now + 86_400_000_000_000)
  }

  /** `duration` is time.ParseDuration of the schedule, None when that fails. */
  method CalculateNextRun(schedule: string, duration: Option<int>, now: int) returns (r: Option<int>)
    ensures r.None? <==> schedule == ""
    ensures r.Some? && !Named(schedule) && duration.Some? ==> r.value == now + duration.value
    ensures r.Some? && !Named(schedule) && duration.None? ==> CronOrDaily(schedule, now, r.value)
    ensures schedule == "@hourly" ==> r == Some(now + 3_600_000_000_000)
    ensures schedule == "@daily" ==> r == Some(now + 86_400_000_000_000)
    ensures schedule == "@weekly" ==> r == Some(now + 604_800_000_000_000)
    ensures schedule == "@monthly" ==> r == Some(MonthLater(now))
    ensures r.Some? ==> (r.value > now <==> (Named(schedule) || duration.None? || duration.value > 0))
  {
    if schedule == "" {
      return None;
    }
    if schedule == "@hourly" {
      return Some(now + HOUR_NS);
    } else if schedule == "@daily" {
      return Some(now + DAY_NS);
    } else if schedule == "@weekly" {
      return Some(now + 7 * DAY_NS);
    } else if schedule == "@monthly" {
      MonthLaterIsLater(now);
      return Some(MonthLater(now));
    }
    if duration.Some? {
      return Some(now + duration.value);
    }
    var cron := ParseCronSchedule(schedule, now / MINUTE_NS);
    if cron.Some? {
      NextMinuteIsLater(now, cron.value);
      return Some(cron.value * MINUTE_NS);
    }
    return Some(now + DAY_NS);
  }

  lemma NextMinuteIsLater(now: int, t: int)
    requires t > now / MINUTE_NS
    ensures t * MINUTE_NS > now
  {
  }
}

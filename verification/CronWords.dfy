/** Schedules as they are written: what each of the five words of a line restricts. */
module CronWords {
  import opened Prelude
  import opened Calendar
  import opened CronField
  import opened Cron

  // "*", "*/n" and "n".
  datatype Entry = Star | Step(n: nat) | Number(n: nat)

  function Decimals(n: nat): string {
    (if n < 10 then "" else Decimals(n / 10)) + ["0123456789"[n % 10]]
  }

  function Spelling(e: Entry): string {
    match e
    case Star => "*"
    case Step(n) => "*/" + Decimals(n)
    case Number(n) => Decimals(n)
  }

  /** Steps are positive 64-bit integers, numbers lie in the field's range. */
  predicate Usable(e: Entry, min: int, max: int) {
    match e
    case Star => true
    case Step(n) => 0 < n <= 9_223_372_036_854_775_807
    case Number(n) => min <= n <= max
  }

  /** A step counts from the least value of the field. */
  predicate Holds(e: Entry, min: int, v: int) {
    match e
    case Star => true
    case Step(n) => n > 0 && (v - min) % n == 0
    case Number(n) => v == n
  }

  lemma DigitOf(n: nat)
    ensures var c := "0123456789"[n % 10];
            '0' <= c <= '9' && c as int - '0' as int == n % 10
  {
  }

  lemma ReadsOneMore(rest: string, c: char)
    requires AllDigits(rest) && '0' <= c <= '9'
    ensures AllDigits(rest + [c]) && Decimal(rest + [c]) == 10 * Decimal(rest) + (c as int - '0' as int)
  {
    assert (rest + [c])[..|rest|] == rest;
  }

  lemma {:induction false} DecimalsRead(n: nat)
    ensures Decimals(n) != "" && AllDigits(Decimals(n)) && Decimal(Decimals(n)) == n
  {
    DigitOf(n);
    var c := "0123456789"[n % 10];
    if n < 10 {
      assert Decimal("") == 0;
      ReadsOneMore("", c);
    } else {
      DecimalsRead(n / 10);
      ReadsOneMore(Decimals(n / 10), c);
    }
    hide Decimal, AllDigits;
  }

  lemma AtoiReads(n: nat)
    ensures Atoi(Decimals(n)) == if n <= 9_223_372_036_854_775_807 then Some(n) else None
  {
    DecimalsRead(n);
    var s := Decimals(n);
    hide Decimals, Decimal;
    assert '0' <= s[0] <= '9';
  }

  lemma StepText(t: string, min: int, max: int)
    requires t != ""
    ensures Meaning("*/" + t, min, max) ==
              match Atoi(t) case Some(n) => (if n > 0 then Every(n) else Unusable) case None => Unusable
  {
    hide Atoi;
    var s := "*/" + t;
    assert |s| >= 3 && s[..2] == "*/" && s[2..] == t;
  }

  lemma NumberText(t: string, min: int, max: int)
    requires t != "" && '0' <= t[0] <= '9'
    ensures Meaning(t, min, max) ==
              match Atoi(t) case Some(n) => (if min <= n <= max then Exactly(n) else Unusable) case None => Unusable
  {
    hide Atoi;
    assert t[0] != '*';
    if |t| >= 2 { assert t[..2][0] == t[0]; }
  }

  lemma EntryMeans(e: Entry, min: int, max: int)
    requires 0 <= min <= max <= 59
    ensures Meaning(Spelling(e), min, max) ==
              if !Usable(e, min, max) then Unusable
              else match e case Star => Any case Step(n) => Every(n) case Number(n) => Exactly(n)
  {
    if !e.Star? {
      var t := Decimals(e.n);
      AtoiReads(e.n);
      DecimalsRead(e.n);
      hide Decimals, Decimal, Atoi, Meaning;
      if e.Step? { StepText(t, min, max); } else { NumberText(t, min, max); }
    }
  }

  lemma SignedText(t: string)
    requires t != "" && AllDigits(t) && Decimal(t) < INT64_LIMIT
    ensures Atoi("+" + t) == Some(Decimal(t)) && Atoi("-" + t) == Some(0 - Decimal(t))
  {
    hide Decimal;
    assert ("+" + t)[1..] == t && ("-" + t)[1..] == t;
  }

  /** A sign is read. */
  lemma AtoiSigns(n: nat)
    requires n <= 9_223_372_036_854_775_807
    ensures Atoi("+" + Decimals(n)) == Some(n) && Atoi("-" + Decimals(n)) == Some(0 - n)
  {
    DecimalsRead(n);
    SignedText(Decimals(n));
    hide Decimals, Decimal, Atoi;
  }

  /** A text with anything but digits after the sign is refused. */
  lemma AtoiRefuses(s: string, i: nat)
    requires i < |s| && !('0' <= s[i] <= '9') && (i > 0 || s[0] !in {'+', '-'})
    ensures Atoi(s).None?
  {
    hide Decimal;
    if s[0] in {'+', '-'} {
      assert s[1..][i - 1] == s[i];
    }
  }

  /** The white space of ASCII, and no other ASCII character, separates words; more of it changes nothing. */
  lemma SpacesSeparate(c: char, s: string)
    requires c as int < 128
    ensures IsSpace(c) <==> c == ' ' || 9 <= c as int <= 13
    ensures IsSpace(c) ==> Fields([c] + s) == Fields(s)
  {
    assert ([c] + s)[1..] == s;
  }

  /** Selected and held are the same; an unusable day, month or weekday restricts nothing. */
  lemma EntryHolds(e: Entry, min: int, max: int, v: int)
    requires 0 <= min <= max <= 59
    ensures var f := Meaning(Spelling(e), min, max);
            && (f.Unusable? <==> !Usable(e, min, max))
            && (Selects(f, min, v) <==> Usable(e, min, max) && Holds(e, min, v))
            && (Allows(f, min, v) <==> !Usable(e, min, max) || Holds(e, min, v))
  {
    EntryMeans(e, min, max);
    hide Spelling, Meaning;
  }

  lemma DigitsAreNoSpace(s: string)
    requires AllDigits(s)
    ensures forall i | 0 <= i < |s| :: !IsSpace(s[i])
  {
    forall i | 0 <= i < |s| ensures !IsSpace(s[i]) {
      DigitIsNoSpace(s[i]);
    }
  }

  lemma DigitIsNoSpace(c: char)
    requires '0' <= c <= '9' || c == '*' || c == '/'
    ensures !IsSpace(c)
  {
  }

  lemma SpellingIsWord(e: Entry)
    ensures Word(Spelling(e))
  {
    DigitIsNoSpace('*');
    DigitIsNoSpace('/');
    if e.Star? { return; }
    DecimalsRead(e.n);
    DigitsAreNoSpace(Decimals(e.n));
    hide IsSpace, Decimals, Decimal;
  }

  function Line(m: Entry, h: Entry, d: Entry, mo: Entry, w: Entry): string {
    Joined([Spelling(m), Spelling(h), Spelling(d), Spelling(mo), Spelling(w)])
  }

  lemma LineParses(m: Entry, h: Entry, d: Entry, mo: Entry, w: Entry)
    ensures Fields(Line(m, h, d, mo, w)) == [Spelling(m), Spelling(h), Spelling(d), Spelling(mo), Spelling(w)]
  {
    SpellingIsWord(m);
    SpellingIsWord(h);
    SpellingIsWord(d);
    SpellingIsWord(mo);
    SpellingIsWord(w);
    hide Spelling, Joined, Fields;
    FieldsOfJoined([Spelling(m), Spelling(h), Spelling(d), Spelling(mo), Spelling(w)]);
  }

  /** A line "minute hour day month weekday" is a schedule exactly when its minute and hour are usable, and it fires at
      the minutes at which all usable words hold of minute, hour, day of the month, month and weekday. */
  lemma LineMeans(m: Entry, h: Entry, d: Entry, mo: Entry, w: Entry, t: int)
    ensures var s := Parsed(Line(m, h, d, mo, w));
            && (s.Some? <==> Usable(m, 0, 59) && Usable(h, 0, 23))
            && (s.Some? ==>
                  (Fires(s.value, t) <==>
                     && Holds(m, 0, t % 60)
                     && Holds(h, 0, t % 1440 / 60)
                     && (Usable(d, 1, 31) ==> Holds(d, 1, DayOfMonth(t / 1440)))
                     && (Usable(mo, 1, 12) ==> Holds(mo, 1, MonthOf(t / 1440)))
                     && (Usable(w, 0, 6) ==> Holds(w, 0, Weekday(t / 1440)))))
  {
    LineParses(m, h, d, mo, w);
    EntryHolds(m, 0, 59, t % 60);
    EntryHolds(h, 0, 23, t % 1440 / 60);
    EntryHolds(d, 1, 31, DayOfMonth(t / 1440));
    EntryHolds(mo, 1, 12, MonthOf(t / 1440));
    EntryHolds(w, 0, 6, Weekday(t / 1440));
    hide Line, Spelling, Meaning, Usable, Holds, DayOfMonth, MonthOf, Weekday, Selects;
  }

  /** Fewer or more than five words are no schedule. */
  lemma OnlyFiveWords(words: seq<string>)
    requires words != [] && |words| != 5 && forall i | 0 <= i < |words| :: Word(words[i])
    ensures Parsed(Joined(words)).None?
  {
    FieldsOfJoined(words);
  }
}

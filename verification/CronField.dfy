/**
 Parsing of a cron schedule: splitting into fields, integers, and parseCronField. `Meaning`
 says what a field stands for; the parser's value lists are proved to agree with it.
 */
module CronField {
  import opened Prelude

  const INT64_LIMIT: int := 0x8000_0000_0000_0000

  // ---- strings.Fields and strconv.Atoi

  predicate IsSpace(c: char) {
    || c in {'\t', '\n', '\U{000B}', '\U{000C}', '\r', ' ', '\U{0085}', '\U{00A0}', '\U{1680}'}
    || '\U{2000}' <= c <= '\U{200A}'
    || c in {'\U{2028}', '\U{2029}', '\U{202F}', '\U{205F}', '\U{3000}'}
  }

  function WordLength(s: string): (n: nat)
    ensures n <= |s|
    ensures s != [] && !IsSpace(s[0]) ==> n > 0
  {
    if s == [] || IsSpace(s[0]) then 0 else 1 + WordLength(s[1..])
  }

  /** The maximal runs of non-space characters, in order. */
  function Fields(s: string): seq<string> {
    if s == [] then []
    else if IsSpace(s[0]) then Fields(s[1..])
    else [s[..WordLength(s)]] + Fields(s[WordLength(s)..])
  }

  predicate AllDigits(s: string) {
    forall i | 0 <= i < |s| :: '0' <= s[i] <= '9'
  }

  function Decimal(s: string): nat
    requires AllDigits(s)
  {
    if s == [] then 0 else 10 * Decimal(s[..|s| - 1]) + (s[|s| - 1] as int - '0' as int)
  }

  /** A decimal integer with an optional sign that fits 64 bits; anything else is an error. */
  function Atoi(s: string): Option<int> {
    var negative := s != [] && s[0] == '-';
    var digits := if s != [] && s[0] in {'+', '-'} then s[1..] else s;
    if digits == [] || !AllDigits(digits) then None
    else
      var magnitude: int := Decimal(digits);
      var v := if negative then -magnitude else magnitude;
      if -INT64_LIMIT <= v < INT64_LIMIT then Some(v) else None
  }

  // ---- what a field means

  datatype Field = Any | Every(step: int) | Exactly(value: int) | Unusable

  function Meaning(field: string, min: int, max: int): Field {
    if field == "*" then Any
    else if |field| >= 2 && field[..2] == "*/" then
      match Atoi(field[2..])
      case Some(step) => if step > 0 then Every(step) else Unusable
      case None => Unusable
    else
      match Atoi(field)
      case Some(v) => if min <= v <= max then Exactly(v) else Unusable
      case None => Unusable
  }

  /** Does the field select the in-range value v? An unusable field selects nothing. */
  predicate Selects(f: Field, min: int, v: int) {
    match f
    case Any => true
    case Every(step) => step > 0 && (v - min) % step == 0
    case Exactly(u) => v == u
    case Unusable => false
  }

  // ---- what the parser returns

  function Range(min: int, max: int): seq<int>
    requires min <= max + 1
    decreases max - min
  {
    if min > max then [] else [min] + Range(min + 1, max)
  }

  function Stepped(i: int, step: int, max: int): seq<int>
    requires step > 0
    decreases max - i
  {
    if i > max then [] else [i] + Stepped(i + step, step, max)
  }

  /** Does min + step leave the 64-bit range? With a minimum of 0 it never does. */
  predicate Wraps(min: int, step: int) {
    min + step >= INT64_LIMIT
  }

  function FieldValues(f: Field, min: int, max: int): Option<seq<int>>
    requires min <= max + 1
  {
    match f
    case Any => Some(Range(min, max))
    case Every(step) =>
      if step <= 0 then None
      else if Wraps(min, step)
      then Some([min, min + step - 2 * INT64_LIMIT, min + 2 * step - 2 * INT64_LIMIT])
      else Some(Stepped(min, step, max))
    case Exactly(v) => Some([v])
    case Unusable => None
  }

  function Wrap64(x: int): int {
    if x >= INT64_LIMIT then x - 2 * INT64_LIMIT else x
  }

  // parseCronField is only called with the five ranges 0-59, 0-23, 1-31, 1-12 and 0-6.
  predicate CronRange(min: int, max: int) {
    0 <= min <= 1 && min < max <= 59
  }

  method ParseCronField(field: string, min: int, max: int) returns (r: Option<seq<int>>)
    requires CronRange(min, max)
    ensures r == FieldValues(Meaning(field, min, max), min, max)
  {
    if field == "*" {
      var all: seq<int> := [];
      var i := min;
      while i <= max
        invariant min <= i <= max + 1
        invariant all + Range(i, max) == Range(min, max)
      {
        all := all + [i];
        i := i + 1;
      }
      assert all + Range(i, max) == all;
      return Some(all);
    }
    if |field| >= 2 && field[..2] == "*/" {
      var parsed := Atoi(field[2..]);
      if parsed.None? || parsed.value <= 0 {
        return None;
      }
      AtoiFits(field[2..]);
      var result := ParseEvery(parsed.value, min, max);
      return Some(result);
    }
    var parsed := Atoi(field);
    if parsed.None? {
      return None;
    }
    if parsed.value < min || parsed.value > max {
      return None;
    }
    return Some([parsed.value]);
  }

  lemma AtoiFits(s: string)
    ensures Atoi(s).Some? ==> -INT64_LIMIT <= Atoi(s).value < INT64_LIMIT
  {
  }

  /** Loop states of ParseEvery without and with wrap-around. */
  predicate Ascending(min: int, step: int, max: int, i: int, done: seq<int>) {
    && step > 0
    && (i == min || i >= min + step)
    && done + Stepped(i, step, max) == Stepped(min, step, max)
  }

  predicate Wrapping(i: int, done: seq<int>) {
    || (i == 1 && done == [])
    || (i == -INT64_LIMIT && done == [1])
    || (i == -1 && done == [1, -INT64_LIMIT])
    || (i == INT64_LIMIT - 2 && done == [1, -INT64_LIMIT, -1])
  }

  lemma AscendingStep(min: int, step: int, max: int, i: int, done: seq<int>)
    requires CronRange(min, max) && !Wraps(min, step) && i <= max
    requires Ascending(min, step, max, i, done)
    ensures Wrap64(i + step) == i + step && Ascending(min, step, max, i + step, done + [i])
  {
    SnocCons(done, i, Stepped(i + step, step, max));
  }

  /** The stepping loop on 64-bit integers. */
  method ParseEvery(step: int, min: int, max: int) returns (result: seq<int>)
    requires CronRange(min, max) && 0 < step < INT64_LIMIT
    ensures Some(result) == FieldValues(Every(step), min, max)
  {
    result := [];
    var i := min;
    ghost var wraps := Wraps(min, step);
    while i <= max
      invariant !wraps ==> Ascending(min, step, max, i, result)
      invariant wraps ==> step == INT64_LIMIT - 1 && Wrapping(i, result)
      decreases if i == -INT64_LIMIT then 2 else if i < 0 then 1 else if i <= max then 3 + max - i else 0
    {
      if !wraps {
        AscendingStep(min, step, max, i, result);
      }
      result := result + [i];
      i := Wrap64(i + step);
    }
    assert !wraps ==> result + Stepped(i, step, max) == result;
  }

  // ---- the lists select what the field means

  lemma {:induction false} InRange(min: int, max: int, v: int)
    requires min <= max + 1
    ensures v in Range(min, max) <==> min <= v <= max
    decreases max - min
  {
    if min <= max {
      InRange(min + 1, max, v);
    }
  }

  lemma {:induction false} MultiplesAreSpaced(n: int, a: int, b: int)
    requires n > 0 && a < b
    ensures n * a + n <= n * b
    decreases b - a
  {
    assert n * b == n * (b - 1) + n;
    if a < b - 1 {
      MultiplesAreSpaced(n, a, b - 1);
    }
  }

  lemma QuotientIsUnique(n: int, q: int, r: int, x: int)
    requires n > 0 && 0 <= r < n && x == n * q + r
    ensures x % n == r
  {
    var p, m := x / n, x % n;
    assert x == n * p + m;
    if p < q {
      MultiplesAreSpaced(n, p, q);
    } else if q < p {
      MultiplesAreSpaced(n, q, p);
    }
  }

  lemma RemainderShifts(x: int, n: int)
    requires n > 0
    ensures (x - n) % n == x % n
  {
    assert x - n == n * (x / n - 1) + x % n;
    QuotientIsUnique(n, x / n - 1, x % n, x - n);
  }

  lemma {:induction false} InStepped(i: int, step: int, max: int, v: int)
    requires step > 0
    ensures v in Stepped(i, step, max) <==> i <= v <= max && (v - i) % step == 0
    decreases max - i
  {
    if i <= max {
      InStepped(i + step, step, max, v);
      RemainderShifts(v - i, step);
      assert v - (i + step) == (v - i) - step;
    }
  }

  /** For an in-range value, being listed and being selected are the same, wrap-around included. */
  lemma ListedIffSelected(f: Field, min: int, max: int, v: int)
    requires CronRange(min, max) && min <= v <= max
    requires f.Every? ==> 0 < f.step < INT64_LIMIT
    requires f.Exactly? ==> min <= f.value <= max
    requires FieldValues(f, min, max).Some?
    ensures v in FieldValues(f, min, max).value <==> Selects(f, min, v)
  {
    match f
    case Any => InRange(min, max, v);
    case Every(step) =>
      if Wraps(min, step) {
        assert min == 1 && step == INT64_LIMIT - 1;
        assert 0 <= v - min < step;
      } else {
        InStepped(min, step, max, v);
      }
    case _ =>
  }

  /** A list holds out-of-range values exactly when its step wraps around: "every n" with the
      largest 64-bit n on a range that starts at 1. */
  lemma ListInRangeIffNoWrap(f: Field, min: int, max: int)
    requires CronRange(min, max)
    requires f.Every? ==> 0 < f.step < INT64_LIMIT
    requires f.Exactly? ==> min <= f.value <= max
    requires FieldValues(f, min, max).Some?
    ensures (forall v | v in FieldValues(f, min, max).value :: min <= v <= max)
            <==> !(f.Every? && Wraps(min, f.step))
  {
    forall v | v in FieldValues(f, min, max).value && !(f.Every? && Wraps(min, f.step))
      ensures min <= v <= max
    {
      match f
      case Any => InRange(min, max, v);
      case Every(step) => InStepped(min, step, max, v);
      case _ =>
    }
    if f.Every? && Wraps(min, f.step) {
      var values := FieldValues(f, min, max).value;
      assert values[1] in values && values[1] < 0;
    }
  }

  /** Every meaning a parsed field can have meets the side conditions above. */
  lemma MeaningIsBounded(field: string, min: int, max: int)
    ensures var f := Meaning(field, min, max);
            (f.Every? ==> 0 < f.step < INT64_LIMIT) && (f.Exactly? ==> min <= f.value <= max)
  {
  }
}

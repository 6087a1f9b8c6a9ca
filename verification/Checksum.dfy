/**
 The Luhn checksum behind card numbers (Annex B of ISO/IEC 7812-1), kept in two identical copies by
 the source, and the weighted checksum of routing numbers.
 */
module Checksum {

  predicate IsDigit(c: char) {
    '0' <= c <= '9'
  }

  predicate IsNumber(d: string) {
    forall i | 0 <= i < |d| :: IsDigit(d[i])
  }

  function Value(c: char): int {
    c as int - '0' as int
  }

  /** Annex B: double the digit and add the digits of the product. */
  function Term(c: char, alt: bool): int {
    if alt then 2 * Value(c) / 10 + 2 * Value(c) % 10 else Value(c)
  }

  /** From the right, every second digit is doubled. */
  function Sum(d: string, alt: bool): int {
    if d == "" then 0 else Term(d[|d| - 1], alt) + Sum(d[..|d| - 1], !alt)
  }

  predicate Luhn(d: string) {
    Sum(d, false) % 10 == 0
  }

  method LuhnCheck(digits: string) returns (ok: bool)
    requires IsNumber(digits)
    ensures ok == Luhn(digits)
  {
    var sum := 0;
    var alt := false;
    var i := |digits| - 1;
    assert digits[..|digits|] == digits;
    while i >= 0
      invariant -1 <= i < |digits|
      invariant sum + Sum(digits[..i + 1], alt) == Sum(digits, false)
    {
      assert digits[..i + 1][..i] == digits[..i];
      assert IsDigit(digits[i]);
      var n := digits[i] as int - '0' as int;
      if alt {
        n := n * 2;
        if n > 9 {
          n := n - 9;
        }
      }
      sum := sum + n;
      alt := !alt;
      i := i - 1;
    }
    ok := sum % 10 == 0;
  }

  // ---- errors

  /** Whether the digit at i is one of the doubled ones. */
  predicate DoubledAt(d: string, i: nat, alt: bool)
    requires i < |d|
  {
    alt != ((|d| - 1 - i) % 2 == 1)
  }

  lemma {:induction false} SumAfterChange(d: string, i: nat, c: char, alt: bool)
    requires i < |d|
    ensures Sum(d[i := c], alt) == Sum(d, alt) - Term(d[i], DoubledAt(d, i, alt)) + Term(c, DoubledAt(d, i, alt))
  {
    var n := |d| - 1;
    if i == n {
      assert d[i := c][..n] == d[..n];
    } else {
      assert d[i := c][..n] == d[..n][i := c];
      SumAfterChange(d[..n], i, c, !alt);
    }
  }

  /** The contributions of two digits are congruent only when the digits are equal. */
  lemma TermsDiffer(a: char, b: char, alt: bool)
    requires IsDigit(a) && IsDigit(b)
    ensures (Term(a, alt) - Term(b, alt)) % 10 == 0 <==> a == b
  {
    assert alt ==> Term(a, alt) == 2 * Value(a) - (if Value(a) >= 5 then 9 else 0);
    assert alt ==> Term(b, alt) == 2 * Value(b) - (if Value(b) >= 5 then 9 else 0);
  }

  /** Every digit contributes every residue exactly once. */
  function DigitFor(residue: int, alt: bool): (c: char)
    requires 0 <= residue < 10
    ensures IsDigit(c) && Term(c, alt) % 10 == residue
  {
    var n := if !alt || residue == 9 then residue else if residue % 2 == 0 then residue / 2 else (residue + 9) / 2;
    ('0' as int + n) as char
  }

  lemma ModShift(sum: int, change: int)
    ensures sum % 10 == 0 ==> ((sum + change) % 10 == 0 <==> change % 10 == 0)
  {
  }

  /** Any single wrong digit of a number is detected. */
  lemma SingleErrorIsDetected(d: string, i: nat, c: char)
    requires IsNumber(d) && Luhn(d) && i < |d| && IsDigit(c)
    ensures Luhn(d[i := c]) <==> c == d[i]
  {
    hide Sum, Term, DoubledAt;
    SumAfterChange(d, i, c, false);
    var alt := DoubledAt(d, i, false);
    TermsDiffer(c, d[i], alt);
    ModShift(Sum(d, false), Term(c, alt) - Term(d[i], alt));
  }

  /** At any place of any number exactly one digit completes it, the check digit at the end included. */
  lemma ExactlyOneDigitFits(d: string, i: nat)
    requires IsNumber(d) && i < |d|
    ensures exists c :: IsDigit(c) && Luhn(d[i := c]) && forall x | IsDigit(x) && Luhn(d[i := x]) :: x == c
  {
    hide Sum, Term, DoubledAt;
    var alt := DoubledAt(d, i, false);
    var others := Sum(d, false) - Term(d[i], alt);
    var c := DigitFor((-others) % 10, alt);
    SumAfterChange(d, i, c, false);
    Complement(others, Term(c, alt));
    assert Luhn(d[i := c]);
    forall x | IsDigit(x) && Luhn(d[i := x]) ensures x == c {
      SumAfterChange(d, i, x, false);
      TermsDiffer(x, c, alt);
      ModShift(others + Term(c, alt), Term(x, alt) - Term(c, alt));
    }
  }

  lemma Complement(others: int, term: int)
    requires term % 10 == (-others) % 10
    ensures (others + term) % 10 == 0
  {
  }

  lemma CheckDigitIsUnique(prefix: string)
    requires IsNumber(prefix)
    ensures exists c :: IsDigit(c) && Luhn(prefix + [c]) && forall x | IsDigit(x) && Luhn(prefix + [x]) :: x == c
  {
    var d := prefix + ['0'];
    ExactlyOneDigitFits(d, |prefix|);
    forall x: char ensures d[|prefix| := x] == prefix + [x] {}
  }

  function Swapped(d: string, i: nat, j: nat): string
    requires i < |d| && j < |d|
  {
    d[i := d[j]][j := d[i]]
  }

  lemma SumAfterTwo(d: string, i: nat, j: nat, a: char, b: char)
    requires i < j < |d|
    ensures Sum(d[i := a][j := b], false) - Sum(d, false) ==
              Term(a, DoubledAt(d, i, false)) - Term(d[i], DoubledAt(d, i, false))
              + Term(b, DoubledAt(d, j, false)) - Term(d[j], DoubledAt(d, j, false))
  {
    SumAfterChange(d, i, a, false);
    SumAfterChange(d[i := a], j, b, false);
  }

  /** The residues of 2a - a over the digits are all different but for 0 and 9. */
  lemma CrossedTerms(a: char, b: char)
    requires IsDigit(a) && IsDigit(b)
    ensures (Term(b, true) - Term(a, true) + Term(a, false) - Term(b, false)) % 10 == 0 <==>
              a == b || (a == '0' && b == '9') || (a == '9' && b == '0')
  {
    assert Term(a, true) == 2 * Value(a) - (if Value(a) >= 5 then 9 else 0);
    assert Term(b, true) == 2 * Value(b) - (if Value(b) >= 5 then 9 else 0);
  }

  /** Swapping two neighbours is detected, except for equal digits and for 0 with 9. */
  lemma TranspositionIsDetected(d: string, i: nat)
    requires IsNumber(d) && Luhn(d) && i + 1 < |d|
    ensures Luhn(Swapped(d, i, i + 1)) <==>
              d[i] == d[i + 1] || (d[i] == '0' && d[i + 1] == '9') || (d[i] == '9' && d[i + 1] == '0')
  {
    hide Sum, Term;
    SumAfterTwo(d, i, i + 1, d[i + 1], d[i]);
    ModShift(Sum(d, false), Sum(Swapped(d, i, i + 1), false) - Sum(d, false));
    if DoubledAt(d, i, false) { CrossedTerms(d[i], d[i + 1]); } else { CrossedTerms(d[i + 1], d[i]); }
  }

  /** Swapping two digits with one between them is never detected. */
  lemma JumpIsNotDetected(d: string, i: nat)
    requires i + 2 < |d|
    ensures Luhn(Swapped(d, i, i + 2)) <==> Luhn(d)
  {
    SumAfterTwo(d, i, i + 2, d[i + 2], d[i]);
  }

  predicate Twins(a: char, b: char) {
    (a == '2' && b == '5') || (a == '3' && b == '6') || (a == '4' && b == '7')
  }

  lemma TwinTerms(a: char, b: char)
    requires IsDigit(a) && IsDigit(b)
    ensures (Term(b, true) - Term(a, true) + Term(b, false) - Term(a, false)) % 10 == 0 <==>
              a == b || Twins(a, b) || Twins(b, a)
  {
    assert Term(a, true) == 2 * Value(a) - (if Value(a) >= 5 then 9 else 0);
    assert Term(b, true) == 2 * Value(b) - (if Value(b) >= 5 then 9 else 0);
  }

  /** Writing bb for aa is detected, except for 22 and 55, 33 and 66, 44 and 77. */
  lemma TwinErrorIsDetected(d: string, i: nat, b: char)
    requires IsNumber(d) && Luhn(d) && i + 1 < |d| && d[i] == d[i + 1] && IsDigit(b)
    ensures Luhn(d[i := b][i + 1 := b]) <==> d[i] == b || Twins(d[i], b) || Twins(b, d[i])
  {
    hide Sum, Term;
    SumAfterTwo(d, i, i + 1, b, b);
    ModShift(Sum(d, false), Sum(d[i := b][i + 1 := b], false) - Sum(d, false));
    TwinTerms(d[i], b);
  }

  // ---- card numbers

  function Digits(s: string): (d: string)
    ensures IsNumber(d) && |d| <= |s|
  {
    if s == "" then ""
    else Digits(s[..|s| - 1]) + (if IsDigit(s[|s| - 1]) then [s[|s| - 1]] else "")
  }

  method ExtractDigits(s: string) returns (result: string)
    ensures result == Digits(s)
  {
    result := "";
    for i := 0 to |s|
      invariant result == Digits(s[..i])
    {
      assert s[..i + 1][..i] == s[..i];
      if '0' <= s[i] <= '9' {
        result := result + [s[i]];
      }
    }
    assert s[..|s|] == s;
  }

  predicate CreditCard(s: string) {
    13 <= |Digits(s)| <= 19 && Luhn(Digits(s))
  }

  method ValidateCreditCard(s: string) returns (ok: bool)
    ensures ok == CreditCard(s)
  {
    var digits := ExtractDigits(s);
    if |digits| < 13 || |digits| > 19 {
      return false;
    }
    ok := LuhnCheck(digits);
  }

  lemma {:induction false} DigitsOfConcat(s: string, t: string)
    ensures Digits(s + t) == Digits(s) + Digits(t)
  {
    if t == "" {
      assert s + t == s;
    } else {
      DigitsOfConcat(s, t[..|t| - 1]);
      assert (s + t)[..|s + t| - 1] == s + t[..|t| - 1];
    }
  }

  lemma {:induction false} DigitsOfNumber(d: string)
    requires IsNumber(d)
    ensures Digits(d) == d
  {
    if d != "" {
      DigitsOfNumber(d[..|d| - 1]);
    }
  }

  /** The digit at i of s is digit |Digits(s[..i])| of the number, and changes with it. */
  lemma DigitsAfterChange(s: string, i: nat, c: char)
    requires i < |s| && IsDigit(s[i]) && IsDigit(c)
    ensures var k := |Digits(s[..i])|;
            k < |Digits(s)| && Digits(s)[k] == s[i] && Digits(s[i := c]) == Digits(s)[k := c]
  {
    hide Digits;
    DigitsAround(s, i);
    DigitsAround(s[i := c], i);
    assert s[i := c][..i] == s[..i] && s[i := c][i + 1..] == s[i + 1..];
  }

  lemma DigitsAround(s: string, i: nat)
    requires i < |s| && IsDigit(s[i])
    ensures Digits(s) == Digits(s[..i]) + [s[i]] + Digits(s[i + 1..])
  {
    var before, after := s[..i], s[i + 1..];
    assert s == before + [s[i]] + after;
    DigitsOfConcat(before + [s[i]], after);
    DigitsOfConcat(before, [s[i]]);
    DigitsOfNumber([s[i]]);
  }

  /** Separators do not matter, and one mistyped digit anywhere makes a card number invalid. */
  lemma CardTypoIsDetected(s: string, i: nat, c: char)
    requires CreditCard(s) && i < |s| && IsDigit(s[i]) && IsDigit(c)
    ensures CreditCard(Digits(s))
    ensures CreditCard(s[i := c]) <==> c == s[i]
  {
    DigitsOfNumber(Digits(s));
    DigitsAfterChange(s, i, c);
    SingleErrorIsDetected(Digits(s), |Digits(s[..i])|, c);
  }

  lemma DigitsBetween(s: string, i: nat, j: nat)
    requires i < j < |s| && IsDigit(s[i]) && forall k | i < k < j :: !IsDigit(s[k])
    ensures |Digits(s[..j])| == |Digits(s[..i])| + 1
  {
    assert s[..j] == s[..i] + s[i..j] && s[i..j] == [s[i]] + s[i + 1..j];
    DigitsOfConcat(s[..i], s[i..j]);
    DigitsOfConcat([s[i]], s[i + 1..j]);
    DigitsOfNumber([s[i]]);
    NoDigits(s[i + 1..j]);
  }

  lemma {:induction false} NoDigits(s: string)
    requires forall k | 0 <= k < |s| :: !IsDigit(s[k])
    ensures Digits(s) == ""
  {
    if s != "" {
      NoDigits(s[..|s| - 1]);
    }
  }

  /** Two digits in a row, perhaps with separators between, swapped. */
  lemma CardTranspositionIsDetected(s: string, i: nat, j: nat)
    requires CreditCard(s) && i < j < |s| && IsDigit(s[i]) && IsDigit(s[j])
    requires forall k | i < k < j :: !IsDigit(s[k])
    ensures CreditCard(Swapped(s, i, j)) <==>
              s[i] == s[j] || (s[i] == '0' && s[j] == '9') || (s[i] == '9' && s[j] == '0')
  {
    var k := |Digits(s[..i])|;
    DigitsBetween(s, i, j);
    DigitsAfterChange(s, i, s[j]);
    var t := s[i := s[j]];
    DigitsBetween(t, i, j);
    assert t[..i] == s[..i];
    DigitsAfterChange(t, j, s[i]);
    DigitsAfterChange(s, j, s[j]);
    assert Digits(Swapped(s, i, j)) == Swapped(Digits(s), k, k + 1);
    TranspositionIsDetected(Digits(s), k);
  }

  // ---- routing numbers

  const WEIGHTS: seq<int> := [3, 7, 1, 3, 7, 1, 3, 7, 1]

  function WeightedSum(s: string): int
    requires |s| <= 9
  {
    if s == "" then 0 else WeightedSum(s[..|s| - 1]) + Value(s[|s| - 1]) * WEIGHTS[|s| - 1]
  }

  predicate RoutingNumber(s: string) {
    |s| == 9 && IsNumber(s) && WeightedSum(s) % 10 == 0
  }

  method ValidateRoutingNumber(s: string) returns (ok: bool)
    ensures ok == RoutingNumber(s)
  {
    if |s| != 9 {
      return false;
    }
    var weights := [3, 7, 1, 3, 7, 1, 3, 7, 1];
    var sum := 0;
    for i := 0 to |s|
      invariant IsNumber(s[..i])
      invariant sum == WeightedSum(s[..i])
    {
      assert s[..i + 1][..i] == s[..i];
      if s[i] < '0' || s[i] > '9' {
        assert !IsDigit(s[i]);
        return false;
      }
      sum := sum + (s[i] as int - '0' as int) * weights[i];
    }
    assert s[..|s|] == s;
    return sum % 10 == 0;
  }

  lemma {:induction false} WeightedAfterChange(s: string, i: nat, c: char)
    requires i < |s| <= 9
    ensures WeightedSum(s[i := c]) == WeightedSum(s) + (Value(c) - Value(s[i])) * WEIGHTS[i]
  {
    var n := |s| - 1;
    if i == n {
      assert s[i := c][..n] == s[..n];
    } else {
      assert s[i := c][..n] == s[..n][i := c];
      WeightedAfterChange(s[..n], i, c);
    }
  }

  /** Any single wrong digit of a routing number is detected. */
  lemma RoutingTypoIsDetected(s: string, i: nat, c: char)
    requires RoutingNumber(s) && i < 9 && IsDigit(c)
    ensures RoutingNumber(s[i := c]) <==> c == s[i]
  {
    WeightedAfterChange(s, i, c);
    var e := Value(c) - Value(s[i]);
    assert WEIGHTS[i] == 3 || WEIGHTS[i] == 7 || WEIGHTS[i] == 1;
    assert e * WEIGHTS[i] == (if WEIGHTS[i] == 3 then 3 * e else if WEIGHTS[i] == 7 then 7 * e else e);
  }

  /** Swapping neighbours is detected, except for digits that are equal or differ by five. */
  lemma RoutingTransposition(s: string, i: nat)
    requires RoutingNumber(s) && i < 8
    ensures RoutingNumber(Swapped(s, i, i + 1)) <==> (Value(s[i]) - Value(s[i + 1])) % 5 == 0
  {
    hide WeightedSum;
    WeightedAfterChange(s, i, s[i + 1]);
    WeightedAfterChange(s[i := s[i + 1]], i + 1, s[i]);
    CrossedWeights(Value(s[i + 1]) - Value(s[i]), i);
    ModShift(WeightedSum(s), WeightedSum(Swapped(s, i, i + 1)) - WeightedSum(s));
  }

  /** Neighbouring weights differ by an even number that five does not divide. */
  lemma CrossedWeights(e: int, i: nat)
    requires i < 8 && -9 <= e <= 9
    ensures (e * WEIGHTS[i] - e * WEIGHTS[i + 1]) % 10 == 0 <==> e % 5 == 0
  {
    EvenMultiples(e);
    if i % 3 == 0 {
      assert WEIGHTS[i] == 3 && WEIGHTS[i + 1] == 7;
    } else if i % 3 == 1 {
      assert WEIGHTS[i] == 7 && WEIGHTS[i + 1] == 1;
    } else {
      assert WEIGHTS[i] == 1 && WEIGHTS[i + 1] == 3;
    }
  }

  lemma EvenMultiples(e: int)
    requires -9 <= e <= 9
    ensures (e * 3 - e * 7) % 10 == 0 <==> e % 5 == 0
    ensures (e * 7 - e * 1) % 10 == 0 <==> e % 5 == 0
    ensures (e * 1 - e * 3) % 10 == 0 <==> e % 5 == 0
  {
  }
}

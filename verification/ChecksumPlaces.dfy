/** The checksums digit by digit: which place counts how much, and numbers a reader can check by hand. */
module ChecksumPlaces {
  import opened Checksum

  /** Both digits of a number below a hundred, added. */
  function DigitSum(n: int): int {
    n / 10 + n % 10
  }

  /** What a digit counts at distance k from the right end: itself at even distances, the digit sum of its double
      at odd ones. */
  function PlaceValue(c: char, k: nat): int {
    var n := c as int - '0' as int;
    if k % 2 == 0 then n else DigitSum(2 * n)
  }

  /** The places of d, when `behind` further digits follow it. */
  function PlaceSum(d: string, behind: nat): int {
    if d == "" then 0 else PlaceValue(d[0], |d| - 1 + behind) + PlaceSum(d[1..], behind)
  }

  lemma {:induction false} SumFromTheLeft(d: string, alt: bool)
    requires d != ""
    ensures Sum(d, alt) == Term(d[0], DoubledAt(d, 0, alt)) + Sum(d[1..], alt)
  {
    var n := |d| - 1;
    if n > 0 {
      assert d[..n][0] == d[0] && d[..n][1..] == d[1..][..n - 1] && d[1..][n - 1] == d[n];
      SumFromTheLeft(d[..n], !alt);
    } else {
      assert d[..n] == "" && d[1..] == "";
    }
  }

  lemma PlaceIsTerm(c: char, k: nat)
    ensures PlaceValue(c, k) == Term(c, k % 2 == 1)
  {
  }

  lemma Parity(d: string, behind: nat)
    requires d != ""
    ensures DoubledAt(d, 0, behind % 2 == 1) <==> (|d| - 1 + behind) % 2 == 1
  {
  }

  lemma {:induction false} SumIsPlaceSum(d: string, behind: nat)
    ensures Sum(d, behind % 2 == 1) == PlaceSum(d, behind)
  {
    if d != "" {
      SumFromTheLeft(d, behind % 2 == 1);
      SumIsPlaceSum(d[1..], behind);
      Parity(d, behind);
      PlaceIsTerm(d[0], |d| - 1 + behind);
      hide Sum, Term, PlaceValue, DoubledAt;
    }
  }

  /** Annex B of ISO/IEC 7812-1: counted from the right, the check digit first, every second digit is doubled. */
  lemma LuhnByPlaces(d: string)
    ensures Luhn(d) <==> PlaceSum(d, 0) % 10 == 0
  {
    SumIsPlaceSum(d, 0);
  }

  lemma {:induction false} PlaceSumSnoc(d: string, c: char)
    ensures PlaceSum(d + [c], 0) == PlaceSum(d, 1) + (c as int - '0' as int)
  {
    if d == "" {
      assert d + [c] == [c];
    } else {
      assert (d + [c])[1..] == d[1..] + [c];
      PlaceSumSnoc(d[1..], c);
    }
  }

  /** The check digit is what is missing to the next multiple of ten. */
  lemma CheckDigit(prefix: string, c: char)
    requires IsNumber(prefix) && '0' <= c <= '9'
    ensures Luhn(prefix + [c]) <==> c as int - '0' as int == (-PlaceSum(prefix, 1)) % 10
  {
    LuhnByPlaces(prefix + [c]);
    PlaceSumSnoc(prefix, c);
    Complements(PlaceSum(prefix, 1), c as int - '0' as int);
  }

  lemma Complements(a: int, n: int)
    requires 0 <= n <= 9
    ensures (a + n) % 10 == 0 <==> n == (-a) % 10
  {
  }

  lemma PlaceSumOne(a: char, rest: string)
    ensures PlaceSum([a] + rest, 0) == PlaceValue(a, |rest|) + PlaceSum(rest, 0)
  {
    hide PlaceValue;
    assert ([a] + rest)[1..] == rest;
  }

  lemma PlaceSumTwo(a: char, b: char, rest: string)
    requires |rest| % 2 == 0
    ensures PlaceSum([a, b] + rest, 0) == DigitSum(2 * (a as int - '0' as int)) + (b as int - '0' as int) + PlaceSum(rest, 0)
  {
    PlaceSumOne(b, rest);
    PlaceSumOne(a, [b] + rest);
    hide PlaceSum, DigitSum;
    assert [a] + ([b] + rest) == [a, b] + rest;
  }

  function Ones(n: nat): string {
    seq(n, _ => '1')
  }

  lemma OnesSum(n: nat)
    ensures PlaceSum(Ones(2 * n), 0) == 3 * n
  {
    if n > 0 {
      OnesSum(n - 1);
      PlaceSumTwo('1', '1', Ones(2 * (n - 1)));
      assert Ones(2 * n) == ['1', '1'] + Ones(2 * (n - 1));
    }
  }

  /** A number to check by hand: 18 is valid, 81 is not. */
  lemma KnownNumber()
    ensures Luhn("18") && !Luhn("81")
  {
    LuhnByPlaces("18");
    LuhnByPlaces("81");
    PlaceSumTwo('1', '8', "");
    PlaceSumTwo('8', '1', "");
    assert "18" == ['1', '8'] + "" && "81" == ['8', '1'] + "";
  }

  /** The test card 4111 1111 1111 1111: a 4, a 1 and fourteen further ones. */
  lemma TestCardIsValid()
    ensures CreditCard(['4', '1'] + Ones(14))
  {
    var card := ['4', '1'] + Ones(14);
    OnesSum(7);
    PlaceSumTwo('4', '1', Ones(14));
    LuhnByPlaces(card);
    DigitsOfNumber(card);
    hide PlaceSum, Sum, Digits;
  }

  /** A card number has 13 to 19 digits, whatever stands between them, and the checksum by places. */
  lemma CardByPlaces(s: string)
    ensures CreditCard(s) <==> 13 <= |Digits(s)| <= 19 && PlaceSum(Digits(s), 0) % 10 == 0
  {
    LuhnByPlaces(Digits(s));
  }

  /** The digits are the characters from '0' to '9', in order. */
  lemma {:induction false} DigitsAreTheDigits(s: string, c: char)
    ensures Digits(s + [c]) == Digits(s) + (if c in "0123456789" then [c] else "")
    ensures Digits("") == ""
  {
    assert (s + [c])[..|s|] == s;
    assert c in "0123456789" <==> '0' <= c <= '9' by { TenDigits(c); }
  }

  lemma TenDigits(c: char)
    ensures c in "0123456789" <==> '0' <= c <= '9'
  {
    if '0' <= c <= '9' {
      assert "0123456789"[c as int - '0' as int] == c;
    }
  }

  lemma WeightedSnoc(s: string, i: nat)
    requires i < |s| <= 9
    ensures WeightedSum(s[..i + 1]) == WeightedSum(s[..i]) + Value(s[i]) * WEIGHTS[i]
  {
    assert s[..i + 1][..i] == s[..i];
  }

  lemma WeightedThree(s: string, i: nat)
    requires i + 2 < |s| <= 9 && (i == 0 || i == 3 || i == 6)
    ensures WeightedSum(s[..i + 3]) == WeightedSum(s[..i]) + 3 * Value(s[i]) + 7 * Value(s[i + 1]) + Value(s[i + 2])
  {
    WeightedSnoc(s, i);
    WeightedSnoc(s, i + 1);
    WeightedSnoc(s, i + 2);
    hide WeightedSum, Value;
  }

  /** A routing number's digits count 3, 7, 1, 3, 7, 1, 3, 7 and 1. */
  lemma RoutingByPlaces(s: string)
    requires |s| == 9 && IsNumber(s)
    ensures RoutingNumber(s) <==>
              (3 * (Value(s[0]) + Value(s[3]) + Value(s[6])) + 7 * (Value(s[1]) + Value(s[4]) + Value(s[7]))
               + (Value(s[2]) + Value(s[5]) + Value(s[8]))) % 10 == 0
  {
    WeightedThree(s, 0);
    WeightedThree(s, 3);
    WeightedThree(s, 6);
    assert s[..9] == s && WeightedSum(s[..0]) == 0;
    hide WeightedSum, Value;
  }

  /** Anything but nine digits is refused. */
  lemma RoutingNeedsNineDigits(s: string)
    requires RoutingNumber(s)
    ensures |s| == 9 && forall i | 0 <= i < 9 :: s[i] in "0123456789"
  {
    forall i | 0 <= i < 9 ensures s[i] in "0123456789" {
      TenDigits(s[i]);
    }
  }
}

/** Small shared vocabulary: the nullable column and a few integer functions. */
module Prelude {

  datatype Option<+T> = None | Some(value: T)

  function Max(a: int, b: int): int {
    if a > b then a else b
  }

  function Min(a: int, b: int): int {
    if a < b then a else b
  }

  /** 2^n, the backoff factor of the retry query and the width of machine integers. */
  function Pow2(n: nat): (r: int)
    ensures r >= 1
  {
    if n == 0 then 1 else 2 * Pow2(n - 1)
  }

  lemma SnocCons<T>(s: seq<T>, x: T, t: seq<T>)
    ensures (s + [x]) + t == s + ([x] + t)
  {
  }

  function SetOf<T>(s: seq<T>): set<T> {
    set x | x in s
  }

  lemma SetOfSnoc<T>(s: seq<T>, i: nat)
    requires i < |s|
    ensures SetOf(s[..i + 1]) == SetOf(s[..i]) + {s[i]}
  {
    assert s[..i + 1] == s[..i] + [s[i]];
  }

  lemma SubsetSize<T>(a: set<T>, b: set<T>)
    requires a <= b
    ensures |a| <= |b|
  {
    assert b == a + (b - a);
  }

  lemma OneMoreTimes(a: int, b: int)
    ensures (a + 1) * b == a * b + b
  {
  }

  predicate OccursAt(s: string, part: string, i: nat) {
    i + |part| <= |s| && s[i..i + |part|] == part
  }

  lemma OccursOneLater(s: string, part: string, k: nat)
    requires s != ""
    ensures OccursAt(s, part, k + 1) <==> OccursAt(s[1..], part, k)
  {
    if k + 1 + |part| <= |s| {
      assert s[k + 1..k + 1 + |part|] == s[1..][k..k + |part|];
    }
  }
}

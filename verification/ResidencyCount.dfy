/** The fallback that counts violations directly, compared with the number of stored rows. */
module ResidencyCount {
  import opened Prelude
  import opened Residency

  /** How many of the rules a region violates. */
  function Violated(rules: seq<Rule>, region: string): nat {
    if rules == [] then 0
    else Violated(rules[..|rules| - 1], region) + (if Violates(rules[|rules| - 1], region) then 1 else 0)
  }

  /** What one datasource counts for: an untagged one once, whatever the rules say. */
  function Counted(rules: seq<Rule>, region: string): nat {
    if region == "" then (if rules == [] then 0 else 1) else Violated(rules, region)
  }

  function Inline(rules: seq<Rule>, regions: seq<Option<string>>): nat {
    if regions == [] then 0
    else Inline(rules, regions[..|regions| - 1]) + Counted(rules, Region(regions[|regions| - 1]))
  }

  method InAllowed(allowed: seq<string>, region: string) returns (found: bool)
    ensures found == (region in allowed)
  {
    found := false;
    var i := 0;
    while i < |allowed| && !found
      invariant 0 <= i <= |allowed| && found == (region in allowed[..i])
    {
      found := allowed[i] == region;
      i := i + 1;
    }
  }

  method CountViolationsInline(rules: seq<Rule>, regions: seq<Option<string>>) returns (count: nat)
    ensures count == Inline(rules, regions)
  {
    count := 0;
    for i := 0 to |regions|
      invariant count == Inline(rules, regions[..i])
    {
      assert regions[..i + 1][..i] == regions[..i];
      var region := Region(regions[i]);
      if region == "" {
        if |rules| > 0 {
          count := count + 1;
        }
        continue;
      }
      for k := 0 to |rules|
        invariant count == Inline(rules, regions[..i]) + Violated(rules[..k], region)
      {
        assert rules[..k + 1][..k] == rules[..k];
        if !rules[k].active {
          continue;
        }
        var inAllowed := InAllowed(rules[k].allowed, region);
        if !inAllowed {
          count := count + 1;
        }
      }
      assert rules[..|rules|] == rules;
    }
    assert regions[..|regions|] == regions;
  }

  // ---- against the stored rows

  predicate Enumerates<K, V>(s: seq<K>, m: map<K, V>) {
    && (forall i, j | 0 <= i < j < |s| :: s[i] != s[j])
    && (forall k | k in s :: k in m)
    && (forall k | k in m :: k in s)
  }

  /** A List of all rows, in some order. */
  function Column<K, V>(s: seq<K>, m: map<K, V>): seq<V>
    requires forall k | k in s :: k in m
  {
    seq(|s|, i requires 0 <= i < |s| => m[s[i]])
  }

  /** The expected keys for some of the rules and one datasource. */
  function KeysOf(t: Tables, rs: seq<RuleId>, d: SourceId): set<Key>
    requires d in t.sources
  {
    set r | r in rs && r in t.rules && Violates(t.rules[r], Region(t.sources[d])) :: Key(r, d)
  }

  function AllKeys(t: Tables, rs: seq<RuleId>, ds: seq<SourceId>): set<Key>
    requires forall d | d in ds :: d in t.sources
  {
    set r, d | r in rs && d in ds && r in t.rules && Violates(t.rules[r], Region(t.sources[d])) :: Key(r, d)
  }

  lemma KeysOfSnoc(t: Tables, rs: seq<RuleId>, r: RuleId, d: SourceId)
    requires d in t.sources && r in t.rules && r !in rs
    ensures |KeysOf(t, rs + [r], d)| ==
              |KeysOf(t, rs, d)| + (if Violates(t.rules[r], Region(t.sources[d])) then 1 else 0)
  {
    if Violates(t.rules[r], Region(t.sources[d])) {
      assert KeysOf(t, rs + [r], d) == KeysOf(t, rs, d) + {Key(r, d)};
      assert Key(r, d) !in KeysOf(t, rs, d);
    } else {
      assert KeysOf(t, rs + [r], d) == KeysOf(t, rs, d);
    }
  }

  lemma {:induction false} KeysOfOne(t: Tables, rs: seq<RuleId>, d: SourceId)
    requires d in t.sources && (forall r | r in rs :: r in t.rules)
    requires forall i, j | 0 <= i < j < |rs| :: rs[i] != rs[j]
    ensures |KeysOf(t, rs, d)| == Violated(Column(rs, t.rules), Region(t.sources[d]))
  {
    if rs == [] {
      assert KeysOf(t, rs, d) == {};
    } else {
      var n := |rs| - 1;
      assert rs == rs[..n] + [rs[n]];
      KeysOfOne(t, rs[..n], d);
      assert Column(rs, t.rules)[..n] == Column(rs[..n], t.rules);
      KeysOfSnoc(t, rs[..n], rs[n], d);
      hide KeysOf;
    }
  }

  /** The expected rows of all listed datasources: as many as the rules each of them violates. */
  function Rows(rules: seq<Rule>, regions: seq<Option<string>>): nat {
    if regions == [] then 0
    else Rows(rules, regions[..|regions| - 1]) + Violated(rules, Region(regions[|regions| - 1]))
  }

  lemma AllKeysSnoc(t: Tables, rs: seq<RuleId>, ds: seq<SourceId>, d: SourceId)
    requires (forall x | x in ds :: x in t.sources) && d in t.sources && d !in ds
    ensures |AllKeys(t, rs, ds + [d])| == |AllKeys(t, rs, ds)| + |KeysOf(t, rs, d)|
  {
    var a, b := AllKeys(t, rs, ds), KeysOf(t, rs, d);
    assert AllKeys(t, rs, ds + [d]) == a + b;
    assert a * b == {};
  }

  lemma {:induction false} AllKeysCount(t: Tables, rs: seq<RuleId>, ds: seq<SourceId>)
    requires (forall d | d in ds :: d in t.sources) && (forall r | r in rs :: r in t.rules)
    requires forall i, j | 0 <= i < j < |rs| :: rs[i] != rs[j]
    requires forall i, j | 0 <= i < j < |ds| :: ds[i] != ds[j]
    ensures |AllKeys(t, rs, ds)| == Rows(Column(rs, t.rules), Column(ds, t.sources))
  {
    if ds != [] {
      var n := |ds| - 1;
      assert ds == ds[..n] + [ds[n]];
      AllKeysCount(t, rs, ds[..n]);
      AllKeysSnoc(t, rs, ds[..n], ds[n]);
      KeysOfOne(t, rs, ds[n]);
      assert Column(ds, t.sources)[..n] == Column(ds[..n], t.sources);
    } else {
      assert AllKeys(t, rs, ds) == {};
    }
  }

  function Untagged(regions: seq<Option<string>>): nat {
    if regions == [] then 0
    else Untagged(regions[..|regions| - 1]) + (if Region(regions[|regions| - 1]) == "" then 1 else 0)
  }

  /** A region no rule allows violates all of them, when all are active. */
  lemma {:induction false} AllViolated(rules: seq<Rule>, region: string)
    requires forall r | r in rules :: Violates(r, region)
    ensures Violated(rules, region) == |rules|
  {
    if rules != [] {
      AllViolated(rules[..|rules| - 1], region);
    }
  }

  lemma {:induction false} InlineAgainstRows(rules: seq<Rule>, regions: seq<Option<string>>)
    requires forall r | r in rules :: r.active && "" !in r.allowed
    ensures Rows(rules, regions) == Inline(rules, regions) + Untagged(regions) * (|rules| - (if rules == [] then 0 else 1))
  {
    if regions != [] {
      var rest := regions[..|regions| - 1];
      InlineAgainstRows(rules, rest);
      if Region(regions[|regions| - 1]) == "" {
        AllViolated(rules, "");
        OneMoreTimes(Untagged(rest), |rules| - (if rules == [] then 0 else 1));
        assert Untagged(regions) == Untagged(rest) + 1;
      } else {
        assert Untagged(regions) == Untagged(rest);
      }
    }
  }

  /** When the stored table agrees and every rule is active and none allows the empty region, the table has
      one row more than the inline count for each further rule and each untagged datasource: the two
      numbers are equal exactly when nothing is untagged or there is at most one rule. */
  lemma StoredCountAgainstInline(t: Tables, rs: seq<RuleId>, ds: seq<SourceId>)
    requires Agrees(t) && Enumerates(rs, t.rules) && Enumerates(ds, t.sources)
    requires forall r | r in t.rules :: t.rules[r].active && "" !in t.rules[r].allowed
    ensures var inline := Inline(Column(rs, t.rules), Column(ds, t.sources));
            && |t.violations| == inline + Untagged(Column(ds, t.sources)) * (|rs| - (if rs == [] then 0 else 1))
            && (|t.violations| == inline <==> |t.rules| <= 1 || forall d | d in t.sources :: Region(t.sources[d]) != "")
  {
    hide Inline, Untagged, Agrees, Column;
    StoredSize(t, rs, ds);
    UntaggedSources(t, ds);
    SameSize(rs, t.rules);
    ZeroProduct(Untagged(Column(ds, t.sources)), |rs| - (if rs == [] then 0 else 1));
  }

  lemma ZeroProduct(a: int, b: int)
    ensures a * b == 0 <==> a == 0 || b == 0
  {
  }

  lemma StoredSize(t: Tables, rs: seq<RuleId>, ds: seq<SourceId>)
    requires Agrees(t) && Enumerates(rs, t.rules) && Enumerates(ds, t.sources)
    requires forall r | r in t.rules :: t.rules[r].active && "" !in t.rules[r].allowed
    ensures |t.violations| == Inline(Column(rs, t.rules), Column(ds, t.sources))
                              + Untagged(Column(ds, t.sources)) * (|rs| - (if rs == [] then 0 else 1))
  {
    hide Inline, Untagged, Agrees, Rows, AllKeys;
    AllKeysCount(t, rs, ds);
    InlineAgainstRows(Column(rs, t.rules), Column(ds, t.sources));
    SameKeys(t, rs, ds);
    assert |t.violations| == |t.violations.Keys|;
  }

  lemma UntaggedSources(t: Tables, ds: seq<SourceId>)
    requires Enumerates(ds, t.sources)
    ensures Untagged(Column(ds, t.sources)) == 0 <==> forall d | d in t.sources :: Region(t.sources[d]) != ""
  {
    var regions := Column(ds, t.sources);
    NoneUntagged(regions);
    hide Untagged;
    forall d | d in t.sources ensures t.sources[d] in regions {
      var i :| 0 <= i < |ds| && ds[i] == d;
      assert regions[i] == t.sources[d];
    }
    forall x | x in regions ensures exists d | d in t.sources :: t.sources[d] == x {
      var i :| 0 <= i < |regions| && regions[i] == x;
      assert ds[i] in t.sources;
    }
  }

  lemma SameKeys(t: Tables, rs: seq<RuleId>, ds: seq<SourceId>)
    requires Agrees(t) && Enumerates(rs, t.rules) && Enumerates(ds, t.sources)
    ensures t.violations.Keys == AllKeys(t, rs, ds)
  {
    AgreesByRows(t);
    hide Agrees;
    forall k: Key ensures k in t.violations <==> k in AllKeys(t, rs, ds) {
      assert RowAgrees(t, k.rule, k.source);
      assert k == Key(k.rule, k.source);
    }
  }

  lemma SameSize<K, V>(s: seq<K>, m: map<K, V>)
    requires Enumerates(s, m)
    ensures |s| == |m|
  {
    DistinctSize(s);
    assert m.Keys == set k | k in s;
    assert |m| == |m.Keys|;
  }

  lemma {:induction false} DistinctSize<K>(s: seq<K>)
    requires forall i, j | 0 <= i < j < |s| :: s[i] != s[j]
    ensures |set k | k in s| == |s|
  {
    if s != [] {
      var n := |s| - 1;
      DistinctSize(s[..n]);
      assert s == s[..n] + [s[n]];
      assert (set k | k in s) == (set k | k in s[..n]) + {s[n]};
    }
  }

  lemma {:induction false} NoneUntagged(regions: seq<Option<string>>)
    ensures Untagged(regions) == 0 <==> forall x | x in regions :: Region(x) != ""
  {
    if regions != [] {
      var n := |regions| - 1;
      NoneUntagged(regions[..n]);
      assert regions == regions[..n] + [regions[n]];
    }
  }

  // ---- over runs

  predicate AllActive(t: Tables) {
    forall r | r in t.rules :: t.rules[r].active
  }

  lemma ActiveStep(t: Tables, step: Step)
    requires AllActive(t)
    ensures AllActive(Next(t, step))
  {
  }

  lemma {:induction false} RunsStayActive(states: seq<Tables>, steps: seq<Step>)
    requires Run(states, steps) && AllActive(states[0])
    ensures AllActive(states[|steps|])
    decreases |steps|
  {
    hide AllActive, Next;
    var n := |steps|;
    if n > 0 {
      assert Run(states[..n], steps[..n - 1]);
      RunsStayActive(states[..n], steps[..n - 1]);
      assert states[..n][n - 1] == states[n - 1];
      ActiveStep(states[n - 1], steps[n - 1]);
    }
  }

  /** After any ordinary run from empty tables, COUNT(*) and the inline fallback tell the same number
      exactly when every datasource is tagged or at most one rule is left. */
  lemma RunsCountAlike(states: seq<Tables>, steps: seq<Step>, rs: seq<RuleId>, ds: seq<SourceId>)
    requires Run(states, steps) && states[0].rules == map[] && states[0].violations == map[]
    requires forall i | 0 <= i < |steps| :: Ordinary(states[i], steps[i])
    requires Enumerates(rs, states[|steps|].rules) && Enumerates(ds, states[|steps|].sources)
    ensures var t := states[|steps|];
            |t.violations| == Inline(Column(rs, t.rules), Column(ds, t.sources)) <==>
              |t.rules| <= 1 || forall d | d in t.sources :: Region(t.sources[d]) != ""
  {
    assert Agrees(states[0]) by {
      assert Expected(states[0]) == map[];
    }
    RunsAgree(states, steps);
    RunsStayActive(states, steps);
    StoredCountAgainstInline(states[|steps|], rs, ds);
  }
}

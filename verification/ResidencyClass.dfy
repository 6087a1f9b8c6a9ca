/** The residency handlers in their own form: loops that delete and insert rows of the shared tables. */
module ResidencyClass {
  import opened Prelude
  import opened Residency

  class Store {
    var rules: map<RuleId, Rule>
    var sources: map<SourceId, Option<string>>
    var violations: map<Key, string>

    ghost function Contents(): Tables
      reads this
    {
      Tables(rules, sources, violations)
    }

    constructor (t: Tables)
      ensures Contents() == t
    {
      rules, sources, violations := t.rules, t.sources, t.violations;
    }

    /** One INSERT ... ON CONFLICT DO NOTHING. */
    method InsertViolation(k: Key, region: string, fails: bool)
      modifies this`violations
      ensures violations == if fails then old(violations) else Insert(old(violations), map[k := region])
    {
      if !fails && k !in violations {
        violations := violations[k := region];
      }
    }

    /** The rule row first, then its violations; a failed listing leaves only the rule. */
    method CreateRule(id: RuleId, allowed: seq<string>, listed: seq<SourceId>, f: Faults) returns (ok: bool)
      requires SetOf(listed) <= sources.Keys
      modifies this
      ensures ok == (id !in old(rules))
      ensures Contents() == Created(old(Contents()), id, allowed, SetOf(listed), f)
    {
      ok := id !in rules;
      if ok {
        rules := rules[id := Rule(allowed, true)];
        if !f.list {
          PersistViolationsForRule(id, allowed, listed, f.lost);
        } else {
          NothingListed(id, allowed, sources, f.lost, violations);
        }
      }
    }

    method PersistViolationsForRule(id: RuleId, allowedRegions: seq<string>, listed: seq<SourceId>, lost: set<Key>)
      requires SetOf(listed) <= sources.Keys
      modifies this`violations
      ensures violations == Insert(old(violations), RowsForRule(id, allowedRegions, SetOf(listed), sources, lost))
    {
      var allowed := AllowedSet(allowedRegions);
      ghost var before := violations;
      NothingListed(id, allowedRegions, sources, lost, before);
      for i := 0 to |listed|
        invariant violations == Insert(before, RowsForRule(id, allowedRegions, SetOf(listed[..i]), sources, lost))
      {
        var d := listed[i];
        assert d in SetOf(listed);
        SetOfSnoc(listed, i);
        ListOneSource(id, allowedRegions, SetOf(listed[..i]), d, sources, lost, before);
        var region := Region(sources[d]);
        if region !in allowed {
          InsertViolation(Key(id, d), region, Key(id, d) in lost);
        }
      }
      assert listed[..|listed|] == listed;
    }

    method DeleteRule(id: RuleId, f: Faults) returns (ok: bool)
      modifies this
      ensures ok == (id in old(rules))
      ensures Contents() == Deleted(old(Contents()), id, f)
    {
      ok := id in rules;
      if ok {
        rules := rules - {id};
        if !f.delete {
          violations := WithoutRule(violations, id);
        }
      }
    }

    method UpdateDataSource(id: SourceId, region: Option<string>, listed: seq<RuleId>, f: Faults) returns (ok: bool)
      requires SetOf(listed) <= rules.Keys
      modifies this
      ensures ok == (id in old(sources))
      ensures Contents() == Updated(old(Contents()), id, region, SetOf(listed), f)
    {
      ok := id in sources;
      if ok && region.Some? {
        ghost var before := Contents();
        sources := sources[id := region];
        ReevaluateViolations(id, listed, f);
        assert violations == Reevaluated(before, id, region.value, SetOf(listed), f);
      }
    }

    method ReevaluateViolations(id: SourceId, listed: seq<RuleId>, f: Faults)
      requires id in sources && SetOf(listed) <= rules.Keys
      modifies this`violations
      ensures violations == Reevaluated(old(Contents()), id, Region(sources[id]), SetOf(listed), f)
    {
      if !f.delete {
        violations := WithoutSource(violations, id);
      }
      ghost var before := violations;
      var region := Region(sources[id]);
      NoRules(id, region, rules, f.lost, before);
      if f.list { return; }
      for i := 0 to |listed|
        invariant violations == Insert(before, RowsForSource(id, region, SetOf(listed[..i]), rules, f.lost))
      {
        var r := listed[i];
        assert r in SetOf(listed);
        SetOfSnoc(listed, i);
        ListOneRule(id, region, SetOf(listed[..i]), r, rules, f.lost, before);
        if rules[r].active {
          var allowed := AllowedSet(rules[r].allowed);
          if region == "" || region !in allowed {
            InsertViolation(Key(r, id), region, Key(r, id) in f.lost);
          }
        }
      }
      assert listed[..|listed|] == listed;
    }
  }

  // ---- what one turn of a loop adds

  method AllowedSet(regions: seq<string>) returns (allowed: set<string>)
    ensures allowed == SetOf(regions)
  {
    allowed := {};
    for i := 0 to |regions|
      invariant allowed == SetOf(regions[..i])
    {
      SetOfSnoc(regions, i);
      allowed := allowed + {regions[i]};
    }
    assert regions[..|regions|] == regions;
  }

  lemma NothingListed(id: RuleId, allowed: seq<string>, sources: map<SourceId, Option<string>>, lost: set<Key>,
                      stored: map<Key, string>)
    ensures Insert(stored, RowsForRule(id, allowed, {}, sources, lost)) == stored
  {
    assert RowsForRule(id, allowed, {}, sources, lost) == map[];
  }

  lemma NoRules(id: SourceId, region: string, rules: map<RuleId, Rule>, lost: set<Key>, stored: map<Key, string>)
    ensures Insert(stored, RowsForSource(id, region, {}, rules, lost)) == stored
  {
    assert RowsForSource(id, region, {}, rules, lost) == map[];
  }

  lemma InsertInTurn(stored: map<Key, string>, rows: map<Key, string>, row: map<Key, string>)
    ensures Insert(stored, row + rows) == Insert(Insert(stored, rows), row)
  {
    assert (row + rows) + stored == row + (rows + stored);
  }

  lemma OneMoreSource(id: RuleId, allowed: seq<string>, listed: set<SourceId>, d: SourceId,
                      sources: map<SourceId, Option<string>>, lost: set<Key>, k: Key)
    requires d in sources
    ensures var was := RowsForRule(id, allowed, listed, sources, lost);
            var now := RowsForRule(id, allowed, listed + {d}, sources, lost);
            var added := k == Key(id, d) && Region(sources[d]) !in allowed && Key(id, d) !in lost;
            && (k in now <==> added || k in was)
            && (k in now ==> now[k] == if added then Region(sources[d]) else was[k])
  {
    RowsForRuleAt(id, allowed, listed, sources, lost, k.rule, k.source);
    RowsForRuleAt(id, allowed, listed + {d}, sources, lost, k.rule, k.source);
    hide RowsForRule;
  }

  /** One more datasource adds its row, unless it is allowed, the insert fails, or the row exists. */
  lemma ListOneSource(id: RuleId, allowed: seq<string>, listed: set<SourceId>, d: SourceId,
                      sources: map<SourceId, Option<string>>, lost: set<Key>, stored: map<Key, string>)
    requires d in sources
    ensures var was := Insert(stored, RowsForRule(id, allowed, listed, sources, lost));
            Insert(stored, RowsForRule(id, allowed, listed + {d}, sources, lost)) ==
              if Region(sources[d]) in allowed || Key(id, d) in lost then was
              else Insert(was, map[Key(id, d) := Region(sources[d])])
  {
    hide RowsForRule, Insert;
    var row := if Region(sources[d]) in allowed || Key(id, d) in lost then map[] else map[Key(id, d) := Region(sources[d])];
    var was := RowsForRule(id, allowed, listed, sources, lost);
    var now := RowsForRule(id, allowed, listed + {d}, sources, lost);
    forall k: Key ensures k in now <==> k in row || k in was
                  ensures k in now ==> now[k] == if k in was then was[k] else row[k]
    {
      OneMoreSource(id, allowed, listed, d, sources, lost, k);
      RowsForRuleAt(id, allowed, listed, sources, lost, k.rule, k.source);
    }
    assert now == row + was;
    InsertInTurn(stored, was, row);
    if row == map[] { assert row + was == was; }
  }

  lemma OneMoreRule(id: SourceId, region: string, listed: set<RuleId>, r: RuleId,
                    rules: map<RuleId, Rule>, lost: set<Key>, k: Key)
    requires r in rules
    ensures var was := RowsForSource(id, region, listed, rules, lost);
            var now := RowsForSource(id, region, listed + {r}, rules, lost);
            var added := k == Key(r, id) && rules[r].active && (region == "" || region !in rules[r].allowed) && k !in lost;
            && (k in now <==> added || k in was)
            && (k in now ==> now[k] == region)
            && (k in was ==> was[k] == region)
  {
    RowsForSourceAt(id, region, listed, rules, lost, k.rule, k.source);
    RowsForSourceAt(id, region, listed + {r}, rules, lost, k.rule, k.source);
    hide RowsForSource;
  }

  /** One more rule adds its row, unless it is inactive or obeyed, the insert fails, or the row exists. */
  lemma ListOneRule(id: SourceId, region: string, listed: set<RuleId>, r: RuleId,
                    rules: map<RuleId, Rule>, lost: set<Key>, stored: map<Key, string>)
    requires r in rules
    ensures var was := Insert(stored, RowsForSource(id, region, listed, rules, lost));
            Insert(stored, RowsForSource(id, region, listed + {r}, rules, lost)) ==
              if rules[r].active && (region == "" || region !in rules[r].allowed) && Key(r, id) !in lost
              then Insert(was, map[Key(r, id) := region]) else was
  {
    hide RowsForSource, Insert;
    var row := if rules[r].active && (region == "" || region !in rules[r].allowed) && Key(r, id) !in lost
               then map[Key(r, id) := region] else map[];
    var was := RowsForSource(id, region, listed, rules, lost);
    var now := RowsForSource(id, region, listed + {r}, rules, lost);
    forall k: Key ensures k in now <==> k in row || k in was
                  ensures k in now ==> now[k] == region
                  ensures k in was ==> was[k] == region
    {
      OneMoreRule(id, region, listed, r, rules, lost, k);
    }
    assert now == row + was;
    InsertInTurn(stored, was, row);
    if row == map[] { assert row + was == was; }
  }
}

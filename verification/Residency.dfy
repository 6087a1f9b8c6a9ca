/**
 Residency rules, the regions of datasources, and the stored table of violations. Requests are
 atomic; the faults of their statements and the rows a limited List leaves out are parameters.
 */
module Residency {
  import opened Prelude

  type RuleId = string
  type SourceId = string

  const RULE_LIMIT: nat := 500
  const SOURCE_LIMIT: nat := 10000

  datatype Rule = Rule(allowed: seq<string>, active: bool)

  // UNIQUE (rule_id, datasource_id).
  datatype Key = Key(rule: RuleId, source: SourceId)

  // A violation stores the region it was found for.
  datatype Tables = Tables(rules: map<RuleId, Rule>, sources: map<SourceId, Option<string>>, violations: map<Key, string>)

  // list: listing failed; delete: deleting violations failed; lost: inserts that failed.
  datatype Faults = Faults(list: bool, delete: bool, lost: set<Key>)

  const NO_FAULTS := Faults(false, false, {})

  // `listed` is what List returns, at most its limit of rows.
  datatype Step =
    | CreateRule(id: RuleId, allowed: seq<string>, listedSources: set<SourceId>, faults: Faults)
    | DeleteRule(id: RuleId, faults: Faults)
    | UpdateSource(source: SourceId, region: Option<string>, listedRules: set<RuleId>, faults: Faults)

  predicate Listing<T>(listed: set<T>, all: set<T>, limit: nat) {
    listed <= all && |listed| == Min(limit, |all|)
  }

  predicate Enabled(t: Tables, step: Step) {
    match step
    case CreateRule(_, _, listed, _) => Listing(listed, t.sources.Keys, SOURCE_LIMIT)
    case DeleteRule(_, _) => true
    case UpdateSource(_, _, listed, _) => Listing(listed, t.rules.Keys, RULE_LIMIT)
  }

  /** A datasource without a region counts as having the empty one. */
  function Region(region: Option<string>): string {
    if region.Some? then region.value else ""
  }

  /** The rows persistViolationsForRule wants to insert. */
  function RowsForRule(id: RuleId, allowed: seq<string>, listed: set<SourceId>,
                       sources: map<SourceId, Option<string>>, lost: set<Key>): map<Key, string> {
    map d | d in listed && d in sources && Region(sources[d]) !in allowed && Key(id, d) !in lost ::
      Key(id, d) := Region(sources[d])
  }

  /** The rows reevaluateResidencyViolations wants to insert: the empty region violates every rule. */
  function RowsForSource(id: SourceId, region: string, listed: set<RuleId>,
                         rules: map<RuleId, Rule>, lost: set<Key>): map<Key, string> {
    map r | r in listed && r in rules && rules[r].active && (region == "" || region !in rules[r].allowed) && Key(r, id) !in lost ::
      Key(r, id) := region
  }

  /** INSERT ... ON CONFLICT DO NOTHING. */
  function Insert(stored: map<Key, string>, rows: map<Key, string>): map<Key, string> {
    rows + stored
  }

  function WithoutRule(stored: map<Key, string>, id: RuleId): map<Key, string> {
    map k | k in stored && k.rule != id :: stored[k]
  }

  function WithoutSource(stored: map<Key, string>, id: SourceId): map<Key, string> {
    map k | k in stored && k.source != id :: stored[k]
  }

  function Created(t: Tables, id: RuleId, allowed: seq<string>, listed: set<SourceId>, f: Faults): Tables {
    if id in t.rules then t
    else
      t.(rules := t.rules[id := Rule(allowed, true)],
         violations := Insert(t.violations, RowsForRule(id, allowed, if f.list then {} else listed, t.sources, f.lost)))
  }

  function Deleted(t: Tables, id: RuleId, f: Faults): Tables {
    if id !in t.rules then t
    else t.(rules := t.rules - {id}, violations := if f.delete then t.violations else WithoutRule(t.violations, id))
  }

  function Reevaluated(t: Tables, id: SourceId, region: string, listed: set<RuleId>, f: Faults): map<Key, string> {
    Insert(if f.delete then t.violations else WithoutSource(t.violations, id),
           RowsForSource(id, region, if f.list then {} else listed, t.rules, f.lost))
  }

  function Updated(t: Tables, id: SourceId, region: Option<string>, listed: set<RuleId>, f: Faults): Tables {
    if id !in t.sources || region.None? then t
    else t.(sources := t.sources[id := region], violations := Reevaluated(t, id, region.value, listed, f))
  }

  function Next(t: Tables, step: Step): Tables {
    match step
    case CreateRule(id, allowed, listed, f) => Created(t, id, allowed, listed, f)
    case DeleteRule(id, f) => Deleted(t, id, f)
    case UpdateSource(id, region, listed, f) => Updated(t, id, region, listed, f)
  }

  predicate Run(states: seq<Tables>, steps: seq<Step>) {
    && |states| == |steps| + 1
    && forall i | 0 <= i < |steps| :: Enabled(states[i], steps[i]) && states[i + 1] == Next(states[i], steps[i])
  }

  // ---- the recomputation

  predicate Violates(rule: Rule, region: string) {
    rule.active && region !in rule.allowed
  }

  function Expected(t: Tables): map<Key, string> {
    map r, d | r in t.rules && d in t.sources && Violates(t.rules[r], Region(t.sources[d])) ::
      Key(r, d) := Region(t.sources[d])
  }

  predicate Agrees(t: Tables) {
    t.violations == Expected(t)
  }

  /** What a caller can check before a fault-free request: no row beyond a limit would matter, and the
      empty region is not given to a datasource while a listed rule allows it. */
  predicate Covered(t: Tables, step: Step) {
    match step
    case CreateRule(id, allowed, listed, _) =>
      id in t.rules || forall d | d in t.sources && d !in listed :: Region(t.sources[d]) in allowed
    case DeleteRule(_, _) => true
    case UpdateSource(id, region, listed, _) =>
      (id in t.sources && region.Some?) ==>
        forall r | r in t.rules && t.rules[r].active ::
          if r in listed then region.value == "" ==> "" !in t.rules[r].allowed
          else region.value in t.rules[r].allowed
  }

  // ---- agreement, one row at a time

  /** The stored row for a rule and a datasource is there exactly when it should be, with the right region. */
  predicate RowAgrees(t: Tables, r: RuleId, d: SourceId) {
    && (Key(r, d) in t.violations <==> r in t.rules && d in t.sources && Violates(t.rules[r], Region(t.sources[d])))
    && (Key(r, d) in t.violations && d in t.sources ==> t.violations[Key(r, d)] == Region(t.sources[d]))
  }

  lemma ExpectedAt(t: Tables, r: RuleId, d: SourceId)
    ensures Key(r, d) in Expected(t) <==> r in t.rules && d in t.sources && Violates(t.rules[r], Region(t.sources[d]))
    ensures Key(r, d) in Expected(t) && d in t.sources ==> Expected(t)[Key(r, d)] == Region(t.sources[d])
  {
  }

  lemma AgreesByRows(t: Tables)
    ensures Agrees(t) <==> forall r, d :: RowAgrees(t, r, d)
  {
    forall r, d ensures Agrees(t) ==> RowAgrees(t, r, d) {
      ExpectedAt(t, r, d);
    }
    if forall r, d :: RowAgrees(t, r, d) {
      forall k: Key ensures (k in Expected(t) <==> k in t.violations) &&
                            (k in Expected(t) ==> Expected(t)[k] == t.violations[k])
      {
        ExpectedAt(t, k.rule, k.source);
        assert RowAgrees(t, k.rule, k.source) && k == Key(k.rule, k.source);
        hide Expected;
      }
      assert t.violations == Expected(t);
    }
  }

  lemma InsertAt(stored: map<Key, string>, rows: map<Key, string>, k: Key)
    ensures k in Insert(stored, rows) <==> k in stored || k in rows
    ensures k in Insert(stored, rows) ==> Insert(stored, rows)[k] == if k in stored then stored[k] else rows[k]
  {
  }

  lemma RowsForRuleAt(id: RuleId, allowed: seq<string>, listed: set<SourceId>,
                      sources: map<SourceId, Option<string>>, lost: set<Key>, r: RuleId, d: SourceId)
    ensures var rows := RowsForRule(id, allowed, listed, sources, lost);
            && (Key(r, d) in rows <==>
                  r == id && d in listed && d in sources && Region(sources[d]) !in allowed && Key(id, d) !in lost)
            && (Key(r, d) in rows && d in sources ==> rows[Key(r, d)] == Region(sources[d]))
  {
  }

  lemma RowsForSourceAt(id: SourceId, region: string, listed: set<RuleId>,
                        rules: map<RuleId, Rule>, lost: set<Key>, r: RuleId, d: SourceId)
    ensures var rows := RowsForSource(id, region, listed, rules, lost);
            && (Key(r, d) in rows <==>
                  && d == id && r in listed && r in rules && rules[r].active
                  && (region == "" || region !in rules[r].allowed) && Key(r, id) !in lost)
            && (Key(r, d) in rows ==> rows[Key(r, d)] == region)
  {
  }

  lemma CreatedRow(t: Tables, id: RuleId, allowed: seq<string>, listed: set<SourceId>, r: RuleId, d: SourceId)
    requires RowAgrees(t, r, d) && id !in t.rules
    ensures RowAgrees(Created(t, id, allowed, listed, NO_FAULTS), r, d) <==>
              (r == id && d in t.sources && d !in listed ==> Region(t.sources[d]) in allowed)
  {
    InsertAt(t.violations, RowsForRule(id, allowed, listed, t.sources, {}), Key(r, d));
    RowsForRuleAt(id, allowed, listed, t.sources, {}, r, d);
    hide Insert, RowsForRule;
  }

  lemma CreateAgreesIff(t: Tables, id: RuleId, allowed: seq<string>, listed: set<SourceId>)
    requires Agrees(t) && id !in t.rules
    ensures Agrees(Created(t, id, allowed, listed, NO_FAULTS)) <==>
              forall d | d in t.sources && d !in listed :: Region(t.sources[d]) in allowed
  {
    hide Agrees, Created, RowAgrees;
    var n := Created(t, id, allowed, listed, NO_FAULTS);
    AgreesByRows(t);
    AgreesByRows(n);
    forall r, d
      ensures RowAgrees(n, r, d) <==> (r == id && d in t.sources && d !in listed ==> Region(t.sources[d]) in allowed)
    {
      assert RowAgrees(t, r, d);
      CreatedRow(t, id, allowed, listed, r, d);
    }
    if d :| d in t.sources && d !in listed && Region(t.sources[d]) !in allowed {
      assert !RowAgrees(n, id, d);
    }
  }

  lemma DeleteAgrees(t: Tables, id: RuleId)
    requires Agrees(t)
    ensures Agrees(Deleted(t, id, NO_FAULTS))
  {
    var n := Deleted(t, id, NO_FAULTS);
    hide Agrees;
    AgreesByRows(t);
    AgreesByRows(n);
    forall r, d ensures RowAgrees(n, r, d) {
      assert RowAgrees(t, r, d);
    }
  }

  lemma ReevaluatedAt(t: Tables, id: SourceId, region: string, listed: set<RuleId>, r: RuleId, d: SourceId)
    ensures var stored := Reevaluated(t, id, region, listed, NO_FAULTS);
            && (Key(r, d) in stored <==>
                  if d != id then Key(r, d) in t.violations
                  else r in listed && r in t.rules && t.rules[r].active && (region == "" || region !in t.rules[r].allowed))
            && (Key(r, d) in stored ==> stored[Key(r, d)] == if d != id then t.violations[Key(r, d)] else region)
  {
    InsertAt(WithoutSource(t.violations, id), RowsForSource(id, region, listed, t.rules, {}), Key(r, d));
    RowsForSourceAt(id, region, listed, t.rules, {}, r, d);
    hide Insert, RowsForSource;
  }

  lemma UpdatedRow(t: Tables, id: SourceId, region: string, listed: set<RuleId>, r: RuleId, d: SourceId)
    requires RowAgrees(t, r, d) && id in t.sources
    ensures RowAgrees(Updated(t, id, Some(region), listed, NO_FAULTS), r, d) <==>
              (d == id && r in t.rules && t.rules[r].active ==>
                 if r in listed then region == "" ==> "" !in t.rules[r].allowed else region in t.rules[r].allowed)
  {
    ReevaluatedAt(t, id, region, listed, r, d);
    hide Reevaluated;
  }

  lemma UpdateAgreesIff(t: Tables, id: SourceId, region: string, listed: set<RuleId>)
    requires Agrees(t) && id in t.sources
    ensures Agrees(Updated(t, id, Some(region), listed, NO_FAULTS)) <==>
              forall r | r in t.rules && t.rules[r].active ::
                if r in listed then region == "" ==> "" !in t.rules[r].allowed else region in t.rules[r].allowed
  {
    hide Agrees, Updated, RowAgrees;
    var n := Updated(t, id, Some(region), listed, NO_FAULTS);
    AgreesByRows(t);
    AgreesByRows(n);
    forall r, d
      ensures RowAgrees(n, r, d) <==>
                (d == id && r in t.rules && t.rules[r].active ==>
                   if r in listed then region == "" ==> "" !in t.rules[r].allowed else region in t.rules[r].allowed)
    {
      assert RowAgrees(t, r, d);
      UpdatedRow(t, id, region, listed, r, d);
    }
    if r :| r in t.rules && t.rules[r].active &&
            !(if r in listed then region == "" ==> "" !in t.rules[r].allowed else region in t.rules[r].allowed)
    {
      assert !RowAgrees(n, r, id);
    }
  }

  /** From agreeing tables, a request without faults keeps agreement exactly when it is covered. */
  lemma StepAgreesIff(t: Tables, step: Step)
    requires Enabled(t, step) && Agrees(t) && step.faults == NO_FAULTS
    ensures Agrees(Next(t, step)) <==> Covered(t, step)
  {
    match step
    case CreateRule(id, allowed, listed, _) =>
      if id !in t.rules { CreateAgreesIff(t, id, allowed, listed); }
    case DeleteRule(id, _) => DeleteAgrees(t, id);
    case UpdateSource(id, region, listed, _) =>
      if id in t.sources && region.Some? { UpdateAgreesIff(t, id, region.value, listed); }
  }

  // ---- whole runs

  predicate NoEmptyRegion(t: Tables) {
    forall r | r in t.rules :: "" !in t.rules[r].allowed
  }

  /** Within the limits a listing is complete. */
  lemma ListingIsComplete<T>(listed: set<T>, all: set<T>, limit: nat)
    requires Listing(listed, all, limit) && |all| <= limit
    ensures listed == all
  {
    assert all == listed + (all - listed);
    assert all - listed == {};
  }

  predicate Ordinary(t: Tables, step: Step) {
    && step.faults == NO_FAULTS
    && |t.rules| <= 500 && |t.sources| <= 10000
    && (step.CreateRule? ==> "" !in step.allowed)
  }

  lemma OrdinaryIsCovered(t: Tables, step: Step)
    requires Enabled(t, step) && Ordinary(t, step) && NoEmptyRegion(t)
    ensures Covered(t, step) && NoEmptyRegion(Next(t, step))
  {
    match step
    case CreateRule(id, allowed, listed, _) =>
      assert |t.sources.Keys| == |t.sources|;
      ListingIsComplete(listed, t.sources.Keys, SOURCE_LIMIT);
    case DeleteRule(_, _) =>
    case UpdateSource(id, region, listed, _) =>
      assert |t.rules.Keys| == |t.rules|;
      ListingIsComplete(listed, t.rules.Keys, RULE_LIMIT);
  }

  /** Over every run within the limits, without faults and without a rule that allows the empty region,
      the stored violations are the recomputed ones, with the recomputed regions. */
  lemma {:induction false} RunsAgree(states: seq<Tables>, steps: seq<Step>)
    requires Run(states, steps) && Agrees(states[0]) && NoEmptyRegion(states[0])
    requires forall i | 0 <= i < |steps| :: Ordinary(states[i], steps[i])
    ensures Agrees(states[|steps|]) && NoEmptyRegion(states[|steps|])
    decreases |steps|
  {
    hide Next, Enabled, Agrees, NoEmptyRegion, Covered, Ordinary;
    var n := |steps|;
    if n > 0 {
      assert Run(states[..n], steps[..n - 1]);
      RunsAgree(states[..n], steps[..n - 1]);
      assert states[..n][n - 1] == states[n - 1];
      OrdinaryIsCovered(states[n - 1], steps[n - 1]);
      assert steps[n - 1].faults == NO_FAULTS by { Faultless(states[n - 1], steps[n - 1]); }
      StepAgreesIff(states[n - 1], steps[n - 1]);
    }
  }

  lemma Faultless(t: Tables, step: Step)
    requires Ordinary(t, step)
    ensures step.faults == NO_FAULTS
  {
  }

  /** Whatever earlier faults left behind, one fault-free change to a real region within the limit makes
      the datasource's rows right and touches no other row. */
  lemma RegionChangeRepairs(t: Tables, id: SourceId, region: string, listed: set<RuleId>)
    requires id in t.sources && region != ""
    requires Listing(listed, t.rules.Keys, RULE_LIMIT) && |t.rules| <= RULE_LIMIT
    ensures var n := Updated(t, id, Some(region), listed, NO_FAULTS);
            && (forall r :: RowAgrees(n, r, id))
            && WithoutSource(n.violations, id) == WithoutSource(t.violations, id)
  {
    assert |t.rules.Keys| == |t.rules|;
    ListingIsComplete(listed, t.rules.Keys, RULE_LIMIT);
    hide Updated, RowAgrees, WithoutSource;
    var n := Updated(t, id, Some(region), listed, NO_FAULTS);
    forall r ensures RowAgrees(n, r, id) {
      RepairedRow(t, id, region, r);
    }
    forall r, d | d != id ensures Key(r, d) in n.violations <==> Key(r, d) in t.violations
                          ensures Key(r, d) in n.violations ==> n.violations[Key(r, d)] == t.violations[Key(r, d)]
    {
      OtherRow(t, id, region, listed, r, d);
    }
    SameWithout(n.violations, t.violations, id);
  }

  lemma RepairedRow(t: Tables, id: SourceId, region: string, r: RuleId)
    requires id in t.sources && region != ""
    ensures RowAgrees(Updated(t, id, Some(region), t.rules.Keys, NO_FAULTS), r, id)
  {
    ReevaluatedAt(t, id, region, t.rules.Keys, r, id);
    hide Reevaluated;
  }

  lemma OtherRow(t: Tables, id: SourceId, region: string, listed: set<RuleId>, r: RuleId, d: SourceId)
    requires id in t.sources && d != id
    ensures var n := Updated(t, id, Some(region), listed, NO_FAULTS);
            && (Key(r, d) in n.violations <==> Key(r, d) in t.violations)
            && (Key(r, d) in n.violations ==> n.violations[Key(r, d)] == t.violations[Key(r, d)])
  {
    ReevaluatedAt(t, id, region, listed, r, d);
    hide Reevaluated;
  }

  lemma SameWithout(a: map<Key, string>, b: map<Key, string>, id: SourceId)
    requires forall r, d | d != id :: Key(r, d) in a <==> Key(r, d) in b
    requires forall r, d | d != id && Key(r, d) in a && Key(r, d) in b :: a[Key(r, d)] == b[Key(r, d)]
    ensures WithoutSource(a, id) == WithoutSource(b, id)
  {
    forall k: Key | k.source != id ensures k in a <==> k in b ensures k in a && k in b ==> a[k] == b[k] {
      assert k == Key(k.rule, k.source);
    }
  }

  /** A creation evaluates at most 10000 datasources, a region change at most 500 rules, and all of them up to there. */
  lemma ListSizes(t: Tables, step: Step)
    requires Enabled(t, step)
    ensures step.CreateRule? ==> |step.listedSources| == (if |t.sources| <= 10000 then |t.sources| else 10000)
    ensures step.UpdateSource? ==> |step.listedRules| == (if |t.rules| <= 500 then |t.rules| else 500)
  {
  }

  /** A datasource that was never tagged violates a rule as the empty region, and is stored with it. */
  lemma UntaggedIsStored(t: Tables, id: RuleId, allowed: seq<string>, listed: set<SourceId>, d: SourceId)
    requires id !in t.rules && d in listed && d in t.sources && t.sources[d] == None && Key(id, d) !in t.violations
    ensures var n := Created(t, id, allowed, listed, NO_FAULTS);
            && (Key(id, d) in n.violations <==> "" !in allowed)
            && (Key(id, d) in n.violations ==> n.violations[Key(id, d)] == "")
            && id in n.rules && n.rules[id] == Rule(allowed, true)
  {
    InsertAt(t.violations, RowsForRule(id, allowed, listed, t.sources, {}), Key(id, d));
    RowsForRuleAt(id, allowed, listed, t.sources, {}, id, d);
    hide Insert, RowsForRule;
  }

  /** The two evaluators disagree about a rule that allows the empty region: creating the rule stores
      nothing for an untagged datasource, setting its region to "" stores a violation. */
  lemma EmptyRegionDisagreement()
    ensures var t := Tables(map["r" := Rule([""], true)], map["d" := Some("eu")], map[Key("r", "d") := "eu"]);
            var step := UpdateSource("d", Some(""), {"r"}, NO_FAULTS);
            && Agrees(t) && Enabled(t, step) && !Agrees(Next(t, step))
            && Key("r", "d") in Next(t, step).violations
  {
    var t := Tables(map["r" := Rule([""], true)], map["d" := Some("eu")], map[Key("r", "d") := "eu"]);
    assert "" in [""] && "eu" !in [""];
    forall r, d ensures RowAgrees(t, r, d) {}
    AgreesByRows(t);
    UpdateAgreesIff(t, "d", "", {"r"});
    ReevaluatedAt(t, "d", "", {"r"}, "r", "d");
  }
}

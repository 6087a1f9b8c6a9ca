/**
 Policies, the policy evaluator and the AI eligibility check. JSON decoding is a parameter: a
 policy carries what its condition and action columns decode to and whether decoding succeeded.
 */
module Governance {
  import opened Prelude

  // json.Unmarshal leaves a value behind even when it reports an error.
  datatype Decoded<T> = Decoded(value: T, ok: bool)

  datatype Conditions = Conditions(
    dataClassification: seq<string>, destinationType: seq<string>, userRole: seq<string>, labels: seq<string>)

  datatype Actions = Actions(action: string, redactionStrategy: string)

  datatype Policy = Policy(
    id: string, name: string, kind: string, active: bool,
    conditions: Decoded<Conditions>, actions: Decoded<Actions>)

  datatype Context = Context(userRole: string, destinationType: string, classifications: seq<string>, dataLabel: string)

  datatype Violation = Violation(policyId: string, policyName: string)

  datatype Redaction = Redaction(entityType: string, strategy: string)

  datatype Evaluation = Evaluation(
    decision: string, applied: seq<string>, violations: seq<Violation>, redactions: seq<Redaction>)

  // ---- conditions

  predicate Overlap(wanted: seq<string>, present: seq<string>) {
    exists c | c in wanted :: c in present
  }

  /** An empty list places no restriction. */
  predicate Matches(c: Conditions, ctx: Context) {
    && (c.dataClassification == [] || Overlap(c.dataClassification, ctx.classifications))
    && (c.destinationType == [] || ctx.destinationType in c.destinationType)
    && (c.userRole == [] || ctx.userRole in c.userRole)
    && (c.labels == [] || ctx.dataLabel in c.labels)
  }

  method AnyOverlap(wanted: seq<string>, present: seq<string>) returns (matched: bool)
    ensures matched == Overlap(wanted, present)
  {
    matched := false;
    var i := 0;
    while i < |wanted|
      invariant 0 <= i <= |wanted|
      invariant matched == Overlap(wanted[..i], present)
    {
      var j := 0;
      var found := false;
      while j < |present| && !found
        invariant 0 <= j <= |present|
        invariant found == (wanted[i] in present[..j])
      {
        if wanted[i] == present[j] {
          found := true;
        }
        j := j + 1;
      }
      assert found == (wanted[i] in present) by {
        assert !found ==> present[..j] == present;
      }
      assert wanted[..i + 1] == wanted[..i] + [wanted[i]];
      if found {
        matched := true;
      }
      i := i + 1;
    }
    assert wanted[..i] == wanted;
  }

  method Listed(values: seq<string>, v: string) returns (matched: bool)
    ensures matched == (v in values)
  {
    var i := 0;
    while i < |values|
      invariant 0 <= i <= |values|
      invariant v !in values[..i]
    {
      if values[i] == v {
        return true;
      }
      i := i + 1;
    }
    return false;
  }

  method MatchesConditions(c: Conditions, ctx: Context) returns (r: bool)
    ensures r == Matches(c, ctx)
  {
    if |c.dataClassification| > 0 {
      var matched := AnyOverlap(c.dataClassification, ctx.classifications);
      if !matched {
        return false;
      }
    }
    if |c.destinationType| > 0 {
      var matched := Listed(c.destinationType, ctx.destinationType);
      if !matched {
        return false;
      }
    }
    if |c.userRole| > 0 {
      var matched := Listed(c.userRole, ctx.userRole);
      if !matched {
        return false;
      }
    }
    if |c.labels| > 0 {
      var matched := Listed(c.labels, ctx.dataLabel);
      if !matched {
        return false;
      }
    }
    return true;
  }

  // ---- what the evaluation means

  predicate Applies(p: Policy, ctx: Context) {
    p.active && Matches(p.conditions.value, ctx)
  }

  predicate Demands(p: Policy, ctx: Context, action: string) {
    Applies(p, ctx) && p.actions.value.action == action
  }

  /** allow < redact < deny */
  function Rank(decision: string): nat {
    if decision == "deny" then 2 else if decision == "redact" then 1 else 0
  }

  predicate IsDecision(d: string) {
    d == "allow" || d == "redact" || d == "deny"
  }

  /** The decision is the maximum over the policies that apply. */
  ghost predicate Strictest(d: string, policies: seq<Policy>, ctx: Context) {
    && IsDecision(d)
    && (d != "allow" ==> exists p | p in policies :: Demands(p, ctx, d))
    && forall p | p in policies && Applies(p, ctx) :: Rank(p.actions.value.action) <= Rank(d)
  }

  function AppliedIds(policies: seq<Policy>, ctx: Context): seq<string> {
    if policies == [] then []
    else
      var n := |policies| - 1;
      AppliedIds(policies[..n], ctx) + (if Applies(policies[n], ctx) then [policies[n].id] else [])
  }

  function Violations(policies: seq<Policy>, ctx: Context): seq<Violation> {
    if policies == [] then []
    else
      var n := |policies| - 1;
      Violations(policies[..n], ctx)
      + (if Demands(policies[n], ctx, "deny") then [Violation(policies[n].id, policies[n].name)] else [])
  }

  function ForClasses(classes: seq<string>, strategy: string): seq<Redaction> {
    if classes == [] then []
    else ForClasses(classes[..|classes| - 1], strategy) + [Redaction(classes[|classes| - 1], strategy)]
  }

  function Redactions(policies: seq<Policy>, ctx: Context): seq<Redaction> {
    if policies == [] then []
    else
      var n := |policies| - 1;
      Redactions(policies[..n], ctx)
      + (if Demands(policies[n], ctx, "redact")
         then ForClasses(ctx.classifications, policies[n].actions.value.redactionStrategy) else [])
  }

  lemma StrictestAfter(d: string, policies: seq<Policy>, p: Policy, ctx: Context, e: string)
    requires Strictest(d, policies, ctx)
    requires e == if Demands(p, ctx, "deny") then "deny"
                  else if Demands(p, ctx, "redact") && d != "deny" then "redact" else d
    ensures Strictest(e, policies + [p], ctx)
  {
    var all := policies + [p];
    assert p in all;
    forall q | q in all && Applies(q, ctx) ensures Rank(q.actions.value.action) <= Rank(e) {
      assert q in policies || q == p;
    }
    if e == d != "allow" {
      var q :| q in policies && Demands(q, ctx, d);
      assert q in all;
    }
  }

  method EvaluatePolicies(policies: seq<Policy>, ctx: Context) returns (r: Evaluation)
    ensures Strictest(r.decision, policies, ctx)
    ensures r.applied == AppliedIds(policies, ctx)
    ensures r.violations == Violations(policies, ctx)
    ensures r.redactions == Redactions(policies, ctx)
  {
    r := Evaluation("allow", [], [], []);
    assert Strictest(r.decision, policies[..0], ctx);
    hide Strictest, Matches;
    var i := 0;
    while i < |policies|
      invariant 0 <= i <= |policies|
      invariant Strictest(r.decision, policies[..i], ctx)
      invariant r.applied == AppliedIds(policies[..i], ctx)
      invariant r.violations == Violations(policies[..i], ctx)
      invariant r.redactions == Redactions(policies[..i], ctx)
    {
      var policy := policies[i];
      assert policies[..i + 1][..i] == policies[..i];
      assert policies[..i + 1] == policies[..i] + [policy];
      ghost var before := r.decision;
      if policy.active {
        var matched := MatchesConditions(policy.conditions.value, ctx);
        if matched {
          r := r.(applied := r.applied + [policy.id]);
          if policy.actions.value.action == "deny" {
            r := r.(decision := "deny", violations := r.violations + [Violation(policy.id, policy.name)]);
          } else if policy.actions.value.action == "redact" {
            if r.decision != "deny" {
              r := r.(decision := "redact");
            }
            var added := RedactClasses(ctx.classifications, policy.actions.value.redactionStrategy);
            r := r.(redactions := r.redactions + added);
          }
        }
      }
      StrictestAfter(before, policies[..i], policy, ctx, r.decision);
      i := i + 1;
    }
    assert policies[..i] == policies;
  }

  method RedactClasses(classes: seq<string>, strategy: string) returns (added: seq<Redaction>)
    ensures added == ForClasses(classes, strategy)
  {
    added := [];
    var i := 0;
    while i < |classes|
      invariant 0 <= i <= |classes|
      invariant added == ForClasses(classes[..i], strategy)
    {
      assert classes[..i + 1][..i] == classes[..i];
      added := added + [Redaction(classes[i], strategy)];
      i := i + 1;
    }
    assert classes[..i] == classes;
  }

  // ---- properties of the decision

  /** The decision depends on which policies there are, not on their order or multiplicity. */
  lemma OrderDoesNotMatter(a: seq<Policy>, b: seq<Policy>, ctx: Context, d: string, e: string)
    requires Strictest(d, a, ctx) && Strictest(e, b, ctx)
    requires forall p :: p in a <==> p in b
    ensures d == e
  {
    NeverWeaker(a, b, ctx, ctx, d, e);
    NeverWeaker(b, a, ctx, ctx, e, d);
  }

  lemma MatchesMoreClasses(c: Conditions, ctx: Context, more: Context)
    requires Matches(c, ctx)
    requires more.(classifications := ctx.classifications) == ctx
    requires forall k | k in ctx.classifications :: k in more.classifications
    ensures Matches(c, more)
  {
    if c.dataClassification != [] {
      var k :| k in c.dataClassification && k in ctx.classifications;
      assert k in more.classifications;
    }
  }

  /** Adding policies or classifications never weakens the decision. */
  lemma NeverWeaker(a: seq<Policy>, b: seq<Policy>, ctx: Context, more: Context, d: string, e: string)
    requires Strictest(d, a, ctx) && Strictest(e, b, more)
    requires forall p | p in a :: p in b
    requires more.(classifications := ctx.classifications) == ctx
    requires forall k | k in ctx.classifications :: k in more.classifications
    ensures Rank(d) <= Rank(e)
  {
    if d != "allow" {
      var p :| p in a && Demands(p, ctx, d);
      MatchesMoreClasses(p.conditions.value, ctx, more);
      assert p in b && Applies(p, more);
    }
  }

  /** Violations are reported exactly when the decision is deny, one for each matching deny policy. */
  lemma {:induction false} DenyIffViolations(policies: seq<Policy>, ctx: Context)
    ensures Violations(policies, ctx) != [] <==> exists p | p in policies :: Demands(p, ctx, "deny")
  {
    if policies != [] {
      var n := |policies| - 1;
      DenyIffViolations(policies[..n], ctx);
      assert policies == policies[..n] + [policies[n]];
    }
  }

  lemma DecisionMatchesViolations(policies: seq<Policy>, ctx: Context, d: string)
    requires Strictest(d, policies, ctx)
    ensures d == "deny" <==> Violations(policies, ctx) != []
  {
    DenyIffViolations(policies, ctx);
    if p :| p in policies && Demands(p, ctx, "deny") {
      assert Rank(p.actions.value.action) == 2;
    }
  }

  function MatchingRedactPolicies(policies: seq<Policy>, ctx: Context): nat {
    if policies == [] then 0
    else (if Demands(policies[0], ctx, "redact") then 1 else 0) + MatchingRedactPolicies(policies[1..], ctx)
  }

  lemma {:induction false} MatchingSplits(policies: seq<Policy>, ctx: Context)
    requires policies != []
    ensures var n := |policies| - 1;
            MatchingRedactPolicies(policies, ctx)
            == MatchingRedactPolicies(policies[..n], ctx) + (if Demands(policies[n], ctx, "redact") then 1 else 0)
  {
    var n := |policies| - 1;
    if n > 0 {
      assert policies[..n][1..] == policies[1..][..n - 1];
      MatchingSplits(policies[1..], ctx);
    } else {
      assert policies[1..] == [];
    }
  }

  lemma {:induction false} ForClassesLength(classes: seq<string>, strategy: string)
    ensures |ForClasses(classes, strategy)| == |classes|
    ensures forall x :: x in ForClasses(classes, strategy) <==> x.strategy == strategy && x.entityType in classes
  {
    if classes != [] {
      var n := |classes| - 1;
      ForClassesLength(classes[..n], strategy);
      assert classes == classes[..n] + [classes[n]];
    }
  }

  lemma RedactionsSplit(policies: seq<Policy>, ctx: Context)
    requires policies != []
    ensures var n := |policies| - 1;
            |Redactions(policies, ctx)|
            == |Redactions(policies[..n], ctx)| + (if Demands(policies[n], ctx, "redact") then |ctx.classifications| else 0)
  {
    ForClassesLength(ctx.classifications, policies[|policies| - 1].actions.value.redactionStrategy);
  }

  /** Every matching redact policy contributes one entry per classification. */
  lemma {:induction false} RedactionCount(policies: seq<Policy>, ctx: Context)
    ensures |Redactions(policies, ctx)| == MatchingRedactPolicies(policies, ctx) * |ctx.classifications|
  {
    if policies != [] {
      hide Redactions, MatchingRedactPolicies, Demands;
      RedactionCount(policies[..|policies| - 1], ctx);
      MatchingSplits(policies, ctx);
      RedactionsSplit(policies, ctx);
      OneMoreTimes(MatchingRedactPolicies(policies[..|policies| - 1], ctx), |ctx.classifications|);
    }
  }

  /** A redaction is listed exactly when its class is present and a matching redact policy uses its strategy. */
  lemma {:induction false} RedactionListed(policies: seq<Policy>, ctx: Context, x: Redaction)
    ensures x in Redactions(policies, ctx)
            <==> && x.entityType in ctx.classifications
                 && exists p | p in policies :: Demands(p, ctx, "redact") && p.actions.value.redactionStrategy == x.strategy
  {
    if policies != [] {
      var n := |policies| - 1;
      RedactionListed(policies[..n], ctx, x);
      ForClassesLength(ctx.classifications, policies[n].actions.value.redactionStrategy);
      assert policies == policies[..n] + [policies[n]];
    }
  }

  // ---- CheckAIEligibility

  predicate Blocks(p: Policy, category: string) {
    && p.active && p.kind == "ai" && p.actions.value.action == "deny"
    && category in p.conditions.value.dataClassification
  }

  method CheckAIEligibility(policies: seq<Policy>, classifications: seq<string>)
    returns (eligible: bool, reasons: seq<(string, string)>)
    ensures eligible <==> !exists p, c | p in policies && c in classifications :: Blocks(p, c)
    ensures forall r :: r in reasons <==>
              exists p | p in policies :: Blocks(p, r.0) && r.0 in classifications && r.1 == p.name
  {
    reasons := [];
    var i := 0;
    while i < |policies|
      invariant 0 <= i <= |policies|
      invariant forall r :: r in reasons <==>
                  exists p | p in policies[..i] :: Blocks(p, r.0) && r.0 in classifications && r.1 == p.name
    {
      var added := BlockedBy(policies[i], classifications);
      assert policies[..i + 1] == policies[..i] + [policies[i]];
      reasons := reasons + added;
      i := i + 1;
    }
    assert policies[..i] == policies;
    eligible := |reasons| == 0;
    if p, c :| p in policies && c in classifications && Blocks(p, c) {
      assert (c, p.name) in reasons;
    }
    if !eligible {
      assert reasons[0] in reasons;
    }
  }

  /** The two inner loops: a reason for every match, so duplicates in either list repeat it. */
  method BlockedBy(p: Policy, classifications: seq<string>) returns (reasons: seq<(string, string)>)
    ensures forall r :: r in reasons <==> Blocks(p, r.0) && r.0 in classifications && r.1 == p.name
  {
    reasons := [];
    if !p.active || p.kind != "ai" {
      return;
    }
    var blocked := p.conditions.value.dataClassification;
    var i := 0;
    while i < |classifications|
      invariant 0 <= i <= |classifications|
      invariant forall r :: r in reasons <==> Blocks(p, r.0) && r.0 in classifications[..i] && r.1 == p.name
    {
      var category := classifications[i];
      var j := 0;
      ghost var before := reasons;
      while j < |blocked|
        invariant 0 <= j <= |blocked|
        invariant forall r :: r in reasons <==>
                    r in before || (p.actions.value.action == "deny" && category in blocked[..j] && r == (category, p.name))
      {
        if category == blocked[j] && p.actions.value.action == "deny" {
          reasons := reasons + [(category, p.name)];
        }
        assert blocked[..j + 1] == blocked[..j] + [blocked[j]];
        j := j + 1;
      }
      assert blocked[..j] == blocked;
      assert classifications[..i + 1] == classifications[..i] + [category];
      i := i + 1;
    }
    assert classifications[..i] == classifications;
  }

  /** A policy that makes a class ineligible for AI also denies every query that carries the class
      and meets the policy's other conditions. */
  lemma IneligibleIsDenied(policies: seq<Policy>, p: Policy, category: string, ctx: Context, d: string)
    requires p in policies && Blocks(p, category) && category in ctx.classifications
    requires Matches(p.conditions.value.(dataClassification := []), ctx)
    requires Strictest(d, policies, ctx)
    ensures d == "deny"
  {
    assert Overlap(p.conditions.value.dataClassification, ctx.classifications);
    assert Applies(p, ctx);
  }
}

/**
 What one policy does to an evaluation, for each of its four condition lists, stated about the results of
 EvaluatePolicies and CheckAIEligibility alone.
 */
module PolicyEffects {
  import opened Prelude
  import opened Governance

  /** What EvaluatePolicies promises of its result. */
  ghost predicate Evaluates(r: Evaluation, policies: seq<Policy>, ctx: Context) {
    && Strictest(r.decision, policies, ctx)
    && r.applied == AppliedIds(policies, ctx)
    && r.violations == Violations(policies, ctx)
    && r.redactions == Redactions(policies, ctx)
  }

  /** Some list of the policy is not empty and misses the context. */
  predicate Misses(p: Policy, ctx: Context) {
    var c := p.conditions.value;
    || (c.dataClassification != [] && forall k | k in c.dataClassification :: k !in ctx.classifications)
    || (c.destinationType != [] && ctx.destinationType !in c.destinationType)
    || (c.userRole != [] && ctx.userRole !in c.userRole)
    || (c.labels != [] && ctx.dataLabel !in c.labels)
  }

  lemma AppliesUnlessMissed(p: Policy, ctx: Context)
    ensures Applies(p, ctx) <==> p.active && !Misses(p, ctx)
  {
    var c := p.conditions.value;
    if c.dataClassification != [] && !Overlap(c.dataClassification, ctx.classifications) {
      assert forall k | k in c.dataClassification :: k !in ctx.classifications;
    }
  }

  lemma SnocSplits(policies: seq<Policy>, p: Policy, ctx: Context)
    ensures AppliedIds(policies + [p], ctx) == AppliedIds(policies, ctx) + (if Applies(p, ctx) then [p.id] else [])
    ensures Violations(policies + [p], ctx) ==
              Violations(policies, ctx) + (if Demands(p, ctx, "deny") then [Violation(p.id, p.name)] else [])
    ensures Redactions(policies + [p], ctx) ==
              Redactions(policies, ctx)
              + (if Demands(p, ctx, "redact") then ForClasses(ctx.classifications, p.actions.value.redactionStrategy) else [])
  {
    assert (policies + [p])[..|policies|] == policies;
    hide Demands, Applies;
  }

  /** Without policies everything is allowed. */
  lemma NothingIsAllowed(r: Evaluation, ctx: Context)
    requires Evaluates(r, [], ctx)
    ensures r == Evaluation("allow", [], [], [])
  {
  }

  lemma DecisionSnoc(d: string, e: string, policies: seq<Policy>, p: Policy, ctx: Context)
    requires Strictest(d, policies, ctx) && Strictest(e, policies + [p], ctx)
    ensures e == if Demands(p, ctx, "deny") then "deny"
                 else if Demands(p, ctx, "redact") && d != "deny" then "redact" else d
  {
    var next := if Demands(p, ctx, "deny") then "deny"
                else if Demands(p, ctx, "redact") && d != "deny" then "redact" else d;
    StrictestAfter(d, policies, p, ctx, next);
    OrderDoesNotMatter(policies + [p], policies + [p], ctx, e, next);
  }

  /** A policy that is inactive, or has a list that misses the context, changes nothing. */
  lemma MissedPolicyChangesNothing(policies: seq<Policy>, p: Policy, ctx: Context, r: Evaluation, n: Evaluation)
    requires Evaluates(r, policies, ctx) && Evaluates(n, policies + [p], ctx)
    requires !p.active || Misses(p, ctx)
    ensures n == r
  {
    AppliesUnlessMissed(p, ctx);
    SnocSplits(policies, p, ctx);
    DecisionSnoc(r.decision, n.decision, policies, p, ctx);
    hide Strictest, AppliedIds, Violations, Redactions, Misses, Applies;
  }

  /** An active policy whose every list is empty or met adds its id, raises the decision to at least its action, and
      leaves a violation or one redaction for each class, as the action says. */
  lemma MetPolicyApplies(policies: seq<Policy>, p: Policy, ctx: Context, r: Evaluation, n: Evaluation)
    requires Evaluates(r, policies, ctx) && Evaluates(n, policies + [p], ctx)
    requires p.active && !Misses(p, ctx)
    ensures n.applied == r.applied + [p.id]
    ensures n.decision == (if p.actions.value.action == "deny" then "deny"
                           else if p.actions.value.action == "redact" && r.decision != "deny" then "redact" else r.decision)
    ensures n.violations ==
              if p.actions.value.action == "deny" then r.violations + [Violation(p.id, p.name)] else r.violations
    ensures |n.redactions| ==
              |r.redactions| + (if p.actions.value.action == "redact" then |ctx.classifications| else 0)
    ensures forall k | 0 <= k < |n.redactions| ::
              n.redactions[k] == if k < |r.redactions| then r.redactions[k]
                                 else Redaction(ctx.classifications[k - |r.redactions|], p.actions.value.redactionStrategy)
  {
    AppliesUnlessMissed(p, ctx);
    SnocSplits(policies, p, ctx);
    DecisionSnoc(r.decision, n.decision, policies, p, ctx);
    ForClassesAt(ctx.classifications, p.actions.value.redactionStrategy);
    hide Strictest, AppliedIds, Violations, Redactions, Misses, Applies, ForClasses;
  }

  lemma {:induction false} ForClassesAt(classes: seq<string>, strategy: string)
    ensures |ForClasses(classes, strategy)| == |classes|
    ensures forall k | 0 <= k < |classes| :: ForClasses(classes, strategy)[k] == Redaction(classes[k], strategy)
  {
    if classes != [] {
      ForClassesAt(classes[..|classes| - 1], strategy);
    }
  }

  // ---- AI eligibility

  /** What CheckAIEligibility promises of its result. */
  ghost predicate Checks(eligible: bool, reasons: seq<(string, string)>, policies: seq<Policy>, classes: seq<string>) {
    && (eligible <==> !exists p, c | p in policies && c in classes :: Blocks(p, c))
    && forall r :: r in reasons <==>
         exists p | p in policies :: Blocks(p, r.0) && r.0 in classes && r.1 == p.name
  }

  /** An active AI policy that denies a class present makes the data ineligible, with that reason. */
  lemma AiDenyBlocks(policies: seq<Policy>, p: Policy, c: string, classes: seq<string>, eligible: bool,
                     reasons: seq<(string, string)>)
    requires Checks(eligible, reasons, policies, classes) && p in policies && c in classes
    requires p.active && p.kind == "ai" && p.actions.value.action == "deny" && c in p.conditions.value.dataClassification
    ensures !eligible && (c, p.name) in reasons
  {
    assert Blocks(p, c);
  }

  /** Nothing else does. */
  lemma OnlyAiDenyBlocks(policies: seq<Policy>, classes: seq<string>, eligible: bool, reasons: seq<(string, string)>)
    requires Checks(eligible, reasons, policies, classes)
    requires forall p | p in policies ::
               || !p.active || p.kind != "ai" || p.actions.value.action != "deny"
               || forall c | c in p.conditions.value.dataClassification :: c !in classes
    ensures eligible && forall r :: r !in reasons
  {
  }
}

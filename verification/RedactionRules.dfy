/**
 Which entities are redacted and with what, stated about the output of redactSensitiveData alone.
 */
module RedactionRules {
  import opened Prelude
  import opened Governance
  import opened Redaction

  /** What a reader of the rules would say, without the code's own predicates. */
  predicate SensitiveByDefault(kind: string) {
    || kind == "SSN" || kind == "CREDIT_CARD" || kind == "BANK_ACCOUNT" || kind == "PHI" || kind == "HEALTH_RECORD"
    || kind == "GENETIC_DATA" || kind == "PASSPORT" || kind == "DRIVER_LICENSE"
  }

  predicate AsksFor(p: Policy, kind: string) {
    && p.active
    && (p.kind == "redaction" || p.kind == "ai")
    && p.conditions.ok && p.actions.ok
    && (p.actions.value.action == "redact" || p.actions.value.action == "deny")
    && exists c | c in p.conditions.value.dataClassification :: c == kind || c == "*"
  }

  predicate MustGo(policies: seq<Policy>, kind: string) {
    SensitiveByDefault(kind) || exists p | p in policies :: AsksFor(p, kind)
  }

  lemma AcceptedIffMustGo(policies: seq<Policy>, kind: string)
    ensures Accepts(policies, kind) <==> MustGo(policies, kind)
  {
    forall p ensures Covers(p, kind) <==> AsksFor(p, kind) {
      AsksIffCovers(p, kind);
    }
    hide Covers, AsksFor;
  }

  lemma AsksIffCovers(p: Policy, kind: string)
    ensures Covers(p, kind) <==> AsksFor(p, kind)
  {
  }

  // ---- spans of all entities

  function SpansOf(entities: seq<Entity>): seq<Span> {
    seq(|entities|, i requires 0 <= i < |entities| => SpanOf(entities[i]))
  }

  lemma {:induction false} AcceptedComeFrom(entities: seq<Entity>, policies: seq<Policy>, s: Span)
    ensures s in AcceptedSpans(entities, policies) <==>
              exists e | e in entities :: SpanOf(e) == s && Accepts(policies, e.kind)
  {
    hide Accepts;
    if entities != [] {
      AcceptedComeFrom(entities[1..], policies, s);
      assert entities == [entities[0]] + entities[1..];
    }
  }

  /** Leaving entities out keeps the others in bounds and disjoint. */
  lemma {:induction false} AcceptedAreDisjoint(entities: seq<Entity>, policies: seq<Policy>, length: int)
    requires Disjoint(SpansOf(entities), length)
    ensures Disjoint(AcceptedSpans(entities, policies), length)
    ensures forall s | s in AcceptedSpans(entities, policies) :: s in SpansOf(entities)
  {
    if entities != [] {
      var rest := entities[1..];
      assert SpansOf(entities) == [SpanOf(entities[0])] + SpansOf(rest);
      RestIsDisjoint(SpanOf(entities[0]), SpansOf(rest), length);
      AcceptedAreDisjoint(rest, policies, length);
      if Accepts(policies, entities[0].kind) {
        var accepted := AcceptedSpans(rest, policies);
        forall i | 0 <= i < |accepted| ensures Apart(SpanOf(entities[0]), accepted[i]) {
          assert accepted[i] in SpansOf(rest);
        }
        DisjointWithFirst(SpanOf(entities[0]), accepted, length);
      }
    }
  }

  lemma RestIsDisjoint(s: Span, rest: seq<Span>, length: int)
    requires Disjoint([s] + rest, length)
    ensures Disjoint(rest, length) && InBounds(s.start, s.end, length)
    ensures forall x | x in rest :: Apart(s, x)
  {
    var all := [s] + rest;
    assert all[0] == s;
    forall i | 0 <= i < |rest| ensures InBounds(rest[i].start, rest[i].end, length) && Apart(s, rest[i]) {
      assert all[i + 1] == rest[i];
    }
    forall i, j | 0 <= i < j < |rest| ensures Apart(rest[i], rest[j]) {
      assert all[i + 1] == rest[i] && all[j + 1] == rest[j];
    }
  }

  lemma DisjointWithFirst(s: Span, rest: seq<Span>, length: int)
    requires Disjoint(rest, length) && InBounds(s.start, s.end, length)
    requires forall i | 0 <= i < |rest| :: Apart(s, rest[i])
    ensures Disjoint([s] + rest, length)
  {
  }

  // ---- the output

  predicate Reported(out: Output, e: Entity) {
    exists r | r in out.reports :: r.start == e.start && r.end == e.end && r.kind == e.kind && r.masked == Mask(e.kind)
  }

  lemma ReportsListSpans(spans: seq<Span>, r: Report)
    ensures r in Reports(spans) <==> exists s | s in spans :: r == ReportOf(s)
  {
    if s :| s in spans && r == ReportOf(s) {
      var i :| 0 <= i < |spans| && spans[i] == s;
      assert Reports(spans)[i] == r;
    }
  }

  /** For in-bounds, disjoint entities an entity is reported exactly when its type is sensitive by default or an active
      redaction or AI policy that decodes asks for it, by name or by "*". */
  lemma ReportedIff(text: string, entities: seq<Entity>, policies: seq<Policy>, out: Output, e: Entity)
    requires Redacts(text, entities, policies, out) && Disjoint(SpansOf(entities), |text|) && e in entities
    ensures Reported(out, e) <==> MustGo(policies, e.kind)
  {
    hide MustGo, Accepts, Redacts, Rebuilt;
    AcceptedAreDisjoint(entities, policies, |text|);
    var falling := RedactionFalls(text, entities, policies, out);
    AcceptedIffMustGo(policies, e.kind);
    AcceptedComeFrom(entities, policies, SpanOf(e));
    SameMembers(falling, AcceptedSpans(entities, policies), SpanOf(e));
    hide AcceptedSpans, Disjoint, Falling;
    if Accepts(policies, e.kind) {
      ReportsListSpans(falling, ReportOf(SpanOf(e)));
      assert ReportOf(SpanOf(e)) in out.reports;
    }
    if r :| r in out.reports && r.start == e.start && r.end == e.end && r.kind == e.kind && r.masked == Mask(e.kind) {
      ReportsListSpans(falling, r);
    }
  }

  lemma SameMembers(a: seq<Span>, b: seq<Span>, s: Span)
    requires multiset(a) == multiset(b)
    ensures s in a <==> s in b
  {
    assert s in multiset(a) <==> s in multiset(b);
  }

  /** Whatever the policies, an entity of one of the eight sensitive types is reported. */
  lemma SensitiveIsReported(text: string, entities: seq<Entity>, policies: seq<Policy>, out: Output, e: Entity)
    requires Redacts(text, entities, policies, out) && Disjoint(SpansOf(entities), |text|) && e in entities
    requires || e.kind == "SSN" || e.kind == "CREDIT_CARD" || e.kind == "BANK_ACCOUNT" || e.kind == "PHI"
             || e.kind == "HEALTH_RECORD" || e.kind == "GENETIC_DATA" || e.kind == "PASSPORT" || e.kind == "DRIVER_LICENSE"
    ensures Reported(out, e)
  {
    ReportedIff(text, entities, policies, out, e);
    hide Redacts, Disjoint, Reported;
  }

  /** Without an active redaction or AI policy that decodes, nothing else is. */
  lemma OthersAreLeftAlone(text: string, entities: seq<Entity>, policies: seq<Policy>, out: Output, e: Entity)
    requires Redacts(text, entities, policies, out) && Disjoint(SpansOf(entities), |text|) && e in entities
    requires !SensitiveByDefault(e.kind)
    requires forall p | p in policies ::
               !(p.active && (p.kind == "redaction" || p.kind == "ai") && p.conditions.ok && p.actions.ok)
    ensures !Reported(out, e)
  {
    ReportedIff(text, entities, policies, out, e);
    hide Redacts, Disjoint, Reported, SensitiveByDefault;
  }

  /** What stands in sensitive or asked-for spans cannot be told from the output, whatever the policies. */
  lemma MustGoIsHidden(a: string, b: string, entities: seq<Entity>, policies: seq<Policy>, x: Output, y: Output)
    requires |a| == |b| && Disjoint(SpansOf(entities), |a|)
    requires forall i | 0 <= i < |a| && a[i] != b[i] ::
               exists e | e in entities :: MustGo(policies, e.kind) && e.start <= i < e.end
    requires Redacts(a, entities, policies, x) && Redacts(b, entities, policies, y)
    ensures x == y
  {
    hide MustGo, Accepts, Redacts;
    AcceptedAreDisjoint(entities, policies, |a|);
    forall i | 0 <= i < |a| && a[i] != b[i] ensures Hidden(AcceptedSpans(entities, policies), i) {
      var e :| e in entities && MustGo(policies, e.kind) && e.start <= i < e.end;
      AcceptedIffMustGo(policies, e.kind);
      AcceptedComeFrom(entities, policies, SpanOf(e));
      assert SpanOf(e) in AcceptedSpans(entities, policies);
    }
    hide AcceptedSpans, Disjoint, Hidden;
    RedactionHidesContent(a, b, entities, entities, policies, x, y);
  }

  // ---- masks

  predicate NamedKind(kind: string) {
    || kind in {"SSN", "CREDIT_CARD", "EMAIL", "PHONE", "ADDRESS", "PASSPORT", "DRIVER_LICENSE", "BANK_ACCOUNT"}
    || kind in {"PHI", "HEALTH_RECORD", "GENETIC_DATA", "PII", "IP_ADDRESS", "DATE_OF_BIRTH", "NAME"}
  }

  /** The fifteen masks with a wording of their own; every other type is masked by its upper-cased name. */
  lemma NamedMasks()
    ensures Mask("SSN") == "[REDACTED_SSN]" && Mask("CREDIT_CARD") == "[REDACTED_CC]" && Mask("EMAIL") == "[REDACTED_EMAIL]"
    ensures Mask("PHONE") == "[REDACTED_PHONE]" && Mask("ADDRESS") == "[REDACTED_ADDRESS]"
    ensures Mask("PASSPORT") == "[REDACTED_PASSPORT]" && Mask("DRIVER_LICENSE") == "[REDACTED_DL]"
    ensures Mask("BANK_ACCOUNT") == "[REDACTED_BANK]" && Mask("PHI") == "[REDACTED_PHI]"
    ensures Mask("HEALTH_RECORD") == "[REDACTED_HEALTH]" && Mask("GENETIC_DATA") == "[REDACTED_GENETIC]"
    ensures Mask("PII") == "[REDACTED_PII]" && Mask("IP_ADDRESS") == "[REDACTED_IP]"
    ensures Mask("DATE_OF_BIRTH") == "[REDACTED_DOB]" && Mask("NAME") == "[REDACTED_NAME]"
  {
  }

  lemma OtherMasks(kind: string, i: nat)
    requires !NamedKind(kind) && i < |kind|
    ensures |Mask(kind)| == |kind| + 11 && Mask(kind)[..10] == "[REDACTED_" && Mask(kind)[|kind| + 10] == ']'
    ensures Mask(kind)[10 + i] == if 'a' <= kind[i] <= 'z' then (kind[i] as int - 'a' as int + 'A' as int) as char else kind[i]
  {
  }

  // ---- the fallback

  lemma ReplaceLater(s: string, part: string, mask: string)
    requires s != "" && !OccursAt(s, part, 0)
    ensures ReplaceFirst(s, part, mask) == [s[0]] + ReplaceFirst(s[1..], part, mask)
  {
    assert !(part <= s);
  }

  lemma ReplaceHere(s: string, part: string, mask: string)
    requires OccursAt(s, part, 0)
    ensures ReplaceFirst(s, part, mask) == mask + s[|part|..]
  {
    assert part <= s;
  }

  lemma HeadAndTail(s: string, i: nat)
    requires 0 < i <= |s|
    ensures s[..i] == [s[0]] + s[1..][..i - 1]
  {
  }

  lemma RestOfTail(s: string, i: nat)
    requires 0 < i <= |s|
    ensures s[i..] == s[1..][i - 1..]
  {
  }

  lemma Regrouped(a: string, b: string, c: string, d: string)
    ensures a + (b + c + d) == (a + b) + c + d
  {
  }

  /** What replacing the occurrence one place later in the tail means for the whole. */
  lemma TailReplaced(s: string, part: string, mask: string, i: nat)
    requires s != "" && i > 0 && i + |part| <= |s| && !OccursAt(s, part, 0)
    requires ReplaceFirst(s[1..], part, mask) == s[1..][..i - 1] + mask + s[1..][i - 1 + |part|..]
    ensures ReplaceFirst(s, part, mask) == s[..i] + mask + s[i + |part|..]
  {
    ReplaceLater(s, part, mask);
    hide ReplaceFirst, OccursAt;
    HeadAndTail(s, i);
    RestOfTail(s, i + |part|);
    Regrouped([s[0]], s[1..][..i - 1], mask, s[i + |part|..]);
  }

  /** The first occurrence of the value is replaced, and nothing when there is none. */
  lemma {:induction false} FallbackReplacesFirst(s: string, part: string, mask: string, i: nat)
    requires forall k: nat | k < i :: !OccursAt(s, part, k)
    ensures OccursAt(s, part, i) ==> i + |part| <= |s| && ReplaceFirst(s, part, mask) == s[..i] + mask + s[i + |part|..]
    ensures i > |s| ==> ReplaceFirst(s, part, mask) == s
    decreases |s|
  {
    if i == 0 {
      if OccursAt(s, part, 0) {
        ReplaceHere(s, part, mask);
        hide ReplaceFirst, OccursAt;
        assert s[..0] + mask == mask;
      }
    } else if s == "" {
      assert !OccursAt(s, part, 0);
    } else {
      forall k: nat | k < i - 1 ensures !OccursAt(s[1..], part, k) {
        OccursOneLater(s, part, k);
      }
      FallbackReplacesFirst(s[1..], part, mask, i - 1);
      OccursOneLater(s, part, i - 1);
      ReplaceLater(s, part, mask);
      hide OccursAt, ReplaceFirst;
      if OccursAt(s, part, i) {
        OccurrenceFits(s, part, i);
        TailReplaced(s, part, mask, i);
      }
      assert s == [s[0]] + s[1..];
    }
  }

  lemma OccurrenceFits(s: string, part: string, i: nat)
    requires OccursAt(s, part, i)
    ensures i + |part| <= |s|
  {
  }

  /** A single out-of-bounds entity: its value is replaced once and the report carries no position. */
  lemma OutOfBoundsFallsBack(text: string, e: Entity, policies: seq<Policy>, out: Output)
    requires Redacts(text, [e], policies, out) && (e.start < 0 || e.end > |text| || e.start >= e.end)
    ensures out == if MustGo(policies, e.kind)
                   then Output(ReplaceFirst(text, e.value, Mask(e.kind)), [Report(-1, -1, e.kind, Mask(e.kind))])
                   else Output(text, [])
  {
    hide MustGo, Accepts, Mask, ReplaceFirst;
    AcceptedIffMustGo(policies, e.kind);
    var sorted: seq<Entity> :| multiset(sorted) == multiset([e]) && Descending(sorted)
                               && out == ApplyAll(Output(text, []), sorted, policies);
    assert |sorted| == |multiset(sorted)| == 1;
    assert sorted[0] in multiset(sorted);
    assert sorted == [e] && sorted[1..] == [];
    var next := if Accepts(policies, e.kind) then Apply(Output(text, []), e) else Output(text, []);
    assert ApplyAll(next, [], policies) == next;
    assert [] + [Report(-1, -1, e.kind, Mask(e.kind))] == [Report(-1, -1, e.kind, Mask(e.kind))];
  }
}

/**
 redactSensitiveData: masks are spliced in from right to left, so that the offsets of entities
 further left stay valid. Strings are byte strings, one char per byte.
 */
module Redaction {
  import opened Prelude
  import opened Governance

  datatype Entity = Entity(kind: string, value: string, start: int, end: int)

  // What is reported; the fallback reports -1, -1.
  datatype Report = Report(start: int, end: int, kind: string, masked: string)

  // ---- masks and shouldRedact

  const MASKS: map<string, string> := map[
    "SSN" := "[REDACTED_SSN]", "CREDIT_CARD" := "[REDACTED_CC]", "EMAIL" := "[REDACTED_EMAIL]",
    "PHONE" := "[REDACTED_PHONE]", "ADDRESS" := "[REDACTED_ADDRESS]", "PASSPORT" := "[REDACTED_PASSPORT]",
    "DRIVER_LICENSE" := "[REDACTED_DL]", "BANK_ACCOUNT" := "[REDACTED_BANK]", "PHI" := "[REDACTED_PHI]",
    "HEALTH_RECORD" := "[REDACTED_HEALTH]", "GENETIC_DATA" := "[REDACTED_GENETIC]", "PII" := "[REDACTED_PII]",
    "IP_ADDRESS" := "[REDACTED_IP]", "DATE_OF_BIRTH" := "[REDACTED_DOB]", "NAME" := "[REDACTED_NAME]"]

  const SENSITIVE: set<string> := {
    "SSN", "CREDIT_CARD", "BANK_ACCOUNT", "PHI", "HEALTH_RECORD", "GENETIC_DATA", "PASSPORT", "DRIVER_LICENSE"}

  function ToUpper(s: string): string {
    seq(|s|, i requires 0 <= i < |s| => if 'a' <= s[i] <= 'z' then ((s[i] as int - 32) as char) else s[i])
  }

  function Mask(kind: string): string {
    if kind in MASKS then MASKS[kind] else "[REDACTED_" + ToUpper(kind) + "]"
  }

  predicate Covers(p: Policy, kind: string) {
    && p.active && (p.kind == "redaction" || p.kind == "ai")
    && p.conditions.ok && p.actions.ok
    && (kind in p.conditions.value.dataClassification || "*" in p.conditions.value.dataClassification)
    && (p.actions.value.action == "redact" || p.actions.value.action == "deny")
  }

  predicate Accepts(policies: seq<Policy>, kind: string) {
    (exists p | p in policies :: Covers(p, kind)) || kind in SENSITIVE
  }

  method ShouldRedact(kind: string, policies: seq<Policy>) returns (r: bool)
    ensures r == Accepts(policies, kind)
  {
    var i := 0;
    while i < |policies|
      invariant 0 <= i <= |policies|
      invariant forall p | p in policies[..i] :: !Covers(p, kind)
    {
      var p := policies[i];
      assert policies[..i + 1] == policies[..i] + [p];
      if p.active && (p.kind == "redaction" || p.kind == "ai") && p.conditions.ok && p.actions.ok {
        var listed := p.conditions.value.dataClassification;
        var j := 0;
        while j < |listed|
          invariant 0 <= j <= |listed|
          invariant p.actions.value.action in {"redact", "deny"} ==>
                      forall k | 0 <= k < j :: listed[k] != kind && listed[k] != "*"
        {
          if listed[j] == kind || listed[j] == "*" {
            if p.actions.value.action == "redact" || p.actions.value.action == "deny" {
              assert Covers(p, kind);
              return true;
            }
          }
          j := j + 1;
        }
      }
      i := i + 1;
    }
    assert policies[..i] == policies;
    return kind in SENSITIVE;
  }

  /** A class that CheckAIEligibility refuses is also redacted, when its policy decodes. */
  lemma IneligibleIsRedacted(policies: seq<Policy>, p: Policy, kind: string)
    requires p in policies && Blocks(p, kind) && p.conditions.ok && p.actions.ok
    ensures Accepts(policies, kind)
  {
    assert Covers(p, kind);
  }

  // ---- the algorithm

  datatype Output = Output(text: string, reports: seq<Report>)

  predicate InBounds(start: int, end: int, length: int) {
    0 <= start < end <= length
  }

  predicate HasPrefix(s: string, prefix: string) {
    prefix <= s
  }

  /** strings.Replace(s, old, new, 1) */
  function ReplaceFirst(s: string, old_: string, new_: string): string {
    if HasPrefix(s, old_) then new_ + s[|old_|..]
    else if s == [] then []
    else [s[0]] + ReplaceFirst(s[1..], old_, new_)
  }

  /** One accepted entity: splice at its offsets, or fall back to replacing its value. */
  function Apply(out: Output, e: Entity): Output {
    if InBounds(e.start, e.end, |out.text|)
    then Output(out.text[..e.start] + Mask(e.kind) + out.text[e.end..],
                out.reports + [Report(e.start, e.end, e.kind, Mask(e.kind))])
    else Output(ReplaceFirst(out.text, e.value, Mask(e.kind)),
                out.reports + [Report(-1, -1, e.kind, Mask(e.kind))])
  }

  function ApplyAll(out: Output, sorted: seq<Entity>, policies: seq<Policy>): Output
    decreases |sorted|
  {
    if sorted == [] then out
    else ApplyAll(if Accepts(policies, sorted[0].kind) then Apply(out, sorted[0]) else out, sorted[1..], policies)
  }

  predicate Descending(s: seq<Entity>) {
    forall i, j | 0 <= i < j < |s| :: s[i].start >= s[j].start
  }

  /** What redactSensitiveData may return: entities with equal starts may be taken in any order. */
  ghost predicate Redacts(text: string, entities: seq<Entity>, policies: seq<Policy>, out: Output) {
    exists sorted: seq<Entity> ::
      multiset(sorted) == multiset(entities) && Descending(sorted) && out == ApplyAll(Output(text, []), sorted, policies)
  }

  method SortByStart(entities: seq<Entity>) returns (sorted: seq<Entity>)
    ensures multiset(sorted) == multiset(entities) && Descending(sorted)
  {
    sorted := [];
    var i := 0;
    while i < |entities|
      invariant 0 <= i <= |entities|
      invariant multiset(sorted) == multiset(entities[..i]) && Descending(sorted)
    {
      assert entities[..i + 1] == entities[..i] + [entities[i]];
      sorted := Insert(sorted, entities[i]);
      i := i + 1;
    }
    assert entities[..i] == entities;
  }

  method Insert(s: seq<Entity>, e: Entity) returns (r: seq<Entity>)
    requires Descending(s)
    ensures Descending(r) && multiset(r) == multiset(s) + multiset{e}
  {
    var k := 0;
    while k < |s| && s[k].start >= e.start
      invariant 0 <= k <= |s|
      invariant forall j | 0 <= j < k :: s[j].start >= e.start
    {
      k := k + 1;
    }
    InsertKeepsAll(s, k, e);
    r := s[..k] + [e] + s[k..];
  }

  lemma InsertKeepsAll(s: seq<Entity>, k: nat, e: Entity)
    requires k <= |s|
    ensures multiset(s[..k] + [e] + s[k..]) == multiset(s) + multiset{e}
  {
    assert s == s[..k] + s[k..];
  }

  method RedactSensitiveData(text: string, entities: seq<Entity>, policies: seq<Policy>) returns (out: Output)
    ensures Redacts(text, entities, policies, out)
  {
    if |entities| == 0 {
      out := Output(text, []);
      assert multiset(entities) == multiset([]) && out == ApplyAll(Output(text, []), entities, policies);
      return;
    }
    var sorted := SortByStart(entities);
    out := Output(text, []);
    var i := 0;
    while i < |sorted|
      invariant 0 <= i <= |sorted|
      invariant ApplyAll(out, sorted[i..], policies) == ApplyAll(Output(text, []), sorted, policies)
    {
      var e := sorted[i];
      assert sorted[i..][1..] == sorted[i + 1..];
      var accepted := ShouldRedact(e.kind, policies);
      if accepted {
        var mask := Mask(e.kind);
        if e.start >= 0 && e.end <= |out.text| && e.start < e.end {
          out := Output(out.text[..e.start] + mask + out.text[e.end..],
                        out.reports + [Report(e.start, e.end, e.kind, mask)]);
        } else {
          out := Output(ReplaceFirst(out.text, e.value, mask), out.reports + [Report(-1, -1, e.kind, mask)]);
        }
      }
      i := i + 1;
    }
  }

  // ---- spans: what matters about an accepted entity

  datatype Span = Span(start: int, end: int, kind: string)

  function SpanOf(e: Entity): Span {
    Span(e.start, e.end, e.kind)
  }

  function ReportOf(s: Span): Report {
    Report(s.start, s.end, s.kind, Mask(s.kind))
  }

  function Reports(spans: seq<Span>): seq<Report> {
    seq(|spans|, i requires 0 <= i < |spans| => ReportOf(spans[i]))
  }

  function AcceptedSpans(entities: seq<Entity>, policies: seq<Policy>): seq<Span> {
    if entities == [] then []
    else (if Accepts(policies, entities[0].kind) then [SpanOf(entities[0])] else [])
         + AcceptedSpans(entities[1..], policies)
  }

  predicate Apart(a: Span, b: Span) {
    a.end <= b.start || b.end <= a.start
  }

  /** In bounds, non-empty, and pairwise disjoint. */
  predicate Disjoint(spans: seq<Span>, length: int) {
    && (forall i | 0 <= i < |spans| :: InBounds(spans[i].start, spans[i].end, length))
    && forall i, j | 0 <= i < j < |spans| :: Apart(spans[i], spans[j])
  }

  /** Text up to `limit` with the spans, listed in ascending order from `from` on, replaced: the gaps
      and the masks from left to right. */
  function Rebuilt(text: string, from: int, limit: int, ascending: seq<Span>): string
    requires 0 <= from <= limit <= |text|
    decreases |ascending|
  {
    if ascending == [] then text[from..limit]
    else
      var s := ascending[0];
      if from <= s.start <= s.end <= limit
      then text[from..s.start] + Mask(s.kind) + Rebuilt(text, s.end, limit, ascending[1..])
      else text[from..limit]
  }

  predicate InOrder(from: int, limit: int, ascending: seq<Span>)
    decreases |ascending|
  {
    if ascending == [] then from <= limit
    else from <= ascending[0].start < ascending[0].end <= limit && InOrder(ascending[0].end, limit, ascending[1..])
  }

  function Reverse<T>(s: seq<T>): seq<T> {
    if s == [] then [] else Reverse(s[1..]) + [s[0]]
  }

  /** Descending spans below `limit`, each ending before the one listed before it starts. */
  predicate Falling(spans: seq<Span>, limit: int) {
    if spans == [] then 0 <= limit
    else 0 <= spans[0].start < spans[0].end <= limit && Falling(spans[1..], spans[0].start)
  }

  // ---- right to left equals left to right

  lemma {:induction false} InOrderAppend(from: int, limit: int, ascending: seq<Span>, s: Span)
    requires InOrder(from, s.start, ascending) && s.start < s.end <= limit
    ensures InOrder(from, limit, ascending + [s])
    decreases |ascending|
  {
    if ascending == [] {
      assert [s][1..] == [];
    } else {
      assert (ascending + [s])[1..] == ascending[1..] + [s];
      InOrderAppend(ascending[0].end, limit, ascending[1..], s);
    }
  }

  lemma {:induction false} InOrderGrows(from: int, low: int, high: int, ascending: seq<Span>)
    requires InOrder(from, low, ascending) && low <= high
    ensures InOrder(from, high, ascending) && from <= low
    decreases |ascending|
  {
    if ascending != [] {
      InOrderGrows(ascending[0].end, low, high, ascending[1..]);
    }
  }

  lemma {:induction false} FallingReversed(spans: seq<Span>, limit: int)
    requires Falling(spans, limit)
    ensures InOrder(0, limit, Reverse(spans))
  {
    if spans != [] {
      FallingReversed(spans[1..], spans[0].start);
      InOrderAppend(0, limit, Reverse(spans[1..]), spans[0]);
    }
  }

  /** The rightmost span is replaced last when rebuilding from the left. */
  lemma {:induction false} RebuiltAppend(text: string, from: int, limit: int, ascending: seq<Span>, s: Span)
    requires 0 <= from && limit <= |text|
    requires InOrder(from, s.start, ascending) && s.start < s.end <= limit
    ensures from <= s.start
    ensures Rebuilt(text, from, limit, ascending + [s])
         == Rebuilt(text, from, s.start, ascending) + Mask(s.kind) + text[s.end..limit]
    decreases |ascending|
  {
    InOrderGrows(from, s.start, limit, ascending);
    if ascending == [] {
      assert [s][1..] == [];
      assert text[from..s.start] + Mask(s.kind) + Rebuilt(text, s.end, limit, [])
          == text[from..s.start] + Mask(s.kind) + text[s.end..limit];
    } else {
      var first := ascending[0];
      assert (ascending + [s])[1..] == ascending[1..] + [s];
      InOrderGrows(first.end, s.start, limit, ascending[1..]);
      RebuiltAppend(text, first.end, limit, ascending[1..], s);
      Regroup(text[from..first.start], Mask(first.kind), Rebuilt(text, first.end, s.start, ascending[1..]),
              Mask(s.kind), text[s.end..limit]);
    }
  }

  lemma Regroup(a: string, b: string, c: string, d: string, e: string)
    ensures a + b + (c + d + e) == a + b + c + d + e
  {
  }

  /** Splicing one span into the untouched prefix leaves everything right of it alone. */
  lemma SpliceOne(text: string, limit: int, tail: string, s: Span)
    requires 0 <= s.start < s.end <= limit <= |text|
    ensures var now := text[..limit] + tail;
            now[..s.start] + Mask(s.kind) + now[s.end..]
            == text[..s.start] + (Mask(s.kind) + text[s.end..limit] + tail)
  {
    var now := text[..limit] + tail;
    assert now[..s.start] == text[..s.start];
    assert now[s.end..] == text[s.end..limit] + tail;
  }

  lemma ReportsCons(s: Span, rest: seq<Span>)
    ensures Reports([s] + rest) == [ReportOf(s)] + Reports(rest)
  {
  }

  /** The loop on a falling list of spans: the text left of `limit` becomes the left-to-right
      rebuild, the tail stays, and every accepted entity is reported with its own offsets. */
  lemma {:induction false} LoopRebuilds(text: string, limit: int, tail: string, reports: seq<Report>,
                                        sorted: seq<Entity>, policies: seq<Policy>)
    requires 0 <= limit <= |text|
    requires Falling(AcceptedSpans(sorted, policies), limit)
    ensures var spans := AcceptedSpans(sorted, policies);
            ApplyAll(Output(text[..limit] + tail, reports), sorted, policies)
            == Output(Rebuilt(text, 0, limit, Reverse(spans)) + tail, reports + Reports(spans))
    decreases |sorted|
  {
    var spans := AcceptedSpans(sorted, policies);
    if sorted == [] {
      assert reports + Reports(spans) == reports;
    } else if !Accepts(policies, sorted[0].kind) {
      assert spans == AcceptedSpans(sorted[1..], policies);
      LoopRebuilds(text, limit, tail, reports, sorted[1..], policies);
    } else {
      var s := SpanOf(sorted[0]);
      var rest := AcceptedSpans(sorted[1..], policies);
      assert spans == [s] + rest && spans[1..] == rest;
      var newTail := Mask(s.kind) + text[s.end..limit] + tail;
      SpliceOne(text, limit, tail, s);
      LoopRebuilds(text, s.start, newTail, reports + [ReportOf(s)], sorted[1..], policies);
      FallingReversed(rest, s.start);
      RebuiltAppend(text, 0, limit, Reverse(rest), s);
      ReportsCons(s, rest);
      Regroup("", Rebuilt(text, 0, s.start, Reverse(rest)), Mask(s.kind), text[s.end..limit], tail);
      TailMoves(Rebuilt(text, 0, s.start, Reverse(rest)), Mask(s.kind), text[s.end..limit], tail);
      SnocCons(reports, ReportOf(s), Reports(rest));
    }
  }

  lemma TailMoves(a: string, b: string, c: string, d: string)
    ensures a + (b + c + d) == a + b + c + d
  {
  }

  // ---- permutations

  predicate StartsFall(spans: seq<Span>) {
    forall i, j | 0 <= i < j < |spans| :: spans[i].start >= spans[j].start
  }

  lemma {:induction false} AcceptedStartsFall(sorted: seq<Entity>, policies: seq<Policy>)
    requires Descending(sorted)
    ensures StartsFall(AcceptedSpans(sorted, policies))
    ensures forall x | x in AcceptedSpans(sorted, policies) :: sorted != [] && x.start <= sorted[0].start
  {
    if sorted != [] {
      AcceptedStartsFall(sorted[1..], policies);
    }
  }

  lemma {:induction false} AcceptedConcat(a: seq<Entity>, b: seq<Entity>, policies: seq<Policy>)
    ensures AcceptedSpans(a + b, policies) == AcceptedSpans(a, policies) + AcceptedSpans(b, policies)
  {
    hide Accepts, SpanOf;
    if a == [] {
      assert a + b == b;
    } else {
      assert (a + b)[1..] == a[1..] + b;
      AcceptedConcat(a[1..], b, policies);
    }
  }

  /** Removing one occurrence of the head of b from a. */
  lemma Remove<T>(a: seq<T>, b: seq<T>) returns (k: nat)
    requires multiset(a) == multiset(b) && b != []
    ensures k < |a| && a[k] == b[0] && a == a[..k] + [a[k]] + a[k + 1..]
    ensures multiset(a[..k] + a[k + 1..]) == multiset(b[1..])
  {
    assert b[0] in multiset(a);
    k :| k < |a| && a[k] == b[0];
    var left, right := a[..k], a[k + 1..];
    assert a == left + ([a[k]] + right);
    MiddleMoves(left, [a[k]], right);
    assert b == [b[0]] + b[1..];
    assert multiset(b) == multiset([b[0]]) + multiset(b[1..]);
    assert multiset(left + right) == multiset(a) - multiset([a[k]]);
    assert multiset(b[1..]) == multiset(b) - multiset([b[0]]);
  }

  lemma {:induction false} AcceptedPermutes(a: seq<Entity>, b: seq<Entity>, policies: seq<Policy>)
    requires multiset(a) == multiset(b)
    ensures multiset(AcceptedSpans(a, policies)) == multiset(AcceptedSpans(b, policies))
    decreases |b|
  {
    if b == [] {
      assert |multiset(a)| == 0;
    } else {
      hide AcceptedSpans;
      var k := Remove(a, b);
      var left, right := a[..k], a[k + 1..];
      AcceptedPermutes(left + right, b[1..], policies);
      AcceptedConcat(left, right, policies);
      AcceptedConcat(left, [a[k]] + right, policies);
      AcceptedConcat([a[k]], right, policies);
      AcceptedConcat([b[0]], b[1..], policies);
      assert a == left + ([a[k]] + right) && b == [b[0]] + b[1..];
      MiddleMoves(AcceptedSpans(left, policies), AcceptedSpans([a[k]], policies), AcceptedSpans(right, policies));
    }
  }

  lemma MiddleMoves<T>(a: seq<T>, b: seq<T>, c: seq<T>)
    ensures multiset(a + (b + c)) == multiset(b) + multiset(a + c)
  {
  }

  lemma WithoutOneStaysDisjoint(a: seq<Span>, k: nat, length: int)
    requires k < |a| && Disjoint(a, length)
    ensures Disjoint(a[..k] + a[k + 1..], length)
    ensures InBounds(a[k].start, a[k].end, length)
    ensures forall x | x in a[..k] + a[k + 1..] :: Apart(a[k], x)
  {
    var rest := a[..k] + a[k + 1..];
    forall i | 0 <= i < |rest| ensures Apart(a[k], rest[i]) && rest[i] == a[if i < k then i else i + 1] {
    }
  }

  lemma {:induction false} DisjointPermutes(a: seq<Span>, b: seq<Span>, length: int)
    requires multiset(a) == multiset(b) && Disjoint(a, length)
    ensures Disjoint(b, length)
    decreases |b|
  {
    if b != [] {
      var k := Remove(a, b);
      var rest, tail := a[..k] + a[k + 1..], b[1..];
      WithoutOneStaysDisjoint(a, k, length);
      DisjointPermutes(rest, tail, length);
      forall i | 0 <= i < |tail| ensures Apart(b[0], tail[i]) {
        assert tail[i] in multiset(rest);
      }
      DisjointCons(b[0], tail, length);
      assert b == [b[0]] + tail;
    }
  }

  lemma DisjointCons(s: Span, tail: seq<Span>, length: int)
    requires Disjoint(tail, length) && InBounds(s.start, s.end, length)
    requires forall i | 0 <= i < |tail| :: Apart(s, tail[i])
    ensures Disjoint([s] + tail, length)
  {
    var all := [s] + tail;
    forall i, j | 0 <= i < j < |all| ensures Apart(all[i], all[j]) {
      assert all[j] == tail[j - 1] && (i > 0 ==> all[i] == tail[i - 1]);
    }
  }

  lemma {:induction false} DisjointFalls(spans: seq<Span>, limit: int, length: int)
    requires Disjoint(spans, length) && StartsFall(spans) && limit <= length
    requires 0 <= limit && (spans != [] ==> spans[0].end <= limit)
    ensures Falling(spans, limit)
  {
    if |spans| > 1 {
      assert Apart(spans[0], spans[1]);
      DisjointFalls(spans[1..], spans[0].start, length);
    }
  }

  lemma TailMultiset<T>(s: seq<T>)
    requires s != []
    ensures multiset(s[1..]) == multiset(s) - multiset{s[0]}
  {
    assert s == [s[0]] + s[1..];
  }

  lemma {:induction false} FallingBelow(spans: seq<Span>, limit: int)
    requires Falling(spans, limit) && spans != []
    ensures forall x | x in spans :: x.start < x.end && (x == spans[0] || x.end <= spans[0].start)
  {
    if |spans| > 1 {
      FallingBelow(spans[1..], spans[0].start);
    }
  }

  /** Disjoint spans have one descending arrangement. */
  lemma {:induction false} FallingIsUnique(a: seq<Span>, b: seq<Span>, limit: int)
    requires multiset(a) == multiset(b) && Falling(a, limit) && Falling(b, limit)
    ensures a == b
    decreases |a|
  {
    assert |a| == |multiset(a)| == |multiset(b)| == |b|;
    if a != [] {
      FallingBelow(a, limit);
      FallingBelow(b, limit);
      assert a[0] in multiset(b) && b[0] in multiset(a);
      TailMultiset(a);
      TailMultiset(b);
      FallingIsUnique(a[1..], b[1..], a[0].start);
    }
  }

  // ---- main results

  /** Every result is the rebuild of one falling arrangement of the accepted spans. */
  lemma RedactionFalls(text: string, entities: seq<Entity>, policies: seq<Policy>, out: Output)
    returns (falling: seq<Span>)
    requires Redacts(text, entities, policies, out)
    requires Disjoint(AcceptedSpans(entities, policies), |text|)
    ensures multiset(falling) == multiset(AcceptedSpans(entities, policies)) && Falling(falling, |text|)
    ensures out == Output(Rebuilt(text, 0, |text|, Reverse(falling)), Reports(falling))
  {
    var sorted: seq<Entity> :| multiset(sorted) == multiset(entities) && Descending(sorted)
                               && out == ApplyAll(Output(text, []), sorted, policies);
    falling := AcceptedSpans(sorted, policies);
    AcceptedPermutes(sorted, entities, policies);
    DisjointPermutes(AcceptedSpans(entities, policies), falling, |text|);
    AcceptedStartsFall(sorted, policies);
    DisjointFalls(falling, |text|, |text|);
    assert text[..|text|] + "" == text;
    LoopRebuilds(text, |text|, "", [], sorted, policies);
  }

  lemma {:induction false} ReverseTwice<T>(s: seq<T>)
    ensures Reverse(Reverse(s)) == s && |Reverse(s)| == |s| && multiset(Reverse(s)) == multiset(s)
  {
    if s != [] {
      ReverseTwice(s[1..]);
      ReverseConcat(Reverse(s[1..]), [s[0]]);
      assert Reverse([s[0]]) == [s[0]];
      assert s == [s[0]] + s[1..];
    }
  }

  lemma {:induction false} ReverseConcat<T>(a: seq<T>, b: seq<T>)
    ensures Reverse(a + b) == Reverse(b) + Reverse(a)
  {
    if a == [] {
      assert a + b == b;
    } else {
      assert (a + b)[1..] == a[1..] + b;
      ReverseConcat(a[1..], b);
    }
  }

  predicate StartsRise(spans: seq<Span>) {
    forall i, j | 0 <= i < j < |spans| :: spans[i].start <= spans[j].start
  }

  lemma {:induction false} ReverseAt<T>(s: seq<T>, k: nat)
    requires k < |s|
    ensures |Reverse(s)| == |s| && Reverse(s)[k] == s[|s| - 1 - k]
  {
    if |s| > 1 {
      ReverseAt(s[1..], if k < |s| - 1 then k else 0);
    }
  }

  lemma RisingReversed(spans: seq<Span>)
    requires StartsRise(spans)
    ensures StartsFall(Reverse(spans))
  {
    ReverseTwice(spans);
    forall i, j | 0 <= i < j < |spans| ensures Reverse(spans)[i].start >= Reverse(spans)[j].start {
      ReverseAt(spans, i);
      ReverseAt(spans, j);
    }
  }

  /** For in-bounds, non-empty, disjoint spans the right-to-left splicing returns the left-to-right
      concatenation of gaps and masks, never takes the fallback, and reports exactly the accepted
      entities, in descending order of their starts. */
  lemma RedactionIsLeftToRight(text: string, entities: seq<Entity>, policies: seq<Policy>, out: Output,
                               rising: seq<Span>)
    requires Redacts(text, entities, policies, out)
    requires Disjoint(AcceptedSpans(entities, policies), |text|)
    requires multiset(rising) == multiset(AcceptedSpans(entities, policies)) && StartsRise(rising)
    ensures out.text == Rebuilt(text, 0, |text|, rising)
    ensures out.reports == Reports(Reverse(rising))
    ensures forall r | r in out.reports :: r.start >= 0
  {
    hide Rebuilt, Reverse, AcceptedSpans, Redacts;
    var falling := RedactionFalls(text, entities, policies, out);
    ReverseTwice(rising);
    RisingFalls(rising, AcceptedSpans(entities, policies), |text|);
    FallingIsUnique(falling, Reverse(rising), |text|);
    FallingReversed(falling, |text|);
    FallingInBounds(falling, |text|);
  }

  lemma RisingFalls(rising: seq<Span>, spans: seq<Span>, length: nat)
    requires multiset(rising) == multiset(spans) && StartsRise(rising) && Disjoint(spans, length)
    ensures Falling(Reverse(rising), length) && multiset(Reverse(rising)) == multiset(spans)
  {
    hide Reverse;
    ReverseTwice(rising);
    RisingReversed(rising);
    DisjointPermutes(spans, Reverse(rising), length);
    DisjointFalls(Reverse(rising), length, length);
  }

  lemma {:induction false} FallingInBounds(spans: seq<Span>, limit: int)
    requires Falling(spans, limit)
    ensures forall r | r in Reports(spans) :: r.start >= 0
  {
    if spans != [] {
      FallingInBounds(spans[1..], spans[0].start);
      ReportsCons(spans[0], spans[1..]);
      assert spans == [spans[0]] + spans[1..];
    }
  }

  /** The result does not depend on the order the entities are listed in, nor on how the sort
      breaks ties. */
  lemma OrderIsIrrelevant(text: string, a: seq<Entity>, b: seq<Entity>, policies: seq<Policy>, x: Output, y: Output)
    requires multiset(a) == multiset(b)
    requires Disjoint(AcceptedSpans(a, policies), |text|)
    requires Redacts(text, a, policies, x) && Redacts(text, b, policies, y)
    ensures x == y
  {
    AcceptedPermutes(a, b, policies);
    DisjointPermutes(AcceptedSpans(a, policies), AcceptedSpans(b, policies), |text|);
    var f := RedactionFalls(text, a, policies, x);
    var g := RedactionFalls(text, b, policies, y);
    FallingIsUnique(f, g, |text|);
  }

  predicate Hidden(spans: seq<Span>, i: int) {
    exists s | s in spans :: s.start <= i < s.end
  }

  lemma {:induction false} RebuiltAgrees(a: string, b: string, from: int, limit: int, rising: seq<Span>)
    requires |a| == |b| && 0 <= from <= limit <= |a| && InOrder(from, limit, rising)
    requires forall i | from <= i < limit && !Hidden(rising, i) :: a[i] == b[i]
    ensures Rebuilt(a, from, limit, rising) == Rebuilt(b, from, limit, rising)
    decreases |rising|
  {
    if rising == [] {
      assert a[from..limit] == b[from..limit];
    } else {
      var s := rising[0];
      InOrderBounds(s.end, limit, rising[1..]);
      forall i | from <= i < s.start ensures a[i] == b[i] {
        assert !Hidden(rising, i);
      }
      assert a[from..s.start] == b[from..s.start];
      forall i | s.end <= i < limit && !Hidden(rising[1..], i) ensures a[i] == b[i] {
        assert !Hidden(rising, i);
      }
      RebuiltAgrees(a, b, s.end, limit, rising[1..]);
    }
  }

  lemma {:induction false} InOrderBounds(from: int, limit: int, rising: seq<Span>)
    requires InOrder(from, limit, rising)
    ensures from <= limit && forall s | s in rising :: from <= s.start
    decreases |rising|
  {
    if rising != [] {
      InOrderBounds(rising[0].end, limit, rising[1..]);
    }
  }

  /** What a redacted span contained cannot be told from the result: two texts that agree outside the
      accepted spans give the same output, for entities that agree in position and type. */
  lemma RedactionHidesContent(a: string, b: string, es: seq<Entity>, fs: seq<Entity>, policies: seq<Policy>,
                              x: Output, y: Output)
    requires |a| == |b| && AcceptedSpans(es, policies) == AcceptedSpans(fs, policies)
    requires Disjoint(AcceptedSpans(es, policies), |a|)
    requires forall i | 0 <= i < |a| && !Hidden(AcceptedSpans(es, policies), i) :: a[i] == b[i]
    requires Redacts(a, es, policies, x) && Redacts(b, fs, policies, y)
    ensures x == y
  {
    var f := RedactionFalls(a, es, policies, x);
    var g := RedactionFalls(b, fs, policies, y);
    FallingIsUnique(f, g, |a|);
    FallingReversed(f, |a|);
    ReverseTwice(f);
    forall i | 0 <= i < |a| && !Hidden(Reverse(f), i) ensures a[i] == b[i] {
      assert forall s :: s in AcceptedSpans(es, policies) <==> s in multiset(Reverse(f));
      assert !Hidden(AcceptedSpans(es, policies), i);
    }
    RebuiltAgrees(a, b, 0, |a|, Reverse(f));
  }
}

/**
 Automatic sensitivity labels: each batch of classifications asks for a label, and a dataset's
 stored label is created or upgraded. `fails` stands for a failed read or write of the row.
 */
module Labels {
  import opened Prelude

  type DatasetId = string

  datatype Label = Label(name: string, auto: bool)

  const RESTRICTED_TYPES: set<string> := {
    "SSN", "CREDIT_CARD", "CREDIT_CARD_FORMATTED", "BANK_ACCOUNT", "ROUTING_NUMBER", "IBAN", "PHI", "HEALTH_RECORD",
    "MEDICAL_RECORD", "HEALTH_INSURANCE_ID"}

  const CONFIDENTIAL_TYPES: set<string> := {
    "EMAIL", "PHONE", "ADDRESS", "PASSPORT", "DRIVER_LICENSE", "DATE_OF_BIRTH", "AWS_ACCESS_KEY", "AWS_SECRET_KEY",
    "API_KEY", "JWT_TOKEN", "IP_ADDRESS", "IPV6_ADDRESS", "MAC_ADDRESS", "VIN"}

  const INTERNAL_TYPES: set<string> := {"NAME", "COMPANY", "PERSON_NAME", "US_ZIP", "UK_POSTCODE"}

  function EntityLabel(entity: string): Option<string> {
    if entity in RESTRICTED_TYPES then Some("RESTRICTED")
    else if entity in CONFIDENTIAL_TYPES then Some("CONFIDENTIAL")
    else if entity in INTERNAL_TYPES then Some("INTERNAL")
    else None
  }

  /** An unknown label ranks with PUBLIC. */
  function Priority(name: string): nat {
    if name == "RESTRICTED" then 4
    else if name == "HIGHLY_CONFIDENTIAL" then 3
    else if name == "CONFIDENTIAL" then 2
    else if name == "INTERNAL" then 1
    else 0
  }

  // ---- the label one batch asks for

  function Raise(highest: string, entity: string): string {
    var l := EntityLabel(entity);
    if l.Some? && Priority(l.value) > Priority(highest) then l.value else highest
  }

  function Highest(batch: seq<string>): string {
    if batch == [] then "INTERNAL" else Raise(Highest(batch[..|batch| - 1]), batch[|batch| - 1])
  }

  /** The entity types in order of first appearance. */
  function Distinct(batch: seq<string>): seq<string> {
    if batch == [] then []
    else
      var rest, last := batch[..|batch| - 1], batch[|batch| - 1];
      if last in rest then Distinct(rest) else Distinct(rest) + [last]
  }

  method ComputeLabel(batch: seq<string>) returns (highestLabel: string, detectedTypes: seq<string>)
    ensures highestLabel == Highest(batch) && detectedTypes == Distinct(batch)
  {
    highestLabel, detectedTypes := "INTERNAL", [];
    var seen: set<string> := {};
    for i := 0 to |batch|
      invariant seen == SetOf(batch[..i])
      invariant highestLabel == Highest(batch[..i]) && detectedTypes == Distinct(batch[..i])
    {
      var c := batch[i];
      OneMore(batch, i);
      hide EntityLabel, Priority, Highest, Distinct;
      if c !in seen {
        detectedTypes := detectedTypes + [c];
        seen := seen + {c};
      }
      var l := EntityLabel(c);
      if l.Some? {
        if Priority(l.value) > Priority(highestLabel) {
          highestLabel := l.value;
        }
      }
    }
    assert batch[..|batch|] == batch;
  }

  lemma OneMore(batch: seq<string>, i: nat)
    requires i < |batch|
    ensures Highest(batch[..i + 1]) == Raise(Highest(batch[..i]), batch[i])
    ensures Distinct(batch[..i + 1]) == Distinct(batch[..i]) + (if batch[i] in batch[..i] then [] else [batch[i]])
    ensures SetOf(batch[..i + 1]) == SetOf(batch[..i]) + {batch[i]}
  {
    hide EntityLabel, Priority, Raise;
    SetOfSnoc(batch, i);
    assert batch[..i + 1] == batch[..i] + [batch[i]] && batch[..i + 1][..i] == batch[..i];
  }

  lemma {:induction false} DistinctListsEachOnce(batch: seq<string>)
    ensures forall x :: x in Distinct(batch) <==> x in batch
    ensures forall i, j | 0 <= i < j < |Distinct(batch)| :: Distinct(batch)[i] != Distinct(batch)[j]
  {
    if batch != [] {
      var n := |batch| - 1;
      DistinctListsEachOnce(batch[..n]);
      assert batch == batch[..n] + [batch[n]];
    }
  }

  /** l is asked for by nothing at all or by a classification, and nothing asks for more. */
  predicate IsMaximum(l: string, batch: seq<string>) {
    && (l == "INTERNAL" || exists c | c in batch :: EntityLabel(c) == Some(l))
    && Priority(l) >= Priority("INTERNAL")
    && forall c | c in batch && EntityLabel(c).Some? :: Priority(EntityLabel(c).value) <= Priority(l)
  }

  lemma {:induction false} HighestIsMaximum(batch: seq<string>)
    ensures IsMaximum(Highest(batch), batch)
  {
    hide EntityLabel;
    if batch != [] {
      var n := |batch| - 1;
      HighestIsMaximum(batch[..n]);
      assert batch == batch[..n] + [batch[n]];
      assert batch[n] in batch;
    }
  }

  lemma MaximumIsUnique(a: string, b: string, batch: seq<string>, other: seq<string>)
    requires IsMaximum(a, batch) && IsMaximum(b, other)
    requires forall x :: x in batch <==> x in other
    ensures a == b
  {
    OnlyThree(a, batch);
    OnlyThree(b, other);
  }

  lemma OnlyThree(l: string, batch: seq<string>)
    requires IsMaximum(l, batch)
    ensures l in {"INTERNAL", "CONFIDENTIAL", "RESTRICTED"}
  {
  }

  // ---- the stored labels

  type Labels = map<DatasetId, Label>

  function Stored(labels: Labels, d: DatasetId): Option<Label> {
    if d in labels then Some(labels[d]) else None
  }

  function Rank(l: Option<Label>): int {
    if l.Some? then Priority(l.value.name) else -1
  }

  /** Create a missing label, replace one that ranks lower. */
  function Upgraded(l: Option<Label>, highest: string): Label {
    if l.None? || Priority(highest) > Priority(l.value.name) then Label(highest, true) else l.value
  }

  datatype Call = Call(dataset: DatasetId, batch: seq<string>, fails: bool)

  /** Whether the call reaches the dataset's row at all. */
  predicate Effective(c: Call) {
    c.batch != [] && c.dataset != "" && !c.fails
  }

  function Applied(labels: Labels, c: Call): Labels {
    if Effective(c) then labels[c.dataset := Upgraded(Stored(labels, c.dataset), Highest(c.batch))] else labels
  }

  function After(labels: Labels, calls: seq<Call>): Labels {
    if calls == [] then labels else Applied(After(labels, calls[..|calls| - 1]), calls[|calls| - 1])
  }

  class LabelTable {
    var labels: Labels

    constructor ()
      ensures labels == map[]
    {
      labels := map[];
    }

    method AutoApplyGovernance(c: Call) returns (detectedTypes: seq<string>, chosen: string)
      modifies this
      ensures labels == Applied(old(labels), c)
      ensures c.batch != [] ==> detectedTypes == Distinct(c.batch) && chosen == Highest(c.batch)
    {
      if |c.batch| == 0 {
        return [], "";
      }
      chosen, detectedTypes := ComputeLabel(c.batch);
      if c.dataset != "" && !c.fails {
        if c.dataset !in labels {
          labels := labels[c.dataset := Label(chosen, true)];
        } else if Priority(chosen) > Priority(labels[c.dataset].name) {
          labels := labels[c.dataset := Label(chosen, true)];
        } else {
          assert labels == labels[c.dataset := labels[c.dataset]];
        }
      }
    }
  }

  // ---- runs

  /** Everything the effective calls for a dataset have reported. */
  function Seen(calls: seq<Call>, d: DatasetId): seq<string> {
    if calls == [] then []
    else
      var c := calls[|calls| - 1];
      Seen(calls[..|calls| - 1], d) + (if Effective(c) && c.dataset == d then c.batch else [])
  }

  predicate Stronger(a: string, b: string) {
    Priority(a) > Priority(b)
  }

  function Join(a: string, b: string): string {
    if Stronger(b, a) then b else a
  }

  lemma JoinIsAssociative(a: string, b: string, c: string)
    ensures Join(Join(a, b), c) == Join(a, Join(b, c))
  {
  }

  lemma {:induction false} HighestOfConcat(a: seq<string>, b: seq<string>)
    ensures Highest(a + b) == Join(Highest(a), Highest(b))
    decreases |b|
  {
    hide EntityLabel;
    if b == [] {
      assert a + b == a;
      HighestIsMaximum(a);
    } else {
      var n := |b| - 1;
      HighestOfConcat(a, b[..n]);
      assert (a + b)[..|a + b| - 1] == a + b[..n];
      RaiseIsJoin(Highest(a + b[..n]), b[n]);
      RaiseIsJoin(Highest(b[..n]), b[n]);
      hide Highest, Raise;
      var l := EntityLabel(b[n]);
      if l.Some? {
        JoinIsAssociative(Highest(a), Highest(b[..n]), l.value);
      }
    }
  }

  lemma RaiseIsJoin(highest: string, entity: string)
    ensures var l := EntityLabel(entity);
            Raise(highest, entity) == if l.Some? then Join(highest, l.value) else highest
  {
    hide EntityLabel;
  }

  /** Upgrading for one batch after another is upgrading for both at once. */
  lemma UpgradedInTurn(l: Option<Label>, a: seq<string>, b: seq<string>)
    ensures Upgraded(if a == [] then l else Some(Upgraded(l, Highest(a))), Highest(b)) == Upgraded(l, Highest(a + b))
  {
    HighestOfConcat(a, b);
    hide Highest;
    if a == [] {
      assert a + b == b;
    }
  }

  /** From any stored label, the final one is the strongest of it and everything seen since. */
  lemma {:induction false} RunsReachMaximum(labels: Labels, calls: seq<Call>, d: DatasetId)
    ensures Stored(After(labels, calls), d) ==
              if Seen(calls, d) == [] then Stored(labels, d) else Some(Upgraded(Stored(labels, d), Highest(Seen(calls, d))))
  {
    if calls != [] {
      var rest, c := calls[..|calls| - 1], calls[|calls| - 1];
      RunsReachMaximum(labels, rest, d);
      if Effective(c) && c.dataset == d {
        hide Highest, Upgraded;
        UpgradedInTurn(Stored(labels, d), Seen(rest, d), c.batch);
      } else {
        assert Seen(rest, d) + [] == Seen(rest, d);
      }
    }
  }

  /** From no label and without manual assignments, the label is the maximum of INTERNAL and all mapped
      labels seen, and was assigned automatically. */
  lemma FinalLabelIsMaximum(calls: seq<Call>, d: DatasetId)
    requires Seen(calls, d) != []
    ensures var l := Stored(After(map[], calls), d);
            l.Some? && l.value.auto && IsMaximum(l.value.name, Seen(calls, d))
  {
    RunsReachMaximum(map[], calls, d);
    HighestIsMaximum(Seen(calls, d));
  }

  /** How the classifications were split into batches, ordered or repeated does not matter. */
  lemma SplitAndOrderDoNotMatter(labels: Labels, calls: seq<Call>, others: seq<Call>, d: DatasetId)
    requires forall x :: x in Seen(calls, d) <==> x in Seen(others, d)
    ensures Stored(After(labels, calls), d) == Stored(After(labels, others), d)
  {
    hide After, IsMaximum, Seen;
    RunsReachMaximum(labels, calls, d);
    RunsReachMaximum(labels, others, d);
    HighestIsMaximum(Seen(calls, d));
    HighestIsMaximum(Seen(others, d));
    MaximumIsUnique(Highest(Seen(calls, d)), Highest(Seen(others, d)), Seen(calls, d), Seen(others, d));
    EmptyAlike(Seen(calls, d), Seen(others, d));
  }

  lemma EmptyAlike(a: seq<string>, b: seq<string>)
    requires forall x :: x in a <==> x in b
    ensures a == [] <==> b == []
  {
    if a != [] { assert a[0] in b; }
    if b != [] { assert b[0] in a; }
  }

  /** Sending a batch again changes nothing. */
  lemma RepeatingChangesNothing(labels: Labels, c: Call)
    ensures Applied(Applied(labels, c), c) == Applied(labels, c)
  {
    var once := Applied(labels, c);
    if Effective(c) {
      assert once[c.dataset := once[c.dataset]] == once;
    }
  }

  /** No call lowers any dataset's rank, and a call replaces a label only by a stronger one. */
  lemma NeverDowngraded(labels: Labels, c: Call, d: DatasetId)
    ensures Rank(Stored(Applied(labels, c), d)) >= Rank(Stored(labels, d))
    ensures Stored(Applied(labels, c), d) != Stored(labels, d) <==>
              Effective(c) && c.dataset == d && Priority(Highest(c.batch)) > Rank(Stored(labels, d))
  {
  }

  // ---- the tables, as a reader would list them

  predicate Restricted(entity: string) {
    || entity == "SSN" || entity == "CREDIT_CARD" || entity == "CREDIT_CARD_FORMATTED" || entity == "BANK_ACCOUNT"
    || entity == "ROUTING_NUMBER" || entity == "IBAN" || entity == "PHI" || entity == "HEALTH_RECORD"
    || entity == "MEDICAL_RECORD" || entity == "HEALTH_INSURANCE_ID"
  }

  predicate Confidential(entity: string) {
    || entity == "EMAIL" || entity == "PHONE" || entity == "ADDRESS" || entity == "PASSPORT"
    || entity == "DRIVER_LICENSE" || entity == "DATE_OF_BIRTH" || entity == "AWS_ACCESS_KEY"
    || entity == "AWS_SECRET_KEY" || entity == "API_KEY" || entity == "JWT_TOKEN" || entity == "IP_ADDRESS"
    || entity == "IPV6_ADDRESS" || entity == "MAC_ADDRESS" || entity == "VIN"
  }

  lemma RestrictedTypes(entity: string)
    ensures entity in RESTRICTED_TYPES <==> Restricted(entity)
  {
  }

  lemma ConfidentialTypes(entity: string)
    ensures entity in CONFIDENTIAL_TYPES <==> Confidential(entity)
  {
  }

  lemma InternalTypes(entity: string)
    ensures entity in INTERNAL_TYPES <==>
              entity == "NAME" || entity == "COMPANY" || entity == "PERSON_NAME" || entity == "US_ZIP" || entity == "UK_POSTCODE"
  {
  }

  /** From no label, one classification leaves the label of its type, INTERNAL when the type is not mapped. */
  lemma FirstLabel(d: DatasetId, entity: string)
    requires d != ""
    ensures Applied(map[], Call(d, [entity], false)) ==
              map[d := Label(if Restricted(entity) then "RESTRICTED" else if Confidential(entity) then "CONFIDENTIAL"
                             else "INTERNAL", true)]
  {
    RestrictedTypes(entity);
    ConfidentialTypes(entity);
    InternalTypes(entity);
    hide RESTRICTED_TYPES, CONFIDENTIAL_TYPES, INTERNAL_TYPES, Restricted, Confidential;
    HighestOfOne(entity);
    hide Highest;
  }

  /** Restricted outranks highly confidential, confidential, internal and public, in this order; any other label ranks
      with public. */
  lemma Ranking(name: string)
    ensures Priority("RESTRICTED") > Priority("HIGHLY_CONFIDENTIAL") > Priority("CONFIDENTIAL") > Priority("INTERNAL")
    ensures Priority("INTERNAL") > Priority("PUBLIC")
    ensures name !in {"RESTRICTED", "HIGHLY_CONFIDENTIAL", "CONFIDENTIAL", "INTERNAL"} ==> Priority(name) == Priority("PUBLIC")
  {
  }

  /** Without classifications or a dataset nothing is stored. */
  lemma NothingToLabel(labels: Labels, c: Call)
    requires c.batch == [] || c.dataset == ""
    ensures Applied(labels, c) == labels
  {
  }

  // ---- the read and the write as separate steps

  // What a call has read, before it writes.
  datatype Pending = Pending(dataset: DatasetId, batch: seq<string>, read: Option<Label>)

  /** The rank of the label the call asks for. */
  function Asked(p: Pending): int {
    Priority(Highest(p.batch))
  }

  function Read(labels: Labels, d: DatasetId, batch: seq<string>): Pending {
    Pending(d, batch, Stored(labels, d))
  }

  /** Whether the call will issue the update: it goes by the label it has read. */
  predicate WantsUpdate(p: Pending) {
    p.read.Some? && Asked(p) > Rank(p.read)
  }

  /** The insert meets the unique index on the dataset; the update does not look at the label again. */
  function Written(labels: Labels, p: Pending): Labels {
    if if p.dataset in labels then WantsUpdate(p) else p.read.None?
    then labels[p.dataset := Label(Highest(p.batch), true)] else labels
  }

  /** With nothing in between, the two steps are the atomic call. */
  lemma UndisturbedWriteIsApply(labels: Labels, d: DatasetId, batch: seq<string>)
    requires d != "" && batch != []
    ensures Written(labels, Read(labels, d, batch)) == Applied(labels, Call(d, batch, false))
  {
    if d in labels {
      assert labels[d := labels[d]] == labels;
    }
  }

  /** A write lowers a label exactly when it upgrades the label it read and that one has since been
      replaced by a stronger one than the write's. */
  lemma StaleWriteLowersIff(labels: Labels, p: Pending)
    ensures Rank(Stored(Written(labels, p), p.dataset)) < Rank(Stored(labels, p.dataset)) <==>
              p.dataset in labels && WantsUpdate(p) && Rank(Stored(labels, p.dataset)) > Asked(p)
  {
  }

  /** A write leaves a label below what its batch asks for exactly when it sees a weaker one and does not
      update: it read no label and its insert meets one, or it read a label strong enough that is gone. */
  lemma WriteFallsShortIff(labels: Labels, p: Pending)
    ensures Rank(Stored(Written(labels, p), p.dataset)) < Asked(p) <==>
              if p.dataset in labels then !WantsUpdate(p) && Rank(Stored(labels, p.dataset)) < Asked(p) else p.read.Some?
  {
  }

  /** Both together: when the label after a write is the stronger of the stored and the asked one. */
  predicate Keeps(labels: Labels, p: Pending) {
    if p.dataset !in labels then p.read.None?
    else if WantsUpdate(p) then Rank(Stored(labels, p.dataset)) <= Asked(p)
    else Asked(p) <= Rank(Stored(labels, p.dataset))
  }

  lemma WriteKeepsMaximumIff(labels: Labels, p: Pending)
    ensures Rank(Stored(Written(labels, p), p.dataset)) == Max(Rank(Stored(labels, p.dataset)), Asked(p)) <==> Keeps(labels, p)
  {
  }

  lemma HighestOfOne(entity: string)
    ensures Highest([entity]) == Raise("INTERNAL", entity)
  {
    assert [entity][..0] == [];
  }

  /** Two overlapping calls that update: the label ends below what was seen. */
  lemma OverlappingCallsLoseUpgrade()
    ensures var start: Labels := map["d" := Label("INTERNAL", true)];
            var a, b := Read(start, "d", ["EMAIL"]), Read(start, "d", ["SSN"]);
            Written(Written(start, b), a)["d"].name == "CONFIDENTIAL" && Highest(["SSN", "EMAIL"]) == "RESTRICTED"
  {
    HighestOfOne("EMAIL");
    HighestOfOne("SSN");
    assert ["SSN", "EMAIL"][..1] == ["SSN"];
  }

  /** Two overlapping first calls: the second insert meets the unique index, and nothing was ever lowered. */
  lemma OverlappingInsertsLoseLabel()
    ensures var start: Labels := map[];
            var a, b := Read(start, "d", ["EMAIL"]), Read(start, "d", ["SSN"]);
            Written(Written(start, a), b)["d"].name == "CONFIDENTIAL" && Highest(["EMAIL", "SSN"]) == "RESTRICTED"
  {
    HighestOfOne("EMAIL");
    HighestOfOne("SSN");
    assert ["EMAIL", "SSN"][..1] == ["EMAIL"];
  }

  // Any number of calls, their reads and writes interleaved in any way.
  datatype Step = Begin(dataset: DatasetId, batch: seq<string>) | Finish(k: nat)

  datatype Table = Table(labels: Labels, pending: seq<Pending>)

  predicate Enabled(t: Table, step: Step) {
    match step
    case Begin(d, batch) => d != "" && batch != []
    case Finish(k) => k < |t.pending|
  }

  function Next(t: Table, step: Step): Table
    requires Enabled(t, step)
  {
    match step
    case Begin(d, batch) => t.(pending := t.pending + [Read(t.labels, d, batch)])
    case Finish(k) => Table(Written(t.labels, t.pending[k]), t.pending[..k] + t.pending[k + 1..])
  }

  predicate Run(states: seq<Table>, steps: seq<Step>) {
    && |states| == |steps| + 1
    && states[0].pending == []
    && forall i | 0 <= i < |steps| :: Enabled(states[i], steps[i]) && states[i + 1] == Next(states[i], steps[i])
  }

  /** The step writes on behalf of dataset d. */
  predicate Finishes(t: Table, step: Step, d: DatasetId)
    requires Enabled(t, step)
  {
    step.Finish? && t.pending[step.k].dataset == d
  }

  /** The classifications of d whose calls have finished after n steps. */
  function Finished(states: seq<Table>, steps: seq<Step>, n: nat, d: DatasetId): seq<string>
    requires Run(states, steps) && n <= |steps|
  {
    if n == 0 then []
    else
      Finished(states, steps, n - 1, d)
      + (if Finishes(states[n - 1], steps[n - 1], d) then states[n - 1].pending[steps[n - 1].k].batch else [])
  }

  /** The rank the label should have: the maximum of the initial one and everything finished. */
  function Due(states: seq<Table>, steps: seq<Step>, n: nat, d: DatasetId): int
    requires Run(states, steps) && n <= |steps|
  {
    var seen := Finished(states, steps, n, d);
    Max(Rank(Stored(states[0].labels, d)), if seen == [] then -1 else Priority(Highest(seen)))
  }

  function Actual(states: seq<Table>, n: nat, d: DatasetId): int
    requires n < |states|
  {
    Rank(Stored(states[n].labels, d))
  }

  predicate StepKeeps(t: Table, step: Step, d: DatasetId)
    requires Enabled(t, step)
  {
    Finishes(t, step, d) ==> Keeps(t.labels, t.pending[step.k])
  }

  /** Calls without classifications never get this far. */
  predicate NoEmptyBatch(t: Table) {
    forall p | p in t.pending :: p.batch != []
  }

  lemma {:induction false} RunsHaveNoEmptyBatch(states: seq<Table>, steps: seq<Step>, n: nat)
    requires Run(states, steps) && n <= |steps|
    ensures NoEmptyBatch(states[n])
  {
    if n > 0 {
      RunsHaveNoEmptyBatch(states, steps, n - 1);
    }
  }

  lemma OtherDatasetsStay(t: Table, step: Step, d: DatasetId)
    requires Enabled(t, step) && !Finishes(t, step, d)
    ensures Stored(Next(t, step).labels, d) == Stored(t.labels, d)
  {
  }

  lemma DueGrows(states: seq<Table>, steps: seq<Step>, n: nat, d: DatasetId)
    requires Run(states, steps) && n < |steps|
    ensures Due(states, steps, n + 1, d) ==
              if Finishes(states[n], steps[n], d)
              then Max(Due(states, steps, n, d), Asked(states[n].pending[steps[n].k])) else Due(states, steps, n, d)
  {
    hide Highest, Priority, Next;
    RunsHaveNoEmptyBatch(states, steps, n);
    var seen := Finished(states, steps, n, d);
    if Finishes(states[n], steps[n], d) {
      var p := states[n].pending[steps[n].k];
      assert p in states[n].pending;
      HighestOfConcat(seen, p.batch);
      if seen == [] {
        assert seen + p.batch == p.batch;
      }
    } else {
      assert seen + [] == seen;
    }
  }

  /** For any interleaving: the label has its due rank after every step exactly when every write keeps the
      maximum, which is known from what the call read, what is stored, and what the call asks for. */
  lemma {:induction false} AlwaysDueIff(states: seq<Table>, steps: seq<Step>, n: nat, d: DatasetId)
    requires Run(states, steps) && n <= |steps|
    ensures (forall i | 0 <= i <= n :: Actual(states, i, d) == Due(states, steps, i, d)) <==>
              forall i | 0 <= i < n :: StepKeeps(states[i], steps[i], d)
  {
    if n > 0 {
      AlwaysDueIff(states, steps, n - 1, d);
      DueGrows(states, steps, n - 1, d);
      var t, step := states[n - 1], steps[n - 1];
      if Finishes(t, step, d) {
        WriteKeepsMaximumIff(t.labels, t.pending[step.k]);
      } else {
        OtherDatasetsStay(t, step, d);
      }
      hide Due, Actual, Finishes, Keeps, Next, Enabled;
      assert (forall i | 0 <= i <= n :: Actual(states, i, d) == Due(states, steps, i, d)) <==>
               (forall i | 0 <= i <= n - 1 :: Actual(states, i, d) == Due(states, steps, i, d))
               && Actual(states, n, d) == Due(states, steps, n, d);
    }
  }

  // ---- calls that do not overlap

  /** No call begins while another one for its dataset is under way. */
  predicate OneAtATime(t: Table, step: Step) {
    step.Begin? ==> forall p | p in t.pending :: p.dataset != step.dataset
  }

  predicate Fresh(t: Table) {
    && (forall p | p in t.pending :: p.read == Stored(t.labels, p.dataset))
    && forall i, j | 0 <= i < j < |t.pending| :: t.pending[i].dataset != t.pending[j].dataset
  }

  /** A fresh read makes the write an atomic call, and keeps the other reads fresh. */
  lemma FreshStep(t: Table, step: Step)
    requires Enabled(t, step) && OneAtATime(t, step) && Fresh(t)
    ensures Fresh(Next(t, step))
    ensures forall d :: Finishes(t, step, d) ==>
              Stored(Next(t, step).labels, d) == Some(Upgraded(Stored(t.labels, d), Highest(t.pending[step.k].batch)))
  {
    hide Highest, Priority;
    if step.Finish? {
      var p := t.pending[step.k];
      assert p in t.pending;
      var rest := t.pending[..step.k] + t.pending[step.k + 1..];
      forall i | 0 <= i < |rest| ensures rest[i] in t.pending && rest[i].dataset != p.dataset {
        assert rest[i] == t.pending[if i < step.k then i else i + 1];
      }
    }
  }

  lemma {:induction false} RunsStayFresh(states: seq<Table>, steps: seq<Step>, n: nat)
    requires Run(states, steps) && n <= |steps| && forall i | 0 <= i < |steps| :: OneAtATime(states[i], steps[i])
    ensures Fresh(states[n])
  {
    if n > 0 {
      RunsStayFresh(states, steps, n - 1);
      hide Next, Enabled, Fresh, OneAtATime;
      FreshStep(states[n - 1], steps[n - 1]);
    }
  }

  /** When calls for the same dataset do not overlap, any interleaving ends with the strongest of the initial
      label and everything finished, and never lowers it on the way. */
  lemma {:induction false} OneAtATimeReachesMaximum(states: seq<Table>, steps: seq<Step>, n: nat, d: DatasetId)
    requires Run(states, steps) && n <= |steps| && forall i | 0 <= i < |steps| :: OneAtATime(states[i], steps[i])
    ensures Stored(states[n].labels, d) ==
              var seen := Finished(states, steps, n, d);
              if seen == [] then Stored(states[0].labels, d) else Some(Upgraded(Stored(states[0].labels, d), Highest(seen)))
    ensures Actual(states, n, d) >= Actual(states, 0, d)
  {
    if n > 0 {
      OneAtATimeReachesMaximum(states, steps, n - 1, d);
      RunsStayFresh(states, steps, n - 1);
      RunsHaveNoEmptyBatch(states, steps, n - 1);
      hide Next, Enabled, Fresh, OneAtATime, Highest, Priority, Upgraded;
      var seen := Finished(states, steps, n - 1, d);
      if Finishes(states[n - 1], steps[n - 1], d) {
        var p := states[n - 1].pending[steps[n - 1].k];
        assert p in states[n - 1].pending;
        FreshStep(states[n - 1], steps[n - 1]);
        UpgradedInTurn(Stored(states[0].labels, d), seen, p.batch);
      } else {
        OtherDatasetsStay(states[n - 1], steps[n - 1], d);
        assert seen + [] == seen;
      }
    }
  }
}

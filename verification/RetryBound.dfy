/**
 How often a job that never succeeds is queued. Granularity and conditions as in RetryChains; inserts may
 fail, and each failed insert is charged with one further firing.
 */
module RetryBound {
  import opened Prelude
  import opened JobStore
  import opened JobProtocol
  import opened JobSafety
  import opened RetryChains

  /** Every completion the step reports for j is a failure. */
  predicate NeverSucceeds(s: System, step: Step, j: JobId)
    requires step.CompleteJob? ==> step.m < |s.store.messages|
  {
    step.CompleteJob? && s.store.messages[step.m].job == j ==> step.outcome == FailedRun
  }

  predicate FaultyInsert(s: System, step: Step, j: JobId) {
    step.Insert? && !step.ok && step.w in s.processes && s.processes[step.w].pc.Stamped?
    && s.processes[step.w].pc.pick.job == j
  }

  /** How many of the first n rows belong to j: how often it was queued, with or without a message. */
  function Queued(rows: seq<Execution>, n: nat, j: JobId): nat
    requires n <= |rows|
  {
    if n == 0 then 0 else Queued(rows, n - 1, j) + (if rows[n - 1].job == j then 1 else 0)
  }

  function Rows(s: System, j: JobId): nat {
    Queued(s.store.executions, |s.store.executions|, j)
  }

  /** Processes about to put j back to 'scheduled' after a failed insert. */
  function Rescheduling(s: System, j: JobId): set<WorkerId> {
    set w | w in s.processes && s.processes[w].pc.InsertFailed? && s.processes[w].pc.pick.job == j
  }

  predicate FirstAttempt(s: System, w: WorkerId, j: JobId)
    requires w in s.processes
  {
    s.processes[w].pc.BeforeInsert() && s.processes[w].pc.pick == Pick(j, 1)
  }

  /** A new chain of j is about to start. */
  predicate Starting(s: System, j: JobId)
    requires j in s.store.jobs
  {
    s.store.jobs[j].status == Scheduled || exists w | w in s.processes :: FirstAttempt(s, w, j)
  }

  /** How many rows the firing under way may still add. */
  function Remaining(s: System, j: JobId): int
    requires j in s.store.jobs
  {
    AttemptLimit(s.store, j) - (if Starting(s, j) then 0 else |Open(s.store, j)|)
  }

  function Potential(s: System, j: JobId): int
    requires j in s.store.jobs
  {
    Rows(s, j) + AttemptLimit(s.store, j) * |Rescheduling(s, j)| + Remaining(s, j)
  }

  /** While a holder is on its way to the insert its job is neither due nor retryable. */
  ghost predicate Busy(s: System) {
    forall w | w in s.processes && s.processes[w].pc.BeforeInsert() && s.processes[w].pc.pick.job in s.store.jobs ::
      s.store.jobs[s.processes[w].pc.pick.job].status in {Pending, Running}
  }

  /** Whoever is on its way to the insert was already there, or has just claimed the job. */
  lemma HolderBefore(s: System, step: Step, w: WorkerId)
    requires Enabled(s, step) && Orderly(s, step) && Chained(s)
    requires w in Next(s, step).processes && Next(s, step).processes[w].pc.BeforeInsert()
    ensures w in s.processes
    ensures || (step.Claim? && step.w == w && Next(s, step).processes[w].pc.pick == step.pick)
            || (s.processes[w].pc.BeforeInsert() && s.processes[w].pc.pick == Next(s, step).processes[w].pc.pick)
  {
  }

  /** The status of a job changes from pending or running only with a release, or by a consumer. */
  lemma HeldStaysBusy(s: System, step: Step, j: JobId)
    requires Enabled(s, step) && j in s.store.jobs && j !in Releases(s, step)
    requires s.store.jobs[j].status in {Pending, Running}
    ensures j in Next(s, step).store.jobs && Next(s, step).store.jobs[j].status in {Pending, Running}
  {
  }

  lemma ClaimedIsPending(s: System, w: WorkerId, p: Pick)
    requires Enabled(s, Claim(w, p))
    ensures p.job in Next(s, Claim(w, p)).store.jobs && Next(s, Claim(w, p)).store.jobs[p.job].status == Pending
  {
  }

  lemma BusyStep(s: System, step: Step)
    requires Enabled(s, step) && Orderly(s, step) && Chained(s) && Busy(s)
    ensures Busy(Next(s, step))
  {
    hide Next, Enabled, Releases, Chained, Timely;
    var n := Next(s, step);
    LimitsAreFixed(s, step);
    forall w | w in n.processes && n.processes[w].pc.BeforeInsert() && n.processes[w].pc.pick.job in n.store.jobs
      ensures n.store.jobs[n.processes[w].pc.pick.job].status in {Pending, Running}
    {
      HolderBefore(s, step, w);
      if step.Claim? && step.w == w {
        ClaimedIsPending(s, w, step.pick);
      }
      if s.processes[w].pc.BeforeInsert() && s.processes[w].pc.pick == n.processes[w].pc.pick {
        HeldStaysBusy(s, step, s.processes[w].pc.pick.job);
      }
    }
  }

  lemma OpenInLimit(s: System, j: JobId)
    requires Chained(s) && Safe(s) && j in s.store.jobs
    ensures |Open(s.store, j)| <= AttemptLimit(s.store, j)
  {
    ChainLength(s.store, |s.store.executions|, j);
    PreviousAttemptInLimit(s, |s.store.executions|, j);
  }

  lemma {:induction false} QueuedKept(a: seq<Execution>, b: seq<Execution>, n: nat, j: JobId)
    requires n <= |a| && n <= |b| && forall i | 0 <= i < n :: a[i].job == b[i].job
    ensures Queued(a, n, j) == Queued(b, n, j)
  {
    if n > 0 {
      QueuedKept(a, b, n - 1, j);
    }
  }

  // ---- each kind of step against the potential

  lemma KeptByOthers(s: System, step: Step, j: JobId)
    requires Enabled(s, step) && Orderly(s, step) && Chained(s)
    requires !step.Claim? && !(step.Insert? && step.ok) && !step.Stamp? && j in s.store.jobs
    ensures var n := Next(s, step);
            && j in n.store.jobs && AttemptLimit(n.store, j) == AttemptLimit(s.store, j)
            && Rows(n, j) == Rows(s, j) && Open(n.store, j) == Open(s.store, j)
  {
    LimitsAreFixed(s, step);
    OtherStepsKeepRows(s, step);
    ChainsKept(s.store, Next(s, step).store);
    QueuedKept(s.store.executions, Next(s, step).store.executions, |s.store.executions|, j);
  }

  /** Only rescheduling starts a chain; only a failed insert brings a process there. */
  lemma OthersDoNotStart(s: System, step: Step, j: JobId)
    requires Enabled(s, step) && Orderly(s, step) && Chained(s) && j in s.store.jobs && NeverSucceeds(s, step, j)
    requires !step.Claim? && !(step.Insert? && step.ok) && !step.Stamp?
    requires !(step.UnlockScheduled? && s.processes[step.w].pc.pick.job == j)
    ensures var n := Next(s, step);
            && j in n.store.jobs && (Starting(n, j) ==> Starting(s, j))
            && Rescheduling(n, j) <= Rescheduling(s, j) + (if FaultyInsert(s, step, j) then {step.w} else {})
  {
    LimitsAreFixed(s, step);
    OtherStepsKeepProcesses(s, step);
    var n := Next(s, step);
    if n.store.jobs[j].status != Scheduled && Starting(n, j) {
      var w :| w in n.processes && FirstAttempt(n, w, j);
      assert FirstAttempt(s, w, j);
    }
  }

  lemma SizeGrowsByOne<T>(a: set<T>, b: set<T>, x: T)
    requires a <= b + {x}
    ensures |a| <= |b| + 1
  {
    SubsetSize(a, b + {x});
  }

  lemma Times(m: int, a: int, b: int)
    requires m >= 0 && a <= b
    ensures m * a <= m * b && m * (b + 1) == m * b + m
  {
  }

  lemma AfterOther(s: System, step: Step, j: JobId)
    requires Enabled(s, step) && Orderly(s, step) && Chained(s) && Safe(s)
    requires j in s.store.jobs && NeverSucceeds(s, step, j)
    requires !step.Claim? && !(step.Insert? && step.ok) && !step.Stamp?
    requires !(step.UnlockScheduled? && s.processes[step.w].pc.pick.job == j)
    ensures j in Next(s, step).store.jobs
    ensures Potential(Next(s, step), j) <=
              Potential(s, j) + (if FaultyInsert(s, step, j) then AttemptLimit(s.store, j) else 0)
  {
    KeptByOthers(s, step, j);
    OthersDoNotStart(s, step, j);
    OpenInLimit(s, j);
    hide Next, Enabled, Orderly, Chained, Safe, Starting, Rescheduling, Open, Rows, FaultyInsert;
    var n := Next(s, step);
    var m := AttemptLimit(s.store, j);
    if FaultyInsert(s, step, j) {
      SizeGrowsByOne(Rescheduling(n, j), Rescheduling(s, j), step.w);
      Times(m, |Rescheduling(n, j)|, |Rescheduling(s, j)| + 1);
      Times(m, |Rescheduling(s, j)|, |Rescheduling(s, j)|);
    } else {
      SubsetSize(Rescheduling(n, j), Rescheduling(s, j));
      Times(m, |Rescheduling(n, j)|, |Rescheduling(s, j)|);
    }
  }

  lemma RescheduledBy(s: System, w: WorkerId, ok: bool, j: JobId)
    requires Enabled(s, UnlockScheduled(w, ok)) && s.processes[w].pc.pick.job == j
    ensures w in Rescheduling(s, j) && Rescheduling(Next(s, UnlockScheduled(w, ok)), j) == Rescheduling(s, j) - {w}
  {
  }

  lemma AfterReschedule(s: System, w: WorkerId, ok: bool, j: JobId)
    requires Enabled(s, UnlockScheduled(w, ok)) && Orderly(s, UnlockScheduled(w, ok)) && Chained(s) && Safe(s)
    requires j in s.store.jobs && s.processes[w].pc.pick.job == j
    ensures j in Next(s, UnlockScheduled(w, ok)).store.jobs
    ensures Potential(Next(s, UnlockScheduled(w, ok)), j) <= Potential(s, j)
  {
    var n := Next(s, UnlockScheduled(w, ok));
    KeptByOthers(s, UnlockScheduled(w, ok), j);
    OpenInLimit(s, j);
    RescheduledBy(s, w, ok, j);
    hide Next, Enabled, Orderly, Chained, Safe, Starting, Rescheduling, Open, Rows;
    Times(AttemptLimit(s.store, j), |Rescheduling(n, j)|, |Rescheduling(n, j)|);
  }

  lemma AfterClaim(s: System, w: WorkerId, p: Pick, j: JobId)
    requires Enabled(s, Claim(w, p)) && Chained(s) && Safe(s) && Busy(s) && j in s.store.jobs
    ensures j in Next(s, Claim(w, p)).store.jobs
    ensures Potential(Next(s, Claim(w, p)), j) <= Potential(s, j)
  {
    var n := Next(s, Claim(w, p));
    LockMovesOn(s.store, w, p);
    LimitsAreFixed(s, Claim(w, p));
    assert Rescheduling(n, j) == Rescheduling(s, j);
    OpenInLimit(s, j);
    ClaimStarts(s, w, p, j);
    hide Next, Enabled, Chained, Safe, Starting, Rescheduling, Busy;
  }

  /** A claim starts a chain only for a scheduled job, or for one that has no chain yet. */
  lemma ClaimStarts(s: System, w: WorkerId, p: Pick, j: JobId)
    requires Enabled(s, Claim(w, p)) && Chained(s) && Safe(s) && j in s.store.jobs
    ensures var n := Next(s, Claim(w, p));
            j in n.store.jobs && (Starting(n, j) ==> Starting(s, j) || Open(s.store, j) == [])
  {
    var n := Next(s, Claim(w, p));
    forall v | v in n.processes && v != w ensures FirstAttempt(n, v, j) ==> FirstAttempt(s, v, j) {}
    if p == Pick(j, 1) && !Starting(s, j) {
      LastAttemptIsChainLength(s.store, j, 0);
    }
  }

  lemma AfterStamp(s: System, w: WorkerId, j: JobId)
    requires Enabled(s, Stamp(w)) && j in s.store.jobs
    ensures j in Next(s, Stamp(w)).store.jobs
    ensures Potential(Next(s, Stamp(w)), j) == Potential(s, j)
  {
    var n := Next(s, Stamp(w));
    assert Rescheduling(n, j) == Rescheduling(s, j);
    forall v | v in s.processes ensures FirstAttempt(n, v, j) <==> FirstAttempt(s, v, j) {}
    hide Rescheduling, FirstAttempt;
  }

  lemma RowsAfterInsert(s: System, w: WorkerId, j: JobId)
    requires Enabled(s, Insert(w, true)) && Chained(s) && j in s.store.jobs
    ensures var n := Next(s, Insert(w, true));
            var p := s.processes[w].pc.pick;
            && j in n.store.jobs && AttemptLimit(n.store, j) == AttemptLimit(s.store, j)
            && Rescheduling(n, j) == Rescheduling(s, j)
            && Rows(n, j) == Rows(s, j) + (if p.job == j then 1 else 0)
            && |Open(n.store, j)| == (if p.job != j then |Open(s.store, j)| else if p.attempt == 1 then 1
                                      else |Open(s.store, j)| + 1)
  {
    var n := Next(s, Insert(w, true));
    QueuedKept(s.store.executions, n.store.executions, |s.store.executions|, j);
    SameChains(s.store, n.store, |s.store.executions|, j);
  }

  /** After its insert the holder is no longer ahead of it, and nobody else is. */
  lemma InsertStarts(s: System, w: WorkerId, j: JobId)
    requires Enabled(s, Insert(w, true)) && Chained(s) && Busy(s) && j in s.store.jobs
    ensures var n := Next(s, Insert(w, true));
            var p := s.processes[w].pc.pick;
            && j in n.store.jobs
            && (p.job == j ==> !Starting(n, j) && (p.attempt == 1 ==> Starting(s, j)))
            && (p.job != j ==> (Starting(n, j) ==> Starting(s, j)))
            && (Starting(s, j) && p.job == j ==> p.attempt == 1)
  {
    var n := Next(s, Insert(w, true));
    var pc := s.processes[w].pc;
    assert WillExtend(s.store, w, pc);
    assert n.processes == s.processes[w := n.processes[w]] && n.store.jobs == s.store.jobs;
    if v :| v in n.processes && FirstAttempt(n, v, j) {
      assert FirstAttempt(s, v, j) && v != w;
      assert WillExtend(s.store, v, s.processes[v].pc);
    }
    if pc.pick.job == j {
      if pc.pick.attempt == 1 {
        assert FirstAttempt(s, w, j);
      }
      if v :| v in s.processes && FirstAttempt(s, v, j) {
        assert WillExtend(s.store, v, s.processes[v].pc);
      }
    }
  }

  lemma AfterInsert(s: System, w: WorkerId, j: JobId)
    requires Enabled(s, Insert(w, true)) && Chained(s) && Safe(s) && Busy(s) && j in s.store.jobs
    ensures j in Next(s, Insert(w, true)).store.jobs
    ensures Potential(Next(s, Insert(w, true)), j) <= Potential(s, j)
  {
    RowsAfterInsert(s, w, j);
    InsertStarts(s, w, j);
    hide Next, Enabled, Chained, Safe, Busy, Starting, Rescheduling, Rows, Open;
  }

  /** Only a failed insert raises the potential, by one firing. */
  lemma PotentialStep(s: System, step: Step, j: JobId)
    requires Enabled(s, step) && Orderly(s, step) && Chained(s) && Safe(s) && Busy(s)
    requires j in s.store.jobs && NeverSucceeds(s, step, j)
    ensures j in Next(s, step).store.jobs
    ensures Potential(Next(s, step), j) <=
              Potential(s, j) + (if FaultyInsert(s, step, j) then AttemptLimit(s.store, j) else 0)
  {
    if step.Claim? {
      AfterClaim(s, step.w, step.pick, j);
    } else if step.Stamp? {
      AfterStamp(s, step.w, j);
    } else if step.Insert? && step.ok {
      AfterInsert(s, step.w, j);
    } else if step.UnlockScheduled? && s.processes[step.w].pc.pick.job == j {
      AfterReschedule(s, step.w, step.ok, j);
    } else {
      AfterOther(s, step, j);
    }
  }

  // ---- whole runs

  /** How many inserts of j failed from state `from` up to state `to`. */
  function FaultyInserts(states: seq<System>, steps: seq<Step>, from: nat, until: nat, j: JobId): nat
    requires until <= |steps| && |states| == |steps| + 1
    decreases until
  {
    if until <= from then 0
    else FaultyInserts(states, steps, from, until - 1, j) + (if FaultyInsert(states[until - 1], steps[until - 1], j) then 1 else 0)
  }

  lemma {:induction false} OrderlyRunsAreBusy(states: seq<System>, steps: seq<Step>, until: nat)
    requires OrderlyRun(states, steps) && until <= |steps|
    ensures Busy(states[until]) && Chained(states[until]) && Safe(states[until])
    decreases until
  {
    hide Busy, Chained, Safe, Next, Enabled, Orderly, Init;
    RunPrefix(states, steps, until);
    OrderlyRunsAreChained(states[..until + 1], steps[..until]);
    if until == 0 {
      StartIsBusy(states[0]);
    } else {
      OrderlyRunsAreBusy(states, steps, until - 1);
      BusyStep(states[until - 1], steps[until - 1]);
    }
  }

  lemma StartIsBusy(s: System)
    requires Init(s)
    ensures Busy(s)
  {
  }

  lemma {:induction false} PotentialOverRun(states: seq<System>, steps: seq<Step>, from: nat, until: nat, j: JobId)
    requires OrderlyRun(states, steps) && from <= until <= |steps| && j in states[from].store.jobs
    requires forall i | from <= i < until :: NeverSucceeds(states[i], steps[i], j)
    ensures j in states[until].store.jobs && AttemptLimit(states[until].store, j) == AttemptLimit(states[from].store, j)
    ensures Potential(states[until], j) <=
              Potential(states[from], j) + AttemptLimit(states[from].store, j) * FaultyInserts(states, steps, from, until, j)
    decreases until
  {
    hide Potential, Busy, Chained, Safe, Next, Enabled, Orderly, FaultyInsert, AttemptLimit;
    if from < until {
      PotentialOverRun(states, steps, from, until - 1, j);
      OrderlyRunsAreBusy(states, steps, until - 1);
      PotentialStep(states[until - 1], steps[until - 1], j);
      LimitsAreFixed(states[until - 1], steps[until - 1]);
      OneMoreTimes(FaultyInserts(states, steps, from, until - 1, j), AttemptLimit(states[from].store, j));
    }
  }

  /** From any state of an orderly run on, while j never succeeds, it is queued at most max(1, max_retries) times
      for the firing under way, for each failed insert, and for each failed insert still to be compensated. */
  lemma QueuedAtMost(states: seq<System>, steps: seq<Step>, from: nat, j: JobId)
    requires OrderlyRun(states, steps) && from <= |steps| && j in states[from].store.jobs
    requires forall i | from <= i < |steps| :: NeverSucceeds(states[i], steps[i], j)
    ensures j in states[|steps|].store.jobs
    ensures Rows(states[|steps|], j) - Rows(states[from], j) <=
              Max(1, states[from].store.jobs[j].maxRetries)
              * (1 + FaultyInserts(states, steps, from, |steps|, j) + |Rescheduling(states[from], j)|)
  {
    PotentialOverRun(states, steps, from, |steps|, j);
    OrderlyRunsAreBusy(states, steps, |steps|);
    PotentialBounds(states[from], j);
    OpenInLimit(states[|steps|], j);
    PotentialBounds(states[|steps|], j);
    hide Potential, Rescheduling, Open, Rows, FaultyInserts, OrderlyRun, NeverSucceeds, Chained, Safe, Busy;
    AddUp(AttemptLimit(states[from].store, j), FaultyInserts(states, steps, from, |steps|, j), |Rescheduling(states[from], j)|);
  }

  lemma AddUp(m: int, f: int, r: int)
    ensures m * (1 + f + r) == m + m * f + m * r
  {
  }

  lemma PotentialBounds(s: System, j: JobId)
    requires j in s.store.jobs
    ensures Potential(s, j) <= Rows(s, j) + AttemptLimit(s.store, j) * |Rescheduling(s, j)| + AttemptLimit(s.store, j)
    ensures |Open(s.store, j)| <= AttemptLimit(s.store, j) ==> Rows(s, j) <= Potential(s, j)
  {
    hide Rescheduling, Open, Rows, Starting;
    Times(AttemptLimit(s.store, j), 0, |Rescheduling(s, j)|);
  }

  /** A firing that never succeeds is queued at most max(1, max_retries) times: from any state of an orderly run
      without a pending or a further insert fault of j, at most that many rows are added. */
  lemma FiringIsQueuedAtMost(states: seq<System>, steps: seq<Step>, from: nat, j: JobId)
    requires OrderlyRun(states, steps) && from <= |steps| && j in states[from].store.jobs
    requires Rescheduling(states[from], j) == {}
    requires forall i | from <= i < |steps| ::
               NeverSucceeds(states[i], steps[i], j) && !FaultyInsert(states[i], steps[i], j)
    ensures Rows(states[|steps|], j) - Rows(states[from], j) <= Max(1, states[from].store.jobs[j].maxRetries)
  {
    QueuedAtMost(states, steps, from, j);
    NoFaults(states, steps, from, |steps|, j);
  }

  lemma {:induction false} NoFaults(states: seq<System>, steps: seq<Step>, from: nat, until: nat, j: JobId)
    requires until <= |steps| && |states| == |steps| + 1
    requires forall i | from <= i < until :: !FaultyInsert(states[i], steps[i], j)
    ensures FaultyInserts(states, steps, from, until, j) == 0
    decreases until
  {
    if from < until {
      NoFaults(states, steps, from, until - 1, j);
    }
  }
}

/**
 What the selection queries promise about the locks that follow. Fine granularity: exactly when a job
 selected as due is no longer due at its lock. Atomic granularity: a job is picked up once for each time it
 is set back.
 */
module Selections {
  import opened Prelude
  import opened JobStore
  import opened JobProtocol

  /** The step's statement updates the row of j. */
  ghost predicate Writes(s: System, step: Step, j: JobId)
    requires Enabled(s, step)
  {
    match step
    case Reap => j in StaleJobs(s.store)
    case Lock(w, ok) => ok && s.processes[w].todo[0].job == j && Lockable(s.store, j)
    case Claim(w, p) => p.job == j
    case UnlockScheduled(w, ok) => ok && s.processes[w].pc.pick.job == j
    case UnlockFailed(w, ok) => ok && s.processes[w].pc.pick.job == j
    case ConsumeStart(m) => s.store.messages[m].job == j
    case CompleteJob(m, _, _, _) => s.store.messages[m].job == j
    case _ => false
  }

  /** The update sets the job to 'scheduled'. */
  ghost predicate Reschedules(s: System, step: Step, j: JobId)
    requires Enabled(s, step) && j in s.store.jobs
  {
    && Writes(s, step, j)
    && (step.UnlockScheduled? || (step.CompleteJob? && FinalStatus(s.store.jobs[j], step.outcome) == Scheduled))
  }

  function NextRunAfter(s: System, step: Step, j: JobId): Option<int>
    requires j in s.store.jobs
  {
    if step.CompleteJob? then step.nextRun else s.store.jobs[j].nextRun
  }

  /** A held lock means the job is neither due, failed nor completed. */
  ghost predicate LockedIsBusy(s: System) {
    forall j | j in s.store.jobs && s.store.jobs[j].lockedBy.Some? :: s.store.jobs[j].status in {Pending, Running}
  }

  lemma LockedIsBusyStep(s: System, step: Step)
    requires Enabled(s, step) && LockedIsBusy(s)
    ensures LockedIsBusy(Next(s, step))
  {
  }

  lemma {:induction false} RunsAreBusy(states: seq<System>, steps: seq<Step>, i: nat)
    requires Run(states, steps) && i <= |steps|
    ensures LockedIsBusy(states[i])
  {
    hide Next, Enabled;
    if i > 0 {
      RunsAreBusy(states, steps, i - 1);
      LockedIsBusyStep(states[i - 1], steps[i - 1]);
    }
  }

  lemma UnwrittenStays(s: System, step: Step, j: JobId)
    requires Enabled(s, step) && j in s.store.jobs && !Writes(s, step, j)
    ensures j in Next(s, step).store.jobs && Next(s, step).store.jobs[j] == s.store.jobs[j]
  {
  }

  /** A write leaves the job scheduled exactly when it reschedules it. */
  lemma WriteOutcome(s: System, step: Step, j: JobId)
    requires Enabled(s, step) && j in s.store.jobs && Writes(s, step, j) && LockedIsBusy(s)
    ensures j in Next(s, step).store.jobs
    ensures Next(s, step).store.jobs[j].status == Scheduled <==> Reschedules(s, step, j)
    ensures Reschedules(s, step, j) ==> Next(s, step).store.jobs[j].nextRun == NextRunAfter(s, step, j)
  {
  }

  lemma JobsStay(s: System, step: Step)
    requires Enabled(s, step)
    ensures Next(s, step).store.jobs.Keys == s.store.jobs.Keys && Next(s, step).store.now >= s.store.now
  {
  }

  /** The last of the steps from..until that wrote the row of j. */
  ghost function LastWrite(states: seq<System>, steps: seq<Step>, from: nat, until: nat, j: JobId): (last: Option<nat>)
    requires Run(states, steps) && until <= |steps|
    ensures last.Some? ==> from <= last.value < until && Writes(states[last.value], steps[last.value], j)
    decreases until
  {
    if until <= from then None
    else if Writes(states[until - 1], steps[until - 1], j) then Some(until - 1)
    else LastWrite(states, steps, from, until - 1, j)
  }

  /** Since its last write a row has not changed, and time has not gone back. */
  lemma {:induction false} RowSinceLastWrite(states: seq<System>, steps: seq<Step>, from: nat, until: nat, j: JobId)
    requires Run(states, steps) && from <= until <= |steps| && j in states[from].store.jobs
    ensures var last := LastWrite(states, steps, from, until, j);
            && (forall i | from <= i <= until :: j in states[i].store.jobs && states[i].store.now <= states[until].store.now)
            && (last.None? ==> states[until].store.jobs[j] == states[from].store.jobs[j])
            && (last.Some? ==>
                  states[until].store.jobs[j] == states[last.value + 1].store.jobs[j])
    decreases until
  {
    hide Next, Enabled, Writes, Init;
    if from < until {
      RowSinceLastWrite(states, steps, from, until - 1, j);
      JobsStay(states[until - 1], steps[until - 1]);
      if !Writes(states[until - 1], steps[until - 1], j) {
        UnwrittenStays(states[until - 1], steps[until - 1], j);
      }
    }
  }

  lemma SelectedIsDue(s: System, step: Step, p: Pick)
    requires Enabled(s, step) && step.SelectDue? && p in step.picks
    ensures DuePick(s.store, p)
  {
  }

  /** Fine granularity: job p was read as due at step k, and in the later state i its lock statement would take
      effect. It is not due any more exactly when its row was written in between and the last write did not
      reschedule it for a time that has passed. */
  lemma StaleExactlyIf(states: seq<System>, steps: seq<Step>, k: nat, i: nat, p: Pick)
    requires Run(states, steps) && k < i <= |steps|
    requires steps[k].SelectDue? && p in steps[k].picks && Lockable(states[i].store, p.job)
    ensures p.job in states[k].store.jobs
    ensures var last := LastWrite(states, steps, k, i, p.job);
            !DuePick(states[i].store, p) <==>
              && last.Some?
              && var s := states[last.value];
                 var step := steps[last.value];
                 && p.job in s.store.jobs
                 && (!Reschedules(s, step, p.job)
                     || (NextRunAfter(s, step, p.job).Some? && NextRunAfter(s, step, p.job).value > states[i].store.now))
  {
    SelectedIsDue(states[k], steps[k], p);
    RowSinceLastWrite(states, steps, k, i, p.job);
    var last := LastWrite(states, steps, k, i, p.job);
    hide Next, Enabled, Writes, Init, LastWrite;
    if last.Some? {
      RunsAreBusy(states, steps, last.value);
      WriteOutcome(states[last.value], steps[last.value], p.job);
    }
  }

  // ---- atomic selection and lock

  /** The step takes the lock of j. */
  ghost predicate Takes(s: System, step: Step, j: JobId)
    requires Enabled(s, step)
  {
    (step.Lock? || step.Claim?) && Writes(s, step, j)
  }

  predicate Selectable(s: System, j: JobId) {
    j in s.store.jobs && s.store.jobs[j].status in {Scheduled, Failed}
  }

  /** Only four statements open a job to the selection queries. */
  lemma OpenedBy(s: System, step: Step, j: JobId)
    requires Enabled(s, step) && j in s.store.jobs && !Selectable(s, j) && Selectable(Next(s, step), j)
    ensures Writes(s, step, j) && (step.Reap? || step.UnlockScheduled? || step.UnlockFailed? || step.CompleteJob?)
  {
  }

  lemma TakenIsPending(s: System, step: Step, j: JobId)
    requires Enabled(s, step) && Takes(s, step, j)
    ensures j in s.store.jobs && j in Next(s, step).store.jobs && !Selectable(Next(s, step), j)
    ensures step.Claim? ==> Selectable(s, j)
  {
  }

  /** Atomic granularity: between a lock of j and its next claim some step opened j again. Without such a step
      only one worker picks the job up. */
  lemma {:induction false} ReopenedBetweenClaims(states: seq<System>, steps: seq<Step>, a: nat, b: nat, j: JobId)
    returns (m: nat)
    requires Run(states, steps) && a < b < |steps|
    requires Takes(states[a], steps[a], j) && steps[b].Claim? && Takes(states[b], steps[b], j)
    ensures a < m < b && Writes(states[m], steps[m], j)
    ensures !Selectable(states[m], j) && Selectable(states[m + 1], j)
    ensures steps[m].Reap? || steps[m].UnlockScheduled? || steps[m].UnlockFailed? || steps[m].CompleteJob?
  {
    hide Next, Enabled, Writes, Init, Takes, Selectable;
    TakenIsPending(states[a], steps[a], j);
    TakenIsPending(states[b], steps[b], j);
    m := a + 1;
    while !Selectable(states[m + 1], j)
      invariant a < m < b && j in states[m].store.jobs && !Selectable(states[m], j)
      decreases b - m
    {
      JobsStay(states[m], steps[m]);
      m := m + 1;
    }
    OpenedBy(states[m], steps[m], j);
  }
}

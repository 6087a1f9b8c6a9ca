/**
 Jobs the scheduler has given up on, or that wait for their consumer: no scheduler statement,
 of any process, at the fine granularity, ever touches them again.
 */
module QuietJobs {
  import opened Prelude
  import opened JobStore
  import opened JobProtocol

  /** Everything `tick` does; the consumer's statements are the rest. */
  predicate SchedulerStep(step: Step) {
    !step.ConsumeStart? && !step.ReportExecution? && !step.CompleteJob?
  }

  /** No process has selected the job or is inside queueJob with it. */
  predicate Uninvolved(process: Process, j: JobId) {
    && (forall i | 0 <= i < |process.todo| :: process.todo[i].job != j)
    && (!process.pc.Idle? ==> process.pc.pick.job != j)
  }

  /** Failed with its retries used up. */
  ghost predicate Exhausted(st: Store, j: JobId)
    requires j in st.jobs
  {
    && st.jobs[j].status == Failed
    && forall a: nat | LastAttempt(st.executions, j, a) :: a >= st.jobs[j].maxRetries
  }

  ghost predicate Quiet(s: System, j: JobId) {
    && j in s.store.jobs
    && s.store.jobs[j].lockedBy.None?
    && s.store.jobs[j].status != Scheduled
    && (s.store.jobs[j].status == Failed ==> Exhausted(s.store, j))
    && forall w | w in s.processes :: Uninvolved(s.processes[w], j)
  }

  predicate RowsOf(a: seq<Execution>, b: seq<Execution>, j: JobId) {
    && |a| <= |b|
    && (forall i | 0 <= i < |a| :: b[i] == a[i].(status := b[i].status))
    && forall i | |a| <= i < |b| :: b[i].job != j
  }

  lemma SameLastAttempt(a: seq<Execution>, b: seq<Execution>, j: JobId, last: nat)
    requires RowsOf(a, b, j) && LastAttempt(b, j, last)
    ensures LastAttempt(a, j, last)
  {
    if HasRows(b, j) {
      var k: nat :| NewestRow(b, j, k) && b[k].attempt == last;
      assert NewestRow(a, j, k) && a[k].attempt == last;
    }
  }

  lemma SchedulerKeepsQuietRow(s: System, step: Step, j: JobId)
    requires Enabled(s, step) && SchedulerStep(step) && Quiet(s, j)
    ensures j in Next(s, step).store.jobs && Next(s, step).store.jobs[j] == s.store.jobs[j]
    ensures RowsOf(s.store.executions, Next(s, step).store.executions, j)
  {
    if HasWorker(step) {
      assert Uninvolved(s.processes[step.w], j);
    }
  }

  lemma SchedulerStaysUninvolved(s: System, step: Step, j: JobId, w: WorkerId)
    requires Enabled(s, step) && SchedulerStep(step) && Quiet(s, j) && w in s.processes
    ensures Uninvolved(Next(s, step).processes[w], j)
  {
    assert Uninvolved(s.processes[w], j);
    if (step.SelectRetry? || step.SelectDue?) && step.w == w {
      forall i | 0 <= i < |step.picks| ensures step.picks[i].job != j {
        assert DuePick(s.store, step.picks[i]) || RetryPick(s.store, step.picks[i]);
      }
    }
  }

  lemma QuietStep(s: System, step: Step, j: JobId)
    requires Enabled(s, step) && SchedulerStep(step) && Quiet(s, j)
    ensures Quiet(Next(s, step), j) && Next(s, step).store.jobs[j] == s.store.jobs[j]
    ensures RowsOf(s.store.executions, Next(s, step).store.executions, j)
  {
    var n := Next(s, step);
    SchedulerKeepsQuietRow(s, step, j);
    forall w | w in n.processes ensures Uninvolved(n.processes[w], j) {
      SchedulerStaysUninvolved(s, step, j, w);
    }
    forall a: nat | LastAttempt(n.store.executions, j, a) && s.store.jobs[j].status == Failed
      ensures a >= s.store.jobs[j].maxRetries
    {
      SameLastAttempt(s.store.executions, n.store.executions, j, a);
    }
  }

  /** Any number of ticks by any processes leaves a quiet job's row unchanged and adds no
      execution of it. */
  lemma {:induction false} QuietForever(states: seq<System>, steps: seq<Step>, j: JobId)
    requires |states| == |steps| + 1
    requires forall i | 0 <= i < |steps| ::
               Enabled(states[i], steps[i]) && SchedulerStep(steps[i]) && states[i + 1] == Next(states[i], steps[i])
    requires Quiet(states[0], j)
    ensures Quiet(states[|steps|], j)
    ensures states[|steps|].store.jobs[j] == states[0].store.jobs[j]
    ensures RowsOf(states[0].store.executions, states[|steps|].store.executions, j)
    decreases |steps|
  {
    var n := |steps|;
    if n > 0 {
      QuietForever(states[..n], steps[..n - 1], j);
      QuietStep(states[n - 1], steps[n - 1], j);
    }
  }
}

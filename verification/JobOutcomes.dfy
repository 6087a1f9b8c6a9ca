/**
 What a lock, a tick and a completion lead to later: when the reaper frees a lock, what one queueJob and one
 completion leave in the tables, and when a completed job is picked up again. Times are literal microseconds.
 */
module JobOutcomes {
  import opened Prelude
  import opened JobStore
  import opened JobProtocol
  import opened QuietJobs
  import opened Selections
  import opened SchedulerClass

  // ---- the reaper

  /** The row a lock left is freed by the reaper exactly when more than ten minutes have passed since, and stays as
      it is otherwise. */
  lemma ReapedAfterTenMinutes(st: Store, w: WorkerId, p: Pick, f: Faults, t: Store)
    requires Lockable(st, p.job) && Queued(st, w, p, f).jobs[p.job].lockedBy == Some(w)
    requires p.job in t.jobs && t.jobs[p.job] == Queued(st, w, p, f).jobs[p.job]
    ensures p.job in ReleaseStale(t).jobs
    ensures ReleaseStale(t).jobs[p.job].lockedBy.None? <==> t.now > st.now + 600_000_000
    ensures ReleaseStale(t).jobs[p.job] ==
              if t.now > st.now + 600_000_000
              then t.jobs[p.job].(lockedBy := None, lockedAt := None, updatedAt := t.now) else t.jobs[p.job]
  {
  }

  /** When the last lock of j was taken. */
  function LastLock(acquisitions: seq<Acquisition>, j: JobId): Option<int> {
    if acquisitions == [] then None
    else if acquisitions[|acquisitions| - 1].job == j then Some(acquisitions[|acquisitions| - 1].at)
    else LastLock(acquisitions[..|acquisitions| - 1], j)
  }

  ghost predicate LocksAreStamped(st: Store) {
    forall j | j in st.jobs && st.jobs[j].lockedBy.Some? ::
      st.jobs[j].lockedAt.Some? && st.jobs[j].lockedAt == LastLock(st.acquisitions, j)
  }

  lemma LastLockAppend(acquisitions: seq<Acquisition>, x: Acquisition, j: JobId)
    ensures LastLock(acquisitions + [x], j) == if x.job == j then Some(x.at) else LastLock(acquisitions, j)
  {
    assert (acquisitions + [x])[..|acquisitions|] == acquisitions;
  }

  lemma StampedAfterLock(st: Store, w: WorkerId, p: Pick)
    requires LocksAreStamped(st) && Lockable(st, p.job)
    ensures LocksAreStamped(LockJob(st, w, p))
  {
    var x := Acquisition(p.job, w, p.attempt, st.now, st.jobs[p.job].status);
    forall j | j in st.jobs
      ensures LastLock(LockJob(st, w, p).acquisitions, j) ==
                if j == p.job then Some(st.now) else LastLock(st.acquisitions, j)
    {
      LastLockAppend(st.acquisitions, x, j);
    }
  }

  lemma OthersKeepStamps(s: System, step: Step)
    requires Enabled(s, step) && LocksAreStamped(s.store) && !step.Lock? && !step.Claim?
    ensures LocksAreStamped(Next(s, step).store)
  {
    hide LastLock;
  }

  lemma StampedStep(s: System, step: Step)
    requires Enabled(s, step) && LocksAreStamped(s.store)
    ensures LocksAreStamped(Next(s, step).store)
  {
    match step
    case Lock(w, _) =>
      if Lockable(s.store, s.processes[w].todo[0].job) { StampedAfterLock(s.store, w, s.processes[w].todo[0]); }
    case Claim(w, p) => StampedAfterLock(s.store, w, p);
    case _ => OthersKeepStamps(s, step);
  }

  lemma {:induction false} RunsAreStamped(states: seq<System>, steps: seq<Step>, i: nat)
    requires Run(states, steps) && i <= |steps|
    ensures LocksAreStamped(states[i].store)
  {
    hide Next, Enabled;
    if i > 0 {
      RunsAreStamped(states, steps, i - 1);
      StampedStep(states[i - 1], steps[i - 1]);
    }
  }

  lemma ReapEffect(s: System, j: JobId)
    requires j in s.store.jobs && s.store.jobs[j].lockedBy.Some? && s.store.jobs[j].lockedAt.Some?
    ensures var n := Next(s, Reap);
            && j in n.store.jobs
            && (n.store.jobs[j].lockedBy.None? <==> s.store.now > s.store.jobs[j].lockedAt.value + 600_000_000)
            && n.store.jobs[j].status == (if n.store.jobs[j].lockedBy.None? && s.store.jobs[j].status == Running
                                          then Failed else s.store.jobs[j].status)
  {
  }

  /** Over every run, whoever locked, crashed or finished: the reaper frees a lock exactly when it was taken more than
      ten minutes ago; a running job then counts as failed, any other keeps its status. */
  lemma ReapedIffOld(states: seq<System>, steps: seq<Step>, i: nat, j: JobId)
    requires Run(states, steps) && i < |steps| && steps[i].Reap?
    requires j in states[i].store.jobs && states[i].store.jobs[j].lockedBy.Some?
    ensures var s := states[i].store;
            var n := states[i + 1].store;
            && LastLock(s.acquisitions, j).Some? && j in n.jobs
            && (n.jobs[j].lockedBy.None? <==> s.now > LastLock(s.acquisitions, j).value + 600_000_000)
            && n.jobs[j].status == (if n.jobs[j].lockedBy.None? && s.jobs[j].status == Running then Failed
                                    else s.jobs[j].status)
  {
    RunsAreStamped(states, steps, i);
    hide Next, Enabled, LastLock;
    ReapEffect(states[i], j);
  }

  // ---- one queueJob, one tick

  /** The row and the lock an unlocked job gets, and what each fault leaves of them. */
  lemma QueueJobRows(st: Store, w: WorkerId, p: Pick, f: Faults)
    requires Lockable(st, p.job) && !f.lock
    ensures var end := Queued(st, w, p, f);
            && p.job in end.jobs
            && end.jobs[p.job].updatedAt == st.now
            && (end.jobs[p.job].lockedBy.Some? ==>
                  end.jobs[p.job].lockedAt == Some(st.now) && end.jobs[p.job].status == Pending)
            && (!f.insert ==>
                  && |end.executions| == |st.executions| + 1
                  && var row := end.executions[|st.executions|];
                     && row.job == p.job && row.attempt == p.attempt && row.worker == w && row.createdAt == st.now
                     && row.status == (if f.produce && !f.mark then ExecFailed else ExecPending))
            && (!f.insert && !f.produce ==> end.messages == st.messages + [Message(p.job, |st.executions|, p.attempt)])
  {
  }

  lemma QueuedGrows(st: Store, w: WorkerId, p: Pick, f: Faults)
    ensures |Queued(st, w, p, f).executions| <= |st.executions| + 1
  {
  }

  lemma {:induction false} PassGrows(st: Store, w: WorkerId, picks: seq<Pick>, faults: seq<Faults>)
    requires |picks| == |faults|
    ensures |QueuedAll(st, w, picks, faults).executions| <= |st.executions| + |picks|
  {
    hide Queued;
    var n := |picks|;
    if n > 0 {
      PassGrows(st, w, picks[..n - 1], faults[..n - 1]);
      QueuedGrows(QueuedAll(st, w, picks[..n - 1], faults[..n - 1]), w, picks[n - 1], faults[n - 1]);
    }
  }

  /** One tick queues at most ten due jobs and five retries. */
  lemma TickQueuesAtMostFifteen(st: Store, w: WorkerId, due: seq<Pick>, dueFaults: seq<Faults>,
                                retry: seq<Pick>, retryFaults: seq<Faults>)
    requires |due| == |dueFaults| && |retry| == |retryFaults|
    requires DueSelection(ReleaseStale(st), due)
    requires RetrySelection(QueuedAll(ReleaseStale(st), w, due, dueFaults), retry)
    ensures |QueuedAll(QueuedAll(ReleaseStale(st), w, due, dueFaults), w, retry, retryFaults).executions|
              <= |st.executions| + 15
  {
    PassGrows(ReleaseStale(st), w, due, dueFaults);
    PassGrows(QueuedAll(ReleaseStale(st), w, due, dueFaults), w, retry, retryFaults);
  }

  /** Due jobs come with those that were never planned first and then by their next run, retries by their last
      update. */
  lemma SelectionsAreOrdered(st: Store, picks: seq<Pick>, a: nat, b: nat)
    requires a < b < |picks| && (DueSelection(st, picks) || RetrySelection(st, picks))
    ensures picks[a].job in st.jobs && picks[b].job in st.jobs && picks[a].job != picks[b].job
    ensures var x, y := st.jobs[picks[a].job], st.jobs[picks[b].job];
            && (DueSelection(st, picks) ==>
                  && (y.nextRun.None? ==> x.nextRun.None?)
                  && (x.nextRun.Some? && y.nextRun.Some? ==> x.nextRun.value <= y.nextRun.value))
            && (RetrySelection(st, picks) ==> x.updatedAt <= y.updatedAt)
  {
    assert (DuePick(st, picks[a]) && DuePick(st, picks[b])) || (RetryPick(st, picks[a]) && RetryPick(st, picks[b]));
  }

  /** A retry needs a failed, unlocked job with a retry left and a wait of 1, 2, 4, ... minutes since its last
      update, in microseconds. */
  lemma RetryNeeds(st: Store, p: Pick)
    requires RetryPick(st, p)
    ensures p.job in st.jobs && p.attempt >= 1
    ensures var job := st.jobs[p.job];
            && job.status == Failed && job.lockedBy.None? && p.attempt <= job.maxRetries
            && job.updatedAt < st.now - Pow2(p.attempt - 1) * 60_000_000
    ensures Pow2(0) == 1 && forall n: nat :: Pow2(n + 1) == 2 * Pow2(n)
  {
  }

  // ---- completions

  /** Everything one completion writes. */
  lemma CompletionOutcome(st: Store, j: JobId, execution: nat, outcome: Outcome, nextRun: Option<int>, at: int)
    requires j in st.jobs && execution < |st.executions|
    ensures var end := JobCompleted(st, j, execution, outcome, nextRun, at);
            && j in end.jobs && execution < |end.executions|
            && end.executions[execution].status == (if outcome == FailedRun then ExecFailed else ExecCompleted)
            && var job := end.jobs[j];
               && job.lockedBy.None? && job.lockedAt.None?
               && job.lastRun == Some(at) && job.updatedAt == at && job.nextRun == nextRun
               && (job.status == Failed <==> outcome == FailedRun)
               && (job.status == Completed <==> outcome == Succeeded && !st.jobs[j].recurring)
               && (job.status == Scheduled <==> outcome == OtherOutcome || (outcome == Succeeded && st.jobs[j].recurring))
  {
  }

  /** A consumer that starts a message marks its job running, whatever it was, and leaves the lock. */
  lemma StartMarksRunning(s: System, m: nat)
    requires Enabled(s, ConsumeStart(m)) && s.store.messages[m].job in s.store.jobs
    ensures var j := s.store.messages[m].job;
            var n := Next(s, ConsumeStart(m)).store;
            j in n.jobs && n.jobs[j] == s.store.jobs[j].(status := Running, updatedAt := s.store.now)
  {
  }

  lemma CompletedRow(s: System, step: Step, j: JobId)
    requires Enabled(s, step) && step.CompleteJob? && j in s.store.jobs && s.store.messages[step.m].job == j
    requires step.outcome == Succeeded
    ensures var n := Next(s, step);
            && j in n.store.jobs && n.store.jobs[j].lockedBy.None?
            && n.store.jobs[j].status == (if s.store.jobs[j].recurring then Scheduled else Completed)
            && n.store.jobs[j].nextRun == step.nextRun
  {
  }

  /** A recurring job that has succeeded is due again, with attempt 1, exactly from its next run on, as long as no
      other statement writes its row. */
  lemma RecurringIsDueAtNextRun(states: seq<System>, steps: seq<Step>, k: nat, i: nat, j: JobId, next: int)
    requires Run(states, steps) && k < i <= |steps| && j in states[k].store.jobs && states[k].store.jobs[j].recurring
    requires steps[k].CompleteJob? && states[k].store.messages[steps[k].m].job == j
    requires steps[k].outcome == Succeeded && steps[k].nextRun == Some(next)
    requires LastWrite(states, steps, k + 1, i, j).None?
    ensures DuePick(states[i].store, Pick(j, 1)) <==> states[i].store.now >= next
  {
    hide Next, Enabled, Writes, LastWrite, Init;
    CompletedRow(states[k], steps[k], j);
    RowSinceLastWrite(states, steps, k + 1, i, j);
  }

  /** A one-time job that has succeeded is left alone by every later scheduler step, unless a process still held
      a stale selection of it. */
  lemma OneTimeIsNotPickedAgain(s: System, step: Step, later: seq<System>, ticks: seq<Step>, j: JobId)
    requires Enabled(s, step) && step.CompleteJob? && j in s.store.jobs && s.store.messages[step.m].job == j
    requires step.outcome == Succeeded && !s.store.jobs[j].recurring
    requires forall w | w in s.processes :: Uninvolved(s.processes[w], j)
    requires |later| == |ticks| + 1 && later[0] == Next(s, step)
    requires forall i | 0 <= i < |ticks| ::
               Enabled(later[i], ticks[i]) && SchedulerStep(ticks[i]) && later[i + 1] == Next(later[i], ticks[i])
    ensures j in later[|ticks|].store.jobs && later[|ticks|].store.jobs[j].status == Completed
    ensures RowsOf(later[0].store.executions, later[|ticks|].store.executions, j)
  {
    CompletedRow(s, step, j);
    CompletionKeepsProcesses(s, step);
    hide Next, Enabled;
    QuietForever(later, ticks, j);
  }

  lemma CompletionKeepsProcesses(s: System, step: Step)
    requires Enabled(s, step) && step.CompleteJob?
    ensures Next(s, step).processes == s.processes
  {
  }
}

/**
 What every interleaving keeps: the lock ledger balances, messages, rows and locks are
 traceable one-to-one, and attempts stay within the retry limit. All lemmas here are at the
 fine granularity: they cover stale selections, crashes and every fault.
 */
module JobSafety {
  import opened Prelude
  import opened JobStore
  import opened JobProtocol

  // ---- exclusivity: acquisitions minus effective releases

  function Acquired(acquisitions: seq<Acquisition>, j: JobId): nat {
    if acquisitions == [] then 0
    else Acquired(acquisitions[..|acquisitions| - 1], j)
         + (if acquisitions[|acquisitions| - 1].job == j then 1 else 0)
  }

  lemma AcquiredAppend(acquisitions: seq<Acquisition>, x: Acquisition, j: JobId)
    ensures Acquired(acquisitions + [x], j) == Acquired(acquisitions, j) + (if x.job == j then 1 else 0)
  {
    assert (acquisitions + [x])[..|acquisitions|] == acquisitions;
  }

  ghost predicate LockLedger(st: Store) {
    forall j | j in st.jobs ::
      Acquired(st.acquisitions, j) == st.released[j] + (if st.jobs[j].lockedBy.Some? then 1 else 0)
  }

  lemma LedgerAfterLock(st: Store, w: WorkerId, p: Pick)
    requires LockLedger(st) && Lockable(st, p.job)
    ensures LockLedger(LockJob(st, w, p))
  {
    forall j | j in st.jobs
      ensures Acquired(LockJob(st, w, p).acquisitions, j)
           == Acquired(st.acquisitions, j) + (if j == p.job then 1 else 0)
    {
      AcquiredAppend(st.acquisitions, Acquisition(p.job, w, p.attempt, st.now, st.jobs[p.job].status), j);
    }
  }

  lemma LedgerAfterReap(st: Store)
    requires LockLedger(st)
    ensures LockLedger(ReleaseStale(st))
  {
  }

  lemma LedgerAfterUnlock(st: Store, j: JobId, status: Status)
    requires LockLedger(st)
    ensures LockLedger(Unlock(st, j, status))
  {
  }

  lemma LedgerAfterComplete(st: Store, j: JobId, outcome: Outcome, nextRun: Option<int>, at: int)
    requires LockLedger(st)
    ensures LockLedger(Complete(st, j, outcome, nextRun, at))
  {
  }

  lemma LedgerStep(s: System, step: Step)
    requires Enabled(s, step) && LockLedger(s.store)
    ensures LockLedger(Next(s, step).store)
  {
    match step
    case Reap => LedgerAfterReap(s.store);
    case UnlockScheduled(w, _) => LedgerAfterUnlock(s.store, s.processes[w].pc.pick.job, Scheduled);
    case UnlockFailed(w, _) => LedgerAfterUnlock(s.store, s.processes[w].pc.pick.job, Failed);
    case CompleteJob(m, outcome, nextRun, at) =>
      LedgerAfterComplete(s.store, s.store.messages[m].job, outcome, nextRun, at);
    case Lock(w, _) =>
      if Lockable(s.store, s.processes[w].todo[0].job) { LedgerAfterLock(s.store, w, s.processes[w].todo[0]); }
    case Claim(w, p) => LedgerAfterLock(s.store, w, p);
    case _ =>
  }

  // ---- provenance: message -> row -> lock

  ghost predicate RowFromLock(st: Store, i: nat)
    requires i < |st.executions|
  {
    var row := st.executions[i];
    && row.acquisition < |st.acquisitions|
    && st.acquisitions[row.acquisition].job == row.job
    && st.acquisitions[row.acquisition].worker == row.worker
    && st.acquisitions[row.acquisition].attempt == row.attempt
    && st.acquisitions[row.acquisition].at <= row.createdAt
  }

  ghost predicate MessageFromRow(st: Store, m: nat)
    requires m < |st.messages|
  {
    var msg := st.messages[m];
    && msg.execution < |st.executions|
    && st.executions[msg.execution].job == msg.job
    && st.executions[msg.execution].attempt == msg.attempt
  }

  ghost predicate OneRowPerLock(st: Store) {
    && (forall i | 0 <= i < |st.executions| :: RowFromLock(st, i))
    && forall i, k | 0 <= i < k < |st.executions| ::
         st.executions[i].acquisition != st.executions[k].acquisition
  }

  ghost predicate OneMessagePerRow(st: Store) {
    && (forall m | 0 <= m < |st.messages| :: MessageFromRow(st, m))
    && forall m, n | 0 <= m < n < |st.messages| :: st.messages[m].execution != st.messages[n].execution
  }

  /** A process before its insert owns a lock no row was inserted under;
      one before its produce call owns a row no message names. */
  ghost predicate OwnsItsWork(st: Store, w: WorkerId, pc: Pc) {
    match pc
    case Locked(p, a) => OwnsLock(st, w, p, a)
    case Stamped(p, a, t) => OwnsLock(st, w, p, a) && st.acquisitions[a].at <= t
    case Inserted(p, e) =>
      && e < |st.executions|
      && st.executions[e].job == p.job && st.executions[e].attempt == p.attempt
      && forall m | 0 <= m < |st.messages| :: st.messages[m].execution != e
    case _ => true
  }

  ghost predicate OwnsLock(st: Store, w: WorkerId, p: Pick, a: nat) {
    && a < |st.acquisitions|
    && st.acquisitions[a] == Acquisition(p.job, w, p.attempt, st.acquisitions[a].at, st.acquisitions[a].found)
    && st.acquisitions[a].at <= st.now
    && forall i | 0 <= i < |st.executions| :: st.executions[i].acquisition != a
  }

  predicate DisjointWork(a: Pc, b: Pc) {
    && (a.BeforeInsert() && b.BeforeInsert() ==> a.acquisition != b.acquisition)
    && (a.Inserted? && b.Inserted? ==> a.execution != b.execution)
  }

  ghost predicate Traceable(s: System) {
    && OneRowPerLock(s.store)
    && OneMessagePerRow(s.store)
    && (forall w | w in s.processes :: OwnsItsWork(s.store, w, s.processes[w].pc))
    && forall v, w | v in s.processes && w in s.processes && v != w ::
         DisjointWork(s.processes[v].pc, s.processes[w].pc)
  }

  lemma RowsAndMessagesPointBack(st: Store)
    requires OneRowPerLock(st) && OneMessagePerRow(st)
    ensures forall i | 0 <= i < |st.executions| :: st.executions[i].acquisition < |st.acquisitions|
    ensures forall m | 0 <= m < |st.messages| :: st.messages[m].execution < |st.executions|
  {
    forall i | 0 <= i < |st.executions| ensures st.executions[i].acquisition < |st.acquisitions| {
      assert RowFromLock(st, i);
    }
    forall m | 0 <= m < |st.messages| ensures st.messages[m].execution < |st.executions| {
      assert MessageFromRow(st, m);
    }
  }

  lemma TraceableAfterLock(s: System, w: WorkerId, p: Pick, rest: seq<Pick>, ok: bool)
    requires Traceable(s) && w in s.processes
    ensures Traceable(TakeLock(s, w, p, rest, ok))
  {
    var n := TakeLock(s, w, p, rest, ok);
    RowsAndMessagesPointBack(s.store);
    forall i | 0 <= i < |n.store.executions| ensures RowFromLock(n.store, i) {
      assert RowFromLock(s.store, i);
    }
    forall m | 0 <= m < |n.store.messages| ensures MessageFromRow(n.store, m) {
      assert MessageFromRow(s.store, m);
    }
    forall v | v in n.processes ensures OwnsItsWork(n.store, v, n.processes[v].pc) {
      assert OwnsItsWork(s.store, v, s.processes[v].pc);
    }
  }

  lemma TraceableAfterInsert(s: System, w: WorkerId)
    requires Enabled(s, Insert(w, true)) && Traceable(s)
    ensures Traceable(Next(s, Insert(w, true)))
  {
    var n := Next(s, Insert(w, true));
    RowsAndMessagesPointBack(s.store);
    assert OwnsItsWork(s.store, w, s.processes[w].pc);
    forall i | 0 <= i < |n.store.executions| ensures RowFromLock(n.store, i) {
      assert i < |s.store.executions| ==> RowFromLock(s.store, i);
    }
    forall m | 0 <= m < |n.store.messages| ensures MessageFromRow(n.store, m) {
      assert MessageFromRow(s.store, m);
    }
    forall v | v in n.processes ensures OwnsItsWork(n.store, v, n.processes[v].pc) {
      assert OwnsItsWork(s.store, v, s.processes[v].pc);
      assert v != w ==> DisjointWork(s.processes[v].pc, s.processes[w].pc);
    }
  }

  lemma TraceableAfterSend(s: System, w: WorkerId)
    requires Enabled(s, Produce(w, true)) && Traceable(s)
    ensures Traceable(Next(s, Produce(w, true)))
  {
    var n := Next(s, Produce(w, true));
    assert OwnsItsWork(s.store, w, s.processes[w].pc);
    forall i | 0 <= i < |n.store.executions| ensures RowFromLock(n.store, i) {
      assert RowFromLock(s.store, i);
    }
    forall m | 0 <= m < |n.store.messages| ensures MessageFromRow(n.store, m) {
      assert m < |s.store.messages| ==> MessageFromRow(s.store, m);
    }
    forall v | v in n.processes ensures OwnsItsWork(n.store, v, n.processes[v].pc) {
      assert OwnsItsWork(s.store, v, s.processes[v].pc);
      assert v != w ==> DisjointWork(s.processes[v].pc, s.processes[w].pc);
    }
  }

  /** Locks are kept, rows change at most in status, and time does not go back. */
  predicate SameLocksAndRows(a: Store, b: Store) {
    && a.acquisitions == b.acquisitions && a.now <= b.now
    && |a.executions| == |b.executions|
    && forall i | 0 <= i < |a.executions| ::
         b.executions[i] == a.executions[i].(status := b.executions[i].status)
  }

  predicate SameHistories(a: Store, b: Store) {
    SameLocksAndRows(a, b) && a.messages == b.messages
  }

  /** A process keeps its work, stamps it, or drops it. */
  predicate KeepsOrDropsWork(a: Pc, b: Pc, now: int) {
    || b == a
    || (!b.BeforeInsert() && !b.Inserted?)
    || (a.Locked? && b == Stamped(a.pick, a.acquisition, now))
  }

  lemma OtherStepsKeepHistories(s: System, step: Step)
    requires Enabled(s, step) && !step.Lock? && !step.Claim?
    requires !(step.Insert? && step.ok) && !(step.Produce? && step.ok)
    ensures SameHistories(s.store, Next(s, step).store)
    ensures Next(s, step).processes.Keys == s.processes.Keys
    ensures forall w | w in s.processes ::
              KeepsOrDropsWork(s.processes[w].pc, Next(s, step).processes[w].pc, s.store.now)
  {
  }

  lemma TraceableIfHistoriesKept(s: System, n: System)
    requires Traceable(s) && SameHistories(s.store, n.store) && n.processes.Keys == s.processes.Keys
    requires forall w | w in s.processes ::
               KeepsOrDropsWork(s.processes[w].pc, n.processes[w].pc, s.store.now)
    ensures Traceable(n)
  {
    forall i | 0 <= i < |n.store.executions| ensures RowFromLock(n.store, i) {
      assert RowFromLock(s.store, i);
    }
    forall m | 0 <= m < |n.store.messages| ensures MessageFromRow(n.store, m) {
      assert MessageFromRow(s.store, m);
    }
    forall w | w in n.processes ensures OwnsItsWork(n.store, w, n.processes[w].pc) {
      assert OwnsItsWork(s.store, w, s.processes[w].pc);
    }
    forall v, w | v in n.processes && w in n.processes && v != w
      ensures DisjointWork(n.processes[v].pc, n.processes[w].pc)
    {
      assert DisjointWork(s.processes[v].pc, s.processes[w].pc);
    }
  }

  lemma TraceableStep(s: System, step: Step)
    requires Enabled(s, step) && Traceable(s)
    ensures Traceable(Next(s, step))
  {
    if step.Lock? {
      TraceableAfterLock(s, step.w, s.processes[step.w].todo[0], s.processes[step.w].todo[1..], step.ok);
    } else if step.Claim? {
      TraceableAfterLock(s, step.w, step.pick, [], true);
    } else if step.Insert? && step.ok {
      TraceableAfterInsert(s, step.w);
    } else if step.Produce? && step.ok {
      TraceableAfterSend(s, step.w);
    } else {
      OtherStepsKeepHistories(s, step);
      TraceableIfHistoriesKept(s, Next(s, step));
    }
  }

  // ---- attempts

  function AttemptLimit(st: Store, j: JobId): int {
    if j in st.jobs then Max(1, st.jobs[j].maxRetries) else 0
  }

  predicate InLimit(st: Store, j: JobId, attempt: nat) {
    1 <= attempt <= AttemptLimit(st, j)
  }

  ghost predicate PicksInLimit(st: Store, process: Process) {
    && (forall i | 0 <= i < |process.todo| :: InLimit(st, process.todo[i].job, process.todo[i].attempt))
    && (!process.pc.Idle? ==> InLimit(st, process.pc.pick.job, process.pc.pick.attempt))
  }

  ghost predicate AttemptsInLimit(s: System) {
    && (forall i | 0 <= i < |s.store.executions| ::
          InLimit(s.store, s.store.executions[i].job, s.store.executions[i].attempt))
    && forall w | w in s.processes :: PicksInLimit(s.store, s.processes[w])
  }

  predicate SameLimits(a: Store, b: Store) {
    a.jobs.Keys == b.jobs.Keys && forall j | j in a.jobs :: b.jobs[j].maxRetries == a.jobs[j].maxRetries
  }

  lemma ReleasesKeepLimits(st: Store, j: JobId, status: Status, outcome: Outcome, nextRun: Option<int>, at: int)
    ensures SameLimits(st, ReleaseStale(st)) && SameLimits(st, Unlock(st, j, status))
    ensures SameLimits(st, Complete(st, j, outcome, nextRun, at))
  {
  }

  lemma StepKeepsLimits(s: System, step: Step)
    requires Enabled(s, step)
    ensures SameLimits(s.store, Next(s, step).store)
  {
    hide ReleaseStale, Unlock, Complete;
    var st := s.store;
    match step
    case Reap => ReleasesKeepLimits(st, 0, Failed, OtherOutcome, None, 0);
    case UnlockScheduled(w, _) => ReleasesKeepLimits(st, s.processes[w].pc.pick.job, Scheduled, OtherOutcome, None, 0);
    case UnlockFailed(w, _) => ReleasesKeepLimits(st, s.processes[w].pc.pick.job, Failed, OtherOutcome, None, 0);
    case CompleteJob(m, outcome, nextRun, at) =>
      ReleasesKeepLimits(st, st.messages[m].job, Failed, outcome, nextRun, at);
    case _ =>
  }

  /** No step adds or removes a job or changes its retry limit. */
  lemma LimitsAreFixed(s: System, step: Step)
    requires Enabled(s, step)
    ensures Next(s, step).store.jobs.Keys == s.store.jobs.Keys
    ensures forall j :: AttemptLimit(Next(s, step).store, j) == AttemptLimit(s.store, j)
  {
    StepKeepsLimits(s, step);
    hide Next, Enabled;
  }

  lemma PicksStep(s: System, step: Step, w: WorkerId)
    requires Enabled(s, step) && w in s.processes && PicksInLimit(s.store, s.processes[w])
    ensures PicksInLimit(s.store, Next(s, step).processes[w])
  {
    if HasWorker(step) && step.w == w {
      var todo := s.processes[w].todo;
      match step
      case Lock(_, _) => assert InLimit(s.store, todo[0].job, todo[0].attempt);
      case _ =>
    }
  }

  lemma RowsStep(s: System, step: Step, i: nat)
    requires Enabled(s, step) && AttemptsInLimit(s) && i < |Next(s, step).store.executions|
    ensures var row := Next(s, step).store.executions[i]; InLimit(s.store, row.job, row.attempt)
  {
    if i < |s.store.executions| {
      assert InLimit(s.store, s.store.executions[i].job, s.store.executions[i].attempt);
    } else {
      assert PicksInLimit(s.store, s.processes[step.w]);
    }
  }

  lemma AttemptsStep(s: System, step: Step)
    requires Enabled(s, step) && AttemptsInLimit(s)
    ensures AttemptsInLimit(Next(s, step))
  {
    var n := Next(s, step);
    LimitsAreFixed(s, step);
    forall w | w in n.processes ensures PicksInLimit(n.store, n.processes[w]) {
      PicksStep(s, step, w);
    }
    forall i | 0 <= i < |n.store.executions|
      ensures InLimit(n.store, n.store.executions[i].job, n.store.executions[i].attempt)
    {
      RowsStep(s, step, i);
    }
  }

  // ---- whole runs

  ghost predicate Safe(s: System) {
    LockLedger(s.store) && Traceable(s) && AttemptsInLimit(s)
  }

  lemma {:induction false} RunsAreSafe(states: seq<System>, steps: seq<Step>)
    requires Run(states, steps)
    ensures Safe(states[|steps|])
    decreases |steps|
  {
    var n := |steps|;
    if n > 0 {
      RunPrefix(states, steps, n - 1);
      RunsAreSafe(states[..n], steps[..n - 1]);
      assert states[..n][n - 1] == states[n - 1];
      LedgerStep(states[n - 1], steps[n - 1]);
      TraceableStep(states[n - 1], steps[n - 1]);
      AttemptsStep(states[n - 1], steps[n - 1]);
    }
  }

  /** Mutual exclusion: acquisitions minus effective releases is 0 or 1, and 1 exactly while
      locked_by is set. */
  lemma LockIsExclusive(states: seq<System>, steps: seq<Step>, j: JobId)
    requires Run(states, steps) && j in states[|steps|].store.jobs
    ensures var st := states[|steps|].store;
            var held := Acquired(st.acquisitions, j) - st.released[j];
            (held == 0 || held == 1) && (held == 1 <==> st.jobs[j].lockedBy.Some?)
  {
    RunsAreSafe(states, steps);
  }

  /** Every message leads to its own row and that row to its own successful lock of the job. */
  lemma MessagesTraceToLocks(states: seq<System>, steps: seq<Step>, m: nat, n: nat)
    requires Run(states, steps)
    requires m < |states[|steps|].store.messages| && n < |states[|steps|].store.messages|
    ensures var st := states[|steps|].store;
            && st.messages[m].execution < |st.executions|
            && st.messages[n].execution < |st.executions|
            && var row := st.executions[st.messages[m].execution];
               var other := st.executions[st.messages[n].execution];
               && row.job == st.messages[m].job && row.attempt == st.messages[m].attempt
               && row.acquisition < |st.acquisitions|
               && st.acquisitions[row.acquisition].job == row.job
               && st.acquisitions[row.acquisition].worker == row.worker
               && st.acquisitions[row.acquisition].attempt == row.attempt
               && (m != n ==> st.messages[m].execution != st.messages[n].execution)
               && (m != n ==> row.acquisition != other.acquisition)
  {
    RunsAreSafe(states, steps);
    var st := states[|steps|].store;
    assert MessageFromRow(st, m) && MessageFromRow(st, n);
    assert RowFromLock(st, st.messages[m].execution);
  }

  /** With or without a message, distinct rows were inserted under distinct locks. */
  lemma RowsTraceToLocks(states: seq<System>, steps: seq<Step>, i: nat, k: nat)
    requires Run(states, steps) && i < k < |states[|steps|].store.executions|
    ensures var st := states[|steps|].store;
            && st.executions[i].acquisition != st.executions[k].acquisition
            && RowFromLock(st, i) && RowFromLock(st, k)
  {
    RunsAreSafe(states, steps);
  }

  /** Stale selections included, every row carries an attempt between 1 and max(1, max_retries). */
  lemma AttemptsNeverExceedLimit(states: seq<System>, steps: seq<Step>, i: nat)
    requires Run(states, steps) && i < |states[|steps|].store.executions|
    ensures var st := states[|steps|].store;
            var row := st.executions[i];
            row.job in st.jobs && 1 <= row.attempt <= Max(1, st.jobs[row.job].maxRetries)
  {
    RunsAreSafe(states, steps);
    assert InLimit(states[|steps|].store, states[|steps|].store.executions[i].job,
                   states[|steps|].store.executions[i].attempt);
  }
}

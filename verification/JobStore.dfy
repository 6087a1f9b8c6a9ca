/**
 The two tables the job scheduler shares (`jobs`, `job_executions`), the append-only
 message log, and one function per SQL statement of internal/scheduler/scheduler.go.
 `acquisitions` and `released` are histories: they record every successful lock and every
 statement that cleared a lock that was actually held.
 */
module JobStore {
  import opened Prelude

  type JobId = nat
  type WorkerId = nat

  // Timestamps are microseconds, PostgreSQL's resolution.
  const MINUTE: int := 60_000_000
  const STALE_AFTER: int := 10 * MINUTE
  const DUE_LIMIT: nat := 10
  const RETRY_LIMIT: nat := 5

  datatype Status = Scheduled | Pending | Running | Failed | Completed

  datatype Job = Job(
    status: Status,
    lockedBy: Option<WorkerId>,
    lockedAt: Option<int>,
    nextRun: Option<int>,
    lastRun: Option<int>,
    updatedAt: int,
    maxRetries: int,
    recurring: bool)  // schedule <> ''

  datatype ExecutionStatus = ExecPending | ExecRunning | ExecFailed | ExecCompleted

  datatype Execution = Execution(
    job: JobId,
    attempt: nat,
    worker: WorkerId,
    createdAt: int,
    status: ExecutionStatus,
    acquisition: nat)  // history: the lock this row was inserted under

  // `found` is the status the lock statement replaced.
  datatype Acquisition = Acquisition(job: JobId, worker: WorkerId, attempt: nat, at: int, found: Status)

  datatype Message = Message(job: JobId, execution: nat, attempt: nat)

  // A row of either selection query: the job and the attempt number it will be queued with.
  datatype Pick = Pick(job: JobId, attempt: nat)

  // The status argument of CompleteJob.
  datatype Outcome = Succeeded | FailedRun | OtherOutcome

  datatype Store = Store(
    now: int,
    jobs: map<JobId, Job>,
    executions: seq<Execution>,
    acquisitions: seq<Acquisition>,
    released: multiset<JobId>,
    messages: seq<Message>)

  // ---- releaseStaleJobs

  predicate Stale(job: Job, now: int) {
    && job.lockedBy.Some?
    && job.lockedAt.Some?
    && job.lockedAt.value < now - STALE_AFTER
  }

  function Reaped(job: Job, now: int): Job {
    job.(lockedBy := None, lockedAt := None,
         status := if job.status == Running then Failed else job.status,
         updatedAt := now)
  }

  function StaleJobs(st: Store): set<JobId> {
    set j | j in st.jobs && Stale(st.jobs[j], st.now)
  }

  function ReleaseStale(st: Store): Store {
    st.(jobs := map j | j in st.jobs ::
                  if Stale(st.jobs[j], st.now) then Reaped(st.jobs[j], st.now) else st.jobs[j],
        released := st.released + multiset(StaleJobs(st)))
  }

  // ---- processDueJobs and retryFailedJobs: the selection queries

  predicate Due(job: Job, now: int) {
    && job.status == Scheduled
    && (job.nextRun.None? || job.nextRun.value <= now)
    && job.lockedBy.None?
  }

  /** Row k is a newest row of job j: what ORDER BY created_at DESC LIMIT 1 may return. */
  ghost predicate NewestRow(rows: seq<Execution>, j: JobId, k: nat) {
    && k < |rows|
    && rows[k].job == j
    && forall i | 0 <= i < |rows| && rows[i].job == j :: rows[i].createdAt <= rows[k].createdAt
  }

  predicate HasRows(rows: seq<Execution>, j: JobId) {
    exists k | 0 <= k < |rows| :: rows[k].job == j
  }

  /** COALESCE(e.attempt, 0) for a newest row of j, or 0 when j has no rows. */
  ghost predicate LastAttempt(rows: seq<Execution>, j: JobId, a: nat) {
    if HasRows(rows, j)
    then exists k: nat :: NewestRow(rows, j, k) && rows[k].attempt == a
    else a == 0
  }

  predicate Retryable(job: Job, last: nat, now: int) {
    && job.status == Failed
    && job.lockedBy.None?
    && last < job.maxRetries
    && job.updatedAt < now - Pow2(last) * MINUTE
  }

  predicate DuePick(st: Store, p: Pick) {
    && p.job in st.jobs
    && Due(st.jobs[p.job], st.now)
    && p.attempt == 1
  }

  ghost predicate RetryPick(st: Store, p: Pick) {
    && p.job in st.jobs
    && p.attempt >= 1
    && LastAttempt(st.executions, p.job, p.attempt - 1)
    && Retryable(st.jobs[p.job], p.attempt - 1, st.now)
  }

  predicate DistinctJobs(picks: seq<Pick>) {
    forall a, b | 0 <= a < b < |picks| :: picks[a].job != picks[b].job
  }

  // ORDER BY next_run NULLS FIRST
  predicate RunsBefore(a: Job, b: Job) {
    a.nextRun.None? || (b.nextRun.Some? && a.nextRun.value <= b.nextRun.value)
  }

  /** A possible answer of the due-jobs query; rows locked by others may have been skipped. */
  ghost predicate DueSelection(st: Store, picks: seq<Pick>) {
    && |picks| <= DUE_LIMIT
    && DistinctJobs(picks)
    && (forall a | 0 <= a < |picks| :: DuePick(st, picks[a]))
    && forall a, b | 0 <= a < b < |picks| :: RunsBefore(st.jobs[picks[a].job], st.jobs[picks[b].job])
  }

  ghost predicate RetrySelection(st: Store, picks: seq<Pick>) {
    && |picks| <= RETRY_LIMIT
    && DistinctJobs(picks)
    && (forall a | 0 <= a < |picks| :: RetryPick(st, picks[a]))
    && forall a, b | 0 <= a < b < |picks| ::
         st.jobs[picks[a].job].updatedAt <= st.jobs[picks[b].job].updatedAt
  }

  // ---- queueJob: lock, insert, produce and the two compensations

  predicate Lockable(st: Store, j: JobId) {
    j in st.jobs && st.jobs[j].lockedBy.None?
  }

  function LockJob(st: Store, w: WorkerId, p: Pick): Store
    requires Lockable(st, p.job)
  {
    st.(jobs := st.jobs[p.job := st.jobs[p.job].(lockedBy := Some(w), lockedAt := Some(st.now),
                                                 status := Pending, updatedAt := st.now)],
        acquisitions := st.acquisitions + [Acquisition(p.job, w, p.attempt, st.now, st.jobs[p.job].status)])
  }

  function InsertRow(st: Store, w: WorkerId, p: Pick, createdAt: int, acquisition: nat): Store {
    st.(executions := st.executions
                      + [Execution(p.job, p.attempt, w, createdAt, ExecPending, acquisition)])
  }

  function Send(st: Store, p: Pick, execution: nat): Store {
    st.(messages := st.messages + [Message(p.job, execution, p.attempt)])
  }

  function SetExecution(st: Store, execution: nat, status: ExecutionStatus): Store {
    if execution < |st.executions|
    then st.(executions := st.executions[execution := st.executions[execution].(status := status)])
    else st
  }

  /** The lock cleared by a statement counts only when it was held. */
  function Cleared(st: Store, j: JobId): multiset<JobId> {
    if j in st.jobs && st.jobs[j].lockedBy.Some? then multiset{j} else multiset{}
  }

  /** UPDATE jobs SET locked_by = NULL, locked_at = NULL, status = ... WHERE id = j:
      neither the owner nor updated_at is looked at. */
  function Unlock(st: Store, j: JobId, status: Status): Store {
    if j in st.jobs
    then st.(jobs := st.jobs[j := st.jobs[j].(lockedBy := None, lockedAt := None, status := status)],
             released := st.released + Cleared(st, j))
    else st
  }

  // ---- the consumer and CompleteJob

  function MarkRunning(st: Store, j: JobId): Store {
    if j in st.jobs
    then st.(jobs := st.jobs[j := st.jobs[j].(status := Running, updatedAt := st.now)])
    else st
  }

  function FinalStatus(job: Job, outcome: Outcome): Status {
    if outcome == FailedRun then Failed
    else if !job.recurring && outcome == Succeeded then Completed
    else Scheduled
  }

  /** The last statement of CompleteJob; `at` is the clock reading taken when the call began. */
  function Complete(st: Store, j: JobId, outcome: Outcome, nextRun: Option<int>, at: int): Store {
    if j in st.jobs
    then st.(jobs := st.jobs[j := st.jobs[j].(status := FinalStatus(st.jobs[j], outcome),
                                              lastRun := Some(at), nextRun := nextRun,
                                              lockedBy := None, lockedAt := None, updatedAt := at)],
             released := st.released + Cleared(st, j))
    else st
  }
}

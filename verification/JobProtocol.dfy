/**
 Several scheduler processes and the message consumer interleaving their statements.
 Each `Step` is one SQL statement, one clock reading, one produce call or a crash.
 Granularity:
   - fine:   SelectDue / SelectRetry read, and a later Lock re-checks only locked_by;
   - atomic: Claim selects and locks in one step, which FOR UPDATE SKIP LOCKED intends.
 */
module JobProtocol {
  import opened Prelude
  import opened JobStore

  // Where a process stands inside queueJob.
  datatype Pc =
    | Idle
    | Locked(pick: Pick, acquisition: nat)
    | Stamped(pick: Pick, acquisition: nat, createdAt: int)
    | InsertFailed(pick: Pick)
    | Inserted(pick: Pick, execution: nat)
    | ProduceFailed(pick: Pick, execution: nat)
    | ExecutionMarked(pick: Pick)
  {
    /** The job is locked and its execution row does not exist yet. */
    predicate BeforeInsert() {
      Locked? || Stamped?
    }
  }

  // `todo` holds selected rows that have not been passed to queueJob yet.
  datatype Process = Process(pc: Pc, todo: seq<Pick>)

  datatype System = System(store: Store, processes: map<WorkerId, Process>)

  datatype Step =
    | Advance(delta: nat)
    | Reap
    | SelectDue(w: WorkerId, picks: seq<Pick>)
    | SelectRetry(w: WorkerId, picks: seq<Pick>)
    | Lock(w: WorkerId, ok: bool)
    | Claim(w: WorkerId, pick: Pick)
    | Stamp(w: WorkerId)
    | Insert(w: WorkerId, ok: bool)
    | UnlockScheduled(w: WorkerId, ok: bool)
    | Produce(w: WorkerId, ok: bool)
    | MarkExecutionFailed(w: WorkerId, ok: bool)
    | UnlockFailed(w: WorkerId, ok: bool)
    | Crash(w: WorkerId)
    | ConsumeStart(m: nat)
    | ReportExecution(m: nat, status: ExecutionStatus)
    | CompleteJob(m: nat, outcome: Outcome, nextRun: Option<int>, at: int)

  predicate HasWorker(step: Step) {
    !step.Advance? && !step.Reap? && !step.ConsumeStart? && !step.ReportExecution? && !step.CompleteJob?
  }

  ghost predicate Enabled(s: System, step: Step) {
    && (HasWorker(step) ==> step.w in s.processes)
    && match step
       case Advance(_) => true
       case Reap => true
       case SelectDue(w, picks) => s.processes[w] == Process(Idle, []) && DueSelection(s.store, picks)
       case SelectRetry(w, picks) => s.processes[w] == Process(Idle, []) && RetrySelection(s.store, picks)
       case Lock(w, _) => s.processes[w].pc.Idle? && s.processes[w].todo != []
       case Claim(w, p) => s.processes[w] == Process(Idle, []) && (DuePick(s.store, p) || RetryPick(s.store, p))
       case Stamp(w) => s.processes[w].pc.Locked?
       case Insert(w, _) => s.processes[w].pc.Stamped?
       case UnlockScheduled(w, _) => s.processes[w].pc.InsertFailed?
       case Produce(w, _) => s.processes[w].pc.Inserted?
       case MarkExecutionFailed(w, _) => s.processes[w].pc.ProduceFailed?
       case UnlockFailed(w, _) => s.processes[w].pc.ExecutionMarked?
       case Crash(_) => true
       case ConsumeStart(m) => m < |s.store.messages|
       case ReportExecution(m, _) => m < |s.store.messages|
       case CompleteJob(m, _, _, at) => m < |s.store.messages| && at <= s.store.now
  }

  function At(s: System, w: WorkerId, pc: Pc): System
    requires w in s.processes
  {
    s.(processes := s.processes[w := s.processes[w].(pc := pc)])
  }

  function Queue(s: System, w: WorkerId, todo: seq<Pick>): System
    requires w in s.processes
  {
    s.(processes := s.processes[w := Process(Idle, todo)])
  }

  /** The lock statement: it takes effect only on a row whose locked_by is NULL. */
  function TakeLock(s: System, w: WorkerId, p: Pick, rest: seq<Pick>, ok: bool): System
    requires w in s.processes
  {
    if ok && Lockable(s.store, p.job)
    then System(LockJob(s.store, w, p),
                s.processes[w := Process(Locked(p, |s.store.acquisitions|), rest)])
    else Queue(s, w, rest)
  }

  ghost function Next(s: System, step: Step): System
    requires Enabled(s, step)
  {
    var st := s.store;
    match step
    case Advance(delta) => s.(store := st.(now := st.now + delta))
    case Reap => s.(store := ReleaseStale(st))
    case SelectDue(w, picks) => Queue(s, w, picks)
    case SelectRetry(w, picks) => Queue(s, w, picks)
    case Lock(w, ok) => TakeLock(s, w, s.processes[w].todo[0], s.processes[w].todo[1..], ok)
    case Claim(w, p) => TakeLock(s, w, p, [], true)
    case Stamp(w) =>
      var pc := s.processes[w].pc;
      At(s, w, Stamped(pc.pick, pc.acquisition, st.now))
    case Insert(w, ok) =>
      var pc := s.processes[w].pc;
      if ok
      then At(s, w, Inserted(pc.pick, |st.executions|))
           .(store := InsertRow(st, w, pc.pick, pc.createdAt, pc.acquisition))
      else At(s, w, InsertFailed(pc.pick))
    case UnlockScheduled(w, ok) =>
      var pc := s.processes[w].pc;
      At(s, w, Idle).(store := if ok then Unlock(st, pc.pick.job, Scheduled) else st)
    case Produce(w, ok) =>
      var pc := s.processes[w].pc;
      if ok
      then At(s, w, Idle).(store := Send(st, pc.pick, pc.execution))
      else At(s, w, ProduceFailed(pc.pick, pc.execution))
    case MarkExecutionFailed(w, ok) =>
      var pc := s.processes[w].pc;
      At(s, w, ExecutionMarked(pc.pick))
      .(store := if ok then SetExecution(st, pc.execution, ExecFailed) else st)
    case UnlockFailed(w, ok) =>
      var pc := s.processes[w].pc;
      At(s, w, Idle).(store := if ok then Unlock(st, pc.pick.job, Failed) else st)
    case Crash(w) => Queue(s, w, [])
    case ConsumeStart(m) =>
      s.(store := MarkRunning(st, st.messages[m].job))
    case ReportExecution(m, status) =>
      s.(store := SetExecution(st, st.messages[m].execution, status))
    case CompleteJob(m, outcome, nextRun, at) =>
      s.(store := Complete(st, st.messages[m].job, outcome, nextRun, at))
  }

  /** Empty history, every job unlocked, every process idle; job statuses are arbitrary. */
  ghost predicate Init(s: System) {
    && s.store.executions == [] && s.store.acquisitions == [] && s.store.messages == []
    && s.store.released == multiset{}
    && (forall j | j in s.store.jobs ::
          s.store.jobs[j].lockedBy.None? && s.store.jobs[j].updatedAt <= s.store.now)
    && forall w | w in s.processes :: s.processes[w] == Process(Idle, [])
  }

  /** A run visits |steps| + 1 states. */
  ghost predicate Run(states: seq<System>, steps: seq<Step>) {
    && |states| == |steps| + 1
    && Init(states[0])
    && forall i | 0 <= i < |steps| :: Enabled(states[i], steps[i]) && states[i + 1] == Next(states[i], steps[i])
  }

  lemma RunPrefix(states: seq<System>, steps: seq<Step>, n: nat)
    requires Run(states, steps) && n <= |steps|
    ensures Run(states[..n + 1], steps[..n])
  {
  }

  /** The state after `steps`, when each of them is enabled in turn. */
  ghost function After(s: System, steps: seq<Step>): Option<System>
    decreases steps
  {
    if steps == [] then Some(s)
    else if Enabled(s, steps[0]) then After(Next(s, steps[0]), steps[1..])
    else None
  }

  lemma AfterStep(s: System, step: Step, rest: seq<Step>)
    requires Enabled(s, step)
    ensures After(s, [step] + rest) == After(Next(s, step), rest)
  {
    assert ([step] + rest)[1..] == rest;
  }

  lemma {:induction false} AfterConcat(s: System, a: seq<Step>, b: seq<Step>)
    requires After(s, a).Some?
    ensures After(s, a + b) == After(After(s, a).value, b)
    decreases a
  {
    if a == [] {
      assert a + b == b;
    } else {
      assert (a + b)[1..] == a[1..] + b;
      AfterConcat(Next(s, a[0]), a[1..], b);
    }
  }
}

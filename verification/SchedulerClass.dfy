/**
 The scheduler's methods in their own form: statements that update the shared tables in place.
 Faults are parameters. Every method is tied to the statement functions of JobStore, and
 `QueueJobIsProtocolPath` shows that an uninterrupted queueJob is a path of JobProtocol.
 */
module SchedulerClass {
  import opened Prelude
  import opened JobStore
  import opened JobProtocol

  // Which database and broker calls of one queueJob fail.
  datatype Faults = Faults(lock: bool, insert: bool, unlock: bool, produce: bool, mark: bool, release: bool)

  const NO_FAULTS := Faults(false, false, false, false, false, false)

  /** The tables after the produce call of queueJob and, when it fails, its compensation. */
  function Produced(st: Store, p: Pick, execution: nat, f: Faults): Store {
    if !f.produce then Send(st, p, execution)
    else
      var marked := if f.mark then st else SetExecution(st, execution, ExecFailed);
      if f.release then marked else Unlock(marked, p.job, Failed)
  }

  /** The tables after one uninterrupted queueJob. */
  function Queued(st: Store, w: WorkerId, p: Pick, f: Faults): Store {
    if f.lock || !Lockable(st, p.job) then st
    else
      var locked := LockJob(st, w, p);
      if f.insert then (if f.unlock then locked else Unlock(locked, p.job, Scheduled))
      else Produced(InsertRow(locked, w, p, st.now, |st.acquisitions|), p, |st.executions|, f)
  }

  function QueuedAll(st: Store, w: WorkerId, picks: seq<Pick>, faults: seq<Faults>): Store
    requires |picks| == |faults|
  {
    if picks == [] then st
    else Queued(QueuedAll(st, w, picks[..|picks| - 1], faults[..|picks| - 1]), w,
                picks[|picks| - 1], faults[|picks| - 1])
  }

  function FinalReport(outcome: Outcome): ExecutionStatus {
    if outcome == FailedRun then ExecFailed else ExecCompleted
  }

  /** CompleteJob for a known or unknown job. */
  function JobCompleted(st: Store, j: JobId, execution: nat, outcome: Outcome, nextRun: Option<int>, at: int): Store {
    Complete(SetExecution(st, execution, FinalReport(outcome)), j, outcome, nextRun, at)
  }

  class Database {
    var now: int
    var jobs: map<JobId, Job>
    var executions: seq<Execution>
    var acquisitions: seq<Acquisition>
    var released: multiset<JobId>
    var messages: seq<Message>

    ghost function Contents(): Store
      reads this
    {
      Store(now, jobs, executions, acquisitions, released, messages)
    }

    constructor (st: Store)
      ensures Contents() == st
    {
      now, jobs, executions := st.now, st.jobs, st.executions;
      acquisitions, released, messages := st.acquisitions, st.released, st.messages;
    }
  }

  class Scheduler {
    const workerId: WorkerId
    const db: Database

    constructor (workerId: WorkerId, db: Database)
      ensures this.workerId == workerId && this.db == db
    {
      this.workerId := workerId;
      this.db := db;
    }

    method ReleaseStaleJobs() returns (affected: nat)
      modifies db
      ensures db.Contents() == ReleaseStale(old(db.Contents()))
      ensures affected == |StaleJobs(old(db.Contents()))|
    {
      var stale := set j | j in db.jobs && Stale(db.jobs[j], db.now);
      affected := |stale|;
      var remaining := stale;
      var jobs := db.jobs;
      while remaining != {}
        invariant remaining <= stale && jobs.Keys == db.jobs.Keys
        invariant forall j | j in db.jobs ::
                    jobs[j] == if j in stale - remaining then Reaped(db.jobs[j], db.now) else db.jobs[j]
        decreases remaining
      {
        var j :| j in remaining;
        var job := db.jobs[j];
        var status := if job.status == Running then Failed else job.status;
        jobs := jobs[j := job.(lockedBy := None, lockedAt := None, status := status, updatedAt := db.now)];
        remaining := remaining - {j};
      }
      assert stale == StaleJobs(old(db.Contents()));
      assert jobs == ReleaseStale(old(db.Contents())).jobs;
      db.jobs := jobs;
      db.released := db.released + multiset(stale);
    }

    method QueueJob(p: Pick, f: Faults)
      modifies db
      ensures db.Contents() == Queued(old(db.Contents()), workerId, p, f)
    {
      if f.lock {
        return;
      }
      // Lock the job; no row is affected when another worker grabbed it.
      if p.job !in db.jobs || db.jobs[p.job].lockedBy.Some? {
        return;
      }
      var acquisition := |db.acquisitions|;
      db.acquisitions := db.acquisitions
                         + [Acquisition(p.job, workerId, p.attempt, db.now, db.jobs[p.job].status)];
      db.jobs := db.jobs[p.job := db.jobs[p.job].(lockedBy := Some(workerId), lockedAt := Some(db.now),
                                                  status := Pending, updatedAt := db.now)];

      // Create the execution record.
      if f.insert {
        if !f.unlock {
          Release(p.job, Scheduled);
        }
        return;
      }
      var execution := |db.executions|;
      db.executions := db.executions
                       + [Execution(p.job, p.attempt, workerId, db.now, ExecPending, acquisition)];

      // Queue for execution.
      if f.produce {
        if !f.mark {
          db.executions := db.executions[execution := db.executions[execution].(status := ExecFailed)];
        }
        if !f.release {
          Release(p.job, Failed);
        }
        return;
      }
      db.messages := db.messages + [Message(p.job, execution, p.attempt)];
    }

    /** The unlock statement of both compensation paths. */
    method Release(j: JobId, status: Status)
      modifies db
      ensures db.Contents() == Unlock(old(db.Contents()), j, status)
    {
      if j in db.jobs {
        if db.jobs[j].lockedBy.Some? {
          db.released := db.released + multiset{j};
        }
        db.jobs := db.jobs[j := db.jobs[j].(lockedBy := None, lockedAt := None, status := status)];
      }
    }

    /** `picks` is what the selection query returned. */
    method ProcessDueJobs(picks: seq<Pick>, faults: seq<Faults>)
      requires DueSelection(db.Contents(), picks) && |picks| == |faults|
      modifies db
      ensures db.Contents() == QueuedAll(old(db.Contents()), workerId, picks, faults)
    {
      QueueEach(picks, faults);
    }

    method RetryFailedJobs(picks: seq<Pick>, faults: seq<Faults>)
      requires RetrySelection(db.Contents(), picks) && |picks| == |faults|
      modifies db
      ensures db.Contents() == QueuedAll(old(db.Contents()), workerId, picks, faults)
    {
      QueueEach(picks, faults);
    }

    method QueueEach(picks: seq<Pick>, faults: seq<Faults>)
      requires |picks| == |faults|
      modifies db
      ensures db.Contents() == QueuedAll(old(db.Contents()), workerId, picks, faults)
    {
      var i := 0;
      while i < |picks|
        invariant 0 <= i <= |picks|
        invariant db.Contents() == QueuedAll(old(db.Contents()), workerId, picks[..i], faults[..i])
      {
        assert picks[..i + 1][..i] == picks[..i] && faults[..i + 1][..i] == faults[..i];
        QueueJob(picks[i], faults[i]);
        i := i + 1;
      }
      assert picks[..i] == picks && faults[..i] == faults;
    }

    /** One scheduler cycle, uninterrupted: stale locks, then due jobs, then retries. */
    method Tick(due: seq<Pick>, dueFaults: seq<Faults>, retry: seq<Pick>, retryFaults: seq<Faults>)
      requires |due| == |dueFaults| && |retry| == |retryFaults|
      requires DueSelection(ReleaseStale(db.Contents()), due)
      requires RetrySelection(QueuedAll(ReleaseStale(db.Contents()), workerId, due, dueFaults), retry)
      modifies db
      ensures db.Contents() == QueuedAll(QueuedAll(ReleaseStale(old(db.Contents())), workerId, due, dueFaults),
                                         workerId, retry, retryFaults)
    {
      var n := ReleaseStaleJobs();
      ProcessDueJobs(due, dueFaults);
      RetryFailedJobs(retry, retryFaults);
    }

    /** `nextRun` is CalculateNextRun of the job's schedule and `at` the clock when the call began. */
    method CompleteJob(j: JobId, execution: nat, outcome: Outcome, nextRun: Option<int>, at: int)
      requires at <= db.now
      requires j in db.jobs ==> (nextRun.Some? <==> db.jobs[j].recurring)
      modifies db
      ensures db.Contents() == JobCompleted(old(db.Contents()), j, execution, outcome, nextRun, at)
    {
      ReportExecution(execution, outcome);
      if j !in db.jobs {
        return;
      }
      var next := nextRun;
      var finalStatus := Scheduled;
      if outcome == FailedRun {
        // Both branches of the retry comparison choose the same status.
        finalStatus := Failed;
      }
      if !db.jobs[j].recurring && outcome == Succeeded {
        finalStatus := Completed;
        next := None;
      }
      FinishJob(j, finalStatus, next, at);
    }

    method ReportExecution(execution: nat, outcome: Outcome)
      modifies db
      ensures db.Contents() == SetExecution(old(db.Contents()), execution, FinalReport(outcome))
    {
      if execution < |db.executions| {
        db.executions := db.executions[execution := db.executions[execution].(status := FinalReport(outcome))];
      }
    }

    /** The last statement: it clears the lock whoever holds it. */
    method FinishJob(j: JobId, status: Status, nextRun: Option<int>, at: int)
      requires j in db.jobs
      modifies db
      ensures var was := old(db.Contents());
              db.Contents() == was.(jobs := was.jobs[j := was.jobs[j].(
                                              status := status, lastRun := Some(at), nextRun := nextRun,
                                              lockedBy := None, lockedAt := None, updatedAt := at)],
                                    released := was.released + Cleared(was, j))
    {
      var job := db.jobs[j];
      if job.lockedBy.Some? {
        db.released := db.released + multiset{j};
      }
      db.jobs := db.jobs[j := job.(status := status, lastRun := Some(at), nextRun := nextRun,
                                   lockedBy := None, lockedAt := None, updatedAt := at)];
    }
  }

  // ---- queueJob is a path of the protocol

  ghost function ProduceSteps(w: WorkerId, f: Faults): seq<Step> {
    if !f.produce then [Produce(w, true)] + []
    else [Produce(w, false)] + ([MarkExecutionFailed(w, !f.mark)] + ([UnlockFailed(w, !f.release)] + []))
  }

  ghost function InsertSteps(w: WorkerId, f: Faults): seq<Step> {
    if f.insert then [Insert(w, false)] + ([UnlockScheduled(w, !f.unlock)] + [])
    else [Insert(w, true)] + ProduceSteps(w, f)
  }

  ghost function QueueSteps(st: Store, w: WorkerId, p: Pick, f: Faults): seq<Step> {
    if f.lock || !Lockable(st, p.job) then [Lock(w, !f.lock)] + []
    else [Lock(w, true)] + ([Stamp(w)] + InsertSteps(w, f))
  }

  lemma ProducePath(s: System, w: WorkerId, f: Faults)
    requires w in s.processes && s.processes[w].pc.Inserted?
    ensures var pc := s.processes[w].pc;
            After(s, ProduceSteps(w, f)) == Some(System(Produced(s.store, pc.pick, pc.execution, f),
                                                        s.processes[w := s.processes[w].(pc := Idle)]))
  {
    var processes := s.processes[w := s.processes[w].(pc := Idle)];
    if !f.produce {
      AfterStep(s, Produce(w, true), []);
    } else {
      var s1 := Next(s, Produce(w, false));
      var s2 := Next(s1, MarkExecutionFailed(w, !f.mark));
      AfterStep(s, Produce(w, false), [MarkExecutionFailed(w, !f.mark)] + ([UnlockFailed(w, !f.release)] + []));
      AfterStep(s1, MarkExecutionFailed(w, !f.mark), [UnlockFailed(w, !f.release)] + []);
      AfterStep(s2, UnlockFailed(w, !f.release), []);
      assert Next(s2, UnlockFailed(w, !f.release)).processes == processes;
    }
  }

  lemma InsertPath(s: System, w: WorkerId, f: Faults)
    requires w in s.processes && s.processes[w].pc.Stamped?
    ensures var pc := s.processes[w].pc;
            var st := if f.insert then (if f.unlock then s.store else Unlock(s.store, pc.pick.job, Scheduled))
                      else Produced(InsertRow(s.store, w, pc.pick, pc.createdAt, pc.acquisition),
                                    pc.pick, |s.store.executions|, f);
            After(s, InsertSteps(w, f)) == Some(System(st, s.processes[w := s.processes[w].(pc := Idle)]))
  {
    var s1 := Next(s, Insert(w, !f.insert));
    if f.insert {
      AfterStep(s, Insert(w, false), [UnlockScheduled(w, !f.unlock)] + []);
      AfterStep(s1, UnlockScheduled(w, !f.unlock), []);
    } else {
      AfterStep(s, Insert(w, true), ProduceSteps(w, f));
      ProducePath(s1, w, f);
    }
    assert s1.processes[w := s1.processes[w].(pc := Idle)] == s.processes[w := s.processes[w].(pc := Idle)];
  }

  /** An uninterrupted queueJob, with any combination of faults, is a path of the protocol. */
  lemma QueueJobIsProtocolPath(s: System, w: WorkerId, p: Pick, rest: seq<Pick>, f: Faults)
    requires w in s.processes && s.processes[w] == Process(Idle, [p] + rest)
    ensures After(s, QueueSteps(s.store, w, p, f))
            == Some(System(Queued(s.store, w, p, f), s.processes[w := Process(Idle, rest)]))
  {
    assert ([p] + rest)[1..] == rest;
    var s1 := Next(s, Lock(w, !f.lock));
    if f.lock || !Lockable(s.store, p.job) {
      AfterStep(s, Lock(w, !f.lock), []);
    } else {
      var s2 := Next(s1, Stamp(w));
      AfterStep(s, Lock(w, true), [Stamp(w)] + InsertSteps(w, f));
      AfterStep(s1, Stamp(w), InsertSteps(w, f));
      InsertPath(s2, w, f);
      assert s2.processes[w := s2.processes[w].(pc := Idle)] == s.processes[w := Process(Idle, rest)];
    }
  }

  /** What one queueJob call leaves behind: a job locked elsewhere is untouched; otherwise a message
      is sent exactly when neither the insert nor the produce call failed, the lock is kept exactly
      then or when its compensation failed too, and a row exists exactly when the insert succeeded. */
  lemma QueueJobOutcome(st: Store, w: WorkerId, p: Pick, f: Faults)
    requires p.job in st.jobs
    ensures var end := Queued(st, w, p, f);
            var taken := !f.lock && st.jobs[p.job].lockedBy.None?;
            && (!taken ==> end == st)
            && (taken ==>
                  && |end.messages| == |st.messages| + (if f.insert || f.produce then 0 else 1)
                  && |end.executions| == |st.executions| + (if f.insert then 0 else 1)
                  && (end.jobs[p.job].lockedBy == Some(w) <==>
                        if f.insert then f.unlock else f.produce ==> f.release)
                  && (end.jobs[p.job].lockedBy.None? ==>
                        end.jobs[p.job].status == if f.insert then Scheduled else Failed))
            && end.now == st.now && end.jobs.Keys == st.jobs.Keys
            && forall j | j in st.jobs && j != p.job :: end.jobs[j] == st.jobs[j]
  {
  }

  lemma {:induction false} PassTouchesOnlyPicks(st: Store, w: WorkerId, picks: seq<Pick>, faults: seq<Faults>, j: JobId)
    requires |picks| == |faults| && j in st.jobs
    requires forall i | 0 <= i < |picks| :: picks[i].job != j
    ensures var end := QueuedAll(st, w, picks, faults);
            end.now == st.now && end.jobs.Keys == st.jobs.Keys && end.jobs[j] == st.jobs[j]
  {
    var n := |picks|;
    if n > 0 {
      PassTouchesOnlyPicks(st, w, picks[..n - 1], faults[..n - 1], j);
    }
  }

  /** In one pass over a selection each job ends as if it had been queued alone: the faults met
      by one pick never change what happens to another. */
  lemma {:induction false} FaultsAreIsolated(st: Store, w: WorkerId, picks: seq<Pick>, faults: seq<Faults>, i: nat)
    requires |picks| == |faults| && i < |picks| && DistinctJobs(picks)
    requires forall k | 0 <= k < |picks| :: picks[k].job in st.jobs
    ensures var end := QueuedAll(st, w, picks, faults);
            && end.now == st.now && end.jobs.Keys == st.jobs.Keys
            && end.jobs[picks[i].job] == Queued(st, w, picks[i], faults[i]).jobs[picks[i].job]
  {
    var n := |picks| - 1;
    var before := QueuedAll(st, w, picks[..n], faults[..n]);
    if i == n {
      PassTouchesOnlyPicks(st, w, picks[..n], faults[..n], picks[n].job);
      SameJobSameOutcome(before, st, w, picks[n], faults[n]);
    } else {
      FaultsAreIsolated(st, w, picks[..n], faults[..n], i);
      QueueJobOutcome(before, w, picks[n], faults[n]);
    }
  }

  lemma SameJobSameOutcome(a: Store, b: Store, w: WorkerId, p: Pick, f: Faults)
    requires p.job in a.jobs && p.job in b.jobs && a.jobs[p.job] == b.jobs[p.job] && a.now == b.now
    ensures Queued(a, w, p, f).jobs[p.job] == Queued(b, w, p, f).jobs[p.job]
    ensures Queued(a, w, p, f).now == a.now && Queued(a, w, p, f).jobs.Keys == a.jobs.Keys
  {
  }
}

/**
 Concrete runs showing that atomic selection, successful inserts and the conditions of RetryChains.Orderly
 are needed. All use job 0 and processes 1 and 2.
 */
module RetryCounterexamples {
  import opened Prelude
  import opened JobStore
  import opened JobProtocol

  ghost function Fresh(status: Status, maxRetries: int): System {
    System(Store(0, map[0 := Job(status, None, None, None, None, -5 * MINUTE, maxRetries, true)], [], [], multiset{}, []),
           map[1 := Process(Idle, []), 2 := Process(Idle, [])])
  }

  function Finish(w: WorkerId): seq<Step> {
    [Stamp(w)] + ([Insert(w, true)] + ([Produce(w, true)] + []))
  }

  /** queueJob after its lock, uninterrupted and without faults. */
  lemma FinishQueues(s: System, w: WorkerId)
    requires w in s.processes && s.processes[w].pc.Locked?
    ensures var pc := s.processes[w].pc;
            var st := InsertRow(s.store, w, pc.pick, s.store.now, pc.acquisition);
            After(s, Finish(w)) == Some(System(Send(st, pc.pick, |s.store.executions|),
                                               s.processes[w := s.processes[w].(pc := Idle)]))
  {
    var s1 := Next(s, Stamp(w));
    var s2 := Next(s1, Insert(w, true));
    var s3 := Next(s2, Produce(w, true));
    AfterStep(s, Stamp(w), [Insert(w, true)] + ([Produce(w, true)] + []));
    AfterStep(s1, Insert(w, true), [Produce(w, true)] + []);
    AfterStep(s2, Produce(w, true), []);
    assert s3.processes == s.processes[w := s.processes[w].(pc := Idle)];
  }

  // ---- a stale selection

  const FIRST := Pick(0, 1)
  const HOUR: int := 60 * MINUTE

  function BothSelect(): seq<Step> {
    [SelectDue(1, [FIRST])] + ([SelectDue(2, [FIRST])] + ([Lock(1, true)] + []))
  }

  /** Both processes read job 0 while it is due; process 1 locks it. */
  lemma BothRead()
    ensures After(Fresh(Scheduled, 3), BothSelect())
            == Some(System(LockJob(Fresh(Scheduled, 3).store, 1, FIRST),
                           map[1 := Process(Locked(FIRST, 0), []), 2 := Process(Idle, [FIRST])]))
  {
    var s := Fresh(Scheduled, 3);
    var s1 := Next(s, SelectDue(1, [FIRST]));
    var s2 := Next(s1, SelectDue(2, [FIRST]));
    AfterStep(s, SelectDue(1, [FIRST]), [SelectDue(2, [FIRST])] + ([Lock(1, true)] + []));
    AfterStep(s1, SelectDue(2, [FIRST]), [Lock(1, true)] + []);
    AfterStep(s2, Lock(1, true), []);
    assert [FIRST][1..] == [];
    assert Next(s2, Lock(1, true)).processes == map[1 := Process(Locked(FIRST, 0), []), 2 := Process(Idle, [FIRST])];
  }

  function CompleteAndLock(): seq<Step> {
    [CompleteJob(0, Succeeded, Some(HOUR), 0)] + ([Lock(2, true)] + [])
  }

  /** Job 0 succeeds and is rescheduled; process 2 still holds its stale row and locks it. */
  lemma StaleLock(s: System)
    requires s.processes == map[1 := Process(Idle, []), 2 := Process(Idle, [FIRST])]
    requires |s.store.messages| == 1 && s.store.messages[0].job == 0 && 0 in s.store.jobs
    requires s.store.jobs[0].recurring && s.store.now == 0
    ensures var st := Complete(s.store, 0, Succeeded, Some(HOUR), 0);
            After(s, CompleteAndLock())
            == Some(System(LockJob(st, 2, FIRST),
                           map[1 := Process(Idle, []), 2 := Process(Locked(FIRST, |st.acquisitions|), [])]))
  {
    var s1 := Next(s, CompleteJob(0, Succeeded, Some(HOUR), 0));
    AfterStep(s, CompleteJob(0, Succeeded, Some(HOUR), 0), [Lock(2, true)] + []);
    AfterStep(s1, Lock(2, true), []);
    assert [FIRST][1..] == [];
    assert Next(s1, Lock(2, true)).processes
        == map[1 := Process(Idle, []), 2 := Process(Locked(FIRST, |s1.store.acquisitions|), [])];
  }

  /** The comment above the due-jobs query says it ensures that only one worker picks up each job.
      At the fine granularity it does not: both processes read the job while it is due, and process 2
      locks and queues it again after its run completed, an hour before it is due. Selections.StaleExactlyIf
      says exactly when a selected job is no longer due. */
  lemma StaleSelectionRunsJobTwice()
    ensures Init(Fresh(Scheduled, 3))
    ensures var end := After(Fresh(Scheduled, 3), BothSelect() + Finish(1) + CompleteAndLock() + Finish(2));
            && end.Some?
            && |end.value.store.messages| == 2
            && end.value.store.now == 0
            && 0 in end.value.store.jobs
            && end.value.store.jobs[0].nextRun == Some(HOUR)
  {
    hide Enabled, Next;
    var s0 := Fresh(Scheduled, 3);
    BothRead();
    var s3 := After(s0, BothSelect()).value;
    FinishQueues(s3, 1);
    AfterConcat(s0, BothSelect(), Finish(1));
    var s6 := After(s3, Finish(1)).value;
    assert s6.processes == map[1 := Process(Idle, []), 2 := Process(Idle, [FIRST])];
    StaleLock(s6);
    AfterConcat(s0, BothSelect() + Finish(1), CompleteAndLock());
    var s8 := After(s6, CompleteAndLock()).value;
    FinishQueues(s8, 2);
    AfterConcat(s0, BothSelect() + Finish(1) + CompleteAndLock(), Finish(2));
  }

  // ---- an insert fault

  /** A failed insert and its compensation leave the job due with attempt 1 exactly when its next run is not
      ahead. Otherwise the job is scheduled for its next run and a pending retry is dropped. */
  lemma InsertFaultRestartsIff(s: System, w: WorkerId)
    requires w in s.processes && s.processes[w].pc.Stamped? && s.processes[w].pc.pick.job in s.store.jobs
    ensures var j := s.processes[w].pc.pick.job;
            var end := After(s, [Insert(w, false)] + ([UnlockScheduled(w, true)] + []));
            && end.Some?
            && w in end.value.processes && end.value.processes[w].pc.Idle?
            && end.value.store.executions == s.store.executions
            && (DuePick(end.value.store, Pick(j, 1)) <==>
                  s.store.jobs[j].nextRun.None? || s.store.jobs[j].nextRun.value <= s.store.now)
            && forall a: nat :: !RetryPick(end.value.store, Pick(j, a))
  {
    var s1 := Next(s, Insert(w, false));
    AfterStep(s, Insert(w, false), [UnlockScheduled(w, true)] + []);
    AfterStep(s1, UnlockScheduled(w, true), []);
  }

  function Queue1(p: Pick): seq<Step> {
    [Claim(1, p)] + Finish(1)
  }

  function FaultyQueue1(p: Pick): seq<Step> {
    [Claim(1, p)] + ([Stamp(1)] + ([Insert(1, false)] + ([UnlockScheduled(1, true)] + [])))
  }

  function FailAndWait(m: nat, at: int): seq<Step> {
    [CompleteJob(m, FailedRun, None, at)] + ([Advance(3 * MINUTE)] + [])
  }

  lemma Queues(s: System, p: Pick)
    requires 1 in s.processes && s.processes[1] == Process(Idle, []) && (DuePick(s.store, p) || RetryPick(s.store, p))
    ensures var st := InsertRow(LockJob(s.store, 1, p), 1, p, s.store.now, |s.store.acquisitions|);
            After(s, Queue1(p)) == Some(System(Send(st, p, |s.store.executions|), s.processes))
  {
    var s1 := Next(s, Claim(1, p));
    AfterStep(s, Claim(1, p), Finish(1));
    FinishQueues(s1, 1);
    assert s1.processes[1 := s1.processes[1].(pc := Idle)] == s.processes;
  }

  lemma QueuesFaultily(s: System, p: Pick)
    requires 1 in s.processes && s.processes[1] == Process(Idle, []) && (DuePick(s.store, p) || RetryPick(s.store, p))
    ensures After(s, FaultyQueue1(p)) == Some(System(Unlock(LockJob(s.store, 1, p), p.job, Scheduled), s.processes))
  {
    var s1 := Next(s, Claim(1, p));
    var s2 := Next(s1, Stamp(1));
    var s3 := Next(s2, Insert(1, false));
    AfterStep(s, Claim(1, p), [Stamp(1)] + ([Insert(1, false)] + ([UnlockScheduled(1, true)] + [])));
    AfterStep(s1, Stamp(1), [Insert(1, false)] + ([UnlockScheduled(1, true)] + []));
    AfterStep(s2, Insert(1, false), [UnlockScheduled(1, true)] + []);
    AfterStep(s3, UnlockScheduled(1, true), []);
    assert Next(s3, UnlockScheduled(1, true)).processes == s.processes;
  }

  lemma FailsAndWaits(s: System, m: nat)
    requires m < |s.store.messages|
    ensures var st := Complete(s.store, s.store.messages[m].job, FailedRun, None, s.store.now);
            After(s, FailAndWait(m, s.store.now)) == Some(s.(store := st.(now := st.now + 3 * MINUTE)))
  {
    var s1 := Next(s, CompleteJob(m, FailedRun, None, s.store.now));
    AfterStep(s, CompleteJob(m, FailedRun, None, s.store.now), [Advance(3 * MINUTE)] + []);
    AfterStep(s1, Advance(3 * MINUTE), []);
  }

  /** The states of interest: job 0 with two retries, process 1 idle. */
  ghost predicate Ready(s: System, rows: nat) {
    && 1 in s.processes && s.processes[1] == Process(Idle, [])
    && 0 in s.store.jobs && s.store.jobs[0].maxRetries == 2
    && |s.store.executions| == |s.store.messages| == rows
    && (forall m | 0 <= m < rows :: s.store.messages[m].job == 0 && s.store.executions[m].job == 0)
    && forall m | 0 <= m < rows :: s.store.executions[m].createdAt <= s.store.now
  }

  lemma FirstQueued(s: System, rows: nat) returns (n: System)
    requires Ready(s, rows) && DuePick(s.store, FIRST)
    ensures After(s, Queue1(FIRST)) == Some(n) && Ready(n, rows + 1) && n.store.now == s.store.now
    ensures n.store.executions[rows].attempt == 1 && n.store.executions[rows].createdAt == s.store.now
    ensures n.store.executions[..rows] == s.store.executions
  {
    Queues(s, FIRST);
    n := After(s, Queue1(FIRST)).value;
  }

  lemma FailureIsRetryable(s: System, rows: nat) returns (n: System)
    requires Ready(s, rows) && rows > 0 && s.store.executions[rows - 1].attempt == 1
    requires forall m | 0 <= m < rows - 1 :: s.store.executions[m].createdAt < s.store.executions[rows - 1].createdAt
    ensures After(s, FailAndWait(rows - 1, s.store.now)) == Some(n) && Ready(n, rows)
    ensures RetryPick(n.store, SECOND) && n.store.now == s.store.now + 3 * MINUTE && n.store.jobs[0].nextRun.None?
    ensures n.store.executions == s.store.executions
  {
    FailsAndWaits(s, rows - 1);
    n := After(s, FailAndWait(rows - 1, s.store.now)).value;
    assert NewestRow(n.store.executions, 0, rows - 1);
    assert Pow2(1) == 2;
  }

  lemma FaultIsDueAgain(s: System, rows: nat) returns (n: System)
    requires Ready(s, rows) && RetryPick(s.store, SECOND) && s.store.jobs[0].nextRun.None?
    ensures After(s, FaultyQueue1(SECOND)) == Some(n) && Ready(n, rows) && DuePick(n.store, FIRST)
    ensures n.store.now == s.store.now && n.store.executions == s.store.executions
  {
    QueuesFaultily(s, SECOND);
    n := After(s, FaultyQueue1(SECOND)).value;
  }

  lemma InTurn(s: System, a: seq<Step>, m: System, b: seq<Step>, n: System)
    requires After(s, a) == Some(m) && After(m, b) == Some(n)
    ensures After(s, a + b) == Some(n)
  {
    AfterConcat(s, a, b);
  }

  function FirstHalf(): seq<Step> {
    Queue1(FIRST) + FailAndWait(0, 0) + FaultyQueue1(SECOND)
  }

  function SecondHalf(): seq<Step> {
    Queue1(FIRST) + FailAndWait(1, 3 * MINUTE) + Queue1(SECOND)
  }

  lemma FirstHalfRuns() returns (n: System)
    ensures After(Fresh(Scheduled, 2), FirstHalf()) == Some(n) && Ready(n, 1) && DuePick(n.store, FIRST)
    ensures n.store.now == 3 * MINUTE && n.store.executions[0].createdAt == 0
  {
    var s0 := Fresh(Scheduled, 2);
    var s1 := FirstQueued(s0, 0);
    var s2 := FailureIsRetryable(s1, 1);
    n := FaultIsDueAgain(s2, 1);
    hide After, Queue1, FailAndWait, FaultyQueue1, Enabled, Next, Ready, Fresh, RetryPick, DuePick;
    InTurn(s0, Queue1(FIRST), s1, FailAndWait(0, 0), s2);
    InTurn(s0, Queue1(FIRST) + FailAndWait(0, 0), s2, FaultyQueue1(SECOND), n);
  }

  lemma SecondHalfRuns(s: System) returns (n: System)
    requires Ready(s, 1) && DuePick(s.store, FIRST)
    requires s.store.now == 3 * MINUTE && s.store.executions[0].createdAt == 0
    ensures After(s, SecondHalf()) == Some(n)
    ensures |n.store.executions| == 3 && |n.store.messages| == 3
    ensures 0 in n.store.jobs && n.store.jobs[0].maxRetries == 2
  {
    var s1 := FirstQueued(s, 1);
    assert s1.store.executions[0] == s1.store.executions[..1][0];
    var s2 := FailureIsRetryable(s1, 2);
    Queues(s2, SECOND);
    n := After(s2, Queue1(SECOND)).value;
    hide After, Queue1, FailAndWait, FaultyQueue1, Enabled, Next, RetryPick, DuePick;
    InTurn(s, Queue1(FIRST), s1, FailAndWait(1, 3 * MINUTE), s2);
    InTurn(s, Queue1(FIRST) + FailAndWait(1, 3 * MINUTE), s2, Queue1(SECOND), n);
  }

  lemma FreshIsInitial()
    ensures Init(Fresh(Scheduled, 2))
  {
  }

  /** With one failed insert a job with two retries that never succeeds is queued three times, with attempts
      1, 1 and 2. RetryBound.QueuedAtMost is the bound that counts the failed inserts. */
  lemma InsertFaultQueuesAgain()
    ensures Init(Fresh(Scheduled, 2))
    ensures var end := After(Fresh(Scheduled, 2), FirstHalf() + SecondHalf());
            && end.Some?
            && |end.value.store.executions| == 3 && |end.value.store.messages| == 3
            && 0 in end.value.store.jobs && end.value.store.jobs[0].maxRetries == 2
  {
    FreshIsInitial();
    var s := FirstHalfRuns();
    var n := SecondHalfRuns(s);
    hide After, FirstHalf, SecondHalf, Ready, Fresh, DuePick, Init;
    InTurn(Fresh(Scheduled, 2), FirstHalf(), s, SecondHalf(), n);
  }

  // ---- a late release

  const SECOND := Pick(0, 2)
  const RUNS_AGAIN: Option<int> := Some(HOUR)

  function FailThenClaim(w: WorkerId, at: int): seq<Step> {
    [CompleteJob(0, FailedRun, RUNS_AGAIN, at)] + ([Advance(3 * MINUTE)] + ([Claim(w, SECOND)] + []))
  }

  lemma SecondIsRetryable(st: Store)
    requires 0 in st.jobs && st.jobs[0].status == Failed && st.jobs[0].lockedBy.None?
    requires st.jobs[0].maxRetries == 2 && st.jobs[0].updatedAt == st.now - 3 * MINUTE
    requires |st.executions| == 1 && st.executions[0].job == 0 && st.executions[0].attempt == 1
    ensures RetryPick(st, SECOND)
  {
    assert NewestRow(st.executions, 0, 0);
    assert Pow2(1) == 2;
  }

  /** Message 0 reports failure, three minutes pass, and process w claims attempt 2. */
  lemma ClaimsSecond(s: System, w: WorkerId)
    requires 0 in s.store.jobs && s.store.jobs[0].recurring && s.store.jobs[0].maxRetries == 2
    requires |s.store.messages| > 0 && s.store.messages[0].job == 0
    requires |s.store.executions| == 1 && s.store.executions[0].job == 0 && s.store.executions[0].attempt == 1
    requires w in s.processes && s.processes[w] == Process(Idle, [])
    ensures var end := After(s, FailThenClaim(w, s.store.now));
            && end.Some?
            && end.value.store.executions == s.store.executions
            && end.value.store.messages == s.store.messages
            && end.value.store.now == s.store.now + 3 * MINUTE
            && end.value.processes == s.processes[w := Process(Locked(SECOND, |s.store.acquisitions|), [])]
            && 0 in end.value.store.jobs
            && end.value.store.jobs[0].recurring && end.value.store.jobs[0].maxRetries == 2
  {
    var s1 := Next(s, CompleteJob(0, FailedRun, RUNS_AGAIN, s.store.now));
    var s2 := Next(s1, Advance(3 * MINUTE));
    AfterStep(s, CompleteJob(0, FailedRun, RUNS_AGAIN, s.store.now), [Advance(3 * MINUTE)] + ([Claim(w, SECOND)] + []));
    AfterStep(s1, Advance(3 * MINUTE), [Claim(w, SECOND)] + []);
    SecondIsRetryable(s2.store);
    AfterStep(s2, Claim(w, SECOND), []);
  }

  lemma ClaimsFirst()
    ensures var end := After(Fresh(Scheduled, 2), [Claim(1, FIRST)] + []);
            && end == Some(System(LockJob(Fresh(Scheduled, 2).store, 1, FIRST),
                                  map[1 := Process(Locked(FIRST, 0), []), 2 := Process(Idle, [])]))
  {
    var s := Fresh(Scheduled, 2);
    AfterStep(s, Claim(1, FIRST), []);
    assert Next(s, Claim(1, FIRST)).processes == map[1 := Process(Locked(FIRST, 0), []), 2 := Process(Idle, [])];
  }

  function TwiceSecond(): seq<Step> {
    FailThenClaim(2, 0) + FailThenClaim(1, 3 * MINUTE) + Finish(1) + Finish(2)
  }

  lemma LateReleaseEnds(s: System)
    requires 0 in s.store.jobs && s.store.jobs[0].recurring && s.store.jobs[0].maxRetries == 2
    requires s.store.now == 0
    requires |s.store.messages| == 1 && s.store.messages[0].job == 0
    requires |s.store.executions| == 1 && s.store.executions[0].job == 0 && s.store.executions[0].attempt == 1
    requires s.processes.Keys == {1, 2} && s.processes[1] == s.processes[2] == Process(Idle, [])
    ensures var end := After(s, TwiceSecond());
            && end.Some?
            && |end.value.store.messages| == 3
            && end.value.store.messages[1].attempt == 2
            && end.value.store.messages[2].attempt == 2
  {
    hide Enabled, Next;
    ClaimsSecond(s, 2);
    var s3 := After(s, FailThenClaim(2, 0)).value;
    ClaimsSecond(s3, 1);
    AfterConcat(s, FailThenClaim(2, 0), FailThenClaim(1, 3 * MINUTE));
    var s4 := After(s3, FailThenClaim(1, 3 * MINUTE)).value;
    FinishQueues(s4, 1);
    AfterConcat(s, FailThenClaim(2, 0) + FailThenClaim(1, 3 * MINUTE), Finish(1));
    var s5 := After(s4, Finish(1)).value;
    FinishQueues(s5, 2);
    AfterConcat(s, FailThenClaim(2, 0) + FailThenClaim(1, 3 * MINUTE) + Finish(1), Finish(2));
  }

  /** When message 0 is delivered again while process 2 is between its lock and its insert, the
      completion clears process 2's lock and attempt 2 is claimed twice: a job with two retries
      is queued three times although selection and lock are atomic and no insert fails. */
  lemma LateReleaseRepeatsAttempt()
    ensures Init(Fresh(Scheduled, 2))
    ensures var end := After(Fresh(Scheduled, 2),
                             [Claim(1, FIRST)] + [] + Finish(1) + TwiceSecond());
            && end.Some?
            && |end.value.store.messages| == 3
            && end.value.store.messages[1].attempt == 2
            && end.value.store.messages[2].attempt == 2
  {
    hide Enabled, Next, TwiceSecond, FailThenClaim;
    var s0 := Fresh(Scheduled, 2);
    ClaimsFirst();
    var s1 := After(s0, [Claim(1, FIRST)] + []).value;
    FinishQueues(s1, 1);
    AfterConcat(s0, [Claim(1, FIRST)] + [], Finish(1));
    var s2 := After(s1, Finish(1)).value;
    LateReleaseEnds(s2);
    AfterConcat(s0, [Claim(1, FIRST)] + [] + Finish(1), TwiceSecond());
  }
}

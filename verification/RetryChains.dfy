/**
 Retry chains: consecutive executions of one job with attempts 1, 2, 3, ...
 Granularity: atomic (Claim). `Orderly` lists, step by step, what the chain properties need
 from the environment; RetryCounterexamples shows runs where they fail without it.
 */
module RetryChains {
  import opened Prelude
  import opened JobStore
  import opened JobProtocol
  import opened JobSafety
  import opened QuietJobs

  // ---- the environment conditions

  /** Jobs whose lock the step may clear. */
  ghost function Releases(s: System, step: Step): set<JobId>
    requires Enabled(s, step)
  {
    match step
    case Reap => StaleJobs(s.store)
    case UnlockScheduled(w, ok) => if ok then {s.processes[w].pc.pick.job} else {}
    case UnlockFailed(w, ok) => if ok then {s.processes[w].pc.pick.job} else {}
    case CompleteJob(m, _, _, _) => {s.store.messages[m].job}
    case _ => {}
  }

  ghost predicate Timely(s: System, step: Step)
    requires Enabled(s, step)
  {
    // selection and lock are one step
    && !step.SelectDue? && !step.SelectRetry? && !step.Lock?
    // a row's created_at is later than those of the job's earlier rows
    && (step.Stamp? ==>
          forall i | 0 <= i < |s.store.executions|
                     && s.store.executions[i].job == s.processes[step.w].pc.pick.job ::
            s.store.executions[i].createdAt < s.store.now)
    // a completion does not report a time before the job's last update
    && (step.CompleteJob? && s.store.messages[step.m].job in s.store.jobs ==>
          s.store.jobs[s.store.messages[step.m].job].updatedAt <= step.at)
  }

  /** No lock is cleared while its holder is still on the way to the insert. */
  ghost predicate NoEarlyRelease(s: System, step: Step)
    requires Enabled(s, step)
  {
    forall w | w in s.processes && s.processes[w].pc.BeforeInsert() :: s.processes[w].pc.pick.job !in Releases(s, step)
  }

  ghost predicate Orderly(s: System, step: Step)
    requires Enabled(s, step)
  {
    Timely(s, step) && NoEarlyRelease(s, step)
  }

  ghost predicate OrderlyRun(states: seq<System>, steps: seq<Step>) {
    && Run(states, steps)
    && forall i | 0 <= i < |steps| :: Orderly(states[i], steps[i])
  }

  // ---- chains

  function LockTime(acquisitions: seq<Acquisition>, a: nat): int {
    if a < |acquisitions| then acquisitions[a].at else 0
  }

  /** The attempt of the last row of j among the first n rows, 0 when there is none. */
  function PreviousAttempt(rows: seq<Execution>, n: nat, j: JobId): nat
    requires n <= |rows|
  {
    if n == 0 then 0
    else if rows[n - 1].job == j then rows[n - 1].attempt
    else PreviousAttempt(rows, n - 1, j)
  }

  /** Lock times of the chain of j that is open after the first n rows: attempt 1 starts afresh. */
  function Chain(st: Store, n: nat, j: JobId): seq<int>
    requires n <= |st.executions|
  {
    if n == 0 then []
    else
      var row := st.executions[n - 1];
      if row.job != j then Chain(st, n - 1, j)
      else if row.attempt == 1 then [LockTime(st.acquisitions, row.acquisition)]
      else Chain(st, n - 1, j) + [LockTime(st.acquisitions, row.acquisition)]
  }

  function Open(st: Store, j: JobId): seq<int> {
    Chain(st, |st.executions|, j)
  }

  /** Attempt i + 2 is locked more than 2^(i + 1) minutes after attempt i + 1. */
  ghost predicate BacksOff(chain: seq<int>) {
    forall i {:trigger chain[i + 1]} | 0 <= i < |chain| - 1 :: chain[i + 1] > chain[i] + Pow2(i + 1) * MINUTE
  }

  /** Attempt m is locked at least 2^m - 2 minutes after attempt 1. */
  lemma {:induction false} CumulativeBackoff(chain: seq<int>, m: nat)
    requires BacksOff(chain) && 1 <= m <= |chain|
    ensures chain[m - 1] >= chain[0] + (Pow2(m) - 2) * MINUTE
  {
    if m > 1 {
      CumulativeBackoff(chain, m - 1);
      var i := m - 2;
      assert chain[i + 1] > chain[i] + Pow2(i + 1) * MINUTE;
    }
  }

  // ---- the inductive invariant

  ghost predicate StampsIncrease(rows: seq<Execution>) {
    forall i, k | 0 <= i < k < |rows| && rows[i].job == rows[k].job :: rows[i].createdAt < rows[k].createdAt
  }

  ghost predicate AttemptsInSequence(st: Store) {
    forall i | 0 <= i < |st.executions| ::
      || st.executions[i].attempt == 1
      || st.executions[i].attempt == |Chain(st, i, st.executions[i].job)| + 1
  }

  ghost predicate ChainTimes(st: Store, j: JobId) {
    && BacksOff(Open(st, j))
    && (j in st.jobs && Open(st, j) != [] ==> Open(st, j)[|Open(st, j)| - 1] <= st.jobs[j].updatedAt)
    && (j in st.jobs ==> st.jobs[j].updatedAt <= st.now)
  }

  /** A process on its way to the insert still holds the lock, and its row will extend the chain. */
  ghost predicate WillExtend(st: Store, w: WorkerId, pc: Pc)
    requires pc.BeforeInsert()
  {
    var j := pc.pick.job;
    var at := LockTime(st.acquisitions, pc.acquisition);
    && j in st.jobs
    && st.jobs[j].lockedBy == Some(w)
    && pc.acquisition < |st.acquisitions|
    && at <= st.jobs[j].updatedAt
    && (pc.pick.attempt != 1 ==>
          && Open(st, j) != []
          && pc.pick.attempt == |Open(st, j)| + 1
          && at > Open(st, j)[|Open(st, j)| - 1] + Pow2(|Open(st, j)|) * MINUTE)
    && (pc.Stamped? ==>
          forall i | 0 <= i < |st.executions| && st.executions[i].job == j ::
            st.executions[i].createdAt < pc.createdAt)
  }

  ghost predicate Chained(s: System) {
    && StampsIncrease(s.store.executions)
    && AttemptsInSequence(s.store)
    && (forall j :: ChainTimes(s.store, j))
    && (forall w | w in s.processes :: s.processes[w].todo == [])
    && forall w | w in s.processes && s.processes[w].pc.BeforeInsert() ::
         WillExtend(s.store, w, s.processes[w].pc)
  }

  // Chains depend only on which rows exist and when their locks were taken.
  predicate SameRows(a: Store, b: Store, n: nat) {
    && n <= |a.executions| && n <= |b.executions|
    && forall i | 0 <= i < n ::
         && a.executions[i].job == b.executions[i].job
         && a.executions[i].attempt == b.executions[i].attempt
         && LockTime(a.acquisitions, a.executions[i].acquisition)
            == LockTime(b.acquisitions, b.executions[i].acquisition)
  }

  lemma {:induction false} SameChains(a: Store, b: Store, n: nat, j: JobId)
    requires SameRows(a, b, n)
    ensures Chain(a, n, j) == Chain(b, n, j)
  {
    if n > 0 {
      SameChains(a, b, n - 1, j);
    }
  }

  lemma {:induction false} ChainLength(st: Store, n: nat, j: JobId)
    requires AttemptsInSequence(st) && n <= |st.executions|
    ensures |Chain(st, n, j)| == PreviousAttempt(st.executions, n, j)
    ensures Chain(st, n, j) != [] <==> exists k | 0 <= k < n :: st.executions[k].job == j
  {
    if n > 0 {
      ChainLength(st, n - 1, j);
    }
  }

  lemma {:induction false} LastRowIsNewest(st: Store, n: nat, j: JobId) returns (k: nat)
    requires n <= |st.executions| && Chain(st, n, j) != []
    requires forall i | n <= i < |st.executions| :: st.executions[i].job != j
    requires AttemptsInSequence(st)
    ensures k < n && st.executions[k].job == j && st.executions[k].attempt == |Chain(st, n, j)|
    ensures forall i | k < i < |st.executions| :: st.executions[i].job != j
  {
    if st.executions[n - 1].job == j {
      k := n - 1;
    } else {
      k := LastRowIsNewest(st, n - 1, j);
    }
  }

  /** The retry query's LATERAL join reads exactly the length of the open chain. */
  lemma LastAttemptIsChainLength(st: Store, j: JobId, a: nat)
    requires StampsIncrease(st.executions) && AttemptsInSequence(st)
    ensures LastAttempt(st.executions, j, a) <==> a == |Open(st, j)|
  {
    ChainLength(st, |st.executions|, j);
    if HasRows(st.executions, j) {
      var last := LastRowIsNewest(st, |st.executions|, j);
      assert NewestRow(st.executions, j, last);
      forall k: nat | NewestRow(st.executions, j, k) ensures k == last {
      }
    }
  }

  // ---- each kind of step keeps the invariant

  /** Job rows: updated_at moves forward and locks are cleared only where `released` says so. */
  predicate JobsMoveOn(a: Store, b: Store, released: set<JobId>) {
    && a.jobs.Keys == b.jobs.Keys
    && forall j | j in a.jobs ::
         && a.jobs[j].updatedAt <= b.jobs[j].updatedAt
         && (b.jobs[j].updatedAt <= b.now || b.jobs[j].updatedAt == a.jobs[j].updatedAt)
         && (j !in released ==> b.jobs[j].lockedBy == a.jobs[j].lockedBy)
  }

  lemma ReapMovesOn(st: Store)
    requires forall j | j in st.jobs :: st.jobs[j].updatedAt <= st.now
    ensures JobsMoveOn(st, ReleaseStale(st), StaleJobs(st))
  {
  }

  lemma UnlockMovesOn(st: Store, j: JobId, status: Status)
    requires forall i | i in st.jobs :: st.jobs[i].updatedAt <= st.now
    ensures JobsMoveOn(st, Unlock(st, j, status), {j})
  {
  }

  lemma CompleteMovesOn(st: Store, j: JobId, outcome: Outcome, nextRun: Option<int>, at: int)
    requires forall i | i in st.jobs :: st.jobs[i].updatedAt <= st.now
    requires at <= st.now && (j in st.jobs ==> st.jobs[j].updatedAt <= at)
    ensures JobsMoveOn(st, Complete(st, j, outcome, nextRun, at), {j})
  {
  }

  lemma OtherStepsMoveOn(s: System, step: Step)
    requires Enabled(s, step) && Orderly(s, step)
    requires !step.Claim? && !(step.Insert? && step.ok) && !step.Stamp?
    requires forall j | j in s.store.jobs :: s.store.jobs[j].updatedAt <= s.store.now
    ensures JobsMoveOn(s.store, Next(s, step).store, Releases(s, step))
  {
    match step
    case Reap => ReapMovesOn(s.store);
    case UnlockScheduled(w, ok) => UnlockMovesOn(s.store, s.processes[w].pc.pick.job, Scheduled);
    case UnlockFailed(w, ok) => UnlockMovesOn(s.store, s.processes[w].pc.pick.job, Failed);
    case CompleteJob(m, outcome, nextRun, at) =>
      CompleteMovesOn(s.store, s.store.messages[m].job, outcome, nextRun, at);
    case _ =>
  }

  lemma OtherStepsKeepRows(s: System, step: Step)
    requires Enabled(s, step) && !step.Claim? && !(step.Insert? && step.ok) && !step.Stamp? && !step.Lock?
    ensures SameLocksAndRows(s.store, Next(s, step).store)
  {
  }

  lemma OtherStepsKeepProcesses(s: System, step: Step)
    requires Enabled(s, step) && Orderly(s, step)
    requires !step.Claim? && !(step.Insert? && step.ok) && !step.Stamp?
    requires forall w | w in s.processes :: s.processes[w].todo == []
    ensures Next(s, step).processes.Keys == s.processes.Keys
    ensures forall w | w in s.processes :: Next(s, step).processes[w].todo == []
    ensures forall w | w in s.processes && Next(s, step).processes[w].pc.BeforeInsert() ::
              Next(s, step).processes[w].pc == s.processes[w].pc
  {
  }

  lemma ChainsKept(a: Store, b: Store)
    requires SameLocksAndRows(a, b)
    ensures forall i: nat, j | i <= |a.executions| :: Chain(b, i, j) == Chain(a, i, j)
  {
    forall i: nat, j | i <= |a.executions| ensures Chain(b, i, j) == Chain(a, i, j) {
      SameChains(a, b, i, j);
    }
  }

  lemma TimesKept(a: Store, b: Store, released: set<JobId>)
    requires SameLocksAndRows(a, b) && JobsMoveOn(a, b, released)
    requires forall j :: ChainTimes(a, j)
    ensures forall j :: ChainTimes(b, j)
  {
    ChainsKept(a, b);
    forall j ensures ChainTimes(b, j) {
      assert ChainTimes(a, j);
    }
  }

  lemma WillExtendKept(a: Store, b: Store, w: WorkerId, pc: Pc)
    requires pc.BeforeInsert() && WillExtend(a, w, pc)
    requires Open(b, pc.pick.job) == Open(a, pc.pick.job)
    requires |a.acquisitions| <= |b.acquisitions| && b.acquisitions[..|a.acquisitions|] == a.acquisitions
    requires pc.pick.job in b.jobs && b.jobs[pc.pick.job].lockedBy == a.jobs[pc.pick.job].lockedBy
    requires a.jobs[pc.pick.job].updatedAt <= b.jobs[pc.pick.job].updatedAt
    requires forall i | 0 <= i < |b.executions| && b.executions[i].job == pc.pick.job ::
               i < |a.executions| && b.executions[i].createdAt == a.executions[i].createdAt
               && a.executions[i].job == pc.pick.job
    ensures WillExtend(b, w, pc)
  {
    assert b.acquisitions[pc.acquisition] == b.acquisitions[..|a.acquisitions|][pc.acquisition];
  }

  lemma ChainedAfterOther(s: System, step: Step)
    requires Enabled(s, step) && Orderly(s, step) && Chained(s)
    requires !step.Claim? && !(step.Insert? && step.ok) && !step.Stamp?
    ensures Chained(Next(s, step))
  {
    var n := Next(s, step);
    forall j | j in s.store.jobs ensures s.store.jobs[j].updatedAt <= s.store.now {
      assert ChainTimes(s.store, j);
    }
    OtherStepsMoveOn(s, step);
    OtherStepsKeepRows(s, step);
    OtherStepsKeepProcesses(s, step);
    ChainsKept(s.store, n.store);
    TimesKept(s.store, n.store, Releases(s, step));
    forall w | w in n.processes && n.processes[w].pc.BeforeInsert()
      ensures WillExtend(n.store, w, n.processes[w].pc)
    {
      WillExtendKept(s.store, n.store, w, n.processes[w].pc);
    }
  }

  lemma LockMovesOn(st: Store, w: WorkerId, p: Pick)
    requires Lockable(st, p.job)
    requires OneRowPerLock(st) && OneMessagePerRow(st) && forall j :: ChainTimes(st, j)
    ensures forall i: nat, j | i <= |st.executions| :: Chain(LockJob(st, w, p), i, j) == Chain(st, i, j)
    ensures forall j :: ChainTimes(LockJob(st, w, p), j)
  {
    var n := LockJob(st, w, p);
    RowsAndMessagesPointBack(st);
    forall i: nat, j | i <= |st.executions| ensures Chain(n, i, j) == Chain(st, i, j) {
      SameChains(st, n, i, j);
    }
    forall j ensures ChainTimes(n, j) {
      assert ChainTimes(st, j);
    }
  }

  /** A retry is picked only after 2^last minutes of quiet, counted from the last lock or later. */
  lemma RetryWaits(st: Store, p: Pick)
    requires RetryPick(st, p) && p.attempt != 1
    requires ChainTimes(st, p.job) && StampsIncrease(st.executions) && AttemptsInSequence(st)
    ensures var chain := Open(st, p.job);
            && chain != [] && p.attempt == |chain| + 1
            && st.now > chain[|chain| - 1] + Pow2(|chain|) * MINUTE
  {
    LastAttemptIsChainLength(st, p.job, p.attempt - 1);
  }

  lemma ClaimWillExtend(st: Store, w: WorkerId, p: Pick)
    requires DuePick(st, p) || RetryPick(st, p)
    requires OneRowPerLock(st) && OneMessagePerRow(st) && (forall j :: ChainTimes(st, j))
    requires StampsIncrease(st.executions) && AttemptsInSequence(st)
    ensures WillExtend(LockJob(st, w, p), w, Locked(p, |st.acquisitions|))
  {
    assert Open(LockJob(st, w, p), p.job) == Open(st, p.job) by {
      LockMovesOn(st, w, p);
    }
    if p.attempt != 1 {
      RetryWaits(st, p);
    }
  }

  lemma ChainedAfterClaim(s: System, w: WorkerId, p: Pick)
    requires Enabled(s, Claim(w, p)) && Chained(s) && Safe(s)
    ensures Chained(Next(s, Claim(w, p)))
  {
    var n := Next(s, Claim(w, p));
    LockMovesOn(s.store, w, p);
    ClaimWillExtend(s.store, w, p);
    forall v | v in n.processes && n.processes[v].pc.BeforeInsert()
      ensures WillExtend(n.store, v, n.processes[v].pc)
    {
      if v != w {
        assert WillExtend(s.store, v, s.processes[v].pc);
        WillExtendKept(s.store, n.store, v, s.processes[v].pc);
      }
    }
  }

  lemma ChainedAfterStamp(s: System, w: WorkerId)
    requires Enabled(s, Stamp(w)) && Orderly(s, Stamp(w)) && Chained(s)
    ensures Chained(Next(s, Stamp(w)))
  {
    var n := Next(s, Stamp(w));
    forall v | v in n.processes && n.processes[v].pc.BeforeInsert()
      ensures WillExtend(n.store, v, n.processes[v].pc)
    {
      assert WillExtend(s.store, v, s.processes[v].pc);
    }
  }

  lemma ChainedAfterInsert(s: System, w: WorkerId)
    requires Enabled(s, Insert(w, true)) && Chained(s)
    ensures Chained(Next(s, Insert(w, true)))
  {
    var n := Next(s, Insert(w, true));
    var pc := s.processes[w].pc;
    var size := |s.store.executions|;
    assert WillExtend(s.store, w, pc);
    forall i: nat, j | i <= size ensures Chain(n.store, i, j) == Chain(s.store, i, j) {
      SameChains(s.store, n.store, i, j);
    }
    forall j ensures ChainTimes(n.store, j) {
      assert ChainTimes(s.store, j);
    }
    forall v | v in n.processes && n.processes[v].pc.BeforeInsert()
      ensures WillExtend(n.store, v, n.processes[v].pc)
    {
      assert WillExtend(s.store, v, s.processes[v].pc);
      assert n.processes[v].pc.pick.job != pc.pick.job;
    }
  }

  lemma ChainedStep(s: System, step: Step)
    requires Enabled(s, step) && Orderly(s, step) && Chained(s) && Safe(s)
    ensures Chained(Next(s, step))
  {
    if step.Claim? {
      ChainedAfterClaim(s, step.w, step.pick);
    } else if step.Stamp? {
      ChainedAfterStamp(s, step.w);
    } else if step.Insert? && step.ok {
      ChainedAfterInsert(s, step.w);
    } else {
      ChainedAfterOther(s, step);
    }
  }

  /** An early release ends the invariant: the holder goes on to insert without its lock. */
  lemma EarlyReleaseUnlocks(s: System, step: Step, w: WorkerId)
    requires Enabled(s, step) && Chained(s)
    requires w in s.processes && s.processes[w].pc.BeforeInsert() && s.processes[w].pc.pick.job in Releases(s, step)
    ensures var n := Next(s, step);
            && w in n.processes && n.processes[w].pc == s.processes[w].pc
            && !WillExtend(n.store, w, n.processes[w].pc)
  {
    assert WillExtend(s.store, w, s.processes[w].pc);
  }

  /** Exactly which timely steps keep the invariant. */
  lemma ChainedIffNoEarlyRelease(s: System, step: Step)
    requires Enabled(s, step) && Timely(s, step) && Chained(s) && Safe(s)
    ensures Chained(Next(s, step)) <==> NoEarlyRelease(s, step)
  {
    if NoEarlyRelease(s, step) {
      ChainedStep(s, step);
    } else {
      var w :| w in s.processes && s.processes[w].pc.BeforeInsert() && s.processes[w].pc.pick.job in Releases(s, step);
      hide Releases, NoEarlyRelease, Next, Enabled, WillExtend;
      EarlyReleaseUnlocks(s, step, w);
    }
  }

  // ---- whole runs

  lemma {:induction false} OrderlyRunsAreChained(states: seq<System>, steps: seq<Step>)
    requires OrderlyRun(states, steps)
    ensures Chained(states[|steps|]) && Safe(states[|steps|])
    decreases |steps|
  {
    var n := |steps|;
    RunsAreSafe(states, steps);
    if n > 0 {
      RunPrefix(states, steps, n - 1);
      OrderlyRunsAreChained(states[..n], steps[..n - 1]);
      assert states[..n][n - 1] == states[n - 1];
      ChainedStep(states[n - 1], steps[n - 1]);
    }
  }

  /** No chain is longer than max(1, max_retries); RetryBound counts the rows of all chains. */
  lemma ChainsAreBounded(states: seq<System>, steps: seq<Step>, n: nat, j: JobId)
    requires OrderlyRun(states, steps) && n <= |states[|steps|].store.executions|
    requires j in states[|steps|].store.jobs
    ensures |Chain(states[|steps|].store, n, j)| <= Max(1, states[|steps|].store.jobs[j].maxRetries)
  {
    OrderlyRunsAreChained(states, steps);
    var st := states[|steps|].store;
    ChainLength(st, n, j);
    PreviousAttemptInLimit(states[|steps|], n, j);
  }

  lemma {:induction false} PreviousAttemptInLimit(s: System, n: nat, j: JobId)
    requires AttemptsInLimit(s) && n <= |s.store.executions|
    ensures PreviousAttempt(s.store.executions, n, j) <= Max(1, AttemptLimit(s.store, j))
  {
    if n > 0 {
      assert InLimit(s.store, s.store.executions[n - 1].job, s.store.executions[n - 1].attempt);
      PreviousAttemptInLimit(s, n - 1, j);
    }
  }

  /** Attempt m of the open chain was locked at least 2^m - 2 minutes after its attempt 1. */
  lemma BackoffIsCumulative(states: seq<System>, steps: seq<Step>, j: JobId, m: nat)
    requires OrderlyRun(states, steps) && 1 <= m <= |Open(states[|steps|].store, j)|
    ensures var chain := Open(states[|steps|].store, j);
            chain[m - 1] >= chain[0] + (Pow2(m) - 2) * MINUTE
  {
    OrderlyRunsAreChained(states, steps);
    assert ChainTimes(states[|steps|].store, j);
    CumulativeBackoff(Open(states[|steps|].store, j), m);
  }

  lemma RetryPicksAreChainPicks(st: Store, p: Pick)
    requires StampsIncrease(st.executions) && AttemptsInSequence(st) && p.job in st.jobs
    ensures RetryPick(st, p) <==>
              p.attempt == |Open(st, p.job)| + 1 && Retryable(st.jobs[p.job], |Open(st, p.job)|, st.now)
  {
    if p.attempt >= 1 {
      LastAttemptIsChainLength(st, p.job, p.attempt - 1);
    }
  }

  /** The retry query offers a failed, unlocked job exactly while its open chain is shorter than
      max_retries and 2^length minutes have passed since its last update. */
  lemma RetryIffChainIsShort(states: seq<System>, steps: seq<Step>, p: Pick)
    requires OrderlyRun(states, steps) && p.job in states[|steps|].store.jobs
    requires states[|steps|].store.jobs[p.job].status == Failed
    requires states[|steps|].store.jobs[p.job].lockedBy.None?
    ensures var st := states[|steps|].store;
            var length := |Open(st, p.job)|;
            RetryPick(st, p)
            <==> && p.attempt == length + 1
                 && length < st.jobs[p.job].maxRetries
                 && st.jobs[p.job].updatedAt < st.now - Pow2(length) * MINUTE
  {
    OrderlyRunsAreChained(states, steps);
    RetryPicksAreChainPicks(states[|steps|].store, p);
  }

  /** Once its chain has max_retries entries a failed job is exhausted, and only then;
      QuietJobs.QuietForever says what that means for every later tick. */
  lemma ExhaustedIffChainIsFull(states: seq<System>, steps: seq<Step>, j: JobId)
    requires OrderlyRun(states, steps) && j in states[|steps|].store.jobs
    requires states[|steps|].store.jobs[j].status == Failed
    ensures var st := states[|steps|].store;
            Exhausted(st, j) <==> |Open(st, j)| >= st.jobs[j].maxRetries
  {
    OrderlyRunsAreChained(states, steps);
    LastAttemptIsChainLength(states[|steps|].store, j, |Open(states[|steps|].store, j)|);
    forall a: nat | LastAttempt(states[|steps|].store.executions, j, a)
      ensures a == |Open(states[|steps|].store, j)|
    {
      LastAttemptIsChainLength(states[|steps|].store, j, a);
    }
  }

  /** The end of a firing that never succeeds: once the chain of a failed, unlocked job is full and no process
      holds it, every later tick of every process, stale or atomic, leaves its row and its executions alone. */
  lemma FullChainIsLeftAlone(states: seq<System>, steps: seq<Step>, later: seq<System>, ticks: seq<Step>, j: JobId)
    requires OrderlyRun(states, steps) && j in states[|steps|].store.jobs
    requires states[|steps|].store.jobs[j].status == Failed && states[|steps|].store.jobs[j].lockedBy.None?
    requires |Open(states[|steps|].store, j)| >= states[|steps|].store.jobs[j].maxRetries
    requires forall w | w in states[|steps|].processes :: Uninvolved(states[|steps|].processes[w], j)
    requires |later| == |ticks| + 1 && later[0] == states[|steps|]
    requires forall i | 0 <= i < |ticks| ::
               Enabled(later[i], ticks[i]) && SchedulerStep(ticks[i]) && later[i + 1] == Next(later[i], ticks[i])
    ensures j in later[|ticks|].store.jobs
    ensures later[|ticks|].store.jobs[j] == states[|steps|].store.jobs[j]
    ensures RowsOf(states[|steps|].store.executions, later[|ticks|].store.executions, j)
  {
    ExhaustedIffChainIsFull(states, steps, j);
    hide Enabled, Next, OrderlyRun, Exhausted, Open;
    QuietForever(later, ticks, j);
  }
}

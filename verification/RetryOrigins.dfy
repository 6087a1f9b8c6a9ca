/**
 Where an attempt number comes from: the status the job had when the row's lock was taken.
 Granularity and conditions as in RetryChains.
 */
module RetryOrigins {
  import opened Prelude
  import opened JobStore
  import opened JobProtocol
  import opened JobSafety
  import opened RetryChains

  function FoundStatus(acquisitions: seq<Acquisition>, a: nat): Status {
    if a < |acquisitions| then acquisitions[a].found else Scheduled
  }

  /** A scheduled job starts a chain, a failed one continues the chain that has `length` entries. */
  predicate Continues(found: Status, attempt: nat, length: nat) {
    || (found == Scheduled && attempt == 1)
    || (found == Failed && attempt == length + 1)
  }

  ghost predicate RowContinues(st: Store, i: nat)
    requires i < |st.executions|
  {
    var row := st.executions[i];
    Continues(FoundStatus(st.acquisitions, row.acquisition), row.attempt, |Chain(st, i, row.job)|)
  }

  ghost predicate WillContinue(st: Store, pc: Pc)
    requires pc.BeforeInsert()
  {
    && pc.acquisition < |st.acquisitions|
    && Continues(FoundStatus(st.acquisitions, pc.acquisition), pc.pick.attempt, |Open(st, pc.pick.job)|)
  }

  ghost predicate Continuing(s: System) {
    && (forall i: nat | i < |s.store.executions| :: RowContinues(s.store, i))
    && forall w | w in s.processes && s.processes[w].pc.BeforeInsert() :: WillContinue(s.store, s.processes[w].pc)
  }

  lemma PickContinues(st: Store, p: Pick)
    requires DuePick(st, p) || RetryPick(st, p)
    requires StampsIncrease(st.executions) && AttemptsInSequence(st)
    ensures Continues(st.jobs[p.job].status, p.attempt, |Open(st, p.job)|)
  {
    hide Open;
    if RetryPick(st, p) {
      LastAttemptIsChainLength(st, p.job, p.attempt - 1);
    }
  }

  lemma ClaimContinues(s: System, w: WorkerId, p: Pick)
    requires Enabled(s, Claim(w, p)) && Chained(s) && Safe(s) && Continuing(s)
    ensures Continuing(Next(s, Claim(w, p)))
  {
    var n := Next(s, Claim(w, p));
    LockMovesOn(s.store, w, p);
    PickContinues(s.store, p);
    RowsAndMessagesPointBack(s.store);
    hide Chain, StampsIncrease, AttemptsInSequence, ChainTimes, RetryPick, DuePick, WillExtend, Traceable, LockLedger;
    forall i: nat | i < |n.store.executions| ensures RowContinues(n.store, i) {
      assert RowContinues(s.store, i);
    }
    forall v | v in n.processes && n.processes[v].pc.BeforeInsert() ensures WillContinue(n.store, n.processes[v].pc) {
      assert v != w ==> WillContinue(s.store, s.processes[v].pc);
    }
  }

  /** Only the lock's holder inserts for the job, so nobody else's chain position changes. */
  lemma InsertContinues(s: System, w: WorkerId)
    requires Enabled(s, Insert(w, true)) && Chained(s) && Continuing(s)
    ensures Continuing(Next(s, Insert(w, true)))
  {
    var n := Next(s, Insert(w, true));
    var pc := s.processes[w].pc;
    var size := |s.store.executions|;
    forall i: nat, j | i <= size ensures Chain(n.store, i, j) == Chain(s.store, i, j) {
      SameChains(s.store, n.store, i, j);
    }
    assert WillExtend(s.store, w, pc) && WillContinue(s.store, pc);
    forall i: nat | i < |n.store.executions| ensures RowContinues(n.store, i) {
      assert i < size ==> RowContinues(s.store, i);
    }
    forall v | v in n.processes && n.processes[v].pc.BeforeInsert() ensures WillContinue(n.store, n.processes[v].pc) {
      assert WillExtend(s.store, v, s.processes[v].pc) && WillContinue(s.store, s.processes[v].pc);
      assert n.processes[v].pc.pick.job != pc.pick.job;
    }
  }

  lemma ContinuesIfKept(s: System, n: System)
    requires Continuing(s) && SameLocksAndRows(s.store, n.store) && n.processes.Keys == s.processes.Keys
    requires forall w | w in s.processes && n.processes[w].pc.BeforeInsert() ::
               && s.processes[w].pc.BeforeInsert()
               && n.processes[w].pc.pick == s.processes[w].pc.pick
               && n.processes[w].pc.acquisition == s.processes[w].pc.acquisition
    ensures Continuing(n)
  {
    ChainsKept(s.store, n.store);
    hide Chain;
    forall i: nat | i < |n.store.executions| ensures RowContinues(n.store, i) {
      assert RowContinues(s.store, i);
    }
    forall w | w in n.processes && n.processes[w].pc.BeforeInsert() ensures WillContinue(n.store, n.processes[w].pc) {
      assert WillContinue(s.store, s.processes[w].pc);
    }
  }

  lemma StampKeeps(s: System, w: WorkerId)
    requires Enabled(s, Stamp(w))
    ensures var n := Next(s, Stamp(w));
            && SameLocksAndRows(s.store, n.store) && n.processes.Keys == s.processes.Keys
            && forall v | v in s.processes && n.processes[v].pc.BeforeInsert() ::
                 && s.processes[v].pc.BeforeInsert()
                 && n.processes[v].pc.pick == s.processes[v].pc.pick
                 && n.processes[v].pc.acquisition == s.processes[v].pc.acquisition
  {
  }

  lemma ContinuingStep(s: System, step: Step)
    requires Enabled(s, step) && Orderly(s, step) && Chained(s) && Safe(s) && Continuing(s)
    ensures Continuing(Next(s, step))
  {
    if step.Claim? {
      ClaimContinues(s, step.w, step.pick);
    } else if step.Insert? && step.ok {
      InsertContinues(s, step.w);
    } else if step.Stamp? {
      StampKeeps(s, step.w);
      ContinuesIfKept(s, Next(s, step));
    } else {
      OtherStepsKeepRows(s, step);
      OtherStepsKeepProcesses(s, step);
      ContinuesIfKept(s, Next(s, step));
    }
  }

  lemma {:induction false} OrderlyRunsContinue(states: seq<System>, steps: seq<Step>)
    requires OrderlyRun(states, steps)
    ensures Continuing(states[|steps|])
    decreases |steps|
  {
    hide Continuing, Enabled, Next, Chained, Safe;
    var n := |steps|;
    if n == 0 {
      StartContinues(states[0]);
    } else {
      RunPrefix(states, steps, n - 1);
      OrderlyRunsContinue(states[..n], steps[..n - 1]);
      OrderlyRunsAreChained(states[..n], steps[..n - 1]);
      assert states[..n][n - 1] == states[n - 1];
      ContinuingStep(states[n - 1], steps[n - 1]);
    }
  }

  lemma StartContinues(s: System)
    requires Init(s)
    ensures Continuing(s)
  {
  }

  /** Every execution's lock found the job scheduled or failed: in the first case its attempt is 1, in the
      second it is the attempt of the job's previous execution plus one. */
  lemma AttemptFollowsStatus(states: seq<System>, steps: seq<Step>, i: nat)
    requires OrderlyRun(states, steps) && i < |states[|steps|].store.executions|
    ensures var st := states[|steps|].store;
            var row := st.executions[i];
            && row.acquisition < |st.acquisitions|
            && var found := st.acquisitions[row.acquisition].found;
               && (found == Scheduled || found == Failed)
               && row.attempt == (if found == Scheduled then 1 else PreviousAttempt(st.executions, i, row.job) + 1)
  {
    OrderlyRunsContinue(states, steps);
    OrderlyRunsAreChained(states, steps);
    var st := states[|steps|].store;
    ChainLength(st, i, st.executions[i].job);
    assert RowFromLock(st, i) && RowContinues(st, i);
  }
}

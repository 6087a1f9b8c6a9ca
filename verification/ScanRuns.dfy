/** Whole runs of the scanner: what the caller gets back, no send after a close, progress, termination. */
module ScanRuns {
  import opened Prelude
  import opened ScanPool

  // ---- what a complete result is

  function AllFindings(fs: seq<File>): seq<Finding> {
    if fs == [] then [] else (if fs[0].failed then [] else fs[0].findings) + AllFindings(fs[1..])
  }

  function FailedPaths(fs: seq<File>): seq<string> {
    if fs == [] then [] else (if fs[0].failed then [fs[0].path] else []) + FailedPaths(fs[1..])
  }

  function SizeOfSuccesses(fs: seq<File>): nat {
    if fs == [] then 0 else (if fs[0].failed then 0 else fs[0].size) + SizeOfSuccesses(fs[1..])
  }

  /** The findings of every file whose scan had no error, one error entry per failing file, the
      number of walked files, and the bytes of the successes. */
  predicate Complete(r: Result, files: seq<File>) {
    && multiset(r.findings) == multiset(AllFindings(files))
    && multiset(r.errors) == multiset(FailedPaths(files))
    && r.filesScanned == |files|
    && r.bytesScanned == SizeOfSuccesses(files)
  }

  /** Steps a file takes on its way through the pool. */
  function FileSteps(fs: seq<File>): nat {
    if fs == [] then 0 else (if fs[0].failed then 5 else 4 + 2 * |fs[0].findings|) + FileSteps(fs[1..])
  }

  /** The length of every complete run: six closes and returns, one exit per worker, and the files' steps. */
  function RunLength(files: seq<File>, workers: int): nat {
    FileSteps(files) + Max(0, workers) + 6
  }

  lemma {:induction false} CountConcat<T>(a: seq<T>, b: seq<T>, x: T)
    ensures Count(a + b, x) == Count(a, x) + Count(b, x)
  {
    if a == [] {
      assert a + b == b;
    } else {
      assert (a + b)[1..] == a[1..] + b;
      CountConcat(a[1..], b, x);
    }
  }

  lemma {:induction false} FilesDueMeans(fs: seq<File>, p: Probe)
    ensures FilesDue(fs, 0, p) == Ledger(Count(AllFindings(fs), p.finding), Count(FailedPaths(fs), p.error),
                                         |fs|, SizeOfSuccesses(fs), FileSteps(fs))
  {
    if fs != [] {
      FilesDueMeans(fs[1..], p);
      CountConcat(if fs[0].failed then [] else fs[0].findings, AllFindings(fs[1..]), p.finding);
      CountConcat(if fs[0].failed then [fs[0].path] else [], FailedPaths(fs[1..]), p.error);
    }
  }

  // ---- the ledger at both ends of a run

  lemma {:induction false} WaitingDue(ws: seq<Worker>, p: Probe)
    requires forall w | 0 <= w < |ws| :: ws[w] == Waiting
    ensures WorkersDue(ws, p) == NOTHING.(steps := |ws|)
  {
    if ws != [] {
      WaitingDue(ws[1..], p);
    }
  }

  lemma {:induction false} ExitedDue(ws: seq<Worker>, p: Probe)
    requires AllExited(ws)
    ensures WorkersDue(ws, p) == NOTHING
  {
    if ws != [] {
      assert AllExited(ws[1..]);
      ExitedDue(ws[1..], p);
    }
  }

  lemma EmptyDue(p: Probe)
    ensures FilesDue([], 0, p) == FilesDue([], 1, p) == NOTHING && Credit(EMPTY, p) == NOTHING
    ensures Count<Finding>([], p.finding) == 0 && Count<string>([], p.error) == 0
  {
  }

  lemma StartHolds(files: seq<File>, workers: int, p: Probe)
    ensures Held(Start(files, workers), p)
         == Ledger(Count(AllFindings(files), p.finding), Count(FailedPaths(files), p.error),
                   |files|, SizeOfSuccesses(files), RunLength(files, workers))
  {
    hide FilesDue, WorkersDue, Count, AllFindings, FailedPaths, SizeOfSuccesses, FileSteps, Credit;
    FilesDueMeans(files, p);
    EmptyDue(p);
    WaitingDue(Start(files, workers).workers, p);
  }

  /** Conservation: in every reachable state the walker, the channels, the workers and the result
      together hold what the files started with, and the steps taken and left add up. */
  lemma {:induction false} RunConserves(files: seq<File>, workers: int, states: seq<Pool>, steps: seq<Step>, p: Probe)
    requires Run(files, workers, states, steps)
    ensures Plus(Held(states[|steps|], p), NOTHING.(steps := |steps|))
         == Ledger(Count(AllFindings(files), p.finding), Count(FailedPaths(files), p.error),
                   |files|, SizeOfSuccesses(files), RunLength(files, workers))
    decreases |steps|
  {
    hide Held, RunLength, Next, Enabled, Start, Count;
    var n := |steps|;
    if n == 0 {
      StartHolds(files, workers, p);
    } else {
      assert Run(files, workers, states[..n], steps[..n - 1]);
      RunConserves(files, workers, states[..n], steps[..n - 1], p);
      assert states[..n][n - 1] == states[n - 1];
      StepConserves(states[n - 1], steps[n - 1], p);
    }
  }

  lemma {:induction false} RunPhases(files: seq<File>, workers: int, states: seq<Pool>, steps: seq<Step>)
    requires Run(files, workers, states, steps)
    ensures Phases(states[|steps|]) && |states[|steps|].workers| == Max(0, workers)
    decreases |steps|
  {
    var n := |steps|;
    if n > 0 {
      assert Run(files, workers, states[..n], steps[..n - 1]);
      RunPhases(files, workers, states[..n], steps[..n - 1]);
      assert states[..n][n - 1] == states[n - 1];
      PhasesStep(states[n - 1], steps[n - 1]);
    }
  }

  /** No interleaving sends on a closed channel, and the channels close in order. */
  lemma NoSendAfterClose(files: seq<File>, workers: int, states: seq<Pool>, steps: seq<Step>)
    requires Run(files, workers, states, steps)
    ensures var s := states[|steps|];
            && !s.panicked
            && (s.filesClosed ==> s.pending == [])
            && (s.findingsClosed ==> AllExited(s.workers))
            && (s.errorsClosed ==> s.findingsClosed)
  {
    RunPhases(files, workers, states, steps);
  }

  // ---- the result

  lemma ReturnedIsEmpty(s: Pool)
    requires Phases(s) && s.returned.Some? && s.workers != []
    ensures s.pending == [] && s.files == [] && s.findings == [] && s.errors == [] && AllExited(s.workers)
    ensures s.filesClosed && s.findingsClosed && s.errorsClosed && s.findingsDone && s.errorsDone
    ensures s.returned.value == s.collected
  {
    assert AllExited(s.workers);
    assert s.workers[0].Exited?;
  }

  lemma ClosedChannelsDue(s: Pool, p: Probe)
    requires s.findings == [] && s.errors == [] && s.returned.Some?
    requires s.filesClosed && s.findingsClosed && s.errorsClosed && s.findingsDone && s.errorsDone
    ensures ChannelsDue(s, p) == NOTHING
  {
  }

  lemma PlusNothing(a: Ledger)
    ensures Plus(NOTHING, a) == a
  {
  }

  lemma ReturnedHolds(s: Pool, p: Probe)
    requires Phases(s) && s.returned.Some? && s.workers != []
    ensures Held(s, p) == Credit(s.returned.value, p)
  {
    ReturnedIsEmpty(s);
    hide FilesDue, WorkersDue, ChannelsDue, Credit, Phases, AllExited, Plus;
    ExitedDue(s.workers, p);
    EmptyDue(p);
    ClosedChannelsDue(s, p);
    PlusNothing(NOTHING);
    PlusNothing(Credit(s.collected, p));
  }

  lemma ReturnedCounts(files: seq<File>, workers: int, states: seq<Pool>, steps: seq<Step>, p: Probe)
    requires Run(files, workers, states, steps) && workers >= 1 && states[|steps|].returned.Some?
    ensures var r := states[|steps|].returned.value;
            && Count(r.findings, p.finding) == Count(AllFindings(files), p.finding)
            && Count(r.errors, p.error) == Count(FailedPaths(files), p.error)
            && r.filesScanned == |files| && r.bytesScanned == SizeOfSuccesses(files)
            && |steps| == RunLength(files, workers)
  {
    hide Held, Count, Phases, RunLength, Next, Enabled, Start;
    RunPhases(files, workers, states, steps);
    RunConserves(files, workers, states, steps, p);
    ReturnedHolds(states[|steps|], p);
  }

  lemma ReturnedIsComplete(files: seq<File>, workers: int, states: seq<Pool>, steps: seq<Step>)
    requires Run(files, workers, states, steps) && workers >= 1 && states[|steps|].returned.Some?
    ensures Complete(states[|steps|].returned.value, files)
    ensures |steps| == RunLength(files, workers)
  {
    hide Count, RunLength, Next, Enabled, Start;
    var r := states[|steps|].returned.value;
    forall p: Probe
      ensures Count(r.findings, p.finding) == Count(AllFindings(files), p.finding)
           && Count(r.errors, p.error) == Count(FailedPaths(files), p.error)
    {
      ReturnedCounts(files, workers, states, steps, p);
    }
    ReturnedCounts(files, workers, states, steps, Probe(Finding("", 0, "", ""), ""));
    SameCounts(r, files);
  }

  lemma SameCounts(r: Result, files: seq<File>)
    requires forall p: Probe ::
               Count(r.findings, p.finding) == Count(AllFindings(files), p.finding)
               && Count(r.errors, p.error) == Count(FailedPaths(files), p.error)
    ensures multiset(r.findings) == multiset(AllFindings(files))
    ensures multiset(r.errors) == multiset(FailedPaths(files))
  {
    forall f: Finding ensures multiset(r.findings)[f] == multiset(AllFindings(files))[f] {
      var p := Probe(f, "");
      assert Count(r.findings, p.finding) == Count(AllFindings(files), p.finding);
      CountIsMultiplicity(r.findings, f);
      CountIsMultiplicity(AllFindings(files), f);
    }
    forall e: string ensures multiset(r.errors)[e] == multiset(FailedPaths(files))[e] {
      var p := Probe(Finding("", 0, "", ""), e);
      assert Count(r.errors, p.error) == Count(FailedPaths(files), p.error);
      CountIsMultiplicity(r.errors, e);
      CountIsMultiplicity(FailedPaths(files), e);
    }
  }

  predicate Idle(s: Pool) {
    s.workers == [] && s.findings == [] && s.errors == [] && s.collected == EMPTY
  }

  lemma IdleStep(s: Pool, step: Step)
    requires Enabled(s, step) && Idle(s)
    ensures Idle(Next(s, step))
  {
  }

  lemma {:induction false} NoWorkersNoResult(files: seq<File>, workers: int, states: seq<Pool>, steps: seq<Step>)
    requires Run(files, workers, states, steps) && workers <= 0
    ensures Idle(states[|steps|])
    decreases |steps|
  {
    hide Next, Enabled;
    var n := |steps|;
    if n > 0 {
      assert Run(files, workers, states[..n], steps[..n - 1]);
      NoWorkersNoResult(files, workers, states[..n], steps[..n - 1]);
      assert states[..n][n - 1] == states[n - 1];
      IdleStep(states[n - 1], steps[n - 1]);
    }
  }

  /** Whatever the interleaving, the result Scan returns is complete exactly when at least one
      worker was started or there was nothing to scan: with WithWorkers(0) it silently returns
      an empty result. */
  lemma CompleteIffWorkers(files: seq<File>, workers: int, states: seq<Pool>, steps: seq<Step>)
    requires Run(files, workers, states, steps) && states[|steps|].returned.Some?
    ensures Complete(states[|steps|].returned.value, files) <==> workers >= 1 || files == []
  {
    if workers >= 1 {
      ReturnedIsComplete(files, workers, states, steps);
    } else {
      RunPhases(files, workers, states, steps);
      NoWorkersNoResult(files, workers, states, steps);
    }
  }

  predicate WithinChannels(s: Pool) {
    |s.files| <= 100 && |s.findings| <= 100 && |s.errors| <= 100
  }

  lemma FullChannelsWait(s: Pool, step: Step)
    requires Enabled(s, step)
    ensures |s.files| == 100 ==> !step.WalkSend?
    ensures |s.findings| == 100 ==> !step.SendFinding?
    ensures |s.errors| == 100 ==> !step.SendError?
  {
  }

  lemma FilesGrowByOne(s: Pool, step: Step)
    requires Enabled(s, step)
    ensures |Next(s, step).files| <= |s.files| + (if step.WalkSend? then 1 else 0)
  {
    hide AllExited, CreditScan, AfterScan;
    match step
    case Scan(w) => assert Next(s, step) == Scanned(s, w);
    case _ =>
  }

  lemma FindingsGrowByOne(s: Pool, step: Step)
    requires Enabled(s, step)
    ensures |Next(s, step).findings| <= |s.findings| + (if step.SendFinding? then 1 else 0)
  {
    hide AllExited, CreditScan, AfterScan;
    match step
    case Scan(w) => assert Next(s, step) == Scanned(s, w);
    case _ =>
  }

  lemma ErrorsGrowByOne(s: Pool, step: Step)
    requires Enabled(s, step)
    ensures |Next(s, step).errors| <= |s.errors| + (if step.SendError? then 1 else 0)
  {
    hide AllExited, CreditScan, AfterScan;
    match step
    case Scan(w) => assert Next(s, step) == Scanned(s, w);
    case _ =>
  }

  lemma ChannelStep(s: Pool, step: Step)
    requires Enabled(s, step) && WithinChannels(s)
    ensures WithinChannels(Next(s, step))
  {
    FullChannelsWait(s, step);
    FilesGrowByOne(s, step);
    FindingsGrowByOne(s, step);
    ErrorsGrowByOne(s, step);
    hide Next, Enabled;
  }

  /** No channel ever holds more than a hundred elements; a send on a full one waits. */
  lemma {:induction false} ChannelsStayBounded(files: seq<File>, workers: int, states: seq<Pool>, steps: seq<Step>, i: nat)
    requires Run(files, workers, states, steps) && i <= |steps|
    ensures WithinChannels(states[i])
  {
    hide Next, Enabled;
    if i > 0 {
      ChannelsStayBounded(files, workers, states, steps, i - 1);
      ChannelStep(states[i - 1], steps[i - 1]);
    }
  }

  // ---- progress and termination

  lemma BusyWorkerMoves(s: Pool, w: nat) returns (step: Step)
    requires w < |s.workers| && !s.workers[w].Waiting? && !s.workers[w].Exited?
    requires s.findings == [] && s.errors == []
    ensures Enabled(s, step)
  {
    match s.workers[w]
    case Took(_) => step := Scan(w);
    case Reporting(_) => step := SendError(w);
    case Sending(rest) => step := if rest == [] then Finish(w) else SendFinding(w);
  }

  lemma IdlePoolMoves(s: Pool) returns (step: Step)
    requires Phases(s) && s.workers != [] && s.returned.None?
    requires s.findings == [] && s.errors == []
    requires forall w | 0 <= w < |s.workers| :: s.workers[w].Waiting? || s.workers[w].Exited?
    ensures Enabled(s, step)
  {
    if AllExited(s.workers) {
      assert s.workers[0].Exited?;
      step := if !s.findingsClosed then CloseFindings else if !s.errorsClosed then CloseErrors
              else if !s.findingsDone then EndFindings else if !s.errorsDone then EndErrors else Return;
    } else {
      var w: nat :| w < |s.workers| && !s.workers[w].Exited?;
      step := if s.files != [] then Take(w) else if s.pending != [] then WalkSend
              else if !s.filesClosed then WalkClose else Quit(w);
    }
  }

  /** With at least one worker no reachable state is stuck before Scan has returned, although all
      three channels are bounded. */
  lemma NeverStuck(files: seq<File>, workers: int, states: seq<Pool>, steps: seq<Step>) returns (step: Step)
    requires Run(files, workers, states, steps) && workers >= 1 && states[|steps|].returned.None?
    ensures Enabled(states[|steps|], step)
  {
    var s := states[|steps|];
    RunPhases(files, workers, states, steps);
    if s.findings != [] {
      step := CollectFinding;
    } else if s.errors != [] {
      step := CollectError;
    } else if w: nat :| w < |s.workers| && !s.workers[w].Waiting? && !s.workers[w].Exited? {
      step := BusyWorkerMoves(s, w);
    } else {
      step := IdlePoolMoves(s);
    }
  }

  /** Every run is finite, and with at least one worker Scan has returned exactly after RunLength
      steps: no schedule makes it longer or shorter. */
  lemma RunsEndAfterRunLength(files: seq<File>, workers: int, states: seq<Pool>, steps: seq<Step>)
    requires Run(files, workers, states, steps)
    ensures |steps| <= RunLength(files, workers)
    ensures workers >= 1 ==> (states[|steps|].returned.Some? <==> |steps| == RunLength(files, workers))
  {
    var p := Probe(Finding("", 0, "", ""), "");
    RunConserves(files, workers, states, steps, p);
    if workers >= 1 {
      if states[|steps|].returned.Some? {
        ReturnedIsComplete(files, workers, states, steps);
      } else {
        assert Held(states[|steps|], p).steps >= 1;
      }
    }
  }
}

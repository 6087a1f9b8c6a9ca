/**
 The agent's scanner: a walker, any number of workers, a closer, two collectors and the caller,
 communicating over three bounded channels. One `Step` is one channel operation, one file scan or
 one close; a send on a full channel is not enabled.
 */
module ScanPool {
  import opened Prelude

  const CAPACITY: nat := 100

  datatype Finding = Finding(filePath: string, lineNumber: nat, piiType: string, value: string)

  // A walked file together with what scanFile returns for it.
  datatype File = File(path: string, findings: seq<Finding>, size: nat, failed: bool)

  datatype Worker =
    | Waiting                        // at the top of `for file := range files`
    | Took(file: File)
    | Reporting(path: string)        // about to send on `errors`
    | Sending(rest: seq<Finding>)    // about to send the rest on `findings`
    | Exited

  datatype Result = Result(findings: seq<Finding>, errors: seq<string>, filesScanned: nat, bytesScanned: nat)

  datatype Pool = Pool(
    pending: seq<File>,              // not yet sent by the walker
    files: seq<File>, filesClosed: bool,
    workers: seq<Worker>,
    findings: seq<Finding>, findingsClosed: bool,
    errors: seq<string>, errorsClosed: bool,
    collected: Result,               // counters and the collectors' slices
    findingsDone: bool, errorsDone: bool,
    returned: Option<Result>,
    panicked: bool)                  // a send on a closed channel

  datatype Step =
    | WalkSend | WalkClose
    | Take(w: nat) | Scan(w: nat) | SendError(w: nat) | SendFinding(w: nat) | Finish(w: nat) | Quit(w: nat)
    | CloseFindings | CloseErrors
    | CollectFinding | CollectError | EndFindings | EndErrors
    | Return

  predicate AllExited(workers: seq<Worker>) {
    forall w | 0 <= w < |workers| :: workers[w] == Exited
  }

  predicate WorkerStep(step: Step) {
    step.Take? || step.Scan? || step.SendError? || step.SendFinding? || step.Finish? || step.Quit?
  }

  predicate Enabled(s: Pool, step: Step) {
    && (WorkerStep(step) ==> step.w < |s.workers|)
    && match step
       case WalkSend => s.pending != [] && |s.files| < CAPACITY
       case WalkClose => s.pending == [] && !s.filesClosed
       case Take(w) => s.workers[w].Waiting? && s.files != []
       case Scan(w) => s.workers[w].Took?
       case SendError(w) => s.workers[w].Reporting? && |s.errors| < CAPACITY
       case SendFinding(w) => s.workers[w].Sending? && s.workers[w].rest != [] && |s.findings| < CAPACITY
       case Finish(w) => s.workers[w] == Sending([])
       case Quit(w) => s.workers[w].Waiting? && s.files == [] && s.filesClosed
       case CloseFindings => AllExited(s.workers) && !s.findingsClosed
       case CloseErrors => s.findingsClosed && !s.errorsClosed
       case CollectFinding => s.findings != []
       case CollectError => s.errors != []
       case EndFindings => s.findings == [] && s.findingsClosed && !s.findingsDone
       case EndErrors => s.errors == [] && s.errorsClosed && !s.errorsDone
       case Return => s.findingsDone && s.errorsDone && s.returned.None?
  }

  function With(s: Pool, w: nat, worker: Worker): Pool
    requires w < |s.workers|
  {
    s.(workers := s.workers[w := worker])
  }

  /** scanFile has returned: the file is counted; an error drops its findings and its size. */
  function AfterScan(file: File): Worker {
    if file.failed then Reporting(file.path) else Sending(file.findings)
  }

  function CreditScan(c: Result, file: File): Result {
    var counted := c.(filesScanned := c.filesScanned + 1);
    if file.failed then counted else counted.(bytesScanned := c.bytesScanned + file.size)
  }

  function Scanned(s: Pool, w: nat): Pool
    requires w < |s.workers| && s.workers[w].Took?
  {
    With(s, w, AfterScan(s.workers[w].file)).(collected := CreditScan(s.collected, s.workers[w].file))
  }

  function Next(s: Pool, step: Step): Pool
    requires Enabled(s, step)
  {
    var c := s.collected;
    match step
    case WalkSend =>
      s.(pending := s.pending[1..], files := s.files + [s.pending[0]], panicked := s.panicked || s.filesClosed)
    case WalkClose => s.(filesClosed := true)
    case Take(w) => With(s, w, Took(s.files[0])).(files := s.files[1..])
    case Scan(w) => Scanned(s, w)
    case SendError(w) =>
      With(s, w, Waiting).(errors := s.errors + [s.workers[w].path], panicked := s.panicked || s.errorsClosed)
    case SendFinding(w) =>
      With(s, w, Sending(s.workers[w].rest[1..]))
      .(findings := s.findings + [s.workers[w].rest[0]], panicked := s.panicked || s.findingsClosed)
    case Finish(w) => With(s, w, Waiting)
    case Quit(w) => With(s, w, Exited)
    case CloseFindings => s.(findingsClosed := true)
    case CloseErrors => s.(errorsClosed := true)
    case CollectFinding =>
      s.(findings := s.findings[1..], collected := c.(findings := c.findings + [s.findings[0]]))
    case CollectError =>
      s.(errors := s.errors[1..], collected := c.(errors := c.errors + [s.errors[0]]))
    case EndFindings => s.(findingsDone := true)
    case EndErrors => s.(errorsDone := true)
    case Return => s.(returned := Some(c))
  }

  const EMPTY := Result([], [], 0, 0)

  /** A worker count below one starts no worker at all. */
  function Start(files: seq<File>, workers: int): Pool {
    Pool(files, [], false, seq(Max(0, workers), i => Waiting), [], false, [], false, EMPTY, false, false, None, false)
  }

  predicate Run(files: seq<File>, workers: int, states: seq<Pool>, steps: seq<Step>) {
    && |states| == |steps| + 1
    && states[0] == Start(files, workers)
    && forall i | 0 <= i < |steps| :: Enabled(states[i], steps[i]) && states[i + 1] == Next(states[i], steps[i])
  }

  // ---- the order of closes

  predicate Phases(s: Pool) {
    && !s.panicked
    && (s.filesClosed ==> s.pending == [])
    && ((exists w | 0 <= w < |s.workers| :: s.workers[w].Exited?) ==> s.filesClosed && s.files == [])
    && (s.findingsClosed ==> AllExited(s.workers))
    && (s.errorsClosed ==> s.findingsClosed)
    && (s.findingsDone ==> s.findingsClosed && s.findings == [])
    && (s.errorsDone ==> s.errorsClosed && s.errors == [])
    && (s.returned.Some? ==> s.findingsDone && s.errorsDone && s.returned.value == s.collected)
  }

  lemma PhasesWorkerStep(s: Pool, step: Step)
    requires Enabled(s, step) && Phases(s) && WorkerStep(step)
    ensures Phases(Next(s, step))
  {
    var n := Next(s, step);
    assert !AllExited(s.workers) by {
      assert !s.workers[step.w].Exited?;
    }
    forall v | 0 <= v < |n.workers| && n.workers[v].Exited? ensures n.filesClosed && n.files == [] {
      assert v != step.w ==> s.workers[v].Exited?;
    }
  }

  lemma PhasesStep(s: Pool, step: Step)
    requires Enabled(s, step) && Phases(s)
    ensures Phases(Next(s, step))
  {
    if WorkerStep(step) {
      PhasesWorkerStep(s, step);
    }
  }

  // ---- conservation: what a part of the pool still owes to the result

  // A finding and an error to follow through the pool.
  datatype Probe = Probe(finding: Finding, error: string)

  // Occurrences of the probe, files and bytes still to be added to the result, and steps to take.
  datatype Ledger = Ledger(findings: nat, errors: nat, files: nat, bytes: nat, steps: nat)

  const NOTHING := Ledger(0, 0, 0, 0, 0)
  const ONE_STEP := Ledger(0, 0, 0, 0, 1)

  function Plus(a: Ledger, b: Ledger): Ledger {
    Ledger(a.findings + b.findings, a.errors + b.errors, a.files + b.files, a.bytes + b.bytes, a.steps + b.steps)
  }

  function Count<T(==)>(s: seq<T>, x: T): nat {
    if s == [] then 0 else (if s[0] == x then 1 else 0) + Count(s[1..], x)
  }

  lemma {:induction false} CountAppend<T>(s: seq<T>, y: T, x: T)
    ensures Count(s + [y], x) == Count(s, x) + Count([y], x)
  {
    if s == [] {
      assert s + [y] == [y];
    } else {
      assert (s + [y])[1..] == s[1..] + [y];
      CountAppend(s[1..], y, x);
    }
  }

  lemma CountHead<T>(s: seq<T>, x: T)
    requires s != []
    ensures Count(s, x) == Count([s[0]], x) + Count(s[1..], x)
  {
    assert [s[0]][1..] == [];
  }

  lemma {:induction false} CountIsMultiplicity<T>(s: seq<T>, x: T)
    ensures Count(s, x) == multiset(s)[x]
  {
    if s != [] {
      assert s == [s[0]] + s[1..];
      CountIsMultiplicity(s[1..], x);
    }
  }

  /** What a file contributes; `done` of its steps (send, take) are behind it. */
  function FileDue(f: File, done: nat, p: Probe): Ledger
    requires done <= 2
  {
    if f.failed then Ledger(0, Count([f.path], p.error), 1, 0, 5 - done)
    else Ledger(Count(f.findings, p.finding), 0, 1, f.size, 4 - done + 2 * |f.findings|)
  }

  function FilesDue(fs: seq<File>, done: nat, p: Probe): Ledger
    requires done <= 2
  {
    if fs == [] then NOTHING else Plus(FileDue(fs[0], done, p), FilesDue(fs[1..], done, p))
  }

  function WorkerDue(w: Worker, p: Probe): Ledger {
    match w
    case Waiting => ONE_STEP
    case Took(f) => Plus(FileDue(f, 2, p), ONE_STEP)
    case Reporting(path) => Ledger(0, Count([path], p.error), 0, 0, 3)
    case Sending(rest) => Ledger(Count(rest, p.finding), 0, 0, 0, 2 * |rest| + 2)
    case Exited => NOTHING
  }

  function WorkersDue(ws: seq<Worker>, p: Probe): Ledger {
    if ws == [] then NOTHING else Plus(WorkerDue(ws[0], p), WorkersDue(ws[1..], p))
  }

  function Flag(done: bool): nat {
    if done then 0 else 1
  }

  function ChannelsDue(s: Pool, p: Probe): Ledger {
    Ledger(Count(s.findings, p.finding), Count(s.errors, p.error), 0, 0,
           |s.findings| + |s.errors| + Flag(s.filesClosed) + Flag(s.findingsClosed) + Flag(s.errorsClosed)
           + Flag(s.findingsDone) + Flag(s.errorsDone) + Flag(s.returned.Some?))
  }

  /** What the result already has. */
  function Credit(r: Result, p: Probe): Ledger {
    Ledger(Count(r.findings, p.finding), Count(r.errors, p.error), r.filesScanned, r.bytesScanned, 0)
  }

  function Held(s: Pool, p: Probe): Ledger {
    Plus(Plus(FilesDue(s.pending, 0, p), FilesDue(s.files, 1, p)),
         Plus(WorkersDue(s.workers, p), Plus(ChannelsDue(s, p), Credit(s.collected, p))))
  }

  lemma {:induction false} FilesDueAppend(fs: seq<File>, f: File, done: nat, p: Probe)
    requires done <= 2
    ensures FilesDue(fs + [f], done, p) == Plus(FilesDue(fs, done, p), FileDue(f, done, p))
  {
    if fs == [] {
      assert [f][1..] == [] && fs + [f] == [f];
    } else {
      assert (fs + [f])[1..] == fs[1..] + [f];
      FilesDueAppend(fs[1..], f, done, p);
    }
  }

  /** Replacing one worker changes the sum by the difference of the two. */
  lemma {:induction false} WorkersDueUpdate(ws: seq<Worker>, i: nat, w: Worker, p: Probe)
    requires i < |ws|
    ensures Plus(WorkersDue(ws[i := w], p), WorkerDue(ws[i], p)) == Plus(WorkersDue(ws, p), WorkerDue(w, p))
  {
    hide WorkerDue;
    if i == 0 {
      assert ws[0 := w][1..] == ws[1..];
    } else {
      assert ws[i := w][1..] == ws[1..][i - 1 := w];
      WorkersDueUpdate(ws[1..], i - 1, w, p);
    }
  }

  lemma SameChannels(s: Pool, n: Pool, p: Probe)
    requires n == s.(pending := n.pending, files := n.files, workers := n.workers, collected := n.collected)
    ensures ChannelsDue(n, p) == ChannelsDue(s, p)
  {
  }

  lemma FileMoves(f: File, done: nat, p: Probe)
    requires done < 2
    ensures FileDue(f, done, p) == Plus(FileDue(f, done + 1, p), ONE_STEP)
  {
  }

  lemma WalkConserves(s: Pool, p: Probe)
    requires s.pending != []
    ensures Held(s, p) == Plus(Held(s.(pending := s.pending[1..], files := s.files + [s.pending[0]]), p), ONE_STEP)
  {
    hide WorkersDue, FileDue, ChannelsDue, Credit;
    FileMoves(s.pending[0], 0, p);
    SameChannels(s, s.(pending := s.pending[1..], files := s.files + [s.pending[0]]), p);
    FilesDueAppend(s.files, s.pending[0], 1, p);
    assert FilesDue(s.pending, 0, p) == Plus(FileDue(s.pending[0], 0, p), FilesDue(s.pending[1..], 0, p));
  }

  lemma TakeConserves(s: Pool, w: nat, p: Probe)
    requires w < |s.workers| && s.workers[w].Waiting? && s.files != []
    ensures Held(s, p) == Plus(Held(With(s, w, Took(s.files[0])).(files := s.files[1..]), p), ONE_STEP)
  {
    hide WorkersDue, Count, FileDue, ChannelsDue, Credit;
    WorkersDueUpdate(s.workers, w, Took(s.files[0]), p);
    FileMoves(s.files[0], 1, p);
    var n := With(s, w, Took(s.files[0])).(files := s.files[1..]);
    SameChannels(s, n, p);
    assert FilesDue(s.files, 1, p) == Plus(FileDue(s.files[0], 1, p), FilesDue(n.files, 1, p));
  }

  /** Scanning credits the file and leaves its findings or its error with the worker. */
  lemma ScanMoves(file: File, c: Result, p: Probe)
    ensures Plus(WorkerDue(Took(file), p), Credit(c, p))
         == Plus(Plus(WorkerDue(AfterScan(file), p), Credit(CreditScan(c, file), p)), ONE_STEP)
  {
    hide Count;
    if file.failed {
      assert CreditScan(c, file) == c.(filesScanned := c.filesScanned + 1);
    } else {
      assert CreditScan(c, file) == c.(filesScanned := c.filesScanned + 1, bytesScanned := c.bytesScanned + file.size);
    }
  }

  lemma ScanConserves(s: Pool, w: nat, p: Probe)
    requires w < |s.workers| && s.workers[w].Took?
    ensures Held(s, p) == Plus(Held(Scanned(s, w), p), ONE_STEP)
  {
    hide WorkersDue, FilesDue, WorkerDue, ChannelsDue, Credit, AfterScan, CreditScan;
    var file := s.workers[w].file;
    WorkersDueUpdate(s.workers, w, AfterScan(file), p);
    SameChannels(s, Scanned(s, w), p);
    ScanMoves(file, s.collected, p);
  }

  lemma SendErrorConserves(s: Pool, w: nat, p: Probe)
    requires w < |s.workers| && s.workers[w].Reporting?
    ensures Held(s, p) == Plus(Held(With(s, w, Waiting).(errors := s.errors + [s.workers[w].path]), p), ONE_STEP)
  {
    hide WorkersDue, FilesDue, Count;
    WorkersDueUpdate(s.workers, w, Waiting, p);
    CountAppend(s.errors, s.workers[w].path, p.error);
  }

  lemma SendFindingConserves(s: Pool, w: nat, p: Probe)
    requires w < |s.workers| && s.workers[w].Sending? && s.workers[w].rest != []
    ensures var rest := s.workers[w].rest;
            Held(s, p) == Plus(Held(With(s, w, Sending(rest[1..])).(findings := s.findings + [rest[0]]), p), ONE_STEP)
  {
    hide WorkersDue, FilesDue, Count;
    var rest := s.workers[w].rest;
    WorkersDueUpdate(s.workers, w, Sending(rest[1..]), p);
    CountHead(rest, p.finding);
    CountAppend(s.findings, rest[0], p.finding);
  }

  lemma RestConserves(s: Pool, w: nat, worker: Worker, p: Probe)
    requires w < |s.workers|
    requires (s.workers[w] == Sending([]) && worker == Waiting) || (s.workers[w].Waiting? && worker == Exited)
    ensures Held(s, p) == Plus(Held(With(s, w, worker), p), ONE_STEP)
  {
    hide WorkersDue, FilesDue;
    WorkersDueUpdate(s.workers, w, worker, p);
  }

  lemma CollectFindingConserves(s: Pool, p: Probe)
    requires s.findings != []
    ensures var c := s.collected.(findings := s.collected.findings + [s.findings[0]]);
            Held(s, p) == Plus(Held(s.(findings := s.findings[1..], collected := c), p), ONE_STEP)
  {
    hide WorkersDue, FilesDue, Count;
    CountHead(s.findings, p.finding);
    CountAppend(s.collected.findings, s.findings[0], p.finding);
  }

  lemma CollectErrorConserves(s: Pool, p: Probe)
    requires s.errors != []
    ensures var c := s.collected.(errors := s.collected.errors + [s.errors[0]]);
            Held(s, p) == Plus(Held(s.(errors := s.errors[1..], collected := c), p), ONE_STEP)
  {
    hide WorkersDue, FilesDue, Count;
    CountHead(s.errors, p.error);
    CountAppend(s.collected.errors, s.errors[0], p.error);
  }

  lemma CloseConserves(s: Pool, step: Step, p: Probe)
    requires Enabled(s, step) && !WorkerStep(step)
    requires !step.WalkSend? && !step.CollectFinding? && !step.CollectError?
    ensures Held(s, p) == Plus(Held(Next(s, step), p), ONE_STEP)
  {
    hide WorkersDue, FilesDue, Count;
  }

  /** A panic flag owes nothing. */
  lemma PanicIsFree(s: Pool, panicked: bool, p: Probe)
    ensures Held(s.(panicked := panicked), p) == Held(s, p)
  {
  }

  lemma WorkerStepConserves(s: Pool, step: Step, p: Probe)
    requires Enabled(s, step) && WorkerStep(step)
    ensures Held(s, p) == Plus(Held(Next(s, step), p), ONE_STEP)
  {
    hide Held, Plus;
    PanicIsFree(Next(s, step), s.panicked, p);
    match step
    case Take(w) => TakeConserves(s, w, p);
    case Scan(w) => ScanConserves(s, w, p);
    case SendFinding(w) => SendFindingConserves(s, w, p);
    case SendError(w) => SendErrorConserves(s, w, p);
    case Finish(w) => RestConserves(s, w, Waiting, p);
    case Quit(w) => RestConserves(s, w, Exited, p);
  }

  /** Every step moves one thing along and loses none: the ledger keeps its contents, and the
      remaining steps drop by exactly one. */
  lemma StepConserves(s: Pool, step: Step, p: Probe)
    requires Enabled(s, step)
    ensures Held(s, p) == Plus(Held(Next(s, step), p), ONE_STEP)
  {
    hide Held, Plus;
    PanicIsFree(Next(s, step), s.panicked, p);
    if WorkerStep(step) {
      WorkerStepConserves(s, step, p);
    } else if step.WalkSend? {
      WalkConserves(s, p);
    } else if step.CollectFinding? {
      CollectFindingConserves(s, p);
    } else if step.CollectError? {
      CollectErrorConserves(s, p);
    } else {
      CloseConserves(s, step, p);
    }
  }
}

/** What reaches the fan-out: which events the dispatcher broadcasts, in which order, and as what message. */
module BusPublishing {
  import opened Prelude
  import opened EventBus

  predicate ScanEvent(name: string) {
    || name == "datasource.scan.started" || name == "datasource.scan.progress"
    || name == "datasource.scan.completed" || name == "datasource.scan.failed"
    || name == "scan.started" || name == "scan.progress" || name == "scan.completed" || name == "scan.failed"
    || name == "rot.scan.started" || name == "rot.scan.progress"
    || name == "rot.scan.completed" || name == "rot.scan.failed"
  }

  predicate WorkEvent(name: string) {
    || name == "job.started" || name == "job.completed" || name == "job.failed"
    || name == "classification.queued" || name == "classification.started" || name == "classification.progress"
    || name == "classification.completed" || name == "classification.failed"
  }

  predicate OtherEvent(name: string) {
    || name == "datasource.created" || name == "datasource.updated" || name == "datasource.deleted"
    || name == "compliance.assessment.completed" || name == "compliance.assessment.failed"
    || name == "document.extracted" || name == "document.extraction.failed"
    || name == "policy.violated" || name == "notification.created" || name == "report.completed"
  }

  /** The thirty events SSE clients are told about. */
  predicate Listed(name: string) {
    ScanEvent(name) || WorkEvent(name) || OtherEvent(name)
  }

  lemma ScanEvents(name: string)
    ensures name in SCAN_EVENTS <==> ScanEvent(name)
  {
  }

  lemma WorkEvents(name: string)
    ensures name in WORK_EVENTS <==> WorkEvent(name)
  {
  }

  lemma OtherEvents(name: string)
    ensures name in OTHER_EVENTS <==> OtherEvent(name)
  {
  }

  lemma ListedIffBroadcast(name: string)
    ensures name in BROADCAST <==> Listed(name)
  {
    ScanEvents(name);
    WorkEvents(name);
    OtherEvents(name);
    hide SCAN_EVENTS, WORK_EVENTS, OTHER_EVENTS, ScanEvent, WorkEvent, OtherEvent;
  }

  /** What one step broadcasts: a direct call its own message, the dispatcher a listed event as it was emitted. */
  function Published(b: Bus, step: Step): seq<Broadcast>
    requires Enabled(b, step)
  {
    match step
    case Send(x) => [x]
    case Dispatch =>
      var e := b.queue[0];
      if Listed(e.name) then [Broadcast(Message(e.name, e.data), e.tenant)] else []
    case _ => []
  }

  lemma StepPublishes(b: Bus, step: Step)
    requires Enabled(b, step)
    ensures Next(b, step).log == b.log + Published(b, step)
  {
    if step.Dispatch? {
      ListedIffBroadcast(b.queue[0].name);
      hide Listed;
    }
  }

  /** And to whom: every registered client of the tenant, or of any tenant when there is none, gets the message at
      the end of its buffer while that holds fewer than a hundred; nobody else's buffer changes. */
  lemma StepDelivers(b: Bus, step: Step, x: Broadcast, c: nat)
    requires Enabled(b, step) && (step.Dispatch? || step.Send?) && Published(b, step) == [x] && c < |b.clients|
    ensures var n := Next(b, step);
            && c < |n.clients|
            && n.clients[c].buffer ==
                 b.clients[c].buffer
                 + (if (exists id | id in b.registry :: b.registry[id] == c)
                       && (x.tenant == "" || x.tenant == b.clients[c].tenant) && |b.clients[c].buffer| < 100
                    then [x.message] else [])
  {
    if step.Dispatch? {
      ListedIffBroadcast(b.queue[0].name);
    }
    hide Listed, BROADCAST;
    assert (exists id | id in b.registry :: b.registry[id] == c) <==> c in b.registry.Values;
  }

  /** The queue takes an event while it holds fewer than a thousand. */
  lemma EmitQueues(b: Bus, e: Event)
    ensures Next(b, Emit(e)).queue == if |b.queue| < 1000 then b.queue + [e] else b.queue
    ensures Next(b, Emit(e)).clients == b.clients && Next(b, Emit(e)).log == b.log
  {
  }

  /** A new client starts with nothing and is found under its id. */
  lemma RegisterAdds(b: Bus, id: string, tenant: string)
    ensures var n := Next(b, Register(id, tenant));
            && |n.clients| == |b.clients| + 1 && id in n.registry && n.registry[id] == |b.clients|
            && var c := n.clients[|b.clients|];
               c.id == id && c.tenant == tenant && c.received == [] && c.buffer == [] && c.closes == 0
  {
  }

  // ---- over runs

  function AllPublished(states: seq<Bus>, steps: seq<Step>, n: nat): seq<Broadcast>
    requires Run(states, steps) && n <= |steps|
  {
    if n == 0 then [] else AllPublished(states, steps, n - 1) + Published(states[n - 1], steps[n - 1])
  }

  lemma {:induction false} LogIsPublished(states: seq<Bus>, steps: seq<Step>, n: nat)
    requires Run(states, steps) && n <= |steps|
    ensures states[n].log == AllPublished(states, steps, n)
  {
    hide Next, Enabled, Published;
    if n > 0 {
      LogIsPublished(states, steps, n - 1);
      StepPublishes(states[n - 1], steps[n - 1]);
    }
  }

  /** c consists of the elements of a and of b, each in its own order. */
  predicate Merge<T(==)>(a: seq<T>, b: seq<T>, c: seq<T>)
    decreases |c|
  {
    if c == [] then a == [] && b == []
    else
      var last, rest := c[|c| - 1], c[..|c| - 1];
      || (a != [] && a[|a| - 1] == last && Merge(a[..|a| - 1], b, rest))
      || (b != [] && b[|b| - 1] == last && Merge(a, b[..|b| - 1], rest))
  }

  lemma MergeLeft<T>(a: seq<T>, b: seq<T>, c: seq<T>, x: T)
    requires Merge(a, b, c)
    ensures Merge(a + [x], b, c + [x])
  {
    assert (a + [x])[..|a|] == a && (c + [x])[..|c|] == c;
  }

  lemma MergeRight<T>(a: seq<T>, b: seq<T>, c: seq<T>, x: T)
    requires Merge(a, b, c)
    ensures Merge(a, b + [x], c + [x])
  {
    assert (b + [x])[..|b|] == b && (c + [x])[..|c|] == c;
  }

  /** The direct calls of the first n steps. */
  function Sent(steps: seq<Step>, n: nat): seq<Broadcast>
    requires n <= |steps|
  {
    if n == 0 then []
    else Sent(steps, n - 1) + (if steps[n - 1].Send? then [steps[n - 1].broadcast] else [])
  }

  /** The broadcasts the listed ones among some events stand for. */
  function Announced(events: seq<Event>): seq<Broadcast> {
    if events == [] then []
    else
      var e := events[|events| - 1];
      Announced(events[..|events| - 1])
      + (if Listed(e.name) then [Broadcast(Message(e.name, e.data), e.tenant)] else [])
  }

  lemma DispatchedGrows(b: Bus, step: Step)
    requires Enabled(b, step)
    ensures Next(b, step).dispatched == b.dispatched + (if step.Dispatch? then [b.queue[0]] else [])
  {
  }

  lemma AnnouncedOneMore(events: seq<Event>, e: Event)
    ensures Announced(events + [e]) ==
              Announced(events) + (if Listed(e.name) then [Broadcast(Message(e.name, e.data), e.tenant)] else [])
  {
    hide Listed;
    assert (events + [e])[..|events|] == events;
  }

  /** Over every run the broadcast log is the direct calls and the listed dispatched events, each in order, and
      nothing else. */
  lemma {:induction false} LogIsMerge(states: seq<Bus>, steps: seq<Step>, n: nat)
    requires Run(states, steps) && n <= |steps|
    ensures Merge(Sent(steps, n), Announced(states[n].dispatched), states[n].log)
  {
    hide Next, Listed, Announced, Merge;
    if n == 0 {
      assert Merge<Broadcast>([], Announced([]), []) by { EmptyMerge(); }
    } else {
      var b, step := states[n - 1], steps[n - 1];
      LogIsMerge(states, steps, n - 1);
      StepPublishes(b, step);
      DispatchedGrows(b, step);
      var sent, told := Sent(steps, n - 1), Announced(b.dispatched);
      match step
      case Send(x) =>
        MergeLeft(sent, told, b.log, x);
        assert b.dispatched + [] == b.dispatched;
      case Dispatch =>
        var e := b.queue[0];
        AnnouncedOneMore(b.dispatched, e);
        assert sent + [] == sent;
        if Listed(e.name) {
          MergeRight(sent, told, b.log, Broadcast(Message(e.name, e.data), e.tenant));
        } else {
          assert told + [] == told && b.log + [] == b.log;
        }
      case _ =>
        assert sent + [] == sent && b.log + [] == b.log && b.dispatched + [] == b.dispatched;
    }
  }

  lemma EmptyMerge()
    ensures Merge<Broadcast>([], Announced([]), [])
  {
  }

  /** From emission to client: what a client has received and still buffers is an order-preserving part of the
      listed events dispatched and the direct calls made for it while it was registered, and all of them unless
      its buffer was full; the dispatched events are the emitted ones, in order, but for those dropped or still
      queued. */
  lemma ClientsSeeEmittedEvents(states: seq<Bus>, steps: seq<Step>, c: nat)
    requires Run(states, steps) && c < |states[|steps|].clients|
    ensures var b := states[|steps|];
            var client := b.clients[c];
            var log := AllPublished(states, steps, |steps|);
            && client.since <= End(b, client) <= |log|
            && Subsequence(client.received + client.buffer, Visible(log[client.since..End(b, client)], client.tenant))
            && (client.dropped == 0 ==>
                  client.received + client.buffer == Visible(log[client.since..End(b, client)], client.tenant))
            && Merge(Sent(steps, |steps|), Announced(b.dispatched), log)
            && Subsequence(b.dispatched + b.queue, b.emitted)
            && (b.dropped == 0 ==> b.emitted == b.dispatched + b.queue)
  {
    hide Next, Enabled, Visible, Subsequence, Merge, Announced, Sent, Published;
    LogIsPublished(states, steps, |steps|);
    LogIsMerge(states, steps, |steps|);
    ClientsSeeSubsequence(states, steps, c);
    EmittedSplits(states, steps);
  }
}

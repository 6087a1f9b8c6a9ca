/**
 The in-process event bus: a bounded queue that drops when full, and a fan-out to registered SSE
 clients whose bounded buffers drop when full. A client record is identified by its index, the
 way the source identifies it by pointer; an id may be registered again.
 */
module EventBus {
  import opened Prelude

  const QUEUE_CAPACITY: nat := 1000
  const BUFFER_CAPACITY: nat := 100

  // `tenant` is extractTenantID of the data, "" when there is none.
  datatype Event = Event(name: string, data: string, tenant: string)

  datatype Message = Message(event: string, data: string)

  datatype Broadcast = Broadcast(message: Message, tenant: string)

  datatype Client = Client(
    id: string, tenant: string,
    received: seq<Message>, buffer: seq<Message>,
    dropped: nat,               // history: messages lost to a full buffer
    since: nat,                 // history: length of the broadcast log at registration
    until: Option<nat>,         // history: and when it left the registry
    closes: nat)                // how often Done was closed

  datatype Bus = Bus(
    queue: seq<Event>,
    emitted: seq<Event>, accepted: seq<Event>, dropped: nat, dispatched: seq<Event>,  // histories
    log: seq<Broadcast>,                                                             // history
    clients: seq<Client>,
    registry: map<string, nat>)

  const SCAN_EVENTS: set<string> := {
    "datasource.scan.started", "datasource.scan.progress", "datasource.scan.completed", "datasource.scan.failed",
    "rot.scan.started", "rot.scan.progress", "rot.scan.completed", "rot.scan.failed",
    "scan.started", "scan.progress", "scan.completed", "scan.failed"}

  const WORK_EVENTS: set<string> := {
    "job.started", "job.completed", "job.failed",
    "classification.started", "classification.progress", "classification.completed", "classification.failed",
    "classification.queued"}

  const OTHER_EVENTS: set<string> := {
    "datasource.created", "datasource.updated", "datasource.deleted", "policy.violated", "notification.created",
    "compliance.assessment.completed", "compliance.assessment.failed", "report.completed", "document.extracted",
    "document.extraction.failed"}

  const BROADCAST: set<string> := SCAN_EVENTS + WORK_EVENTS + OTHER_EVENTS

  datatype Step =
    | Emit(event: Event)
    | Dispatch                                    // one iteration of Start's loop
    | Register(id: string, tenant: string)
    | Unregister(id: string)
    | Send(broadcast: Broadcast)                  // a direct BroadcastSSE call
    | Receive(client: nat)

  predicate Enabled(b: Bus, step: Step) {
    match step
    case Dispatch => b.queue != []
    case Receive(c) => c < |b.clients| && b.clients[c].buffer != []
    case _ => true
  }

  predicate Concerns(x: Broadcast, tenant: string) {
    x.tenant == "" || x.tenant == tenant
  }

  /** A non-blocking send into the client's buffer. */
  function Deliver(c: Client, m: Message): Client {
    if |c.buffer| < BUFFER_CAPACITY then c.(buffer := c.buffer + [m]) else c.(dropped := c.dropped + 1)
  }

  function Fanned(b: Bus, c: nat, x: Broadcast): Client
    requires c < |b.clients|
  {
    if c in b.registry.Values && Concerns(x, b.clients[c].tenant) then Deliver(b.clients[c], x.message)
    else b.clients[c]
  }

  function FanOut(b: Bus, x: Broadcast): Bus {
    b.(log := b.log + [x], clients := seq(|b.clients|, c requires 0 <= c < |b.clients| => Fanned(b, c, x)))
  }

  function Emitted(b: Bus, e: Event): Bus {
    if |b.queue| < QUEUE_CAPACITY
    then b.(queue := b.queue + [e], emitted := b.emitted + [e], accepted := b.accepted + [e])
    else b.(emitted := b.emitted + [e], dropped := b.dropped + 1)
  }

  function Dispatched(b: Bus): Bus
    requires b.queue != []
  {
    var e := b.queue[0];
    var taken := b.(queue := b.queue[1..], dispatched := b.dispatched + [e]);
    if e.name in BROADCAST then FanOut(taken, Broadcast(Message(e.name, e.data), e.tenant)) else taken
  }

  /** A client that is replaced under its id leaves the registry, but nobody closes its Done. */
  function Replaced(b: Bus, id: string): seq<Client> {
    if id in b.registry && b.registry[id] < |b.clients|
    then b.clients[b.registry[id] := b.clients[b.registry[id]].(until := Some(|b.log|))]
    else b.clients
  }

  function Registered(b: Bus, id: string, tenant: string): Bus {
    b.(clients := Replaced(b, id) + [Client(id, tenant, [], [], 0, |b.log|, None, 0)],
       registry := b.registry[id := |b.clients|])
  }

  function Unregistered(b: Bus, id: string): Bus {
    if id in b.registry && b.registry[id] < |b.clients|
    then
      var c := b.registry[id];
      b.(clients := b.clients[c := b.clients[c].(closes := b.clients[c].closes + 1, until := Some(|b.log|))],
         registry := b.registry - {id})
    else b
  }

  function Received(b: Bus, c: nat): Bus
    requires c < |b.clients| && b.clients[c].buffer != []
  {
    var client := b.clients[c];
    b.(clients := b.clients[c := client.(received := client.received + [client.buffer[0]],
                                         buffer := client.buffer[1..])])
  }

  function Next(b: Bus, step: Step): Bus
    requires Enabled(b, step)
  {
    match step
    case Emit(e) => Emitted(b, e)
    case Dispatch => Dispatched(b)
    case Register(id, tenant) => Registered(b, id, tenant)
    case Unregister(id) => Unregistered(b, id)
    case Send(x) => FanOut(b, x)
    case Receive(c) => Received(b, c)
  }

  const START := Bus([], [], [], 0, [], [], [], map[])

  predicate Run(states: seq<Bus>, steps: seq<Step>) {
    && |states| == |steps| + 1
    && states[0] == START
    && forall i | 0 <= i < |steps| :: Enabled(states[i], steps[i]) && states[i + 1] == Next(states[i], steps[i])
  }

  // ---- subsequences

  /** a is what remains of b after leaving out some positions. */
  predicate Subsequence<T(==)>(a: seq<T>, b: seq<T>) {
    if a == [] then true
    else if b == [] then false
    else
      || (a[|a| - 1] == b[|b| - 1] && Subsequence(a[..|a| - 1], b[..|b| - 1]))
      || Subsequence(a, b[..|b| - 1])
  }

  lemma SubsequenceAppendBoth<T>(a: seq<T>, b: seq<T>, x: T)
    requires Subsequence(a, b)
    ensures Subsequence(a + [x], b + [x])
  {
    assert (a + [x])[..|a|] == a && (b + [x])[..|b|] == b;
  }

  lemma SubsequenceAppend<T>(a: seq<T>, b: seq<T>, x: T)
    requires Subsequence(a, b)
    ensures Subsequence(a, b + [x])
  {
    assert (b + [x])[..|b|] == b;
  }

  lemma {:induction false} SubsequenceLength<T>(a: seq<T>, b: seq<T>)
    requires Subsequence(a, b)
    ensures |a| <= |b| && (|a| == |b| ==> a == b)
    decreases |b|
  {
    if a != [] {
      var s, t := a[..|a| - 1], b[..|b| - 1];
      if a[|a| - 1] == b[|b| - 1] && Subsequence(s, t) {
        SubsequenceLength(s, t);
        assert a == s + [a[|a| - 1]] && b == t + [b[|b| - 1]];
      } else {
        SubsequenceLength(a, t);
      }
    }
  }

  // ---- the invariant

  /** The messages of a stretch of the log that a client of the tenant may see. */
  function Visible(log: seq<Broadcast>, tenant: string): seq<Message> {
    if log == [] then []
    else
      var x := log[|log| - 1];
      Visible(log[..|log| - 1], tenant) + (if Concerns(x, tenant) then [x.message] else [])
  }

  function End(b: Bus, c: Client): nat {
    if c.until.Some? then c.until.value else |b.log|
  }

  function Owed(b: Bus, c: Client): seq<Message>
    requires c.since <= End(b, c) <= |b.log|
  {
    Visible(b.log[c.since..End(b, c)], c.tenant)
  }

  /** Received and buffered messages are an order-preserving part of what was broadcast for the
      client while it was registered; what is missing was dropped. */
  predicate ClientOk(b: Bus, c: Client) {
    && c.since <= End(b, c) <= |b.log|
    && |c.buffer| <= BUFFER_CAPACITY
    && Subsequence(c.received + c.buffer, Owed(b, c))
    && |c.received + c.buffer| + c.dropped == |Owed(b, c)|
    && c.closes <= (if c.until.Some? then 1 else 0)
  }

  predicate RegistryOk(b: Bus) {
    forall id | id in b.registry ::
      && b.registry[id] < |b.clients|
      && b.clients[b.registry[id]].id == id
      && b.clients[b.registry[id]].until.None?
  }

  predicate ClientsOk(b: Bus) {
    && RegistryOk(b)
    && (forall c | 0 <= c < |b.clients| :: ClientOk(b, b.clients[c]))
    && forall c: nat | c < |b.clients| && b.clients[c].until.None? :: c in b.registry.Values
  }

  predicate QueueOk(b: Bus) {
    && |b.queue| <= QUEUE_CAPACITY
    && b.accepted == b.dispatched + b.queue
    && Subsequence(b.accepted, b.emitted)
    && |b.emitted| == |b.accepted| + b.dropped
  }

  lemma QueueStep(b: Bus, step: Step)
    requires Enabled(b, step) && QueueOk(b)
    ensures QueueOk(Next(b, step))
  {
    match step
    case Emit(e) =>
      SubsequenceAppendBoth(b.accepted, b.emitted, e);
      SubsequenceAppend(b.accepted, b.emitted, e);
    case Dispatch =>
      assert b.queue == [b.queue[0]] + b.queue[1..];
      SnocCons(b.dispatched, b.queue[0], b.queue[1..]);
    case _ =>
  }

  /** A further broadcast extends what an open client is owed by at most that message. */
  lemma OwedGrows(b: Bus, c: Client, x: Broadcast)
    requires c.since <= |b.log| && c.until.None?
    ensures Owed(FanOut(b, x), c) == Owed(b, c) + (if Concerns(x, c.tenant) then [x.message] else [])
  {
    var was := b.log[c.since..|b.log|];
    assert (b.log + [x])[c.since..|b.log| + 1] == was + [x];
    assert (was + [x])[..|was|] == was;
  }

  lemma OwedStays(b: Bus, n: Bus, c: Client)
    requires c.since <= End(b, c) <= |b.log| && c.until.Some?
    requires |b.log| <= |n.log| && n.log[..|b.log|] == b.log
    ensures Owed(n, c) == Owed(b, c)
  {
    hide Visible;
    assert n.log[c.since..c.until.value] == n.log[..|b.log|][c.since..c.until.value];
  }

  lemma DeliverKeepsOk(b: Bus, c: Client, x: Broadcast)
    requires ClientOk(b, c) && c.until.None?
    ensures ClientOk(FanOut(b, x), if Concerns(x, c.tenant) then Deliver(c, x.message) else c)
  {
    OwedGrows(b, c, x);
    hide Visible, Owed;
    var had := c.received + c.buffer;
    if Concerns(x, c.tenant) {
      assert c.received + (c.buffer + [x.message]) == had + [x.message];
      SubsequenceAppendBoth(had, Owed(b, c), x.message);
      SubsequenceAppend(had, Owed(b, c), x.message);
      assert Owed(FanOut(b, x), Deliver(c, x.message)) == Owed(FanOut(b, x), c) by {
        SameOwed(FanOut(b, x), c, Deliver(c, x.message));
      }
    } else {
      assert Owed(b, c) + [] == Owed(b, c);
    }
  }

  lemma SameOwed(b: Bus, c: Client, d: Client)
    requires c.since == d.since && c.until == d.until && c.tenant == d.tenant
    requires c.since <= End(b, c) <= |b.log|
    ensures Owed(b, c) == Owed(b, d)
  {
  }

  lemma ClientAfterBroadcast(b: Bus, c: nat, x: Broadcast)
    requires ClientsOk(b) && c < |b.clients|
    ensures ClientOk(FanOut(b, x), Fanned(b, c, x))
  {
    var client := b.clients[c];
    assert ClientOk(b, client);
    if client.until.None? {
      DeliverKeepsOk(b, client, x);
    } else {
      OwedStays(b, FanOut(b, x), client);
      assert c !in b.registry.Values;
    }
  }

  lemma BroadcastKeepsClients(b: Bus, x: Broadcast)
    requires ClientsOk(b)
    ensures ClientsOk(FanOut(b, x))
  {
    forall c: nat | c < |b.clients| ensures ClientOk(FanOut(b, x), FanOut(b, x).clients[c]) {
      ClientAfterBroadcast(b, c, x);
    }
  }

  lemma ReplacedStaysOk(b: Bus, n: Bus, id: string, c: nat)
    requires ClientsOk(b) && c < |b.clients| && n.log == b.log
    ensures c < |Replaced(b, id)| && ClientOk(n, Replaced(b, id)[c])
  {
    assert ClientOk(b, b.clients[c]);
  }

  lemma RegisteredStayOk(b: Bus, id: string, tenant: string)
    requires ClientsOk(b)
    ensures var n := Registered(b, id, tenant);
            forall c | 0 <= c < |n.clients| :: ClientOk(n, n.clients[c])
  {
    var n := Registered(b, id, tenant);
    forall c: nat | c < |n.clients| ensures ClientOk(n, n.clients[c]) {
      if c < |b.clients| {
        ReplacedStaysOk(b, n, id, c);
        assert n.clients[c] == Replaced(b, id)[c];
      } else {
        assert n.log[|n.log|..|n.log|] == [];
      }
    }
  }

  lemma OpenStayRegistered(b: Bus, id: string, tenant: string, c: nat)
    requires ClientsOk(b)
    requires var n := Registered(b, id, tenant); c < |n.clients| && n.clients[c].until.None?
    ensures c in Registered(b, id, tenant).registry.Values
  {
    hide ClientOk;
    var n := Registered(b, id, tenant);
    if c == |b.clients| {
      assert n.registry[id] == c;
    } else {
      assert b.clients[c].until.None?;
      var other :| other in b.registry && b.registry[other] == c;
      assert n.registry[other] == c;
    }
  }

  lemma RegisterKeepsClients(b: Bus, id: string, tenant: string)
    requires ClientsOk(b)
    ensures ClientsOk(Registered(b, id, tenant))
  {
    hide ClientOk;
    var n := Registered(b, id, tenant);
    RegisteredStayOk(b, id, tenant);
    forall c: nat | c < |n.clients| && n.clients[c].until.None? ensures c in n.registry.Values {
      OpenStayRegistered(b, id, tenant, c);
    }
    assert RegistryOk(n);
  }

  lemma UnregisterKeepsClients(b: Bus, id: string)
    requires ClientsOk(b)
    ensures ClientsOk(Unregistered(b, id))
  {
    var n := Unregistered(b, id);
    forall c: nat | c < |n.clients| ensures ClientOk(n, n.clients[c]) {
      assert ClientOk(b, b.clients[c]);
    }
    forall c: nat | c < |n.clients| && n.clients[c].until.None? ensures c in n.registry.Values {
      var other :| other in b.registry && b.registry[other] == c;
      assert n.registry[other] == c;
    }
  }

  lemma ReceiveKeepsClients(b: Bus, c: nat)
    requires ClientsOk(b) && c < |b.clients| && b.clients[c].buffer != []
    ensures ClientsOk(Received(b, c))
  {
    var n := Received(b, c);
    var client := b.clients[c];
    assert client.buffer == [client.buffer[0]] + client.buffer[1..];
    SnocCons(client.received, client.buffer[0], client.buffer[1..]);
    forall d: nat | d < |n.clients| ensures ClientOk(n, n.clients[d]) {
      assert ClientOk(b, b.clients[d]);
    }
    forall d: nat | d < |n.clients| && n.clients[d].until.None? ensures d in n.registry.Values {
      assert b.clients[d].until.None?;
    }
  }

  lemma ClientsIgnoreQueue(b: Bus, n: Bus)
    requires ClientsOk(b) && n.log == b.log && n.clients == b.clients && n.registry == b.registry
    ensures ClientsOk(n)
  {
    forall c: nat | c < |n.clients| ensures ClientOk(n, n.clients[c]) {
      assert ClientOk(b, b.clients[c]);
    }
  }

  lemma ClientsStep(b: Bus, step: Step)
    requires Enabled(b, step) && ClientsOk(b)
    ensures ClientsOk(Next(b, step))
  {
    match step
    case Emit(e) => ClientsIgnoreQueue(b, Emitted(b, e));
    case Dispatch =>
      var e := b.queue[0];
      var taken := b.(queue := b.queue[1..], dispatched := b.dispatched + [e]);
      ClientsIgnoreQueue(b, taken);
      BroadcastKeepsClients(taken, Broadcast(Message(e.name, e.data), e.tenant));
    case Register(id, tenant) => RegisterKeepsClients(b, id, tenant);
    case Unregister(id) => UnregisterKeepsClients(b, id);
    case Send(x) => BroadcastKeepsClients(b, x);
    case Receive(c) => ReceiveKeepsClients(b, c);
  }

  // ---- whole runs

  lemma {:induction false} RunsAreOk(states: seq<Bus>, steps: seq<Step>)
    requires Run(states, steps)
    ensures QueueOk(states[|steps|]) && ClientsOk(states[|steps|])
    decreases |steps|
  {
    hide Next, Enabled, QueueOk, ClientsOk;
    var n := |steps|;
    if n == 0 {
      StartIsOk();
    } else {
      assert Run(states[..n], steps[..n - 1]);
      RunsAreOk(states[..n], steps[..n - 1]);
      assert states[..n][n - 1] == states[n - 1];
      QueueStep(states[n - 1], steps[n - 1]);
      ClientsStep(states[n - 1], steps[n - 1]);
    }
  }

  lemma StartIsOk()
    ensures QueueOk(START) && ClientsOk(START)
  {
  }

  /** Emitted events split exactly into dispatched, queued and dropped ones, in order. */
  lemma EmittedSplits(states: seq<Bus>, steps: seq<Step>)
    requires Run(states, steps)
    ensures var b := states[|steps|];
            && Subsequence(b.dispatched + b.queue, b.emitted)
            && |b.emitted| == |b.dispatched| + |b.queue| + b.dropped
            && |b.queue| <= QUEUE_CAPACITY
            && (b.dropped == 0 ==> b.emitted == b.dispatched + b.queue)
  {
    RunsAreOk(states, steps);
    SubsequenceLength(states[|steps|].accepted, states[|steps|].emitted);
  }

  /** What a client received plus what sits in its buffer is an order-preserving subsequence, without
      duplicates, of the broadcasts for it while it was registered; the rest was dropped, and
      without drops nothing is missing. */
  lemma ClientsSeeSubsequence(states: seq<Bus>, steps: seq<Step>, c: nat)
    requires Run(states, steps) && c < |states[|steps|].clients|
    ensures var b := states[|steps|];
            var client := b.clients[c];
            && client.since <= End(b, client) <= |b.log|
            && Subsequence(client.received + client.buffer, Owed(b, client))
            && |client.received + client.buffer| + client.dropped == |Owed(b, client)|
            && (client.dropped == 0 ==> client.received + client.buffer == Owed(b, client))
  {
    RunsAreOk(states, steps);
    var b := states[|steps|];
    assert ClientOk(b, b.clients[c]);
    SubsequenceLength(b.clients[c].received + b.clients[c].buffer, Owed(b, b.clients[c]));
  }

  /** A client is owed exactly the messages of broadcasts without a tenant or with its own. */
  lemma {:induction false} VisibleMeansConcerned(log: seq<Broadcast>, tenant: string, m: Message)
    ensures m in Visible(log, tenant) <==>
              exists x | x in log :: x.message == m && (x.tenant == "" || x.tenant == tenant)
  {
    if log != [] {
      VisibleMeansConcerned(log[..|log| - 1], tenant, m);
      assert log == log[..|log| - 1] + [log[|log| - 1]];
    }
  }

  /** An event is dropped exactly when it is emitted into a full queue, a message exactly when it
      is meant for a registered client whose buffer is full. */
  lemma DropsOnlyWhenFull(states: seq<Bus>, steps: seq<Step>, step: Step, c: nat)
    requires Run(states, steps) && Enabled(states[|steps|], step) && c < |states[|steps|].clients|
    ensures var b := states[|steps|];
            var n := Next(b, step);
            && (n.dropped > b.dropped <==> step.Emit? && |b.queue| == QUEUE_CAPACITY)
            && c < |n.clients|
            && (n.clients[c].dropped > b.clients[c].dropped <==>
                  && |n.log| > |b.log|
                  && c in b.registry.Values
                  && Concerns(n.log[|b.log|], b.clients[c].tenant)
                  && |b.clients[c].buffer| == BUFFER_CAPACITY)
  {
    RunsAreOk(states, steps);
    assert ClientOk(states[|steps|], states[|steps|].clients[c]);
    DropStep(states[|steps|], step, c);
  }

  lemma DropStep(b: Bus, step: Step, c: nat)
    requires Enabled(b, step) && RegistryOk(b) && c < |b.clients|
    requires |b.queue| <= QUEUE_CAPACITY && |b.clients[c].buffer| <= BUFFER_CAPACITY
    ensures var n := Next(b, step);
            && (n.dropped > b.dropped <==> step.Emit? && |b.queue| == QUEUE_CAPACITY)
            && c < |n.clients|
            && (n.clients[c].dropped > b.clients[c].dropped <==>
                  && |n.log| > |b.log|
                  && c in b.registry.Values
                  && Concerns(n.log[|b.log|], b.clients[c].tenant)
                  && |b.clients[c].buffer| == BUFFER_CAPACITY)
  {
  }

  /** Done is closed at most once, and only when the client has left the registry. */
  lemma DoneClosesAtMostOnce(states: seq<Bus>, steps: seq<Step>, c: nat)
    requires Run(states, steps) && c < |states[|steps|].clients|
    ensures var client := states[|steps|].clients[c];
            client.closes <= 1 && (client.closes == 1 ==> client.until.Some?)
  {
    RunsAreOk(states, steps);
    assert ClientOk(states[|steps|], states[|steps|].clients[c]);
  }

  lemma GoneStep(b: Bus, step: Step, c: nat)
    requires Enabled(b, step) && ClientsOk(b) && c < |b.clients| && b.clients[c].until.Some?
    ensures var n := Next(b, step);
            c < |n.clients| && n.clients[c].until.Some? && n.clients[c].closes == b.clients[c].closes
  {
    hide ClientOk;
    assert c !in b.registry.Values;
  }

  /** The step removes client c from the registry by its id. */
  predicate Unregisters(b: Bus, step: Step, c: nat) {
    step.Unregister? && step.id in b.registry && b.registry[step.id] == c
  }

  lemma CloseStep(b: Bus, step: Step, c: nat)
    requires Enabled(b, step) && ClientsOk(b) && c < |Next(b, step).clients|
    ensures var was := if c < |b.clients| then b.clients[c].closes else 0;
            Next(b, step).clients[c].closes == was + (if Unregisters(b, step, c) then 1 else 0)
  {
    hide ClientOk;
  }

  predicate UnregisteredIn(states: seq<Bus>, steps: seq<Step>, c: nat)
    requires |states| == |steps| + 1
  {
    exists i | 0 <= i < |steps| :: Unregisters(states[i], steps[i], c)
  }

  /** Done is closed exactly when the client was unregistered; a client replaced under its id is not. */
  lemma {:induction false} ClosedIffUnregistered(states: seq<Bus>, steps: seq<Step>, c: nat)
    requires Run(states, steps) && c < |states[|steps|].clients|
    ensures states[|steps|].clients[c].closes == (if UnregisteredIn(states, steps, c) then 1 else 0)
    decreases |steps|
  {
    hide Next, Enabled, ClientsOk, Unregisters;
    var n := |steps|;
    if n > 0 {
      var was, before := states[..n], steps[..n - 1];
      assert Run(was, before);
      RunsAreOk(was, before);
      assert was[n - 1] == states[n - 1];
      CloseStep(states[n - 1], steps[n - 1], c);
      DoneClosesAtMostOnce(states, steps, c);
      if c < |states[n - 1].clients| {
        ClosedIffUnregistered(was, before, c);
      } else {
        NewClientIsFresh(was, before, c);
      }
      assert UnregisteredIn(states, steps, c) <==> UnregisteredIn(was, before, c) || Unregisters(states[n - 1], steps[n - 1], c) by {
        forall i | 0 <= i < n - 1 ensures was[i] == states[i] && before[i] == steps[i] {}
      }
    }
  }

  lemma ClientsGrow(b: Bus, step: Step)
    requires Enabled(b, step)
    ensures |b.clients| <= |Next(b, step).clients|
  {
  }

  lemma {:induction false} NewClientIsFresh(states: seq<Bus>, steps: seq<Step>, c: nat)
    requires Run(states, steps) && c >= |states[|steps|].clients|
    ensures !UnregisteredIn(states, steps, c)
    decreases |steps|
  {
    hide Next, Enabled, ClientsOk, QueueOk;
    var n := |steps|;
    if n > 0 {
      var was, before := states[..n], steps[..n - 1];
      assert Run(was, before);
      RunsAreOk(was, before);
      assert was[n - 1] == states[n - 1];
      ClientsGrow(states[n - 1], steps[n - 1]);
      NewClientIsFresh(was, before, c);
      RegisteredIsKnown(states[n - 1]);
      forall i | 0 <= i < n ensures !Unregisters(states[i], steps[i], c) {
        if i < n - 1 { assert !Unregisters(was[i], before[i], c); }
      }
    }
  }

  lemma RegisteredIsKnown(b: Bus)
    requires ClientsOk(b)
    ensures forall id | id in b.registry :: b.registry[id] < |b.clients|
  {
  }

  /** A client whose id is registered again leaves the registry without a close, and no later step of any run
      closes its Done. The HTTP handler draws a fresh id for every connection; registering an id again is an
      input of this package's interface. */
  lemma {:induction false} ReplacedClientIsNeverClosed(states: seq<Bus>, steps: seq<Step>, from: nat, id: string)
    requires Run(states, steps) && from < |steps|
    requires steps[from].Register? && steps[from].id == id && id in states[from].registry
    ensures var c := states[from].registry[id];
            && c < |states[|steps|].clients|
            && states[|steps|].clients[c].until.Some? && states[|steps|].clients[c].closes == 0
    decreases |steps|
  {
    hide Next, Enabled, ClientsOk;
    var n := |steps|;
    var c := states[from].registry[id];
    assert Run(states[..n], steps[..n - 1]);
    RunsAreOk(states[..n], steps[..n - 1]);
    assert states[..n][n - 1] == states[n - 1];
    if from == n - 1 {
      ReplacedLeavesOpen(states[from], id, steps[from].tenant);
      assert states[n] == Next(states[from], steps[from]);
      RegisterIsRegistered(states[from], steps[from]);
    } else {
      ReplacedClientIsNeverClosed(states[..n], steps[..n - 1], from, id);
      GoneStep(states[n - 1], steps[n - 1], c);
    }
  }

  lemma RegisterIsRegistered(b: Bus, step: Step)
    requires step.Register?
    ensures Enabled(b, step) && Next(b, step) == Registered(b, step.id, step.tenant)
  {
  }

  lemma ReplacedLeavesOpen(b: Bus, id: string, tenant: string)
    requires ClientsOk(b) && id in b.registry
    ensures var c := b.registry[id];
            var n := Registered(b, id, tenant);
            c < |n.clients| && n.clients[c].until.Some? && n.clients[c].closes == 0
  {
    assert ClientOk(b, b.clients[b.registry[id]]);
  }
}

/** The bus as the source writes it: package state changed in place, and the fan-out as a loop. */
module EventBusClass {
  import opened Prelude
  import opened EventBus

  class Hub {
    var queue: seq<Event>
    var clients: seq<Client>
    var registry: map<string, nat>
    // Histories; nothing below branches on them.
    var emitted: seq<Event>
    var accepted: seq<Event>
    var dropped: nat
    var dispatched: seq<Event>
    var log: seq<Broadcast>

    ghost function Contents(): Bus
      reads this
    {
      Bus(queue, emitted, accepted, dropped, dispatched, log, clients, registry)
    }

    ghost predicate Valid()
      reads this
    {
      QueueOk(Contents()) && ClientsOk(Contents())
    }

    constructor ()
      ensures Valid() && Contents() == START
    {
      queue, clients, registry := [], [], map[];
      emitted, accepted, dropped, dispatched, log := [], [], 0, [], [];
    }

    method EmitEvent(e: Event)
      requires Valid()
      modifies this
      ensures Valid() && Contents() == Emitted(old(Contents()), e)
    {
      ghost var next := Emitted(Contents(), e);
      KeptByEmit(Contents(), e);
      hide ClientsOk, QueueOk, ClientOk;
      emitted := emitted + [e];
      if |queue| < QUEUE_CAPACITY {
        queue := queue + [e];
        accepted := accepted + [e];
      } else {
        dropped := dropped + 1;
      }
      assert Contents() == next;
    }

    /** Returns the handle of the new client. */
    method RegisterSSEClient(id: string, tenant: string) returns (client: nat)
      requires Valid()
      modifies this
      ensures Valid() && Contents() == Registered(old(Contents()), id, tenant)
      ensures client == |old(clients)| && client < |clients| && clients[client].id == id
    {
      ghost var next := Registered(Contents(), id, tenant);
      KeptByRegister(Contents(), id, tenant);
      hide ClientsOk, QueueOk, ClientOk;
      if id in registry {
        // Only the history notices that the old client is gone.
        var old_ := registry[id];
        clients := clients[old_ := clients[old_].(until := Some(|log|))];
      }
      assert clients == Replaced(old(Contents()), id);
      client := |clients|;
      clients := clients + [Client(id, tenant, [], [], 0, |log|, None, 0)];
      registry := registry[id := client];
      assert Contents() == next;
    }

    method UnregisterSSEClient(id: string)
      requires Valid()
      modifies this
      ensures Valid() && Contents() == Unregistered(old(Contents()), id)
    {
      ghost var next := Unregistered(Contents(), id);
      KeptByUnregister(Contents(), id);
      hide ClientsOk, QueueOk, ClientOk;
      if id in registry {
        var c := registry[id];
        clients := clients[c := clients[c].(closes := clients[c].closes + 1, until := Some(|log|))];
        registry := registry - {id};
      }
      assert Contents() == next;
    }

    /** The non-blocking send to one client. */
    method Offer(c: nat, m: Message)
      requires c < |clients|
      modifies this`clients
      ensures clients == old(clients)[c := Deliver(old(clients)[c], m)]
    {
      if |clients[c].buffer| < BUFFER_CAPACITY {
        clients := clients[c := clients[c].(buffer := clients[c].buffer + [m])];
      } else {
        clients := clients[c := clients[c].(dropped := clients[c].dropped + 1)];
      }
    }

    /** The registered clients are visited in no particular order; each is offered the message once. */
    method BroadcastSSE(m: Message, tenant: string)
      requires Valid()
      modifies this
      ensures Valid() && Contents() == FanOut(old(Contents()), Broadcast(m, tenant))
    {
      ghost var before := Contents();
      var x := Broadcast(m, tenant);
      KeptByBroadcast(before, x);
      FanOutStarts(before, x);
      var remaining := registry.Keys;
      hide ClientsOk, QueueOk, ClientOk, RegistryOk, FanOut, Fanned, Deliver, Progress;
      while remaining != {}
        invariant remaining <= registry.Keys
        invariant Progress(before, x, remaining, clients)
        modifies this`clients
        decreases remaining
      {
        var id :| id in remaining;
        var c := registry[id];
        FanOutContinues(before, x, remaining, clients, id);
        if tenant == "" || clients[c].tenant == tenant {
          Offer(c, m);
        } else {
          assert clients == clients[c := clients[c]];
        }
        remaining := remaining - {id};
      }
      FanOutEnds(before, x, clients);
      log := log + [x];
    }

    /** One iteration of Start's loop, when an event is queued. */
    method DispatchOne()
      requires Valid() && queue != []
      modifies this
      ensures Valid() && Contents() == Dispatched(old(Contents()))
    {
      var e := queue[0];
      ghost var taken := Contents().(queue := queue[1..], dispatched := dispatched + [e]);
      KeptByTaking(Contents());
      hide ClientsOk, QueueOk, ClientOk;
      queue := queue[1..];
      dispatched := dispatched + [e];
      assert Contents() == taken;
      if e.name in BROADCAST {
        BroadcastSSE(Message(e.name, e.data), e.tenant);
      }
    }
  }

  lemma KeptByEmit(b: Bus, e: Event)
    requires QueueOk(b) && ClientsOk(b)
    ensures QueueOk(Emitted(b, e)) && ClientsOk(Emitted(b, e))
  {
    QueueStep(b, Emit(e));
    hide QueueOk;
    ClientsStep(b, Emit(e));
  }

  lemma KeptByRegister(b: Bus, id: string, tenant: string)
    requires QueueOk(b) && ClientsOk(b)
    ensures RegistryOk(b) && QueueOk(Registered(b, id, tenant)) && ClientsOk(Registered(b, id, tenant))
  {
    RegisterKeepsClients(b, id, tenant);
  }

  lemma KeptByTaking(b: Bus)
    requires QueueOk(b) && ClientsOk(b) && b.queue != []
    ensures var taken := b.(queue := b.queue[1..], dispatched := b.dispatched + [b.queue[0]]);
            QueueOk(taken) && ClientsOk(taken)
  {
    SnocCons(b.dispatched, b.queue[0], b.queue[1..]);
    assert b.queue == [b.queue[0]] + b.queue[1..];
    ClientsIgnoreQueue(b, b.(queue := b.queue[1..], dispatched := b.dispatched + [b.queue[0]]));
  }

  lemma KeptByUnregister(b: Bus, id: string)
    requires QueueOk(b) && ClientsOk(b)
    ensures RegistryOk(b) && QueueOk(Unregistered(b, id)) && ClientsOk(Unregistered(b, id))
  {
    UnregisterKeepsClients(b, id);
  }

  lemma KeptByBroadcast(b: Bus, x: Broadcast)
    requires QueueOk(b) && ClientsOk(b)
    ensures RegistryOk(b) && QueueOk(FanOut(b, x)) && ClientsOk(FanOut(b, x))
  {
    BroadcastKeepsClients(b, x);
  }

  /** Client c has had its turn when its id is no longer among the remaining ones. */
  ghost predicate Visited(b: Bus, remaining: set<string>, c: nat) {
    exists id | id in b.registry :: b.registry[id] == c && id !in remaining
  }

  /** The clients whose ids remain still are as they were, the others have been offered x once. */
  ghost predicate Progress(b: Bus, x: Broadcast, remaining: set<string>, clients: seq<Client>) {
    && |clients| == |b.clients|
    && forall c: nat | c < |clients| ::
         clients[c] == if Visited(b, remaining, c) then Fanned(b, c, x) else b.clients[c]
  }

  lemma FanOutStarts(b: Bus, x: Broadcast)
    ensures Progress(b, x, b.registry.Keys, b.clients)
  {
  }

  /** No two ids share a client, so the one in turn has not been visited. */
  lemma FanOutContinues(b: Bus, x: Broadcast, remaining: set<string>, clients: seq<Client>, id: string)
    requires ClientsOk(b) && Progress(b, x, remaining, clients)
    requires id in remaining && remaining <= b.registry.Keys
    ensures var c := b.registry[id];
            && c < |clients|
            && Progress(b, x, remaining - {id},
                 clients[c := if Concerns(x, clients[c].tenant) then Deliver(clients[c], x.message) else clients[c]])
  {
    hide ClientOk;
    forall other | other in b.registry && b.registry[other] == b.registry[id] ensures other == id {
      assert b.clients[b.registry[other]].id == other;
    }
    assert !Visited(b, remaining, b.registry[id]);
    forall c: nat | c < |clients|
      ensures Visited(b, remaining - {id}, c) <==> Visited(b, remaining, c) || c == b.registry[id]
    {
    }
  }

  lemma FanOutEnds(b: Bus, x: Broadcast, clients: seq<Client>)
    requires Progress(b, x, {}, clients)
    ensures FanOut(b, x) == b.(log := b.log + [x], clients := clients)
  {
    forall c: nat | c < |clients| ensures clients[c] == Fanned(b, c, x) {
      assert Visited(b, {}, c) <==> c in b.registry.Values;
    }
    assert clients == FanOut(b, x).clients;
  }
}

/** The events service as the object it is: four maps keyed by organization over one transport. */
module EventsServiceModule {
  import opened Wrappers
  import opened EventsProtocol
  import opened RedisPubSubTransport
  import F = EventsFanout

  type OrgId = F.OrgId

  datatype Desk = Desk(
    subject: bool,
    refCount: Option<nat>,
    lastGeneration: nat,
    state: Option<TransportState>,
    observers: nat,
    timers: map<nat, nat>,
    timersIssued: nat)
  {
    ghost function Join(link: Link): Slice {
      Slice(subject, refCount, lastGeneration, state, observers, timers, timersIssued, link)
    }
  }

  class EventsService {
    const transport: RedisPubSubEventsTransport
    var subjects: set<OrgId>
    var refCounts: map<OrgId, nat>
    var transportGenerations: map<OrgId, nat>
    var transportStates: map<OrgId, TransportState>
    var timers: map<OrgId, map<nat, nat>>        // armed in the event loop: timer to delay
    var timersIssued: map<OrgId, nat>
    ghost var observers: map<OrgId, nat>         // observables that have not run `finalize` yet
    ghost var published: seq<(OrgId, F.Event)>   // every `subject.next`

    /** The service's own entries for one organization. */
    ghost function DeskOf(o: OrgId): Desk
      reads this
    {
      Desk(o in subjects,
           if o in refCounts then Some(refCounts[o]) else None,
           if o in transportGenerations then transportGenerations[o] else 0,
           if o in transportStates then Some(transportStates[o]) else None,
           if o in observers then observers[o] else 0,
           if o in timers then timers[o] else map[],
           if o in timersIssued then timersIssued[o] else 0)
    }

    ghost function SliceOf(o: OrgId): Slice
      reads this, transport
    {
      DeskOf(o).Join(transport.LinkOf(o))
    }

    twostate predicate DeskKept(o: OrgId)
      reads this
    {
      forall p :: p != o ==> DeskOf(p) == old(DeskOf(p))
    }

    /** Nothing of any other organization moves, but for the shared connection, which may open. */
    twostate predicate OnlyTouched(o: OrgId)
      reads this, transport
    {
      DeskKept(o) && transport.OnlyTouched(o)
    }

    /** One step of the protocol for one organization; every other one stands still. */
    twostate predicate Stepped(o: OrgId, step: Step)
      reads this, transport
    {
      Enabled(old(SliceOf(o)), step) && SliceOf(o) == Next(old(SliceOf(o)), step) && OnlyTouched(o)
    }

    constructor (transport: RedisPubSubEventsTransport)
      requires forall o :: transport.LinkOf(o) == Fresh.link
      ensures this.transport == transport && forall o :: SliceOf(o) == Fresh
    {
      this.transport := transport;
      subjects, refCounts, transportGenerations, transportStates := {}, map[], map[], map[];
      timers, timersIssued, observers, published := map[], map[], map[], [];
      new;
    }

    // ----- Public calls -----

    method OpenSubject(o: OrgId)
      modifies this`subjects, this`refCounts
      ensures DeskOf(o) == old(DeskOf(o)).(subject := true, refCount := Some(0)) && DeskKept(o)
    {
      subjects := subjects + {o};
      refCounts := refCounts[o := 0];
    }

    method AddReference(o: OrgId)
      modifies this`refCounts, this`observers
      ensures DeskOf(o) == old(DeskOf(o)).(refCount := Some(old(DeskOf(o)).refCount.GetOr(0) + 1), observers := old(DeskOf(o)).observers + 1)
      ensures DeskKept(o)
    {
      var count: nat := if o in refCounts then refCounts[o] else 0;
      refCounts := refCounts[o := count + 1];
      ghost var live: nat := if o in observers then observers[o] else 0;
      observers := observers[o := live + 1];
    }

    method Subscribe(o: OrgId)
      modifies this, transport
      ensures Stepped(o, SubscribeCall)
    {
      if o !in subjects {
        OpenSubject(o);
        EnsureTransportSubscription(o);
      }
      AddReference(o);
    }

    /** Whether the last observer left, in which case subject and count are gone. */
    method DropReference(o: OrgId) returns (last: bool)
      requires DeskOf(o).observers > 0
      modifies this`subjects, this`refCounts, this`observers
      ensures DeskKept(o)
      ensures var d := old(DeskOf(o));
              var count := d.refCount.GetOr(1) - 1;
              last == (count <= 0)
              && DeskOf(o) == if last then d.(observers := d.observers - 1, subject := false, refCount := None)
                              else d.(observers := d.observers - 1, refCount := Some(count))
    {
      observers := observers[o := observers[o] - 1];
      var count: int := (if o in refCounts then refCounts[o] else 1) as int - 1;
      last := count <= 0;
      if last {
        subjects := subjects - {o};
        refCounts := refCounts - {o};
      } else {
        refCounts := refCounts[o := count];
      }
    }

    /** The `finalize` of one observable, on unsubscribe or completion. */
    method Finalize(o: OrgId)
      requires DeskOf(o).observers > 0
      modifies this, transport
      ensures Stepped(o, ObserverGone)
    {
      var last := DropReference(o);
      if last { TeardownTransportSubscription(o); }
    }

    /** `emit`: the local half. The published envelope is what EventsFanout follows. */
    method Emit(o: OrgId, event: F.Event) returns (channel: string, envelope: F.Payload)
      modifies this`published
      ensures published == if o in subjects then old(published) + [(o, event)] else old(published)
      ensures channel == F.ChannelOf(o) && envelope == F.Envelope(o, transport.sourceId, event)
    {
      PublishLocally(o, event);
      channel := F.ChannelOf(o);
      envelope := F.Envelope(o, transport.sourceId, event);
    }

    method PublishLocally(o: OrgId, event: F.Event)
      modifies this`published
      ensures published == if o in subjects then old(published) + [(o, event)] else old(published)
    {
      if o !in subjects { return; }
      published := published + [(o, event)];
    }

    /** A message arrives from Redis: the handler, if one is called, publishes to the local subject. */
    method OnMessage(channel: string, payload: F.Payload)
      modifies this`published
      ensures
        var call := F.Dispatch(transport.handlers.Keys, transport.sourceId, channel, payload);
        published == if call.Some? && call.value.0 in subjects then old(published) + [call.value] else old(published)
    {
      var call := transport.HandleMessage(channel, payload);
      if call.Some? { PublishLocally(call.value.0, call.value.1); }
    }

    // ----- Promise callbacks, timers and Redis -----

    /** The `then` callback of `ensureTransportSubscription`; `generation` is what its closure captured. */
    method OnSubscribed(o: OrgId, ghost id: nat, generation: nat)
      requires Enabled(SliceOf(o), Fulfilled(id))
      requires generation == SliceOf(o).link.attempts[id].generation
      modifies this, transport
      ensures Stepped(o, Fulfilled(id))
    {
      transport.Forget(o, id);
      if o !in transportStates {
        transport.Unsubscribe(o);
      } else if transportStates[o].generation == generation {
        transportStates := transportStates[o := transportStates[o].(status := Subscribed, attempt := 0)];
      }
    }

    /** The `catch` callback of `ensureTransportSubscription`. */
    method OnSubscribeFailed(o: OrgId, ghost id: nat, generation: nat)
      requires Enabled(SliceOf(o), Rejected(id))
      requires generation == SliceOf(o).link.attempts[id].generation
      modifies this, transport
      ensures Stepped(o, Rejected(id))
    {
      transport.Forget(o, id);
      if o in transportStates && transportStates[o].generation == generation {
        transportStates := transportStates[o := transportStates[o].(status := Idle)];
        ScheduleTransportSubscriptionRetry(o);
      }
    }

    method OnRetryTimer(o: OrgId, timer: nat)
      requires Enabled(SliceOf(o), TimerFires(timer))
      modifies this, transport
      ensures Stepped(o, TimerFires(timer))
    {
      timers := timers[o := timers[o] - {timer}];
      if o in transportStates {
        transportStates := transportStates[o := transportStates[o].(retryTimeout := None)];
        EnsureTransportSubscription(o);
      }
    }

    method OnAnswer(ok: bool) returns (o: OrgId)
      requires transport.wire != []
      modifies transport
      ensures Stepped(o, Answer(ok))
    {
      o := transport.Answer(ok);
    }

    /** The agreement survives a refusal unless it was superseded by a newer handler. */
    method OnRefusal(o: OrgId, id: nat)
      requires Enabled(SliceOf(o), TransportCatch(id))
      modifies transport
      ensures Stepped(o, TransportCatch(id))
    {
      transport.CatchRefusal(o, id);
    }

    // ----- Private methods -----

    method NextTransportGeneration(o: OrgId) returns (next: nat)
      modifies this`transportGenerations
      ensures next == old(DeskOf(o).lastGeneration) + 1
      ensures DeskOf(o) == old(DeskOf(o)).(lastGeneration := next) && DeskKept(o)
    {
      next := (if o in transportGenerations then transportGenerations[o] else 0) + 1;
      transportGenerations := transportGenerations[o := next];
    }

    method GetOrCreateTransportState(o: OrgId) returns (state: TransportState)
      modifies this`transportGenerations, this`transportStates
      ensures forall l :: DeskOf(o).Join(l) == GetOrCreateState(old(DeskOf(o)).Join(l))
      ensures DeskKept(o) && o in transportStates && state == transportStates[o]
    {
      if o !in transportStates {
        var generation := NextTransportGeneration(o);
        transportStates := transportStates[o := TransportState(0, Idle, None, generation)];
      }
      state := transportStates[o];
    }

    method ClearTimeout(o: OrgId, timer: nat)
      modifies this`timers
      ensures DeskOf(o) == old(DeskOf(o)).(timers := old(DeskOf(o)).timers - {timer}) && DeskKept(o)
    {
      if o in timers { timers := timers[o := timers[o] - {timer}]; }
    }

    /** `ensureTransportSubscription` up to the transport call, and whether there is one to make. */
    method BeginAttempt(o: OrgId) returns (begun: bool, generation: nat)
      modifies this`transportGenerations, this`transportStates, this`timers
      ensures DeskKept(o)
      ensures forall l :: Ensure(old(DeskOf(o)).Join(l)) == DeskOf(o).Join(if begun then LinkSubscribe(l, generation) else l)
    {
      var state := GetOrCreateTransportState(o);
      begun, generation := false, state.generation;
      if state.status == Subscribed || state.status == Subscribing { return; }
      if state.retryTimeout.Some? {
        ClearTimeout(o, state.retryTimeout.value);
        state := state.(retryTimeout := None);
      }
      state := state.(status := Subscribing, attempt := state.attempt + 1);
      transportStates := transportStates[o := state];
      begun := true;
    }

    method EnsureTransportSubscription(o: OrgId)
      modifies this`transportGenerations, this`transportStates, this`timers, transport
      ensures SliceOf(o) == Ensure(old(SliceOf(o))) && OnlyTouched(o)
    {
      var begun, generation := BeginAttempt(o);
      if begun { transport.Subscribe(o, generation); }
    }

    method TeardownTransportSubscription(o: OrgId)
      modifies this`transportStates, this`timers, transport
      ensures SliceOf(o) == Teardown(old(SliceOf(o))) && OnlyTouched(o)
    {
      if o in transportStates {
        if transportStates[o].retryTimeout.Some? { ClearTimeout(o, transportStates[o].retryTimeout.value); }
        transportStates := transportStates - {o};
      }
      transport.Unsubscribe(o);
    }

    method ScheduleTransportSubscriptionRetry(o: OrgId)
      requires o in transportStates
      modifies this`timers, this`timersIssued, this`transportStates
      ensures SliceOf(o) == ScheduleRetry(old(SliceOf(o))) && OnlyTouched(o)
    {
      if o !in subjects || o !in refCounts || refCounts[o] == 0 { return; }
      var state := transportStates[o];
      var timer := if o in timersIssued then timersIssued[o] else 0;
      timersIssued := timersIssued[o := timer + 1];
      var armed: map<nat, nat> := if o in timers then timers[o] else map[];
      var delay: nat := RetryDelay(state.attempt);
      timers := timers[o := armed[timer := delay]];
      transportStates := transportStates[o := state.(retryTimeout := Some(timer))];
    }

    // ----- Shutdown -----

    /** With its timers already cleared, an organization is gone or still has its observers. */
    ghost predicate ShuttingDown(s: Desk) {
      && s.timers == map[]
      && if s.observers == 0 then !s.subject && s.refCount.None? && s.state.None?
         else s.subject && s.refCount == Some(s.observers) && s.state.Some?
    }

    ghost predicate AllShuttingDown()
      reads this
    {
      forall o :: ShuttingDown(DeskOf(o))
    }

    /** `subject.complete()`: every observer of the organization runs its `finalize`. */
    method CompleteSubject(o: OrgId)
      requires AllShuttingDown()
      modifies this, transport
      ensures AllShuttingDown() && subjects == old(subjects) - {o}
    {
      while o in refCounts
        invariant AllShuttingDown()
        invariant subjects == old(subjects) || (subjects == old(subjects) - {o} && o !in subjects)
        decreases DeskOf(o).observers
      {
        assert ShuttingDown(DeskOf(o));
        ghost var before := subjects;
        Finalize(o);
        assert forall p :: p != o ==> (DeskOf(p).subject <==> p in before);
        assert SliceOf(o).timers == map[] && SliceOf(o).observers == DeskOf(o).observers;
        assert ShuttingDown(DeskOf(o));
      }
      assert ShuttingDown(DeskOf(o));
    }

    method ClearAllTimeouts()
      modifies this`timers
      ensures forall o :: DeskOf(o) == old(DeskOf(o)).(timers := map[])
    {
      timers := map[];
    }

    /** `onModuleDestroy` leaves no subject, count, state, timer or handler of any organization. */
    method OnModuleDestroy()
      requires forall o :: NeverStuck(SliceOf(o))
      modifies this, transport
      ensures forall o :: var s := SliceOf(o);
                !s.subject && s.refCount.None? && s.state.None? && s.timers == map[] && s.link.handler.None?
    {
      var active := subjects;
      ClearAllTimeouts();
      forall o ensures ShuttingDown(DeskOf(o)) { assert NeverStuck(old(SliceOf(o))); }
      while subjects != {}
        invariant AllShuttingDown()
        decreases subjects
      {
        var o :| o in subjects;
        CompleteSubject(o);
      }
      while active != {}
        invariant AllShuttingDown() && subjects == {}
        decreases active
      {
        var o :| o in active;
        active := active - {o};
        transport.Unsubscribe(o);
      }
      transport.Destroy();
      forall o ensures var s := SliceOf(o); !s.subject && s.refCount.None? && s.state.None? && s.timers == map[] && s.link.handler.None? {
        assert ShuttingDown(DeskOf(o));
      }
    }
  }
}

/** The Redis pub/sub transport as the object it is: a handler map and one subscriber connection. */
module RedisPubSubTransport {
  import opened Wrappers
  import opened EventsProtocol
  import opened EventsFanout

  type Issued = (OrgId, Command)

  /** One organization's commands, in order of issue. */
  ghost function CommandsOf(wire: seq<Issued>, o: OrgId): seq<Command> {
    if wire == [] then []
    else (if wire[0].0 == o then [wire[0].1] else []) + CommandsOf(wire[1..], o)
  }

  lemma {:induction false} CommandsOfAppend(wire: seq<Issued>, c: Issued, o: OrgId)
    ensures CommandsOf(wire + [c], o) == CommandsOf(wire, o) + (if c.0 == o then [c.1] else [])
  {
    if wire == [] {
      assert (wire + [c])[1..] == [];
    } else {
      CommandsOfAppend(wire[1..], c, o);
      assert (wire + [c])[1..] == wire[1..] + [c];
    }
  }

  class RedisPubSubEventsTransport {
    const sourceId: string
    var handlers: map<OrgId, nat>
    var connected: bool                         // subscriber.status !== "wait"
    var wire: seq<Issued>                       // commands Redis has not answered yet, all organizations
    ghost var channels: set<OrgId>              // what Redis has subscribed for this connection
    ghost var attempts: map<OrgId, map<nat, Attempt>>
    var issued: map<OrgId, nat>

    ghost function LinkOf(o: OrgId): Link
      reads this
    {
      Link(if o in handlers then Some(handlers[o]) else None,
           CommandsOf(wire, o), o in channels, connected,
           if o in attempts then attempts[o] else map[],
           if o in issued then issued[o] else 0)
    }

    /** Nothing of any other organization moves, but for the shared connection, which may open. */
    twostate predicate OnlyTouched(o: OrgId)
      reads this
    {
      (old(connected) ==> connected)
      && forall p :: p != o ==> LinkOf(p) == old(LinkOf(p)).(connected := connected)
    }

    constructor (sourceId: string)
      ensures this.sourceId == sourceId
      ensures forall o :: LinkOf(o) == Fresh.link
    {
      this.sourceId := sourceId;
      handlers, connected, wire, channels, attempts, issued := map[], false, [], {}, map[], map[];
    }

    method Send(o: OrgId, c: Command)
      modifies this`wire
      ensures forall p :: CommandsOf(wire, p) == old(CommandsOf(wire, p)) + (if p == o then [c] else [])
    {
      forall p ensures CommandsOf(wire + [(o, c)], p) == CommandsOf(wire, p) + (if p == o then [c] else []) {
        CommandsOfAppend(wire, (o, c), p);
      }
      wire := wire + [(o, c)];
    }

    /** The handler in the map is that of the newest attempt. */
    method Register(o: OrgId, generation: nat, stage: Stage) returns (id: nat)
      modifies this`handlers, this`issued, this`attempts
      ensures var l := old(LinkOf(o));
              id == l.issued
              && LinkOf(o) == l.(handler := Some(id), issued := id + 1, attempts := l.attempts[id := Attempt(generation, stage)])
      ensures OnlyTouched(o)
    {
      id := if o in issued then issued[o] else 0;
      issued := issued[o := id + 1];
      handlers := handlers[o := id];
      ghost var mine := if o in attempts then attempts[o] else map[];
      attempts := attempts[o := mine[id := Attempt(generation, stage)]];
    }

    method Subscribe(o: OrgId, generation: nat)
      modifies this
      ensures LinkOf(o) == LinkSubscribe(old(LinkOf(o)), generation) && OnlyTouched(o)
    {
      if o in handlers {
        var _ := Register(o, generation, Accepted);
        return;
      }
      var id := Register(o, generation, Waiting);
      connected := true;
      Send(o, SubscribeCommand(id));
    }

    method Unsubscribe(o: OrgId)
      modifies this
      ensures LinkOf(o) == LinkUnsubscribe(old(LinkOf(o))) && OnlyTouched(o)
      ensures attempts == old(attempts) && issued == old(issued)
    {
      if o !in handlers { return; }
      handlers := handlers - {o};
      if !connected { return; }
      Send(o, UnsubscribeCommand);
    }

    method Receive() returns (c: Issued)
      requires wire != []
      modifies this`wire
      ensures c == old(wire[0])
      ensures forall p :: old(CommandsOf(wire, p)) == (if p == c.0 then [c.1] else []) + CommandsOf(wire, p)
    {
      c := wire[0];
      wire := wire[1..];
    }

    ghost method Settle(o: OrgId, id: nat, stage: Stage)
      modifies this`attempts
      ensures var l := old(LinkOf(o));
              LinkOf(o) == l.(attempts := if id in l.attempts then l.attempts[id := l.attempts[id].(stage := stage)] else l.attempts)
      ensures OnlyTouched(o)
    {
      if o in attempts && id in attempts[o] {
        attempts := attempts[o := attempts[o][id := attempts[o][id].(stage := stage)]];
      }
    }

    /** Redis answers the oldest command of the connection, whichever organization it belongs to. */
    method Answer(ok: bool) returns (o: OrgId)
      requires wire != []
      modifies this
      ensures o == old(wire[0].0) && old(LinkOf(o)).wire != []
      ensures LinkOf(o) == LinkAnswer(old(LinkOf(o)), ok) && OnlyTouched(o)
    {
      var answered := Receive();
      o := answered.0;
      assert old(LinkOf(o)).wire == [answered.1] + LinkOf(o).wire;
      Serve(o, answered.1.SubscribeCommand? && ok);
      if answered.1.SubscribeCommand? { Settle(o, answered.1.attempt, if ok then Accepted else Refused); }
    }

    /** What Redis delivers from here on. */
    ghost method Serve(o: OrgId, on: bool)
      modifies this`channels
      ensures LinkOf(o) == old(LinkOf(o)).(server := on) && OnlyTouched(o)
    {
      channels := if on then channels + {o} else channels - {o};
    }

    /** The `catch` block of a refused `subscribe`. */
    method CatchRefusal(o: OrgId, id: nat)
      requires id in LinkOf(o).attempts
      modifies this
      ensures LinkOf(o) == LinkCatch(old(LinkOf(o)), id) && OnlyTouched(o)
    {
      handlers := handlers - {o};
      attempts := attempts[o := attempts[o][id := attempts[o][id].(stage := Dropped)]];
    }

    /** The promise of attempt `id` has run its last callback. */
    ghost method Forget(o: OrgId, id: nat)
      modifies this`attempts
      ensures LinkOf(o) == LinkForget(old(LinkOf(o)), id) && OnlyTouched(o)
      ensures handlers == old(handlers)
    {
      if o in attempts { attempts := attempts[o := attempts[o] - {id}]; }
    }

    /** `handleMessage`, up to the handler call. */
    method HandleMessage(channel: string, payload: Payload) returns (call: Option<(OrgId, Event)>)
      ensures call == Dispatch(handlers.Keys, sourceId, channel, payload)
    {
      var organization := OrganizationOf(channel);
      if organization == None || organization == Some("") { return None; }
      if organization.value !in handlers { return None; }
      match payload {
        case Unreadable => return None;
        case Malformed => return None;
        case Envelope(org, source, event) =>
          if org != organization.value { return None; }
          if source == sourceId { return None; }
          return Some((org, event));
      }
    }

    /** `destroy`: no handler survives. */
    method Destroy()
      modifies this`handlers
      ensures handlers == map[]
    {
      handlers := map[];
    }
  }
}

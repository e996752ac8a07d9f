/**
 Fan-out of emitted events over any number of processes: the emitter reaches its own subject by
 the local path, every other process by Redis pub/sub, and nothing crosses organizations.
 */
module EventsFanout {
  import opened Wrappers

  type OrgId = string

  const CHANNEL_PREFIX := "unified-inbox:events:org:"

  function ChannelOf(organizationId: OrgId): string {
    CHANNEL_PREFIX + organizationId
  }

  function OrganizationOf(channel: string): Option<OrgId> {
    if CHANNEL_PREFIX <= channel then Some(channel[|CHANNEL_PREFIX|..]) else None
  }

  lemma ChannelRoundTrip(organizationId: OrgId, channel: string)
    ensures OrganizationOf(ChannelOf(organizationId)) == Some(organizationId)
    ensures OrganizationOf(channel) == Some(organizationId) <==> channel == ChannelOf(organizationId)
  {
    assert ChannelOf(organizationId)[|CHANNEL_PREFIX|..] == organizationId;
    if CHANNEL_PREFIX <= channel { assert channel == CHANNEL_PREFIX + channel[|CHANNEL_PREFIX|..]; }
  }

  datatype Event = Event(kind: string, conversationId: string, payload: string)

  /** What `parseEnvelope` makes of a published payload: JSON that cannot be read, JSON that is no
      version 1 envelope around a valid event, or an envelope. */
  datatype Payload = Unreadable | Malformed | Envelope(organizationId: OrgId, sourceId: string, event: Event)

  /** `handleMessage`: the organization whose handler is called, with which event, if any. */
  function Dispatch(handlers: set<OrgId>, self: string, channel: string, payload: Payload): Option<(OrgId, Event)> {
    var organization := OrganizationOf(channel);
    if organization.None? || organization.value == "" then None
    else if organization.value !in handlers then None
    else if !payload.Envelope? then None
    else if payload.organizationId != organization.value then None
    else if payload.sourceId == self then None
    else Some((organization.value, payload.event))
  }

  /** A handler is called exactly for an envelope of its own organization on that organization's channel,
      published by somebody else. */
  lemma DispatchExactly(handlers: set<OrgId>, self: string, channel: string, payload: Payload, o: OrgId, event: Event)
    ensures Dispatch(handlers, self, channel, payload) == Some((o, event)) <==>
              && o in handlers && o != "" && channel == CHANNEL_PREFIX + o
              && exists source :: source != self && payload == Envelope(o, source, event)
  {
    ChannelRoundTrip(o, channel);
    if payload.Envelope? { assert payload == Envelope(payload.organizationId, payload.sourceId, payload.event); }
  }

  // ----- The cluster -----

  datatype Process = Process(sourceId: string, handlers: set<OrgId>, subjects: set<OrgId>)

  datatype Emission = Emission(process: nat, organizationId: OrgId, event: Event)

  /** A published message on its way to one process; `emission` is the index of the emission it
      stems from, or none if something else published it. */
  datatype Packet = Packet(receiver: nat, channel: string, payload: Payload, emission: Option<nat>)

  /** One `subject.next` call. */
  datatype Delivery = Delivery(emission: Option<nat>, process: nat, organizationId: OrgId, event: Event, local: bool)

  datatype Cluster = Cluster(
    processes: map<nat, Process>,
    emissions: seq<Emission>,
    packets: set<Packet>,
    log: seq<Delivery>)

  datatype Step =
    | Emit(process: nat, organizationId: OrgId, event: Event, receivers: set<nat>)
    | Receive(packet: Packet)
    | Foreign(packet: Packet)
    | Reconfigure(process: nat, handlers: set<OrgId>, subjects: set<OrgId>)
    | Join(process: nat, sourceId: string)

  ghost predicate Enabled(c: Cluster, step: Step) {
    match step
    case Emit(p, _, _, receivers) => p in c.processes && receivers <= c.processes.Keys
    case Receive(packet) => packet in c.packets
    case Foreign(packet) => packet.receiver in c.processes && packet.emission.None?
    case Reconfigure(p, _, _) => p in c.processes
    case Join(p, sourceId) => p !in c.processes && forall q :: q in c.processes ==> c.processes[q].sourceId != sourceId
  }

  /** `publishLocally`: a delivery if the process has a subject for the organization. */
  function PublishLocally(c: Cluster, d: Delivery): Cluster
    requires d.process in c.processes
  {
    if d.organizationId in c.processes[d.process].subjects then c.(log := c.log + [d]) else c
  }

  function Packets(c: Cluster, p: nat, organizationId: OrgId, event: Event, receivers: set<nat>): set<Packet>
    requires p in c.processes
  {
    set r | r in receivers ::
      Packet(r, ChannelOf(organizationId), Envelope(organizationId, c.processes[p].sourceId, event), Some(|c.emissions|))
  }

  ghost function Next(c: Cluster, step: Step): Cluster
    requires Enabled(c, step) && Bound(c)
  {
    match step
    case Emit(p, o, e, receivers) =>
      PublishLocally(c, Delivery(Some(|c.emissions|), p, o, e, true))
        .(emissions := c.emissions + [Emission(p, o, e)], packets := c.packets + Packets(c, p, o, e, receivers))
    case Receive(packet) =>
      var process := c.processes[packet.receiver];
      var c' := c.(packets := c.packets - {packet});
      var call := Dispatch(process.handlers, process.sourceId, packet.channel, packet.payload);
      if call.None? then c'
      else PublishLocally(c', Delivery(packet.emission, packet.receiver, call.value.0, call.value.1, false))
    case Foreign(packet) => c.(packets := c.packets + {packet})
    case Reconfigure(p, handlers, subjects) =>
      c.(processes := c.processes[p := c.processes[p].(handlers := handlers, subjects := subjects)])
    case Join(p, sourceId) => c.(processes := c.processes[p := Process(sourceId, {}, {})])
  }

  ghost predicate Bound(c: Cluster) {
    && (forall p :: p in c.packets ==> p.receiver in c.processes)
    && (forall i :: 0 <= i < |c.emissions| ==> c.emissions[i].process in c.processes)
  }

  /** A packet of emission n carries what the emitter published, on the organization's own channel. */
  ghost predicate Genuine(c: Cluster, p: Packet)
    requires Bound(c)
  {
    p.emission.Some? ==>
      && p.emission.value < |c.emissions|
      && var e := c.emissions[p.emission.value];
         p.channel == ChannelOf(e.organizationId)
         && p.payload == Envelope(e.organizationId, c.processes[e.process].sourceId, e.event)
  }

  ghost predicate Correct(c: Cluster, d: Delivery) {
    d.emission.Some? ==>
      && d.emission.value < |c.emissions|
      && var e := c.emissions[d.emission.value];
         d.organizationId == e.organizationId && d.event == e.event && (d.local <==> d.process == e.process)
  }

  ghost predicate Same(c: Cluster, i: nat, n: nat, process: nat)
    requires i < |c.log|
  {
    c.log[i].emission == Some(n) && c.log[i].process == process
  }

  /** Each emission reaches each process at most once, on the right subject and by the right path. */
  ghost predicate AtMostOnce(c: Cluster) {
    && (forall i :: 0 <= i < |c.log| ==> Correct(c, c.log[i]))
    && (forall i, j, n, p :: 0 <= i < j < |c.log| && Same(c, i, n, p) ==> !Same(c, j, n, p))
  }

  ghost predicate Invariant(c: Cluster) {
    && Bound(c) && AtMostOnce(c)
    && (forall p :: p in c.packets ==> Genuine(c, p))
    && (forall p, q :: p in c.packets && q in c.packets && p.emission.Some? && p.emission == q.emission && p.receiver == q.receiver ==> p == q)
    && (forall p, i :: p in c.packets && p.emission.Some? && 0 <= i < |c.log| && Same(c, i, p.emission.value, p.receiver) ==>
          p.receiver == c.emissions[p.emission.value].process)
  }

  lemma InvariantEmit(c: Cluster, step: Step)
    requires Invariant(c) && Enabled(c, step) && step.Emit?
    ensures Invariant(Next(c, step))
  {
    var c' := Next(c, step);
    forall i | 0 <= i < |c'.log| ensures Correct(c', c'.log[i]) {
      if i < |c.log| { assert Correct(c, c.log[i]); }
    }
    forall i, j, n, p | 0 <= i < j < |c'.log| && Same(c', i, n, p) ensures !Same(c', j, n, p) {
      assert Same(c, i, n, p);
      if j < |c.log| { assert !Same(c, j, n, p); }
    }
    forall p | p in c'.packets ensures Genuine(c', p) {
      if p in c.packets { assert Genuine(c, p); }
    }
    forall p, i | p in c'.packets && p.emission.Some? && 0 <= i < |c'.log| && Same(c', i, p.emission.value, p.receiver)
      ensures p.receiver == c'.emissions[p.emission.value].process
    {
      if i < |c.log| { assert Correct(c, c.log[i]) && Same(c, i, p.emission.value, p.receiver); }
    }
  }

  lemma InvariantReceive(c: Cluster, packet: Packet)
    requires Invariant(c) && packet in c.packets
    ensures Invariant(Next(c, Receive(packet)))
  {
    var c' := Next(c, Receive(packet));
    assert Genuine(c, packet);
    if packet.emission.Some? { ChannelRoundTrip(c.emissions[packet.emission.value].organizationId, packet.channel); }
    forall i, j, n, p | 0 <= i < j < |c'.log| && Same(c', i, n, p) ensures !Same(c', j, n, p) {
      assert Same(c, i, n, p);
      if j < |c.log| { assert !Same(c, j, n, p); }
    }
    forall p, i | p in c'.packets && p.emission.Some? && 0 <= i < |c'.log| && Same(c', i, p.emission.value, p.receiver)
      ensures p.receiver == c'.emissions[p.emission.value].process
    {
      if i < |c.log| { assert Same(c, i, p.emission.value, p.receiver); }
    }
    forall p | p in c'.packets ensures Genuine(c', p) { assert Genuine(c, p); }
  }

  lemma InvariantStep(c: Cluster, step: Step)
    requires Invariant(c) && Enabled(c, step)
    ensures Invariant(Next(c, step))
  {
    var c' := Next(c, step);
    match step {
      case Emit(_, _, _, _) => InvariantEmit(c, step);
      case Receive(packet) => InvariantReceive(c, packet);
      case _ =>
        forall p | p in c'.packets ensures Genuine(c', p) { if p in c.packets { assert Genuine(c, p); } }
        assert forall i, n, p :: 0 <= i < |c.log| ==> Same(c', i, n, p) == Same(c, i, n, p);
    }
  }

  lemma BoundStep(c: Cluster, step: Step)
    requires Bound(c) && Enabled(c, step)
    ensures Bound(Next(c, step))
  {
  }

  ghost predicate IsRun(c: Cluster, steps: seq<Step>)
    requires Bound(c)
    decreases |steps|
  {
    steps == [] || (Enabled(c, steps[0]) && (BoundStep(c, steps[0]); IsRun(Next(c, steps[0]), steps[1..])))
  }

  ghost function After(c: Cluster, steps: seq<Step>): Cluster
    requires Bound(c) && IsRun(c, steps)
    decreases |steps|
  {
    if steps == [] then c
    else
      BoundStep(c, steps[0]);
      After(Next(c, steps[0]), steps[1..])
  }

  /** Over every run of any number of processes that join, emit, receive and change their handlers and
      subjects in any order, with foreign publishers on the same channels. */
  lemma {:induction false} FanoutAtMostOnce(c: Cluster, steps: seq<Step>)
    requires Invariant(c) && IsRun(c, steps)
    ensures Invariant(After(c, steps))
    decreases |steps|
  {
    if steps != [] {
      InvariantStep(c, steps[0]);
      FanoutAtMostOnce(Next(c, steps[0]), steps[1..]);
    }
  }

  /** The filters lose nothing: with distinct source ids, a genuine packet is dispatched exactly if its
      receiver is another process with a handler for that (non-empty) organization. */
  lemma GenuineIsDispatched(c: Cluster, packet: Packet)
    requires Invariant(c) && packet in c.packets && packet.emission.Some?
    requires forall p, q :: p in c.processes && q in c.processes && p != q ==> c.processes[p].sourceId != c.processes[q].sourceId
    ensures
      var e := c.emissions[packet.emission.value];
      var receiver := c.processes[packet.receiver];
      Dispatch(receiver.handlers, receiver.sourceId, packet.channel, packet.payload)
        == if packet.receiver != e.process && e.organizationId != "" && e.organizationId in receiver.handlers
           then Some((e.organizationId, e.event)) else None
  {
    assert Genuine(c, packet);
    ChannelRoundTrip(c.emissions[packet.emission.value].organizationId, packet.channel);
  }

  /** An event that is emitted reaches the emitter's own subject at once. */
  lemma EmitReachesOwnSubject(c: Cluster, p: nat, o: OrgId, event: Event, receivers: set<nat>)
    requires Invariant(c) && Enabled(c, Emit(p, o, event, receivers)) && o in c.processes[p].subjects
    ensures Next(c, Emit(p, o, event, receivers)).log == c.log + [Delivery(Some(|c.emissions|), p, o, event, true)]
  {
  }

  /** And the packet that it sends to another process reaches the subject there, if that process listens. */
  lemma EmitReachesOthers(c: Cluster, p: nat, o: OrgId, event: Event, receivers: set<nat>, r: nat)
    requires Invariant(c) && Enabled(c, Emit(p, o, event, receivers)) && r in receivers && r != p && o != ""
    requires c.processes[r].sourceId != c.processes[p].sourceId && o in c.processes[r].handlers && o in c.processes[r].subjects
    ensures var c1 := Next(c, Emit(p, o, event, receivers));
            var packet := Packet(r, CHANNEL_PREFIX + o, Envelope(o, c.processes[p].sourceId, event), Some(|c.emissions|));
            && Bound(c1) && Enabled(c1, Receive(packet))
            && Next(c1, Receive(packet)).log == c1.log + [Delivery(Some(|c.emissions|), r, o, event, false)]
  {
    var c1 := Next(c, Emit(p, o, event, receivers));
    var packet := Packet(r, CHANNEL_PREFIX + o, Envelope(o, c.processes[p].sourceId, event), Some(|c.emissions|));
    BoundStep(c, Emit(p, o, event, receivers));
    assert packet in Packets(c, p, o, event, receivers);
    DispatchExactly(c.processes[r].handlers, c.processes[r].sourceId, packet.channel, packet.payload, o, event);
  }
}

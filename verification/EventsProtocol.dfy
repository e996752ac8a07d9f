/**
 The realtime subscription protocol of one organization, as one process sees it.

 `EventsService` keeps a subject, a reference count, a generation counter and a retry state;
 `RedisPubSubEventsTransport` keeps a handler and issues SUBSCRIBE and UNSUBSCRIBE commands on one
 connection. Promise settlements, promise callbacks and timers are separate steps, so that they
 race with public calls in every possible order. A `Slice` is what both layers, Redis and the
 event loop hold for one organization; the classes in EventsService.dfy hold all of them.
 */
module EventsProtocol {
  import opened Wrappers

  datatype Status = Idle | Subscribing | Subscribed

  /** The mutable record kept in `transportStates`. */
  datatype TransportState = TransportState(attempt: nat, status: Status, retryTimeout: Option<nat>, generation: nat)

  /** How far the promise of one `transport.subscribe` call has come.
      Waiting: its SUBSCRIBE is on the wire. Accepted: fulfilled, `then` callback not yet run.
      Refused: Redis refused it, the transport's own `catch` not yet run.
      Dropped: the transport removed the handler and rethrew, the service's `catch` not yet run. */
  datatype Stage = Waiting | Accepted | Refused | Dropped
  datatype Attempt = Attempt(generation: nat, stage: Stage)

  datatype Command = SubscribeCommand(attempt: nat) | UnsubscribeCommand

  /** The transport's half: the handler (named by the attempt that registered it), this
      organization's commands in order of issue, whether Redis has the channel subscribed,
      whether the connection has left the `wait` status, and the promises in flight. */
  datatype Link = Link(
    handler: Option<nat>,
    wire: seq<Command>,
    server: bool,
    connected: bool,
    attempts: map<nat, Attempt>,
    issued: nat)

  /** The service's half, with its live observers and armed timers (timer id to delay). */
  datatype Slice = Slice(
    subject: bool,
    refCount: Option<nat>,
    lastGeneration: nat,
    state: Option<TransportState>,
    observers: nat,
    timers: map<nat, nat>,
    timersIssued: nat,
    link: Link)

  const Fresh := Slice(false, None, 0, None, 0, map[], 0, Link(None, [], false, false, map[], 0))

  // ----- Transport -----

  /** `subscribe`: an organization that already has a handler only swaps it, without a command. */
  function LinkSubscribe(l: Link, generation: nat): Link {
    if l.handler.Some? then
      l.(handler := Some(l.issued), issued := l.issued + 1,
         attempts := l.attempts[l.issued := Attempt(generation, Accepted)])
    else
      l.(handler := Some(l.issued), issued := l.issued + 1, connected := true,
         wire := l.wire + [SubscribeCommand(l.issued)],
         attempts := l.attempts[l.issued := Attempt(generation, Waiting)])
  }

  /** `unsubscribe`: nothing without a handler, and no command before the first connection. */
  function LinkUnsubscribe(l: Link): Link {
    if l.handler.None? then l
    else if !l.connected then l.(handler := None)
    else l.(handler := None, wire := l.wire + [UnsubscribeCommand])
  }

  /** Redis answers the oldest command. */
  function LinkAnswer(l: Link, ok: bool): Link
    requires l.wire != []
  {
    match l.wire[0]
    case UnsubscribeCommand => l.(wire := l.wire[1..], server := false)
    case SubscribeCommand(id) =>
      l.(wire := l.wire[1..], server := ok,
         attempts := if id in l.attempts
                     then l.attempts[id := l.attempts[id].(stage := if ok then Accepted else Refused)]
                     else l.attempts)
  }

  /** The `catch` inside `subscribe` deletes the handler by organization, then rethrows. */
  function LinkCatch(l: Link, id: nat): Link
    requires id in l.attempts
  {
    l.(handler := None, attempts := l.attempts[id := l.attempts[id].(stage := Dropped)])
  }

  function LinkForget(l: Link, id: nat): Link {
    l.(attempts := l.attempts - {id})
  }

  // ----- Service -----

  function GetOrCreateState(s: Slice): Slice {
    if s.state.Some? then s
    else s.(state := Some(TransportState(0, Idle, None, s.lastGeneration + 1)), lastGeneration := s.lastGeneration + 1)
  }

  function Ensure(s0: Slice): Slice {
    var s := GetOrCreateState(s0);
    var st := s.state.value;
    if st.status != Idle then s
    else
      s.(timers := if st.retryTimeout.Some? then s.timers - {st.retryTimeout.value} else s.timers,
         state := Some(TransportState(st.attempt + 1, Subscribing, None, st.generation)),
         link := LinkSubscribe(s.link, st.generation))
  }

  function Teardown(s: Slice): Slice {
    s.(timers := if s.state.Some? && s.state.value.retryTimeout.Some?
                 then s.timers - {s.state.value.retryTimeout.value} else s.timers,
       state := None,
       link := LinkUnsubscribe(s.link))
  }

  function Subscribe(s: Slice): Slice {
    var s1 := if s.subject then s else Ensure(s.(subject := true, refCount := Some(0)));
    s1.(refCount := Some(s1.refCount.GetOr(0) + 1), observers := s1.observers + 1)
  }

  /** The `finalize` of one observable. */
  function Disconnect(s: Slice): Slice
    requires s.observers > 0
  {
    var s1 := s.(observers := s.observers - 1);
    var count := s.refCount.GetOr(1) - 1;
    if count <= 0 then Teardown(s1.(subject := false, refCount := None))
    else s1.(refCount := Some(count))
  }

  function Power2(n: nat): nat { if n == 0 then 1 else 2 * Power2(n - 1) }

  const RETRY_BASE_DELAY_MS: nat := 1000
  const RETRY_MAX_DELAY_MS: nat := 5000

  function RetryDelay(attempt: nat): nat {
    var grown := RETRY_BASE_DELAY_MS * Power2(if attempt == 0 then 0 else attempt - 1);
    if grown < RETRY_MAX_DELAY_MS then grown else RETRY_MAX_DELAY_MS
  }

  /** The delay doubles with every failed attempt until it is capped, from the fourth attempt on. */
  lemma RetryDelayBounds(attempt: nat)
    ensures RETRY_BASE_DELAY_MS <= RetryDelay(attempt) <= RETRY_MAX_DELAY_MS
    ensures 1 <= attempt < 4 ==> RetryDelay(attempt) < RetryDelay(attempt + 1)
    ensures attempt >= 4 ==> RetryDelay(attempt) == RETRY_MAX_DELAY_MS
  {
    Power2Grows(if attempt == 0 then 0 else attempt - 1);
  }

  lemma {:induction false} Power2Grows(n: nat)
    ensures Power2(n) >= 1
    ensures n >= 3 ==> Power2(n) >= 8
    ensures n < 3 ==> Power2(n) == if n == 0 then 1 else if n == 1 then 2 else 4
  {
    if n > 0 { Power2Grows(n - 1); }
  }

  function ScheduleRetry(s: Slice): Slice
    requires s.state.Some?
  {
    if !s.subject || s.refCount.GetOr(0) == 0 then s
    else
      s.(timers := s.timers[s.timersIssued := RetryDelay(s.state.value.attempt)],
         timersIssued := s.timersIssued + 1,
         state := Some(s.state.value.(retryTimeout := Some(s.timersIssued))))
  }

  /** The service's `then` callback of attempt `id`. */
  function OnFulfilled(s0: Slice, id: nat): Slice
    requires id in s0.link.attempts
  {
    var generation := s0.link.attempts[id].generation;
    var s := s0.(link := LinkForget(s0.link, id));
    if s.state.None? then s.(link := LinkUnsubscribe(s.link))
    else if s.state.value.generation != generation then s
    else s.(state := Some(s.state.value.(status := Subscribed, attempt := 0)))
  }

  /** The service's `catch` callback of attempt `id`. */
  function OnRejected(s0: Slice, id: nat): Slice
    requires id in s0.link.attempts
  {
    var generation := s0.link.attempts[id].generation;
    var s := s0.(link := LinkForget(s0.link, id));
    if s.state.None? || s.state.value.generation != generation then s
    else ScheduleRetry(s.(state := Some(s.state.value.(status := Idle))))
  }

  function OnTimer(s0: Slice, timer: nat): Slice {
    var s := s0.(timers := s0.timers - {timer});
    if s.state.None? then s
    else Ensure(s.(state := Some(s.state.value.(retryTimeout := None))))
  }

  // ----- Steps and runs -----

  datatype Step =
    | SubscribeCall
    | ObserverGone
    | Answer(ok: bool)
    | TransportCatch(id: nat)
    | Fulfilled(id: nat)
    | Rejected(id: nat)
    | TimerFires(timer: nat)
    | ConnectionOpens  // another organization's first command opened the shared connection

  ghost predicate Enabled(s: Slice, step: Step) {
    match step
    case SubscribeCall => true
    case ObserverGone => s.observers > 0
    case Answer(_) => s.link.wire != []
    case TransportCatch(id) => id in s.link.attempts && s.link.attempts[id].stage == Refused
    case Fulfilled(id) => id in s.link.attempts && s.link.attempts[id].stage == Accepted
    case Rejected(id) => id in s.link.attempts && s.link.attempts[id].stage == Dropped
    case TimerFires(t) => t in s.timers
    case ConnectionOpens => true
  }

  ghost function Next(s: Slice, step: Step): Slice
    requires Enabled(s, step)
  {
    match step
    case SubscribeCall => Subscribe(s)
    case ObserverGone => Disconnect(s)
    case Answer(ok) => s.(link := LinkAnswer(s.link, ok))
    case TransportCatch(id) => s.(link := LinkCatch(s.link, id))
    case Fulfilled(id) => OnFulfilled(s, id)
    case Rejected(id) => OnRejected(s, id)
    case TimerFires(t) => OnTimer(s, t)
    case ConnectionOpens => s.(link := s.link.(connected := true))
  }

  ghost predicate IsRun(s: Slice, steps: seq<Step>)
    decreases |steps|
  {
    steps == [] || (Enabled(s, steps[0]) && IsRun(Next(s, steps[0]), steps[1..]))
  }

  ghost function After(s: Slice, steps: seq<Step>): Slice
    requires IsRun(s, steps)
    decreases |steps|
  {
    if steps == [] then s else After(Next(s, steps[0]), steps[1..])
  }

  // ----- Never stuck -----

  /** Attempt `id` is in flight for the state record the service holds now. */
  ghost predicate Current(s: Slice, id: nat) {
    s.state.Some? && id in s.link.attempts && s.link.attempts[id].generation == s.state.value.generation
  }

  ghost predicate OnlyAttempt(s: Slice, id: nat) {
    Current(s, id) && forall other :: Current(s, other) ==> other == id
  }

  /** Every promise still waiting has its own command on the wire, and no other command is there. */
  ghost predicate Wired(l: Link) {
    && (forall id :: id in l.attempts && l.attempts[id].stage == Waiting ==> SubscribeCommand(id) in l.wire)
    && (forall i :: 0 <= i < |l.wire| && l.wire[i].SubscribeCommand? ==>
          l.wire[i].attempt in l.attempts && l.attempts[l.wire[i].attempt].stage == Waiting)
    && (forall i, j :: 0 <= i < j < |l.wire| && l.wire[i].SubscribeCommand? ==> l.wire[i] != l.wire[j])
    && (forall id :: id in l.attempts ==> id < l.issued)
  }

  ghost predicate Generations(s: Slice) {
    && (forall id :: id in s.link.attempts ==> s.link.attempts[id].generation <= s.lastGeneration)
    && (forall t :: t in s.timers ==> t < s.timersIssued)
    && (s.state.Some? ==> s.state.value.generation == s.lastGeneration)
  }

  /** With a live observer the subscription is in exactly one of three phases, each of which has
      exactly one thing that will move it on; without observers nothing is left behind. */
  ghost predicate Phase(s: Slice) {
    if s.observers == 0 then
      !s.subject && s.refCount.None? && s.state.None? && s.timers == map[]
    else
      && s.subject && s.refCount == Some(s.observers) && s.state.Some?
      && match s.state.value.status
         case Subscribing => s.state.value.retryTimeout.None? && s.timers == map[] && exists id :: OnlyAttempt(s, id)
         case Subscribed => s.state.value.retryTimeout.None? && s.timers == map[] && forall id :: !Current(s, id)
         case Idle => s.state.value.retryTimeout.Some? && s.timers.Keys == {s.state.value.retryTimeout.value}
                      && forall id :: !Current(s, id)
  }

  ghost predicate NeverStuck(s: Slice) {
    Phase(s) && Generations(s) && Wired(s.link)
  }

  lemma WiredSubscribe(l: Link, generation: nat)
    requires Wired(l)
    ensures Wired(LinkSubscribe(l, generation))
  {
    var l' := LinkSubscribe(l, generation);
    forall id | id in l'.attempts && l'.attempts[id].stage == Waiting ensures SubscribeCommand(id) in l'.wire {
      if id == l.issued { assert l'.wire[|l.wire|] == SubscribeCommand(id); }
    }
  }

  lemma WiredUnsubscribe(l: Link)
    requires Wired(l)
    ensures Wired(LinkUnsubscribe(l))
  {
  }

  lemma WiredAnswer(l: Link, ok: bool)
    requires Wired(l) && l.wire != []
    ensures Wired(LinkAnswer(l, ok))
  {
    var l' := LinkAnswer(l, ok);
    assert forall i :: 0 <= i < |l'.wire| ==> l'.wire[i] == l.wire[i + 1];
    forall id | id in l'.attempts && l'.attempts[id].stage == Waiting ensures SubscribeCommand(id) in l'.wire {
      var i :| 0 <= i < |l.wire| && l.wire[i] == SubscribeCommand(id);
      assert i != 0;
      assert l'.wire[i - 1] == SubscribeCommand(id);
    }
  }

  lemma WiredSettled(l: Link, id: nat)
    requires Wired(l) && id in l.attempts && l.attempts[id].stage != Waiting
    ensures Wired(LinkCatch(l, id)) && Wired(LinkForget(l, id))
  {
  }

  lemma EnsureFromIdle(s: Slice)
    requires Wired(s.link) && Generations(s)
    requires s.state.Some? ==> s.state.value.status == Idle && forall id :: !Current(s, id)
    requires s.subject && s.refCount.Some?
    requires s.timers.Keys == if s.state.Some? && s.state.value.retryTimeout.Some? then {s.state.value.retryTimeout.value} else {}
    ensures Wired(Ensure(s).link) && Generations(Ensure(s)) && OnlyAttempt(Ensure(s), s.link.issued)
    ensures Ensure(s).state.value.retryTimeout.None? && Ensure(s).timers == map[]
    ensures Ensure(s).state.value.status == Subscribing
  {
    WiredSubscribe(s.link, GetOrCreateState(s).state.value.generation);
    assert Ensure(s).timers.Keys == {};
    assert forall other :: Current(Ensure(s), other) && other != s.link.issued ==> s.state.Some? && Current(s, other);
  }

  lemma NeverStuckSubscribe(s: Slice)
    requires NeverStuck(s)
    ensures NeverStuck(Subscribe(s))
  {
    var s' := Subscribe(s);
    if !s.subject {
      EnsureFromIdle(s.(subject := true, refCount := Some(0)));
      assert OnlyAttempt(s', s.link.issued);
    } else {
      SamePhase(s, s');
    }
  }

  lemma NeverStuckDisconnect(s: Slice)
    requires NeverStuck(s) && s.observers > 0
    ensures NeverStuck(Disconnect(s))
  {
    var s' := Disconnect(s);
    WiredUnsubscribe(s.link);
    if s.observers == 1 { assert s'.timers.Keys == {}; } else { SamePhase(s, s'); }
  }

  /** Counting one observer more or less, while others remain, keeps the phase. */
  lemma SamePhase(s: Slice, s': Slice)
    requires Phase(s) && s.observers > 0
    requires s' == s.(refCount := s'.refCount, observers := s'.observers)
    requires s'.observers > 0 && s'.refCount == Some(s'.observers)
    ensures Phase(s')
  {
    assert forall id :: Current(s', id) <==> Current(s, id);
    if s.state.value.status == Subscribing {
      var id :| OnlyAttempt(s, id);
      assert OnlyAttempt(s', id);
    }
  }

  lemma NeverStuckTimer(s: Slice, t: nat)
    requires NeverStuck(s) && t in s.timers
    ensures NeverStuck(OnTimer(s, t))
  {
    var s1 := s.(timers := s.timers - {t}, state := Some(s.state.value.(retryTimeout := None)));
    assert forall id :: Current(s1, id) ==> Current(s, id);
    assert s1.timers.Keys == {};
    EnsureFromIdle(s1);
    assert OnlyAttempt(OnTimer(s, t), s.link.issued);
  }

  /** One step of either layer, of Redis or of the event loop keeps the phase invariant, whatever
      the order in which steps come: no guard is needed. */
  lemma NeverStuckStep(s: Slice, step: Step)
    requires NeverStuck(s) && Enabled(s, step)
    ensures NeverStuck(Next(s, step))
  {
    match step {
      case SubscribeCall => NeverStuckSubscribe(s);
      case ObserverGone => NeverStuckDisconnect(s);
      case Answer(ok) => NeverStuckAnswer(s, ok);
      case TransportCatch(id) =>
        WiredSettled(s.link, id);
        SameAttempts(s, Next(s, step));
      case Fulfilled(id) => NeverStuckFulfilled(s, id);
      case Rejected(id) => NeverStuckRejected(s, id);
      case TimerFires(t) => NeverStuckTimer(s, t);
      case ConnectionOpens => SameAttempts(s, Next(s, step));
    }
  }

  lemma NeverStuckAnswer(s: Slice, ok: bool)
    requires NeverStuck(s) && s.link.wire != []
    ensures NeverStuck(Next(s, Answer(ok)))
  {
    WiredAnswer(s.link, ok);
    SameAttempts(s, Next(s, Answer(ok)));
  }

  /** A step that only moves promises from stage to stage keeps the phase. */
  lemma SameAttempts(s: Slice, s': Slice)
    requires Phase(s)
    requires s' == s.(link := s'.link)
    requires s'.link.attempts.Keys == s.link.attempts.Keys
    requires forall id :: id in s.link.attempts ==> s'.link.attempts[id].generation == s.link.attempts[id].generation
    ensures Phase(s')
  {
    assert forall id :: Current(s', id) <==> Current(s, id);
    if s.observers > 0 && s.state.value.status == Subscribing {
      var id :| OnlyAttempt(s, id);
      assert OnlyAttempt(s', id);
    }
  }

  lemma NeverStuckFulfilled(s: Slice, id: nat)
    requires NeverStuck(s) && Enabled(s, Fulfilled(id))
    ensures NeverStuck(OnFulfilled(s, id))
  {
    WiredSettled(s.link, id);
    WiredUnsubscribe(LinkForget(s.link, id));
    OthersRemain(s, OnFulfilled(s, id), id);
  }

  lemma NeverStuckRejected(s: Slice, id: nat)
    requires NeverStuck(s) && Enabled(s, Rejected(id))
    ensures NeverStuck(OnRejected(s, id))
  {
    WiredSettled(s.link, id);
    var s' := OnRejected(s, id);
    if Current(s, id) {
      assert OnlyAttempt(s, id);
      assert forall other :: Current(s', other) ==> Current(s, other) && other != id;
      assert s'.timers.Keys == {s.timersIssued};
    } else {
      OthersRemain(s, s', id);
    }
  }

  /** Forgetting a settled promise leaves no current attempt, or the same only one. */
  lemma OthersRemain(s: Slice, s': Slice, id: nat)
    requires Phase(s) && id in s.link.attempts
    requires s.state.None? <==> s'.state.None?
    requires s.state.Some? ==> s'.state.value.generation == s.state.value.generation
    requires s'.link.attempts == s.link.attempts - {id}
    ensures Current(s, id) ==> forall other :: !Current(s', other)
    ensures !Current(s, id) && s.observers > 0 && s.state.value.status == Subscribing ==> exists other :: OnlyAttempt(s', other)
    ensures (forall other :: !Current(s, other)) ==> forall other :: !Current(s', other)
  {
    assert forall other :: Current(s', other) <==> Current(s, other) && other != id;
    if s.observers > 0 && s.state.value.status == Subscribing {
      var only :| OnlyAttempt(s, only);
      if only != id { assert OnlyAttempt(s', only); }
    }
  }

  /** Every reachable state of every organization, under every interleaving, is never stuck. */
  lemma {:induction false} NeverStuckRun(s: Slice, steps: seq<Step>)
    requires NeverStuck(s) && IsRun(s, steps)
    ensures NeverStuck(After(s, steps))
    decreases |steps|
  {
    if steps != [] {
      NeverStuckStep(s, steps[0]);
      NeverStuckRun(Next(s, steps[0]), steps[1..]);
    }
  }
}

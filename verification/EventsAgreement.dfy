/**
 How the service's view, the transport's handler and Redis agree, exactly when they stop agreeing,
 and why completions of a superseded generation can be erased from a run.
 */
module EventsAgreement {
  import opened Wrappers
  import opened EventsProtocol
  import opened Runs

  // ----- Draining the command queue -----

  /** Whether Redis ends up with the channel subscribed once it has accepted every command on the wire. */
  ghost function Drain(server: bool, wire: seq<Command>): bool
    decreases |wire|
  {
    if wire == [] then server else Drain(wire[0].SubscribeCommand?, wire[1..])
  }

  /** No SUBSCRIBE is ever issued for a channel that is already on its way to being subscribed. */
  ghost predicate Alternates(server: bool, wire: seq<Command>)
    decreases |wire|
  {
    wire == [] || ((wire[0].SubscribeCommand? ==> !server) && Alternates(wire[0].SubscribeCommand?, wire[1..]))
  }

  lemma {:induction false} DrainIsLast(server: bool, wire: seq<Command>)
    ensures Drain(server, wire) == if wire == [] then server else wire[|wire| - 1].SubscribeCommand?
    decreases |wire|
  {
    if wire != [] { DrainIsLast(wire[0].SubscribeCommand?, wire[1..]); }
  }

  lemma {:induction false} AlternatesAppend(server: bool, wire: seq<Command>, c: Command)
    requires Alternates(server, wire)
    requires c.SubscribeCommand? ==> !Drain(server, wire)
    ensures Alternates(server, wire + [c])
    decreases |wire|
  {
    if wire == [] {
      assert (wire + [c])[1..] == [];
    } else {
      AlternatesAppend(wire[0].SubscribeCommand?, wire[1..], c);
      assert (wire + [c])[1..] == wire[1..] + [c];
    }
  }

  lemma AlternatesRefused(wire: seq<Command>)
    requires Alternates(true, wire)
    ensures Alternates(false, wire)
  {
  }

  // ----- Two-layer agreement -----

  ghost predicate Active(s: Slice) {
    s.state.Some? && s.state.value.status != Idle
  }

  /** The handler was registered by an attempt that Redis refused, and the transport does not know yet. */
  ghost predicate RefusalPending(l: Link) {
    l.handler.Some? && l.handler.value in l.attempts && l.attempts[l.handler.value].stage == Refused
  }

  /** The transport dropped the current attempt, and the service does not know yet. */
  ghost predicate DropPending(s: Slice) {
    s.state.Some? && s.state.value.status == Subscribing
    && exists id :: Current(s, id) && s.link.attempts[id].stage == Dropped
  }

  /** Draining the wire yields the channel exactly if there is a handler, and there is a handler
      exactly if the service is subscribing or subscribed; each up to the one refusal that is
      on its way up through the layers. */
  ghost predicate Agree(s: Slice) {
    && (Drain(s.link.server, s.link.wire) <==> s.link.handler.Some? && !RefusalPending(s.link))
    && (s.link.handler.Some? || DropPending(s) <==> Active(s))
    && !(s.link.handler.Some? && DropPending(s))
  }

  /** Which attempt the handler belongs to, and what the wire looks like. */
  ghost predicate Registered(s: Slice) {
    var l := s.link;
    && Alternates(l.server, l.wire)
    && (l.handler.Some? ==>
          && l.connected
          && s.state.Some?
          && (s.state.value.status == Subscribing ==> Current(s, l.handler.value) && l.attempts[l.handler.value].stage != Dropped)
          && (s.state.value.status == Subscribed ==> l.handler.value !in l.attempts)
          && if l.handler.value in l.attempts && l.attempts[l.handler.value].stage == Waiting
             then l.wire != [] && l.wire[|l.wire| - 1] == SubscribeCommand(l.handler.value)
             else l.wire == [])
    && (l.wire != [] ==> l.connected)
  }

  ghost predicate Sound(s: Slice) {
    NeverStuck(s) && Registered(s) && Agree(s)
  }

  /** A rejection that reaches the transport's `catch` after a newer subscribe call registered its handler. */
  ghost predicate Superseded(s: Slice, step: Step) {
    step.TransportCatch? && s.link.handler.Some? && s.link.handler.value != step.id
  }

  ghost predicate Guarded(s: Slice, steps: seq<Step>)
    requires IsRun(s, steps)
    decreases |steps|
  {
    steps == [] || (!Superseded(s, steps[0]) && Guarded(Next(s, steps[0]), steps[1..]))
  }

  /** Whether every state of the run agrees. */
  ghost predicate AlwaysAgrees(s: Slice, steps: seq<Step>)
    requires IsRun(s, steps)
    decreases |steps|
  {
    Agree(s) && (steps == [] || AlwaysAgrees(Next(s, steps[0]), steps[1..]))
  }

  /** `ensureTransportSubscription` from an idle or new state record: no handler is left over, so the
      shortcut that swaps a handler without a command is never taken. */
  lemma EnsureSound(s: Slice)
    requires Wired(s.link) && Generations(s) && Registered(s)
    requires s.link.handler.None? && !Drain(s.link.server, s.link.wire)
    requires s.state.Some? ==> s.state.value.status == Idle && forall id :: !Current(s, id)
    requires s.subject && s.refCount.Some?
    requires s.timers.Keys == if s.state.Some? && s.state.value.retryTimeout.Some? then {s.state.value.retryTimeout.value} else {}
    ensures Registered(Ensure(s)) && Agree(Ensure(s))
    ensures Ensure(s).link.wire == s.link.wire + [SubscribeCommand(s.link.issued)]
  {
    var s' := Ensure(s);
    AlternatesAppend(s.link.server, s.link.wire, SubscribeCommand(s.link.issued));
    DrainIsLast(s'.link.server, s'.link.wire);
    EnsureFromIdle(s);
  }

  /** The agreement depends on the state record and the link only. */
  lemma SameLayers(s: Slice, s': Slice)
    requires s'.state == s.state && s'.link == s.link.(connected := s'.link.connected)
    requires s.link.connected ==> s'.link.connected
    requires Registered(s) && Agree(s)
    ensures Registered(s') && Agree(s')
  {
    assert forall id :: Current(s', id) <==> Current(s, id);
  }

  lemma SoundDisconnect(s: Slice)
    requires Sound(s) && s.observers > 0
    ensures Sound(Disconnect(s))
  {
    NeverStuckStep(s, ObserverGone);
    var s' := Disconnect(s);
    if s.observers > 1 {
      SameLayers(s, s');
    } else if s.link.handler.Some? {
      AlternatesAppend(s.link.server, s.link.wire, UnsubscribeCommand);
      DrainIsLast(s'.link.server, s'.link.wire);
    }
  }

  /** An answer settles a waiting promise, and nobody is dropped by it. */
  lemma AnswerDropsNobody(s: Slice, ok: bool)
    requires NeverStuck(s) && s.link.wire != []
    ensures var s' := Next(s, Answer(ok));
            (forall id :: Current(s', id) <==> Current(s, id)) && (DropPending(s') <==> DropPending(s))
  {
    var s' := Next(s, Answer(ok));
    assert forall id :: Current(s', id) <==> Current(s, id);
    assert forall id :: Current(s, id) ==> (s'.link.attempts[id].stage == Dropped <==> s.link.attempts[id].stage == Dropped);
  }

  lemma SoundAnswer(s: Slice, ok: bool)
    requires Sound(s) && s.link.wire != []
    ensures Sound(Next(s, Answer(ok)))
  {
    NeverStuckStep(s, Answer(ok));
    var s' := Next(s, Answer(ok));
    var l, l' := s.link, s'.link;
    DrainIsLast(l.server, l.wire);
    DrainIsLast(l'.server, l'.wire);
    assert l'.wire != [] ==> l'.wire[|l'.wire| - 1] == l.wire[|l.wire| - 1];
    AnswerDropsNobody(s, ok);
    if l.wire[0].SubscribeCommand? { AlternatesRefused(l.wire[1..]); }
    if l.wire[0].SubscribeCommand? && |l.wire| > 1 {
      assert l.wire[0] != l.wire[|l.wire| - 1];
    }
  }

  lemma SoundCatch(s: Slice, id: nat)
    requires Sound(s) && Enabled(s, TransportCatch(id)) && !Superseded(s, TransportCatch(id))
    ensures Sound(Next(s, TransportCatch(id)))
  {
    NeverStuckStep(s, TransportCatch(id));
    var s' := Next(s, TransportCatch(id));
    assert forall other :: Current(s', other) <==> Current(s, other);
    if s.link.handler.Some? {
      assert Current(s', id) && s'.link.attempts[id].stage == Dropped;
    } else if Active(s) {
      var dropped :| Current(s, dropped) && s.link.attempts[dropped].stage == Dropped;
      assert Current(s', dropped) && s'.link.attempts[dropped].stage == Dropped;
    }
  }

  lemma SoundFulfilled(s: Slice, id: nat)
    requires Sound(s) && Enabled(s, Fulfilled(id))
    ensures Sound(Next(s, Fulfilled(id)))
  {
    NeverStuckStep(s, Fulfilled(id));
    var s' := Next(s, Fulfilled(id));
    assert forall other :: Current(s', other) <==> Current(s, other) && other != id;
    if Current(s, id) {
      assert OnlyAttempt(s, id);
      assert s.link.handler == Some(id);
    } else if s.state.Some? {
      assert forall other :: Current(s, other) ==> s'.link.attempts[other] == s.link.attempts[other];
      assert DropPending(s') <==> DropPending(s);
    }
  }

  lemma SoundRejected(s: Slice, id: nat)
    requires Sound(s) && Enabled(s, Rejected(id))
    ensures Sound(Next(s, Rejected(id)))
  {
    NeverStuckStep(s, Rejected(id));
    var s' := Next(s, Rejected(id));
    assert forall other :: Current(s', other) <==> Current(s, other) && other != id;
    if !Current(s, id) {
      assert forall other :: Current(s, other) ==> s'.link.attempts[other] == s.link.attempts[other];
      assert DropPending(s') <==> DropPending(s);
    }
  }

  lemma SoundStart(s: Slice)
    requires Sound(s)
    ensures Sound(Subscribe(s))
  {
    NeverStuckStep(s, SubscribeCall);
    if s.subject {
      SameLayers(s, Subscribe(s));
    } else {
      var s1 := s.(subject := true, refCount := Some(0));
      EnsureSound(s1);
      SameLayers(Ensure(s1), Subscribe(s));
    }
  }

  lemma SoundTimer(s: Slice, t: nat)
    requires Sound(s) && t in s.timers
    ensures Sound(OnTimer(s, t))
  {
    NeverStuckStep(s, TimerFires(t));
    var s1 := s.(timers := s.timers - {t}, state := Some(s.state.value.(retryTimeout := None)));
    assert forall id :: Current(s1, id) <==> Current(s, id);
    assert s1.timers.Keys == {};
    EnsureSound(s1);
  }

  /** One step breaks the agreement exactly if it is a superseded rejection: the transport then
      deletes the handler of the newer subscription while the service still counts on it. */
  lemma AgreementStep(s: Slice, step: Step)
    requires Sound(s) && Enabled(s, step)
    ensures Sound(Next(s, step)) <==> !Superseded(s, step)
    ensures Agree(Next(s, step)) <==> !Superseded(s, step)
  {
    if Superseded(s, step) {
      assert forall other :: Current(Next(s, step), other) <==> Current(s, other);
      assert !Current(s, step.id);
    } else {
      match step {
        case SubscribeCall => SoundStart(s);
        case ObserverGone => SoundDisconnect(s);
        case Answer(ok) => SoundAnswer(s, ok);
        case TransportCatch(id) => SoundCatch(s, id);
        case Fulfilled(id) => SoundFulfilled(s, id);
        case Rejected(id) => SoundRejected(s, id);
        case TimerFires(t) => SoundTimer(s, t);
        case ConnectionOpens =>
          NeverStuckStep(s, step);
          SameLayers(s, Next(s, step));
      }
    }
  }

  /** Over whole runs: the layers agree in every state exactly if no superseded rejection occurs. */
  lemma {:induction false} AgreementRun(s: Slice, steps: seq<Step>)
    requires Sound(s) && IsRun(s, steps)
    ensures AlwaysAgrees(s, steps) <==> Guarded(s, steps)
    ensures Guarded(s, steps) ==> Sound(After(s, steps))
    decreases |steps|
  {
    if steps != [] {
      AgreementStep(s, steps[0]);
      if !Superseded(s, steps[0]) {
        AgreementRun(Next(s, steps[0]), steps[1..]);
      } else {
        assert !Agree(Next(s, steps[0]));
      }
    }
  }

  lemma FreshIsSound()
    ensures Sound(Fresh)
  {
  }

  /** From the start on, then: every state of a run agrees exactly if no superseded rejection occurs. */
  lemma AgreementFromStart(steps: seq<Step>)
    requires IsRun(Fresh, steps)
    ensures AlwaysAgrees(Fresh, steps) <==> Guarded(Fresh, steps)
    ensures Guarded(Fresh, steps) ==> Sound(After(Fresh, steps))
  {
    FreshIsSound();
    AgreementRun(Fresh, steps);
  }

  /** With no refusal on its way up, the three views coincide outright. */
  lemma ThreeViewsCoincide(s: Slice)
    requires Sound(s)
    requires forall id :: id in s.link.attempts ==> s.link.attempts[id].stage != Refused && s.link.attempts[id].stage != Dropped
    ensures Drain(s.link.server, s.link.wire) <==> s.link.handler.Some?
    ensures s.link.handler.Some? <==> Active(s)
  {
  }

  // ----- The superseded rejection -----

  lemma RunCons(s: Slice, step: Step, rest: seq<Step>)
    requires Enabled(s, step) && IsRun(Next(s, step), rest)
    ensures IsRun(s, [step] + rest) && After(s, [step] + rest) == After(Next(s, step), rest)
  {
    assert ([step] + rest)[1..] == rest;
  }

  /** The guard cannot be dropped. A first SUBSCRIBE is refused after its observer left and a second
      one arrived: the service ends up `subscribed` with a live observer and no handler, so no
      event of another process ever reaches it, and when the observer leaves Redis keeps the channel. */
  lemma DeafSubscription()
    ensures
      var steps := [SubscribeCall, ObserverGone, SubscribeCall, Answer(false), TransportCatch(0),
                    Answer(true), Answer(true), Fulfilled(1)];
      && IsRun(Fresh, steps)
      && var s := After(Fresh, steps);
         && s.observers == 1 && s.state.Some? && s.state.value.status == Subscribed && s.link.handler.None?
         && var gone := Disconnect(s);
            gone.observers == 0 && gone.link.wire == [] && gone.link.server
  {
    var s1 := Subscribe(Fresh);
    var s2 := Disconnect(s1);
    var s3 := Subscribe(s2);
    assert s3.link.wire == [SubscribeCommand(0), UnsubscribeCommand, SubscribeCommand(1)];
    var s4 := Next(s3, Answer(false));
    var s5 := Next(s4, TransportCatch(0));
    var s6 := Next(s5, Answer(true));
    assert s6.link.wire == [SubscribeCommand(1)];
    var s7 := Next(s6, Answer(true));
    RunCons(s7, Fulfilled(1), []);
    RunCons(s6, Answer(true), [Fulfilled(1)]);
    RunCons(s5, Answer(true), [Answer(true), Fulfilled(1)]);
    RunCons(s4, TransportCatch(0), [Answer(true), Answer(true), Fulfilled(1)]);
    RunCons(s3, Answer(false), [TransportCatch(0), Answer(true), Answer(true), Fulfilled(1)]);
    RunCons(s2, SubscribeCall, [Answer(false), TransportCatch(0), Answer(true), Answer(true), Fulfilled(1)]);
    RunCons(s1, ObserverGone, [SubscribeCall, Answer(false), TransportCatch(0), Answer(true), Answer(true), Fulfilled(1)]);
    RunCons(Fresh, SubscribeCall, [ObserverGone, SubscribeCall, Answer(false), TransportCatch(0), Answer(true), Answer(true), Fulfilled(1)]);
    assert [SubscribeCall] + [ObserverGone, SubscribeCall, Answer(false), TransportCatch(0), Answer(true), Answer(true), Fulfilled(1)]
        == [SubscribeCall, ObserverGone, SubscribeCall, Answer(false), TransportCatch(0), Answer(true), Answer(true), Fulfilled(1)];
  }

  // ----- Recovery -----

  /** A continuation without public calls, in which Redis accepts what it is asked. */
  ghost predicate Recovery(s: Slice, steps: seq<Step>) {
    && IsRun(s, steps) && Guarded(s, steps)
    && (forall i :: 0 <= i < |steps| ==>
          !steps[i].SubscribeCall? && !steps[i].ObserverGone? && !steps[i].ConnectionOpens? && steps[i] != Answer(false))
    && var s' := After(s, steps);
       s'.observers == s.observers && s'.state.Some? && s'.state.value.status == Subscribed
  }

  /** How far the subscription is from `subscribed`. */
  ghost function Distance(s: Slice): nat
    requires Sound(s) && s.observers > 0
  {
    match s.state.value.status
    case Subscribed => 0
    case Idle => 3
    case Subscribing =>
      var id :| OnlyAttempt(s, id);
      match s.link.attempts[id].stage
      case Accepted => 1
      case Waiting => 2
      case Dropped => 4
      case Refused => 5
  }

  lemma RecoveryCons(s: Slice, step: Step, rest: seq<Step>)
    requires Enabled(s, step) && !Superseded(s, step)
    requires !step.SubscribeCall? && !step.ObserverGone? && !step.ConnectionOpens? && step != Answer(false)
    requires Next(s, step).observers == s.observers && Recovery(Next(s, step), rest)
    ensures Recovery(s, [step] + rest)
  {
    RunCons(s, step, rest);
    assert ([step] + rest)[1..] == rest;
  }

  /** In every state with a live observer the next internal step of the recovery exists. */
  ghost function Progress(s: Slice): (step: Step)
    requires Sound(s) && s.observers > 0 && s.state.value.status != Subscribed
    ensures Enabled(s, step) && !Superseded(s, step) && Next(s, step).observers == s.observers
    ensures !step.SubscribeCall? && !step.ObserverGone? && !step.ConnectionOpens? && step != Answer(false)
  {
    if s.state.value.status == Idle then TimerFires(s.state.value.retryTimeout.value)
    else
      var id :| OnlyAttempt(s, id);
      match s.link.attempts[id].stage
      case Accepted => Fulfilled(id)
      case Waiting => Answer(true)
      case Dropped => Rejected(id)
      case Refused => TransportCatch(id)
  }

  lemma RetryGetsCloser(s: Slice)
    requires Sound(s) && s.observers > 0 && s.state.value.status == Idle
    ensures var s' := Next(s, Progress(s)); Sound(s') && Distance(s') < Distance(s)
  {
    var step := Progress(s);
    AgreementStep(s, step);
    var s' := Next(s, step);
    var s1 := s.(timers := s.timers - {step.timer}, state := Some(s.state.value.(retryTimeout := None)));
    assert forall id :: Current(s1, id) <==> Current(s, id);
    assert s1.timers.Keys == {};
    EnsureFromIdle(s1);
    assert OnlyAttempt(s', s.link.issued) && s'.link.attempts[s.link.issued].stage == Waiting;
  }

  lemma ProgressGetsCloser(s: Slice)
    requires Sound(s) && s.observers > 0 && s.state.value.status != Subscribed
    ensures var s' := Next(s, Progress(s));
            && Sound(s')
            && (Distance(s') < Distance(s) || (Distance(s') == Distance(s) && |s'.link.wire| < |s.link.wire|))
  {
    if s.state.value.status == Idle {
      RetryGetsCloser(s);
    } else {
      var step := Progress(s);
      AgreementStep(s, step);
      var s' := Next(s, step);
      var id :| OnlyAttempt(s, id);
      if step.Answer? || step.TransportCatch? {
        assert forall other :: Current(s', other) <==> Current(s, other);
        assert OnlyAttempt(s', id);
      }
    }
  }

  /** No reachable state with a live observer is a dead end: some continuation without any public
      call brings the service to `subscribed` with a handler and a channel that Redis delivers to. */
  lemma {:induction false} AlwaysRecovers(s: Slice)
    requires Sound(s) && s.observers > 0
    ensures exists steps :: Recovery(s, steps)
    decreases Distance(s), |s.link.wire|
  {
    if s.state.value.status == Subscribed {
      assert Recovery(s, []);
    } else {
      var step := Progress(s);
      ProgressGetsCloser(s);
      AlwaysRecovers(Next(s, step));
      var rest :| Recovery(Next(s, step), rest);
      RecoveryCons(s, step, rest);
    }
  }

  lemma RecoveredHears(s: Slice, steps: seq<Step>)
    requires Sound(s) && Recovery(s, steps)
    ensures After(s, steps).link.handler.Some? && After(s, steps).link.wire == [] && After(s, steps).link.server
  {
    AgreementRun(s, steps);
  }

  // ----- Stale completions -----

  /** A completion of an attempt whose generation is no longer, or not at all, the service's. */
  ghost predicate Stale(s: Slice, step: Step) {
    (step.TransportCatch? || step.Fulfilled? || step.Rejected?) && !Current(s, step.id)
  }

  ghost function Erase(s: Slice, steps: seq<Step>): seq<Step>
    requires IsRun(s, steps)
    decreases |steps|
  {
    if steps == [] then []
    else
      var rest := Erase(Next(s, steps[0]), steps[1..]);
      if Stale(s, steps[0]) then rest else [steps[0]] + rest
  }

  /** Everything but the promises of superseded generations is the same. */
  ghost predicate Twin(s: Slice, t: Slice) {
    && t == s.(link := s.link.(attempts := t.link.attempts))
    && forall id :: (Current(s, id) <==> Current(t, id)) && (Current(s, id) ==> s.link.attempts[id] == t.link.attempts[id])
  }

  /** A stale completion changes nothing but its own promise; the stale success that calls
      `unsubscribe` finds no handler. */
  lemma StaleStep(s: Slice, step: Step, t: Slice)
    requires Sound(s) && Enabled(s, step) && Stale(s, step) && !Superseded(s, step)
    requires Twin(s, t)
    ensures Twin(Next(s, step), t)
  {
    var s' := Next(s, step);
    assert s' == s.(link := s.link.(attempts := s'.link.attempts));
    assert forall id :: Current(s', id) <==> Current(s, id);
  }

  lemma TwinStep(s: Slice, step: Step, t: Slice)
    requires NeverStuck(s) && NeverStuck(t) && Enabled(s, step) && !Stale(s, step)
    requires Twin(s, t)
    ensures Enabled(t, step) && Twin(Next(s, step), Next(t, step))
  {
    if step.TransportCatch? || step.Fulfilled? || step.Rejected? {
      TwinCompletion(s, step, t);
    } else if step.SubscribeCall? {
      TwinSubscribe(s, t);
    } else if step.TimerFires? {
      TwinTimer(s, t, step.timer);
    } else if step.Answer? {
      TwinAnswer(s, step.ok, t);
    } else {
      assert forall id :: Current(s, id) <==> Current(t, id);
    }
  }

  lemma TwinAnswer(s: Slice, ok: bool, t: Slice)
    requires Twin(s, t) && s.link.wire != []
    ensures Twin(Next(s, Answer(ok)), Next(t, Answer(ok)))
  {
    var s', t' := Next(s, Answer(ok)), Next(t, Answer(ok));
    forall id ensures (Current(s', id) <==> Current(t', id)) && (Current(s', id) ==> s'.link.attempts[id] == t'.link.attempts[id]) {
      assert (Current(s', id) <==> Current(s, id)) && (Current(t', id) <==> Current(t, id));
    }
  }

  lemma TwinCompletion(s: Slice, step: Step, t: Slice)
    requires Twin(s, t) && Enabled(s, step) && !Stale(s, step)
    requires step.TransportCatch? || step.Fulfilled? || step.Rejected?
    ensures Enabled(t, step) && Twin(Next(s, step), Next(t, step))
  {
    assert Current(s, step.id) && Current(t, step.id);
    var s', t' := Next(s, step), Next(t, step);
    forall id ensures (Current(s', id) <==> Current(t', id)) && (Current(s', id) ==> s'.link.attempts[id] == t'.link.attempts[id]) {
      assert Current(s, id) <==> Current(t, id);
      assert Current(s', id) <==> Current(s, id) && (step.TransportCatch? || id != step.id);
      assert Current(t', id) <==> Current(t, id) && (step.TransportCatch? || id != step.id);
    }
  }

  lemma TwinGetOrCreate(s: Slice, t: Slice)
    requires Twin(s, t) && Generations(s) && Generations(t)
    ensures Twin(GetOrCreateState(s), GetOrCreateState(t))
  {
    var s', t' := GetOrCreateState(s), GetOrCreateState(t);
    assert t' == s'.(link := s'.link.(attempts := t'.link.attempts));
    if s.state.None? {
      assert forall id :: !Current(s', id) && !Current(t', id);
    }
  }

  /** One more attempt, the same on both sides, for the state that both sides hold. */
  lemma TwinAttempt(s: Slice, t: Slice, s': Slice, t': Slice, a: Attempt)
    requires Twin(s, t) && t' == s'.(link := s'.link.(attempts := t'.link.attempts))
    requires s.state.Some? && s'.state.Some? && s'.state.value.generation == s.state.value.generation
    requires s'.link.attempts == s.link.attempts[s.link.issued := a] && t'.link.attempts == t.link.attempts[s.link.issued := a]
    ensures Twin(s', t')
  {
    forall id ensures (Current(s', id) <==> Current(t', id)) && (Current(s', id) ==> s'.link.attempts[id] == t'.link.attempts[id]) {
      assert Current(s, id) <==> Current(t, id);
      assert id != s.link.issued ==> (Current(s', id) <==> Current(s, id)) && (Current(t', id) <==> Current(t, id));
    }
  }

  lemma TwinEnsure(s: Slice, t: Slice)
    requires Twin(s, t) && Generations(s) && Generations(t)
    ensures Twin(Ensure(s), Ensure(t))
  {
    TwinGetOrCreate(s, t);
    var s1, t1 := GetOrCreateState(s), GetOrCreateState(t);
    if s1.state.value.status == Idle {
      TwinAttempt(s1, t1, Ensure(s), Ensure(t), Ensure(s).link.attempts[s1.link.issued]);
    }
  }

  lemma TwinSubscribe(s: Slice, t: Slice)
    requires NeverStuck(s) && NeverStuck(t) && Twin(s, t)
    ensures Twin(Subscribe(s), Subscribe(t))
  {
    if s.subject {
      assert forall id :: Current(s, id) <==> Current(t, id);
    } else {
      var s1, t1 := s.(subject := true, refCount := Some(0)), t.(subject := true, refCount := Some(0));
      TwinEnsure(s1, t1);
      assert forall id :: Current(Ensure(s1), id) <==> Current(Ensure(t1), id);
    }
  }

  lemma TwinTimer(s: Slice, t: Slice, timer: nat)
    requires NeverStuck(s) && NeverStuck(t) && Twin(s, t) && timer in s.timers
    ensures Twin(OnTimer(s, timer), OnTimer(t, timer))
  {
    var state := Some(s.state.value.(retryTimeout := None));
    var s1, t1 := s.(timers := s.timers - {timer}, state := state), t.(timers := t.timers - {timer}, state := state);
    assert forall id :: (Current(s1, id) <==> Current(s, id)) && (Current(t1, id) <==> Current(t, id));
    TwinEnsure(s1, t1);
  }

  /** Deleting every stale completion from a run leaves a run with the same service state, handler,
      wire and Redis side: a completion that was overtaken by a teardown decides nothing. */
  lemma {:induction false} StaleCompletionsErasable(s: Slice, steps: seq<Step>, t: Slice)
    requires Sound(s) && IsRun(s, steps) && Guarded(s, steps)
    requires NeverStuck(t) && Twin(s, t)
    ensures IsRun(t, Erase(s, steps))
    ensures Twin(After(s, steps), After(t, Erase(s, steps)))
    decreases |steps|
  {
    if steps != [] {
      var step, rest := steps[0], Erase(Next(s, steps[0]), steps[1..]);
      AgreementStep(s, step);
      if Stale(s, step) {
        StaleStep(s, step, t);
        StaleCompletionsErasable(Next(s, step), steps[1..], t);
      } else {
        TwinStep(s, step, t);
        NeverStuckStep(t, step);
        StaleCompletionsErasable(Next(s, step), steps[1..], Next(t, step));
        RunCons(t, step, rest);
      }
    }
  }

  // ----- All organizations of one process -----

  /** What one process, its Redis connection and its event loop hold, for every organization. */
  type World = w: imap<string, Slice> | forall o :: o in w ghost witness imap o: string :: Fresh

  ghost predicate WorldStep(w: World, w': World, o: string, step: Step) {
    && Enabled(w[o], step) && w'[o] == Next(w[o], step)
    && (w[o].link.connected ==> w'[o].link.connected)
    && forall p :: p != o ==>
         w'[p] == w[p].(link := w[p].link.(connected := w'[p].link.connected)) && (w[p].link.connected ==> w'[p].link.connected)
  }

  ghost predicate NobodyStuck(w: World) {
    forall o :: NeverStuck(w[o])
  }

  ghost predicate AllSound(w: World) {
    forall o :: Sound(w[o])
  }

  /** A step of one organization disturbs no other, although they share the connection. */
  lemma WorldStepKeeps(w: World, w': World, o: string, step: Step)
    requires NobodyStuck(w) && WorldStep(w, w', o, step)
    ensures NobodyStuck(w')
    ensures AllSound(w) ==> (AllSound(w') <==> !Superseded(w[o], step))
  {
    NeverStuckStep(w[o], step);
    forall p | p != o ensures NeverStuck(w'[p]) {
      SameAttempts(w[p], w'[p]);
    }
    if AllSound(w) {
      AgreementStep(w[o], step);
      forall p | p != o ensures Sound(w'[p]) {
        SameLayers(w[p], w'[p]);
      }
    }
  }

  /** Every run of the whole process leaves nobody stuck. */
  lemma WorldNeverStuck(w: World, trace: seq<((string, Step), World)>)
    requires NobodyStuck(w)
    requires IsTrace((a: World, l: (string, Step), b: World) => WorldStep(a, b, l.0, l.1), w, trace)
    ensures NobodyStuck(End(w, trace))
  {
    var step := (a: World, l: (string, Step), b: World) => WorldStep(a, b, l.0, l.1);
    forall a: World, l: (string, Step), b: World | NobodyStuck(a) && step(a, l, b) ensures NobodyStuck(b) {
      WorldStepKeeps(a, b, l.0, l.1);
    }
    Invariant((a: World) => NobodyStuck(a), step, w, trace);
  }

  /** As long as no rejection is superseded, all layers agree about all organizations. */
  lemma WorldAgrees(w: World, trace: seq<((string, Step), World)>)
    requires AllSound(w)
    requires IsTrace((a: World, l: (string, Step), b: World) => WorldStep(a, b, l.0, l.1) && !Superseded(a[l.0], l.1), w, trace)
    ensures AllSound(End(w, trace))
  {
    var step := (a: World, l: (string, Step), b: World) => WorldStep(a, b, l.0, l.1) && !Superseded(a[l.0], l.1);
    forall a: World, l: (string, Step), b: World | AllSound(a) && step(a, l, b) ensures AllSound(b) {
      SoundStep(a, b, l.0, l.1);
    }
    Invariant((a: World) => AllSound(a), step, w, trace);
  }

  /** A process that has just started. */
  ghost predicate JustStarted(w: World) {
    forall o :: w[o] == Fresh
  }

  /** From the start of the process on, nobody is ever stuck. */
  lemma WorldFromStart(w: World, trace: seq<((string, Step), World)>)
    requires JustStarted(w) && IsTrace((a: World, l: (string, Step), b: World) => WorldStep(a, b, l.0, l.1), w, trace)
    ensures NobodyStuck(End(w, trace))
  {
    FreshIsSound();
    forall o ensures NeverStuck(w[o]) { assert w[o] == Fresh; }
    WorldNeverStuck(w, trace);
  }

  lemma SoundStep(w: World, w': World, o: string, step: Step)
    requires AllSound(w) && WorldStep(w, w', o, step) && !Superseded(w[o], step)
    ensures AllSound(w')
  {
    forall o ensures NeverStuck(w[o]) { assert Sound(w[o]); }
    WorldStepKeeps(w, w', o, step);
  }
}

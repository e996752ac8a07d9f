/**
 Delivery of one outbound message with its three kinds of writers: the API's create and enqueue
 path, any number of concurrent worker invocations, and the provider's status webhook.
 */
module OutboundDelivery {
  import opened Wrappers
  import opened Messages
  import opened MessageTable
  import opened Runs

  // ----- What each writer does to the row -----

  predicate Claimable(m: Message) {
    m.direction == OUTBOUND && (m.deliveryStatus == Some(QUEUED) || m.deliveryStatus == Some(FAILED))
  }

  function ClaimedRow(m: Message, now: Time): Message {
    m.(deliveryStatus := Some(SENDING), deliveryStatusUpdatedAt := Some(now), providerError := None, failedAt := None)
  }

  function SentRow(m: Message, providerMessageId: string, now: Time): Message {
    m.(providerMessageId := Some(providerMessageId), deliveryStatus := Some(SENT), deliveryStatusUpdatedAt := Some(now),
       sentAt := Some(now), providerError := None, failedAt := None)
  }

  function FailedRow(m: Message, error: string, now: Time): Message {
    m.(deliveryStatus := Some(FAILED), deliveryStatusUpdatedAt := Some(now), providerError := Some(error), failedAt := Some(now))
  }

  // ----- The interleaved system -----

  /** Where a worker invocation is between its claim and its final write. */
  datatype Stage = Claimed | Loaded | Accepted(providerMessageId: string) | Broken(error: string)

  datatype Api = Creating | Enqueued | EnqueueFailed | FailureWritten

  datatype System = System(row: Message, api: Api, workers: map<nat, Stage>, claims: nat, calls: nat)

  datatype Step =
    | Enqueue(ok: bool)
    | WriteEnqueueFailure(now: Time)
    | Claim(worker: nat, now: Time)
    | Load(worker: nat)
    | Reject(worker: nat, error: string)              // missing channel id or contact
    | Call(worker: nat, outcome: Option<string>, error: string)
    | WriteSent(worker: nat, now: Time)
    | WriteSentFails(worker: nat, error: string)      // the update itself throws
    | WriteFailed(worker: nat, now: Time)
    | Crash(worker: nat)
    | Report(arrival: Arrival)

  const ENQUEUE_FAILURE := "Outbound queue enqueue failed"

  /** A failed enqueue added no job, so no worker runs for the message. */
  ghost predicate Enabled(s: System, step: Step) {
    match step
    case Enqueue(_) => s.api == Creating
    case WriteEnqueueFailure(_) => s.api == EnqueueFailed
    case Claim(w, _) => s.api == Enqueued && w !in s.workers
    case Load(w) => w in s.workers && s.workers[w] == Claimed
    case Reject(w, _) => w in s.workers && s.workers[w] == Loaded
    case Call(w, _, _) => w in s.workers && s.workers[w] == Loaded
    case WriteSent(w, _) => w in s.workers && s.workers[w].Accepted?
    case WriteSentFails(w, _) => w in s.workers && s.workers[w].Accepted?
    case WriteFailed(w, _) => w in s.workers && s.workers[w].Broken?
    case Crash(w) => w in s.workers
    case Report(a) => Reported(a.update.deliveryStatus)
  }

  /** The webhook finds the row only by the provider id that a worker recorded. */
  predicate Finds(m: Message, a: Arrival) {
    m.direction == OUTBOUND && m.providerMessageId == Some(a.update.providerMessageId)
  }

  ghost function Next(s: System, step: Step): System
    requires Enabled(s, step)
  {
    match step
    case Enqueue(ok) => s.(api := if ok then Enqueued else EnqueueFailed)
    case WriteEnqueueFailure(now) => s.(api := FailureWritten, row := FailedRow(s.row, ENQUEUE_FAILURE, now))
    case Claim(w, now) =>
      if Claimable(s.row) then s.(row := ClaimedRow(s.row, now), workers := s.workers[w := Claimed], claims := s.claims + 1)
      else s
    case Load(w) =>
      if s.row.direction == OUTBOUND then s.(workers := s.workers[w := Loaded]) else s.(workers := s.workers - {w})
    case Reject(w, error) => s.(workers := s.workers[w := Broken(error)])
    case Call(w, outcome, error) =>
      s.(calls := s.calls + 1,
         workers := s.workers[w := if outcome.Some? then Accepted(outcome.value) else Broken(error)])
    case WriteSent(w, now) => s.(row := SentRow(s.row, s.workers[w].providerMessageId, now), workers := s.workers - {w})
    case WriteSentFails(w, error) => s.(workers := s.workers[w := Broken(error)])
    case WriteFailed(w, now) =>
      s.(row := if s.row.direction == OUTBOUND then FailedRow(s.row, s.workers[w].error, now) else s.row,
         workers := s.workers - {w})
    case Crash(w) => s.(workers := s.workers - {w})
    case Report(a) => if Finds(s.row, a) then s.(row := Apply(s.row, a)) else s
  }

  function Start(body: string, conversation: nat, now: Time): System {
    System(OutboundRow(body, conversation, now), Creating, map[], 0, 0)
  }

  ghost predicate IsStep(s: System, step: Step, s': System) {
    Enabled(s, step) && s' == Next(s, step)
  }

  // ----- The row over whole runs -----

  lemma RecordStep(s: System, step: Step)
    requires Record(s.row) && Enabled(s, step)
    ensures Record(Next(s, step).row) && WriteOnce(s.row, Next(s, step).row)
  {
  }

  lemma WriteOnceTransitive(a: Message, b: Message, c: Message)
    requires WriteOnce(a, b) && WriteOnce(b, c)
    ensures WriteOnce(a, c)
  {
  }

  lemma RecordRun(s: System, trace: seq<(Step, System)>)
    requires Record(s.row) && IsTrace(IsStep, s, trace)
    ensures Record(End(s, trace).row) && WriteOnce(s.row, End(s, trace).row)
  {
    forall a: System, l: Step, b: System | Record(a.row) && WriteOnce(s.row, a.row) && IsStep(a, l, b) ensures Record(b.row) && WriteOnce(s.row, b.row) {
      RecordStep(a, l);
      WriteOnceTransitive(s.row, a.row, b.row);
    }
    Invariant((t: System) => Record(t.row) && WriteOnce(s.row, t.row), IsStep, s, trace);
  }

  // ----- Mutual exclusion -----

  /** At most one invocation is between its claim and its final write. */
  ghost predicate AtMostOne(s: System) {
    forall v, w :: v in s.workers && w in s.workers ==> v == w
  }

  /** While one is, nobody else can claim. */
  ghost predicate Exclusive(s: System) {
    AtMostOne(s) && (s.workers.Keys != {} ==> s.api == Enqueued && !Claimable(s.row))
  }

  ghost predicate Outbound(s: System) {
    s.row.direction == OUTBOUND && (s.api != Enqueued ==> s.workers == map[])
  }

  /** The one thing that reopens a claim while an invocation is running: a failure report that is applied. */
  ghost predicate ReopensClaim(s: System, step: Step) {
    step.Report? && Finds(s.row, step.arrival) && step.arrival.update.deliveryStatus == FAILED
    && ShouldApplyStatusTransition(s.row.deliveryStatus, FAILED) && s.workers.Keys != {}
  }

  /** A step keeps mutual exclusion exactly if it is not such a report. */
  lemma ExclusionStep(s: System, step: Step)
    requires Exclusive(s) && Outbound(s) && Enabled(s, step)
    ensures Outbound(Next(s, step))
    ensures Exclusive(Next(s, step)) <==> !ReopensClaim(s, step)
  {
    if step.Report? && s.workers.Keys != {} {
      var w :| w in s.workers;
      assert w in Next(s, step).workers;
    }
  }

  /** And then the exclusion is really lost: the very next invocation claims the message too. */
  lemma ReopenedClaimIsTaken(s: System, step: Step, w: nat, now: Time)
    requires Exclusive(s) && Outbound(s) && Enabled(s, step) && ReopensClaim(s, step) && w !in s.workers
    ensures var s1 := Next(s, step); Enabled(s1, Claim(w, now)) && !AtMostOne(Next(s1, Claim(w, now)))
  {
    var v :| v in s.workers;
    var s2 := Next(Next(s, step), Claim(w, now));
    assert v in s2.workers && w in s2.workers;
  }

  /** Mutual exclusion over whole runs in which no applied failure report overtakes an invocation. */
  lemma ExclusionRun(s: System, trace: seq<(Step, System)>)
    requires Exclusive(s) && Outbound(s)
    requires IsTrace((a: System, l: Step, b: System) => IsStep(a, l, b) && !ReopensClaim(a, l), s, trace)
    ensures Exclusive(End(s, trace))
  {
    var step := (a: System, l: Step, b: System) => IsStep(a, l, b) && !ReopensClaim(a, l);
    forall a, l, b | Exclusive(a) && Outbound(a) && step(a, l, b) ensures Exclusive(b) && Outbound(b) {
      ExclusionStep(a, l);
    }
    Invariant((t: System) => Exclusive(t) && Outbound(t), step, s, trace);
  }

  ghost predicate Unrecorded(s: System) {
    s.row.providerMessageId.None? ==> AtMostOne(s) && (s.workers.Keys != {} ==> s.row.deliveryStatus == Some(SENDING))
  }

  /** Without any guard: as long as no provider id is recorded, at most one invocation runs, and the
      message is SENDING while one does. */
  lemma UnrecordedRun(body: string, conversation: nat, now: Time, trace: seq<(Step, System)>)
    requires IsTrace(IsStep, Start(body, conversation, now), trace)
    ensures Unrecorded(End(Start(body, conversation, now), trace))
  {
    forall a, l, b | Unrecorded(a) && Outbound(a) && IsStep(a, l, b) ensures Unrecorded(b) && Outbound(b) {
      UnrecordedStep(a, l);
    }
    Invariant((t: System) => Unrecorded(t) && Outbound(t), IsStep, Start(body, conversation, now), trace);
  }

  lemma UnrecordedStep(s: System, step: Step)
    requires Unrecorded(s) && Outbound(s) && Enabled(s, step)
    ensures Unrecorded(Next(s, step)) && Outbound(Next(s, step))
  {
    var s' := Next(s, step);
    if s'.row.providerMessageId.None? {
      if step.WriteFailed? || step.Crash? {
        assert forall w :: w in s.workers ==> w == step.worker;
        assert s'.workers.Keys == {};
      } else if !step.Claim? && s'.workers.Keys != {} {
        var w :| w in s'.workers;
        assert w in s.workers;
      }
    }
  }

  /** Running the steps one after the other from `s`. */
  ghost predicate CanRun(s: System, steps: seq<Step>)
    decreases |steps|
  {
    steps == [] || (Enabled(s, steps[0]) && CanRun(Next(s, steps[0]), steps[1..]))
  }

  ghost function Result(s: System, steps: seq<Step>): System
    requires CanRun(s, steps)
    decreases |steps|
  {
    if steps == [] then s else Result(Next(s, steps[0]), steps[1..])
  }

  lemma RunCons(s: System, step: Step, rest: seq<Step>)
    requires Enabled(s, step) && CanRun(Next(s, step), rest)
    ensures CanRun(s, [step] + rest) && Result(s, [step] + rest) == Result(Next(s, step), rest)
  {
    assert ([step] + rest)[1..] == rest;
  }

  /** The undisturbed run of one invocation, to a recorded provider id. */
  lemma DeliveryRun(body: string, conversation: nat, now: Time, id: string)
    ensures
      var steps := [Enqueue(true), Claim(0, now), Load(0), Call(0, Some(id), ""), WriteSent(0, now)];
      CanRun(Start(body, conversation, now), steps)
      && Result(Start(body, conversation, now), steps)
         == System(Message(OUTBOUND, body, Some(id), Some(SENT), Some(now), None, Some(now), None, None, None, conversation, now),
                   Enqueued, map[], 1, 1)
  {
    var s0 := Start(body, conversation, now);
    var s1 := Next(s0, Enqueue(true));
    var s2 := Next(s1, Claim(0, now));
    var s3 := Next(s2, Load(0));
    var s4 := Next(s3, Call(0, Some(id), ""));
    RunCons(s4, WriteSent(0, now), []);
    assert Next(s4, WriteSent(0, now)).workers == map[];
    RunCons(s3, Call(0, Some(id), ""), [WriteSent(0, now)]);
    RunCons(s2, Load(0), [Call(0, Some(id), ""), WriteSent(0, now)]);
    RunCons(s1, Claim(0, now), [Load(0), Call(0, Some(id), ""), WriteSent(0, now)]);
    RunCons(s0, Enqueue(true), [Claim(0, now), Load(0), Call(0, Some(id), ""), WriteSent(0, now)]);
    assert [Enqueue(true)] + [Claim(0, now), Load(0), Call(0, Some(id), ""), WriteSent(0, now)]
        == [Enqueue(true), Claim(0, now), Load(0), Call(0, Some(id), ""), WriteSent(0, now)];
  }

  /** Two invocations can run once a provider id is recorded: after a late failure report a retry
      claims the message, a second report overtakes it, and another invocation claims once more. */
  lemma DoubleClaim(sent: System, failure: Arrival)
    requires sent.api == Enqueued && sent.workers == map[] && sent.row.deliveryStatus == Some(SENT)
    requires Finds(sent.row, failure) && failure.update.deliveryStatus == FAILED
    ensures
      var steps := [Report(failure), Claim(1, 0), Report(failure), Claim(2, 0)];
      CanRun(sent, steps) && !AtMostOne(Result(sent, steps)) && Result(sent, steps).row.deliveryStatus == Some(SENDING)
  {
    var s1 := Next(sent, Report(failure));
    var s2 := Next(s1, Claim(1, 0));
    var s3 := Next(s2, Report(failure));
    var s4 := Next(s3, Claim(2, 0));
    assert 1 in s4.workers && 2 in s4.workers;
    RunCons(s3, Claim(2, 0), []);
    RunCons(s2, Report(failure), [Claim(2, 0)]);
    RunCons(s1, Claim(1, 0), [Report(failure), Claim(2, 0)]);
    RunCons(sent, Report(failure), [Claim(1, 0), Report(failure), Claim(2, 0)]);
    assert [Report(failure)] + [Claim(1, 0), Report(failure), Claim(2, 0)] == [Report(failure), Claim(1, 0), Report(failure), Claim(2, 0)];
  }

  // ----- Provider calls -----

  ghost function BeforeCall(workers: map<nat, Stage>): set<nat> {
    set w | w in workers && (workers[w] == Claimed || workers[w] == Loaded)
  }

  /** Every provider call consumes a successful claim. */
  ghost predicate Paid(s: System) {
    s.calls + |BeforeCall(s.workers)| <= s.claims
  }

  /** Only a claim adds an invocation that may still call, and each call uses one up. */
  lemma BeforeCallStep(s: System, step: Step)
    requires Enabled(s, step)
    ensures var before, after := BeforeCall(s.workers), BeforeCall(Next(s, step).workers);
            if step.Claim? && Claimable(s.row) then after == before + {step.worker}
            else after <= before && (step.Call? ==> step.worker in before && after == before - {step.worker})
  {
  }

  lemma PaidStep(s: System, step: Step)
    requires Paid(s) && Enabled(s, step)
    ensures Paid(Next(s, step))
  {
    BeforeCallStep(s, step);
    var before, after := BeforeCall(s.workers), BeforeCall(Next(s, step).workers);
    if after <= before { assert |before - after| == |before| - |after|; }
  }

  /** Over every run, provider calls never exceed successful claims. */
  lemma CallsRun(body: string, conversation: nat, now: Time, trace: seq<(Step, System)>)
    requires IsTrace(IsStep, Start(body, conversation, now), trace)
    ensures var s := End(Start(body, conversation, now), trace); s.calls <= s.claims
  {
    forall a, l, b | Paid(a) && IsStep(a, l, b) ensures Paid(b) { PaidStep(a, l); }
    assert BeforeCall(map[]) == {};
    Invariant((t: System) => Paid(t), IsStep, Start(body, conversation, now), trace);
  }

  /** A step that makes the message claimable once more: a worker writes its failure, or a failure report
      is applied. */
  ghost predicate Fails(s: System, step: Step) {
    step.WriteFailed? || (step.Report? && step.arrival.update.deliveryStatus == FAILED && Finds(s.row, step.arrival)
                          && s.row.deliveryStatus !in {Some(FAILED), Some(DELIVERED), Some(READ)})
  }

  ghost function Failures(s: System, trace: seq<(Step, System)>): nat
    decreases |trace|
  {
    if trace == [] then 0 else (if Fails(s, trace[0].0) then 1 else 0) + Failures(trace[0].1, trace[1..])
  }

  /** Claims made, with the one that may come next, against failures. */
  ghost predicate Budgeted(s: System, failures: nat) {
    && s.claims + (if Claimable(s.row) then 1 else 0) <= 1 + failures
    && (s.api != Enqueued ==> s.claims == 0)
  }

  lemma BudgetStep(s: System, step: Step, failures: nat)
    requires Budgeted(s, failures) && Enabled(s, step) && Outbound(s)
    ensures Budgeted(Next(s, step), if Fails(s, step) then failures + 1 else failures) && Outbound(Next(s, step))
  {
  }

  lemma {:induction false} BudgetRun(s: System, trace: seq<(Step, System)>, failures: nat)
    requires Budgeted(s, failures) && Outbound(s) && IsTrace(IsStep, s, trace)
    ensures Budgeted(End(s, trace), failures + Failures(s, trace))
    decreases |trace|
  {
    if trace != [] {
      BudgetStep(s, trace[0].0, failures);
      BudgetRun(trace[0].1, trace[1..], if Fails(s, trace[0].0) then failures + 1 else failures);
      assert End(trace[0].1, trace[1..]) == End(s, trace);
    }
  }

  /** Over every run, whatever crashes: the provider is called once, and once more for each failure that
      was written or reported. Without a failure it is called once at most. */
  lemma CalledOncePerFailure(body: string, conversation: nat, now: Time, trace: seq<(Step, System)>)
    requires IsTrace(IsStep, Start(body, conversation, now), trace)
    ensures var s := Start(body, conversation, now); End(s, trace).calls <= 1 + Failures(s, trace)
  {
    BudgetRun(Start(body, conversation, now), trace, 0);
    CallsRun(body, conversation, now, trace);
  }

  /** A recorded provider id comes with the status SENT, and with the id the provider has answered. */
  lemma SentStep(s: System, step: Step)
    requires Enabled(s, step) && step.WriteSent?
    ensures var row := Next(s, step).row;
            && row.deliveryStatus == Some(SENT) && row.providerMessageId == Some(s.workers[step.worker].providerMessageId)
            && row.sentAt == Some(step.now) && row.deliveryStatusUpdatedAt == Some(step.now)
            && row.providerError.None? && row.failedAt.None? && !Claimable(row)
  {
  }

  /** A report in this machine is what the webhook worker's batch does to that row of the table. */
  lemma ReportIsTableStep(s: System, a: Arrival, t: seq<Message>, own: set<nat>, i: nat)
    requires i < |t| && t[i] == s.row && s.row.conversation in own && Enabled(s, Report(a))
    ensures FoldTable(t, [a], own)[i] == Next(s, Report(a)).row
    ensures Next(s, Report(a)).row != s.row ==> s.row.direction == OUTBOUND && s.row.providerMessageId == Some(a.update.providerMessageId)
  {
    assert FoldTable(t, [a], own) == FoldTable(ApplyToTable(t, a, own), [a][1..], own);
    assert [a][1..] == [];
  }
}

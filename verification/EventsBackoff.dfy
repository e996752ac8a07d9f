/** How long the service waits before it subscribes again, counted over whole runs. */
module EventsBackoff {
  import opened Wrappers
  import opened EventsProtocol

  /** The rejections of the current generation, counted from the steps of a run: since its state record
      was created, or since an attempt of it was last fulfilled. */
  ghost function Counted(s: Slice, step: Step, k: nat): nat
    requires Enabled(s, step)
  {
    if s.state.None? || Next(s, step).state.None? then 0
    else if step.Fulfilled? && Current(s, step.id) then 0
    else if step.Rejected? && Current(s, step.id) then k + 1
    else k
  }

  ghost function Rejections(s: Slice, steps: seq<Step>, k: nat): nat
    requires IsRun(s, steps)
    decreases |steps|
  {
    if steps == [] then k else Rejections(Next(s, steps[0]), steps[1..], Counted(s, steps[0], k))
  }

  /** The wait after the k-th rejection in a row: one second, doubled each time, and five at most. */
  function Schedule(k: nat): nat {
    if k <= 1 then 1000 else if k == 2 then 2000 else if k == 3 then 4000 else 5000
  }

  lemma DelayFollowsSchedule(k: nat)
    ensures RetryDelay(k) == Schedule(k)
  {
    Power2Grows(if k == 0 then 0 else k - 1);
  }

  /** The record counts attempts, of which every one but the last was rejected. */
  ghost predicate Tracks(s: Slice, k: nat) {
    match s.state
    case None => k == 0
    case Some(st) =>
      match st.status
      case Subscribing => st.attempt == k + 1
      case Subscribed => st.attempt == 0 && k == 0
      case Idle => st.attempt == k && k >= 1 && forall t :: t in s.timers ==> s.timers[t] == Schedule(k)
  }

  lemma TracksStep(s: Slice, step: Step, k: nat)
    requires NeverStuck(s) && Tracks(s, k) && Enabled(s, step)
    ensures Tracks(Next(s, step), Counted(s, step, k))
  {
    var s' := Next(s, step);
    if step.Rejected? && Current(s, step.id) {
      DelayFollowsSchedule(s.state.value.attempt);
      assert OnlyAttempt(s, step.id);
      assert s'.timers.Keys == {s.timersIssued};
    } else if step.Fulfilled? && Current(s, step.id) {
      assert OnlyAttempt(s, step.id);
    }
  }

  lemma {:induction false} TracksRun(s: Slice, steps: seq<Step>, k: nat)
    requires NeverStuck(s) && Tracks(s, k) && IsRun(s, steps)
    ensures Tracks(After(s, steps), Rejections(s, steps, k))
    decreases |steps|
  {
    if steps != [] {
      NeverStuckStep(s, steps[0]);
      TracksStep(s, steps[0], k);
      TracksRun(Next(s, steps[0]), steps[1..], Counted(s, steps[0], k));
    }
  }

  /** Over every run: an armed timer waits as long as the number of rejections in a row says. */
  lemma BackoffRun(steps: seq<Step>)
    requires IsRun(Fresh, steps)
    ensures var s, k := After(Fresh, steps), Rejections(Fresh, steps, 0);
            forall t :: t in s.timers ==> k >= 1 && s.timers[t] == Schedule(k)
  {
    TracksRun(Fresh, steps, 0);
    NeverStuckRun(Fresh, steps);
  }
}

/** Message rows and the provider status reports that the webhook worker folds into them. */
module Messages {
  import opened Wrappers

  type Time = int

  datatype Direction = INBOUND | OUTBOUND

  datatype DeliveryStatus = QUEUED | SENDING | SENT | DELIVERED | READ | FAILED

  datatype Message = Message(
    direction: Direction,
    body: string,
    providerMessageId: Option<string>,
    deliveryStatus: Option<DeliveryStatus>,
    deliveryStatusUpdatedAt: Option<Time>,
    providerError: Option<string>,
    sentAt: Option<Time>,
    deliveredAt: Option<Time>,
    readAt: Option<Time>,
    failedAt: Option<Time>,
    conversation: nat,
    createdAt: Time)

  /** The row that `createOutboundMessage` inserts. */
  function OutboundRow(body: string, conversation: nat, at: Time): Message {
    Message(OUTBOUND, body, None, Some(QUEUED), Some(at), None, None, None, None, None, conversation, at)
  }

  datatype StatusUpdate = StatusUpdate(
    providerMessageId: string,
    deliveryStatus: DeliveryStatus,
    failedReason: Option<string>,
    occurredAt: Option<Time>)

  /** An update and the clock reading at which the worker applies it. */
  datatype Arrival = Arrival(update: StatusUpdate, now: Time)

  /** The statuses that a provider reports. */
  predicate Reported(s: DeliveryStatus) {
    s == SENT || s == DELIVERED || s == READ || s == FAILED
  }

  function StatusRank(status: Option<DeliveryStatus>): int {
    match status
    case Some(QUEUED) => 0
    case Some(SENDING) => 1
    case Some(FAILED) => 1
    case Some(SENT) => 2
    case Some(DELIVERED) => 3
    case Some(READ) => 4
    case None => -1
  }

  predicate ShouldApplyStatusTransition(current: Option<DeliveryStatus>, incoming: DeliveryStatus) {
    if incoming == FAILED then
      current != Some(FAILED) && current != Some(DELIVERED) && current != Some(READ)
    else if current == Some(READ) then false
    else StatusRank(Some(incoming)) > StatusRank(current)
  }

  const DEFAULT_FAILURE := "WhatsApp delivery failed"

  /** The first of two optional times that is set. */
  function FirstSet(old_: Option<Time>, new_: Time): Option<Time> {
    if old_.Some? then old_ else Some(new_)
  }

  /** The row after one update, in one expression. */
  function Apply(m: Message, a: Arrival): Message {
    var u := a.update;
    var at := u.occurredAt.GetOr(a.now);
    if !ShouldApplyStatusTransition(m.deliveryStatus, u.deliveryStatus) then m
    else
      m.(deliveryStatus := Some(u.deliveryStatus),
         deliveryStatusUpdatedAt := Some(at),
         failedAt := if u.deliveryStatus == FAILED then Some(at) else None,
         providerError := if u.deliveryStatus == FAILED then Some(u.failedReason.GetOr(DEFAULT_FAILURE)) else None,
         sentAt := if u.deliveryStatus in {SENT, DELIVERED, READ} then FirstSet(m.sentAt, at) else m.sentAt,
         deliveredAt := if u.deliveryStatus in {DELIVERED, READ} then FirstSet(m.deliveredAt, at) else m.deliveredAt,
         readAt := if u.deliveryStatus == READ then FirstSet(m.readAt, at) else m.readAt)
  }

  function Fold(m: Message, us: seq<Arrival>): Message
    decreases |us|
  {
    if us == [] then m else Fold(Apply(m, us[0]), us[1..])
  }

  ghost predicate AllReported(us: seq<Arrival>) {
    forall i :: 0 <= i < |us| ==> Reported(us[i].update.deliveryStatus)
  }

  // ----- Closed form -----

  predicate Settled(s: Option<DeliveryStatus>) {
    s == Some(DELIVERED) || s == Some(READ)
  }

  predicate Mentions(us: seq<Arrival>, s: DeliveryStatus) {
    exists i :: 0 <= i < |us| && us[i].update.deliveryStatus == s
  }

  /** What the status ends up as, without running the fold: READ if it occurs anywhere, else
      DELIVERED if that occurs, else whatever was reported last. */
  function Outcome(start: Option<DeliveryStatus>, us: seq<Arrival>): Option<DeliveryStatus> {
    if start == Some(READ) || Mentions(us, READ) then Some(READ)
    else if start == Some(DELIVERED) || Mentions(us, DELIVERED) then Some(DELIVERED)
    else if us == [] then start
    else Some(us[|us| - 1].update.deliveryStatus)
  }

  lemma MentionsTail(us: seq<Arrival>)
    requires us != []
    ensures forall s :: Mentions(us[1..], s) ==> Mentions(us, s)
  {
    forall s | Mentions(us[1..], s) ensures Mentions(us, s) {
      var i :| 0 <= i < |us| - 1 && us[1..][i].update.deliveryStatus == s;
      assert us[i + 1].update.deliveryStatus == s;
    }
  }

  lemma MentionsCons(us: seq<Arrival>)
    requires us != []
    ensures forall s :: Mentions(us, s) <==> us[0].update.deliveryStatus == s || Mentions(us[1..], s)
  {
    MentionsTail(us);
    forall s | Mentions(us, s) && us[0].update.deliveryStatus != s ensures Mentions(us[1..], s) {
      var i :| 0 <= i < |us| && us[i].update.deliveryStatus == s;
      assert us[1..][i - 1].update.deliveryStatus == s;
    }
  }

  lemma {:induction false} FoldClosedForm(m: Message, us: seq<Arrival>)
    requires AllReported(us)
    ensures Fold(m, us).deliveryStatus == Outcome(m.deliveryStatus, us)
    decreases |us|
  {
    if us != [] {
      var m', rest := Apply(m, us[0]), us[1..];
      FoldClosedForm(m', rest);
      MentionsCons(us);
    }
  }

  ghost predicate AllAlike(us: seq<Arrival>) {
    forall i, j :: 0 <= i < j < |us| ==> us[i].update.deliveryStatus == us[j].update.deliveryStatus
  }

  /** When the order of the reports is without effect on the status. */
  ghost predicate OrderFree(start: Option<DeliveryStatus>, us: seq<Arrival>) {
    Settled(start) || Mentions(us, DELIVERED) || Mentions(us, READ) || AllAlike(us)
  }

  lemma SameReports(us: seq<Arrival>, vs: seq<Arrival>)
    requires AllReported(us) && multiset(us) == multiset(vs)
    ensures AllReported(vs) && forall s :: Mentions(us, s) <==> Mentions(vs, s)
  {
    forall i | 0 <= i < |vs| ensures Reported(vs[i].update.deliveryStatus) {
      assert vs[i] in multiset(us);
    }
    SameMentions(us, vs);
    SameMentions(vs, us);
  }

  /** Reports may arrive in any order: then all orders converge. */
  lemma PermutationsConverge(m: Message, us: seq<Arrival>, vs: seq<Arrival>)
    requires AllReported(us) && multiset(us) == multiset(vs) && OrderFree(m.deliveryStatus, us)
    ensures Fold(m, us).deliveryStatus == Fold(m, vs).deliveryStatus
  {
    SameReports(us, vs);
    FoldClosedForm(m, us);
    FoldClosedForm(m, vs);
    assert |us| == |multiset(us)| == |multiset(vs)| == |vs|;
    if us != [] {
      var last := us[|us| - 1].update.deliveryStatus;
      assert vs[|vs| - 1] in multiset(vs);
      assert Mentions(vs, vs[|vs| - 1].update.deliveryStatus);
      var i :| 0 <= i < |us| && us[i].update.deliveryStatus == vs[|vs| - 1].update.deliveryStatus;
      assert AllAlike(us) ==> us[i].update.deliveryStatus == last;
    }
  }

  lemma SameMentions(us: seq<Arrival>, vs: seq<Arrival>)
    requires multiset(us) == multiset(vs)
    ensures forall s :: Mentions(us, s) ==> Mentions(vs, s)
  {
    forall s | Mentions(us, s) ensures Mentions(vs, s) {
      var i :| 0 <= i < |us| && us[i].update.deliveryStatus == s;
      assert us[i] in multiset(us);
      assert us[i] in vs;
    }
  }

  /** Otherwise the last report wins, and another order has another last report. */
  lemma OrderMattersOtherwise(m: Message, us: seq<Arrival>) returns (vs: seq<Arrival>)
    requires AllReported(us) && !OrderFree(m.deliveryStatus, us)
    ensures multiset(vs) == multiset(us) && Fold(m, vs).deliveryStatus != Fold(m, us).deliveryStatus
  {
    var last := |us| - 1;
    var k :| 0 <= k < last && us[k].update.deliveryStatus != us[last].update.deliveryStatus;
    vs := us[k := us[last]][last := us[k]];
    SameReports(us, vs);
    FoldClosedForm(m, us);
    FoldClosedForm(m, vs);
  }

  /** All orders of the reports lead to the same status exactly if the row is delivered or read to begin
      with, one of them says so, or all of them say the same. */
  lemma OrdersAgreeExactly(m: Message, us: seq<Arrival>)
    requires AllReported(us)
    ensures (forall vs :: multiset(vs) == multiset(us) ==> Fold(m, vs).deliveryStatus == Fold(m, us).deliveryStatus)
            <==> OrderFree(m.deliveryStatus, us)
  {
    if OrderFree(m.deliveryStatus, us) {
      forall vs | multiset(vs) == multiset(us) ensures Fold(m, vs).deliveryStatus == Fold(m, us).deliveryStatus {
        PermutationsConverge(m, us, vs);
      }
    } else {
      var vs := OrderMattersOtherwise(m, us);
    }
  }

  /** So the status is not monotone: from any row that is not yet delivered, three reports take it to
      SENT, to FAILED and to SENT again. */
  lemma StatusGoesBack(m: Message, sent: Arrival, failed: Arrival, again: Arrival)
    requires !Settled(m.deliveryStatus)
    requires sent.update.deliveryStatus == SENT && failed.update.deliveryStatus == FAILED && again.update.deliveryStatus == SENT
    ensures Fold(m, [sent]).deliveryStatus == Some(SENT)
    ensures Fold(m, [sent, failed]).deliveryStatus == Some(FAILED)
    ensures Fold(m, [sent, failed, again]).deliveryStatus == Some(SENT)
  {
    FoldClosedForm(m, [sent]);
    FoldClosedForm(m, [sent, failed]);
    FoldClosedForm(m, [sent, failed, again]);
  }

  // ----- Idempotence -----

  /** The same updates, applied at other times, each with its own provider timestamp. */
  ghost predicate SameUpdates(us: seq<Arrival>, vs: seq<Arrival>) {
    |us| == |vs|
    && forall i :: 0 <= i < |us| ==> us[i].update == vs[i].update && us[i].update.occurredAt.Some?
  }

  /** All that a SENT or FAILED report decides; it never undoes the write-once times. */
  ghost predicate SameButSentAt(m: Message, n: Message) {
    n == m.(sentAt := n.sentAt)
  }

  /** Once settled, neither an earlier nor the same report moves the row. */
  lemma {:induction false} SettledAbsorbs(m: Message, us: seq<Arrival>)
    requires AllReported(us) && Settled(m.deliveryStatus)
    requires m.deliveryStatus == Some(DELIVERED) ==> !Mentions(us, READ)
    ensures Fold(m, us) == m
    decreases |us|
  {
    if us != [] {
      assert us[0].update.deliveryStatus == READ ==> Mentions(us, READ);
      assert Apply(m, us[0]) == m;
      MentionsTail(us);
      SettledAbsorbs(m, us[1..]);
    }
  }

  ghost predicate Unsettling(us: seq<Arrival>) {
    forall i :: 0 <= i < |us| ==> us[i].update.deliveryStatus == SENT || us[i].update.deliveryStatus == FAILED
  }

  /** Reports that only repeat the current status are all skipped. */
  lemma {:induction false} RepeatsAbsorbed(m: Message, us: seq<Arrival>)
    requires Unsettling(us)
    requires forall i :: 0 <= i < |us| ==> m.deliveryStatus == Some(us[i].update.deliveryStatus)
    ensures Fold(m, us) == m
    decreases |us|
  {
    if us != [] { RepeatsAbsorbed(m, us[1..]); }
  }

  lemma {:induction false} FoldKeepsAgreement(m: Message, n: Message, us: seq<Arrival>, vs: seq<Arrival>)
    requires Unsettling(us) && SameUpdates(us, vs) && SameButSentAt(m, n)
    ensures SameButSentAt(Fold(m, us), Fold(n, vs))
    ensures n.sentAt.Some? ==> Fold(n, vs).sentAt == n.sentAt
    decreases |us|
  {
    if us != [] { FoldKeepsAgreement(Apply(m, us[0]), Apply(n, vs[0]), us[1..], vs[1..]); }
  }

  /** Two rows with the same status agree from the first report on that is not skipped by both. */
  lemma {:induction false} FoldReachesAgreement(m: Message, n: Message, us: seq<Arrival>, vs: seq<Arrival>, k: nat)
    requires Unsettling(us) && SameUpdates(us, vs) && k < |us|
    requires m.deliveryStatus == n.deliveryStatus && m.deliveryStatus in {Some(SENT), Some(FAILED)}
    requires Some(us[k].update.deliveryStatus) != m.deliveryStatus
    requires n == m.(deliveryStatusUpdatedAt := n.deliveryStatusUpdatedAt, failedAt := n.failedAt, providerError := n.providerError, sentAt := n.sentAt)
    ensures SameButSentAt(Fold(m, us), Fold(n, vs))
    ensures n.sentAt.Some? ==> Fold(n, vs).sentAt == n.sentAt
    decreases |us|
  {
    if Some(us[0].update.deliveryStatus) == m.deliveryStatus {
      FoldReachesAgreement(m, n, us[1..], vs[1..], k - 1);
    } else {
      FoldKeepsAgreement(Apply(m, us[0]), Apply(n, vs[0]), us[1..], vs[1..]);
    }
  }

  lemma {:induction false} UnsettlingFold(m: Message, us: seq<Arrival>)
    requires Unsettling(us) && !Settled(m.deliveryStatus)
    requires m.deliveryStatus == Some(SENT) ==> m.sentAt.Some?
    ensures !Settled(Fold(m, us).deliveryStatus)
    ensures m.sentAt.Some? ==> Fold(m, us).sentAt == m.sentAt
    ensures Mentions(us, SENT) ==> Fold(m, us).sentAt.Some?
    ensures !Mentions(us, SENT) ==> Fold(m, us).sentAt == m.sentAt
    ensures Fold(m, us) == m.(deliveryStatus := Fold(m, us).deliveryStatus, deliveryStatusUpdatedAt := Fold(m, us).deliveryStatusUpdatedAt,
                              failedAt := Fold(m, us).failedAt, providerError := Fold(m, us).providerError, sentAt := Fold(m, us).sentAt)
    decreases |us|
  {
    if us != [] {
      UnsettlingFold(Apply(m, us[0]), us[1..]);
      MentionsTail(us);
      if Mentions(us, SENT) && us[0].update.deliveryStatus != SENT {
        var i :| 0 <= i < |us| && us[i].update.deliveryStatus == SENT;
        assert us[1..][i - 1].update.deliveryStatus == SENT;
      }
      if us[0].update.deliveryStatus == SENT { assert Mentions(us, SENT); }
    }
  }

  /** Applying a list of timestamped reports again, at whatever later time, changes no field. */
  lemma FoldIdempotent(m: Message, us: seq<Arrival>, vs: seq<Arrival>)
    requires AllReported(us) && SameUpdates(us, vs)
    requires m.deliveryStatus == Some(SENT) ==> m.sentAt.Some?
    ensures Fold(Fold(m, us), vs) == Fold(m, us)
  {
    var once := Fold(m, us);
    FoldClosedForm(m, us);
    assert forall s :: Mentions(vs, s) ==> Mentions(us, s) by {
      forall s | Mentions(vs, s) ensures Mentions(us, s) {
        var i :| 0 <= i < |vs| && vs[i].update.deliveryStatus == s;
        assert us[i].update.deliveryStatus == s;
      }
    }
    if Settled(once.deliveryStatus) {
      SettledAbsorbs(once, vs);
    } else if us != [] {
      assert !Mentions(us, DELIVERED) && !Mentions(us, READ);
      assert forall i :: 0 <= i < |us| ==> us[i].update.deliveryStatus != DELIVERED && us[i].update.deliveryStatus != READ;
      UnsettlingFoldTwice(m, us, vs);
    }
  }

  lemma AlternatingFoldTwice(m: Message, us: seq<Arrival>, vs: seq<Arrival>, k: nat)
    requires us != [] && Unsettling(us) && Unsettling(vs) && SameUpdates(us, vs) && !Settled(m.deliveryStatus)
    requires m.deliveryStatus == Some(SENT) ==> m.sentAt.Some?
    requires 1 <= k < |us| && us[k].update.deliveryStatus != us[0].update.deliveryStatus
    ensures Fold(Fold(m, us), vs) == Fold(m, us)
  {
    var once := Fold(m, us);
    var m1, n1 := Apply(m, us[0]), Apply(once, vs[0]);
    UnsettlingFold(m, us);
    assert once == Fold(m1, us[1..]) && Fold(once, vs) == Fold(n1, vs[1..]);
    assert us[0].update.deliveryStatus == SENT || us[k].update.deliveryStatus == SENT;
    assert Mentions(us, SENT);
    UnsettlingFold(m1, us[1..]);
    FoldReachesAgreement(m1, n1, us[1..], vs[1..], k - 1);
  }

  lemma UnsettlingFoldTwice(m: Message, us: seq<Arrival>, vs: seq<Arrival>)
    requires us != [] && Unsettling(us) && Unsettling(vs) && SameUpdates(us, vs) && !Settled(m.deliveryStatus)
    requires m.deliveryStatus == Some(SENT) ==> m.sentAt.Some?
    ensures Fold(Fold(m, us), vs) == Fold(m, us)
  {
    if k :| 1 <= k < |us| && us[k].update.deliveryStatus != us[0].update.deliveryStatus {
      AlternatingFoldTwice(m, us, vs, k);
    } else {
      UnsettlingFold(m, us);
      RepeatsAbsorbed(Apply(m, us[0]), us[1..]);
      RepeatsAbsorbed(Fold(m, us), vs);
    }
  }

  // ----- When a fold changes nothing -----

  /** No report of the list would be applied to a row with that status. */
  ghost predicate RefusesAll(status: Option<DeliveryStatus>, us: seq<Arrival>) {
    forall i :: 0 <= i < |us| ==> !ShouldApplyStatusTransition(status, us[i].update.deliveryStatus)
  }

  /** Where the last stretch of reports that say the same begins. */
  function LastChange(us: seq<Arrival>): (k: nat)
    requires us != []
    ensures k < |us|
  {
    var last := |us| - 1;
    if last == 0 || us[last].update.deliveryStatus != us[last - 1].update.deliveryStatus then last else LastChange(us[..last])
  }

  /** The row has the status, time and error of that report. */
  predicate Stamped(m: Message, a: Arrival) {
    var at := a.update.occurredAt.GetOr(a.now);
    && m.deliveryStatus == Some(a.update.deliveryStatus) && m.deliveryStatusUpdatedAt == Some(at)
    && m.failedAt == (if a.update.deliveryStatus == FAILED then Some(at) else None)
    && m.providerError == if a.update.deliveryStatus == FAILED then Some(a.update.failedReason.GetOr(DEFAULT_FAILURE)) else None
  }

  /** The row was last stamped by the very report that the list, however often its status alternates,
      ends up with. */
  ghost predicate Restored(m: Message, us: seq<Arrival>) {
    us != [] && Unsettling(us) && !Settled(m.deliveryStatus) && m.sentAt.Some? && Stamped(m, us[LastChange(us)])
  }

  lemma {:induction false} RefusedFold(m: Message, us: seq<Arrival>)
    requires RefusesAll(m.deliveryStatus, us)
    ensures Fold(m, us) == m
    decreases |us|
  {
    if us != [] { RefusedFold(m, us[1..]); }
  }

  lemma {:induction false} FoldAppend(m: Message, us: seq<Arrival>, a: Arrival)
    ensures Fold(m, us + [a]) == Apply(Fold(m, us), a)
    decreases |us|
  {
    if us == [] {
      assert [] + [a] == [a];
    } else {
      assert (us + [a])[1..] == us[1..] + [a];
      FoldAppend(Apply(m, us[0]), us[1..], a);
    }
  }

  ghost predicate Repeats(m: Message, us: seq<Arrival>) {
    forall i :: 0 <= i < |us| ==> m.deliveryStatus == Some(us[i].update.deliveryStatus)
  }

  /** SENT and FAILED reports stamp the row with the first of their last stretch. */
  lemma {:induction false} UnsettlingStamp(m: Message, us: seq<Arrival>)
    requires us != [] && Unsettling(us) && !Settled(m.deliveryStatus)
    ensures if Repeats(m, us) then Fold(m, us) == m else Stamped(Fold(m, us), us[LastChange(us)])
    decreases |us|
  {
    var last := |us| - 1;
    var a := us[last];
    if last == 0 {
      assert Fold(m, us) == Apply(m, a);
    } else {
      var pre := us[..last];
      assert us == pre + [a];
      FoldAppend(m, pre, a);
      UnsettlingStamp(m, pre);
      FoldClosedForm(m, pre);
      assert pre[last - 1] == us[last - 1];
      assert Fold(m, pre).deliveryStatus == Some(us[last - 1].update.deliveryStatus);
      if Repeats(m, pre) && Some(a.update.deliveryStatus) == m.deliveryStatus {
        assert Repeats(m, us);
      } else if Repeats(m, us) {
        assert false;
      } else if !Repeats(m, pre) && a.update.deliveryStatus == us[last - 1].update.deliveryStatus {
        assert pre[LastChange(pre)] == us[LastChange(us)];
      }
    }
  }

  /** A list of reports changes nothing exactly if the row's status refuses each of them, or the row
      carries the stamp that the list ends with. */
  lemma FoldNoopExactly(m: Message, us: seq<Arrival>)
    requires AllReported(us) && (m.deliveryStatus == Some(SENT) ==> m.sentAt.Some?)
    ensures Fold(m, us) == m <==> RefusesAll(m.deliveryStatus, us) || Restored(m, us)
  {
    FoldClosedForm(m, us);
    if RefusesAll(m.deliveryStatus, us) {
      RefusedFold(m, us);
    } else if Restored(m, us) {
      UnsettlingStamp(m, us);
      UnsettlingFold(m, us);
    } else if Fold(m, us) == m {
      ChangedRow(m, us);
    }
  }

  lemma ChangedRow(m: Message, us: seq<Arrival>)
    requires AllReported(us) && (m.deliveryStatus == Some(SENT) ==> m.sentAt.Some?)
    requires Fold(m, us) == m && !RefusesAll(m.deliveryStatus, us)
    ensures Restored(m, us)
  {
    FoldClosedForm(m, us);
    var i :| 0 <= i < |us| && ShouldApplyStatusTransition(m.deliveryStatus, us[i].update.deliveryStatus);
    assert Mentions(us, us[i].update.deliveryStatus);
    assert !Settled(m.deliveryStatus);
    assert !Mentions(us, DELIVERED) && !Mentions(us, READ);
    assert Unsettling(us) by {
      forall j | 0 <= j < |us| ensures us[j].update.deliveryStatus == SENT || us[j].update.deliveryStatus == FAILED {
        assert Mentions(us, us[j].update.deliveryStatus);
      }
    }
    UnsettlingStamp(m, us);
    UnsettlingFold(m, us);
  }

  // ----- Which report sets which time -----

  function TimeOf(a: Arrival): Time {
    match a.update.occurredAt
    case Some(t) => t
    case None => a.now
  }

  /** The time of the first report that says one of these. */
  function FirstTime(us: seq<Arrival>, statuses: set<DeliveryStatus>): Option<Time> {
    if us == [] then None
    else if us[0].update.deliveryStatus in statuses then Some(TimeOf(us[0]))
    else FirstTime(us[1..], statuses)
  }

  function OrFirst(set_: Option<Time>, first: Option<Time>): Option<Time> {
    if set_.Some? then set_ else first
  }

  /** A later status implies the times of the earlier ones. */
  predicate TimesSet(m: Message) {
    && (m.deliveryStatus == Some(SENT) ==> m.sentAt.Some?)
    && (m.deliveryStatus == Some(DELIVERED) ==> m.sentAt.Some? && m.deliveredAt.Some?)
    && (m.deliveryStatus == Some(READ) ==> m.sentAt.Some? && m.deliveredAt.Some? && m.readAt.Some?)
  }

  /** The three times after any list of reports: what was set stays; otherwise the read time is that of
      the first read report, the delivery time that of the first delivered or read one, and the sending
      time that of the first that does not report a failure. */
  lemma {:induction false} FoldTimesClosedForm(m: Message, us: seq<Arrival>)
    requires AllReported(us) && TimesSet(m)
    ensures Fold(m, us).readAt == OrFirst(m.readAt, FirstTime(us, {READ}))
    ensures Fold(m, us).deliveredAt == OrFirst(m.deliveredAt, FirstTime(us, {DELIVERED, READ}))
    ensures Fold(m, us).sentAt == OrFirst(m.sentAt, FirstTime(us, {SENT, DELIVERED, READ}))
    decreases |us|
  {
    if us != [] { FoldTimesClosedForm(Apply(m, us[0]), us[1..]); }
  }

  /** A report that is applied leaves its own status, time and, for a failure, reason on the row. */
  lemma AppliedReportStamps(m: Message, a: Arrival)
    requires ShouldApplyStatusTransition(m.deliveryStatus, a.update.deliveryStatus)
    ensures var row := Apply(m, a);
            && row.deliveryStatus == Some(a.update.deliveryStatus) && row.deliveryStatusUpdatedAt == Some(TimeOf(a))
            && (a.update.deliveryStatus == FAILED ==>
                  row.failedAt == Some(TimeOf(a)) && row.providerError == if a.update.failedReason.Some? then a.update.failedReason else Some("WhatsApp delivery failed"))
            && (a.update.deliveryStatus != FAILED ==> row.failedAt.None? && row.providerError.None?)
  {
  }
}

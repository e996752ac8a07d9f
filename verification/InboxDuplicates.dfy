/** Duplicate jobs and redeliveries of one event, however late they come. */
module InboxDuplicates {
  import opened Wrappers
  import opened Messages
  import opened MessageTable
  import opened Text
  import opened WebhookPayloads
  import opened Inbox
  import opened InboxRuns
  import opened Runs

  ghost predicate SameInbox(a: Db, b: Db) {
    a.channels == b.channels && a.conversations == b.conversations && a.messages == b.messages
  }

  /** The reports that a transaction folds, and the conversations it folds them into. */
  ghost function ReportsOf(s: System, step: Step): seq<Arrival>
    requires step.Transact? && Enabled(s, step)
  {
    Arrivals(StatusesOf(s.db.events[s.workers[step.worker].event], step.parse), step.clock)
  }

  ghost function EventOf(s: System, step: Step): RawEvent
    requires step.Transact? && Enabled(s, step)
  {
    s.db.events[s.workers[step.worker].event]
  }

  /** No message of the organization can be moved by the reports of the transaction. */
  ghost predicate AllAbsorb(s: System, step: Step)
    requires step.Transact? && Enabled(s, step)
  {
    forall i :: 0 <= i < |s.db.messages| ==> Absorbs(s.db.messages[i], ReportsOf(s, step), Own(s.db.conversations, EventOf(s, step).organizationId))
  }

  // ----- Exactly when a transaction changes nothing -----

  /** A transaction leaves channels, conversations and messages alone exactly if its message is there
      and every message's status refuses the reports about it, or carries the stamp they end with. */
  lemma TransactNoopExactly(s: System, step: Step)
    requires Stored(s) && step.Transact? && Enabled(s, step)
    ensures var text := TextOf(EventOf(s, step));
            SameInbox(Next(s, step).db, s.db) <==> (text.Some? ==> Present(s.db, EventOf(s, step), text.value)) && AllAbsorb(s, step)
  {
    var e, us := EventOf(s, step), ReportsOf(s, step);
    var text := TextOf(e);
    var own := Own(s.db.conversations, e.organizationId);
    ArrivalsReported(e, step.parse, step.clock);
    BatchNoopExactly(s.db.messages, us, own);
    if text.Some? {
      PresentIsNoopExactly(s.db, e, text.value, step.stamp);
      var db1 := PersistInbound(s.db, e, text.value, step.stamp).0;
      if !Present(s.db, e, text.value) { PersistShows(s.db, e, text.value, step.stamp, us); }
    }
  }

  /** What storing a message adds, no fold takes away. */
  lemma PersistShows(db: Db, e: RawEvent, text: TextMessage, stamp: Stamp, us: seq<Arrival>)
    requires !Present(db, e, text)
    ensures var db1 := PersistInbound(db, e, text, stamp).0;
            !SameInbox(db1.(messages := FoldTable(db1.messages, us, Own(db1.conversations, e.organizationId))), db)
  {
    var db1 := PersistInbound(db, e, text, stamp).0;
    PresentIsNoopExactly(db, e, text, stamp);
    assert |db1.messages| == |db.messages| ==> db1.messages == db.messages;
    assert db1.events == db.events;
  }

  // ----- Late duplicates over runs -----

  /** The message's provider id is not one that a sent message has. */
  ghost predicate Inbound(db: Db, text: Option<TextMessage>) {
    text.Some? ==> forall i :: 0 <= i < |db.messages| && HasProviderId(db.messages[i], text.value.providerMessageId) ==> db.messages[i].direction == INBOUND
  }

  lemma TransactLands(s: System, step: Step)
    requires Stored(s) && step.Transact? && Enabled(s, step) && TextOf(EventOf(s, step)).Some?
    requires Inbound(Next(s, step).db, TextOf(EventOf(s, step)))
    ensures Landed(Next(s, step).db, EventOf(s, step), TextOf(EventOf(s, step)).value)
  {
    var e, us := EventOf(s, step), ReportsOf(s, step);
    var text := TextOf(e).value;
    var db1 := PersistInbound(s.db, e, text, step.stamp).0;
    PersistMakesPresent(s.db, e, text, step.stamp);
    PresentAfterFold(db1, e, text, us, Own(db1.conversations, e.organizationId));
    var db' := Next(s, step).db;
    var i := FindMessage(db', text.providerMessageId).value;
    assert HasProviderId(db'.messages[i], text.providerMessageId);
  }

  /** After an event was processed once, and over every run from there, another worker that has read it
      as pending changes nothing exactly if no message can be moved by its reports; the text message
      counts only if its provider id was that of a sent message, whose id a later retry may change. */
  lemma LateDuplicateExactly(s: System, first: Step, trace: seq<(Step, System)>, late: Step)
    requires Stored(s) && first.Transact? && Enabled(s, first) && IsTrace(IsStep, Next(s, first), trace)
    requires late.Transact? && Enabled(End(Next(s, first), trace), late)
    requires End(Next(s, first), trace).workers[late.worker].event == s.workers[first.worker].event
    ensures var t := End(Next(s, first), trace);
            var text := TextOf(EventOf(s, first));
            && (SameInbox(Next(t, late).db, t.db) <==> AllAbsorb(t, late) && (text.Some? ==> Present(t.db, EventOf(t, late), text.value)))
            && (Inbound(Next(s, first).db, text) ==> (SameInbox(Next(t, late).db, t.db) <==> AllAbsorb(t, late)))
  {
    var s1, t := Next(s, first), End(Next(s, first), trace);
    var e, text := EventOf(s, first), TextOf(EventOf(s, first));
    StoredStep(s, first);
    GrownRun(s1, trace, e, None);
    GrowsTransitive(s.db, s1.db, t.db);
    assert TextOf(EventOf(t, late)) == text;
    TransactNoopExactly(t, late);
    if text.Some? && Inbound(s1.db, text) {
      TransactLands(s, first);
      GrownRun(s1, trace, e, text);
      LandedIsPresent(t.db, e, EventOf(t, late), text.value);
    }
  }

  lemma LandedIsPresent(db: Db, e: RawEvent, e': RawEvent, text: TextMessage)
    requires Landed(db, e, text) && e' == e.(status := e'.status)
    ensures Present(db, e', text)
  {
    var i :| 0 <= i < |db.messages| && db.messages[i].direction == INBOUND && HasProviderId(db.messages[i], text.providerMessageId);
    assert FindMessage(db, text.providerMessageId).Some?;
    assert FindChannel(db, e') == FindChannel(db, e);
  }

  /** What landed stays, and rows stay what they are. */
  ghost predicate Grown(db0: Db, e: RawEvent, text: Option<TextMessage>, t: System) {
    Stored(t) && Grows(db0, t.db) && (text.Some? ==> Landed(t.db, e, text.value))
  }

  lemma GrownStep(db0: Db, e: RawEvent, text: Option<TextMessage>, t: System, step: Step)
    requires Grown(db0, e, text, t) && Enabled(t, step)
    ensures Grown(db0, e, text, Next(t, step))
  {
    StoredStep(t, step);
    GrowsTransitive(db0, t.db, Next(t, step).db);
    if text.Some? { LandedLasts(t.db, Next(t, step).db, e, text.value); }
  }

  lemma GrownRun(s: System, trace: seq<(Step, System)>, e: RawEvent, text: Option<TextMessage>)
    requires Stored(s) && IsTrace(IsStep, s, trace) && (text.Some? ==> Landed(s.db, e, text.value))
    ensures Grown(s.db, e, text, End(s, trace))
  {
    forall a, l, b | Grown(s.db, e, text, a) && IsStep(a, l, b) ensures Grown(s.db, e, text, b) { GrownStep(s.db, e, text, a, l); }
    Invariant((t: System) => Grown(s.db, e, text, t), IsStep, s, trace);
  }

  // ----- A late duplicate that changes something -----

  /** A message that was sent, in a conversation of that organization. */
  ghost predicate IsTarget(db: Db, i: nat, organizationId: string, id: string) {
    i < |db.messages| && db.messages[i].direction == OUTBOUND && HasProviderId(db.messages[i], id)
    && db.messages[i].conversation < |db.conversations| && db.conversations[db.messages[i].conversation].organizationId == organizationId
  }

  /** A transaction folds its reports into their targets. */
  lemma TransactRow(s: System, step: Step, i: nat, id: string)
    requires Stored(s) && step.Transact? && Enabled(s, step) && IsTarget(s.db, i, EventOf(s, step).organizationId, id)
    ensures var db' := Next(s, step).db;
            && IsTarget(db', i, EventOf(s, step).organizationId, id)
            && db'.messages[i].deliveryStatus == Outcome(s.db.messages[i].deliveryStatus, About(ReportsOf(s, step), id))
  {
    var e, us := EventOf(s, step), ReportsOf(s, step);
    var db1 := if TextOf(e).Some? then PersistInbound(s.db, e, TextOf(e).value, step.stamp).0 else s.db;
    var own := Own(db1.conversations, e.organizationId);
    assert db1.messages[i] == s.db.messages[i];
    BatchDecomposes(db1.messages, us, own, i);
    FoldTableIdentity(db1.messages, us, own, i);
    ArrivalsReported(e, step.parse, step.clock);
    AboutReported(us, id);
    FoldClosedForm(s.db.messages[i], About(us, id));
  }

  /** All reports of the event are about one message, and say the same. */
  ghost predicate Says(e: RawEvent, parse: string -> Option<Time>, id: string, status: DeliveryStatus) {
    |StatusesOf(e, parse)| == 1 && StatusesOf(e, parse)[0].providerMessageId == id && StatusesOf(e, parse)[0].deliveryStatus == status
  }

  lemma OneReport(e: RawEvent, parse: string -> Option<Time>, clock: seq<Time>, id: string, status: DeliveryStatus)
    requires Says(e, parse, id, status) && |clock| == 1
    ensures About(Arrivals(StatusesOf(e, parse), clock), id) == Arrivals(StatusesOf(e, parse), clock)
  {
    var us := Arrivals(StatusesOf(e, parse), clock);
    assert us[1..] == [];
    assert us == [us[0]];
  }

  /** A worker has read an event of that organization, and all it reports is that message's status. */
  ghost predicate Carries(s: System, w: nat, parse: string -> Option<Time>, organizationId: string, id: string, status: DeliveryStatus) {
    && w in s.workers && s.workers[w].Read? && s.workers[w].event < |s.db.events|
    && s.db.events[s.workers[w].event].organizationId == organizationId
    && Says(s.db.events[s.workers[w].event], parse, id, status)
  }

  lemma CarriesLasts(s: System, s': System, w: nat, parse: string -> Option<Time>, organizationId: string, id: string, status: DeliveryStatus)
    requires Carries(s, w, parse, organizationId, id, status) && Grows(s.db, s'.db) && w in s'.workers && s'.workers[w] == s.workers[w]
    ensures Carries(s', w, parse, organizationId, id, status)
  {
    var event := s.workers[w].event;
    assert s'.db.events[event] == s.db.events[event].(status := s'.db.events[event].status);
  }

  ghost predicate HasStatus(s: System, i: nat, status: DeliveryStatus) {
    i < |s.db.messages| && s.db.messages[i].deliveryStatus == Some(status)
  }

  /** The worker's transaction takes message `i` to that status. */
  ghost predicate Moves(s: System, w: nat, parse: string -> Option<Time>, now: Time, stamp: Stamp, i: nat, status: DeliveryStatus, s': System) {
    IsStep(s, Transact(w, parse, [now], stamp), s') && HasStatus(s', i, status)
  }

  /** Its transaction gives the message that status. */
  lemma TransactMoves(s: System, w: nat, parse: string -> Option<Time>, now: Time, stamp: Stamp, i: nat, organizationId: string, id: string, status: DeliveryStatus)
    returns (s': System)
    requires Stored(s) && Carries(s, w, parse, organizationId, id, status) && (status == SENT || status == FAILED)
    requires IsTarget(s.db, i, organizationId, id) && !Settled(s.db.messages[i].deliveryStatus)
    ensures Moves(s, w, parse, now, stamp, i, status, s') && Stored(s') && Grows(s.db, s'.db)
    ensures IsTarget(s'.db, i, organizationId, id)
    ensures forall v :: v in s.workers && v != w ==> v in s'.workers && s'.workers[v] == s.workers[v]
  {
    var step := Transact(w, parse, [now], stamp);
    s' := Next(s, step);
    StoredStep(s, step);
    TransactRow(s, step, i, id);
    OneReport(EventOf(s, step), parse, [now], id, status);
  }

  /** Two workers have read an event that reports a message as sent, a third one an event that reports it
      as failed. The first transaction makes it SENT, the failure FAILED, the duplicate SENT again. */
  lemma LateDuplicateMoves(s: System, first: nat, other: nat, late: nat, parse: string -> Option<Time>, now: Time, stamp: Stamp, i: nat, organizationId: string, id: string)
    returns (s1: System, s2: System, s3: System)
    requires Stored(s) && first != other && late != other && first != late
    requires Carries(s, first, parse, organizationId, id, SENT) && late in s.workers && s.workers[late] == s.workers[first]
    requires Carries(s, other, parse, organizationId, id, FAILED)
    requires IsTarget(s.db, i, organizationId, id) && !Settled(s.db.messages[i].deliveryStatus)
    ensures Moves(s, first, parse, now, stamp, i, SENT, s1)
    ensures Moves(s1, other, parse, now, stamp, i, FAILED, s2)
    ensures Moves(s2, late, parse, now, stamp, i, SENT, s3)
  {
    s1 := TransactMoves(s, first, parse, now, stamp, i, organizationId, id, SENT);
    CarriesLasts(s, s1, other, parse, organizationId, id, FAILED);
    CarriesLasts(s, s1, late, parse, organizationId, id, SENT);
    s2 := TransactMoves(s1, other, parse, now, stamp, i, organizationId, id, FAILED);
    CarriesLasts(s1, s2, late, parse, organizationId, id, SENT);
    s3 := TransactMoves(s2, late, parse, now, stamp, i, organizationId, id, SENT);
  }

  // ----- It does occur -----

  const SEEN := (raw: string) => Some(1)

  const REPORTS := [
    RawEvent(WHATSAPP, "status:m:sent", "a", "o", StatusPayload("m", "sent"), PENDING),
    RawEvent(WHATSAPP, "status:m:failed", "a", "o", StatusPayload("m", "failed"), PENDING)]

  /** One message that a worker is sending again, and two reports about it. */
  const RETRIED := Db(
    [Channel("o", WHATSAPP, "a", "WhatsApp Business")],
    [Conversation("o", 0, "wa:c", "c", "c", OPEN, Some(0), Some("hi"), false, 0)],
    [Message(OUTBOUND, "hi", Some("m"), Some(SENDING), Some(0), None, Some(0), None, None, None, 0, 0)],
    REPORTS)

  const QUIET := System(RETRIED, map[], map[], [], {})
  const RACE := System(RETRIED, map[0 := Read(0), 1 := Read(0), 2 := Read(1)], map[], [], {})

  lemma RetriedIsStored()
    ensures Stored(QUIET) && Stored(RACE)
  {
    var messages := RETRIED.messages;
    assert messages[..0] == [];
    assert LastOf(messages, 0) == Some(0);
    assert ChannelKey(RETRIED.channels[0]) == ("o", WHATSAPP, "a");
    assert EventKey(REPORTS[0]) != EventKey(REPORTS[1]) by { assert |"status:m:sent"| != |"status:m:failed"|; }
  }

  /** The two workers start before either of them is done. */
  lemma BothStart() returns (s1: System, s2: System)
    ensures IsStep(QUIET, Start(0, 0), s1) && IsStep(s1, Start(1, 0), s2) && IsStep(s2, Start(2, 1), RACE)
  {
    s1 := Next(QUIET, Start(0, 0));
    s2 := Next(s1, Start(1, 0));
  }

  lemma ReportsSay()
    ensures Says(REPORTS[0], SEEN, "m", SENT) && Says(REPORTS[1], SEEN, "m", FAILED)
  {
    SentAndFailedAreRead();
    StatusPayloadReports("m", "sent", SENT, SEEN);
    StatusPayloadReports("m", "failed", FAILED, SEEN);
  }

  lemma RaceCarries()
    ensures Carries(RACE, 0, SEEN, "o", "m", SENT) && Carries(RACE, 1, SEEN, "o", "m", SENT) && Carries(RACE, 2, SEEN, "o", "m", FAILED)
    ensures IsTarget(RACE.db, 0, "o", "m") && !Settled(RACE.db.messages[0].deliveryStatus)
  {
    ReportsSay();
  }

  /** So a duplicate job does change something: after this race it takes the message from FAILED, where a
      later event has put it, back to SENT. */
  lemma LateDuplicateOccurs(stamp: Stamp) returns (s1: System, s2: System, s3: System)
    ensures Moves(RACE, 0, SEEN, 0, stamp, 0, SENT, s1)
    ensures Moves(s1, 2, SEEN, 0, stamp, 0, FAILED, s2)
    ensures Moves(s2, 1, SEEN, 0, stamp, 0, SENT, s3)
  {
    RetriedIsStored();
    RaceCarries();
    s1, s2, s3 := LateDuplicateMoves(RACE, 0, 2, 1, SEEN, 0, stamp, 0, "o", "m");
  }
}

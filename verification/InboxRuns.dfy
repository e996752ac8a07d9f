/**
 The inbox under any interleaving of webhook receipts, worker invocations, outbound messages,
 delivery updates and readers.
 */
module InboxRuns {
  import opened Wrappers
  import opened Messages
  import opened MessageTable
  import opened WebhookPayloads
  import opened Inbox
  import opened Runs

  function TextOf(e: RawEvent): Option<TextMessage> {
    if e.provider == WHATSAPP then WhatsAppText(e.payload) else InstagramText(e.payload)
  }

  function StatusesOf(e: RawEvent, parse: string -> Option<Time>): seq<StatusUpdate> {
    if e.provider == WHATSAPP then WhatsAppStatuses(e.payload, parse) else []
  }

  /** The deduplication key, or none, in which case the event is keyed by a hash of its payload. */
  function KeyOf(provider: Provider, payload: Json): Option<string> {
    if provider == WHATSAPP then WhatsAppKey(payload) else InstagramKey(payload)
  }

  // ----- Reprocessing one event -----

  /** The event's channel, conversation and inbound message are all there. */
  ghost predicate Landed(db: Db, e: RawEvent, text: TextMessage) {
    var channel := FindChannel(db, e);
    && channel.Some?
    && FindThread(db, e.organizationId, channel.value, text.externalThreadId).Some?
    && exists i :: 0 <= i < |db.messages| && db.messages[i].direction == INBOUND && HasProviderId(db.messages[i], text.providerMessageId)
  }

  /** Once landed, processing the event again changes nothing and announces nothing. */
  lemma LandedIsNoop(db: Db, e: RawEvent, text: TextMessage, stamp: Stamp)
    requires Landed(db, e, text)
    ensures PersistInbound(db, e, text, stamp) == (db, None)
  {
    var i :| 0 <= i < |db.messages| && HasProviderId(db.messages[i], text.providerMessageId);
    assert FindMessage(db, text.providerMessageId).Some?;
  }

  /** Landing happens with the insert, and lasts: rows only ever grow. */
  lemma LandedLasts(db: Db, db': Db, e: RawEvent, text: TextMessage)
    requires Landed(db, e, text) && Grows(db, db')
    ensures Landed(db', e, text)
  {
    FindStable(db.channels, db'.channels, (c: Channel) => IsChannel(c, e.organizationId, e.provider, e.externalAccountId));
    var channel := FindChannel(db, e).value;
    forall i | 0 <= i < |db.conversations|
      ensures IsThread(db.conversations[i], e.organizationId, channel, text.externalThreadId)
           == IsThread(db'.conversations[i], e.organizationId, channel, text.externalThreadId)
    {
      assert ThreadKey(db'.conversations[i]) == ThreadKey(db.conversations[i]);
    }
    FindStable(db.conversations, db'.conversations, (c: Conversation) => IsThread(c, e.organizationId, channel, text.externalThreadId));
    var i :| 0 <= i < |db.messages| && db.messages[i].direction == INBOUND && HasProviderId(db.messages[i], text.providerMessageId);
    assert db'.messages[i].direction == INBOUND && HasProviderId(db'.messages[i], text.providerMessageId);
  }

  lemma InsertLands(db: Db, e: RawEvent, text: TextMessage, stamp: Stamp)
    requires PersistInbound(db, e, text, stamp).1.Some?
    ensures Landed(PersistInbound(db, e, text, stamp).0, e, text)
  {
    var (db1, channel) := UpsertChannel(db, e);
    var (db2, conversation) := GetOrCreateConversation(db1, e.organizationId, channel, text, stamp);
    var db3 := PersistInbound(db, e, text, stamp).0;
    assert IsChannel(db1.channels[channel], e.organizationId, e.provider, e.externalAccountId);
    assert forall j :: 0 <= j < channel ==> !IsChannel(db1.channels[j], e.organizationId, e.provider, e.externalAccountId);
    assert FindChannel(db3, e) == Some(channel);
    assert IsThread(db3.conversations[conversation], e.organizationId, channel, text.externalThreadId);
    assert HasProviderId(db3.messages[|db.messages|], text.providerMessageId);
  }

  /** The event's channel and conversation are there, and so is a message with the provider id. */
  ghost predicate Present(db: Db, e: RawEvent, text: TextMessage) {
    var channel := FindChannel(db, e);
    && channel.Some?
    && FindThread(db, e.organizationId, channel.value, text.externalThreadId).Some?
    && FindMessage(db, text.providerMessageId).Some?
  }

  /** Exactly then storing the message changes nothing. */
  lemma PresentIsNoopExactly(db: Db, e: RawEvent, text: TextMessage, stamp: Stamp)
    ensures PersistInbound(db, e, text, stamp).0 == db <==> Present(db, e, text)
    ensures Present(db, e, text) ==> PersistInbound(db, e, text, stamp).1 == None
  {
    var (db1, channel) := UpsertChannel(db, e);
    var (db2, conversation) := GetOrCreateConversation(db1, e.organizationId, channel, text, stamp);
    var db3 := PersistInbound(db, e, text, stamp).0;
    assert |db.channels| <= |db1.channels| == |db3.channels|;
    assert |db1.conversations| <= |db2.conversations| == |db3.conversations|;
    assert FindChannel(db, e).None? ==> |db1.channels| > |db.channels|;
    assert FindMessage(db2, text.providerMessageId) == FindMessage(db, text.providerMessageId);
    assert FindMessage(db, text.providerMessageId).None? ==> |db3.messages| > |db.messages|;
  }

  /** And storing it, whatever was found, brings that about. */
  lemma PersistMakesPresent(db: Db, e: RawEvent, text: TextMessage, stamp: Stamp)
    ensures Present(PersistInbound(db, e, text, stamp).0, e, text)
  {
    var (db1, channel) := UpsertChannel(db, e);
    var (db2, conversation) := GetOrCreateConversation(db1, e.organizationId, channel, text, stamp);
    if PersistInbound(db, e, text, stamp).1.Some? {
      InsertLands(db, e, text, stamp);
    } else {
      assert forall j :: 0 <= j < channel ==> !IsChannel(db1.channels[j], e.organizationId, e.provider, e.externalAccountId);
      assert FindChannel(db2, e) == Some(channel);
      assert IsThread(db2.conversations[conversation], e.organizationId, channel, text.externalThreadId);
    }
  }

  /** Reports leave every row's provider id alone. */
  lemma PresentAfterFold(db: Db, e: RawEvent, text: TextMessage, us: seq<Arrival>, own: set<nat>)
    requires Present(db, e, text)
    ensures Present(db.(messages := FoldTable(db.messages, us, own)), e, text)
  {
    var folded := FoldTable(db.messages, us, own);
    forall i | 0 <= i < |db.messages|
      ensures HasProviderId(db.messages[i], text.providerMessageId) == HasProviderId(folded[i], text.providerMessageId)
    {
      FoldTableIdentity(db.messages, us, own, i);
    }
    FindStable(db.messages, folded, (m: Message) => HasProviderId(m, text.providerMessageId));
  }

  /** Processing an event a second time leaves channels, conversations and messages as the first
      processing left them: the text is a duplicate, and the timestamped reports are idempotent. */
  lemma ReprocessingIsNoop(db: Db, event: nat, text: Option<TextMessage>, us: seq<Arrival>, vs: seq<Arrival>, stamp: Stamp, later: Stamp)
    requires event < |db.events| && Constraints(db) && Cached(db)
    requires forall i :: 0 <= i < |db.messages| ==> Record(db.messages[i])
    requires AllReported(us) && SameUpdates(us, vs)
    ensures ProcessEvent(ProcessEvent(db, event, text, us, stamp), event, text, vs, later) == ProcessEvent(db, event, text, us, stamp)
  {
    var e := db.events[event];
    var db1 := if text.Some? then PersistInbound(db, e, text.value, stamp).0 else db;
    var own := Own(db1.conversations, e.organizationId);
    var once := ProcessEvent(db, event, text, us, stamp);
    if text.Some? {
      PersistKeepsRecords(db, e, text.value, stamp);
      PersistMakesPresent(db, e, text.value, stamp);
      PresentAfterFold(db1, e, text.value, us, own);
      assert Present(once, e.(status := PROCESSED), text.value);
      PresentIsNoopExactly(once, e.(status := PROCESSED), text.value, later);
    }
    BatchIdempotent(db1.messages, us, vs, own);
  }

  lemma FoldGrows(db: Db, us: seq<Arrival>, own: set<nat>)
    ensures Grows(db, db.(messages := FoldTable(db.messages, us, own)))
  {
    forall i | 0 <= i < |db.messages| ensures SameIdentity(db.messages[i], FoldTable(db.messages, us, own)[i]) {
      FoldTableIdentity(db.messages, us, own, i);
    }
  }

  /** An event keyed by its payload hash changes nothing but its own processing status. */
  lemma HashKeyedEventIsNoop(db: Db, event: nat, parse: string -> Option<Time>, clock: seq<Time>, stamp: Stamp)
    requires event < |db.events|
    requires KeyOf(db.events[event].provider, db.events[event].payload).None?
    requires |clock| == |StatusesOf(db.events[event], parse)|
    ensures var e := db.events[event];
            ProcessEvent(db, event, TextOf(e), Arrivals(StatusesOf(e, parse), clock), stamp)
              == db.(events := db.events[event := e.(status := PROCESSED)])
  {
    var e := db.events[event];
    if e.provider == WHATSAPP { HashKeyedWhatsApp(e.payload, parse); } else { HashKeyedInstagram(e.payload); }
    assert Arrivals(StatusesOf(e, parse), clock) == [];
  }

  // ----- The system -----

  /** A worker has read a pending event, or has committed an insert that it still has to announce. */
  datatype Worker = Read(event: nat) | Committed(conversation: nat, providerMessageId: string)

  /** A reader of `listConversationMessages` after its first or second query. `list` holds the rows it will return. */
  datatype Reader =
    | Opened(conversation: nat, isUnread: bool, updatedAt: Time)
    | Loaded(conversation: nat, isUnread: bool, updatedAt: Time, list: set<nat>)

  /** `emitted` are the `message.created` announcements, `seen` the rows returned by readers whose reset succeeded. */
  datatype System = System(db: Db, workers: map<nat, Worker>, readers: map<nat, Reader>, emitted: seq<string>, seen: set<nat>)

  datatype Step =
    | Receive(received: RawEvent)
    | Start(worker: nat, event: nat)
    | Transact(worker: nat, parse: string -> Option<Time>, clock: seq<Time>, stamp: Stamp)  // the clock is read once per report
    | Abort(worker: nat, final: bool)
    | Emit(worker: nat)
    | Crash(worker: nat)
    | Send(conversation: nat, body: string, stamp: Stamp)
    | Deliver(message: nat, row: Message)
    | Touch(conversation: nat, status: ConversationStatus, updatedAt: Time)
    | Open(reader: nat, conversation: nat)
    | Load(reader: nat)
    | Reset(reader: nat, updatedAt: Time)

  ghost predicate Enabled(s: System, step: Step) {
    match step
    case Receive(e) => e.status == PENDING
    case Start(w, event) => w !in s.workers && event < |s.db.events|
    case Transact(w, parse, clock, _) =>
      && w in s.workers && s.workers[w].Read? && s.workers[w].event < |s.db.events|
      && |clock| == |StatusesOf(s.db.events[s.workers[w].event], parse)|
    case Abort(w, _) => w in s.workers && s.workers[w].Read? && s.workers[w].event < |s.db.events|
    case Emit(w) => w in s.workers && s.workers[w].Committed?
    case Crash(w) => w in s.workers
    case Send(c, _, _) => c < |s.db.conversations|
    case Deliver(i, row) =>
      // a write of the outbound worker or of the enqueue path; the unique index accepts it
      i < |s.db.messages| && s.db.messages[i].direction == OUTBOUND && Record(row)
      && SameIdentity(s.db.messages[i].(providerMessageId := row.providerMessageId), row)
      && UniqueProviderIds(s.db.messages[i := row])
    case Touch(c, _, _) => c < |s.db.conversations|
    case Open(r, c) => r !in s.readers && c < |s.db.conversations|
    case Load(r) => r in s.readers && s.readers[r].Opened?
    case Reset(r, _) => r in s.readers && s.readers[r].Loaded? && s.readers[r].conversation < |s.db.conversations|
  }

  /** The reports of an event are what a provider reports. */
  lemma ArrivalsReported(e: RawEvent, parse: string -> Option<Time>, clock: seq<Time>)
    requires |clock| == |StatusesOf(e, parse)|
    ensures AllReported(Arrivals(StatusesOf(e, parse), clock))
  {
    var updates := StatusesOf(e, parse);
    if e.provider == WHATSAPP { StatusesAreReported(e.payload, parse); }
    forall i | 0 <= i < |updates| ensures Reported(Arrivals(updates, clock)[i].update.deliveryStatus) {
      assert updates[i] in updates;
    }
  }

  /** `handleWhatsAppWebhook` and `handleInstagramWebhook`: the unique index refuses a second row for a key. */
  function ReceiveEvent(db: Db, e: RawEvent): Db {
    if Find(db.events, (r: RawEvent) => EventKey(r) == EventKey(e)).Some? then db else db.(events := db.events + [e])
  }

  ghost function RowsOf(db: Db, conversation: nat): set<nat> {
    set i | 0 <= i < |db.messages| && db.messages[i].conversation == conversation
  }

  /** The guarded `updateMany` of a reader. */
  predicate ResetApplies(c: Conversation, r: Reader)
    requires r.Loaded?
  {
    r.isUnread && c.isUnread && c.updatedAt == r.updatedAt
  }

  ghost function Next(s: System, step: Step): System
    requires Enabled(s, step)
  {
    match step
    case Receive(e) => s.(db := ReceiveEvent(s.db, e))
    case Start(w, event) => if s.db.events[event].status == PENDING then s.(workers := s.workers[w := Read(event)]) else s
    case Transact(w, parse, clock, stamp) =>
      var event := s.workers[w].event;
      var e := s.db.events[event];
      var text := TextOf(e);
      var inserted := if text.Some? then PersistInbound(s.db, e, text.value, stamp).1 else None;
      s.(db := ProcessEvent(s.db, event, text, Arrivals(StatusesOf(e, parse), clock), stamp),
         workers := if inserted.Some? then s.workers[w := Committed(inserted.value, text.value.providerMessageId)] else s.workers - {w})
    case Abort(w, final) =>
      var event := s.workers[w].event;
      s.(db := if final then s.db.(events := s.db.events[event := s.db.events[event].(status := UNPROCESSABLE)]) else s.db,
         workers := s.workers - {w})
    case Emit(w) => s.(emitted := s.emitted + [s.workers[w].providerMessageId], workers := s.workers - {w})
    case Crash(w) => s.(workers := s.workers - {w})
    case Send(c, body, stamp) => s.(db := CreateOutbound(s.db, c, body, stamp))
    case Deliver(i, row) => s.(db := s.db.(messages := s.db.messages[i := row]))
    case Touch(c, status, at) =>
      s.(db := s.db.(conversations := s.db.conversations[c := s.db.conversations[c].(status := status, updatedAt := at)]))
    case Open(r, c) =>
      s.(readers := s.readers[r := Opened(c, s.db.conversations[c].isUnread, s.db.conversations[c].updatedAt)])
    case Load(r) =>
      var o := s.readers[r];
      s.(readers := s.readers[r := Loaded(o.conversation, o.isUnread, o.updatedAt, RowsOf(s.db, o.conversation))])
    case Reset(r, at) =>
      var l := s.readers[r];
      var row := s.db.conversations[l.conversation];
      if ResetApplies(row, l) then
        s.(db := s.db.(conversations := s.db.conversations[l.conversation := row.(isUnread := false, updatedAt := at)]),
           readers := s.readers - {r}, seen := s.seen + l.list)
      else s.(readers := s.readers - {r})
  }

  ghost predicate IsStep(s: System, step: Step, s': System) {
    Enabled(s, step) && s' == Next(s, step)
  }

  const Empty := System(Db([], [], [], []), map[], map[], [], {})

  // ----- Constraints, cache and rows -----

  ghost predicate Stored(s: System) {
    Constraints(s.db) && Cached(s.db) && forall i :: 0 <= i < |s.db.messages| ==> Record(s.db.messages[i])
  }

  lemma FoldKeeps(db: Db, us: seq<Arrival>, own: set<nat>)
    requires Constraints(db) && Cached(db) && AllReported(us)
    requires forall i :: 0 <= i < |db.messages| ==> Record(db.messages[i])
    ensures var db' := db.(messages := FoldTable(db.messages, us, own));
            Constraints(db') && Cached(db') && Grows(db, db') && forall i :: 0 <= i < |db'.messages| ==> Record(db'.messages[i])
  {
    var db' := db.(messages := FoldTable(db.messages, us, own));
    forall i | 0 <= i < |db.messages| ensures SameIdentity(db.messages[i], db'.messages[i]) && Record(db'.messages[i]) {
      FoldTableIdentity(db.messages, us, own, i);
      BatchDecomposes(db.messages, us, own, i);
      if db.messages[i].providerMessageId.Some? {
        var id := db.messages[i].providerMessageId.value;
        AboutReported(us, id);
        FoldKeepsRecord(db.messages[i], About(us, id));
      }
    }
    SameRowsKeep(db, db');
    FoldGrows(db, us, own);
  }

  lemma MarkKeeps(db: Db, event: nat, status: Processing)
    requires Constraints(db) && Cached(db) && event < |db.events|
    ensures var db' := db.(events := db.events[event := db.events[event].(status := status)]);
            Constraints(db') && Cached(db') && Grows(db, db')
  {
    var events := db.events[event := db.events[event].(status := status)];
    assert forall i :: 0 <= i < |db.events| ==> EventKey(events[i]) == EventKey(db.events[i]);
  }

  lemma PersistKeepsRecords(db: Db, e: RawEvent, text: TextMessage, stamp: Stamp)
    requires forall i :: 0 <= i < |db.messages| ==> Record(db.messages[i])
    ensures var db' := PersistInbound(db, e, text, stamp).0; forall i :: 0 <= i < |db'.messages| ==> Record(db'.messages[i])
  {
  }

  lemma GrowsTransitive(a: Db, b: Db, c: Db)
    requires Grows(a, b) && Grows(b, c)
    ensures Grows(a, c)
  {
    assert forall i :: 0 <= i < |a.conversations| ==> ThreadKey(c.conversations[i]) == ThreadKey(a.conversations[i]);
  }

  lemma ProcessKeeps(db: Db, event: nat, text: Option<TextMessage>, us: seq<Arrival>, stamp: Stamp)
    requires event < |db.events| && Constraints(db) && Cached(db) && AllReported(us)
    requires forall i :: 0 <= i < |db.messages| ==> Record(db.messages[i])
    ensures var db' := ProcessEvent(db, event, text, us, stamp);
            Constraints(db') && Cached(db') && Grows(db, db') && forall i :: 0 <= i < |db'.messages| ==> Record(db'.messages[i])
  {
    var e := db.events[event];
    var db1 := if text.Some? then PersistInbound(db, e, text.value, stamp).0 else db;
    if text.Some? {
      PersistKeeps(db, e, text.value, stamp);
      PersistKeepsRecords(db, e, text.value, stamp);
    }
    var db2 := db1.(messages := FoldTable(db1.messages, us, Own(db1.conversations, e.organizationId)));
    FoldKeeps(db1, us, Own(db1.conversations, e.organizationId));
    MarkKeeps(db2, event, PROCESSED);
    var db3 := ProcessEvent(db, event, text, us, stamp);
    assert db3 == db2.(events := db2.events[event := db2.events[event].(status := PROCESSED)]);
    GrowsTransitive(db, db1, db2);
    GrowsTransitive(db, db2, db3);
  }

  /** Changing delivery fields only. */
  lemma SameRowsKeep(db: Db, db': Db)
    requires Constraints(db) && Cached(db) && db' == db.(messages := db'.messages) && |db'.messages| == |db.messages|
    requires UniqueProviderIds(db'.messages) || forall i :: 0 <= i < |db.messages| ==> db'.messages[i].providerMessageId == db.messages[i].providerMessageId
    requires forall i :: 0 <= i < |db.messages| ==>
               db'.messages[i].conversation == db.messages[i].conversation && db'.messages[i].body == db.messages[i].body
               && db'.messages[i].createdAt == db.messages[i].createdAt
    ensures Constraints(db') && Cached(db')
  {
    forall c ensures LastOf(db'.messages, c) == LastOf(db.messages, c) {
      SameLast(db.messages, db'.messages, c);
    }
  }

  lemma SendKeeps(db: Db, c: nat, body: string, stamp: Stamp)
    requires Constraints(db) && Cached(db) && c < |db.conversations|
    requires forall i :: 0 <= i < |db.messages| ==> Record(db.messages[i])
    ensures var db' := CreateOutbound(db, c, body, stamp);
            Constraints(db') && Cached(db') && Grows(db, db') && forall i :: 0 <= i < |db'.messages| ==> Record(db'.messages[i])
  {
    var db' := CreateOutbound(db, c, body, stamp);
    if db' != db {
      AppendCached(db, OutboundRow(body, c, stamp.createdAt), db'.conversations[c]);
      AppendConstrained(db, OutboundRow(body, c, stamp.createdAt), db'.conversations[c]);
    }
  }

  lemma ReceiveKeeps(db: Db, e: RawEvent)
    requires Constraints(db) && Cached(db)
    ensures Constraints(ReceiveEvent(db, e)) && Cached(ReceiveEvent(db, e)) && Grows(db, ReceiveEvent(db, e))
  {
    if ReceiveEvent(db, e) != db { DistinctAppend(db.events, e, EventKey); }
  }

  lemma DeliverKeeps(db: Db, i: nat, row: Message)
    requires Constraints(db) && Cached(db) && i < |db.messages| && db.messages[i].direction == OUTBOUND
    requires SameIdentity(db.messages[i].(providerMessageId := row.providerMessageId), row) && UniqueProviderIds(db.messages[i := row])
    ensures var db' := db.(messages := db.messages[i := row]); Constraints(db') && Cached(db') && Grows(db, db')
  {
    SameRowsKeep(db, db.(messages := db.messages[i := row]));
  }

  lemma StoredStep(s: System, step: Step)
    requires Stored(s) && Enabled(s, step)
    ensures Stored(Next(s, step)) && Grows(s.db, Next(s, step).db)
  {
    match step {
      case Receive(e) => ReceiveKeeps(s.db, e);
      case Transact(w, parse, clock, stamp) =>
        var e := s.db.events[s.workers[w].event];
        ArrivalsReported(e, parse, clock);
        ProcessKeeps(s.db, s.workers[w].event, TextOf(e), Arrivals(StatusesOf(e, parse), clock), stamp);
      case Abort(w, final) => MarkKeeps(s.db, s.workers[w].event, UNPROCESSABLE);
      case Send(c, body, stamp) => SendKeeps(s.db, c, body, stamp);
      case Deliver(i, row) => DeliverKeeps(s.db, i, row);
      case Touch(_, _, _) => SameThreads(s.db, Next(s, step).db);
      case Reset(_, _) => SameThreads(s.db, Next(s, step).db);
      case _ =>
    }
  }

  lemma SameThreads(db: Db, db': Db)
    requires Constraints(db) && Cached(db) && db' == db.(conversations := db'.conversations)
    requires |db'.conversations| == |db.conversations|
    requires forall c :: 0 <= c < |db.conversations| ==>
               db'.conversations[c] == db.conversations[c].(status := db'.conversations[c].status, isUnread := db'.conversations[c].isUnread, updatedAt := db'.conversations[c].updatedAt)
    ensures Constraints(db') && Cached(db') && Grows(db, db')
  {
    assert forall c :: 0 <= c < |db.conversations| ==> ThreadKey(db'.conversations[c]) == ThreadKey(db.conversations[c]);
  }

  /** Over every run from an empty database: one message per provider id and one conversation per
      thread, intact references, and every conversation's last-message fields are those of its most
      recently inserted message. */
  lemma StoredRun(trace: seq<(Step, System)>)
    requires IsTrace(IsStep, Empty, trace)
    ensures Stored(End(Empty, trace))
  {
    forall a, l, b | Stored(a) && IsStep(a, l, b) ensures Stored(b) { StoredStep(a, l); }
    Invariant((t: System) => Stored(t), IsStep, Empty, trace);
  }

  /** Landing lasts over every run, so every later redelivery of the event is a no-op. */
  lemma LandedRun(s: System, trace: seq<(Step, System)>, e: RawEvent, text: TextMessage, stamp: Stamp)
    requires Stored(s) && IsTrace(IsStep, s, trace) && Landed(s.db, e, text)
    ensures PersistInbound(End(s, trace).db, e, text, stamp) == (End(s, trace).db, None)
  {
    forall a, l, b | Stored(a) && Landed(a.db, e, text) && IsStep(a, l, b) ensures Stored(b) && Landed(b.db, e, text) {
      StoredStep(a, l);
      LandedLasts(a.db, b.db, e, text);
    }
    Invariant((t: System) => Stored(t) && Landed(t.db, e, text), IsStep, s, trace);
    LandedIsNoop(End(s, trace).db, e, text, stamp);
  }
}

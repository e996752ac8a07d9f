/** The webhook worker over its tables, and the handlers that feed it. */
module WebhooksWorkerModule {
  import opened Wrappers
  import opened Messages
  import opened MessageTable
  import opened WebhookPayloads
  import opened WebhookExtraction
  import opened Inbox
  import opened InboxRuns

  datatype Announcement = MessageCreated(conversation: nat, text: string) | ConversationUpdated(conversation: nat, text: string)

  datatype Receipt = Stored | Duplicate | EnqueueFailed

  /** The conversation that the transaction of an event puts a new message into. */
  function InsertedBy(db: Db, event: nat, text: Option<TextMessage>, stamp: Stamp): Option<nat>
    requires event < |db.events|
  {
    if text.Some? then PersistInbound(db, db.events[event], text.value, stamp).1 else None
  }

  function Announcements(inserted: Option<nat>, text: Option<TextMessage>): seq<Announcement>
    requires inserted.Some? ==> text.Some?
  {
    if inserted.None? then [] else [MessageCreated(inserted.value, text.value.text), ConversationUpdated(inserted.value, text.value.text)]
  }

  function Marked(db: Db, event: nat, status: Processing): Db
    requires event < |db.events|
  {
    db.(events := db.events[event := db.events[event].(status := status)])
  }

  class WebhooksWorkerService {
    var channels: seq<Channel>
    var conversations: seq<Conversation>
    var messages: seq<Message>
    var events: seq<RawEvent>
    var jobs: seq<nat>                    // raw event ids handed to the queue
    var emitted: seq<Announcement>

    ghost function View(): Db
      reads this
    {
      Db(channels, conversations, messages, events)
    }

    constructor ()
      ensures View() == Empty.db && jobs == [] && emitted == []
    {
      channels, conversations, messages, events, jobs, emitted := [], [], [], [], [], [];
    }

    // ----- Worker -----

    method UpsertChannel(e: RawEvent) returns (channel: nat)
      modifies this`channels
      ensures (View(), channel) == Inbox.UpsertChannel(old(View()), e)
    {
      var existing := Find(channels, (c: Channel) => IsChannel(c, e.organizationId, e.provider, e.externalAccountId));
      if existing.Some? { return existing.value; }
      channel := |channels|;
      channels := channels + [Channel(e.organizationId, e.provider, e.externalAccountId, ChannelName(e.provider))];
    }

    method GetOrCreateConversation(organizationId: string, channel: nat, text: TextMessage, stamp: Stamp) returns (conversation: nat)
      modifies this`conversations
      ensures (View(), conversation) == Inbox.GetOrCreateConversation(old(View()), organizationId, channel, text, stamp)
    {
      var existing := Find(conversations, (c: Conversation) => IsThread(c, organizationId, channel, text.externalThreadId));
      if existing.Some? { return existing.value; }
      conversation := |conversations|;
      conversations := conversations + [Conversation(organizationId, channel, text.externalThreadId,
        text.customerDisplay, text.from, OPEN, None, None, true, stamp.updatedAt)];
    }

    method PersistInboundMessage(e: RawEvent, text: TextMessage, stamp: Stamp) returns (inserted: Option<nat>)
      modifies this`channels, this`conversations, this`messages
      ensures (View(), inserted) == PersistInbound(old(View()), e, text, stamp)
    {
      var channel := UpsertChannel(e);
      var conversation := GetOrCreateConversation(e.organizationId, channel, text, stamp);
      var duplicate := Find(messages, (m: Message) => HasProviderId(m, text.providerMessageId));
      if duplicate.Some? { return None; }
      messages := messages + [InboundRow(text, conversation, stamp.createdAt)];
      var row := conversations[conversation];
      row := row.(contactName := text.customerDisplay, contactPhone := text.from);
      row := row.(lastMessageAt := Some(stamp.createdAt), lastMessageText := Some(text.text));
      row := row.(isUnread := true, updatedAt := stamp.updatedAt);
      conversations := conversations[conversation := row];
      return Some(conversation);
    }

    /** One status report. `updateData` is filled field by field, and the row that `findFirst` yields
        is the only one that matches. */
    method ApplyOutboundStatusUpdate(organizationId: string, a: Arrival)
      requires UniqueProviderIds(messages)
      modifies this`messages
      ensures messages == ApplyToTable(old(messages), a, Own(conversations, organizationId))
    {
      var own := set i | 0 <= i < |conversations| && conversations[i].organizationId == organizationId;
      var u := a.update;
      var found := Find(messages, (m: Message) => Targets(m, u.providerMessageId, own));
      if found.None? { return; }
      var row := messages[found.value];
      if !ShouldApplyStatusTransition(row.deliveryStatus, u.deliveryStatus) { return; }

      var occurredAt := u.occurredAt.GetOr(a.now);
      var data := row.(deliveryStatus := Some(u.deliveryStatus), deliveryStatusUpdatedAt := Some(occurredAt));
      if u.deliveryStatus == FAILED {
        data := data.(failedAt := Some(occurredAt));
        data := data.(providerError := Some(u.failedReason.GetOr(DEFAULT_FAILURE)));
      } else {
        data := data.(failedAt := None);
        data := data.(providerError := None);
      }
      if u.deliveryStatus == SENT && row.sentAt.None? { data := data.(sentAt := Some(occurredAt)); }
      if u.deliveryStatus == DELIVERED {
        if row.sentAt.None? { data := data.(sentAt := Some(occurredAt)); }
        if row.deliveredAt.None? { data := data.(deliveredAt := Some(occurredAt)); }
      }
      if u.deliveryStatus == READ {
        if row.sentAt.None? { data := data.(sentAt := Some(occurredAt)); }
        if row.deliveredAt.None? { data := data.(deliveredAt := Some(occurredAt)); }
        if row.readAt.None? { data := data.(readAt := Some(occurredAt)); }
      }
      assert data == Apply(row, a);
      messages := messages[found.value := data];
    }

    /** The loop over the reports of one event. */
    method ApplyOutboundStatusUpdates(organizationId: string, us: seq<Arrival>)
      requires UniqueProviderIds(messages)
      modifies this`messages
      ensures messages == FoldTable(old(messages), us, Own(conversations, organizationId))
    {
      ghost var own := Own(conversations, organizationId);
      for i := 0 to |us|
        invariant |messages| == |old(messages)| && UniqueProviderIds(messages)
        invariant FoldTable(old(messages), us, own) == FoldTable(messages, us[i..], own)
      {
        assert us[i..][0] == us[i] && us[i..][1..] == us[i + 1..];
        ApplyOutboundStatusUpdate(organizationId, us[i]);
      }
    }

    /** The transaction of one raw event: the message, then the reports in order, then the event. */
    method RunTransaction(event: nat, text: Option<TextMessage>, us: seq<Arrival>, stamp: Stamp) returns (inserted: Option<nat>)
      requires event < |events| && Constraints(View())
      modifies this`channels, this`conversations, this`messages, this`events
      ensures View() == ProcessEvent(old(View()), event, text, us, stamp)
      ensures inserted == InsertedBy(old(View()), event, text, stamp)
    {
      var e := events[event];
      inserted := None;
      if text.Some? {
        assert UniqueProviderIds(PersistInbound(View(), e, text.value, stamp).0.messages);
        inserted := PersistInboundMessage(e, text.value, stamp);
      }
      ApplyOutboundStatusUpdates(e.organizationId, us);
      events := events[event := events[event].(status := PROCESSED)];
    }

    /** The extractors of the event's provider; only WhatsApp reports statuses. */
    method Extract(e: RawEvent, parse: string -> Option<Time>) returns (text: Option<TextMessage>, updates: seq<StatusUpdate>)
      ensures text == TextOf(e) && updates == StatusesOf(e, parse)
    {
      updates := [];
      if e.provider == WHATSAPP {
        text := ExtractWhatsAppTextMessage(e.payload);
        updates := ExtractWhatsAppStatusUpdates(e.payload, parse);
      } else {
        text := ExtractInstagramTextMessage(e.payload);
      }
    }

    /** Both announcements of an insert. */
    method Announce(inserted: Option<nat>, text: Option<TextMessage>)
      requires inserted.Some? ==> text.Some?
      modifies this`emitted
      ensures emitted == old(emitted) + Announcements(inserted, text)
      ensures inserted.Some? ==>
                emitted == old(emitted) + [MessageCreated(inserted.value, text.value.text), ConversationUpdated(inserted.value, text.value.text)]
      ensures inserted.None? ==> emitted == old(emitted)
    {
      if inserted.Some? {
        emitted := emitted + [MessageCreated(inserted.value, text.value.text)];
        emitted := emitted + [ConversationUpdated(inserted.value, text.value.text)];
      }
    }

    /** The transaction, or only the processed mark if there is nothing to process. */
    method ProcessPending(event: nat, text: Option<TextMessage>, us: seq<Arrival>, stamp: Stamp) returns (inserted: Option<nat>)
      requires event < |events| && Constraints(View())
      modifies this`channels, this`conversations, this`messages, this`events
      ensures View() == ProcessEvent(old(View()), event, text, us, stamp)
      ensures inserted == InsertedBy(old(View()), event, text, stamp)
    {
      if text.None? && us == [] {
        events := events[event := events[event].(status := PROCESSED)];
        return None;
      }
      inserted := RunTransaction(event, text, us, stamp);
    }

    /** `processRawEvent`. `fails` says whether the database refuses, which rolls the transaction back;
        `parse` reads provider timestamps, `clock` is read once per report. */
    method ProcessRawEvent(event: nat, parse: string -> Option<Time>, clock: seq<Time>, stamp: Stamp, fails: bool, finalAttempt: bool)
      returns (thrown: bool)
      requires Constraints(View())
      requires event < |events| ==> |clock| == |StatusesOf(events[event], parse)|
      modifies this
      ensures jobs == old(jobs)
      ensures thrown == (fails && event < |old(events)| && old(events)[event].status == PENDING)
      ensures event >= |old(events)| || old(events)[event].status != PENDING ==> View() == old(View()) && emitted == old(emitted)
      ensures thrown ==> View() == (if finalAttempt then Marked(old(View()), event, UNPROCESSABLE) else old(View())) && emitted == old(emitted)
      ensures event < |old(events)| && old(events)[event].status == PENDING && !fails ==>
                var e := old(events)[event];
                && View() == ProcessEvent(old(View()), event, TextOf(e), Arrivals(StatusesOf(e, parse), clock), stamp)
                && emitted == old(emitted) + Announcements(InsertedBy(old(View()), event, TextOf(e), stamp), TextOf(e))
    {
      thrown := false;
      if event >= |events| || events[event].status != PENDING { return; }
      if fails {
        if finalAttempt { MarkRawEventAsFailed(event); }
        return true;
      }
      var text, updates := Extract(events[event], parse);
      var inserted := ProcessPending(event, text, Arrivals(updates, clock), stamp);
      Announce(inserted, text);
    }

    method MarkRawEventAsFailed(event: nat)
      requires event < |events|
      modifies this`events
      ensures View() == Marked(old(View()), event, UNPROCESSABLE)
      ensures |events| == |old(events)| && events[event] == old(events)[event].(status := UNPROCESSABLE)
      ensures forall i :: 0 <= i < |events| && i != event ==> events[i] == old(events)[i]
    {
      events := events[event := events[event].(status := UNPROCESSABLE)];
    }

    // ----- Receipt -----

    /** `handleWhatsAppWebhook` and `handleInstagramWebhook` from the deduplication key on: persist and
        enqueue, or re-enqueue a duplicate that is still pending. `hash` is the payload-hash key, and
        `accepting` says whether the queue takes a job. A row whose job was refused stays pending, and the
        next delivery tries again. */
    method HandleWebhook(provider: Provider, account: string, organizationId: string, payload: Json, hash: string, accepting: bool)
      returns (receipt: Receipt)
      modifies this`events, this`jobs
      ensures
        var key := KeyOf(provider, payload).GetOr(hash);
        var e := RawEvent(provider, key, account, organizationId, payload, PENDING);
        var existing := Find(old(events), (r: RawEvent) => EventKey(r) == EventKey(e));
        var wanted := if existing.None? then [|old(events)|]
                      else if old(events)[existing.value].status == PENDING then [existing.value] else [];
        && View() == ReceiveEvent(old(View()), e)
        && jobs == old(jobs) + (if accepting then wanted else [])
        && receipt == if wanted != [] && !accepting then EnqueueFailed else if existing.Some? then Duplicate else Stored
    {
      var found: Option<string>;
      if provider == WHATSAPP {
        found := ExtractWhatsAppProviderMessageId(payload);
      } else {
        found := ExtractInstagramProviderMessageId(payload);
      }
      var e := RawEvent(provider, found.GetOr(hash), account, organizationId, payload, PENDING);
      var existing := Find(events, (r: RawEvent) => EventKey(r) == EventKey(e));
      if existing.None? {
        var id := |events|;
        events := events + [e];
        if !accepting { return EnqueueFailed; }
        jobs := jobs + [id];
        return Stored;
      }
      var thrown := ReenqueueIfPendingDuplicate(existing.value, accepting);
      return if thrown then EnqueueFailed else Duplicate;
    }

    method ReenqueueIfPendingDuplicate(event: nat, accepting: bool) returns (thrown: bool)
      requires event < |events|
      modifies this`jobs
      ensures thrown == (events[event].status == PENDING && !accepting)
      ensures jobs == if events[event].status == PENDING && accepting then old(jobs) + [event] else old(jobs)
    {
      if events[event].status != PENDING { return false; }
      if !accepting { return true; }
      jobs := jobs + [event];
      return false;
    }
  }
}

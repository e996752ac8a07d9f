/** What receiving and processing an event leaves in the tables, field by field and organization by organization. */
module InboxContents {
  import opened Wrappers
  import opened Messages
  import opened MessageTable
  import opened Text
  import opened WebhookPayloads
  import opened Inbox
  import opened InboxRuns

  // ----- Receipt -----

  /** A new event is in the table, pending, under its key; a key that is there already adds nothing. */
  lemma ReceivedEvent(db: Db, e: RawEvent)
    ensures var db' := ReceiveEvent(db, e);
            && (exists i :: 0 <= i < |db'.events| && db'.events[i].provider == e.provider && db'.events[i].providerMessageId == e.providerMessageId)
            && db'.events == (if exists i :: 0 <= i < |db.events| && db.events[i].provider == e.provider && db.events[i].providerMessageId == e.providerMessageId
                              then db.events else db.events + [e])
            && db'.messages == db.messages && db'.conversations == db.conversations && db'.channels == db.channels
  {
    var db' := ReceiveEvent(db, e);
    var existing := Find(db.events, (r: RawEvent) => EventKey(r) == EventKey(e));
    if existing.Some? {
      assert EventKey(db.events[existing.value]) == EventKey(e);
      assert db'.events[existing.value].provider == e.provider;
    } else {
      forall i | 0 <= i < |db.events| ensures !(db.events[i].provider == e.provider && db.events[i].providerMessageId == e.providerMessageId) {
        assert EventKey(db.events[i]) != EventKey(e);
      }
      assert db'.events[|db.events|] == e;
    }
  }

  // ----- Storing a message -----

  /** The conversation belongs to the event's account and to the message's sender, and shows the message. */
  ghost predicate Shows(db: Db, c: nat, e: RawEvent, text: TextMessage) {
    && c < |db.conversations| && db.conversations[c].channel < |db.channels|
    && var row, channel := db.conversations[c], db.channels[db.conversations[c].channel];
       && row.organizationId == e.organizationId && row.externalThreadId == text.externalThreadId
       && channel.organizationId == e.organizationId && channel.provider == e.provider && channel.externalId == e.externalAccountId
       && row.contactName == text.customerDisplay && row.contactPhone == text.from
       && row.lastMessageText == Some(text.text) && row.isUnread
  }

  /** One inbound message with the text and id that were sent, in one conversation, which is open if it is
      new; nothing else moves. */
  lemma StoredMessage(db: Db, e: RawEvent, text: TextMessage, stamp: Stamp)
    requires forall i :: 0 <= i < |db.messages| ==> db.messages[i].providerMessageId != Some(text.providerMessageId)
    ensures var (db', c) := PersistInbound(db, e, text, stamp);
            && c.Some? && Shows(db', c.value, e, text)
            && db'.messages == db.messages + [Message(INBOUND, text.text, Some(text.providerMessageId), None, None, None, None, None, None, None, c.value, stamp.createdAt)]
            && |db.conversations| <= |db'.conversations| <= |db.conversations| + 1
            && (forall d :: 0 <= d < |db.conversations| && d != c.value ==> db'.conversations[d] == db.conversations[d])
            && db'.conversations[c.value].status == (if c.value < |db.conversations| then db.conversations[c.value].status else OPEN)
            && db'.events == db.events && db.channels <= db'.channels
  {
    assert FindMessage(db, text.providerMessageId).None?;
  }

  /** A new conversation is open and unread, has no message yet and names the sender; a new channel is
      named after its provider. */
  lemma NewRows(db: Db, e: RawEvent, channel: nat, text: TextMessage, stamp: Stamp)
    ensures var (db', i) := UpsertChannel(db, e);
            db'.channels == db.channels
            || db'.channels == db.channels + [Channel(e.organizationId, e.provider, e.externalAccountId,
                 match e.provider case WHATSAPP => "WhatsApp Business" case INSTAGRAM => "Instagram Business")]
    ensures var (db', c) := GetOrCreateConversation(db, e.organizationId, channel, text, stamp);
            db'.conversations == db.conversations
            || db'.conversations == db.conversations + [Conversation(e.organizationId, channel, text.externalThreadId, text.customerDisplay, text.from,
                 OPEN, None, None, true, stamp.updatedAt)]
  {
  }

  /** A channel or conversation is made only where there is none for that account or thread. */
  lemma NothingTwice(db: Db, e: RawEvent, text: TextMessage, stamp: Stamp)
    ensures var db' := PersistInbound(db, e, text, stamp).0;
            && (|db'.channels| > |db.channels| ==>
                  forall i :: 0 <= i < |db.channels| ==>
                    !(db.channels[i].organizationId == e.organizationId && db.channels[i].provider == e.provider && db.channels[i].externalId == e.externalAccountId))
            && (|db'.conversations| > |db.conversations| ==>
                  forall i :: 0 <= i < |db.conversations| ==>
                    !(db.conversations[i].organizationId == e.organizationId && db.conversations[i].externalThreadId == text.externalThreadId
                      && db.conversations[i].channel == db'.conversations[|db.conversations|].channel))
  {
    var (db1, channel) := UpsertChannel(db, e);
    forall i | 0 <= i < |db.channels| && |db1.channels| > |db.channels|
      ensures !(db.channels[i].organizationId == e.organizationId && db.channels[i].provider == e.provider && db.channels[i].externalId == e.externalAccountId)
    {
      assert !IsChannel(db.channels[i], e.organizationId, e.provider, e.externalAccountId);
    }
    var (db2, conversation) := GetOrCreateConversation(db1, e.organizationId, channel, text, stamp);
    forall i | 0 <= i < |db.conversations| && |db2.conversations| > |db.conversations|
      ensures !(db.conversations[i].organizationId == e.organizationId && db.conversations[i].externalThreadId == text.externalThreadId
                && db.conversations[i].channel == db2.conversations[|db.conversations|].channel)
    {
      assert !IsThread(db.conversations[i], e.organizationId, channel, text.externalThreadId);
    }
  }

  /** The transaction of an event without reports is the storing of its message, and the mark. */
  lemma TextOnly(db: Db, event: nat, text: TextMessage, stamp: Stamp)
    requires event < |db.events|
    ensures var db1 := PersistInbound(db, db.events[event], text, stamp).0;
            var db' := ProcessEvent(db, event, Some(text), [], stamp);
            db'.channels == db1.channels && db'.conversations == db1.conversations && db'.messages == db1.messages
            && db'.events == db.events[event := db.events[event].(status := PROCESSED)]
  {
  }

  /** From the payload to the tables: what a contact wrote on WhatsApp is the body of the stored message
      and the last text of the conversation with that contact, and replies go to the number it came from. */
  lemma WhatsAppTextIsStored(db: Db, event: nat, id: string, from: string, body: string, parse: string -> Option<Time>, stamp: Stamp)
    requires event < |db.events| && db.events[event].provider == WHATSAPP && db.events[event].payload == TextPayload(id, from, body)
    requires Trimmed(id) && Trimmed(from) && Trimmed(body)
    requires forall i :: 0 <= i < |db.messages| ==> db.messages[i].providerMessageId != Some(id)
    ensures StatusesOf(db.events[event], parse) == []
    ensures var db' := ProcessEvent(db, event, TextOf(db.events[event]), [], stamp);
            IsStored(db, db', event, id, from, body, "wa:" + from)
  {
    TextPayloadReads(id, from, body, parse);
    Stored(db, event, TextMessage(id, from, body, "wa:" + from, from), stamp);
  }

  lemma InstagramTextIsStored(db: Db, event: nat, id: string, from: string, body: string, parse: string -> Option<Time>, stamp: Stamp)
    requires event < |db.events| && db.events[event].provider == INSTAGRAM && db.events[event].payload == InstagramPayload(id, from, body)
    requires Trimmed(id) && Trimmed(from) && Trimmed(body)
    requires forall i :: 0 <= i < |db.messages| ==> db.messages[i].providerMessageId != Some(id)
    ensures StatusesOf(db.events[event], parse) == []
    ensures var db' := ProcessEvent(db, event, TextOf(db.events[event]), [], stamp);
            IsStored(db, db', event, id, from, body, "ig:" + from)
  {
    InstagramPayloadReads(id, from, body);
    Stored(db, event, TextMessage(id, from, body, "ig:" + from, from), stamp);
  }

  /** The last row is the contact's message, in the contact's conversation. */
  ghost predicate IsStored(db: Db, db': Db, event: nat, id: string, from: string, body: string, thread: string) {
    && event < |db'.events| == |db.events| && db'.events[event].status == PROCESSED
    && |db'.messages| == |db.messages| + 1 && db.messages <= db'.messages
    && var row := db'.messages[|db.messages|];
       && row.direction == INBOUND && row.body == body && row.providerMessageId == Some(id)
       && row.conversation < |db'.conversations|
       && var c := db'.conversations[row.conversation];
          && c.organizationId == db.events[event].organizationId && c.externalThreadId == thread
          && c.contactPhone == from && c.contactName == from && c.lastMessageText == Some(body) && c.isUnread
  }

  lemma Stored(db: Db, event: nat, text: TextMessage, stamp: Stamp)
    requires event < |db.events|
    requires forall i :: 0 <= i < |db.messages| ==> db.messages[i].providerMessageId != Some(text.providerMessageId)
    requires text.customerDisplay == text.from
    ensures var db' := ProcessEvent(db, event, Some(text), [], stamp);
            IsStored(db, db', event, text.providerMessageId, text.from, text.text, text.externalThreadId)
  {
    StoredMessage(db, db.events[event], text, stamp);
    TextOnly(db, event, text, stamp);
  }

  // ----- Other organizations -----

  /** Rows of other organizations stay, and new rows are the organization's own. */
  ghost predicate TouchesOnly(db: Db, db': Db, organizationId: string) {
    && OtherConversationsStay(db.conversations, db'.conversations, organizationId)
    && OtherMessagesStay(db, db', organizationId)
  }

  ghost predicate OtherConversationsStay(cs: seq<Conversation>, cs': seq<Conversation>, organizationId: string) {
    && |cs| <= |cs'|
    && (forall c :: 0 <= c < |cs| && cs[c].organizationId != organizationId ==> cs'[c] == cs[c])
    && (forall c :: 0 <= c < |cs| ==> cs'[c].organizationId == cs[c].organizationId)
    && (forall c :: |cs| <= c < |cs'| ==> cs'[c].organizationId == organizationId)
  }

  /** The message's conversation belongs to the organization. */
  predicate IsOwn(db: Db, i: nat, organizationId: string)
    requires i < |db.messages|
  {
    db.messages[i].conversation < |db.conversations| && db.conversations[db.messages[i].conversation].organizationId == organizationId
  }

  ghost predicate OtherMessagesStay(db: Db, db': Db, organizationId: string) {
    && |db.messages| <= |db'.messages|
    && (forall i :: 0 <= i < |db.messages| && !IsOwn(db, i, organizationId) ==> db'.messages[i] == db.messages[i])
    && (forall i :: |db.messages| <= i < |db'.messages| ==> IsOwn(db', i, organizationId))
  }

  lemma FoldTouchesOwn(db: Db, us: seq<Arrival>, organizationId: string)
    ensures TouchesOnly(db, db.(messages := FoldTable(db.messages, us, Own(db.conversations, organizationId))), organizationId)
  {
    var own := Own(db.conversations, organizationId);
    forall i | 0 <= i < |db.messages| && !IsOwn(db, i, organizationId) ensures FoldTable(db.messages, us, own)[i] == db.messages[i] {
      BatchDecomposes(db.messages, us, own, i);
    }
  }

  lemma TouchesOnlyTwice(a: Db, b: Db, c: Db, organizationId: string)
    requires TouchesOnly(a, b, organizationId) && TouchesOnly(b, c, organizationId) && Constraints(a)
    requires b.messages[..|a.messages|] == a.messages && c.conversations == b.conversations
    requires |c.messages| == |b.messages| && forall i :: 0 <= i < |b.messages| ==> c.messages[i].conversation == b.messages[i].conversation
    ensures TouchesOnly(a, c, organizationId)
  {
    forall i | 0 <= i < |a.messages| ensures IsOwn(b, i, organizationId) <==> IsOwn(a, i, organizationId) {
      assert b.messages[i] == a.messages[i];
    }
    forall i | 0 <= i < |c.messages| ensures IsOwn(c, i, organizationId) <==> IsOwn(b, i, organizationId) {}
  }

  /** Whatever an event carries, its transaction touches no conversation, no message and no event but its
      own organization's, and its own. */
  lemma OthersUntouched(db: Db, event: nat, text: Option<TextMessage>, us: seq<Arrival>, stamp: Stamp)
    requires event < |db.events| && Constraints(db)
    ensures var db' := ProcessEvent(db, event, text, us, stamp);
            && TouchesOnly(db, db', db.events[event].organizationId)
            && db'.events == db.events[event := db.events[event].(status := PROCESSED)]
  {
    var e := db.events[event];
    var db1 := if text.Some? then PersistInbound(db, e, text.value, stamp).0 else db;
    var own := Own(db1.conversations, e.organizationId);
    var db2 := db1.(messages := FoldTable(db1.messages, us, own));
    if text.Some? { PersistTouchesOwn(db, e, text.value, stamp); }
    assert TouchesOnly(db, db1, e.organizationId);
    FoldTouchesOwn(db1, us, e.organizationId);
    forall i | 0 <= i < |db1.messages| ensures db2.messages[i].conversation == db1.messages[i].conversation {
      FoldTableIdentity(db1.messages, us, own, i);
    }
    TouchesOnlyTwice(db, db1, db2, e.organizationId);
  }

  lemma PersistTouchesOwn(db: Db, e: RawEvent, text: TextMessage, stamp: Stamp)
    ensures var db' := PersistInbound(db, e, text, stamp).0;
            TouchesOnly(db, db', e.organizationId) && db.messages <= db'.messages
  {
  }

  // ----- Outbound messages -----

  /** A message by an agent is queued under its text and answers the conversation, unless that is resolved. */
  lemma OutboundMessage(db: Db, c: nat, body: string, stamp: Stamp)
    requires c < |db.conversations|
    ensures var db' := CreateOutbound(db, c, body, stamp);
            && (db.conversations[c].status == RESOLVED ==> db' == db)
            && (db.conversations[c].status != RESOLVED ==>
                  && db'.messages == db.messages + [Message(OUTBOUND, body, None, Some(QUEUED), Some(stamp.createdAt), None, None, None, None, None, c, stamp.createdAt)]
                  && db'.conversations == db.conversations[c := db.conversations[c].(
                       lastMessageAt := Some(stamp.createdAt), lastMessageText := Some(body), isUnread := false, updatedAt := stamp.updatedAt)]
                  && db'.channels == db.channels && db'.events == db.events)
  {
  }
}

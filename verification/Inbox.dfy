/**
 Channels, conversations, messages and raw webhook events as database tables (a row's id is its
 index), and the transactions that write them.
 */
module Inbox {
  import opened Wrappers
  import opened Messages
  import opened MessageTable
  import opened WebhookPayloads

  datatype Provider = WHATSAPP | INSTAGRAM

  datatype ConversationStatus = OPEN | RESOLVED | SNOOZED

  datatype Channel = Channel(organizationId: string, provider: Provider, externalId: string, name: string)

  datatype Conversation = Conversation(
    organizationId: string,
    channel: nat,
    externalThreadId: string,
    contactName: string,
    contactPhone: string,
    status: ConversationStatus,
    lastMessageAt: Option<Time>,
    lastMessageText: Option<string>,
    isUnread: bool,
    updatedAt: Time)

  datatype Processing = PENDING | PROCESSED | UNPROCESSABLE

  datatype RawEvent = RawEvent(
    provider: Provider,
    providerMessageId: string,
    externalAccountId: string,
    organizationId: string,
    payload: Json,
    status: Processing)

  datatype Db = Db(channels: seq<Channel>, conversations: seq<Conversation>, messages: seq<Message>, events: seq<RawEvent>)

  // ----- Lookups -----

  /** `findFirst` and `findUnique`: the first row that satisfies the condition. */
  function FindFrom<T>(rows: seq<T>, p: T -> bool, i: nat): (r: Option<nat>)
    requires i <= |rows|
    ensures r.Some? ==> i <= r.value < |rows| && p(rows[r.value]) && forall j :: i <= j < r.value ==> !p(rows[j])
    ensures r.None? ==> forall j :: i <= j < |rows| ==> !p(rows[j])
    decreases |rows| - i
  {
    if i == |rows| then None else if p(rows[i]) then Some(i) else FindFrom(rows, p, i + 1)
  }

  function Find<T>(rows: seq<T>, p: T -> bool): (r: Option<nat>)
    ensures r.Some? ==> r.value < |rows| && p(rows[r.value]) && forall j :: 0 <= j < r.value ==> !p(rows[j])
    ensures r.None? ==> forall j :: 0 <= j < |rows| ==> !p(rows[j])
  {
    FindFrom(rows, p, 0)
  }

  /** A row that was found is found again while the table only grows. */
  lemma FindStable<T>(rows: seq<T>, more: seq<T>, p: T -> bool)
    requires |rows| <= |more| && forall i :: 0 <= i < |rows| ==> p(rows[i]) == p(more[i])
    requires Find(rows, p).Some?
    ensures Find(more, p) == Find(rows, p)
  {
    assert p(more[Find(rows, p).value]);
    assert forall j :: 0 <= j < Find(rows, p).value ==> !p(more[j]);
  }

  predicate IsChannel(c: Channel, organizationId: string, provider: Provider, externalId: string) {
    c.organizationId == organizationId && c.provider == provider && c.externalId == externalId
  }

  predicate IsThread(c: Conversation, organizationId: string, channel: nat, externalThreadId: string) {
    c.organizationId == organizationId && c.channel == channel && c.externalThreadId == externalThreadId
  }

  predicate HasProviderId(m: Message, id: string) {
    m.providerMessageId == Some(id)
  }

  function FindChannel(db: Db, e: RawEvent): Option<nat> {
    Find(db.channels, (c: Channel) => IsChannel(c, e.organizationId, e.provider, e.externalAccountId))
  }

  function FindThread(db: Db, organizationId: string, channel: nat, externalThreadId: string): Option<nat> {
    Find(db.conversations, (c: Conversation) => IsThread(c, organizationId, channel, externalThreadId))
  }

  function FindMessage(db: Db, id: string): Option<nat> {
    Find(db.messages, (m: Message) => HasProviderId(m, id))
  }

  /** The conversations of one organization. */
  function Own(conversations: seq<Conversation>, organizationId: string): set<nat> {
    set i | 0 <= i < |conversations| && conversations[i].organizationId == organizationId
  }

  // ----- Transactions -----

  /** The clock readings of one transaction: the message's creation time and the row's `updatedAt`. */
  datatype Stamp = Stamp(createdAt: Time, updatedAt: Time)

  function InboundRow(text: TextMessage, conversation: nat, at: Time): Message {
    Message(INBOUND, text.text, Some(text.providerMessageId), None, None, None, None, None, None, None, conversation, at)
  }

  function ChannelName(p: Provider): string {
    if p == INSTAGRAM then "Instagram Business" else "WhatsApp Business"
  }

  function UpsertChannel(db: Db, e: RawEvent): (r: (Db, nat))
    ensures r.1 < |r.0.channels| && IsChannel(r.0.channels[r.1], e.organizationId, e.provider, e.externalAccountId)
    ensures r.0 == db.(channels := r.0.channels)
  {
    match FindChannel(db, e)
    case Some(i) => (db, i)
    case None =>
      (db.(channels := db.channels + [Channel(e.organizationId, e.provider, e.externalAccountId, ChannelName(e.provider))]), |db.channels|)
  }

  function GetOrCreateConversation(db: Db, organizationId: string, channel: nat, text: TextMessage, stamp: Stamp): (r: (Db, nat))
    ensures r.1 < |r.0.conversations| && IsThread(r.0.conversations[r.1], organizationId, channel, text.externalThreadId)
    ensures r.0 == db.(conversations := r.0.conversations)
  {
    match FindThread(db, organizationId, channel, text.externalThreadId)
    case Some(i) => (db, i)
    case None =>
      (db.(conversations := db.conversations + [Conversation(organizationId, channel, text.externalThreadId,
         text.customerDisplay, text.from, OPEN, None, None, true, stamp.updatedAt)]), |db.conversations|)
  }

  /** The message insert with its conversation update; a duplicate provider id makes both a no-op.
      The result names the conversation if a message was inserted. */
  function InsertInbound(db: Db, conversation: nat, text: TextMessage, stamp: Stamp): (Db, Option<nat>)
    requires conversation < |db.conversations|
  {
    if FindMessage(db, text.providerMessageId).Some? then (db, None)
    else
      (db.(messages := db.messages + [InboundRow(text, conversation, stamp.createdAt)],
           conversations := db.conversations[conversation := db.conversations[conversation].(
             contactName := text.customerDisplay, contactPhone := text.from, lastMessageAt := Some(stamp.createdAt),
             lastMessageText := Some(text.text), isUnread := true, updatedAt := stamp.updatedAt)]),
       Some(conversation))
  }

  function PersistInbound(db: Db, e: RawEvent, text: TextMessage, stamp: Stamp): (Db, Option<nat>) {
    var (db1, channel) := UpsertChannel(db, e);
    var (db2, conversation) := GetOrCreateConversation(db1, e.organizationId, channel, text, stamp);
    InsertInbound(db2, conversation, text, stamp)
  }

  /** Every report of the batch, at its clock reading. */
  function Arrivals(updates: seq<StatusUpdate>, clock: seq<Time>): seq<Arrival>
    requires |clock| == |updates|
  {
    seq(|updates|, i requires 0 <= i < |updates| => Arrival(updates[i], clock[i]))
  }

  /** The transaction of one raw event. */
  function ProcessEvent(db: Db, event: nat, text: Option<TextMessage>, us: seq<Arrival>, stamp: Stamp): Db
    requires event < |db.events|
  {
    var e := db.events[event];
    var db1 := if text.Some? then PersistInbound(db, e, text.value, stamp).0 else db;
    db1.(messages := FoldTable(db1.messages, us, Own(db1.conversations, e.organizationId)),
         events := db.events[event := e.(status := PROCESSED)])
  }

  /** `createOutboundMessage`; a resolved conversation refuses it. */
  function CreateOutbound(db: Db, conversation: nat, body: string, stamp: Stamp): Db
    requires conversation < |db.conversations|
  {
    if db.conversations[conversation].status == RESOLVED then db
    else
      db.(messages := db.messages + [OutboundRow(body, conversation, stamp.createdAt)],
          conversations := db.conversations[conversation := db.conversations[conversation].(
            lastMessageAt := Some(stamp.createdAt), lastMessageText := Some(body), isUnread := false, updatedAt := stamp.updatedAt)])
  }

  // ----- Constraints -----

  ghost predicate Distinct<T(!new), K(!new)>(rows: seq<T>, key: T -> K) {
    forall i, j :: 0 <= i < j < |rows| ==> key(rows[i]) != key(rows[j])
  }

  function ChannelKey(c: Channel): (string, Provider, string) { (c.organizationId, c.provider, c.externalId) }
  function ThreadKey(c: Conversation): (string, nat, string) { (c.organizationId, c.channel, c.externalThreadId) }
  function EventKey(e: RawEvent): (Provider, string) { (e.provider, e.providerMessageId) }

  /** The unique indexes, and the foreign keys. */
  ghost predicate Constraints(db: Db) {
    && Distinct(db.channels, ChannelKey)
    && Distinct(db.conversations, ThreadKey)
    && Distinct(db.events, EventKey)
    && UniqueProviderIds(db.messages)
    && (forall i :: 0 <= i < |db.conversations| ==> db.conversations[i].channel < |db.channels|)
    && (forall i :: 0 <= i < |db.messages| ==> db.messages[i].conversation < |db.conversations|)
  }

  /** Rows are never deleted, and what identifies them never changes. */
  ghost predicate Grows(db: Db, db': Db) {
    && db.channels <= db'.channels
    && |db.conversations| <= |db'.conversations|
    && (forall i :: 0 <= i < |db.conversations| ==> ThreadKey(db'.conversations[i]) == ThreadKey(db.conversations[i]))
    && |db.messages| <= |db'.messages|
    && (forall i :: 0 <= i < |db.messages| ==>
          && db'.messages[i].direction == db.messages[i].direction && db'.messages[i].body == db.messages[i].body
          && db'.messages[i].conversation == db.messages[i].conversation && db'.messages[i].createdAt == db.messages[i].createdAt
          && (db.messages[i].providerMessageId.Some? && db.messages[i].direction == INBOUND ==>
                db'.messages[i].providerMessageId == db.messages[i].providerMessageId))
    && |db.events| <= |db'.events|
    && (forall i :: 0 <= i < |db.events| ==> db'.events[i] == db.events[i].(status := db'.events[i].status))
  }

  // ----- Cache -----

  /** The most recently inserted message of a conversation. */
  function LastOf(messages: seq<Message>, conversation: nat): (r: Option<nat>)
    ensures r.Some? ==> r.value < |messages| && messages[r.value].conversation == conversation
    ensures forall i :: 0 <= i < |messages| && messages[i].conversation == conversation ==> r.Some? && i <= r.value
  {
    if messages == [] then None
    else if messages[|messages| - 1].conversation == conversation then Some(|messages| - 1)
    else LastOf(messages[..|messages| - 1], conversation)
  }

  ghost predicate Cached(db: Db) {
    forall c :: 0 <= c < |db.conversations| ==>
      var last := LastOf(db.messages, c);
      if last.None? then db.conversations[c].lastMessageText.None? && db.conversations[c].lastMessageAt.None?
      else
        && db.conversations[c].lastMessageText == Some(db.messages[last.value].body)
        && db.conversations[c].lastMessageAt == Some(db.messages[last.value].createdAt)
  }

  /** The search of `listConversations`; `contains` stands for the database's case-insensitive match. */
  ghost predicate SearchHit(db: Db, c: nat, term: string, contains: (string, string) -> bool)
    requires c < |db.conversations|
  {
    || contains(db.conversations[c].contactName, term)
    || (db.conversations[c].lastMessageText.Some? && contains(db.conversations[c].lastMessageText.value, term))
    || exists i :: 0 <= i < |db.messages| && db.messages[i].conversation == c && contains(db.messages[i].body, term)
  }

  /** The `lastMessageText` disjunct never changes a search result. */
  lemma SearchWithoutCache(db: Db, c: nat, term: string, contains: (string, string) -> bool)
    requires c < |db.conversations| && Cached(db)
    ensures SearchHit(db, c, term, contains) <==>
            contains(db.conversations[c].contactName, term)
            || exists i :: 0 <= i < |db.messages| && db.messages[i].conversation == c && contains(db.messages[i].body, term)
  {
    var last := LastOf(db.messages, c);
    if last.Some? { assert db.messages[last.value].conversation == c; }
  }

  // ----- What the inbound transaction keeps -----

  lemma SameLast(a: seq<Message>, b: seq<Message>, c: nat)
    requires |a| == |b| && forall i :: 0 <= i < |a| ==> a[i].conversation == b[i].conversation
    ensures LastOf(a, c) == LastOf(b, c)
  {
    if LastOf(a, c).Some? { assert b[LastOf(a, c).value].conversation == c; }
    if LastOf(b, c).Some? { assert a[LastOf(b, c).value].conversation == c; }
  }

  lemma LastAfterAppend(a: seq<Message>, m: Message, c: nat)
    ensures LastOf(a + [m], c) == if m.conversation == c then Some(|a|) else LastOf(a, c)
  {
    assert (a + [m])[..|a|] == a;
  }

  /** A message appended with its conversation's cache. */
  lemma AppendCached(db: Db, m: Message, row: Conversation)
    requires Cached(db) && m.conversation < |db.conversations|
    requires row.lastMessageText == Some(m.body) && row.lastMessageAt == Some(m.createdAt)
    ensures Cached(db.(messages := db.messages + [m], conversations := db.conversations[m.conversation := row]))
  {
    forall c ensures LastOf(db.messages + [m], c) == if c == m.conversation then Some(|db.messages|) else LastOf(db.messages, c) {
      LastAfterAppend(db.messages, m, c);
    }
  }

  lemma AppendConstrained(db: Db, m: Message, row: Conversation)
    requires Constraints(db) && m.conversation < |db.conversations|
    requires ThreadKey(row) == ThreadKey(db.conversations[m.conversation])
    requires m.providerMessageId.Some? ==> FindMessage(db, m.providerMessageId.value).None?
    ensures var db' := db.(messages := db.messages + [m], conversations := db.conversations[m.conversation := row]);
            Constraints(db') && Grows(db, db')
  {
    var conversations := db.conversations[m.conversation := row];
    assert forall i :: 0 <= i < |conversations| ==> ThreadKey(conversations[i]) == ThreadKey(db.conversations[i]);
    if m.providerMessageId.Some? {
      assert forall i :: 0 <= i < |db.messages| ==> !HasProviderId(db.messages[i], m.providerMessageId.value);
    }
  }

  lemma InsertKeeps(db: Db, conversation: nat, text: TextMessage, stamp: Stamp)
    requires Constraints(db) && Cached(db) && conversation < |db.conversations|
    ensures var db' := InsertInbound(db, conversation, text, stamp).0;
            Constraints(db') && Cached(db') && Grows(db, db')
  {
    var db' := InsertInbound(db, conversation, text, stamp).0;
    if db' != db {
      AppendCached(db, InboundRow(text, conversation, stamp.createdAt), db'.conversations[conversation]);
      AppendConstrained(db, InboundRow(text, conversation, stamp.createdAt), db'.conversations[conversation]);
    }
  }

  lemma DistinctAppend<T(!new), K(!new)>(rows: seq<T>, row: T, key: T -> K)
    requires Distinct(rows, key) && forall i :: 0 <= i < |rows| ==> key(rows[i]) != key(row)
    ensures Distinct(rows + [row], key)
  {
  }

  lemma UpsertKeeps(db: Db, e: RawEvent)
    requires Constraints(db) && Cached(db)
    ensures var db' := UpsertChannel(db, e).0; Constraints(db') && Cached(db') && Grows(db, db')
  {
    var db' := UpsertChannel(db, e).0;
    if db' != db {
      DistinctAppend(db.channels, db'.channels[|db.channels|], ChannelKey);
    }
  }

  lemma GetOrCreateKeeps(db: Db, organizationId: string, channel: nat, text: TextMessage, stamp: Stamp)
    requires Constraints(db) && Cached(db) && channel < |db.channels|
    ensures var db' := GetOrCreateConversation(db, organizationId, channel, text, stamp).0;
            Constraints(db') && Cached(db') && Grows(db, db')
  {
    var db' := GetOrCreateConversation(db, organizationId, channel, text, stamp).0;
    if db' != db {
      var row := db'.conversations[|db.conversations|];
      forall i | 0 <= i < |db.conversations| ensures ThreadKey(db.conversations[i]) != ThreadKey(row) {
        assert !IsThread(db.conversations[i], organizationId, channel, text.externalThreadId);
      }
      DistinctAppend(db.conversations, row, ThreadKey);
      assert Constraints(db');
      assert Cached(db') by { assert LastOf(db.messages, |db.conversations|).None?; }
    }
  }

  lemma PersistKeeps(db: Db, e: RawEvent, text: TextMessage, stamp: Stamp)
    requires Constraints(db) && Cached(db)
    ensures var db' := PersistInbound(db, e, text, stamp).0;
            Constraints(db') && Cached(db') && Grows(db, db') && db'.events == db.events
  {
    var (db1, channel) := UpsertChannel(db, e);
    UpsertKeeps(db, e);
    var (db2, conversation) := GetOrCreateConversation(db1, e.organizationId, channel, text, stamp);
    GetOrCreateKeeps(db1, e.organizationId, channel, text, stamp);
    InsertKeeps(db2, conversation, text, stamp);
  }
}

/** Extraction of messages, status reports and deduplication keys from provider payloads. */
module WebhookPayloads {
  import opened Wrappers
  import opened Messages
  import opened Text

  datatype Json =
    | Null  // also stands for `undefined`: every test below treats them alike
    | Bool(bool)
    | Number(real)
    | String(s: string)
    | Array(items: seq<Json>)
    | Object(fields: map<string, Json>)

  type Fields = map<string, Json>

  function Field(o: Fields, key: string): Json {
    if key in o then o[key] else Null
  }

  /** The array under a key, or no items if there is something else. */
  function Items(o: Fields, key: string): seq<Json> {
    if Field(o, key).Array? then Field(o, key).items else []
  }

  function ReadNonEmptyString(value: Json): Option<string> {
    if value.String? && Trim(value.s) != "" then Some(Trim(value.s)) else None
  }

  function FlatMap<A, B>(f: A -> seq<B>, xs: seq<A>): seq<B> {
    if xs == [] then [] else f(xs[0]) + FlatMap(f, xs[1..])
  }

  /** The first result, in order. */
  function FirstSome<A, B>(f: A -> Option<B>, xs: seq<A>): Option<B> {
    if xs == [] then None else if f(xs[0]).Some? then f(xs[0]) else FirstSome(f, xs[1..])
  }

  function Somes<A, B>(f: A -> Option<B>, xs: seq<A>): seq<B> {
    FlatMap(x => if f(x).Some? then [f(x).value] else [], xs)
  }

  /** FirstSome is what its name says: none exactly if there is none, otherwise the earliest. */
  lemma {:induction false} FirstSomeIsFirst<A, B>(f: A -> Option<B>, xs: seq<A>)
    ensures FirstSome(f, xs).None? <==> forall x :: x in xs ==> f(x).None?
    ensures FirstSome(f, xs).Some? ==>
              exists i :: 0 <= i < |xs| && FirstSome(f, xs) == f(xs[i]) && forall j :: 0 <= j < i ==> f(xs[j]).None?
  {
    if xs != [] {
      FirstSomeIsFirst(f, xs[1..]);
      assert forall x :: x in xs <==> x == xs[0] || x in xs[1..];
      if f(xs[0]).Some? {
        assert FirstSome(f, xs) == f(xs[0]);
      } else if FirstSome(f, xs).Some? {
        var i :| 0 <= i < |xs| - 1 && FirstSome(f, xs) == f(xs[1..][i]) && forall j :: 0 <= j < i ==> f(xs[1..][j]).None?;
        assert f(xs[i + 1]) == FirstSome(f, xs);
        assert forall j :: 0 <= j < i + 1 ==> f(xs[j]).None? by {
          forall j | 0 <= j < i + 1 ensures f(xs[j]).None? { if j > 0 { assert xs[j] == xs[1..][j - 1]; } }
        }
      }
    }
  }

  lemma {:induction false} FlatMapEmpty<A, B>(f: A -> seq<B>, xs: seq<A>)
    ensures FlatMap(f, xs) == [] <==> forall x :: x in xs ==> f(x) == []
  {
    if xs != [] {
      FlatMapEmpty(f, xs[1..]);
      assert forall x :: x in xs <==> x == xs[0] || x in xs[1..];
    }
  }

  lemma {:induction false} FlatMapAll<A, B>(f: A -> seq<B>, xs: seq<A>, p: B -> bool)
    requires forall x, y :: x in xs && y in f(x) ==> p(y)
    ensures forall y :: y in FlatMap(f, xs) ==> p(y)
  {
    if xs != [] { FlatMapAll(f, xs[1..], p); }
  }

  // ----- WhatsApp -----

  function ChangeValue(change: Json): seq<Fields> {
    if change.Object? && Field(change.fields, "value").Object? then [Field(change.fields, "value").fields] else []
  }

  function EntryValues(entry: Json): seq<Fields> {
    if entry.Object? then FlatMap(ChangeValue, Items(entry.fields, "changes")) else []
  }

  function ChangeValues(payload: Json): seq<Fields> {
    if payload.Object? then FlatMap(EntryValues, Items(payload.fields, "entry")) else []
  }

  datatype TextMessage = TextMessage(
    providerMessageId: string,
    from: string,
    text: string,
    externalThreadId: string,
    customerDisplay: string)

  function WhatsAppTextOf(message: Json): Option<TextMessage> {
    if !message.Object? then None
    else
      var id, from := ReadNonEmptyString(Field(message.fields, "id")), ReadNonEmptyString(Field(message.fields, "from"));
      var text := Field(message.fields, "text");
      var body := if text.Object? then ReadNonEmptyString(Field(text.fields, "body")) else None;
      if ReadNonEmptyString(Field(message.fields, "type")) != Some("text") || id.None? || from.None? || body.None? then None
      else Some(TextMessage(id.value, from.value, body.value, "wa:" + from.value, from.value))
  }

  function WhatsAppText(payload: Json): Option<TextMessage> {
    FirstSome(v => FirstSome(WhatsAppTextOf, Items(v, "messages")), ChangeValues(payload))
  }

  function IdOf(value: Json): Option<string> {
    if value.Object? then ReadNonEmptyString(Field(value.fields, "id")) else None
  }

  function StatusKey(status: Json): Option<string> {
    if IdOf(status).None? then None
    else
      var reported := ReadNonEmptyString(Field(status.fields, "status"));
      Some("status:" + IdOf(status).value + if reported.Some? then ":" + ToLower(reported.value) else "")
  }

  function WhatsAppKeyOf(value: Fields): Option<string> {
    var message := FirstSome(IdOf, Items(value, "messages"));
    if message.Some? then message else FirstSome(StatusKey, Items(value, "statuses"))
  }

  /** The deduplication key, or none, in which case the handler keys the event by a payload hash. */
  function WhatsAppKey(payload: Json): Option<string> {
    FirstSome(WhatsAppKeyOf, ChangeValues(payload))
  }

  function ToOutboundDeliveryStatus(status: Json): Option<DeliveryStatus> {
    var reported := ReadNonEmptyString(status);
    if reported.None? then None
    else
      match ToLower(reported.value)
      case "sent" => Some(SENT)
      case "delivered" => Some(DELIVERED)
      case "read" => Some(READ)
      case "failed" => Some(FAILED)
      case _ => None
  }

  function ErrorMessage(error: Json): Option<string> {
    if error.Object? then ReadNonEmptyString(Field(error.fields, "message")) else None
  }

  /** `parse` is the library's reading of a number as seconds; it may refuse. */
  function ParseStatusTimestamp(value: Json, parse: string -> Option<Time>): Option<Time> {
    var raw := ReadNonEmptyString(value);
    if raw.None? then None else parse(raw.value)
  }

  function StatusOf(status: Json, parse: string -> Option<Time>): Option<StatusUpdate> {
    if IdOf(status).None? then None
    else
      var reported := ToOutboundDeliveryStatus(Field(status.fields, "status"));
      if reported.None? then None
      else
        Some(StatusUpdate(
          IdOf(status).value,
          reported.value,
          if reported.value == FAILED then FirstSome(ErrorMessage, Items(status.fields, "errors")) else None,
          ParseStatusTimestamp(Field(status.fields, "timestamp"), parse)))
  }

  function WhatsAppStatuses(payload: Json, parse: string -> Option<Time>): seq<StatusUpdate> {
    FlatMap((v: Fields) => Somes((s: Json) => StatusOf(s, parse), Items(v, "statuses")), ChangeValues(payload))
  }

  // ----- Instagram -----

  function MessagingItem(item: Json): seq<Fields> {
    if item.Object? then [item.fields] else []
  }

  function EntryMessaging(entry: Json): seq<Fields> {
    if entry.Object? then FlatMap(MessagingItem, Items(entry.fields, "messaging")) else []
  }

  function MessagingEntries(payload: Json): seq<Fields> {
    if payload.Object? then FlatMap(EntryMessaging, Items(payload.fields, "entry")) else []
  }

  function InstagramKeyOf(item: Fields): Option<string> {
    var message := Field(item, "message");
    if message.Object? then ReadNonEmptyString(Field(message.fields, "mid")) else None
  }

  function InstagramTextOf(item: Fields): Option<TextMessage> {
    var message, sender := Field(item, "message"), Field(item, "sender");
    var text := if message.Object? then ReadNonEmptyString(Field(message.fields, "text")) else None;
    var from := if sender.Object? then ReadNonEmptyString(Field(sender.fields, "id")) else None;
    if text.None? || InstagramKeyOf(item).None? || from.None? then None
    else Some(TextMessage(InstagramKeyOf(item).value, from.value, text.value, "ig:" + from.value, from.value))
  }

  function InstagramText(payload: Json): Option<TextMessage> {
    FirstSome(InstagramTextOf, MessagingEntries(payload))
  }

  function InstagramKey(payload: Json): Option<string> {
    FirstSome(InstagramKeyOf, MessagingEntries(payload))
  }

  // ----- What the keys promise -----

  /** An event that has to be keyed by its payload hash carries nothing to process: no text message
      and no status report, for every payload. */
  lemma HashKeyedWhatsApp(payload: Json, parse: string -> Option<Time>)
    requires WhatsAppKey(payload).None?
    ensures WhatsAppText(payload).None? && WhatsAppStatuses(payload, parse) == []
  {
    var values := ChangeValues(payload);
    FirstSomeIsFirst(WhatsAppKeyOf, values);
    var texts := (v: Fields) => FirstSome(WhatsAppTextOf, Items(v, "messages"));
    var statuses := (v: Fields) => Somes((s: Json) => StatusOf(s, parse), Items(v, "statuses"));
    forall v | v in values ensures texts(v).None? && statuses(v) == [] {
      assert WhatsAppKeyOf(v).None?;
      FirstSomeIsFirst(IdOf, Items(v, "messages"));
      FirstSomeIsFirst(StatusKey, Items(v, "statuses"));
      forall m | m in Items(v, "messages") ensures WhatsAppTextOf(m).None? { assert IdOf(m).None?; }
      FirstSomeIsFirst(WhatsAppTextOf, Items(v, "messages"));
      forall s | s in Items(v, "statuses") ensures StatusOf(s, parse).None? { assert StatusKey(s).None?; }
      FlatMapEmpty((s: Json) => if StatusOf(s, parse).Some? then [StatusOf(s, parse).value] else [], Items(v, "statuses"));
      SomesEmpty((s: Json) => StatusOf(s, parse), Items(v, "statuses"));
    }
    FirstSomeIsFirst(texts, values);
    FlatMapEmpty(statuses, values);
    assert WhatsAppText(payload) == FirstSome(texts, values);
  }

  lemma {:induction false} SomesEmpty<A, B>(f: A -> Option<B>, xs: seq<A>)
    requires forall x :: x in xs ==> f(x).None?
    ensures Somes(f, xs) == []
  {
    FlatMapEmpty(x => if f(x).Some? then [f(x).value] else [], xs);
  }

  lemma HashKeyedInstagram(payload: Json)
    requires InstagramKey(payload).None?
    ensures InstagramText(payload).None?
  {
    var items := MessagingEntries(payload);
    FirstSomeIsFirst(InstagramKeyOf, items);
    FirstSomeIsFirst(InstagramTextOf, items);
    forall item | item in items ensures InstagramTextOf(item).None? { assert InstagramKeyOf(item).None?; }
  }

  lemma SomesAll<A, B>(f: A -> Option<B>, xs: seq<A>, p: B -> bool)
    requires forall x :: x in xs && f(x).Some? ==> p(f(x).value)
    ensures forall y :: y in Somes(f, xs) ==> p(y)
  {
    FlatMapAll(x => if f(x).Some? then [f(x).value] else [], xs, p);
  }

  /** Extracted status reports only ever say sent, delivered, read or failed. */
  lemma StatusesAreReported(payload: Json, parse: string -> Option<Time>)
    ensures forall u :: u in WhatsAppStatuses(payload, parse) ==> Reported(u.deliveryStatus)
  {
    var p := (u: StatusUpdate) => Reported(u.deliveryStatus);
    var statuses := (v: Fields) => Somes((s: Json) => StatusOf(s, parse), Items(v, "statuses"));
    forall v: Fields ensures forall u :: u in statuses(v) ==> p(u) {
      SomesAll((s: Json) => StatusOf(s, parse), Items(v, "statuses"), p);
    }
    FlatMapAll(statuses, ChangeValues(payload), p);
  }

  // ----- What is extracted -----

  /** The value is a string that reads `s` once trimmed, and not blank. */
  predicate Reads(value: Json, s: string) {
    value.String? && Trim(value.s) == s && s != ""
  }

  lemma {:induction false} FlatMapMembers<A, B>(f: A -> seq<B>, xs: seq<A>)
    ensures forall y :: y in FlatMap(f, xs) <==> exists x :: x in xs && y in f(x)
  {
    if xs != [] {
      FlatMapMembers(f, xs[1..]);
      assert forall x :: x in xs <==> x == xs[0] || x in xs[1..];
    }
  }

  ghost predicate IsChangeValue(payload: Json, v: Fields) {
    payload.Object? && exists entry, change ::
      && entry in Items(payload.fields, "entry") && entry.Object?
      && change in Items(entry.fields, "changes") && change.Object? && Field(change.fields, "value") == Object(v)
  }

  /** The values are exactly those of the changes of the entries. */
  lemma ChangeValuesExactly(payload: Json, v: Fields)
    ensures v in ChangeValues(payload) <==> IsChangeValue(payload, v)
  {
    if payload.Object? {
      FlatMapMembers(EntryValues, Items(payload.fields, "entry"));
      if v in ChangeValues(payload) {
        var entry :| entry in Items(payload.fields, "entry") && v in EntryValues(entry);
        FlatMapMembers(ChangeValue, Items(entry.fields, "changes"));
        var change :| change in Items(entry.fields, "changes") && v in ChangeValue(change);
        assert Field(change.fields, "value") == Object(v);
      }
      if IsChangeValue(payload, v) {
        var entry, change :| entry in Items(payload.fields, "entry") && entry.Object?
          && change in Items(entry.fields, "changes") && change.Object? && Field(change.fields, "value") == Object(v);
        FlatMapMembers(ChangeValue, Items(entry.fields, "changes"));
        assert v in ChangeValue(change);
        assert v in EntryValues(entry);
      }
    }
  }

  ghost predicate IsMessagingItem(payload: Json, v: Fields) {
    payload.Object? && exists entry ::
      entry in Items(payload.fields, "entry") && entry.Object? && Object(v) in Items(entry.fields, "messaging")
  }

  lemma MessagingEntriesExactly(payload: Json, v: Fields)
    ensures v in MessagingEntries(payload) <==> IsMessagingItem(payload, v)
  {
    if payload.Object? {
      FlatMapMembers(EntryMessaging, Items(payload.fields, "entry"));
      if v in MessagingEntries(payload) {
        var entry :| entry in Items(payload.fields, "entry") && v in EntryMessaging(entry);
        FlatMapMembers(MessagingItem, Items(entry.fields, "messaging"));
        var item :| item in Items(entry.fields, "messaging") && v in MessagingItem(item);
        assert item == Object(v);
      }
      if IsMessagingItem(payload, v) {
        var entry :| entry in Items(payload.fields, "entry") && entry.Object? && Object(v) in Items(entry.fields, "messaging");
        FlatMapMembers(MessagingItem, Items(entry.fields, "messaging"));
        assert v in MessagingItem(Object(v));
        assert v in EntryMessaging(entry);
      }
    }
  }

  /** The item is that text message: type, id, sender and body as they stand in it. */
  predicate IsTextItem(item: Json, t: TextMessage) {
    && item.Object? && Reads(Field(item.fields, "type"), "text")
    && Reads(Field(item.fields, "id"), t.providerMessageId)
    && Reads(Field(item.fields, "from"), t.from)
    && Field(item.fields, "text").Object? && Reads(Field(Field(item.fields, "text").fields, "body"), t.text)
    && t.externalThreadId == "wa:" + t.from && t.customerDisplay == t.from
  }

  lemma TextItemExactly(item: Json, t: TextMessage)
    ensures WhatsAppTextOf(item) == Some(t) <==> IsTextItem(item, t)
  {
  }

  /** A text message that is found stands in some item of some change's messages, and none is found only
      if there is none. */
  lemma WhatsAppTextExactly(payload: Json)
    ensures WhatsAppText(payload).Some? ==>
              exists v, item :: IsChangeValue(payload, v) && item in Items(v, "messages") && IsTextItem(item, WhatsAppText(payload).value)
    ensures WhatsAppText(payload).None? ==>
              forall v, item, t :: IsChangeValue(payload, v) && item in Items(v, "messages") ==> !IsTextItem(item, t)
  {
    var values := ChangeValues(payload);
    var texts := (v: Fields) => FirstSome(WhatsAppTextOf, Items(v, "messages"));
    FirstSomeIsFirst(texts, values);
    assert WhatsAppText(payload) == FirstSome(texts, values);
    if WhatsAppText(payload).Some? {
      var i :| 0 <= i < |values| && FirstSome(texts, values) == texts(values[i]);
      ChangeValuesExactly(payload, values[i]);
      FirstSomeIsFirst(WhatsAppTextOf, Items(values[i], "messages"));
      var j :| 0 <= j < |Items(values[i], "messages")| && texts(values[i]) == WhatsAppTextOf(Items(values[i], "messages")[j]);
      TextItemExactly(Items(values[i], "messages")[j], WhatsAppText(payload).value);
    } else {
      forall v, item, t | IsChangeValue(payload, v) && item in Items(v, "messages") ensures !IsTextItem(item, t) {
        ChangeValuesExactly(payload, v);
        assert texts(v).None?;
        FirstSomeIsFirst(WhatsAppTextOf, Items(v, "messages"));
        TextItemExactly(item, t);
      }
    }
  }

  predicate IsInstagramText(item: Fields, t: TextMessage) {
    var message, sender := Field(item, "message"), Field(item, "sender");
    && message.Object? && Reads(Field(message.fields, "mid"), t.providerMessageId) && Reads(Field(message.fields, "text"), t.text)
    && sender.Object? && Reads(Field(sender.fields, "id"), t.from)
    && t.externalThreadId == "ig:" + t.from && t.customerDisplay == t.from
  }

  lemma InstagramItemExactly(item: Fields, t: TextMessage)
    ensures InstagramTextOf(item) == Some(t) <==> IsInstagramText(item, t)
  {
  }

  lemma InstagramTextExactly(payload: Json)
    ensures InstagramText(payload).Some? ==> exists item :: IsMessagingItem(payload, item) && IsInstagramText(item, InstagramText(payload).value)
    ensures InstagramText(payload).None? ==> forall item, t :: IsMessagingItem(payload, item) ==> !IsInstagramText(item, t)
  {
    var items := MessagingEntries(payload);
    FirstSomeIsFirst(InstagramTextOf, items);
    if InstagramText(payload).Some? {
      var i :| 0 <= i < |items| && InstagramText(payload) == InstagramTextOf(items[i]);
      MessagingEntriesExactly(payload, items[i]);
      InstagramItemExactly(items[i], InstagramText(payload).value);
    } else {
      forall item, t | IsMessagingItem(payload, item) ensures !IsInstagramText(item, t) {
        MessagingEntriesExactly(payload, item);
        InstagramItemExactly(item, t);
      }
    }
  }

  function StatusName(s: DeliveryStatus): string {
    match s
    case QUEUED => "queued"
    case SENDING => "sending"
    case SENT => "sent"
    case DELIVERED => "delivered"
    case READ => "read"
    case FAILED => "failed"
  }

  /** The item is that report: its message, the name of its status in any case, a reason only for a
      failure, and its own time if it has a readable one. */
  ghost predicate IsReport(item: Json, u: StatusUpdate, parse: string -> Option<Time>) {
    && item.Object? && Reads(Field(item.fields, "id"), u.providerMessageId) && Reported(u.deliveryStatus)
    && (exists raw :: Reads(Field(item.fields, "status"), raw) && ToLower(raw) == StatusName(u.deliveryStatus))
    && (u.failedReason.Some? ==>
          u.deliveryStatus == FAILED
          && exists error :: error in Items(item.fields, "errors") && error.Object? && Reads(Field(error.fields, "message"), u.failedReason.value))
    && (u.failedReason.None? && u.deliveryStatus == FAILED ==>
          forall error, reason :: error in Items(item.fields, "errors") && error.Object? ==> !Reads(Field(error.fields, "message"), reason))
    && (forall raw :: Reads(Field(item.fields, "timestamp"), raw) ==> u.occurredAt == parse(raw))
    && (u.occurredAt.Some? ==> exists raw :: Reads(Field(item.fields, "timestamp"), raw))
  }

  lemma ReportIsRead(item: Json, parse: string -> Option<Time>)
    requires StatusOf(item, parse).Some?
    ensures IsReport(item, StatusOf(item, parse).value, parse)
  {
    var u := StatusOf(item, parse).value;
    FirstSomeIsFirst(ErrorMessage, Items(item.fields, "errors"));
    assert Reads(Field(item.fields, "status"), Trim(Field(item.fields, "status").s));
    if u.deliveryStatus == FAILED && u.failedReason.None? {
      forall error, reason | error in Items(item.fields, "errors") && error.Object? ensures !Reads(Field(error.fields, "message"), reason) {
        assert ErrorMessage(error).None?;
      }
    }
    if u.occurredAt.Some? { assert Reads(Field(item.fields, "timestamp"), Trim(Field(item.fields, "timestamp").s)); }
  }

  /** Every report stands in some item of some change's statuses. */
  lemma ReportsAreRead(payload: Json, parse: string -> Option<Time>, u: StatusUpdate)
    requires u in WhatsAppStatuses(payload, parse)
    ensures exists v, item :: IsChangeValue(payload, v) && item in Items(v, "statuses") && IsReport(item, u, parse)
  {
    var of := (s: Json) => StatusOf(s, parse);
    var one := (s: Json) => if of(s).Some? then [of(s).value] else [];
    var statuses := (v: Fields) => Somes((s: Json) => StatusOf(s, parse), Items(v, "statuses"));
    FlatMapMembers(statuses, ChangeValues(payload));
    var v :| v in ChangeValues(payload) && u in statuses(v);
    ChangeValuesExactly(payload, v);
    SomesIs((s: Json) => StatusOf(s, parse), one, Items(v, "statuses"));
    FlatMapMembers(one, Items(v, "statuses"));
    var item :| item in Items(v, "statuses") && u in one(item);
    ReportIsRead(item, parse);
  }

  /** Reports of different statuses of one message have different keys, and the same status, in whatever
      case, has the same. */
  lemma StatusKeysDiffer(a: Json, b: Json, id: string, rawA: string, rawB: string)
    requires IdOf(a) == Some(id) && IdOf(b) == Some(id)
    requires Reads(Field(a.fields, "status"), rawA) && Reads(Field(b.fields, "status"), rawB)
    ensures StatusKey(a) == StatusKey(b) <==> ToLower(rawA) == ToLower(rawB)
  {
    var prefix := "status:" + id;
    assert StatusKey(a).value[|prefix|..] == ":" + ToLower(rawA);
    assert StatusKey(b).value[|prefix|..] == ":" + ToLower(rawB);
    assert (":" + ToLower(rawA))[1..] == ToLower(rawA) && (":" + ToLower(rawB))[1..] == ToLower(rawB);
  }

  // ----- Payloads with one item -----

  function Under(key: string, value: Json): Json {
    Object(map[key := value])
  }

  /** One change of one entry. */
  function ChangePayload(value: Fields): Json {
    Under("entry", Array([Under("changes", Array([Under("value", Object(value))]))]))
  }

  function StatusItem(id: string, status: string): Json {
    Object(map["id" := String(id), "status" := String(status), "timestamp" := String("1")])
  }

  function StatusPayload(id: string, status: string): Json {
    ChangePayload(map["statuses" := Array([StatusItem(id, status)])])
  }

  function TextItem(id: string, from: string, body: string): Json {
    Object(map["id" := String(id), "from" := String(from), "type" := String("text"), "text" := Under("body", String(body))])
  }

  function TextPayload(id: string, from: string, body: string): Json {
    ChangePayload(map["messages" := Array([TextItem(id, from, body)])])
  }

  function InstagramItem(mid: string, sender: string, text: string): Fields {
    map["sender" := Under("id", String(sender)), "message" := Object(map["mid" := String(mid), "text" := String(text)])]
  }

  function InstagramPayload(mid: string, sender: string, text: string): Json {
    Under("entry", Array([Under("messaging", Array([Object(InstagramItem(mid, sender, text))]))]))
  }

  lemma FlatMapOne<A, B>(f: A -> seq<B>, x: A)
    ensures FlatMap(f, [x]) == f(x)
  {
    assert [x][1..] == [];
    assert FlatMap(f, [x][1..]) == [];
  }

  lemma ChangePayloadValues(value: Fields)
    ensures ChangeValues(ChangePayload(value)) == [value]
  {
    var change := Under("value", Object(value));
    var entry := Under("changes", Array([change]));
    FlatMapOne(ChangeValue, change);
    FlatMapOne(EntryValues, entry);
    assert Items(entry.fields, "changes") == [change];
    assert Items(ChangePayload(value).fields, "entry") == [entry];
  }

  predicate Trimmed(s: string) {
    Trim(s) == s != ""
  }

  lemma FirstSomeOne<A, B>(f: A -> Option<B>, x: A)
    ensures FirstSome(f, [x]) == f(x)
  {
    assert [x][1..] == [];
    assert FirstSome(f, [x][1..]).None?;
  }

  /** A text message comes out as it went in, keyed by its id and without reports. */
  lemma TextPayloadReads(id: string, from: string, body: string, parse: string -> Option<Time>)
    requires Trimmed(id) && Trimmed(from) && Trimmed(body)
    ensures WhatsAppText(TextPayload(id, from, body)) == Some(TextMessage(id, from, body, "wa:" + from, from))
    ensures WhatsAppKey(TextPayload(id, from, body)) == Some(id) && WhatsAppStatuses(TextPayload(id, from, body), parse) == []
  {
    var item := TextItem(id, from, body);
    var value: Fields := map["messages" := Array([item])];
    ChangePayloadValues(value);
    Untrimmed("text");
    assert item.fields["id"] == String(id) && item.fields["from"] == String(from) && item.fields["type"] == String("text");
    assert WhatsAppTextOf(item) == Some(TextMessage(id, from, body, "wa:" + from, from));
    assert Items(value, "messages") == [item] && Items(value, "statuses") == [];
    FirstSomeOne(WhatsAppTextOf, item);
    FirstSomeOne(v => FirstSome(WhatsAppTextOf, Items(v, "messages")), value);
    FirstSomeOne(IdOf, item);
    FirstSomeOne(WhatsAppKeyOf, value);
    FlatMapOne((v: Fields) => Somes((x: Json) => StatusOf(x, parse), Items(v, "statuses")), value);
  }

  lemma InstagramPayloadReads(mid: string, sender: string, text: string)
    requires Trimmed(mid) && Trimmed(sender) && Trimmed(text)
    ensures InstagramText(InstagramPayload(mid, sender, text)) == Some(TextMessage(mid, sender, text, "ig:" + sender, sender))
    ensures InstagramKey(InstagramPayload(mid, sender, text)) == Some(mid)
  {
    var item := InstagramItem(mid, sender, text);
    var entry := Under("messaging", Array([Object(item)]));
    FlatMapOne(MessagingItem, Object(item));
    FlatMapOne(EntryMessaging, entry);
    assert Items(entry.fields, "messaging") == [Object(item)];
    assert Items(InstagramPayload(mid, sender, text).fields, "entry") == [entry];
    assert InstagramTextOf(item) == Some(TextMessage(mid, sender, text, "ig:" + sender, sender));
    FirstSomeOne(InstagramTextOf, item);
    FirstSomeOne(InstagramKeyOf, item);
  }

  /** It is read as that one report, with its time, and as no text message. */
  lemma StatusPayloadReports(id: string, status: string, s: DeliveryStatus, parse: string -> Option<Time>)
    requires Trim(id) == id != "" && Trim("1") == "1" && ToOutboundDeliveryStatus(String(status)) == Some(s)
    ensures WhatsAppStatuses(StatusPayload(id, status), parse) == [StatusUpdate(id, s, None, parse("1"))]
    ensures WhatsAppText(StatusPayload(id, status)).None?
  {
    var item := StatusItem(id, status);
    var value: Fields := map["statuses" := Array([item])];
    ChangePayloadValues(value);
    assert item.fields["id"] == String(id) && item.fields["status"] == String(status) && item.fields["timestamp"] == String("1");
    assert "errors" !in item.fields;
    assert StatusOf(item, parse) == Some(StatusUpdate(id, s, None, parse("1")));
    var one := (x: Json) => if StatusOf(x, parse).Some? then [StatusOf(x, parse).value] else [];
    FlatMapOne(one, item);
    assert Items(value, "statuses") == [item] && Items(value, "messages") == [];
    SomesIs((x: Json) => StatusOf(x, parse), one, [item]);
    FlatMapOne((v: Fields) => Somes((x: Json) => StatusOf(x, parse), Items(v, "statuses")), value);
    assert FirstSome(WhatsAppTextOf, Items(value, "messages")).None?;
    FirstSomeIsFirst(v => FirstSome(WhatsAppTextOf, Items(v, "messages")), [value]);
  }

  lemma {:induction false} SomesIs<A, B>(f: A -> Option<B>, g: A -> seq<B>, xs: seq<A>)
    requires forall x :: x in xs ==> g(x) == if f(x).Some? then [f(x).value] else []
    ensures Somes(f, xs) == FlatMap(g, xs)
  {
    FlatMapSame(x => if f(x).Some? then [f(x).value] else [], g, xs);
  }

  lemma {:induction false} FlatMapSame<A, B>(f: A -> seq<B>, g: A -> seq<B>, xs: seq<A>)
    requires forall x :: x in xs ==> f(x) == g(x)
    ensures FlatMap(f, xs) == FlatMap(g, xs)
  {
    if xs != [] { FlatMapSame(f, g, xs[1..]); }
  }

  lemma SentAndFailedAreRead()
    ensures Trim("m") == "m" && Trim("1") == "1"
    ensures ToOutboundDeliveryStatus(String("sent")) == Some(SENT)
    ensures ToOutboundDeliveryStatus(String("failed")) == Some(FAILED)
  {
    Untrimmed("m");
    Untrimmed("1");
    Untrimmed("sent");
    Untrimmed("failed");
    assert ToLower("sent") == "sent";
    assert ToLower("failed") == "failed";
  }
}

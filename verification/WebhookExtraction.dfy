/** The extractors as they run: nested loops over the payload, with early returns. */
module WebhookExtraction {
  import opened Wrappers
  import opened Messages
  import opened Text
  import opened WebhookPayloads

  lemma {:induction false} FlatMapAppend<A, B>(f: A -> seq<B>, xs: seq<A>, x: A)
    ensures FlatMap(f, xs + [x]) == FlatMap(f, xs) + f(x)
  {
    if xs == [] {
      assert (xs + [x])[1..] == [];
    } else {
      assert (xs + [x])[1..] == xs[1..] + [x];
      FlatMapAppend(f, xs[1..], x);
    }
  }

  lemma FlatMapStep<A, B>(f: A -> seq<B>, xs: seq<A>, i: nat)
    requires i < |xs|
    ensures FlatMap(f, xs[..i + 1]) == FlatMap(f, xs[..i]) + f(xs[i])
  {
    assert xs[..i + 1] == xs[..i] + [xs[i]];
    FlatMapAppend(f, xs[..i], xs[i]);
  }

  method GetChangeValues(payload: Json) returns (values: seq<Fields>)
    ensures values == ChangeValues(payload)
  {
    values := [];
    if !payload.Object? { return; }
    var entries := Items(payload.fields, "entry");
    for i := 0 to |entries|
      invariant values == FlatMap(EntryValues, entries[..i])
    {
      FlatMapStep(EntryValues, entries, i);
      if !entries[i].Object? { continue; }
      var changes := Items(entries[i].fields, "changes");
      ghost var before := values;
      for j := 0 to |changes|
        invariant values == before + FlatMap(ChangeValue, changes[..j])
      {
        FlatMapStep(ChangeValue, changes, j);
        if !changes[j].Object? { continue; }
        if Field(changes[j].fields, "value").Object? {
          values := values + [Field(changes[j].fields, "value").fields];
        }
      }
      assert changes[..|changes|] == changes;
    }
    assert entries[..|entries|] == entries;
  }

  method ExtractWhatsAppTextMessage(payload: Json) returns (found: Option<TextMessage>)
    ensures found == WhatsAppText(payload)
  {
    var values := GetChangeValues(payload);
    for i := 0 to |values|
      invariant WhatsAppText(payload) == FirstSome((v: Fields) => FirstSome(WhatsAppTextOf, Items(v, "messages")), values[i..])
    {
      var messages := Items(values[i], "messages");
      for j := 0 to |messages|
        invariant FirstSome(WhatsAppTextOf, messages) == FirstSome(WhatsAppTextOf, messages[j..])
      {
        var message := messages[j];
        if !message.Object? { continue; }
        if ReadNonEmptyString(Field(message.fields, "type")) != Some("text") { continue; }
        var id := ReadNonEmptyString(Field(message.fields, "id"));
        var from := ReadNonEmptyString(Field(message.fields, "from"));
        var text := Field(message.fields, "text");
        var body: Option<string> := None;
        if text.Object? { body := ReadNonEmptyString(Field(text.fields, "body")); }
        if id.None? || from.None? || body.None? { continue; }
        return Some(TextMessage(id.value, from.value, body.value, "wa:" + from.value, from.value));
      }
    }
    return None;
  }

  method ProviderMessageIdOf(messages: seq<Json>) returns (found: Option<string>)
    ensures found == FirstSome(IdOf, messages)
  {
    for j := 0 to |messages|
      invariant FirstSome(IdOf, messages) == FirstSome(IdOf, messages[j..])
    {
      if !messages[j].Object? { continue; }
      var id := ReadNonEmptyString(Field(messages[j].fields, "id"));
      if id.Some? { return id; }
    }
    return None;
  }

  method StatusKeyOf(statuses: seq<Json>) returns (found: Option<string>)
    ensures found == FirstSome(StatusKey, statuses)
  {
    for j := 0 to |statuses|
      invariant FirstSome(StatusKey, statuses) == FirstSome(StatusKey, statuses[j..])
    {
      if !statuses[j].Object? { continue; }
      var id := ReadNonEmptyString(Field(statuses[j].fields, "id"));
      if id.None? { continue; }
      var reported := ReadNonEmptyString(Field(statuses[j].fields, "status"));
      if reported.None? { return Some("status:" + id.value + ""); }
      return Some("status:" + id.value + (":" + ToLower(reported.value)));
    }
    return None;
  }

  method ExtractWhatsAppProviderMessageId(payload: Json) returns (found: Option<string>)
    ensures found == WhatsAppKey(payload)
  {
    var values := GetChangeValues(payload);
    for i := 0 to |values|
      invariant WhatsAppKey(payload) == FirstSome(WhatsAppKeyOf, values[i..])
    {
      found := ProviderMessageIdOf(Items(values[i], "messages"));
      if found.Some? { return; }
      found := StatusKeyOf(Items(values[i], "statuses"));
      if found.Some? { return; }
    }
    return None;
  }

  method ExtractWhatsAppStatusUpdates(payload: Json, parse: string -> Option<Time>) returns (updates: seq<StatusUpdate>)
    ensures updates == WhatsAppStatuses(payload, parse)
  {
    var values := GetChangeValues(payload);
    updates := [];
    ghost var reports := (v: Fields) => Somes((s: Json) => StatusOf(s, parse), Items(v, "statuses"));
    for i := 0 to |values|
      invariant updates == FlatMap(reports, values[..i])
    {
      FlatMapStep(reports, values, i);
      var found := StatusUpdatesOf(Items(values[i], "statuses"), parse);
      updates := updates + found;
    }
    assert values[..|values|] == values;
  }

  /** The inner loop of `extractWhatsAppStatusUpdates`. */
  method StatusUpdatesOf(statuses: seq<Json>, parse: string -> Option<Time>) returns (updates: seq<StatusUpdate>)
    ensures updates == Somes((s: Json) => StatusOf(s, parse), statuses)
  {
    updates := [];
    ghost var one := (s: Json) => if StatusOf(s, parse).Some? then [StatusOf(s, parse).value] else [];
    SomesIsFlatMap(statuses, parse);
    for j := 0 to |statuses|
      invariant updates == FlatMap(one, statuses[..j])
    {
      FlatMapStep(one, statuses, j);
      if !statuses[j].Object? { continue; }
      var id := ReadNonEmptyString(Field(statuses[j].fields, "id"));
      var status := ToOutboundDeliveryStatus(Field(statuses[j].fields, "status"));
      if id.None? || status.None? { continue; }
      var reason: Option<string> := None;
      if status.value == FAILED { reason := ExtractFailedReason(statuses[j].fields); }
      updates := updates + [StatusUpdate(id.value, status.value, reason, ParseStatusTimestamp(Field(statuses[j].fields, "timestamp"), parse))];
    }
    assert statuses[..|statuses|] == statuses;
  }

  lemma {:induction false} SomesIsFlatMap(statuses: seq<Json>, parse: string -> Option<Time>)
    ensures Somes((s: Json) => StatusOf(s, parse), statuses)
         == FlatMap((s: Json) => if StatusOf(s, parse).Some? then [StatusOf(s, parse).value] else [], statuses)
  {
    if statuses != [] { SomesIsFlatMap(statuses[1..], parse); }
  }

  method ExtractFailedReason(status: Fields) returns (reason: Option<string>)
    ensures reason == FirstSome(ErrorMessage, Items(status, "errors"))
  {
    var errors := Items(status, "errors");
    for i := 0 to |errors|
      invariant FirstSome(ErrorMessage, errors) == FirstSome(ErrorMessage, errors[i..])
    {
      if !errors[i].Object? { continue; }
      var message := ReadNonEmptyString(Field(errors[i].fields, "message"));
      if message.Some? { return message; }
    }
    return None;
  }

  method GetMessagingEntries(payload: Json) returns (found: seq<Fields>)
    ensures found == MessagingEntries(payload)
  {
    found := [];
    if !payload.Object? { return; }
    var entries := Items(payload.fields, "entry");
    for i := 0 to |entries|
      invariant found == FlatMap(EntryMessaging, entries[..i])
    {
      FlatMapStep(EntryMessaging, entries, i);
      if !entries[i].Object? { continue; }
      var messaging := Items(entries[i].fields, "messaging");
      ghost var before := found;
      for j := 0 to |messaging|
        invariant found == before + FlatMap(MessagingItem, messaging[..j])
      {
        FlatMapStep(MessagingItem, messaging, j);
        if messaging[j].Object? { found := found + [messaging[j].fields]; }
      }
      assert messaging[..|messaging|] == messaging;
    }
    assert entries[..|entries|] == entries;
  }

  method ExtractInstagramTextMessage(payload: Json) returns (found: Option<TextMessage>)
    ensures found == InstagramText(payload)
  {
    var items := GetMessagingEntries(payload);
    for i := 0 to |items|
      invariant InstagramText(payload) == FirstSome(InstagramTextOf, items[i..])
    {
      var message := Field(items[i], "message");
      if !message.Object? { continue; }
      var text := ReadNonEmptyString(Field(message.fields, "text"));
      if text.None? { continue; }
      var mid := ReadNonEmptyString(Field(message.fields, "mid"));
      if mid.None? { continue; }
      var sender := Field(items[i], "sender");
      var from: Option<string> := None;
      if sender.Object? { from := ReadNonEmptyString(Field(sender.fields, "id")); }
      if from.None? { continue; }
      return Some(TextMessage(mid.value, from.value, text.value, "ig:" + from.value, from.value));
    }
    return None;
  }

  method ExtractInstagramProviderMessageId(payload: Json) returns (found: Option<string>)
    ensures found == InstagramKey(payload)
  {
    var items := GetMessagingEntries(payload);
    for i := 0 to |items|
      invariant InstagramKey(payload) == FirstSome(InstagramKeyOf, items[i..])
    {
      var message := Field(items[i], "message");
      if message.Object? {
        var mid := ReadNonEmptyString(Field(message.fields, "mid"));
        if mid.Some? { return mid; }
      }
    }
    return None;
  }
}

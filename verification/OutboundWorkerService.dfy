/** The outbound worker over the message table. */
module OutboundWorkerModule {
  import opened Wrappers
  import opened Messages
  import opened MessageTable
  import opened OutboundDelivery
  import opened Text

  datatype ChannelType = WHATSAPP | INSTAGRAM

  /** What `findUnique` loads beside the message. */
  datatype Route = Route(channelType: ChannelType, externalId: Option<string>, contactPhone: Option<string>)

  /** What the environment answers: a provider message id or an error, and the error of a final
      update that violates the unique index. */
  datatype Answer = Answer(providerMessageId: Option<string>, providerError: string, updateError: string)

  const MISSING_EXTERNAL_ID := "Channel external id is missing"
  const MISSING_PHONE := "Conversation contact phone is missing"
  const MISSING_RECIPIENT := "Conversation contact (Instagram recipient) is missing"

  function RouteError(r: Route): Option<string> {
    if Trim(r.externalId.GetOr("")) == "" then Some(MISSING_EXTERNAL_ID)
    else if Trim(r.contactPhone.GetOr("")) != "" then None
    else Some(if r.channelType == WHATSAPP then MISSING_PHONE else MISSING_RECIPIENT)
  }

  /** `error.message.slice(0, 500)`. */
  function Clip(s: string): (r: string)
    ensures r <= s && |r| <= 500 && (|s| <= 500 ==> r == s) && (|s| > 500 ==> |r| == 500)
  {
    if |s| <= 500 then s else s[..500]
  }

  /** The unique index would refuse this provider id for row `id`. */
  predicate Taken(messages: map<nat, Message>, id: nat, providerMessageId: string) {
    exists other :: other in messages && other != id && messages[other].providerMessageId == Some(providerMessageId)
  }

  /** The error that one undisturbed invocation ends with, if any. */
  function SendError(messages: map<nat, Message>, id: nat, route: Route, answer: Answer): Option<string> {
    if RouteError(route).Some? then RouteError(route)
    else if answer.providerMessageId.None? then Some(answer.providerError)
    else if Taken(messages, id, answer.providerMessageId.value) then Some(answer.updateError)
    else None
  }

  /** Which of the errors it is; a provider is called exactly with a channel id and a contact. */
  lemma SendErrorExactly(messages: map<nat, Message>, id: nat, route: Route, answer: Answer)
    ensures var noChannel := Trim(route.externalId.GetOr("")) == "";
            var noContact := Trim(route.contactPhone.GetOr("")) == "";
            var error := SendError(messages, id, route, answer);
            && (RouteError(route).None? <==> !noChannel && !noContact)
            && (error.None? <==> !noChannel && !noContact && answer.providerMessageId.Some?
                                 && forall other :: other in messages && other != id ==> messages[other].providerMessageId != answer.providerMessageId)
            && (noChannel ==> error == Some("Channel external id is missing"))
            && (!noChannel && noContact && route.channelType == WHATSAPP ==> error == Some("Conversation contact phone is missing"))
            && (!noChannel && noContact && route.channelType == INSTAGRAM ==> error == Some("Conversation contact (Instagram recipient) is missing"))
            && (!noChannel && !noContact && answer.providerMessageId.None? ==> error == Some(answer.providerError))
  {
  }

  lemma OwnRowIsNotTaken(messages: map<nat, Message>, id: nat, row: Message, providerMessageId: string)
    ensures Taken(messages[id := row], id, providerMessageId) <==> Taken(messages, id, providerMessageId)
  {
    var changed := messages[id := row];
    forall other | other in messages && other != id ensures other in changed && changed[other] == messages[other] {}
    forall other | other in changed && other != id ensures other in messages && changed[other] == messages[other] {}
    if Taken(messages, id, providerMessageId) {
      var other :| other in messages && other != id && messages[other].providerMessageId == Some(providerMessageId);
      assert changed[other].providerMessageId == Some(providerMessageId);
    }
  }

  class OutboundWorkerService {
    var messages: map<nat, Message>

    constructor (messages: map<nat, Message>)
      ensures this.messages == messages
    {
      this.messages := messages;
    }

    /** The compare-and-set claim. */
    method Claim(id: nat, now: Time) returns (count: nat)
      modifies this
      ensures count == if id in old(messages) && Claimable(old(messages)[id]) then 1 else 0
      ensures messages == if count == 1 then old(messages)[id := ClaimedRow(old(messages)[id], now)] else old(messages)
      ensures count == 1 ==>
                messages[id] == old(messages)[id].(deliveryStatus := Some(SENDING), deliveryStatusUpdatedAt := Some(now), providerError := None, failedAt := None)
    {
      if id !in messages || messages[id].direction != OUTBOUND
         || !(messages[id].deliveryStatus == Some(QUEUED) || messages[id].deliveryStatus == Some(FAILED)) {
        return 0;
      }
      var row := messages[id];
      row := row.(deliveryStatus := Some(SENDING), deliveryStatusUpdatedAt := Some(now));
      row := row.(providerError := None, failedAt := None);
      messages := messages[id := row];
      return 1;
    }

    /** One invocation without interference: either nothing is claimed and nothing happens, or the
        row ends SENT with the provider's id, or FAILED with the error that is thrown. */
    method ProcessOutboundMessage(id: nat, route: Route, answer: Answer, claimedAt: Time, doneAt: Time)
      returns (thrown: Option<string>, called: bool)
      modifies this
      ensures id !in old(messages) || !Claimable(old(messages)[id]) ==> messages == old(messages) && thrown == None && !called
      ensures id in old(messages) && Claimable(old(messages)[id]) ==>
                var claimed := ClaimedRow(old(messages)[id], claimedAt);
                && thrown == SendError(old(messages), id, route, answer)
                && called == RouteError(route).None?
                && messages == old(messages)[id := if thrown.Some? then FailedRow(claimed, Clip(thrown.value), doneAt)
                                                   else SentRow(claimed, answer.providerMessageId.value, doneAt)]
      ensures id in old(messages) && Claimable(old(messages)[id]) && thrown.None? ==>
                && answer.providerMessageId.Some?
                && messages[id] == old(messages)[id].(providerMessageId := answer.providerMessageId, deliveryStatus := Some(SENT),
                     deliveryStatusUpdatedAt := Some(doneAt), sentAt := Some(doneAt), providerError := None, failedAt := None)
      ensures thrown.Some? ==>
                && id in messages
                && messages[id] == old(messages)[id].(deliveryStatus := Some(FAILED), deliveryStatusUpdatedAt := Some(doneAt),
                     providerError := Some(Clip(thrown.value)), failedAt := Some(doneAt))
    {
      var count := Claim(id, claimedAt);
      if count == 0 { return None, false; }
      OwnRowIsNotTaken(old(messages), id, messages[id], answer.providerMessageId.GetOr(""));
      thrown, called := SendViaProvider(id, route, answer, doneAt);
      if thrown.Some? { MarkMessageAsFailed(id, Clip(thrown.value), doneAt); }
    }

    method SendViaProvider(id: nat, route: Route, answer: Answer, now: Time) returns (thrown: Option<string>, called: bool)
      requires id in messages
      modifies this
      ensures thrown == SendError(old(messages), id, route, answer) && called == RouteError(route).None?
      ensures messages == if thrown.Some? then old(messages)
                          else old(messages)[id := SentRow(old(messages)[id], answer.providerMessageId.value, now)]
      ensures thrown.None? ==>
                && messages[id].deliveryStatus == Some(SENT) && messages[id].sentAt == Some(now)
                && messages[id].providerMessageId == answer.providerMessageId && answer.providerMessageId.Some?
    {
      called := false;
      var externalId := Trim(route.externalId.GetOr(""));
      if externalId == "" { return Some(MISSING_EXTERNAL_ID), false; }
      var to := Trim(route.contactPhone.GetOr(""));
      if to == "" {
        return Some(if route.channelType == WHATSAPP then MISSING_PHONE else MISSING_RECIPIENT), false;
      }
      called := true;
      if answer.providerMessageId.None? { return Some(answer.providerError), true; }
      if Taken(messages, id, answer.providerMessageId.value) { return Some(answer.updateError), true; }
      var row := messages[id];
      row := row.(providerMessageId := answer.providerMessageId, deliveryStatus := Some(SENT), deliveryStatusUpdatedAt := Some(now));
      row := row.(sentAt := Some(now), providerError := None, failedAt := None);
      messages := messages[id := row];
      return None, true;
    }

    method MarkMessageAsFailed(id: nat, error: string, now: Time)
      modifies this
      ensures messages == if id in old(messages) && old(messages)[id].direction == OUTBOUND
                          then old(messages)[id := FailedRow(old(messages)[id], error, now)] else old(messages)
      ensures id in old(messages) && old(messages)[id].direction == OUTBOUND ==>
                && messages[id].deliveryStatus == Some(FAILED)
                && messages[id].failedAt == Some(now) && messages[id].providerError == Some(error)
    {
      if id !in messages || messages[id].direction != OUTBOUND { return; }
      var row := messages[id];
      row := row.(deliveryStatus := Some(FAILED), deliveryStatusUpdatedAt := Some(now));
      row := row.(providerError := Some(error), failedAt := Some(now));
      messages := messages[id := row];
    }
  }

  /** Whatever an invocation does to a table, every row keeps its invariant and provider ids stay unique. */
  lemma InvocationKeepsTable(before: map<nat, Message>, after: map<nat, Message>, id: nat, route: Route, answer: Answer, claimedAt: Time, doneAt: Time)
    requires id in before && Claimable(before[id])
    requires forall i :: i in before ==> Record(before[i])
    requires forall i, j :: i in before && j in before && i != j && before[i].providerMessageId.Some? ==> before[i].providerMessageId != before[j].providerMessageId
    requires var claimed := ClaimedRow(before[id], claimedAt);
             var thrown := SendError(before, id, route, answer);
             after == before[id := if thrown.Some? then FailedRow(claimed, Clip(thrown.value), doneAt)
                                   else SentRow(claimed, answer.providerMessageId.value, doneAt)]
    ensures forall i :: i in after ==> Record(after[i]) && WriteOnce(before[i], after[i])
    ensures forall i, j :: i in after && j in after && i != j && after[i].providerMessageId.Some? ==> after[i].providerMessageId != after[j].providerMessageId
  {
    forall i, j | i in after && j in after && i != j && after[i].providerMessageId.Some?
      ensures after[i].providerMessageId != after[j].providerMessageId
    {
      if i == id || j == id {
        var other := if i == id then j else i;
        assert before[other] == after[other];
      }
    }
  }
}

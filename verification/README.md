# Verified model of the unified inbox API

A Dafny model of the server side of a unified inbox: organizations talk to their contacts over
WhatsApp and Instagram, and agents follow along in real time. Its protocols are hidden behind a
database and Redis. Here they are state machines whose steps are the database transactions, promise
callbacks, timers and queue jobs of the services, in every order in which they can happen, and the
services themselves are classes whose methods are proved against those steps.

- **Realtime subscriptions** (`EventsProtocol`, `EventsBackoff`, `EventsAgreement`, `EventsFanout`, and the classes in
  `EventsService` and `RedisPubSubEventsTransport`). Two layers of mutable state race with promises
  and timers. Nobody is ever stuck; the layers and Redis agree exactly until a superseded rejection
  deletes a newer handler; completions of a superseded generation can be erased; an emission reaches
  each process at most once.
- **Delivery of outbound messages** (`Messages`, `MessageTable`, `OutboundDelivery`,
  `OutboundWorkerService`). Three writers on one row: closed form and idempotence of the status fold,
  the invariant of a row, and when the compare-and-set claim excludes a second invocation.
- **Inbound pipeline** (`WebhookPayloads`, `WebhookExtraction`, `Inbox`, `InboxRuns`,
  `InboxContents`, `InboxDuplicates`, `InboxGuarantees`, `WebhooksWorkerService`). Extraction from arbitrary JSON,
  deduplication, exactly when a late duplicate changes something, the last-message cache, at most one
  announcement, and unread messages that a reader never loses.
- **Organization ledger** (`Ledger`, `LedgerEffects`, `OwnerSafety`, and the classes in `TeamService` and
  `ConversationsService`). Replaying the audit log rebuilds the state; an organization keeps an owner
  under row-by-row locking.
- **Audit log pages and sessions** (`AuditPagination`, `Sessions`, `AuthService`). Following cursors
  refines the sorted list; a session is accepted exactly until the next password set.

`Runs` holds the induction over runs that every whole-run theorem uses: a run is a sequence of steps
with the states they lead to, and what each step keeps holds at its end. `dafny verify dfyconfig.toml`
checks everything.

## Where the code does less than one might expect

Each of these is a lemma, and beside it stands the theorem that holds otherwise:

- A rejected SUBSCRIBE deletes the handler by organization (`DeafSubscription`, `AgreementStep`).
- A failure report applied while a worker runs reopens the claim (`DoubleClaim`, `ExclusionStep`).
- A duplicate job that read its event while it was pending applies the event's status reports again,
  on top of what later events have reported (`LateDuplicateOccurs`, `LateDuplicateExactly`).
- The unread reset needs `updatedAt` to grow with every write (`TiedStampIsTheHole`).
- The revocation of an invitation reads it without a lock and writes it without a guard, so that an
  acceptance may be committed in between (`OvertakenRevocation`, `BothExactlyIfOvertaken`). That no
  invitation is both accepted and revoked therefore needs serial transactions; the other clauses of
  `LedgerRun` hold with reads and writes apart.
- A request for audit rows wholly before the last 90 days gets one instant (`WindowExactly`).

Assumptions: the unique indexes and foreign keys of `apps/api/prisma/schema.prisma` and its
migrations hold; the database runs at READ COMMITTED; a row's id is generated with the row, so that no
request names a membership before there is one; hashes are injective, so that a hash stands for what it
hashes; tokens and source ids are fresh; each Observable that `subscribe` returns is subscribed once;
Redis answers the commands of one connection in order; an enqueue that fails has added no job. Where a
unique violation is caught inside a transaction, the model has the intended no-op.

The documentation differs from the code in two places, and the model follows the code: setting a
conversation's status again writes nothing but is announced (`docs/ARCHITECTURE.md:57` calls it a
no-op), and invitations expire after seven days (`PRD.md:53` says 48 hours).

## Model

| member | source | states |
|---|---|---|
| EventsProtocol.NeverStuckRun | apps/api/src/events/events.service.ts:70-251 | Over every run of subscribes, disconnects, Redis answers, promise callbacks and timers: an organization with a live observer is in exactly one of three phases (subscribing with one current-generation attempt in flight, subscribed with none, idle with one armed timer), its reference count is its number of live observers, and one without observers has no subject, count, state or timer |
| EventsProtocol.NeverStuckStep | apps/api/src/events/events.service.ts:107-204 | Each single step of either layer keeps that, with no condition on the order of completions |
| EventsProtocol.RetryDelayBounds | apps/api/src/events/events.service.ts:190-193 | The retry delay lies between 1 and 5 seconds, grows with each of the first four attempts and is the maximum from then on |
| EventsBackoff.BackoffRun | apps/api/src/events/events.service.ts:118-203 | Over every run: an armed timer waits 1, 2, 4 or at most 5 seconds after the first, second, third or a later rejection in a row of the current generation, counted from the steps of the run since the state record was created or an attempt was last fulfilled |
| EventsBackoff.TracksStep | apps/api/src/events/events.service.ts:113-153 | Each step keeps the attempt counter in step with that count |
| EventsAgreement.AgreementStep | apps/api/src/events/redis-pubsub-events.transport.ts:74-105 | From a state in which all layers agree, one step breaks the agreement if and only if it is a rejection whose `catch` deletes the handler of a newer subscribe |
| EventsAgreement.AgreementRun | apps/api/src/events/events.service.ts:107-175 | Over whole runs: draining the command queue yields the channel exactly if there is a handler, and a handler exactly if the state is subscribing or subscribed (up to the one refusal on its way up), in every state if and only if the run has no superseded rejection |
| EventsAgreement.AgreementFromStart | apps/api/src/events/events.service.ts:107-175 | The same from the fresh state that every organization starts in |
| EventsAgreement.ThreeViewsCoincide | apps/api/src/events/redis-pubsub-events.transport.ts:74-105 | With no refusal on its way up, drained Redis, handler map and service state say the same outright |
| EventsAgreement.DeafSubscription | apps/api/src/events/redis-pubsub-events.transport.ts:85-90 | A concrete run in which a superseded rejection removes a newer handler: the service is subscribed with a live observer and no handler, and a later disconnect leaves the channel subscribed |
| EventsAgreement.AlwaysRecovers | apps/api/src/events/events.service.ts:143-204 | From every agreeing state with a live observer some continuation without public calls reaches subscribed |
| EventsAgreement.RecoveredHears | apps/api/src/events/events.service.ts:126-142 | Such a continuation ends with a handler, an empty command queue and the channel subscribed at Redis |
| EventsAgreement.ProgressGetsCloser | apps/api/src/events/events.service.ts:118-154 | The next pending answer, callback or timer of a subscription that is not subscribed makes a well-founded distance smaller |
| EventsAgreement.StaleCompletionsErasable | apps/api/src/events/events.service.ts:126-154 | Deleting every completion of a superseded generation from a run leaves a run with the same service state, handler, commands and Redis side |
| EventsAgreement.WorldStepKeeps | apps/api/src/events/events.service.ts:21-32 | Organizations share the connection and nothing else: a step of one keeps the invariants of all |
| EventsAgreement.WorldNeverStuck | apps/api/src/events/events.service.ts:40-251 | Over every run of a whole process no organization is stuck |
| EventsAgreement.WorldFromStart | apps/api/src/events/events.service.ts:21-251 | From the start of a process on, over every run, no organization is stuck |
| EventsAgreement.WorldAgrees | apps/api/src/events/redis-pubsub-events.transport.ts:74-105 | Over every run of a whole process without superseded rejections, all layers agree about every organization |
| EventsFanout.ChannelRoundTrip | apps/api/src/events/events.transport.ts:35-45 | Reading the organization from a channel name undoes building the name, and nothing else is read as that organization |
| EventsFanout.FanoutAtMostOnce | apps/api/src/events/events.service.ts:97-105 | Over every run of any number of processes with distinct source ids, and foreign publishers: each emission reaches each process at most once, on its own organization's subject, the emitter by the local path and the others by Redis |
| EventsFanout.InvariantStep | apps/api/src/events/redis-pubsub-events.transport.ts:60-72 | Each emission, delivery, foreign packet, reconfiguration and joining process keeps that |
| EventsFanout.GenuineIsDispatched | apps/api/src/events/redis-pubsub-events.transport.ts:116-151 | The filters lose nothing: a genuine packet is dispatched exactly if its receiver is another process with a handler for that non-empty organization |
| EventsFanout.DispatchExactly | apps/api/src/events/redis-pubsub-events.transport.ts:116-151 | For every message: a handler is called exactly for an envelope of its own organization on that organization's channel from another source |
| EventsFanout.EmitReachesOwnSubject | apps/api/src/events/events.service.ts:97-98 | An emitted event is delivered once to the emitter's own open subject |
| EventsFanout.EmitReachesOthers | apps/api/src/events/events.service.ts:97-125 | The packet of an emission is delivered at every other process that has a handler and an open subject for the organization |
| RedisPubSubTransport.RedisPubSubEventsTransport.Subscribe | apps/api/src/events/redis-pubsub-events.transport.ts:74-91 | The handler map, attempts and issued commands change as the protocol step says; other organizations keep theirs |
| RedisPubSubTransport.RedisPubSubEventsTransport.Unsubscribe | apps/api/src/events/redis-pubsub-events.transport.ts:93-105 | Removes a handler with one UNSUBSCRIBE, or none before the first connection; nothing without a handler |
| RedisPubSubTransport.RedisPubSubEventsTransport.Answer | apps/api/src/events/redis-pubsub-events.transport.ts:85-91 | Redis answers the oldest command of the connection, which settles the promise of that attempt only |
| RedisPubSubTransport.RedisPubSubEventsTransport.CatchRefusal | apps/api/src/events/redis-pubsub-events.transport.ts:87-90 | The `catch` deletes the organization's handler whichever attempt registered it |
| RedisPubSubTransport.RedisPubSubEventsTransport.HandleMessage | apps/api/src/events/redis-pubsub-events.transport.ts:116-151 | A message is dispatched exactly if channel, handler, envelope, organization and foreign source id all match |
| RedisPubSubTransport.RedisPubSubEventsTransport.Destroy | apps/api/src/events/redis-pubsub-events.transport.ts:107-114 | No handler survives |
| EventsServiceModule.EventsService.Subscribe | apps/api/src/events/events.service.ts:70-82 | Opens the subject with its transport subscription for the first observer and counts every one: the protocol's subscribe step |
| EventsServiceModule.EventsService.Finalize | apps/api/src/events/events.service.ts:83-93 | The finalizer is the protocol's disconnect step: the last observer tears everything down |
| EventsServiceModule.EventsService.Emit | apps/api/src/events/events.service.ts:97-105 | Publishes to the local subject if there is one, and once to Redis, and touches no subscription |
| EventsServiceModule.EventsService.PublishLocally | apps/api/src/events/events.service.ts:206-220 | A delivery exactly if the organization has a subject |
| EventsServiceModule.EventsService.OnMessage | apps/api/src/events/redis-pubsub-events.transport.ts:116-151 | A Redis message becomes a local delivery exactly if the transport dispatches it and the subject is open |
| EventsServiceModule.EventsService.EnsureTransportSubscription | apps/api/src/events/events.service.ts:107-125 | The protocol's attempt step on the class's four maps: nothing while subscribing or subscribed, else one new attempt with its retry timer cleared |
| EventsServiceModule.EventsService.OnSubscribed | apps/api/src/events/events.service.ts:126-142 | The `then` callback is the protocol's fulfilled step, with the clean-up when no state is left |
| EventsServiceModule.EventsService.OnSubscribeFailed | apps/api/src/events/events.service.ts:143-154 | The `catch` callback is the protocol's rejected step |
| EventsServiceModule.EventsService.TeardownTransportSubscription | apps/api/src/events/events.service.ts:157-175 | Clears the timer, deletes the state and unsubscribes |
| EventsServiceModule.EventsService.ScheduleTransportSubscriptionRetry | apps/api/src/events/events.service.ts:177-204 | Arms one timer with the backed-off delay, only while there are observers |
| EventsServiceModule.EventsService.OnRetryTimer | apps/api/src/events/events.service.ts:195-203 | The timer callback is the protocol's timer step |
| EventsServiceModule.EventsService.GetOrCreateTransportState | apps/api/src/events/events.service.ts:234-245 | A new state record gets the next generation |
| EventsServiceModule.EventsService.OnModuleDestroy | apps/api/src/events/events.service.ts:40-68 | Subjects, reference counts, timers and handlers are gone |
| Messages.FoldClosedForm | apps/api/src/webhooks/webhooks.worker.service.ts:306-341 | The status after any list of reports is READ if that occurs, else DELIVERED if that occurs, else the last reported status |
| Messages.PermutationsConverge | apps/api/src/webhooks/webhooks.worker.service.ts:306-341 | Any two orders of the same reports end in the same status if the row is delivered or read to begin with, a report says so, or all reports say the same |
| Messages.OrdersAgreeExactly | apps/api/src/webhooks/webhooks.worker.service.ts:306-341 | All orders of a list of reports agree if and only if that is the case |
| Messages.OrderMattersOtherwise | apps/api/src/webhooks/webhooks.worker.service.ts:306-341 | For every other row and list there is another order that ends in another status |
| Messages.StatusGoesBack | apps/api/src/webhooks/webhooks.worker.service.ts:310-322 | The status is not monotone: from any row not yet delivered, three reports take it to SENT, to FAILED and to SENT again |
| Messages.FoldNoopExactly | apps/api/src/webhooks/webhooks.worker.service.ts:248-341 | A list of reports changes no field of a row if and only if the row's status refuses each of them, or the row carries the stamp of the report that the list ends up with |
| Messages.FoldIdempotent | apps/api/src/webhooks/webhooks.worker.service.ts:222-341 | Folding a list of timestamped reports into a row twice leaves every field as folding it once |
| Messages.FoldTimesClosedForm | apps/api/src/webhooks/webhooks.worker.service.ts:272-298 | After any list of reports, a time that was set stays; otherwise the read time is that of the first read report, the delivery time that of the first delivered or read one, the sending time that of the first that reports no failure |
| Messages.AppliedReportStamps | apps/api/src/webhooks/webhooks.worker.service.ts:257-270 | An applied report leaves its own status and time, and its reason or the default one if it is a failure |
| MessageTable.BatchDecomposes | apps/api/src/webhooks/webhooks.worker.service.ts:97-103 | A batch over a table is, row by row, the fold of the reports about that row, and no other row moves |
| MessageTable.BatchIdempotent | apps/api/src/webhooks/webhooks.worker.service.ts:97-103 | Applying a batch twice leaves every field of every message as applying it once, at whatever clock readings the second time |
| MessageTable.BatchNoopExactly | apps/api/src/webhooks/webhooks.worker.service.ts:97-103 | A batch changes nothing in a table if and only if every message refuses the reports about it, or carries the stamp they end with |
| MessageTable.FoldKeepsRecord | apps/api/src/webhooks/webhooks.worker.service.ts:257-303 | Reports keep the row invariant (FAILED exactly with failure time and error, later statuses imply earlier times), and delivery and read times are write-once |
| OutboundDelivery.RecordRun | apps/api/src/outbound/outbound.worker.service.ts:33-157 | Over every interleaving of the create and enqueue path, any number of workers and the status webhook, the row invariant holds and delivery and read times are write-once |
| OutboundDelivery.UnrecordedRun | apps/api/src/outbound/outbound.worker.service.ts:33-89 | Over every run, while no provider id is recorded: at most one invocation is between its claim and its final write, and the status is SENDING while one is |
| OutboundDelivery.ExclusionStep | apps/api/src/outbound/outbound.worker.service.ts:35-56 | With a provider id recorded, a step loses mutual exclusion if and only if it applies a failure report while an invocation runs |
| OutboundDelivery.ReopenedClaimIsTaken | apps/api/src/outbound/outbound.worker.service.ts:35-52 | After such a report the next invocation does claim the message beside the running one |
| OutboundDelivery.ExclusionRun | apps/api/src/outbound/outbound.worker.service.ts:35-56 | Over every run without such a report at most one invocation runs |
| OutboundDelivery.DoubleClaim | apps/api/src/outbound/outbound.worker.service.ts:35-52 | A concrete run from any sent message to two invocations at once |
| OutboundDelivery.CallsRun | apps/api/src/outbound/outbound.worker.service.ts:83-127 | Over every run, provider calls never exceed successful claims |
| OutboundDelivery.CalledOncePerFailure | apps/api/src/outbound/outbound.worker.service.ts:33-157 | Over every run, whatever crashes: the provider is called at most once, and once more for each failure written or reported |
| OutboundDelivery.SentStep | apps/api/src/outbound/outbound.worker.service.ts:129-140 | The final write leaves the row SENT and not claimable, with the id that the provider has answered and the time of the write |
| OutboundDelivery.ReportIsTableStep | apps/api/src/webhooks/webhooks.worker.service.ts:227-304 | A report on one message in this machine is what the webhook worker's batch does to that row of the table |
| OutboundDelivery.DeliveryRun | apps/api/src/outbound/outbound.worker.service.ts:33-141 | The undisturbed run of one invocation ends with the row SENT, the provider's id and the sending time, field by field |
| OutboundWorkerModule.OutboundWorkerService.Claim | apps/api/src/outbound/outbound.worker.service.ts:34-56 | The compare-and-set claims exactly an outbound row that is QUEUED or FAILED, and clears its failure |
| OutboundWorkerModule.OutboundWorkerService.ProcessOutboundMessage | apps/api/src/outbound/outbound.worker.service.ts:33-89 | Nothing is claimed and nothing happens, or the row ends SENT with the provider's id, or FAILED with the error that is thrown, clipped to 500 characters |
| OutboundWorkerModule.OutboundWorkerService.SendViaProvider | apps/api/src/outbound/outbound.worker.service.ts:91-141 | Blank channel id or contact, a provider error and a refused update each throw their own error; otherwise the row is written SENT |
| OutboundWorkerModule.SendErrorExactly | apps/api/src/outbound/outbound.worker.service.ts:91-127 | Which error an attempt ends with, and that the provider is called exactly with a channel id and a contact |
| OutboundWorkerModule.OutboundWorkerService.MarkMessageAsFailed | apps/api/src/outbound/outbound.worker.service.ts:143-157 | Writes the failure to outbound rows only |
| OutboundWorkerModule.InvocationKeepsTable | apps/api/src/outbound/outbound.worker.service.ts:33-157 | Whatever an invocation does to a table, every row keeps its invariant and provider ids stay unique |
| WebhookExtraction.GetChangeValues | apps/api/src/webhooks/whatsapp-payload.ts:33-59 | The nested loops collect exactly the object values of all changes of all entries, in order |
| WebhookExtraction.ExtractWhatsAppTextMessage | apps/api/src/webhooks/whatsapp-payload.ts:78-116 | The first message that has type text, an id, a sender and a body, over all values |
| WebhookExtraction.ExtractWhatsAppProviderMessageId | apps/api/src/webhooks/whatsapp-payload.ts:118-155 | Value by value: the first message id, else the first status id with its status, if any |
| WebhookExtraction.ExtractWhatsAppStatusUpdates | apps/api/src/webhooks/whatsapp-payload.ts:157-189 | All readable reports, in order |
| WebhookExtraction.ExtractFailedReason | apps/api/src/webhooks/whatsapp-payload.ts:209-223 | The first non-blank error message |
| WebhookExtraction.GetMessagingEntries | apps/api/src/webhooks/instagram-payload.ts:24-46 | The nested loops collect exactly the object items of all entries, in order |
| WebhookExtraction.ExtractInstagramTextMessage | apps/api/src/webhooks/instagram-payload.ts:69-106 | The first item with a text, a message id and a sender |
| WebhookExtraction.ExtractInstagramProviderMessageId | apps/api/src/webhooks/instagram-payload.ts:108-124 | The first message id |
| WebhookPayloads.FirstSomeIsFirst | apps/api/src/webhooks/whatsapp-payload.ts:83-115 | What an early return yields is the result of the first element that has one, and nothing is returned exactly if no element has one |
| WebhookPayloads.ChangeValuesExactly | apps/api/src/webhooks/whatsapp-payload.ts:33-59 | The values are exactly those that stand under the changes of the entries |
| WebhookPayloads.MessagingEntriesExactly | apps/api/src/webhooks/instagram-payload.ts:24-46 | The items are exactly those that stand under the messaging of the entries |
| WebhookPayloads.WhatsAppTextExactly | apps/api/src/webhooks/whatsapp-payload.ts:78-116 | For every payload: a text message that is found stands in some item with type text, and its id, sender and text are that item's trimmed id, from and text.body; none is found only if there is none |
| WebhookPayloads.InstagramTextExactly | apps/api/src/webhooks/instagram-payload.ts:69-106 | The same for Instagram: its id, text and sender are some item's trimmed message.mid, message.text and sender.id |
| WebhookPayloads.TextPayloadReads | apps/api/src/webhooks/whatsapp-payload.ts:78-116 | A WhatsApp text message comes out of its payload as it went in, keyed by its id and without reports |
| WebhookPayloads.InstagramPayloadReads | apps/api/src/webhooks/instagram-payload.ts:69-124 | The same for an Instagram message |
| WebhookPayloads.ReportsAreRead | apps/api/src/webhooks/whatsapp-payload.ts:157-238 | Every extracted report stands in some item under statuses: its message id, its status by name in any case, the reason of a failure and its own time |
| WebhookPayloads.StatusPayloadReports | apps/api/src/webhooks/whatsapp-payload.ts:157-189 | A payload with one status is read as that one report, with its time |
| WebhookPayloads.StatusKeysDiffer | apps/api/src/webhooks/whatsapp-payload.ts:140-150 | Two reports of one message have the same deduplication key if and only if they name the same status |
| Text.TrimCutsBlanks | apps/api/src/webhooks/whatsapp-payload.ts:24-31 | Trimming cuts off the blanks at both ends, all of them and nothing else |
| Text.NormalizedTwice | apps/api/src/auth/auth.service.ts:73 | Normalizing an address twice is normalizing it once |
| WebhookPayloads.HashKeyedWhatsApp | apps/api/src/webhooks/whatsapp-payload.ts:118-189 | For every payload: no provider id means no text message and no status report |
| WebhookPayloads.HashKeyedInstagram | apps/api/src/webhooks/instagram-payload.ts:69-124 | For every payload: no provider id means no text message |
| WebhookPayloads.StatusesAreReported | apps/api/src/webhooks/whatsapp-payload.ts:191-207 | Extracted reports only carry sent, delivered, read or failed |
| InboxRuns.HashKeyedEventIsNoop | apps/api/src/webhooks/webhooks.service.ts:54-56 | Processing an event keyed by its payload hash changes nothing but the event's own processing status |
| InboxRuns.ReprocessingIsNoop | apps/api/src/webhooks/webhooks.worker.service.ts:61-133 | Processing an event twice in a row leaves channels, conversations and messages as processing it once, whatever the first processing found |
| InboxRuns.PresentIsNoopExactly | apps/api/src/webhooks/webhooks.worker.service.ts:163-219 | Storing a message changes nothing if and only if its channel, its conversation and a message with its provider id are there |
| InboxDuplicates.TransactNoopExactly | apps/api/src/webhooks/webhooks.worker.service.ts:92-113 | In every reachable state, a worker's transaction leaves channels, conversations and messages alone if and only if its message is there and every message refuses the reports about it, or carries the stamp they end with |
| InboxDuplicates.LateDuplicateExactly | apps/api/src/webhooks/webhooks.worker.service.ts:61-113 | After an event was processed once, and over every run from there: a second worker that had read it as pending changes nothing if and only if no message can be moved by its reports |
| InboxDuplicates.LateDuplicateMoves | apps/api/src/webhooks/webhooks.worker.service.ts:61-63 | From every state in which two workers have read an event that reports a message as sent, and a third one an event that reports it as failed: the first makes it SENT, the failure FAILED, and the duplicate SENT again |
| InboxDuplicates.LateDuplicateOccurs | apps/api/src/webhooks/webhooks.worker.service.ts:61-103 | A concrete instance of that race, with its payloads |
| InboxRuns.LandedRun | apps/api/src/webhooks/webhooks.worker.service.ts:148-220 | Once an inbound message is stored, storing it again after every run inserts no message, adds no channel or conversation and announces nothing; the reports of its event are a matter of their own |
| InboxRuns.StoredRun | apps/api/src/webhooks/webhooks.worker.service.ts:148-220 | Over every run from empty tables: one message per provider id, one conversation per organization, channel and thread, one event per key, intact foreign keys, and each conversation's last-message fields are those of its most recently inserted message |
| InboxRuns.StoredStep | apps/api/src/webhooks/webhooks.worker.service.ts:191-210 | Each receipt, transaction, abort, outbound message, delivery write, status change and reset keeps that, and rows never lose what identifies them |
| InboxGuarantees.AnnouncedOnceRun | apps/api/src/webhooks/webhooks.worker.service.ts:115-133 | Over every run of redeliveries, retries and duplicate jobs, no message is announced twice, and only stored ones are |
| InboxGuarantees.ConsistentStep | apps/api/src/conversations/conversations.service.ts:183-226 | Each step keeps that a conversation with the time stamp a reader saw has exactly the messages that the reader got |
| InboxGuarantees.ResetSawEverythingRun | apps/api/src/conversations/conversations.service.ts:210-220 | Over every run in which `updatedAt` grows: a reset that applies has returned every message committed so far |
| InboxGuarantees.NothingLostRun | apps/api/src/conversations/conversations.service.ts:183-226 | Over every such run, an inbound message of a conversation that is not unread was returned by a successful reset, or an agent has written after it |
| InboxGuarantees.TiedStampIsTheHole | apps/api/src/conversations/conversations.service.ts:210-218 | A message inserted after the reader's second query is missed by a reset that still applies exactly if the insert left the time stamp as it was |
| Inbox.SearchWithoutCache | apps/api/src/conversations/conversations.service.ts:90-105 | Dropping the lastMessageText disjunct never changes a search result, for any notion of containment |
| Inbox.PersistKeeps | apps/api/src/webhooks/webhooks.worker.service.ts:148-220 | Storing an inbound message keeps the unique indexes, foreign keys and the cache, and only adds rows |
| InboxContents.ReceivedEvent | apps/api/src/webhooks/webhooks.service.ts:64-87 | A received event is in the table under its key, pending if it is new; a known key adds nothing, and nothing else moves |
| InboxContents.StoredMessage | apps/api/src/webhooks/webhooks.worker.service.ts:163-212 | A message with a new id becomes one inbound row with its text and id, in the conversation of its account and thread, which shows it, is unread, and open if it is new; other conversations stay |
| InboxContents.NewRows | apps/api/src/webhooks/webhooks.worker.service.ts:159-179 | All fields of a new channel and of a new conversation |
| InboxContents.NothingTwice | apps/api/src/webhooks/webhooks.worker.service.ts:163-188 | A channel or conversation is made only where there is none for that account or thread |
| InboxContents.WhatsAppTextIsStored | apps/api/src/webhooks/webhooks.worker.service.ts:45-113 | From the payload to the tables: what a contact wrote is the body of the stored message and the last text of the conversation with that contact, and the conversation's phone is the number it came from |
| InboxContents.InstagramTextIsStored | apps/api/src/webhooks/webhooks.worker.service.ts:45-113 | The same for Instagram |
| InboxContents.OthersUntouched | apps/api/src/webhooks/webhooks.worker.service.ts:91-113 | Whatever an event carries, its transaction touches no conversation or message of another organization, and of the events only its own, which becomes processed |
| InboxContents.OutboundMessage | apps/api/src/conversations/conversations.service.ts:265-307 | An agent's message is stored as QUEUED under its text and answers the conversation, unless that is resolved |
| WebhooksWorkerModule.WebhooksWorkerService.UpsertChannel | apps/api/src/webhooks/webhooks.worker.service.ts:159-179 | The first channel of that key, or a new one |
| WebhooksWorkerModule.WebhooksWorkerService.GetOrCreateConversation | apps/api/src/webhooks/webhooks.worker.service.ts:365-418 | The first conversation of that thread, or a new unread one |
| WebhooksWorkerModule.WebhooksWorkerService.PersistInboundMessage | apps/api/src/webhooks/webhooks.worker.service.ts:148-220 | A new message with its conversation's cache and unread mark, or a no-op for a known provider id |
| WebhooksWorkerModule.WebhooksWorkerService.ApplyOutboundStatusUpdate | apps/api/src/webhooks/webhooks.worker.service.ts:222-304 | Exactly the outbound row with that provider id in the organization is folded, field by field |
| WebhooksWorkerModule.WebhooksWorkerService.ApplyOutboundStatusUpdates | apps/api/src/webhooks/webhooks.worker.service.ts:97-103 | The loop over the reports is the fold of the whole batch over the table |
| WebhooksWorkerModule.WebhooksWorkerService.RunTransaction | apps/api/src/webhooks/webhooks.worker.service.ts:91-113 | Message, reports in order and the processed mark, as one change |
| WebhooksWorkerModule.WebhooksWorkerService.ProcessRawEvent | apps/api/src/webhooks/webhooks.worker.service.ts:45-146 | Only pending events are processed; two announcements follow exactly an insert; a refusing database leaves everything as it was, or marks the event failed on the final attempt, and is thrown on |
| WebhooksWorkerModule.WebhooksWorkerService.ProcessPending | apps/api/src/webhooks/webhooks.worker.service.ts:86-113 | An event with nothing to process only gets its mark, and that is what the transaction would do |
| WebhooksWorkerModule.WebhooksWorkerService.Announce | apps/api/src/webhooks/webhooks.worker.service.ts:115-133 | Two announcements exactly for an insert |
| WebhooksWorkerModule.WebhooksWorkerService.MarkRawEventAsFailed | apps/api/src/webhooks/webhooks.worker.service.ts:354-363 | The event's processing status and nothing else |
| WebhooksWorkerModule.WebhooksWorkerService.HandleWebhook | apps/api/src/webhooks/webhooks.service.ts:43-87 | A new key is stored and enqueued; a duplicate is not stored, and enqueued again exactly if it is still pending; a queue that refuses leaves the row pending without a job, and the next delivery enqueues it |
| WebhooksWorkerModule.WebhooksWorkerService.ReenqueueIfPendingDuplicate | apps/api/src/webhooks/webhooks.service.ts:89-111 | One more job exactly for a pending event, or the refusal of the queue thrown on |
| ConversationsServiceModule.ConversationsService.ListConversations | apps/api/src/conversations/conversations.service.ts:68-105 | Exactly the organization's conversations that pass every filter; a search term finds what contact names and message bodies alone would |
| ConversationsServiceModule.ConversationsService.OpenReader | apps/api/src/conversations/conversations.service.ts:183-194 | The first query of a reader, on own conversations only |
| ConversationsServiceModule.ConversationsService.LoadMessages | apps/api/src/conversations/conversations.service.ts:196-208 | The second query returns every message of the conversation |
| ConversationsServiceModule.ConversationsService.ResetUnread | apps/api/src/conversations/conversations.service.ts:210-236 | The guarded update applies exactly if the row is unread and has the time stamp that was read, and is announced exactly then |
| ConversationsServiceModule.ConversationsService.ListConversationMessages | apps/api/src/conversations/conversations.service.ts:180-244 | Without interference a reader gets every message and leaves the conversation read, changing nothing else |
| ConversationsServiceModule.ConversationsService.CreateOutboundMessage | apps/api/src/conversations/conversations.service.ts:246-333 | Missing and resolved conversations refuse; a message that cannot be enqueued stays as FAILED without a job; otherwise it is queued, cached, enqueued and announced |
| ConversationsServiceModule.ConversationsService.ReadAssignment | apps/api/src/conversations/conversations.service.ts:342-396 | The checks of an assignment and what the guarded write will expect |
| ConversationsServiceModule.ConversationsService.WriteAssignment | apps/api/src/conversations/conversations.service.ts:398-475 | The guarded write with its audit row, its conflict and its no-op when somebody else made the same assignment |
| ConversationsServiceModule.ConversationsService.AssignConversation | apps/api/src/conversations/conversations.service.ts:335-476 | Succeeds exactly for an own conversation and a member, leaves that assignee, and changes nothing if it was there already |
| ConversationsServiceModule.ConversationsService.UpdateConversationStatus | apps/api/src/conversations/conversations.service.ts:478-544 | The status and one audit row if it changes; announced either way |
| ConversationsServiceModule.ConversationsService.AddTagToConversation | apps/api/src/conversations/conversations.service.ts:645-711 | One tag per normalized name; the link and its audit row appear once; announced either way |
| ConversationsServiceModule.ConversationsService.RemoveTagFromConversation | apps/api/src/conversations/conversations.service.ts:713-778 | The link goes with one audit row, or nothing is found |
| Ledger.LedgerRun | apps/api/src/team/team.service.ts:96-710 | After every run from the bootstrap on, with assignments, status changes and revocations split into their reads and writes: replaying the audit log reproduces every member's role and every conversation's assignee, status and tags; an address has one pending invitation at most; an invitation is both accepted and revoked exactly if an acceptance overtook its revocation |
| Ledger.BothExactlyIfOvertaken | apps/api/src/team/team.service.ts:551-567 | Over every run: an invitation is both accepted and revoked if and only if an acceptance of it was committed between the read and the unguarded write of a revocation |
| Ledger.OvertakenRevocation | apps/api/src/team/team.service.ts:551-567 | From every state with a pending invitation that has not expired, such a run exists |
| Ledger.SerialRevocation | apps/api/src/team/team.service.ts:541-578 | A revocation that writes in the state it has read is the whole transaction, and hits an invitation that was not accepted |
| Ledger.SameLogSameRoles | apps/api/src/team/team.service.ts:619-641 | Two organizations with the same audit log have the same members in the same roles |
| Ledger.SameLogSameConversation | apps/api/src/conversations/conversations.service.ts:445-530 | Two organizations with the same audit log show the same assignee, status and tags of every conversation that both have |
| Ledger.AssignTold | apps/api/src/conversations/conversations.service.ts:398-458 | The audit row of a guarded assignment says what the conversation now looks like |
| Ledger.StatusTold | apps/api/src/conversations/conversations.service.ts:507-530 | The same for the unguarded write of a status, whatever status its request had read |
| Ledger.AddTagTold | apps/api/src/conversations/conversations.service.ts:671-700 | The same for a tag that is linked, and no row for one that was linked before |
| Ledger.RemoveTagTold | apps/api/src/conversations/conversations.service.ts:729-770 | The same for a tag that is unlinked |
| Ledger.ChangeRoleFaithful | apps/api/src/team/team.service.ts:587-641 | A role change keeps roles, assignments and invitations in step with the log |
| Ledger.RemoveFaithful | apps/api/src/team/team.service.ts:688-708 | A removal and the assignments it clears are all in the one audit row |
| Ledger.AcceptFaithful | apps/api/src/team/team.service.ts:483-506 | Accepting an invitation adds a member, and leaves the role of one who is a member already, as the log's replay does |
| Ledger.InviteFaithful | apps/api/src/team/team.service.ts:114-193 | Issuing revokes expired invitations of the address first and never leaves two pending |
| Ledger.RevokeFaithful | apps/api/src/team/team.service.ts:564-577 | The write of a revocation, pending or not, keeps roles, conversations and the pending invitations in step with the log |
| LedgerEffects.RoleChangeEffect | apps/api/src/team/team.service.ts:587-641 | Every outcome exactly; the target gets the role that was asked for and keeps its user, the audit row names both roles, and nothing else moves |
| LedgerEffects.RemovalEffect | apps/api/src/team/team.service.ts:656-709 | Every outcome exactly; the target is gone, its conversations and no others are unassigned, and everything else stays |
| LedgerEffects.InviteOutcome | apps/api/src/team/team.service.ts:114-167 | An invitation is issued exactly by an owner, for an address without a member who has a password and without an open invitation |
| LedgerEffects.InviteEffect | apps/api/src/team/team.service.ts:124-193 | The new invitation has the known member's role or the requested one and seven days; exactly the lapsed ones of the address are revoked |
| LedgerEffects.AcceptEffect | apps/api/src/team/team.service.ts:239-506 | Accepted exactly while open and not expired; the user becomes a member with the invitation's role, or keeps his |
| LedgerEffects.RevokeEffect | apps/api/src/team/team.service.ts:541-578 | Revoked exactly by an owner and while pending, and nothing else moves |
| LedgerEffects.StatusEffect | apps/api/src/conversations/conversations.service.ts:484-536 | The conversation has the requested status afterwards, the audit row names the old and the requested one and is there exactly if they differ, and no other conversation moves |
| LedgerEffects.StatusWriteEffect | apps/api/src/conversations/conversations.service.ts:507-530 | A write sets the status that its request asked for, whatever has happened since its read |
| LedgerEffects.AddTagEffect | apps/api/src/conversations/conversations.service.ts:653-703 | The tag is linked afterwards, audited exactly if it was not |
| LedgerEffects.RemoveTagEffect | apps/api/src/conversations/conversations.service.ts:719-771 | Found exactly if it was linked; then it is not, and audited |
| LedgerEffects.AssignEffect | apps/api/src/conversations/conversations.service.ts:341-464 | Read and write without interference: every outcome exactly, the requested assignee, and his user in the audit row |
| LedgerEffects.LateAssignEffect | apps/api/src/conversations/conversations.service.ts:398-443 | With interference: the write applies exactly if the assignee is still the one that was read, and conflicts exactly if he is neither that nor the requested one |
| TeamServiceModule.TeamService.UpdateMemberRole | apps/api/src/team/team.service.ts:581-649 | Owner, target, self and last-owner checks in order, then the role with its audit row |
| TeamServiceModule.TeamService.RemoveMember | apps/api/src/team/team.service.ts:651-710 | The same checks, then assignments cleared, membership deleted, one audit row |
| TeamServiceModule.TeamService.CreateInvite | apps/api/src/team/team.service.ts:96-193 | Owner check, expired invitations revoked, members with a password and pending addresses refused, an existing member's role kept |
| TeamServiceModule.TeamService.RevokeInvite | apps/api/src/team/team.service.ts:536-579 | Only an owner, and only a pending invitation |
| TeamServiceModule.TeamService.SettleAccount | apps/api/src/team/team.service.ts:272-451 | The account half of an acceptance: accepted exactly for a matching session, the right password, or a name and password for a new account; an account without a password is activated with one version bump |
| TeamServiceModule.TeamService.AcceptInvite | apps/api/src/team/team.service.ts:210-534 | Accepted exactly for an open, unexpired invitation and an entitled caller; afterwards the caller is a member, the invitation is accepted and audited; otherwise nothing changes |
| TeamServiceModule.TeamService.UpsertMembership | apps/api/src/team/team.service.ts:483-496 | The membership upsert never changes an existing role |
| OwnerSafety.OwnerSafetyRun | apps/api/src/team/team.service.ts:587-698 | From any state with an owner, over every interleaving of row-by-row locking, actor check, target check, count and write of any number of role changes and removals, with invitations accepted in between: there is always an owner, and two transactions that have found their targets are the same one |
| OwnerSafety.MutualExclusion | apps/api/src/team/team.service.ts:737-748 | Two transactions past their target checks are the same one |
| OwnerSafety.LastOwnerIsUnreachable | apps/api/src/team/team.service.ts:610-617 | When the count is taken there are at least two owners, so it never refuses |
| OwnerSafety.CountIsRedundant | apps/api/src/team/team.service.ts:679-686 | In a whole transaction, too, the outcome of the checks never depends on the count |
| OwnerSafety.WriteIsAtomic | apps/api/src/team/team.service.ts:587-641 | What an interleaved transaction writes is what the whole transaction would do at that instant |
| AuditPagination.NormalizeLimit | apps/api/src/audit-logs/audit-logs.service.ts:119-125 | The allowed limit nearest to the requested one, 25 without one |
| AuditPagination.WindowExactly | apps/api/src/audit-logs/audit-logs.service.ts:25-41 | An accepted window is the requested range within the last 90 days if and only if the request does not end before them; otherwise it is their first instant alone, which was not asked for |
| AuditPagination.RefusedExactly | apps/api/src/audit-logs/audit-logs.service.ts:31-41 | Refused are exactly the requests for nothing, except those wholly before the last 90 days whose bounds are in order |
| AuditPagination.StaysAccepted | apps/api/src/audit-logs/audit-logs.service.ts:25-41 | A request accepted once is accepted at every later time |
| AuditPagination.PageIsPrefix | apps/api/src/audit-logs/audit-logs.service.ts:70-92 | A page is the newest rows below the cursor; the rest is below the next cursor, which exists exactly if there is a rest |
| AuditPagination.SelectedExactly | apps/api/src/audit-logs/audit-logs.service.ts:45-53 | The query selects exactly the organization's own rows, of the given action and by the given actor, from the time asked for within the last 90 days |
| AuditPagination.NoRowRepeats | apps/api/src/audit-logs/audit-logs.service.ts:55-92 | Whatever is inserted or deleted and however the clock moves between requests, the rows come newest first by time and id, none twice |
| AuditPagination.NoRowSkipped | apps/api/src/audit-logs/audit-logs.service.ts:43-92 | A row of the organization that is there and asked for at every request is returned by the time the last page is reached |
| AuditPagination.NoRowInvented | apps/api/src/audit-logs/audit-logs.service.ts:45-53 | Every returned row has the query's organization, its action and its actor where given, and was there, from the time asked for, at some request |
| AuditPagination.PagesRefineSortedList | apps/api/src/audit-logs/audit-logs.service.ts:70-111 | Over a fixed table the pages are the list of all rows asked for, newest first, cut into pieces |
| AuditPagination.PagingTerminates | apps/api/src/audit-logs/audit-logs.service.ts:90-111 | As many requests as pages are needed for the matching rows reach the last page |
| Sessions.AcceptedExactly | apps/api/src/auth/auth.service.ts:677-711 | Over every run: a session is accepted exactly while its membership exists and no password set on the account was committed since the user row it was built from was read |
| Sessions.RevokedForever | apps/api/src/auth/auth.service.ts:706-711 | From a password set on, over every run, the sessions built before it are never accepted again |
| Sessions.AccountedRun | apps/api/src/auth/auth.service.ts:237-279 | Over every run: each token is consumed at most once, every version is its account's used tokens plus its activation, no token is both used and invalidated, and an account has one active token at most |
| Sessions.RacingResets | apps/api/src/auth/auth.service.ts:210-279 | Of two requests that both passed the check on one token, exactly the first to write sets its password |
| Sessions.VersionsStep | apps/api/src/auth/auth.service.ts:595-604 | Each step keeps every version equal to the number of password sets, and every reading and session dated by it |
| Sessions.RequestAccounted | apps/api/src/auth/auth.service.ts:734-758 | Issuing a token invalidates the active one, and keeps all of the accounting |
| Sessions.TokenPassesExactly | apps/api/src/auth/auth.service.ts:222-235 | A token passes exactly if it is there, was not used, is not invalidated and has not expired |
| Sessions.ConsumeEffect | apps/api/src/auth/auth.service.ts:237-279 | A reset sets that password on the token's account, bumps its version and uses the token up; nothing else moves |
| Sessions.ActivateEffect | apps/api/src/auth/auth.service.ts:595-636 | An activation sets the password where there is none, and otherwise only compares it |
| Sessions.CreateEffect | apps/api/src/auth/auth.service.ts:734-758 | A new token with its expiry; the account's unused ones are invalidated, and other accounts keep theirs |
| Sessions.InvalidateEffect | apps/api/src/auth/auth.service.ts:838-849 | An unused token is invalidated, and a used one stays as it is |
| AuthServiceModule.AuthService.Login | apps/api/src/auth/auth.service.ts:72-167 | A session comes out exactly for the right password of an account (verified if that is required) with a membership to land in, and is accepted at once; without a password activation is required; several memberships ask for a selection |
| AuthServiceModule.AuthService.GetSessionDetails | apps/api/src/auth/auth.service.ts:677-724 | Details come out exactly for a membership whose user has the session's version |
| AuthServiceModule.AuthService.ConfirmPasswordReset | apps/api/src/auth/auth.service.ts:207-283 | The checks in order, then token consumed, password set and version bumped |
| AuthServiceModule.AuthService.ActivateAccount | apps/api/src/auth/auth.service.ts:595-636 | Sets a password only where there is none, and otherwise wants the one that is there |
| AuthServiceModule.AuthService.RecoverOwnerAccess | apps/api/src/auth/auth.service.ts:522-675 | Granted exactly for the configured secret and an owner without a password in an organization none of whose owners has one; audited, and the session is accepted |
| AuthServiceModule.AuthService.BootstrapOwner | apps/api/src/auth/auth.service.ts:435-520 | Succeeds exactly on empty tables with a usable slug, and leaves the organization that its ledger starts from |
| AuthServiceModule.AuthService.CreatePasswordResetToken | apps/api/src/auth/auth.service.ts:734-758 | Afterwards the new token is the account's only active one |
| AuthServiceModule.AuthService.InvalidatePasswordResetToken | apps/api/src/auth/auth.service.ts:838-849 | Only an active token is invalidated |

## Left out

- Web front end, controllers, data transfer validation, health and configuration: wiring and single branches.
- Adapters of the providers, email delivery, queue internals and the Redis wire protocol: they appear as outcomes, jobs and commands.
- Signatures, hashing and random tokens: library calls, uninterpreted or fresh.
- Cursor, cookie and JSON text encodings: the decoded values are modelled; ids that the code compares as text are numbers, in some fixed order.
- Channel connect and disconnect, notes, tag and member listings, email verification tokens: they would repeat what is modelled.
- HandleWebhook: does not model reading the account id out of a webhook and mapping it to an organization, which are single lookups; it starts from both.
- Lower case is that of ASCII letters, and numbers in provider timestamps are parsed by a parameter.
- Date arithmetic in local time: an invitation expires after seven days of 24 hours.
- Order of conversations and messages in listings; the sets are modelled.
- UNSUBSCRIBE is always answered; reconnection of a Redis connection with its automatic resubscription is not modelled.
- Destroy: does not model the closing of both clients, which belongs to the Redis library; it states that no handler survives.
- OnModuleDestroy: does not model the awaited unsubscribes and the closing of both clients, which are left to Redis; it states what is left in the maps.
- Unsupported providers and channel types: the schema's types rule them out.
- ProcessRawEvent: does not model a database that also refuses to mark the event as failed; the machine of `InboxRuns` aborts a worker at any point, marked or not.
- Session expiry and the signature of the cookie; the model starts from a parsed session.
- Two users created for one address at once by accepting invitations: the transaction is one step, so the branch that finds the other user is not reached.
- Creating and revoking invitations take the same membership lock; `OwnerSafety` has role changes, removals and acceptances, which are what writes memberships.
- Memberships of other organizations appear in `TeamService` only as who the caller is.
- `ConversationsService` sees memberships as constant during one of its methods; the ledger's machine interleaves them.

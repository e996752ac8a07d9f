/** The conversations of one organization: readers, outbound messages, assignment, status and tags. */
module ConversationsServiceModule {
  import opened Wrappers
  import opened Text
  import opened Messages
  import opened Inbox
  import InboxRuns
  import Ledger
  import OutboundDelivery

  datatype Announcement =
    | MarkedRead(read: nat)
    | MessageCreated(conversation: nat, message: nat)
    | AssignmentChanged(subject: nat, assignee: Option<nat>)
    | StatusChanged(changed: nat, status: ConversationStatus)
    | TagAdded(tagged: nat, tag: nat)
    | TagRemoved(untagged: nat, tag: nat)

  datatype SendResult = NotFound | Resolved | EnqueueFailed | Created(id: nat)

  function TagsOf(links: set<(nat, nat)>, c: nat): set<nat> {
    set link | link in links && link.0 == c :: link.1
  }

  /** A conversation as the ledger sees it. */
  function LedgerRow(threads: seq<Conversation>, assignees: map<nat, nat>, links: set<(nat, nat)>, c: nat): Ledger.Conversation
    requires c < |threads|
  {
    Ledger.Conversation(if c in assignees then Some(assignees[c]) else None, threads[c].status, TagsOf(links, c))
  }

  function LedgerRows(threads: seq<Conversation>, assignees: map<nat, nat>, links: set<(nat, nat)>, organizationId: string): map<nat, Ledger.Conversation> {
    map c: nat | c in Own(threads, organizationId) :: LedgerRow(threads, assignees, links, c)
  }

  /** Writing one conversation changes one row of the ledger. */
  lemma OneRow(threads: seq<Conversation>, threads': seq<Conversation>, assignees: map<nat, nat>, assignees': map<nat, nat>,
               links: set<(nat, nat)>, links': set<(nat, nat)>, organizationId: string, c: nat)
    requires c < |threads| == |threads'| && threads[c].organizationId == threads'[c].organizationId == organizationId
    requires forall d :: 0 <= d < |threads| && d != c ==> threads'[d] == threads[d]
    requires forall d :: d != c ==> (d in assignees <==> d in assignees') && (d in assignees ==> assignees'[d] == assignees[d])
    requires forall d, t :: d != c ==> ((d, t) in links <==> (d, t) in links')
    ensures LedgerRows(threads', assignees', links', organizationId)
         == LedgerRows(threads, assignees, links, organizationId)[c := LedgerRow(threads', assignees', links', c)]
  {
    forall d: nat | d != c && d < |threads| ensures LedgerRow(threads', assignees', links', d) == LedgerRow(threads, assignees, links, d) {
      assert forall t :: t in TagsOf(links, d) <==> (d, t) in links;
      assert forall t :: t in TagsOf(links', d) <==> (d, t) in links';
    }
  }

  /** The filters of `listConversations`; `search` counts unless it is blank. */
  datatype Filters = Filters(
    status: Option<ConversationStatus>,
    provider: Option<Provider>,
    assignee: Option<nat>,
    tag: Option<nat>,
    search: Option<string>)

  predicate Passes(channels: seq<Channel>, row: Conversation, assignee: Option<nat>, tags: set<nat>, f: Filters) {
    && (f.status.Some? ==> row.status == f.status.value)
    && (f.provider.Some? ==> row.channel < |channels| && channels[row.channel].provider == f.provider.value)
    && (f.assignee.Some? ==> assignee == f.assignee)
    && (f.tag.Some? ==> f.tag.value in tags)
  }

  class ConversationsService {
    const organizationId: string
    const channels: seq<Channel>
    const events: seq<RawEvent>
    const members: map<nat, Ledger.Membership>
    var threads: seq<Conversation>            // of all organizations
    var messages: seq<Message>
    var assignees: map<nat, nat>              // assignedMembershipId
    var links: set<(nat, nat)>                // conversation and tag
    var tags: map<string, nat>
    var nextTag: nat
    var audit: seq<Ledger.Entry>
    var jobs: seq<nat>
    var emitted: seq<Announcement>

    ghost function View(): Db
      reads this
    {
      Db(channels, threads, messages, events)
    }

    /** What this service sees of the ledger; invitations are not among it. */
    ghost function OrgView(): Ledger.Org
      reads this
    {
      Ledger.Org(LedgerRows(threads, assignees, links, organizationId), members, map[], audit, 0, 0)
    }

    constructor (organizationId: string, db: Db, members: map<nat, Ledger.Membership>)
      ensures View() == db && this.organizationId == organizationId && this.members == members
      ensures assignees == map[] && links == {} && audit == [] && jobs == [] && emitted == []
    {
      this.organizationId, this.members := organizationId, members;
      channels, events, threads, messages := db.channels, db.events, db.conversations, db.messages;
      assignees, links, tags, nextTag, audit, jobs, emitted := map[], {}, map[], 0, [], [], [];
    }

    predicate Owned(c: nat)
      reads this`threads
    {
      c < |threads| && threads[c].organizationId == organizationId
    }

    // ----- Search -----

    /** A conversation of the organization that meets every filter that is given, the search aside. */
    predicate Qualifies(c: nat, f: Filters)
      reads this`threads, this`assignees, this`links
    {
      && c < |threads| && threads[c].organizationId == organizationId
      && (f.status.None? || threads[c].status == f.status.value)
      && (f.provider.None? || (threads[c].channel < |channels| && channels[threads[c].channel].provider == f.provider.value))
      && (f.assignee.None? || (c in assignees && assignees[c] == f.assignee.value))
      && (f.tag.None? || (c, f.tag.value) in links)
    }

    /** The term is in the contact's name or in some message. */
    predicate Mentions(c: nat, term: string, contains: (string, string) -> bool)
      requires c < |threads|
      reads this`threads, this`messages
    {
      contains(threads[c].contactName, term)
      || exists i :: 0 <= i < |messages| && messages[i].conversation == c && contains(messages[i].body, term)
    }

    /** Exactly those; a search that is not blank, though it looks in three places, finds what the names and
        the messages alone would, whatever `contains` is. */
    method ListConversations(f: Filters, contains: (string, string) -> bool) returns (hits: set<nat>)
      requires Cached(View())
      ensures forall c: nat :: c in hits <==> Qualifies(c, f) && (Trim(f.search.GetOr("")) == "" || Mentions(c, Trim(f.search.GetOr("")), contains))
    {
      var term := Trim(f.search.GetOr(""));
      hits := set c: nat | c < |threads| && threads[c].organizationId == organizationId
        && Passes(channels, threads[c], if c in assignees then Some(assignees[c]) else None, TagsOf(links, c), f)
        && (term == ""
            || contains(threads[c].contactName, term)
            || (threads[c].lastMessageText.Some? && contains(threads[c].lastMessageText.value, term))
            || exists i :: 0 <= i < |messages| && messages[i].conversation == c && contains(messages[i].body, term));
      forall c: nat | c < |threads| ensures SearchHit(View(), c, term, contains) <==> Mentions(c, term, contains) {
        SearchWithoutCache(View(), c, term, contains);
      }
    }

    // ----- Readers -----

    /** The first query of `listConversationMessages`. */
    method OpenReader(c: nat) returns (reader: Option<InboxRuns.Reader>)
      ensures reader == if Owned(c) then Some(InboxRuns.Opened(c, threads[c].isUnread, threads[c].updatedAt)) else None
    {
      if c >= |threads| || threads[c].organizationId != organizationId { return None; }
      return Some(InboxRuns.Opened(c, threads[c].isUnread, threads[c].updatedAt));
    }

    /** The second query. */
    method LoadMessages(reader: InboxRuns.Reader) returns (loaded: InboxRuns.Reader)
      requires reader.Opened?
      ensures loaded == InboxRuns.Loaded(reader.conversation, reader.isUnread, reader.updatedAt, InboxRuns.RowsOf(View(), reader.conversation))
    {
      var list: set<nat> := set i: nat | i < |messages| && messages[i].conversation == reader.conversation;
      assert list == InboxRuns.RowsOf(View(), reader.conversation);
      return InboxRuns.Loaded(reader.conversation, reader.isUnread, reader.updatedAt, list);
    }

    /** The guarded reset; the three methods are the reader's three steps, whatever happens in between. */
    method ResetUnread(r: InboxRuns.Reader, at: Time) returns (markedAsRead: bool)
      requires r.Loaded? && Owned(r.conversation)
      modifies this`threads, this`emitted
      ensures markedAsRead == InboxRuns.ResetApplies(old(threads)[r.conversation], r)
      ensures var before := InboxRuns.System(old(View()), map[], map[0 := r], [], {});
              View() == InboxRuns.Next(before, InboxRuns.Reset(0, at)).db
      ensures emitted == if markedAsRead then old(emitted) + [MarkedRead(r.conversation)] else old(emitted)
    {
      markedAsRead := false;
      if r.isUnread {
        var row := threads[r.conversation];
        if row.isUnread && row.updatedAt == r.updatedAt {
          threads := threads[r.conversation := row.(isUnread := false, updatedAt := at)];
          markedAsRead := true;
        }
      }
      if markedAsRead { emitted := emitted + [MarkedRead(r.conversation)]; }
    }

    /** Without interference a reader gets every message and leaves the conversation read. */
    method ListConversationMessages(c: nat, at: Time) returns (list: Option<set<nat>>, markedAsRead: bool)
      modifies this`threads, this`emitted
      ensures list == if old(Owned(c)) then Some(InboxRuns.RowsOf(old(View()), c)) else None
      ensures markedAsRead == (old(Owned(c)) && old(threads)[c].isUnread)
      ensures threads == if markedAsRead then old(threads)[c := old(threads)[c].(isUnread := false, updatedAt := at)] else old(threads)
    {
      var reader := OpenReader(c);
      if reader.None? { return None, false; }
      var loaded := LoadMessages(reader.value);
      markedAsRead := ResetUnread(loaded, at);
      list := Some(loaded.list);
    }

    // ----- Outbound messages -----

    /** A message that cannot be enqueued stays behind as FAILED, and no job is added for it. */
    method CreateOutboundMessage(c: nat, text: string, stamp: Stamp, enqueued: bool, failedAt: Time) returns (r: SendResult)
      modifies this`threads, this`messages, this`jobs, this`emitted
      ensures r.NotFound? <==> !(c < |old(threads)| && old(threads)[c].organizationId == organizationId)
      ensures r.Resolved? <==> old(Owned(c)) && old(threads)[c].status == RESOLVED
      ensures r.NotFound? || r.Resolved? ==> View() == old(View()) && jobs == old(jobs) && emitted == old(emitted)
      ensures r.Created? ==>
                && r.id == |old(messages)| && View() == CreateOutbound(old(View()), c, Trim(text), stamp)
                && jobs == old(jobs) + [r.id] && emitted == old(emitted) + [MessageCreated(c, r.id)]
      ensures r.EnqueueFailed? ==>
                var sent := CreateOutbound(old(View()), c, Trim(text), stamp);
                var id := |old(messages)|;
                && View() == sent.(messages := sent.messages[id := OutboundDelivery.FailedRow(sent.messages[id], OutboundDelivery.ENQUEUE_FAILURE, failedAt)])
                && jobs == old(jobs) && emitted == old(emitted)
      ensures r.Created? || r.EnqueueFailed? ==>
                && |messages| == |old(messages)| + 1
                && messages[|old(messages)|].direction == OUTBOUND && messages[|old(messages)|].body == Trim(text) && messages[|old(messages)|].conversation == c
                && messages[|old(messages)|].deliveryStatus == Some(if r.Created? then QUEUED else FAILED)
                && (r.EnqueueFailed? ==> messages[|old(messages)|].failedAt == Some(failedAt) && messages[|old(messages)|].providerError == Some("Outbound queue enqueue failed"))
      ensures r.Created? ==> enqueued
      ensures r.EnqueueFailed? ==> !enqueued
    {
      var body := Trim(text);
      if c >= |threads| || threads[c].organizationId != organizationId { return NotFound; }
      if threads[c].status == RESOLVED { return Resolved; }
      var id := |messages|;
      messages := messages + [OutboundRow(body, c, stamp.createdAt)];
      var row := threads[c].(lastMessageAt := Some(stamp.createdAt), lastMessageText := Some(body));
      threads := threads[c := row.(isUnread := false, updatedAt := stamp.updatedAt)];
      if !enqueued {
        var failed := messages[id].(deliveryStatus := Some(FAILED), deliveryStatusUpdatedAt := Some(failedAt));
        failed := failed.(providerError := Some(OutboundDelivery.ENQUEUE_FAILURE), failedAt := Some(failedAt));
        messages := messages[id := failed];
        return EnqueueFailed;
      }
      jobs := jobs + [id];
      emitted := emitted + [MessageCreated(c, id)];
      return Created(id);
    }

    // ----- Assignment -----

    method ReadAssignment(c: nat, target: Option<nat>) returns (a: Option<Ledger.Assignment>, outcome: Ledger.Outcome)
      ensures (a, outcome) == Ledger.ReadAssignment(OrgView(), c, target)
    {
      if c >= |threads| || threads[c].organizationId != organizationId { return None, Ledger.NotFound; }
      var targetUser := 0;
      if target.Some? {
        if target.value !in members { return None, Ledger.BadRequest; }
        targetUser := members[target.value].user;
      }
      var current := if c in assignees then Some(assignees[c]) else None;
      if current == target { return None, Ledger.Done; }
      return Some(Ledger.Assignment(c, current, target, targetUser)), Ledger.Done;
    }

    /** The guarded `updateMany` with what follows it. */
    method WriteAssignment(a: Ledger.Assignment, at: Time) returns (outcome: Ledger.Outcome)
      modifies this`threads, this`assignees, this`audit, this`emitted
      ensures (OrgView(), outcome) == Ledger.WriteAssignment(old(OrgView()), a)
      ensures emitted == if audit != old(audit) then old(emitted) + [AssignmentChanged(a.conversation, a.target)] else old(emitted)
    {
      var c := a.conversation;
      if c >= |threads| || threads[c].organizationId != organizationId { return Ledger.NotFound; }
      var current := if c in assignees then Some(assignees[c]) else None;
      if current != a.expected { return if current == a.target then Ledger.Done else Ledger.Conflict; }
      if a.target.Some? && a.target.value !in members { return Ledger.ForeignKeyViolation; }
      assignees := if a.target.Some? then assignees[c := a.target.value] else assignees - {c};
      threads := threads[c := threads[c].(updatedAt := at)];
      OneRow(old(threads), threads, old(assignees), assignees, links, links, organizationId, c);
      audit := audit + [if a.target.Some? then Ledger.Assigned(c, a.targetUser) else Ledger.Unassigned(c)];
      emitted := emitted + [AssignmentChanged(c, a.target)];
      return Ledger.Done;
    }

    /** Both halves without interference: a conversation and a member are all it takes. */
    method AssignConversation(c: nat, target: Option<nat>, at: Time) returns (outcome: Ledger.Outcome)
      modifies this`threads, this`assignees, this`audit, this`emitted
      ensures outcome == Ledger.Done <==> old(Owned(c)) && (target.Some? ==> target.value in members)
      ensures outcome == Ledger.Done ==> c in OrgView().conversations && OrgView().conversations[c].assignee == target
      ensures outcome != Ledger.Done || old(OrgView().conversations[c].assignee) == target ==> OrgView() == old(OrgView())
    {
      var a: Option<Ledger.Assignment>;
      a, outcome := ReadAssignment(c, target);
      if a.Some? { outcome := WriteAssignment(a.value, at); }
    }

    // ----- Status and tags -----

    /** A status that is set already is announced again, but not audited. */
    method UpdateConversationStatus(c: nat, status: ConversationStatus, at: Time) returns (outcome: Ledger.Outcome)
      modifies this`threads, this`audit, this`emitted
      ensures (OrgView(), outcome) == Ledger.UpdateStatus(old(OrgView()), c, status)
      ensures emitted == if outcome == Ledger.Done then old(emitted) + [StatusChanged(c, status)] else old(emitted)
      ensures outcome == Ledger.Done <==> c < |old(threads)| && old(threads)[c].organizationId == organizationId
      ensures outcome == Ledger.Done ==>
                && c < |threads| == |old(threads)| && threads[c].status == status
                && audit == old(audit) + (if old(threads)[c].status == status then [] else [Ledger.StatusChanged(c, old(threads)[c].status, status)])
      ensures forall d :: 0 <= d < |old(threads)| && d != c ==> |threads| == |old(threads)| && threads[d] == old(threads)[d]
    {
      if c >= |threads| || threads[c].organizationId != organizationId { return Ledger.NotFound; }
      var from := threads[c].status;
      if from != status {
        threads := threads[c := threads[c].(status := status, updatedAt := at)];
        OneRow(old(threads), threads, assignees, assignees, links, links, organizationId, c);
        audit := audit + [Ledger.StatusChanged(c, from, status)];
      }
      emitted := emitted + [StatusChanged(c, status)];
      return Ledger.Done;
    }

    /** The tag is created unless there is one of that name; linking it twice is not audited. */
    method AddTagToConversation(c: nat, rawName: string) returns (outcome: Ledger.Outcome)
      modifies this`tags, this`nextTag, this`links, this`audit, this`emitted
      ensures old(Owned(c)) ==> tags == if Normalized(rawName) in old(tags) then old(tags) else old(tags)[Normalized(rawName) := old(nextTag)]
      ensures !old(Owned(c)) ==> tags == old(tags) && OrgView() == old(OrgView()) && outcome == Ledger.NotFound && emitted == old(emitted)
      ensures old(Owned(c)) ==>
                && (OrgView(), outcome) == Ledger.AddTag(old(OrgView()), c, tags[Normalized(rawName)])
                && emitted == old(emitted) + [TagAdded(c, tags[Normalized(rawName)])]
    {
      var name := Normalized(rawName);
      if c >= |threads| || threads[c].organizationId != organizationId { return Ledger.NotFound; }
      if name !in tags {
        tags := tags[name := nextTag];
        nextTag := nextTag + 1;
      }
      var tag := tags[name];
      assert tag in TagsOf(links, c) <==> (c, tag) in links;
      if (c, tag) !in links {
        links := links + {(c, tag)};
        assert TagsOf(links, c) == TagsOf(old(links), c) + {tag};
        OneRow(threads, threads, assignees, assignees, old(links), links, organizationId, c);
        audit := audit + [Ledger.TagAdded(c, tag)];
      }
      emitted := emitted + [TagAdded(c, tag)];
      return Ledger.Done;
    }

    method RemoveTagFromConversation(c: nat, tag: nat) returns (outcome: Ledger.Outcome)
      modifies this`links, this`audit, this`emitted
      ensures (OrgView(), outcome) == Ledger.RemoveTag(old(OrgView()), c, tag)
      ensures emitted == if outcome == Ledger.Done then old(emitted) + [TagRemoved(c, tag)] else old(emitted)
    {
      if c >= |threads| || threads[c].organizationId != organizationId { return Ledger.NotFound; }
      assert tag in TagsOf(links, c) <==> (c, tag) in links;
      if (c, tag) !in links { return Ledger.NotFound; }
      links := links - {(c, tag)};
      assert TagsOf(links, c) == TagsOf(old(links), c) - {tag};
      OneRow(threads, threads, assignees, assignees, old(links), links, organizationId, c);
      audit := audit + [Ledger.TagRemoved(c, tag)];
      emitted := emitted + [TagRemoved(c, tag)];
      return Ledger.Done;
    }
  }
}

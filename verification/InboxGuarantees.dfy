/** Exactly-once announcements, and unread messages that are never lost. */
module InboxGuarantees {
  import opened Wrappers
  import opened Messages
  import opened MessageTable
  import opened WebhookPayloads
  import opened Inbox
  import opened InboxRuns
  import opened Runs

  // ----- At most one announcement -----

  ghost predicate HasInbound(db: Db, id: string) {
    exists i :: 0 <= i < |db.messages| && db.messages[i].direction == INBOUND && HasProviderId(db.messages[i], id)
  }

  /** Announced, or about to be, are only inserted messages, and none of them twice. */
  ghost predicate AnnouncedOnce(s: System) {
    && (forall i, j :: 0 <= i < j < |s.emitted| ==> s.emitted[i] != s.emitted[j])
    && (forall w :: w in s.workers && s.workers[w].Committed? ==> s.workers[w].providerMessageId !in s.emitted)
    && (forall v, w :: v in s.workers && w in s.workers && s.workers[v].Committed? && s.workers[w].Committed? && v != w ==>
          s.workers[v].providerMessageId != s.workers[w].providerMessageId)
    && (forall id :: id in s.emitted ==> HasInbound(s.db, id))
    && (forall w :: w in s.workers && s.workers[w].Committed? ==> HasInbound(s.db, s.workers[w].providerMessageId))
  }

  lemma InboundLasts(db: Db, db': Db, id: string)
    requires HasInbound(db, id) && Grows(db, db')
    ensures HasInbound(db', id)
  {
    var i :| 0 <= i < |db.messages| && db.messages[i].direction == INBOUND && HasProviderId(db.messages[i], id);
    assert db'.messages[i].direction == INBOUND && HasProviderId(db'.messages[i], id);
  }

  /** An insert happens only for a provider id that no message has, and leaves one that has it. */
  lemma InsertIsNew(db: Db, event: nat, text: TextMessage, us: seq<Arrival>, stamp: Stamp)
    requires event < |db.events| && PersistInbound(db, db.events[event], text, stamp).1.Some?
    ensures !HasInbound(db, text.providerMessageId)
    ensures HasInbound(ProcessEvent(db, event, Some(text), us, stamp), text.providerMessageId)
  {
    var db1 := PersistInbound(db, db.events[event], text, stamp).0;
    var own := Own(db1.conversations, db.events[event].organizationId);
    FoldTableIdentity(db1.messages, us, own, |db.messages|);
    var db2 := ProcessEvent(db, event, Some(text), us, stamp);
    assert db2.messages[|db.messages|].direction == INBOUND && HasProviderId(db2.messages[|db.messages|], text.providerMessageId);
  }

  /** One step announces what a worker had to announce, or gives one worker a new insert to announce. */
  ghost predicate AnnounceStep(s: System, s': System) {
    || (s'.emitted == s.emitted && forall w :: w in s'.workers && s'.workers[w].Committed? ==> w in s.workers && s'.workers[w] == s.workers[w])
    || (exists v :: v in s.workers && s.workers[v].Committed? && s'.emitted == s.emitted + [s.workers[v].providerMessageId] && s'.workers == s.workers - {v})
    || (s'.emitted == s.emitted
        && exists v :: v in s'.workers && s'.workers[v].Committed? && s'.workers == s.workers[v := s'.workers[v]]
                       && !HasInbound(s.db, s'.workers[v].providerMessageId) && HasInbound(s'.db, s'.workers[v].providerMessageId))
  }

  lemma StepAnnounces(s: System, step: Step)
    requires Enabled(s, step)
    ensures AnnounceStep(s, Next(s, step))
  {
    if step.Transact? {
      var event := s.workers[step.worker].event;
      var text := TextOf(s.db.events[event]);
      if text.Some? && PersistInbound(s.db, s.db.events[event], text.value, step.stamp).1.Some? {
        InsertIsNew(s.db, event, text.value, Arrivals(StatusesOf(s.db.events[event], step.parse), step.clock), step.stamp);
      }
    }
  }

  lemma AnnouncedOnceKept(s: System, s': System)
    requires AnnouncedOnce(s) && AnnounceStep(s, s') && forall id :: HasInbound(s.db, id) ==> HasInbound(s'.db, id)
    ensures AnnouncedOnce(s')
  {
  }

  lemma AnnouncedOnceStep(s: System, step: Step)
    requires Stored(s) && AnnouncedOnce(s) && Enabled(s, step)
    ensures AnnouncedOnce(Next(s, step))
  {
    var s' := Next(s, step);
    StoredStep(s, step);
    forall id | HasInbound(s.db, id) ensures HasInbound(s'.db, id) { InboundLasts(s.db, s'.db, id); }
    StepAnnounces(s, step);
    AnnouncedOnceKept(s, s');
  }

  /** However often an event is redelivered, retried or queued, each message is announced at most once. */
  lemma AnnouncedOnceRun(trace: seq<(Step, System)>)
    requires IsTrace(IsStep, Empty, trace)
    ensures var emitted := End(Empty, trace).emitted;
            (forall i, j :: 0 <= i < j < |emitted| ==> emitted[i] != emitted[j])
            && forall id :: id in emitted ==> HasInbound(End(Empty, trace).db, id)
  {
    forall a, l, b | Stored(a) && AnnouncedOnce(a) && IsStep(a, l, b) ensures Stored(b) && AnnouncedOnce(b) {
      StoredStep(a, l);
      AnnouncedOnceStep(a, l);
    }
    Invariant((t: System) => Stored(t) && AnnouncedOnce(t), IsStep, Empty, trace);
  }

  // ----- Unread is never lost -----

  /** The clock that stamps `updatedAt` is ahead of every row. */
  ghost predicate Ahead(db: Db, at: Time) {
    forall c :: 0 <= c < |db.conversations| ==> db.conversations[c].updatedAt < at
  }

  ghost predicate Ticks(s: System, step: Step) {
    match step
    case Transact(_, _, _, stamp) => Ahead(s.db, stamp.updatedAt)
    case Send(_, _, stamp) => Ahead(s.db, stamp.updatedAt)
    case Touch(_, _, at) => Ahead(s.db, at)
    case Reset(_, at) => Ahead(s.db, at)
    case _ => true
  }

  /** A conversation that looks as old as the reader saw it has exactly the messages the reader got. */
  ghost predicate ReaderConsistent(db: Db, reader: Reader) {
    && reader.conversation < |db.conversations|
    && reader.updatedAt <= db.conversations[reader.conversation].updatedAt
    && (reader.Loaded? && db.conversations[reader.conversation].updatedAt == reader.updatedAt ==> reader.list == RowsOf(db, reader.conversation))
  }

  ghost predicate Consistent(s: System) {
    forall r :: r in s.readers ==> ReaderConsistent(s.db, s.readers[r])
  }

  /** A conversation either has the same messages and time stamp, or a later time stamp. */
  ghost predicate Advances(db: Db, db': Db) {
    |db.conversations| <= |db'.conversations|
    && forall c :: 0 <= c < |db.conversations| ==>
         || db'.conversations[c].updatedAt > db.conversations[c].updatedAt
         || (db'.conversations[c].updatedAt == db.conversations[c].updatedAt && RowsOf(db', c) == RowsOf(db, c))
  }

  lemma ProcessAdvances(db: Db, event: nat, text: Option<TextMessage>, us: seq<Arrival>, stamp: Stamp)
    requires event < |db.events| && Ahead(db, stamp.updatedAt)
    ensures Advances(db, ProcessEvent(db, event, text, us, stamp))
  {
    var e := db.events[event];
    var db1 := if text.Some? then PersistInbound(db, e, text.value, stamp).0 else db;
    var db' := ProcessEvent(db, event, text, us, stamp);
    forall i | 0 <= i < |db1.messages| ensures db'.messages[i].conversation == db1.messages[i].conversation {
      FoldTableIdentity(db1.messages, us, Own(db1.conversations, e.organizationId), i);
    }
    assert forall c :: RowsOf(db', c) == RowsOf(db1, c);
    assert forall c :: 0 <= c < |db.conversations| && db1.conversations[c].updatedAt == db.conversations[c].updatedAt ==> RowsOf(db1, c) == RowsOf(db, c);
  }

  lemma SendAdvances(db: Db, c: nat, body: string, stamp: Stamp)
    requires c < |db.conversations| && Ahead(db, stamp.updatedAt)
    ensures Advances(db, CreateOutbound(db, c, body, stamp))
  {
    assert forall other :: other != c ==> RowsOf(CreateOutbound(db, c, body, stamp), other) == RowsOf(db, other);
  }

  lemma SamePlacesAdvance(db: Db, db': Db)
    requires |db'.messages| == |db.messages| && forall i :: 0 <= i < |db.messages| ==> db'.messages[i].conversation == db.messages[i].conversation
    requires |db'.conversations| == |db.conversations|
    requires forall c :: 0 <= c < |db.conversations| ==> db'.conversations[c].updatedAt >= db.conversations[c].updatedAt
    ensures Advances(db, db')
  {
    assert forall c :: RowsOf(db', c) == RowsOf(db, c);
  }

  lemma StepAdvances(s: System, step: Step)
    requires Enabled(s, step) && Ticks(s, step)
    ensures Advances(s.db, Next(s, step).db)
  {
    match step {
      case Transact(w, parse, clock, stamp) =>
        var e := s.db.events[s.workers[w].event];
        ProcessAdvances(s.db, s.workers[w].event, TextOf(e), Arrivals(StatusesOf(e, parse), clock), stamp);
      case Send(c, body, stamp) => SendAdvances(s.db, c, body, stamp);
      case _ => SamePlacesAdvance(s.db, Next(s, step).db);
    }
  }

  /** A reader as it was, newly opened, or with what it has just loaded. */
  ghost predicate ReaderStep(s: System, s': System, r: nat)
    requires r in s'.readers
  {
    || (r in s.readers && s'.readers[r] == s.readers[r])
    || (s'.db == s.db && exists c :: 0 <= c < |s.db.conversations| && s'.readers[r] == Opened(c, s.db.conversations[c].isUnread, s.db.conversations[c].updatedAt))
    || (s'.db == s.db && r in s.readers
        && s'.readers[r] == Loaded(s.readers[r].conversation, s.readers[r].isUnread, s.readers[r].updatedAt, RowsOf(s.db, s.readers[r].conversation)))
  }

  lemma StepReads(s: System, step: Step)
    requires Enabled(s, step)
    ensures forall r :: r in Next(s, step).readers ==> ReaderStep(s, Next(s, step), r)
  {
  }

  lemma ConsistentStep(s: System, step: Step)
    requires Consistent(s) && Enabled(s, step) && Ticks(s, step)
    ensures Consistent(Next(s, step))
  {
    var s' := Next(s, step);
    StepAdvances(s, step);
    StepReads(s, step);
    forall r | r in s'.readers ensures ReaderConsistent(s'.db, s'.readers[r]) {
      assert ReaderStep(s, s', r);
      if r in s.readers { assert ReaderConsistent(s.db, s.readers[r]); }
    }
  }

  /** A reset that succeeds had returned every message committed so far. */
  lemma ResetSawEverything(s: System, r: nat)
    requires Consistent(s) && r in s.readers && s.readers[r].Loaded? && s.readers[r].conversation < |s.db.conversations|
    requires ResetApplies(s.db.conversations[s.readers[r].conversation], s.readers[r])
    ensures s.readers[r].list == RowsOf(s.db, s.readers[r].conversation)
  {
  }

  /** An inbound message of a conversation that is not unread was returned by a successful reset, or
      an agent has written after it. */
  ghost predicate Covered(s: System, i: nat)
    requires i < |s.db.messages|
  {
    i in s.seen || exists j :: i < j < |s.db.messages| && s.db.messages[j].direction == OUTBOUND && s.db.messages[j].conversation == s.db.messages[i].conversation
  }

  ghost predicate NothingLost(s: System) {
    forall i :: 0 <= i < |s.db.messages| && Read(s.db, i) ==> Covered(s, i)
  }

  /** An inbound message in a conversation that is not unread. */
  ghost predicate Read(db: Db, i: nat)
    requires i < |db.messages|
  {
    var m := db.messages[i];
    m.direction == INBOUND && m.conversation < |db.conversations| && !db.conversations[m.conversation].isUnread
  }

  /** Rows keep their place, and a conversation that stops being unread is covered. */
  lemma CoveredLasts(s: System, s': System, i: nat)
    requires i < |s.db.messages| && Grows(s.db, s'.db) && s.seen <= s'.seen && Covered(s, i)
    ensures Covered(s', i)
  {
    if i !in s.seen {
      var j :| i < j < |s.db.messages| && s.db.messages[j].direction == OUTBOUND && s.db.messages[j].conversation == s.db.messages[i].conversation;
      assert s'.db.messages[j].direction == OUTBOUND;
    }
  }

  /** Why an inbound message is in a conversation that is not unread: it was before, an agent has just
      written, or a reset has just succeeded. */
  ghost predicate ReadBecause(s: System, step: Step, i: nat)
    requires Enabled(s, step) && i < |Next(s, step).db.messages|
  {
    var c := Next(s, step).db.messages[i].conversation;
    && i < |s.db.messages|
    && (Read(s.db, i)
        || (step.Send? && step.conversation == c && Next(s, step).db != s.db)
        || (step.Reset? && s.readers[step.reader].conversation == c && s.db.messages[i].conversation == c
            && ResetApplies(s.db.conversations[c], s.readers[step.reader])))
  }

  lemma WhyRead(s: System, step: Step, i: nat)
    requires Stored(s) && Enabled(s, step) && Grows(s.db, Next(s, step).db)
    requires i < |Next(s, step).db.messages| && Read(Next(s, step).db, i)
    ensures ReadBecause(s, step, i)
  {
    if step.Transact? { TransactKeepsRead(s, step, Next(s, step).db.messages[i].conversation); }
  }

  lemma NothingLostStep(s: System, step: Step)
    requires Stored(s) && Consistent(s) && NothingLost(s) && Enabled(s, step)
    ensures NothingLost(Next(s, step))
  {
    var s' := Next(s, step);
    StoredStep(s, step);
    forall i | 0 <= i < |s'.db.messages| && Read(s'.db, i) ensures Covered(s', i) {
      WhyRead(s, step, i);
      if Read(s.db, i) {
        CoveredLasts(s, s', i);
      } else if step.Send? {
        WrittenCovers(s, step, i);
      } else {
        ResetCovers(s, step, i);
      }
    }
  }

  lemma WrittenCovers(s: System, step: Step, i: nat)
    requires Enabled(s, step) && step.Send? && i < |s.db.messages| && Next(s, step).db != s.db
    requires s.db.messages[i].conversation == step.conversation
    ensures Covered(Next(s, step), i)
  {
    var s' := Next(s, step);
    assert s'.db.messages[|s.db.messages|].direction == OUTBOUND && s'.db.messages[|s.db.messages|].conversation == step.conversation;
  }

  lemma ResetCovers(s: System, step: Step, i: nat)
    requires Consistent(s) && Enabled(s, step) && step.Reset? && i < |s.db.messages|
    requires s.db.messages[i].conversation == s.readers[step.reader].conversation
    requires ResetApplies(s.db.conversations[s.readers[step.reader].conversation], s.readers[step.reader])
    ensures Covered(Next(s, step), i)
  {
    ResetSawEverything(s, step.reader);
    assert i in RowsOf(s.db, s.readers[step.reader].conversation);
  }

  /** The inbound transaction marks a conversation unread with every message that it inserts. */
  lemma TransactKeepsRead(s: System, step: Step, c: nat)
    requires Enabled(s, step) && step.Transact? && Constraints(s.db) && c < |Next(s, step).db.conversations|
    requires !Next(s, step).db.conversations[c].isUnread
    ensures c < |s.db.conversations| && !s.db.conversations[c].isUnread
    ensures forall i :: |s.db.messages| <= i < |Next(s, step).db.messages| ==> Next(s, step).db.messages[i].conversation != c
  {
    var event := s.workers[step.worker].event;
    var e := s.db.events[event];
    var text := TextOf(e);
    var db1 := if text.Some? then PersistInbound(s.db, e, text.value, step.stamp).0 else s.db;
    forall i | 0 <= i < |db1.messages| ensures Next(s, step).db.messages[i].conversation == db1.messages[i].conversation {
      FoldTableIdentity(db1.messages, Arrivals(StatusesOf(e, step.parse), step.clock), Own(db1.conversations, e.organizationId), i);
    }
  }

  /** Over every run in which `updatedAt` grows with each write, under any interleaving of readers,
      inbound and outbound transactions: nothing unread is ever lost. */
  lemma NothingLostRun(trace: seq<(Step, System)>)
    requires IsTrace((a: System, l: Step, b: System) => IsStep(a, l, b) && Ticks(a, l), Empty, trace)
    ensures NothingLost(End(Empty, trace)) && Consistent(End(Empty, trace))
  {
    var step := (a: System, l: Step, b: System) => IsStep(a, l, b) && Ticks(a, l);
    forall a, l, b | Stored(a) && Consistent(a) && NothingLost(a) && step(a, l, b) ensures Stored(b) && Consistent(b) && NothingLost(b) {
      StoredStep(a, l);
      ConsistentStep(a, l);
      NothingLostStep(a, l);
    }
    Invariant((t: System) => Stored(t) && Consistent(t) && NothingLost(t), step, Empty, trace);
  }

  /** So whenever a reset is about to succeed, its reader has got every message committed so far. */
  lemma ResetSawEverythingRun(trace: seq<(Step, System)>, r: nat)
    requires IsTrace((a: System, l: Step, b: System) => IsStep(a, l, b) && Ticks(a, l), Empty, trace)
    requires r in End(Empty, trace).readers && End(Empty, trace).readers[r].Loaded?
    ensures var s := End(Empty, trace);
            var c := s.readers[r].conversation;
            c < |s.db.conversations| && (ResetApplies(s.db.conversations[c], s.readers[r]) ==> s.readers[r].list == RowsOf(s.db, c))
  {
    NothingLostRun(trace);
    assert ReaderConsistent(End(Empty, trace).db, End(Empty, trace).readers[r]);
  }

  /** The growing time stamp is what protects the reader: a message inserted between its second
      query and its reset is missing from its list, and the reset still applies exactly if the
      insert left the time stamp as it was. */
  lemma TiedStampIsTheHole(db: Db, reader: Reader, text: TextMessage, stamp: Stamp)
    requires reader.Loaded? && reader.isUnread && reader.conversation < |db.conversations|
    requires reader.updatedAt == db.conversations[reader.conversation].updatedAt && reader.list == RowsOf(db, reader.conversation)
    requires FindMessage(db, text.providerMessageId).None?
    ensures var db' := InsertInbound(db, reader.conversation, text, stamp).0;
            && (ResetApplies(db'.conversations[reader.conversation], reader) <==> stamp.updatedAt == reader.updatedAt)
            && |db.messages| in RowsOf(db', reader.conversation) && |db.messages| !in reader.list
  {
  }
}

/** The message table under a batch of status reports, and the invariant of a message row. */
module MessageTable {
  import opened Wrappers
  import opened Messages

  /** The row that `findFirst` looks for: outbound, with that provider id, in one of the organization's conversations. */
  predicate Targets(m: Message, providerMessageId: string, own: set<nat>) {
    m.direction == OUTBOUND && m.providerMessageId == Some(providerMessageId) && m.conversation in own
  }

  /** The unique index on providerMessageId. */
  ghost predicate UniqueProviderIds(t: seq<Message>) {
    forall i, j :: 0 <= i < j < |t| && t[i].providerMessageId.Some? ==> t[i].providerMessageId != t[j].providerMessageId
  }

  function ApplyToTable(t: seq<Message>, a: Arrival, own: set<nat>): (r: seq<Message>)
    ensures |r| == |t|
  {
    seq(|t|, i requires 0 <= i < |t| => if Targets(t[i], a.update.providerMessageId, own) then Apply(t[i], a) else t[i])
  }

  function FoldTable(t: seq<Message>, us: seq<Arrival>, own: set<nat>): (r: seq<Message>)
    ensures |r| == |t|
    decreases |us|
  {
    if us == [] then t else FoldTable(ApplyToTable(t, us[0], own), us[1..], own)
  }

  /** The reports of a batch that are about one provider id, in order. */
  function About(us: seq<Arrival>, providerMessageId: string): seq<Arrival> {
    if us == [] then []
    else (if us[0].update.providerMessageId == providerMessageId then [us[0]] else []) + About(us[1..], providerMessageId)
  }

  /** A batch decomposes: each row is folded over its own reports, and no other row moves. */
  lemma {:induction false} BatchDecomposes(t: seq<Message>, us: seq<Arrival>, own: set<nat>, i: nat)
    requires i < |t|
    ensures FoldTable(t, us, own)[i] ==
            if t[i].direction == OUTBOUND && t[i].providerMessageId.Some? && t[i].conversation in own
            then Fold(t[i], About(us, t[i].providerMessageId.value)) else t[i]
    decreases |us|
  {
    if us != [] {
      var t' := ApplyToTable(t, us[0], own);
      BatchDecomposes(t', us[1..], own, i);
      if t[i].providerMessageId.Some? {
        var id := t[i].providerMessageId.value;
        if us[0].update.providerMessageId == id {
          assert About(us, id)[1..] == About(us[1..], id);
        } else {
          assert About(us, id) == About(us[1..], id);
        }
      }
    }
  }

  lemma {:induction false} AboutSame(us: seq<Arrival>, vs: seq<Arrival>, id: string)
    requires SameUpdates(us, vs) && AllReported(us)
    ensures SameUpdates(About(us, id), About(vs, id)) && AllReported(About(us, id))
    decreases |us|
  {
    if us != [] {
      AboutSame(us[1..], vs[1..], id);
    }
  }

  /** For any list of timestamped reports over any number of messages, processing it twice leaves
      every field of every message as processing it once does. */
  lemma BatchIdempotent(t: seq<Message>, us: seq<Arrival>, vs: seq<Arrival>, own: set<nat>)
    requires AllReported(us) && SameUpdates(us, vs)
    requires forall i :: 0 <= i < |t| ==> Record(t[i])
    ensures FoldTable(FoldTable(t, us, own), vs, own) == FoldTable(t, us, own)
  {
    var once := FoldTable(t, us, own);
    var twice := FoldTable(once, vs, own);
    forall i | 0 <= i < |t| ensures twice[i] == once[i] {
      BatchDecomposes(t, us, own, i);
      BatchDecomposes(once, vs, own, i);
      if t[i].direction == OUTBOUND && t[i].providerMessageId.Some? && t[i].conversation in own {
        var id := t[i].providerMessageId.value;
        AboutSame(us, vs, id);
        FoldIdentity(t[i], About(us, id));
        FoldIdempotent(t[i], About(us, id), About(vs, id));
      }
    }
  }

  /** Reports never touch what identifies a row, nor its text. */
  lemma {:induction false} FoldIdentity(m: Message, us: seq<Arrival>)
    ensures SameIdentity(m, Fold(m, us))
    decreases |us|
  {
    if us != [] { FoldIdentity(Apply(m, us[0]), us[1..]); }
  }

  ghost predicate SameIdentity(m: Message, n: Message) {
    m.direction == n.direction && m.body == n.body && m.providerMessageId == n.providerMessageId
    && m.conversation == n.conversation && m.createdAt == n.createdAt
  }

  lemma FoldTableIdentity(t: seq<Message>, us: seq<Arrival>, own: set<nat>, i: nat)
    requires i < |t|
    ensures SameIdentity(t[i], FoldTable(t, us, own)[i])
  {
    BatchDecomposes(t, us, own, i);
    if t[i].providerMessageId.Some? { FoldIdentity(t[i], About(us, t[i].providerMessageId.value)); }
  }

  // ----- When a batch changes nothing -----

  /** The row cannot be moved by the reports that are about it. */
  ghost predicate Absorbs(m: Message, us: seq<Arrival>, own: set<nat>) {
    m.direction == OUTBOUND && m.providerMessageId.Some? && m.conversation in own ==>
      RefusesAll(m.deliveryStatus, About(us, m.providerMessageId.value)) || Restored(m, About(us, m.providerMessageId.value))
  }

  lemma {:induction false} AboutReported(us: seq<Arrival>, id: string)
    requires AllReported(us)
    ensures AllReported(About(us, id))
    decreases |us|
  {
    if us != [] { AboutReported(us[1..], id); }
  }

  /** A batch changes nothing exactly if no row of the table can be moved by it. */
  lemma BatchNoopExactly(t: seq<Message>, us: seq<Arrival>, own: set<nat>)
    requires AllReported(us) && forall i :: 0 <= i < |t| ==> Record(t[i])
    ensures FoldTable(t, us, own) == t <==> forall i :: 0 <= i < |t| ==> Absorbs(t[i], us, own)
  {
    var folded := FoldTable(t, us, own);
    forall i | 0 <= i < |t| ensures folded[i] == t[i] <==> Absorbs(t[i], us, own) {
      BatchDecomposes(t, us, own, i);
      if t[i].providerMessageId.Some? {
        AboutReported(us, t[i].providerMessageId.value);
        FoldNoopExactly(t[i], About(us, t[i].providerMessageId.value));
      }
    }
  }

  // ----- The invariant of one row -----

  /** FAILED exactly if the failure fields are set; a later status implies the times of the earlier ones. */
  ghost predicate Record(m: Message) {
    && (m.deliveryStatus == Some(FAILED) <==> m.failedAt.Some?)
    && (m.deliveryStatus == Some(FAILED) <==> m.providerError.Some?)
    && (m.deliveryStatus == Some(SENT) ==> m.sentAt.Some?)
    && (m.deliveryStatus == Some(DELIVERED) ==> m.sentAt.Some? && m.deliveredAt.Some?)
    && (m.deliveryStatus == Some(READ) ==> m.sentAt.Some? && m.deliveredAt.Some? && m.readAt.Some?)
  }

  /** Once set, the delivery and read times never change. */
  ghost predicate WriteOnce(m: Message, n: Message) {
    (m.deliveredAt.Some? ==> n.deliveredAt == m.deliveredAt) && (m.readAt.Some? ==> n.readAt == m.readAt)
  }

  lemma {:induction false} FoldKeepsRecord(m: Message, us: seq<Arrival>)
    requires Record(m) && AllReported(us)
    ensures Record(Fold(m, us)) && WriteOnce(m, Fold(m, us))
    decreases |us|
  {
    if us != [] { FoldKeepsRecord(Apply(m, us[0]), us[1..]); }
  }
}

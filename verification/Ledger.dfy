/**
 One organization's members, invitations and conversations with its audit log, and the replay of
 that log.
 */
module Ledger {
  import opened Wrappers
  import opened Runs
  import Inbox

  type Time = int

  datatype Role = OWNER | AGENT
  type Status = Inbox.ConversationStatus

  datatype Membership = Membership(user: nat, role: Role)
  datatype Conversation = Conversation(assignee: Option<nat>, status: Status, tags: set<nat>)
  datatype Invitation = Invitation(email: string, role: Role, expiresAt: Time, accepted: bool, revoked: bool)

  /** An audit row: its action with the metadata that goes with it. */
  datatype Entry =
    | BootstrapCompleted(owner: nat)
    | OwnerRecovered(owner: nat)
    | Assigned(conversation: nat, assignedTo: nat)
    | Unassigned(conversation: nat)
    | StatusChanged(conversation: nat, fromStatus: Status, toStatus: Status)   // conversation.resolved, conversation.reopened
    | TagAdded(conversation: nat, tag: nat)
    | TagRemoved(conversation: nat, tag: nat)
    | InviteCreated(invitation: nat, email: string, role: Role)
    | InviteRevoked(invitation: nat)
    | InviteAccepted(invitation: nat, user: nat, role: Role)
    | RoleChanged(membership: nat, user: nat, previousRole: Role, newRole: Role)
    | MemberRemoved(membership: nat, user: nat)

  /** `nextMember` and `nextInvitation` are ids that no row has had yet. */
  datatype Org = Org(
    conversations: map<nat, Conversation>,
    members: map<nat, Membership>,
    invitations: map<nat, Invitation>,
    audit: seq<Entry>,
    nextMember: nat,
    nextInvitation: nat)

  datatype Outcome = Done | NotFound | BadRequest | Forbidden | Conflict | ForeignKeyViolation

  // ----- Members -----

  ghost predicate IsOwner(members: map<nat, Membership>, user: nat) {
    exists m :: m in members && members[m] == Membership(user, OWNER)
  }

  ghost predicate IsMember(members: map<nat, Membership>, user: nat) {
    exists m :: m in members && members[m].user == user
  }

  ghost function Owners(members: map<nat, Membership>): set<nat> {
    set m | m in members && members[m].role == OWNER
  }

  /** `getActorMembership` and `assertOwner`, then the target checks shared by both member operations. */
  ghost function CheckTarget(o: Org, actor: nat, target: nat, losesOwner: bool): Outcome {
    if !IsOwner(o.members, actor) then Forbidden
    else if target !in o.members then NotFound
    else if o.members[target].user == actor then BadRequest
    else if losesOwner && o.members[target].role == OWNER && |Owners(o.members)| <= 1 then BadRequest
    else Done
  }

  ghost function UpdateMemberRole(o: Org, actor: nat, target: nat, role: Role): (Org, Outcome) {
    var outcome := CheckTarget(o, actor, target, role == AGENT);
    if outcome != Done then (o, outcome)
    else
      var m := o.members[target];
      (o.(members := o.members[target := m.(role := role)],
          audit := o.audit + [RoleChanged(target, m.user, m.role, role)]), Done)
  }

  function Unassign(conversations: map<nat, Conversation>, membership: nat): map<nat, Conversation> {
    map c | c in conversations ::
      if conversations[c].assignee == Some(membership) then conversations[c].(assignee := None) else conversations[c]
  }

  ghost function RemoveMember(o: Org, actor: nat, target: nat): (Org, Outcome) {
    var outcome := CheckTarget(o, actor, target, true);
    if outcome != Done then (o, outcome)
    else
      (o.(conversations := Unassign(o.conversations, target),
          members := o.members - {target},
          audit := o.audit + [MemberRemoved(target, o.members[target].user)]), Done)
  }

  // ----- Invitations -----

  predicate Pending(i: Invitation) {
    !i.accepted && !i.revoked
  }

  /** Pending invitations of that address that have expired are revoked first. */
  function RevokeExpired(invitations: map<nat, Invitation>, email: string, now: Time): map<nat, Invitation> {
    map i | i in invitations ::
      if invitations[i].email == email && Pending(invitations[i]) && invitations[i].expiresAt <= now
      then invitations[i].(revoked := true) else invitations[i]
  }

  const INVITE_EXPIRY_MS := 7 * 24 * 60 * 60 * 1000

  /** `known` is the address's existing membership with whether the account has a password. */
  ghost function CreateInvite(o: Org, actor: nat, email: string, role: Role, known: Option<(Role, bool)>, now: Time): (Org, Outcome) {
    var invitations := RevokeExpired(o.invitations, email, now);
    if !IsOwner(o.members, actor) then (o, Forbidden)
    else if known.Some? && known.value.1 then (o, BadRequest)
    else if exists i :: i in invitations && invitations[i].email == email && Pending(invitations[i]) then (o, BadRequest)
    else
      var granted := if known.Some? then known.value.0 else role;
      (o.(invitations := invitations[o.nextInvitation := Invitation(email, granted, now + INVITE_EXPIRY_MS, false, false)],
          nextInvitation := o.nextInvitation + 1,
          audit := o.audit + [InviteCreated(o.nextInvitation, email, granted)]), Done)
  }

  /** A revocation whose request has found the invitation pending, when the log had `at` rows. */
  datatype Revocation = Revocation(invitation: nat, at: nat)

  /** The reads of `revokeInvite`. */
  ghost function ReadRevocation(o: Org, actor: nat, invitation: nat): (Option<Revocation>, Outcome) {
    if !IsOwner(o.members, actor) then (None, Forbidden)
    else if invitation !in o.invitations || !Pending(o.invitations[invitation]) then (None, NotFound)
    else (Some(Revocation(invitation, |o.audit|)), Done)
  }

  /** Its write, which is not guarded. */
  function WriteRevocation(o: Org, invitation: nat): Org
    requires invitation in o.invitations
  {
    o.(invitations := o.invitations[invitation := o.invitations[invitation].(revoked := true)],
       audit := o.audit + [InviteRevoked(invitation)])
  }

  ghost function RevokeInvite(o: Org, actor: nat, invitation: nat): (Org, Outcome) {
    var (r, outcome) := ReadRevocation(o, actor, invitation);
    (if r.Some? then WriteRevocation(o, invitation) else o, outcome)
  }

  /** `acceptInvite` once the account behind the address, `user`, is settled. */
  ghost function AcceptInvite(o: Org, invitation: nat, user: nat, now: Time): (Org, Outcome) {
    if invitation !in o.invitations || !Pending(o.invitations[invitation]) || o.invitations[invitation].expiresAt <= now then (o, BadRequest)
    else
      var i := o.invitations[invitation];
      (Admit(o, user, i.role).(invitations := o.invitations[invitation := i.(accepted := true)],
                               audit := o.audit + [InviteAccepted(invitation, user, i.role)]), Done)
  }

  /** The membership upsert; a member keeps the role he has. */
  ghost function Admit(o: Org, user: nat, role: Role): Org {
    if IsMember(o.members, user) then o
    else o.(members := o.members[o.nextMember := Membership(user, role)], nextMember := o.nextMember + 1)
  }

  // ----- Conversations -----

  /** The assignment a request has read and checked, and is about to write. */
  datatype Assignment = Assignment(conversation: nat, expected: Option<nat>, target: Option<nat>, targetUser: nat)

  /** The reads of `assignConversation`; no assignment if there is nothing to write. */
  function ReadAssignment(o: Org, conversation: nat, target: Option<nat>): (Option<Assignment>, Outcome) {
    if conversation !in o.conversations then (None, NotFound)
    else if target.Some? && target.value !in o.members then (None, BadRequest)
    else if o.conversations[conversation].assignee == target then (None, Done)
    else
      (Some(Assignment(conversation, o.conversations[conversation].assignee, target,
                       if target.Some? then o.members[target.value].user else 0)), Done)
  }

  /** The guarded write. The foreign key refuses a membership that is gone by now. */
  function WriteAssignment(o: Org, a: Assignment): (Org, Outcome) {
    if a.conversation !in o.conversations then (o, NotFound)
    else
      var current := o.conversations[a.conversation].assignee;
      if current != a.expected then (o, if current == a.target then Done else Conflict)
      else if a.target.Some? && a.target.value !in o.members then (o, ForeignKeyViolation)
      else
        (o.(conversations := o.conversations[a.conversation := o.conversations[a.conversation].(assignee := a.target)],
            audit := o.audit + [if a.target.Some? then Assigned(a.conversation, a.targetUser) else Unassigned(a.conversation)]), Done)
  }

  /** A status change whose request has read another status, and is about to write. */
  datatype StatusWrite = StatusWrite(conversation: nat, seen: Status, status: Status)

  function ReadStatus(o: Org, conversation: nat, status: Status): (Option<StatusWrite>, Outcome) {
    if conversation !in o.conversations then (None, NotFound)
    else if o.conversations[conversation].status == status then (None, Done)
    else (Some(StatusWrite(conversation, o.conversations[conversation].status, status)), Done)
  }

  /** The write is not guarded, and the audit row names the status that was read. */
  function WriteStatus(o: Org, w: StatusWrite): Org {
    if w.conversation !in o.conversations then o
    else
      o.(conversations := o.conversations[w.conversation := o.conversations[w.conversation].(status := w.status)],
         audit := o.audit + [StatusChanged(w.conversation, w.seen, w.status)])
  }

  function UpdateStatus(o: Org, conversation: nat, status: Status): (Org, Outcome) {
    var (w, outcome) := ReadStatus(o, conversation, status);
    (if w.Some? then WriteStatus(o, w.value) else o, outcome)
  }

  function AddTag(o: Org, conversation: nat, tag: nat): (Org, Outcome) {
    if conversation !in o.conversations then (o, NotFound)
    else
      var c := o.conversations[conversation];
      if tag in c.tags then (o, Done)
      else
        (o.(conversations := o.conversations[conversation := c.(tags := c.tags + {tag})],
            audit := o.audit + [TagAdded(conversation, tag)]), Done)
  }

  function RemoveTag(o: Org, conversation: nat, tag: nat): (Org, Outcome) {
    if conversation !in o.conversations || tag !in o.conversations[conversation].tags then (o, NotFound)
    else
      var c := o.conversations[conversation];
      (o.(conversations := o.conversations[conversation := c.(tags := c.tags - {tag})],
          audit := o.audit + [TagRemoved(conversation, tag)]), Done)
  }

  /** `bootstrapOwner` creates the organization with its first member. */
  function Bootstrap(user: nat): Org {
    Org(map[], map[0 := Membership(user, OWNER)], map[], [BootstrapCompleted(user)], 1, 0)
  }

  // ----- Replay -----

  /** What the audit log says, keyed by user and conversation. */
  datatype Replay = Replay(
    roles: map<nat, Role>,
    assignees: map<nat, nat>,
    statuses: map<nat, Status>,
    tags: map<nat, set<nat>>)

  function TagsOf(r: Replay, c: nat): set<nat> {
    if c in r.tags then r.tags[c] else {}
  }

  function StatusOf(r: Replay, c: nat): Status {
    if c in r.statuses then r.statuses[c] else Inbox.OPEN
  }

  function ReplayEntry(r: Replay, e: Entry): Replay {
    match e
    case BootstrapCompleted(owner) => r.(roles := r.roles[owner := OWNER])
    case OwnerRecovered(_) => r
    case Assigned(c, user) => r.(assignees := r.assignees[c := user])
    case Unassigned(c) => r.(assignees := r.assignees - {c})
    case StatusChanged(c, _, to) => r.(statuses := r.statuses[c := to])
    case TagAdded(c, t) => r.(tags := r.tags[c := TagsOf(r, c) + {t}])
    case TagRemoved(c, t) => r.(tags := r.tags[c := TagsOf(r, c) - {t}])
    case InviteCreated(_, _, _) => r
    case InviteRevoked(_) => r
    case InviteAccepted(_, user, role) => if user in r.roles then r else r.(roles := r.roles[user := role])
    case RoleChanged(_, user, _, role) => r.(roles := r.roles[user := role])
    case MemberRemoved(_, user) =>
      r.(roles := r.roles - {user}, assignees := map c | c in r.assignees && r.assignees[c] != user :: r.assignees[c])
  }

  function ReplayAll(audit: seq<Entry>): Replay {
    if audit == [] then Replay(map[], map[], map[], map[])
    else ReplayEntry(ReplayAll(audit[..|audit| - 1]), audit[|audit| - 1])
  }

  lemma ReplayAppend(audit: seq<Entry>, e: Entry)
    ensures ReplayAll(audit + [e]) == ReplayEntry(ReplayAll(audit), e)
  {
    assert (audit + [e])[..|audit|] == audit;
  }

  // ----- The log tells the state -----

  /** One membership per user, and ids are not reused. */
  ghost predicate MembersSound(members: map<nat, Membership>, next: nat) {
    && (forall m, n :: m in members && n in members && members[m].user == members[n].user ==> m == n)
    && (forall m :: m in members ==> m < next)
  }

  ghost predicate RolesTold(members: map<nat, Membership>, roles: map<nat, Role>) {
    && (forall m :: m in members ==> members[m].user in roles && roles[members[m].user] == members[m].role)
    && (forall user :: user in roles ==> IsMember(members, user))
  }

  ghost predicate ConversationTold(members: map<nat, Membership>, conversation: Conversation, r: Replay, c: nat) {
    && conversation.status == StatusOf(r, c)
    && conversation.tags == TagsOf(r, c)
    && match conversation.assignee
       case None => c !in r.assignees
       case Some(m) => m in members && c in r.assignees && r.assignees[c] == members[m].user
  }

  ghost predicate ConversationsTold(members: map<nat, Membership>, conversations: map<nat, Conversation>, r: Replay) {
    && (forall c :: c in conversations ==> ConversationTold(members, conversations[c], r, c))
    && (forall c :: c in r.assignees || c in r.statuses || c in r.tags ==> c in conversations)
  }

  /** Replaying the audit log yields every member's role, and the assignee, the status and the tags of
      every conversation. */
  ghost predicate Told(o: Org) {
    RolesTold(o.members, ReplayAll(o.audit).roles) && ConversationsTold(o.members, o.conversations, ReplayAll(o.audit))
  }

  /** An address has one pending invitation at most. */
  ghost predicate InvitesSound(invitations: map<nat, Invitation>, next: nat) {
    && (forall i :: i in invitations ==> i < next)
    && (forall i, j :: PendingFor(invitations, i) && PendingFor(invitations, j) && invitations[i].email == invitations[j].email ==> i == j)
  }

  ghost predicate PendingFor(invitations: map<nat, Invitation>, i: nat) {
    i in invitations && Pending(invitations[i])
  }

  // ----- Steps -----

  /** A finished revocation: the log had `from` rows when it read its invitation, `to` when it wrote. */
  datatype Window = Window(invitation: nat, from: nat, to: nat)

  /** The organization with the assignments, status changes and revocations that requests have read but
      not written, and the revocations that have been written. */
  datatype System = System(
    org: Org,
    pending: map<nat, Assignment>,
    statuses: map<nat, StatusWrite>,
    revocations: map<nat, Revocation>,
    revoked: seq<Window>)

  datatype Step =
    | CreateConversation(conversation: nat)      // by the inbound pipeline, not audited
    | BeginAssign(request: nat, conversation: nat, assignee: Option<nat>)
    | FinishAssign(request: nat)
    | BeginStatus(request: nat, conversation: nat, status: Status)
    | FinishStatus(request: nat)
    | Tag(conversation: nat, tag: nat)
    | Untag(conversation: nat, tag: nat)
    | ChangeRole(actor: nat, target: nat, role: Role)
    | Remove(actor: nat, target: nat)
    | Invite(actor: nat, email: string, role: Role, known: Option<(Role, bool)>, now: Time)
    | BeginRevoke(request: nat, actor: nat, invitation: nat)   // the membership lock keeps out other owners, not who accepts
    | FinishRevoke(request: nat)
    | Accept(invitation: nat, user: nat, now: Time)
    | RecoverOwner(user: nat)                    // sets a password and touches nothing else

  ghost predicate Enabled(s: System, step: Step) {
    match step
    case CreateConversation(c) => c !in s.org.conversations
    case BeginAssign(request, _, _) => request !in s.pending
    case FinishAssign(request) => request in s.pending
    case BeginStatus(request, _, _) => request !in s.statuses
    case FinishStatus(request) => request in s.statuses
    case BeginRevoke(request, _, _) => request !in s.revocations
    case FinishRevoke(request) => request in s.revocations && s.revocations[request].invitation in s.org.invitations
    case _ => true
  }

  function OpenConversation(o: Org, c: nat): Org {
    o.(conversations := o.conversations[c := Conversation(None, Inbox.OPEN, {})])
  }

  ghost function Next(s: System, step: Step): System
    requires Enabled(s, step)
  {
    var o := s.org;
    match step
    case CreateConversation(c) => s.(org := OpenConversation(o, c))
    case BeginAssign(request, c, target) =>
      var (a, _) := ReadAssignment(o, c, target);
      if a.Some? then s.(pending := s.pending[request := a.value]) else s
    case FinishAssign(request) => s.(org := WriteAssignment(o, s.pending[request]).0, pending := s.pending - {request})
    case BeginStatus(request, c, status) =>
      var (w, _) := ReadStatus(o, c, status);
      if w.Some? then s.(statuses := s.statuses[request := w.value]) else s
    case FinishStatus(request) => s.(org := WriteStatus(o, s.statuses[request]), statuses := s.statuses - {request})
    case Tag(c, t) => s.(org := AddTag(o, c, t).0)
    case Untag(c, t) => s.(org := RemoveTag(o, c, t).0)
    case ChangeRole(actor, target, role) => s.(org := UpdateMemberRole(o, actor, target, role).0)
    case Remove(actor, target) => s.(org := RemoveMember(o, actor, target).0)
    case Invite(actor, email, role, known, now) => s.(org := CreateInvite(o, actor, email, role, known, now).0)
    case BeginRevoke(request, actor, i) =>
      var (r, _) := ReadRevocation(o, actor, i);
      if r.Some? then s.(revocations := s.revocations[request := r.value]) else s
    case FinishRevoke(request) =>
      var r := s.revocations[request];
      s.(org := WriteRevocation(o, r.invitation), revocations := s.revocations - {request},
         revoked := s.revoked + [Window(r.invitation, r.at, |o.audit|)])
    case Accept(i, user, now) => s.(org := AcceptInvite(o, i, user, now).0)
    case RecoverOwner(user) => s.(org := o.(audit := o.audit + [OwnerRecovered(user)]))
  }

  ghost predicate IsStep(s: System, step: Step, s': System) {
    Enabled(s, step) && s' == Next(s, step)
  }

  /** A pending assignment still names its target's user, as long as the target is there. */
  ghost predicate AssignmentSound(a: Assignment, members: map<nat, Membership>, next: nat) {
    a.target.Some? ==> a.target.value < next && (a.target.value in members ==> members[a.target.value].user == a.targetUser)
  }

  ghost predicate PendingSound(pending: map<nat, Assignment>, members: map<nat, Membership>, next: nat) {
    forall q :: q in pending ==> AssignmentSound(pending[q], members, next)
  }

  ghost predicate FaithfulOrg(o: Org) {
    MembersSound(o.members, o.nextMember) && Told(o) && InvitesSound(o.invitations, o.nextInvitation)
  }

  ghost predicate Faithful(s: System) {
    && FaithfulOrg(s.org) && PendingSound(s.pending, s.org.members, s.org.nextMember)
    && Settlements(s.org.audit, s.org.invitations, s.revocations, s.revoked)
  }

  // ----- Accepted and revoked -----

  ghost predicate AcceptedIn(log: seq<Entry>, i: nat) {
    exists k :: 0 <= k < |log| && log[k].InviteAccepted? && log[k].invitation == i
  }

  /** An acceptance of the invitation was committed between the read and the write of its revocation. */
  ghost predicate Overtaken(audit: seq<Entry>, d: Window) {
    d.from <= d.to <= |audit| && AcceptedIn(audit[d.from..d.to], d.invitation)
  }

  ghost predicate Raced(audit: seq<Entry>, revoked: seq<Window>, i: nat) {
    exists k :: 0 <= k < |revoked| && revoked[k].invitation == i && Overtaken(audit, revoked[k])
  }

  ghost predicate AcceptancesLogged(audit: seq<Entry>, invitations: map<nat, Invitation>) {
    forall i :: AcceptedIn(audit, i) <==> i in invitations && invitations[i].accepted
  }

  /** Nobody had accepted the invitation when its revocation read it. */
  ghost predicate ReadPending(audit: seq<Entry>, invitations: map<nat, Invitation>, r: Revocation) {
    r.at <= |audit| && r.invitation in invitations && !AcceptedIn(audit[..r.at], r.invitation)
  }

  /** An invitation is both accepted and revoked exactly if an acceptance overtook a revocation of it. */
  ghost predicate Settlements(audit: seq<Entry>, invitations: map<nat, Invitation>, revocations: map<nat, Revocation>, revoked: seq<Window>) {
    && AcceptancesLogged(audit, invitations)
    && (forall q :: q in revocations ==> ReadPending(audit, invitations, revocations[q]))
    && (forall k :: 0 <= k < |revoked| ==> revoked[k].from <= revoked[k].to <= |audit| && revoked[k].invitation in invitations)
    && (forall i :: i in invitations ==> (invitations[i].accepted && invitations[i].revoked <==> Raced(audit, revoked, i)))
  }

  // ----- What one entry says -----

  /** The two replays say the same of every conversation but `c`. */
  ghost predicate SameElsewhere(r: Replay, r': Replay, c: nat) {
    && (forall d :: d != c ==> (d in r.assignees <==> d in r'.assignees) && (d in r.statuses <==> d in r'.statuses) && (d in r.tags <==> d in r'.tags))
    && (forall d :: d != c && d in r.assignees ==> r'.assignees[d] == r.assignees[d])
    && (forall d :: d != c && d in r.statuses ==> r'.statuses[d] == r.statuses[d])
    && (forall d :: d != c && d in r.tags ==> r'.tags[d] == r.tags[d])
  }

  lemma OneConversation(members: map<nat, Membership>, conversations: map<nat, Conversation>, r: Replay, r': Replay, c: nat, row: Conversation)
    requires ConversationsTold(members, conversations, r) && SameElsewhere(r, r', c) && ConversationTold(members, row, r', c)
    ensures ConversationsTold(members, conversations[c := row], r')
  {
    forall d | d in conversations && d != c ensures ConversationTold(members, conversations[d], r', d) {
      assert ConversationTold(members, conversations[d], r, d);
    }
  }

  /** An audited change of one conversation. */
  lemma ConversationEntry(o: Org, c: nat, row: Conversation, e: Entry)
    requires Told(o)
    requires SameElsewhere(ReplayAll(o.audit), ReplayEntry(ReplayAll(o.audit), e), c)
    requires ReplayEntry(ReplayAll(o.audit), e).roles == ReplayAll(o.audit).roles
    requires ConversationTold(o.members, row, ReplayEntry(ReplayAll(o.audit), e), c)
    ensures Told(o.(conversations := o.conversations[c := row], audit := o.audit + [e]))
  {
    ReplayAppend(o.audit, e);
    OneConversation(o.members, o.conversations, ReplayAll(o.audit), ReplayEntry(ReplayAll(o.audit), e), c, row);
  }

  lemma OpenTold(o: Org, c: nat)
    requires Told(o) && c !in o.conversations
    ensures Told(OpenConversation(o, c))
  {
    OneConversation(o.members, o.conversations, ReplayAll(o.audit), ReplayAll(o.audit), c, Conversation(None, Inbox.OPEN, {}));
  }

  lemma AssignTold(o: Org, a: Assignment)
    requires Told(o) && AssignmentSound(a, o.members, o.nextMember)
    ensures Told(WriteAssignment(o, a).0)
  {
    var o' := WriteAssignment(o, a).0;
    if o' != o {
      assert ConversationTold(o.members, o.conversations[a.conversation], ReplayAll(o.audit), a.conversation);
      ConversationEntry(o, a.conversation, o.conversations[a.conversation].(assignee := a.target),
        if a.target.Some? then Assigned(a.conversation, a.targetUser) else Unassigned(a.conversation));
    }
  }

  lemma StatusTold(o: Org, w: StatusWrite)
    requires Told(o)
    ensures Told(WriteStatus(o, w))
  {
    var c := w.conversation;
    if c in o.conversations {
      assert ConversationTold(o.members, o.conversations[c], ReplayAll(o.audit), c);
      ConversationEntry(o, c, o.conversations[c].(status := w.status), StatusChanged(c, w.seen, w.status));
    }
  }

  lemma AddTagTold(o: Org, c: nat, tag: nat)
    requires Told(o)
    ensures Told(AddTag(o, c, tag).0)
  {
    if c in o.conversations && tag !in o.conversations[c].tags {
      assert ConversationTold(o.members, o.conversations[c], ReplayAll(o.audit), c);
      ConversationEntry(o, c, o.conversations[c].(tags := o.conversations[c].tags + {tag}), TagAdded(c, tag));
    }
  }

  lemma RemoveTagTold(o: Org, c: nat, tag: nat)
    requires Told(o)
    ensures Told(RemoveTag(o, c, tag).0)
  {
    if c in o.conversations && tag in o.conversations[c].tags {
      assert ConversationTold(o.members, o.conversations[c], ReplayAll(o.audit), c);
      ConversationEntry(o, c, o.conversations[c].(tags := o.conversations[c].tags - {tag}), TagRemoved(c, tag));
    }
  }

  // ----- Members -----

  /** Members that keep their users: role changes and new members leave conversations as told. */
  lemma ConversationsKeepUsers(members: map<nat, Membership>, members': map<nat, Membership>, conversations: map<nat, Conversation>, r: Replay, r': Replay)
    requires ConversationsTold(members, conversations, r)
    requires forall m :: m in members ==> m in members' && members'[m].user == members[m].user
    requires r' == r.(roles := r'.roles)
    ensures ConversationsTold(members', conversations, r')
  {
    forall c | c in conversations ensures ConversationTold(members', conversations[c], r', c) {
      assert ConversationTold(members, conversations[c], r, c);
    }
  }

  lemma RoleTold(members: map<nat, Membership>, roles: map<nat, Role>, next: nat, target: nat, role: Role)
    requires MembersSound(members, next) && RolesTold(members, roles) && target in members
    ensures var members' := members[target := members[target].(role := role)];
            MembersSound(members', next) && RolesTold(members', roles[members[target].user := role])
  {
    var members' := members[target := members[target].(role := role)];
    forall user | IsMember(members, user) ensures IsMember(members', user) {
      var n :| n in members && members[n].user == user;
      assert members'[n].user == user;
    }
    assert members'[target].user == members[target].user;
  }

  lemma RoleChangeTold(o: Org, target: nat, role: Role)
    requires FaithfulOrg(o) && target in o.members
    ensures var m := o.members[target];
            var o' := o.(members := o.members[target := m.(role := role)], audit := o.audit + [RoleChanged(target, m.user, m.role, role)]);
            MembersSound(o'.members, o'.nextMember) && Told(o')
  {
    var m := o.members[target];
    var members' := o.members[target := m.(role := role)];
    ReplayAppend(o.audit, RoleChanged(target, m.user, m.role, role));
    RoleTold(o.members, ReplayAll(o.audit).roles, o.nextMember, target, role);
    ConversationsKeepUsers(o.members, members', o.conversations, ReplayAll(o.audit),
      ReplayEntry(ReplayAll(o.audit), RoleChanged(target, m.user, m.role, role)));
  }

  lemma ChangeRoleFaithful(o: Org, actor: nat, target: nat, role: Role)
    requires FaithfulOrg(o)
    ensures FaithfulOrg(UpdateMemberRole(o, actor, target, role).0)
  {
    if CheckTarget(o, actor, target, role == AGENT) == Done { RoleChangeTold(o, target, role); }
  }

  lemma DepartureTold(members: map<nat, Membership>, roles: map<nat, Role>, next: nat, target: nat)
    requires MembersSound(members, next) && RolesTold(members, roles) && target in members
    ensures MembersSound(members - {target}, next) && RolesTold(members - {target}, roles - {members[target].user})
  {
    forall user | user in roles && user != members[target].user ensures IsMember(members - {target}, user) {
      var n :| n in members && members[n].user == user;
      assert (members - {target})[n].user == user;
    }
  }

  lemma UnassignTold(members: map<nat, Membership>, conversations: map<nat, Conversation>, r: Replay, next: nat, target: nat)
    requires MembersSound(members, next) && ConversationsTold(members, conversations, r) && target in members
    ensures ConversationsTold(members - {target}, Unassign(conversations, target), ReplayEntry(r, MemberRemoved(target, members[target].user)))
  {
    var r' := ReplayEntry(r, MemberRemoved(target, members[target].user));
    var conversations' := Unassign(conversations, target);
    forall c | c in conversations' ensures ConversationTold(members - {target}, conversations'[c], r', c) {
      assert ConversationTold(members, conversations[c], r, c);
    }
  }

  lemma RemovalTold(o: Org, target: nat)
    requires FaithfulOrg(o) && target in o.members
    ensures var o' := o.(conversations := Unassign(o.conversations, target), members := o.members - {target},
                         audit := o.audit + [MemberRemoved(target, o.members[target].user)]);
            MembersSound(o'.members, o'.nextMember) && Told(o')
  {
    ReplayAppend(o.audit, MemberRemoved(target, o.members[target].user));
    DepartureTold(o.members, ReplayAll(o.audit).roles, o.nextMember, target);
    UnassignTold(o.members, o.conversations, ReplayAll(o.audit), o.nextMember, target);
  }

  lemma RemoveFaithful(o: Org, actor: nat, target: nat)
    requires FaithfulOrg(o)
    ensures FaithfulOrg(RemoveMember(o, actor, target).0)
  {
    if CheckTarget(o, actor, target, true) == Done { RemovalTold(o, target); }
  }

  lemma ArrivalTold(members: map<nat, Membership>, roles: map<nat, Role>, next: nat, user: nat, role: Role)
    requires MembersSound(members, next) && RolesTold(members, roles)
    ensures IsMember(members, user) <==> user in roles
    ensures !IsMember(members, user) ==>
              MembersSound(members[next := Membership(user, role)], next + 1) && RolesTold(members[next := Membership(user, role)], roles[user := role])
  {
    if !IsMember(members, user) {
      var members' := members[next := Membership(user, role)];
      assert members'[next].user == user;
      forall other | IsMember(members, other) ensures IsMember(members', other) {
        var n :| n in members && members[n].user == other;
        assert members'[n].user == other;
      }
    }
  }

  lemma AdmitTold(o: Org, user: nat, role: Role, r': Replay)
    requires MembersSound(o.members, o.nextMember) && Told(o)
    requires var r := ReplayAll(o.audit); r' == if user in r.roles then r else r.(roles := r.roles[user := role])
    ensures var o' := Admit(o, user, role);
            MembersSound(o'.members, o'.nextMember) && RolesTold(o'.members, r'.roles) && ConversationsTold(o'.members, o.conversations, r')
  {
    ArrivalTold(o.members, ReplayAll(o.audit).roles, o.nextMember, user, role);
    ConversationsKeepUsers(o.members, Admit(o, user, role).members, o.conversations, ReplayAll(o.audit), r');
  }

  lemma AcceptedTold(o: Org, user: nat, role: Role, invitation: nat)
    requires MembersSound(o.members, o.nextMember) && Told(o)
    ensures var o' := Admit(o, user, role).(audit := o.audit + [InviteAccepted(invitation, user, role)]);
            MembersSound(o'.members, o'.nextMember) && Told(o')
  {
    ReplayAppend(o.audit, InviteAccepted(invitation, user, role));
    AdmitTold(o, user, role, ReplayEntry(ReplayAll(o.audit), InviteAccepted(invitation, user, role)));
  }

  /** An invitation that is accepted or revoked makes nothing pending. */
  lemma FewerPending(invitations: map<nat, Invitation>, next: nat, i: nat, row: Invitation)
    requires InvitesSound(invitations, next) && i in invitations && (row.accepted || row.revoked)
    ensures InvitesSound(invitations[i := row], next)
  {
    var after := invitations[i := row];
    assert forall j :: PendingFor(after, j) ==> PendingFor(invitations, j) && after[j] == invitations[j];
  }

  lemma AcceptFaithful(o: Org, invitation: nat, user: nat, now: Time)
    requires FaithfulOrg(o)
    ensures FaithfulOrg(AcceptInvite(o, invitation, user, now).0)
  {
    if invitation in o.invitations && Pending(o.invitations[invitation]) {
      AcceptedTold(o, user, o.invitations[invitation].role, invitation);
      FewerPending(o.invitations, o.nextInvitation, invitation, o.invitations[invitation].(accepted := true));
    }
  }

  // ----- Invitations -----

  lemma RevokeExpiredSound(invitations: map<nat, Invitation>, next: nat, email: string, now: Time)
    requires InvitesSound(invitations, next)
    ensures InvitesSound(RevokeExpired(invitations, email, now), next)
  {
    var after := RevokeExpired(invitations, email, now);
    assert forall j :: PendingFor(after, j) ==> PendingFor(invitations, j) && after[j] == invitations[j];
  }

  lemma IssuedSound(invitations: map<nat, Invitation>, next: nat, invitation: Invitation)
    requires InvitesSound(invitations, next) && !invitation.accepted
    requires !exists i :: i in invitations && invitations[i].email == invitation.email && Pending(invitations[i])
    ensures InvitesSound(invitations[next := invitation], next + 1)
  {
    var after := invitations[next := invitation];
    assert forall j :: PendingFor(after, j) && j != next ==> PendingFor(invitations, j) && after[j] == invitations[j];
  }

  lemma InviteFaithful(o: Org, actor: nat, email: string, role: Role, known: Option<(Role, bool)>, now: Time)
    requires FaithfulOrg(o)
    ensures FaithfulOrg(CreateInvite(o, actor, email, role, known, now).0)
  {
    var invitations := RevokeExpired(o.invitations, email, now);
    RevokeExpiredSound(o.invitations, o.nextInvitation, email, now);
    if CreateInvite(o, actor, email, role, known, now).1 == Done {
      var granted := if known.Some? then known.value.0 else role;
      IssuedSound(invitations, o.nextInvitation, Invitation(email, granted, now + INVITE_EXPIRY_MS, false, false));
      ReplayAppend(o.audit, InviteCreated(o.nextInvitation, email, granted));
    }
  }

  lemma RevokeFaithful(o: Org, invitation: nat)
    requires FaithfulOrg(o) && invitation in o.invitations
    ensures FaithfulOrg(WriteRevocation(o, invitation))
  {
    ReplayAppend(o.audit, InviteRevoked(invitation));
    FewerPending(o.invitations, o.nextInvitation, invitation, o.invitations[invitation].(revoked := true));
  }

  // ----- Who overtook whom -----

  lemma AcceptedInAppend(log: seq<Entry>, e: Entry, i: nat)
    ensures AcceptedIn(log + [e], i) <==> AcceptedIn(log, i) || (e.InviteAccepted? && e.invitation == i)
  {
    if AcceptedIn(log, i) {
      var k :| 0 <= k < |log| && log[k].InviteAccepted? && log[k].invitation == i;
      assert (log + [e])[k] == log[k];
    }
    if e.InviteAccepted? && e.invitation == i { assert (log + [e])[|log|] == e; }
  }

  lemma AcceptedInSplit(log: seq<Entry>, at: nat, i: nat)
    requires at <= |log|
    ensures AcceptedIn(log, i) <==> AcceptedIn(log[..at], i) || AcceptedIn(log[at..], i)
  {
    if AcceptedIn(log, i) {
      var k :| 0 <= k < |log| && log[k].InviteAccepted? && log[k].invitation == i;
      if k < at { assert log[..at][k] == log[k]; } else { assert log[at..][k - at] == log[k]; }
    }
  }

  /** The log only grows, so what overtook what stays as it is. */
  lemma RacedLasts(audit: seq<Entry>, e: Entry, revoked: seq<Window>, i: nat)
    requires forall k :: 0 <= k < |revoked| ==> revoked[k].from <= revoked[k].to <= |audit|
    ensures Raced(audit + [e], revoked, i) <==> Raced(audit, revoked, i)
  {
    forall k | 0 <= k < |revoked| ensures Overtaken(audit + [e], revoked[k]) <==> Overtaken(audit, revoked[k]) {
      assert (audit + [e])[revoked[k].from..revoked[k].to] == audit[revoked[k].from..revoked[k].to];
    }
  }

  lemma ReadLasts(audit: seq<Entry>, e: Entry, invitations: map<nat, Invitation>, invitations': map<nat, Invitation>, r: Revocation)
    requires ReadPending(audit, invitations, r) && forall i :: i in invitations ==> i in invitations'
    ensures ReadPending(audit + [e], invitations', r)
  {
    assert (audit + [e])[..r.at] == audit[..r.at];
  }

  lemma EntrySettles(audit: seq<Entry>, invitations: map<nat, Invitation>, revocations: map<nat, Revocation>, revoked: seq<Window>, e: Entry)
    requires Settlements(audit, invitations, revocations, revoked) && !e.InviteAccepted?
    ensures Settlements(audit + [e], invitations, revocations, revoked)
  {
    forall i ensures AcceptedIn(audit + [e], i) <==> AcceptedIn(audit, i) { AcceptedInAppend(audit, e, i); }
    forall q | q in revocations ensures ReadPending(audit + [e], invitations, revocations[q]) {
      ReadLasts(audit, e, invitations, invitations, revocations[q]);
    }
    forall i ensures Raced(audit + [e], revoked, i) <==> Raced(audit, revoked, i) { RacedLasts(audit, e, revoked, i); }
  }

  lemma AcceptSettles(audit: seq<Entry>, invitations: map<nat, Invitation>, revocations: map<nat, Revocation>, revoked: seq<Window>, i: nat, e: Entry)
    requires Settlements(audit, invitations, revocations, revoked) && PendingFor(invitations, i) && e.InviteAccepted? && e.invitation == i
    ensures Settlements(audit + [e], invitations[i := invitations[i].(accepted := true)], revocations, revoked)
  {
    var after := invitations[i := invitations[i].(accepted := true)];
    forall j ensures AcceptedIn(audit + [e], j) <==> AcceptedIn(audit, j) || j == i { AcceptedInAppend(audit, e, j); }
    forall q | q in revocations ensures ReadPending(audit + [e], after, revocations[q]) {
      ReadLasts(audit, e, invitations, after, revocations[q]);
    }
    forall j ensures Raced(audit + [e], revoked, j) <==> Raced(audit, revoked, j) { RacedLasts(audit, e, revoked, j); }
  }

  /** Revoking pending invitations and issuing new ones, as `createInvite` does. */
  lemma IssueSettles(audit: seq<Entry>, invitations: map<nat, Invitation>, after: map<nat, Invitation>, revocations: map<nat, Revocation>, revoked: seq<Window>)
    requires Settlements(audit, invitations, revocations, revoked)
    requires forall i :: i in invitations ==> i in after && after[i].accepted == invitations[i].accepted
    requires forall i :: i in invitations && invitations[i].accepted ==> after[i].revoked == invitations[i].revoked
    requires forall i :: i in after && i !in invitations ==> !after[i].accepted
    ensures Settlements(audit, after, revocations, revoked)
  {
    forall q | q in revocations ensures ReadPending(audit, after, revocations[q]) {
      assert ReadPending(audit, invitations, revocations[q]);
    }
    forall i | i in after && i !in invitations ensures !Raced(audit, revoked, i) {}
  }

  /** The unguarded write leaves its invitation accepted as well exactly if it was overtaken. */
  lemma WriteSettles(audit: seq<Entry>, invitations: map<nat, Invitation>, revocations: map<nat, Revocation>, revoked: seq<Window>, r: Revocation)
    requires Settlements(audit, invitations, revocations, revoked) && ReadPending(audit, invitations, r)
    ensures Settlements(audit, invitations[r.invitation := invitations[r.invitation].(revoked := true)], revocations,
                        revoked + [Window(r.invitation, r.at, |audit|)])
  {
    var i, d := r.invitation, Window(r.invitation, r.at, |audit|);
    var after := invitations[i := invitations[i].(revoked := true)];
    AcceptedInSplit(audit, r.at, i);
    assert audit[r.at..|audit|] == audit[r.at..];
    forall q | q in revocations ensures ReadPending(audit, after, revocations[q]) {
      assert ReadPending(audit, invitations, revocations[q]);
    }
    forall j ensures Raced(audit, revoked + [d], j) <==> Raced(audit, revoked, j) || (j == i && Overtaken(audit, d)) {
      RacedAppend(audit, revoked, d, j);
    }
  }

  lemma RacedAppend(audit: seq<Entry>, revoked: seq<Window>, d: Window, i: nat)
    ensures Raced(audit, revoked + [d], i) <==> Raced(audit, revoked, i) || (d.invitation == i && Overtaken(audit, d))
  {
    if Raced(audit, revoked, i) {
      var k :| 0 <= k < |revoked| && revoked[k].invitation == i && Overtaken(audit, revoked[k]);
      assert (revoked + [d])[k] == revoked[k];
    }
    if d.invitation == i && Overtaken(audit, d) { assert (revoked + [d])[|revoked|] == d; }
  }

  // ----- Runs -----

  lemma ConversationStep(s: System, step: Step)
    requires Faithful(s) && Enabled(s, step)
    requires step.CreateConversation? || step.FinishAssign? || step.FinishStatus? || step.Tag? || step.Untag?
    ensures var o' := Next(s, step).org;
            Told(o') && o' == s.org.(conversations := o'.conversations, audit := o'.audit)
  {
    match step {
      case CreateConversation(c) => OpenTold(s.org, c);
      case FinishAssign(request) => AssignTold(s.org, s.pending[request]);
      case FinishStatus(request) => StatusTold(s.org, s.statuses[request]);
      case Tag(c, tag) => AddTagTold(s.org, c, tag);
      case Untag(c, tag) => RemoveTagTold(s.org, c, tag);
    }
  }

  lemma TeamStep(s: System, step: Step)
    requires Faithful(s) && Enabled(s, step)
    requires step.ChangeRole? || step.Remove? || step.Invite? || step.FinishRevoke? || step.Accept?
    ensures FaithfulOrg(Next(s, step).org)
  {
    match step {
      case ChangeRole(actor, target, role) => ChangeRoleFaithful(s.org, actor, target, role);
      case Remove(actor, target) => RemoveFaithful(s.org, actor, target);
      case Invite(actor, email, role, known, now) => InviteFaithful(s.org, actor, email, role, known, now);
      case FinishRevoke(request) => RevokeFaithful(s.org, s.revocations[request].invitation);
      case Accept(i, user, now) => AcceptFaithful(s.org, i, user, now);
    }
  }

  lemma OrgStep(s: System, step: Step)
    requires Faithful(s) && Enabled(s, step)
    ensures FaithfulOrg(Next(s, step).org)
  {
    if step.RecoverOwner? {
      ReplayAppend(s.org.audit, OwnerRecovered(step.user));
    } else if step.ChangeRole? || step.Remove? || step.Invite? || step.FinishRevoke? || step.Accept? {
      TeamStep(s, step);
    } else if !step.BeginAssign? && !step.BeginStatus? && !step.BeginRevoke? {
      ConversationStep(s, step);
    }
  }

  /** Memberships keep their user, and new ones get new ids. */
  ghost predicate Successor(o: Org, o': Org) {
    && o.nextMember <= o'.nextMember
    && forall m :: m in o'.members && m < o.nextMember ==> m in o.members && o'.members[m].user == o.members[m].user
  }

  lemma StepSucceeds(s: System, step: Step)
    requires Enabled(s, step)
    ensures Successor(s.org, Next(s, step).org)
  {
  }

  /** Where a pending assignment comes from. */
  lemma PendingOrigin(s: System, step: Step, q: nat)
    requires MembersSound(s.org.members, s.org.nextMember) && Enabled(s, step) && q in Next(s, step).pending
    ensures var a := Next(s, step).pending[q];
            (q in s.pending && s.pending[q] == a) || AssignmentSound(a, s.org.members, s.org.nextMember)
  {
  }

  lemma AssignmentLasts(a: Assignment, o: Org, o': Org)
    requires AssignmentSound(a, o.members, o.nextMember) && Successor(o, o')
    ensures AssignmentSound(a, o'.members, o'.nextMember)
  {
  }

  lemma PendingStep(s: System, step: Step)
    requires Faithful(s) && Enabled(s, step)
    ensures var s' := Next(s, step); PendingSound(s'.pending, s'.org.members, s'.org.nextMember)
  {
    var s' := Next(s, step);
    StepSucceeds(s, step);
    forall q | q in s'.pending ensures AssignmentSound(s'.pending[q], s'.org.members, s'.org.nextMember) {
      PendingOrigin(s, step, q);
      AssignmentLasts(s'.pending[q], s.org, s'.org);
    }
  }

  lemma InviteSettles(s: System, step: Step)
    requires Faithful(s) && step.Invite?
    ensures var s' := Next(s, step); Settlements(s'.org.audit, s'.org.invitations, s'.revocations, s'.revoked)
  {
    var o, o' := s.org, Next(s, step).org;
    if o'.audit != o.audit {
      IssueSettles(o.audit, o.invitations, o'.invitations, s.revocations, s.revoked);
      EntrySettles(o.audit, o'.invitations, s.revocations, s.revoked, o'.audit[|o.audit|]);
    }
  }

  lemma FinishRevokeSettles(s: System, request: nat)
    requires Faithful(s) && Enabled(s, FinishRevoke(request))
    ensures var s' := Next(s, FinishRevoke(request)); Settlements(s'.org.audit, s'.org.invitations, s'.revocations, s'.revoked)
  {
    var s', r := Next(s, FinishRevoke(request)), s.revocations[request];
    WriteSettles(s.org.audit, s.org.invitations, s.revocations, s.revoked, r);
    EntrySettles(s.org.audit, s'.org.invitations, s'.revocations, s'.revoked, InviteRevoked(r.invitation));
  }

  /** Other steps touch no invitation, and log no acceptance. */
  lemma QuietStep(s: System, step: Step)
    requires Enabled(s, step) && !step.Invite? && !step.Accept? && !step.FinishRevoke? && !step.BeginRevoke?
    ensures var s' := Next(s, step);
            && s'.org.invitations == s.org.invitations && s'.revocations == s.revocations && s'.revoked == s.revoked
            && (s'.org.audit == s.org.audit
                || (|s'.org.audit| == |s.org.audit| + 1 && s'.org.audit == s.org.audit + [s'.org.audit[|s.org.audit|]] && !s'.org.audit[|s.org.audit|].InviteAccepted?))
  {
  }

  lemma SettlementStep(s: System, step: Step)
    requires Faithful(s) && Enabled(s, step)
    ensures var s' := Next(s, step); Settlements(s'.org.audit, s'.org.invitations, s'.revocations, s'.revoked)
  {
    var o, s' := s.org, Next(s, step);
    if step.Invite? {
      InviteSettles(s, step);
    } else if step.FinishRevoke? {
      FinishRevokeSettles(s, step.request);
    } else if step.Accept? {
      if s'.org.audit != o.audit {
        AcceptSettles(o.audit, o.invitations, s.revocations, s.revoked, step.invitation, InviteAccepted(step.invitation, step.user, o.invitations[step.invitation].role));
      }
    } else if step.BeginRevoke? {
      assert o.audit[..|o.audit|] == o.audit;
    } else {
      QuietStep(s, step);
      if s'.org.audit != o.audit { EntrySettles(o.audit, o.invitations, s.revocations, s.revoked, s'.org.audit[|o.audit|]); }
    }
  }

  function Start(user: nat): System {
    System(Bootstrap(user), map[], map[], map[], [])
  }

  /** After any run from the bootstrap on, with assignments, status changes and revocations split into
      their reads and their writes: replaying the audit log reproduces the organization, an address has
      one pending invitation at most, and an invitation is both accepted and revoked exactly if an
      acceptance was committed between the read and the write of a revocation. */
  lemma LedgerRun(user: nat, trace: seq<(Step, System)>)
    requires IsTrace(IsStep, Start(user), trace)
    ensures Faithful(End(Start(user), trace))
  {
    StartFaithful(user);
    forall a, l, b | Faithful(a) && IsStep(a, l, b) ensures Faithful(b) {
      OrgStep(a, l);
      PendingStep(a, l);
      SettlementStep(a, l);
    }
    Invariant((s: System) => Faithful(s), IsStep, Start(user), trace);
  }

  lemma StartFaithful(user: nat)
    ensures Faithful(Start(user))
  {
    ReplayAppend([], BootstrapCompleted(user));
    assert [] + [BootstrapCompleted(user)] == [BootstrapCompleted(user)];
    assert Start(user).org.members[0].user == user;
  }

  /** The clause about invitations on its own. */
  lemma BothExactlyIfOvertaken(user: nat, trace: seq<(Step, System)>, i: nat)
    requires IsTrace(IsStep, Start(user), trace) && i in End(Start(user), trace).org.invitations
    ensures var s := End(Start(user), trace);
            s.org.invitations[i].accepted && s.org.invitations[i].revoked <==> Raced(s.org.audit, s.revoked, i)
  {
    LedgerRun(user, trace);
  }

  /** Where transactions are serial, a revocation writes in the state that it read. */
  lemma SerialRevocation(s: System, q: nat, actor: nat, i: nat)
    requires Faithful(s) && q !in s.revocations && ReadRevocation(s.org, actor, i).0.Some?
    ensures var s1 := Next(s, BeginRevoke(q, actor, i));
            Next(s1, FinishRevoke(q)).org == RevokeInvite(s.org, actor, i).0
            && !RevokeInvite(s.org, actor, i).0.invitations[i].accepted
  {
  }

  /** And the other case does occur: from any such state with a pending invitation that has not expired. */
  lemma OvertakenRevocation(s: System, q: nat, actor: nat, i: nat, user: nat, now: Time)
    requires Faithful(s) && q !in s.revocations && ReadRevocation(s.org, actor, i).0.Some? && now < s.org.invitations[i].expiresAt
    ensures var s1 := Next(s, BeginRevoke(q, actor, i));
            var s2 := Next(s1, Accept(i, user, now));
            Enabled(s2, FinishRevoke(q))
            && var row := Next(s2, FinishRevoke(q)).org.invitations[i]; row.accepted && row.revoked
  {
  }

  /** The user that a conversation is assigned to. */
  function AssignedUser(o: Org, c: nat): Option<nat> {
    if c in o.conversations && o.conversations[c].assignee.Some? && o.conversations[c].assignee.value in o.members
    then Some(o.members[o.conversations[c].assignee.value].user) else None
  }

  ghost predicate HasRole(members: map<nat, Membership>, user: nat, role: Role) {
    exists m :: m in members && members[m] == Membership(user, role)
  }

  /** The log alone determines who is a member in which role, ... */
  lemma SameLogSameRoles(a: Org, b: Org)
    requires Told(a) && Told(b) && a.audit == b.audit
    ensures forall user, role :: HasRole(a.members, user, role) <==> HasRole(b.members, user, role)
  {
    SameRoles(a, b);
    SameRoles(b, a);
  }

  /** ... and what every conversation looks like. */
  lemma SameLogSameConversation(a: Org, b: Org, c: nat)
    requires Told(a) && Told(b) && a.audit == b.audit && c in a.conversations && c in b.conversations
    ensures a.conversations[c].status == b.conversations[c].status && a.conversations[c].tags == b.conversations[c].tags
    ensures AssignedUser(a, c) == AssignedUser(b, c)
  {
    assert ConversationTold(a.members, a.conversations[c], ReplayAll(a.audit), c);
    assert ConversationTold(b.members, b.conversations[c], ReplayAll(b.audit), c);
  }

  lemma SameRoles(a: Org, b: Org)
    requires Told(a) && Told(b) && a.audit == b.audit
    ensures forall m :: m in a.members ==> exists n :: n in b.members && b.members[n] == a.members[m]
  {
    forall m | m in a.members ensures exists n :: n in b.members && b.members[n] == a.members[m] {
      var user := a.members[m].user;
      assert IsMember(b.members, user);
      var n :| n in b.members && b.members[n].user == user;
      assert b.members[n] == a.members[m];
    }
  }
}

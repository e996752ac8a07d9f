/** What each operation on an organization answers, and what it leaves behind, field by field. */
module LedgerEffects {
  import opened Wrappers
  import opened Ledger
  import OwnerSafety

  ghost predicate OwnsRow(o: Org, actor: nat, m: nat) {
    m in o.members && o.members[m].user == actor && o.members[m].role == OWNER
  }

  /** The actor is an owner of the organization. */
  ghost predicate ActsAsOwner(o: Org, actor: nat) {
    exists m :: OwnsRow(o, actor, m)
  }

  lemma OwnerRow(o: Org, actor: nat)
    ensures IsOwner(o.members, actor) <==> ActsAsOwner(o, actor)
  {
    if IsOwner(o.members, actor) {
      var m :| m in o.members && o.members[m] == Membership(actor, OWNER);
      assert OwnsRow(o, actor, m);
    }
    if ActsAsOwner(o, actor) {
      var m :| OwnsRow(o, actor, m);
      assert o.members[m] == Membership(actor, OWNER);
    }
  }

  // ----- Members -----

  /** The answer to a request on a member depends on the actor, the target and nothing else. */
  ghost function Answer(o: Org, actor: nat, target: nat): Outcome {
    if !ActsAsOwner(o, actor) then Forbidden
    else if target !in o.members then NotFound
    else if o.members[target].user == actor then BadRequest
    else Done
  }

  lemma RoleChangeEffect(o: Org, actor: nat, target: nat, role: Role)
    ensures var (o', outcome) := UpdateMemberRole(o, actor, target, role);
            && outcome == Answer(o, actor, target)
            && (outcome != Done ==> o' == o)
            && (outcome == Done ==>
                  o' == o.(members := o.members[target := Membership(o.members[target].user, role)],
                           audit := o.audit + [RoleChanged(target, o.members[target].user, o.members[target].role, role)]))
  {
    OwnerRow(o, actor);
    OwnerSafety.CountIsRedundant(o, actor, target, role == AGENT);
  }

  lemma RemovalEffect(o: Org, actor: nat, target: nat)
    ensures var (o', outcome) := RemoveMember(o, actor, target);
            && outcome == Answer(o, actor, target)
            && (outcome != Done ==> o' == o)
            && (outcome == Done ==>
                  && target !in o'.members && (forall m :: m in o.members && m != target ==> m in o'.members && o'.members[m] == o.members[m])
                  && o'.members.Keys <= o.members.Keys && o'.conversations.Keys == o.conversations.Keys
                  && (forall c :: c in o.conversations ==>
                        o'.conversations[c] == o.conversations[c].(assignee :=
                          if o.conversations[c].assignee == Some(target) then None else o.conversations[c].assignee))
                  && o'.audit == o.audit + [MemberRemoved(target, o.members[target].user)]
                  && o'.invitations == o.invitations)
  {
    OwnerRow(o, actor);
    OwnerSafety.CountIsRedundant(o, actor, target, true);
  }

  // ----- Invitations -----

  predicate Open(i: Invitation, now: Time) {
    !i.accepted && !i.revoked && i.expiresAt > now
  }

  /** The address has an invitation that can still be accepted. */
  ghost predicate Invited(o: Org, email: string, now: Time) {
    exists i :: i in o.invitations && o.invitations[i].email == email && Open(o.invitations[i], now)
  }

  lemma RevokedFirst(o: Org, email: string, now: Time)
    ensures (exists i :: i in RevokeExpired(o.invitations, email, now) && RevokeExpired(o.invitations, email, now)[i].email == email
                         && Pending(RevokeExpired(o.invitations, email, now)[i])) <==> Invited(o, email, now)
  {
    var after := RevokeExpired(o.invitations, email, now);
    if Invited(o, email, now) {
      var i :| i in o.invitations && o.invitations[i].email == email && Open(o.invitations[i], now);
      assert i in after && Pending(after[i]);
    }
    if i :| i in after && after[i].email == email && Pending(after[i]) {
      assert Open(o.invitations[i], now);
    }
  }

  /** The role of a known member, and otherwise the role that was asked for. */
  function Granted(known: Option<(Role, bool)>, role: Role): Role {
    match known
    case Some((current, _)) => current
    case None => role
  }

  /** An invitation of the address that nobody has accepted in time. */
  predicate Lapsed(i: Invitation, email: string, now: Time) {
    i.email == email && !i.accepted && i.expiresAt <= now
  }

  lemma InviteOutcome(o: Org, actor: nat, email: string, role: Role, known: Option<(Role, bool)>, now: Time)
    ensures var (o', outcome) := CreateInvite(o, actor, email, role, known, now);
            && (outcome == Forbidden <==> !ActsAsOwner(o, actor))
            && (outcome == Done <==> ActsAsOwner(o, actor) && !(known.Some? && known.value.1) && !Invited(o, email, now))
            && (outcome != Done ==> o' == o)
  {
    OwnerRow(o, actor);
    RevokedFirst(o, email, now);
  }

  /** A new invitation of that address, for seven days, in place of expired ones. */
  lemma InviteEffect(o: Org, actor: nat, email: string, role: Role, known: Option<(Role, bool)>, now: Time)
    requires CreateInvite(o, actor, email, role, known, now).1 == Done && o.nextInvitation !in o.invitations
    ensures var o', id := CreateInvite(o, actor, email, role, known, now).0, o.nextInvitation;
            && id in o'.invitations && o'.invitations[id] == Invitation(email, Granted(known, role), now + 604800000, false, false)
            && (forall i :: i in o.invitations ==>
                  i in o'.invitations && o'.invitations[i] == o.invitations[i].(revoked := o'.invitations[i].revoked)
                  && (o'.invitations[i].revoked <==> (o.invitations[i].revoked || Lapsed(o.invitations[i], email, now))))
            && o'.audit == o.audit + [InviteCreated(id, email, Granted(known, role))]
            && o'.members == o.members && o'.conversations == o.conversations
  {
  }

  lemma AcceptEffect(o: Org, invitation: nat, user: nat, now: Time)
    ensures var (o', outcome) := AcceptInvite(o, invitation, user, now);
            && (outcome == Done <==> invitation in o.invitations && Open(o.invitations[invitation], now))
            && (outcome != Done ==> o' == o)
            && (outcome == Done ==>
                  && o'.invitations == o.invitations[invitation := o.invitations[invitation].(accepted := true)]
                  && o'.members == (if exists m :: m in o.members && o.members[m].user == user then o.members
                                    else o.members[o.nextMember := Membership(user, o.invitations[invitation].role)])
                  && o'.audit == o.audit + [InviteAccepted(invitation, user, o.invitations[invitation].role)]
                  && o'.conversations == o.conversations)
  {
  }

  lemma RevokeEffect(o: Org, actor: nat, invitation: nat)
    ensures var (o', outcome) := RevokeInvite(o, actor, invitation);
            && (outcome == Done <==> ActsAsOwner(o, actor) && invitation in o.invitations
                                     && !o.invitations[invitation].accepted && !o.invitations[invitation].revoked)
            && (outcome != Done ==> o' == o)
            && (outcome == Done ==>
                  o' == o.(invitations := o.invitations[invitation := o.invitations[invitation].(revoked := true)],
                           audit := o.audit + [InviteRevoked(invitation)]))
  {
    OwnerRow(o, actor);
  }

  // ----- Conversations -----

  /** Only that conversation is written, and only its row of the log is added. */
  ghost predicate OnlyConversation(o: Org, o': Org, c: nat, row: Conversation, entries: seq<Entry>) {
    o' == o.(conversations := o.conversations[c := row], audit := o.audit + entries)
  }

  /** The requested status is set, and audited with the status it replaces exactly if it is another. */
  lemma StatusEffect(o: Org, c: nat, status: Status)
    ensures var (o', outcome) := UpdateStatus(o, c, status);
            && outcome == (if c in o.conversations then Done else NotFound)
            && (outcome != Done ==> o' == o)
            && (outcome == Done ==>
                  var old_ := o.conversations[c];
                  && o'.conversations[c].status == status
                  && OnlyConversation(o, o', c, old_.(status := status), if old_.status == status then [] else [StatusChanged(c, old_.status, status)]))
  {
    if c in o.conversations && o.conversations[c].status == status {
      assert o.conversations[c := o.conversations[c]] == o.conversations;
      assert o.audit + [] == o.audit;
    }
  }

  /** Whatever has happened since its read, a write sets the status that was asked for. */
  lemma StatusWriteEffect(o: Org, w: StatusWrite, before: Org, c: nat, status: Status)
    requires ReadStatus(before, c, status).0 == Some(w) && c in o.conversations
    ensures OnlyConversation(o, WriteStatus(o, w), c, o.conversations[c].(status := status), [StatusChanged(c, before.conversations[c].status, status)])
  {
  }

  lemma AddTagEffect(o: Org, c: nat, tag: nat)
    ensures var (o', outcome) := AddTag(o, c, tag);
            && outcome == (if c in o.conversations then Done else NotFound)
            && (outcome != Done ==> o' == o)
            && (outcome == Done ==>
                  var old_ := o.conversations[c];
                  && tag in o'.conversations[c].tags
                  && OnlyConversation(o, o', c, old_.(tags := old_.tags + {tag}), if tag in old_.tags then [] else [TagAdded(c, tag)]))
  {
    if c in o.conversations && tag in o.conversations[c].tags {
      assert o.conversations[c].tags + {tag} == o.conversations[c].tags;
      assert o.conversations[c := o.conversations[c]] == o.conversations;
      assert o.audit + [] == o.audit;
    }
  }

  lemma RemoveTagEffect(o: Org, c: nat, tag: nat)
    ensures var (o', outcome) := RemoveTag(o, c, tag);
            && outcome == (if c in o.conversations && tag in o.conversations[c].tags then Done else NotFound)
            && (outcome != Done ==> o' == o)
            && (outcome == Done ==>
                  && tag !in o'.conversations[c].tags
                  && OnlyConversation(o, o', c, o.conversations[c].(tags := o.conversations[c].tags - {tag}), [TagRemoved(c, tag)]))
  {
  }

  /** Read and write without interference: the assignee is the one asked for, and the log names his user. */
  lemma AssignEffect(o: Org, c: nat, target: Option<nat>)
    ensures var (a, outcome) := ReadAssignment(o, c, target);
            && outcome == (if c !in o.conversations then NotFound
                           else if target.Some? && target.value !in o.members then BadRequest else Done)
            && (a.Some? <==> outcome == Done && o.conversations[c].assignee != target)
            && (a.Some? ==>
                  && WriteAssignment(o, a.value).1 == Done
                  && OnlyConversation(o, WriteAssignment(o, a.value).0, c, o.conversations[c].(assignee := target),
                                      [if target.Some? then Assigned(c, o.members[target.value].user) else Unassigned(c)]))
  {
  }

  /** With interference the write applies exactly if the assignee is still the one that was read. */
  lemma LateAssignEffect(o: Org, a: Assignment)
    requires a.conversation in o.conversations
    ensures var (o', outcome) := WriteAssignment(o, a);
            var current := o.conversations[a.conversation].assignee;
            && (outcome == Conflict <==> current != a.expected && current != a.target)
            && (o' != o ==> current == a.expected && o'.conversations[a.conversation].assignee == a.target)
            && (current == a.expected && (a.target.Some? ==> a.target.value in o.members) ==> outcome == Done && o'.conversations[a.conversation].assignee == a.target)
  {
  }
}

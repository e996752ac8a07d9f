/** Members and invitations of one organization, with the accounts behind them. */
module TeamServiceModule {
  import opened Wrappers
  import opened Text
  import opened Ledger
  import Sessions

  /** Who accepts an invitation: nobody signed in, a session whose membership is gone, or a user. */
  datatype Caller = Anonymous | Stale | SignedIn(user: nat)

  datatype Acceptance = Accepted(user: nat, sessionVersion: nat) | BadInvite | Unauthorized | Mismatch

  function Given(s: Option<string>): bool {
    s.Some? && s.value != ""
  }

  /** Users and memberships as the schema keeps them. */
  ghost predicate Consistent(members: map<nat, Membership>, nextMember: nat, users: map<nat, Sessions.User>, nextUser: nat) {
    && MembersSound(members, nextMember) && Sessions.UniqueEmails(users)
    && (forall m :: m in members ==> members[m].user in users)
    && (forall u :: u in users ==> u < nextUser)
  }

  predicate HasEmail(members: map<nat, Membership>, users: map<nat, Sessions.User>, email: string, m: nat) {
    m in members && members[m].user in users && users[members[m].user].email == email
  }

  /** The membership of an address, as its role and whether the account has a password. */
  ghost function Known(members: map<nat, Membership>, users: map<nat, Sessions.User>, email: string): Option<(Role, bool)> {
    if exists m :: HasEmail(members, users, email, m) then
      var m :| HasEmail(members, users, email, m);
      Some((members[m].role, users[members[m].user].password.Some?))
    else None
  }

  /** What an invitation to an address asks of who accepts it. */
  ghost predicate Entitled(users: map<nat, Sessions.User>, email: string, caller: Caller, name: Option<string>, password: Option<string>) {
    match caller
    case Stale => false
    case SignedIn(u) => Sessions.IsAccount(users, u, email) && (users[u].password.Some? || Given(password))
    case Anonymous =>
      if exists u :: Sessions.IsAccount(users, u, email) then
        Given(password) && forall u :: Sessions.IsAccount(users, u, email) && users[u].password.Some? ==> users[u].password == password
      else name.Some? && Trim(name.value) != "" && Given(password)
  }

  /** The account behind an accepted invitation: as it was, activated, or new. */
  ghost predicate AccountSettled(users: map<nat, Sessions.User>, users': map<nat, Sessions.User>, nextUser: nat, email: string, password: Option<string>, u: nat) {
    if u in users then
      && users[u].email == email
      && (users[u].password.Some? ==> users' == users)
      && (users[u].password.None? ==> Given(password) && users' == Sessions.SetPassword(users, u, password.value))
    else u == nextUser && Given(password) && users' == users[u := Sessions.User(email, password, 0, false)]
  }

  class TeamService {
    var members: map<nat, Membership>
    var invitations: map<nat, Invitation>
    var conversations: map<nat, Conversation>
    var audit: seq<Entry>
    var nextMember: nat
    var nextInvitation: nat
    var users: map<nat, Sessions.User>
    var nextUser: nat

    ghost function View(): Org
      reads this
    {
      Org(conversations, members, invitations, audit, nextMember, nextInvitation)
    }

    ghost predicate Valid()
      reads this
    {
      Consistent(members, nextMember, users, nextUser)
    }

    /** The first member of a new organization. */
    constructor (user: nat, account: Sessions.User)
      ensures View() == Bootstrap(user) && Valid() && users == map[user := account]
    {
      members, invitations, conversations := map[0 := Membership(user, OWNER)], map[], map[];
      audit, nextMember, nextInvitation := [BootstrapCompleted(user)], 1, 0;
      users, nextUser := map[user := account], user + 1;
    }

    method GetActorMembership(user: nat) returns (membership: Option<nat>)
      ensures membership.Some? ==> membership.value in members && members[membership.value].user == user
      ensures membership.None? <==> !IsMember(members, user)
    {
      if m :| m in members && members[m].user == user { return Some(m); }
      return None;
    }

    /** `getActorMembership` with `assertOwner`. */
    method AssertOwner(user: nat) returns (owner: bool)
      requires Valid()
      ensures owner <==> IsOwner(members, user)
    {
      var membership := GetActorMembership(user);
      owner := membership.Some? && members[membership.value].role == OWNER;
      if owner { assert members[membership.value] == Membership(user, OWNER); }
    }

    method CountOwners() returns (count: nat)
      ensures count == |Owners(members)|
    {
      var owners := set m | m in members && members[m].role == OWNER;
      assert owners == Owners(members);
      count := |owners|;
    }

    method UpdateMemberRole(actor: nat, target: nat, role: Role) returns (outcome: Outcome)
      requires Valid()
      modifies this`members, this`audit
      ensures Valid() && (View(), outcome) == Ledger.UpdateMemberRole(old(View()), actor, target, role)
    {
      var owner := AssertOwner(actor);
      if !owner { return Forbidden; }
      if target !in members { return NotFound; }
      var row := members[target];
      if row.user == actor { return BadRequest; }
      if row.role == OWNER && role == AGENT {
        var count := CountOwners();
        if count <= 1 { return BadRequest; }
      }
      members := members[target := row.(role := role)];
      audit := audit + [RoleChanged(target, row.user, row.role, role)];
      return Done;
    }

    method RemoveMember(actor: nat, target: nat) returns (outcome: Outcome)
      requires Valid()
      modifies this`members, this`conversations, this`audit
      ensures Valid() && (View(), outcome) == Ledger.RemoveMember(old(View()), actor, target)
    {
      var owner := AssertOwner(actor);
      if !owner { return Forbidden; }
      if target !in members { return NotFound; }
      var row := members[target];
      if row.user == actor { return BadRequest; }
      if row.role == OWNER {
        var count := CountOwners();
        if count <= 1 { return BadRequest; }
      }
      conversations := map c | c in conversations ::
        if conversations[c].assignee == Some(target) then conversations[c].(assignee := None) else conversations[c];
      members := members - {target};
      audit := audit + [MemberRemoved(target, row.user)];
      return Done;
    }

    method CreateInvite(actor: nat, email: string, role: Role, now: Time) returns (outcome: Outcome)
      requires Valid()
      modifies this`invitations, this`nextInvitation, this`audit
      ensures Valid()
      ensures (View(), outcome) == Ledger.CreateInvite(old(View()), actor, Normalized(email), role, Known(members, users, Normalized(email)), now)
      ensures forall m :: HasEmail(members, users, Normalized(email), m) ==>
                && (users[members[m].user].password.Some? ==> outcome != Done)
                && (outcome == Done ==> old(nextInvitation) in invitations && invitations[old(nextInvitation)].role == members[m].role)
      ensures outcome == Done ==>
                && old(nextInvitation) in invitations && invitations[old(nextInvitation)].email == Normalized(email)
                && invitations[old(nextInvitation)].expiresAt == now + 604_800_000
                && ((forall m :: !HasEmail(members, users, Normalized(email), m)) ==> invitations[old(nextInvitation)].role == role)
    {
      var address := Normalized(email);
      var owner := AssertOwner(actor);
      if !owner { return Forbidden; }
      var current: map<nat, Invitation> := RevokeExpired(invitations, address, now);
      var granted := role;
      if m :| m in members && HasEmail(members, users, address, m) {
        SoleMembership(members, nextMember, users, nextUser, address, m);
        if users[members[m].user].password.Some? { return BadRequest; }
        granted := members[m].role;
      }
      if i :| i in current && current[i].email == address && Pending(current[i]) { return BadRequest; }
      invitations := current[nextInvitation := Invitation(address, granted, now + INVITE_EXPIRY_MS, false, false)];
      audit := audit + [InviteCreated(nextInvitation, address, granted)];
      nextInvitation := nextInvitation + 1;
      return Done;
    }

    method RevokeInvite(actor: nat, invitation: nat) returns (outcome: Outcome)
      requires Valid()
      modifies this`invitations, this`audit
      ensures Valid() && (View(), outcome) == Ledger.RevokeInvite(old(View()), actor, invitation)
    {
      var owner := AssertOwner(actor);
      if !owner { return Forbidden; }
      if invitation !in invitations || invitations[invitation].accepted || invitations[invitation].revoked { return NotFound; }
      invitations := invitations[invitation := invitations[invitation].(revoked := true)];
      audit := audit + [InviteRevoked(invitation)];
      return Done;
    }

    /** The account half of `acceptInvite`: who accepts, with the account created or activated. */
    method SettleAccount(email: string, caller: Caller, name: Option<string>, password: Option<string>) returns (r: Acceptance)
      requires Valid() && (caller.SignedIn? ==> caller.user in users)
      modifies this`users, this`nextUser
      ensures Valid()
      ensures r.Accepted? <==> Entitled(old(users), email, caller, name, password)
      ensures r.Accepted? ==>
                && AccountSettled(old(users), users, old(nextUser), email, password, r.user)
                && r.user in users && r.sessionVersion == users[r.user].sessionVersion
      ensures r.Accepted? && caller.SignedIn? ==> r.user == caller.user && old(users)[r.user].email == email
      ensures r.Accepted? && caller.Anonymous? && r.user in old(users) && old(users)[r.user].password.Some? ==> old(users)[r.user].password == password
      ensures r.Accepted? && r.user !in old(users) ==> caller.Anonymous? && name.Some? && Trim(name.value) != "" && Given(password)
      ensures !r.Accepted? ==> users == old(users) && nextUser == old(nextUser)
    {
      var existing: Option<nat> := None;
      match caller {
        case Stale => return Unauthorized;
        case SignedIn(u) =>
          if users[u].email != email { return Mismatch; }
          existing := Some(u);
        case Anonymous =>
          if u: nat :| u in users && users[u].email == email { existing := Some(u); }
      }
      if existing.None? {
        if name.None? || Trim(name.value) == "" || !Given(password) { return BadInvite; }
        var u := nextUser;
        users := users[u := Sessions.User(email, password, 0, false)];
        nextUser := nextUser + 1;
        return Accepted(u, 0);
      }
      var u := existing.value;
      assert Sessions.IsAccount(users, u, email);
      if users[u].password.Some? {
        if caller.Anonymous? {
          if !Given(password) { return BadInvite; }
          if users[u].password != password { return Unauthorized; }
        }
        return Accepted(u, users[u].sessionVersion);
      }
      if !Given(password) { return BadInvite; }
      users := users[u := users[u].(password := password, sessionVersion := users[u].sessionVersion + 1)];
      return Accepted(u, users[u].sessionVersion);
    }

    /** The membership upsert, which changes nothing for a member. */
    method UpsertMembership(user: nat, role: Role)
      requires Valid() && user in users
      modifies this`members, this`nextMember
      ensures Valid() && View() == Admit(old(View()), user, role) && IsMember(members, user)
    {
      var membership := GetActorMembership(user);
      if membership.None? {
        members := members[nextMember := Membership(user, role)];
        assert members[nextMember].user == user;
        nextMember := nextMember + 1;
      }
    }

    /** `now` is the clock at the first check of the invitation, `acceptedAt` at the guarded write. */
    method AcceptInvite(invitation: nat, caller: Caller, name: Option<string>, password: Option<string>, now: Time, acceptedAt: Time)
      returns (r: Acceptance)
      requires Valid() && now <= acceptedAt && (caller.SignedIn? ==> caller.user in users)
      modifies this
      ensures Valid()
      ensures r.Accepted? <==>
                && Ledger.AcceptInvite(old(View()), invitation, 0, acceptedAt).1 == Done
                && Entitled(old(users), old(invitations)[invitation].email, caller, name, password)
      ensures r.Accepted? ==>
                && View() == Ledger.AcceptInvite(old(View()), invitation, r.user, acceptedAt).0
                && AccountSettled(old(users), users, old(nextUser), old(invitations)[invitation].email, password, r.user)
                && IsMember(members, r.user) && r.user in users && r.sessionVersion == users[r.user].sessionVersion
      ensures !r.Accepted? ==> View() == old(View()) && users == old(users) && nextUser == old(nextUser)
    {
      if invitation !in invitations || invitations[invitation].accepted || invitations[invitation].revoked { return BadInvite; }
      var row := invitations[invitation];
      if row.expiresAt <= now || row.expiresAt <= acceptedAt { return BadInvite; }
      r := SettleAccount(row.email, caller, name, password);
      if !r.Accepted? { return; }
      UpsertMembership(r.user, row.role);
      invitations := invitations[invitation := row.(accepted := true)];
      audit := audit + [InviteAccepted(invitation, r.user, row.role)];
    }
  }

  lemma SoleMembership(members: map<nat, Membership>, nextMember: nat, users: map<nat, Sessions.User>, nextUser: nat, email: string, m: nat)
    requires Consistent(members, nextMember, users, nextUser) && HasEmail(members, users, email, m)
    ensures Known(members, users, email) == Some((members[m].role, users[members[m].user].password.Some?))
  {
    assert forall n :: HasEmail(members, users, email, n) ==> n == m;
  }
}

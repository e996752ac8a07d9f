/** Sign-in, password reset, bootstrap and recovery over the account tables. */
module AuthServiceModule {
  import opened Wrappers
  import opened Text
  import opened Sessions
  import Ledger

  datatype LoginResult =
    | Unauthorized
    | ActivationRequired
    | Forbidden
    | SelectOrganization(organizations: set<nat>)
    | SignedIn(session: Session)

  datatype OwnerResult = Refused(status: nat) | Granted(grant: Session)

  function MembershipsOf(a: Accounts, u: nat): set<nat> {
    set key | key in a.memberships && key.1 == u :: key.0
  }

  /** The organization that a sign-in request lands in. */
  predicate Selects(a: Accounts, u: nat, requested: Option<nat>, organization: nat) {
    && organization in MembershipsOf(a, u)
    && if requested.Some? then requested.value == organization else |MembershipsOf(a, u)| == 1
  }

  /** An owner of the organization with that slug, at that address. */
  predicate IsOwnerAt(a: Accounts, slugs: map<nat, string>, slug: string, email: string, key: (nat, nat)) {
    && key in a.memberships && a.memberships[key] == Ledger.OWNER
    && key.0 in slugs && slugs[key.0] == slug && IsAccount(a.users, key.1, email)
  }

  predicate HasPassword(a: Accounts, u: nat) {
    u in a.users && a.users[u].password.Some?
  }

  ghost predicate PasswordBacked(a: Accounts, organization: nat) {
    exists u :: (organization, u) in a.memberships && a.memberships[(organization, u)] == Ledger.OWNER && HasPassword(a, u)
  }

  class AuthService {
    var users: map<nat, User>
    var slugs: map<nat, string>          // of the organizations
    var memberships: map<(nat, nat), Ledger.Role>
    var tokens: map<nat, Token>
    var audit: seq<Ledger.Entry>

    ghost function View(): Accounts
      reads this
    {
      Accounts(users, memberships, tokens)
    }

    constructor ()
      ensures View() == Empty.accounts && slugs == map[] && audit == []
    {
      users, slugs, memberships, tokens, audit := map[], map[], map[], map[], [];
    }

    /** A session comes out exactly for the right password of an account with a membership to land in,
        and it is accepted as long as nothing changes. */
    method Login(email: string, password: string, requested: Option<nat>, verifiedOnly: bool) returns (r: LoginResult)
      requires UniqueEmails(users)
      ensures forall u :: IsAccount(users, u, Normalized(email)) ==>
                && (r.SignedIn? <==>
                      && users[u].password == Some(password) && (verifiedOnly ==> users[u].verified)
                      && exists organization :: Selects(View(), u, requested, organization))
                && (r.SignedIn? ==> r.session.user == u && Selects(View(), u, requested, r.session.organization))
                && (r.ActivationRequired? <==> users[u].password.None?)
                && (r.SelectOrganization? ==> requested.None? && r.organizations == MembershipsOf(View(), u) && |r.organizations| > 1)
      ensures r.SignedIn? ==> IsAccount(users, r.session.user, Normalized(email)) && Accepted(View(), r.session)
      ensures !r.Unauthorized? ==> exists u :: IsAccount(users, u, Normalized(email))
    {
      var address := Normalized(email);
      if u: nat :| u in users && users[u].email == address {
        assert IsAccount(users, u, address);
        var user := users[u];
        if user.password.None? { return ActivationRequired; }
        if user.password.value != password { return Unauthorized; }
        if verifiedOnly && !user.verified { return Forbidden; }
        var organizations := set key | key in memberships && key.1 == u :: key.0;
        assert organizations == MembershipsOf(View(), u);
        if organizations == {} { return Forbidden; }
        if requested.Some? {
          if requested.value !in organizations { return Forbidden; }
          assert Selects(View(), u, requested, requested.value);
          return SignedIn(Session(u, requested.value, user.sessionVersion));
        }
        if |organizations| != 1 { return SelectOrganization(organizations); }
        var organization :| organization in organizations;
        assert Selects(View(), u, requested, organization);
        return SignedIn(Session(u, organization, user.sessionVersion));
      }
      return Unauthorized;
    }

    method GetSessionDetails(session: Session) returns (role: Option<Ledger.Role>)
      requires (session.organization, session.user) in memberships ==> session.user in users
      ensures role.Some? <==> Accepted(View(), session)
      ensures role.Some? ==> role.value == memberships[(session.organization, session.user)]
    {
      var key := (session.organization, session.user);
      if key !in memberships { return None; }
      if users[session.user].sessionVersion != session.sessionVersion { return None; }
      return Some(memberships[key]);
    }

    /** One transaction: the checks on the row as read, the guarded consumption, the password. */
    method ConfirmPasswordReset(token: nat, password: string, now: Ledger.Time) returns (r: Refusal)
      requires forall t :: t in tokens ==> tokens[t].user in users
      modifies this`tokens, this`users
      ensures (View(), r) == ConsumeToken(old(View()), token, now, password)
    {
      if token !in tokens { return InvalidToken; }
      var row := tokens[token];
      if row.used { return AlreadyUsed; }
      if row.invalidated { return NoLongerValid; }
      if row.expiresAt <= now { return Expired; }
      tokens := tokens[token := row.(used := true)];
      users := users[row.user := users[row.user].(password := Some(password))];
      users := users[row.user := users[row.user].(sessionVersion := users[row.user].sessionVersion + 1)];
      assert users == SetPassword(old(users), row.user, password);
      return Ok;
    }

    /** The guarded write of invite activation and of owner recovery, with the fallback on the password
        that another request has set. */
    method ActivateAccount(u: nat, password: string) returns (r: Refusal)
      requires u in users
      modifies this`users
      ensures (View(), r) == Activate(old(View()), u, password)
    {
      var count := 0;
      if users[u].password.None? {
        users := users[u := users[u].(password := Some(password), sessionVersion := users[u].sessionVersion + 1)];
        count := 1;
      }
      if count != 1 && users[u].password != Some(password) { return InvalidCredentials; }
      return Ok;
    }

    /** A session comes out exactly for the configured secret and an owner without a password, in an
        organization none of whose owners has one. */
    method RecoverOwnerAccess(configured: Option<string>, secret: string, email: string, slug: string, password: string) returns (r: OwnerResult)
      requires UniqueEmails(users)
      requires forall m, n :: m in slugs && n in slugs && slugs[m] == slugs[n] ==> m == n
      modifies this`users, this`audit
      ensures forall key :: IsOwnerAt(old(View()), slugs, Normalized(slug), Normalized(email), key) ==>
                (r.Granted? <==>
                   && configured.Some? && Trim(configured.value) != "" && Trim(configured.value) == Trim(secret)
                   && !HasPassword(old(View()), key.1) && !PasswordBacked(old(View()), key.0))
      ensures r.Granted? ==>
                && IsOwnerAt(old(View()), slugs, Normalized(slug), Normalized(email), (r.grant.organization, r.grant.user))
                && View() == Activate(old(View()), r.grant.user, password).0
                && users[r.grant.user].password == Some(password)
                && audit == old(audit) + [Ledger.OwnerRecovered(r.grant.user)]
                && Accepted(View(), r.grant)
      ensures r.Refused? ==> View() == old(View()) && audit == old(audit)
    {
      if configured.None? || Trim(configured.value) == "" { return Refused(409); }
      if Trim(configured.value) != Trim(secret) { return Refused(401); }
      var address, name := Normalized(email), Normalized(slug);
      if key :| key in memberships && IsOwnerAt(Accounts(users, memberships, tokens), slugs, name, address, key) {
        var (organization, u) := key;
        if users[u].password.Some? { return Refused(409); }
        var backed := set k | k in memberships && k.0 == organization && memberships[k] == Ledger.OWNER && k.1 in users && users[k.1].password.Some?;
        if |backed| > 0 {
          assert exists k :: k in backed;
          return Refused(409);
        }
        assert forall v :: (organization, v) in memberships && memberships[(organization, v)] == Ledger.OWNER && HasPassword(View(), v) ==> (organization, v) in backed;
        var refusal := ActivateAccount(u, password);
        audit := audit + [Ledger.OwnerRecovered(u)];
        return Granted(Session(u, organization, users[u].sessionVersion));
      }
      return Refused(404);
    }

    /** Succeeds exactly on empty tables, and leaves the organization that its ledger starts from. */
    method BootstrapOwner(email: string, slug: string, password: string, organization: nat, u: nat) returns (r: OwnerResult)
      modifies this`users, this`slugs, this`memberships, this`audit
      ensures r.Granted? <==> slug != "" && old(users) == map[] && old(slugs) == map[] && old(memberships) == map[]
      ensures r.Granted? ==>
                && users == map[u := User(Normalized(email), Some(password), 0, false)]
                && slugs == map[organization := slug] && memberships == map[(organization, u) := Ledger.OWNER]
                && audit == old(audit) + Ledger.Bootstrap(u).audit
                && Accepted(View(), r.grant)
      ensures r.Refused? ==> View() == old(View()) && slugs == old(slugs) && audit == old(audit)
    {
      if slug == "" { return Refused(400); }
      if |slugs| != 0 || |users| != 0 || |memberships| != 0 { return Refused(409); }
      slugs := slugs[organization := slug];
      users := users[u := User(Normalized(email), Some(password), 0, false)];
      memberships := memberships[(organization, u) := Ledger.OWNER];
      audit := audit + [Ledger.BootstrapCompleted(u)];
      return Granted(Session(u, organization, users[u].sessionVersion));
    }

    /** The transaction of `createAndSendPasswordResetToken`; tokens are fresh. */
    method CreatePasswordResetToken(user: nat, token: nat, expiresAt: Ledger.Time)
      requires token !in tokens
      modifies this`tokens
      ensures View() == CreateToken(old(View()), user, token, expiresAt)
      ensures forall t :: t in tokens && tokens[t].user == user && Active(tokens[t]) <==> t == token
    {
      tokens := map t | t in tokens :: if tokens[t].user == user && !tokens[t].used && !tokens[t].invalidated
        then tokens[t].(invalidated := true) else tokens[t];
      tokens := tokens[token := Token(user, expiresAt, false, false)];
    }

    /** After a delivery that failed. */
    method InvalidatePasswordResetToken(token: nat)
      modifies this`tokens
      ensures View() == InvalidateToken(old(View()), token)
    {
      if token in tokens && !tokens[token].used && !tokens[token].invalidated {
        tokens := tokens[token := tokens[token].(invalidated := true)];
      }
    }
  }
}

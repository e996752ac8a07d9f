/**
 Accounts, sessions and password-reset tokens. A session carries the `sessionVersion` of the user row
 it was built from, and is accepted while the row still has that version.
 */
module Sessions {
  import opened Wrappers
  import opened Runs
  import Ledger

  /** `password` stands for the hash; hashing is taken to be injective. */
  datatype User = User(email: string, password: Option<string>, sessionVersion: nat, verified: bool)
  datatype Token = Token(user: nat, expiresAt: Ledger.Time, used: bool, invalidated: bool)
  datatype Session = Session(user: nat, organization: nat, sessionVersion: nat)

  /** Memberships are keyed by organization and user. */
  datatype Accounts = Accounts(users: map<nat, User>, memberships: map<(nat, nat), Ledger.Role>, tokens: map<nat, Token>)

  datatype Refusal = Ok | InvalidToken | AlreadyUsed | NoLongerValid | Expired | InvalidCredentials

  /** The account of an address, by the unique index on it the only one. */
  predicate IsAccount(users: map<nat, User>, u: nat, email: string) {
    u in users && users[u].email == email
  }

  ghost predicate UniqueEmails(users: map<nat, User>) {
    forall u, v :: u in users && v in users && users[u].email == users[v].email ==> u == v
  }

  // ----- Transactions -----

  /** `getSessionDetails`. */
  predicate Accepted(a: Accounts, s: Session) {
    && (s.organization, s.user) in a.memberships
    && s.user in a.users && a.users[s.user].sessionVersion == s.sessionVersion
  }

  function SetPassword(users: map<nat, User>, u: nat, password: string): map<nat, User>
    requires u in users
  {
    users[u := users[u].(password := Some(password), sessionVersion := users[u].sessionVersion + 1)]
  }

  predicate Active(t: Token) {
    !t.used && !t.invalidated
  }

  /** The checks of `confirmPasswordReset` on the row it has read. */
  function CheckToken(a: Accounts, token: nat, now: Ledger.Time): Refusal {
    if token !in a.tokens then InvalidToken
    else if a.tokens[token].used then AlreadyUsed
    else if a.tokens[token].invalidated then NoLongerValid
    else if a.tokens[token].expiresAt <= now then Expired
    else Ok
  }

  /** The guarded consumption and the password that goes with it. The foreign key rules out a token
      without its user. */
  function ConsumeToken(a: Accounts, token: nat, now: Ledger.Time, password: string): (Accounts, Refusal) {
    var refusal := CheckToken(a, token, now);
    if refusal != Ok then (a, refusal)
    else if a.tokens[token].user !in a.users then (a, InvalidToken)
    else (Consumed(a, token, password), Ok)
  }

  function Consumed(a: Accounts, token: nat, password: string): Accounts
    requires token in a.tokens && a.tokens[token].user in a.users
  {
    a.(tokens := a.tokens[token := a.tokens[token].(used := true)], users := SetPassword(a.users, a.tokens[token].user, password))
  }

  /** Invite activation and owner recovery: the write finds the account without a password, or the
      password that is there by now has to match. */
  function Activate(a: Accounts, u: nat, password: string): (Accounts, Refusal)
    requires u in a.users
  {
    match a.users[u].password
    case None => (a.(users := SetPassword(a.users, u, password)), Ok)
    case Some(current) => (a, if current == password then Ok else InvalidCredentials)
  }

  function InvalidateActive(tokens: map<nat, Token>, user: nat): map<nat, Token> {
    map t | t in tokens :: if tokens[t].user == user && Active(tokens[t]) then tokens[t].(invalidated := true) else tokens[t]
  }

  function CreateToken(a: Accounts, user: nat, token: nat, expiresAt: Ledger.Time): Accounts {
    a.(tokens := InvalidateActive(a.tokens, user)[token := Token(user, expiresAt, false, false)])
  }

  function InvalidateToken(a: Accounts, token: nat): Accounts {
    if token in a.tokens && Active(a.tokens[token]) then a.(tokens := a.tokens[token := a.tokens[token].(invalidated := true)]) else a
  }

  // ----- Steps -----

  /** A committed password set on an existing account. */
  datatype PasswordSet = ByReset(user: nat, token: nat) | ByActivation(user: nat)

  /** A user row that a request has read, with the number of password sets committed by then. */
  datatype Reading = Reading(user: nat, sessionVersion: nat, at: nat)
  datatype Issued = Issued(session: Session, at: nat)
  datatype Reset = Reset(token: nat, now: Ledger.Time)

  datatype System = System(
    accounts: Accounts,
    history: seq<PasswordSet>,
    readings: map<nat, Reading>,
    resets: map<nat, Reset>,
    issued: map<nat, Issued>)

  const Empty := System(Accounts(map[], map[], map[]), [], map[], map[], map[])

  /** Requests that fail a check just never take their next step, so no check appears here that a
      theorem does not need. */
  datatype Step =
    | Register(user: nat, row: User)
    | Join(user: nat, organization: nat, role: Ledger.Role)
    | Leave(user: nat, organization: nat)
    | RequestReset(user: nat, token: nat, expiresAt: Ledger.Time)
    | DeliveryFailed(token: nat)
    | BeginReset(request: nat, token: nat, now: Ledger.Time)
    | FinishReset(request: nat, password: string)
    | ReadUser(request: nat, user: nat)                                    // login, invite acceptance by an existing user
    | Issue(request: nat, id: nat, organization: nat)
    | ActivateUser(user: nat, password: string, id: nat, organization: nat) // invite activation, owner recovery

  ghost predicate Enabled(s: System, step: Step) {
    match step
    case Register(u, row) => u !in s.accounts.users && row.sessionVersion == 0
    case RequestReset(u, token, _) => u in s.accounts.users && token !in s.accounts.tokens
    case BeginReset(request, token, now) => request !in s.resets && CheckToken(s.accounts, token, now) == Ok
    case FinishReset(request, _) => request in s.resets
    case ReadUser(request, u) => request !in s.readings && u in s.accounts.users
    case Issue(request, id, _) => request in s.readings && id !in s.issued
    case ActivateUser(u, _, id, _) => u in s.accounts.users && id !in s.issued
    case _ => true
  }

  ghost function Next(s: System, step: Step): System
    requires Enabled(s, step)
  {
    var a := s.accounts;
    match step
    case Register(u, row) => s.(accounts := a.(users := a.users[u := row]))
    case Join(u, organization, role) => s.(accounts := a.(memberships := a.memberships[(organization, u) := role]))
    case Leave(u, organization) => s.(accounts := a.(memberships := a.memberships - {(organization, u)}))
    case RequestReset(u, token, expiresAt) => s.(accounts := CreateToken(a, u, token, expiresAt))
    case DeliveryFailed(token) => s.(accounts := InvalidateToken(a, token))
    case BeginReset(request, token, now) => s.(resets := s.resets[request := Reset(token, now)])
    case FinishReset(request, password) =>
      var reset := s.resets[request];
      var (a', refusal) := ConsumeToken(a, reset.token, reset.now, password);
      s.(accounts := a', resets := s.resets - {request},
         history := if refusal != Ok then s.history else s.history + [ByReset(a.tokens[reset.token].user, reset.token)])
    case ReadUser(request, u) => s.(readings := s.readings[request := Reading(u, a.users[u].sessionVersion, |s.history|)])
    case Issue(request, id, organization) =>
      var reading := s.readings[request];
      s.(issued := s.issued[id := Issued(Session(reading.user, organization, reading.sessionVersion), reading.at)])
    case ActivateUser(u, password, id, organization) =>
      var (a', refusal) := Activate(a, u, password);
      var history := if a.users[u].password.None? then s.history + [ByActivation(u)] else s.history;
      s.(accounts := a', history := history,
         issued := if refusal == Ok then s.issued[id := Issued(Session(u, organization, a'.users[u].sessionVersion), |history|)] else s.issued)
  }

  ghost predicate IsStep(s: System, step: Step, s': System) {
    Enabled(s, step) && s' == Next(s, step)
  }

  // ----- The version counts the password sets -----

  function Count(history: seq<PasswordSet>, u: nat): nat {
    if history == [] then 0
    else Count(history[..|history| - 1], u) + if history[|history| - 1].user == u then 1 else 0
  }

  lemma CountAppend(history: seq<PasswordSet>, e: PasswordSet, u: nat)
    ensures Count(history + [e], u) == Count(history, u) + if e.user == u then 1 else 0
  {
    assert (history + [e])[..|history|] == history;
  }

  /** A password of the account was set at `at` or later. */
  ghost predicate SetSince(history: seq<PasswordSet>, u: nat, at: nat) {
    exists i :: at <= i < |history| && history[i].user == u
  }

  lemma {:induction false} CountSince(history: seq<PasswordSet>, u: nat, at: nat)
    requires at <= |history|
    ensures Count(history[..at], u) <= Count(history, u)
    ensures Count(history[..at], u) == Count(history, u) <==> !SetSince(history, u, at)
  {
    if at == |history| {
      assert history[..at] == history;
    } else {
      var before := history[..|history| - 1];
      CountSince(before, u, at);
      assert before[..at] == history[..at];
      if SetSince(before, u, at) {
        var i :| at <= i < |before| && before[i].user == u;
        assert history[i].user == u;
      }
    }
  }

  /** A session or reading carries the version its user had when the row was read. */
  ghost predicate Dated(users: map<nat, User>, history: seq<PasswordSet>, u: nat, version: nat, at: nat) {
    u in users && at <= |history| && version == Count(history[..at], u)
  }

  ghost predicate Versions(s: System) {
    && Counted(s.accounts.users, s.history)
    && (forall q :: q in s.readings ==> Dated(s.accounts.users, s.history, s.readings[q].user, s.readings[q].sessionVersion, s.readings[q].at))
    && (forall id :: id in s.issued ==> Dated(s.accounts.users, s.history, s.issued[id].session.user, s.issued[id].session.sessionVersion, s.issued[id].at))
  }

  lemma DatedLasts(users: map<nat, User>, users': map<nat, User>, history: seq<PasswordSet>, history': seq<PasswordSet>, u: nat, version: nat, at: nat)
    requires Dated(users, history, u, version, at) && history <= history' && users.Keys <= users'.Keys
    ensures Dated(users', history', u, version, at)
  {
    assert history'[..at] == history[..at];
  }

  lemma {:induction false} NeverSet(history: seq<PasswordSet>, u: nat)
    requires forall i :: 0 <= i < |history| ==> history[i].user != u
    ensures Count(history, u) == 0
  {
    if history != [] { NeverSet(history[..|history| - 1], u); }
  }

  /** One step sets no password, or one password of one account. */
  ghost predicate Bumps(users: map<nat, User>, users': map<nat, User>, history: seq<PasswordSet>, history': seq<PasswordSet>) {
    && (forall u :: u in users ==> u in users')
    && if history' == history then
         forall u :: u in users' ==> users'[u].sessionVersion == if u in users then users[u].sessionVersion else 0
       else
         && |history'| == |history| + 1 && history' == history + [history'[|history|]]
         && var setter := history'[|history|].user;
            setter in users
            && forall u :: u in users' ==> u in users && users'[u].sessionVersion == users[u].sessionVersion + if u == setter then 1 else 0
  }

  lemma StepBumps(s: System, step: Step)
    requires Enabled(s, step)
    ensures Bumps(s.accounts.users, Next(s, step).accounts.users, s.history, Next(s, step).history)
  {
  }

  ghost predicate Counted(users: map<nat, User>, history: seq<PasswordSet>) {
    && (forall u :: u in users ==> users[u].sessionVersion == Count(history, u))
    && (forall i :: 0 <= i < |history| ==> history[i].user in users)
  }

  lemma BumpCounted(users: map<nat, User>, users': map<nat, User>, history: seq<PasswordSet>, history': seq<PasswordSet>)
    requires Counted(users, history) && Bumps(users, users', history, history')
    ensures Counted(users', history')
  {
    forall u | u in users' ensures users'[u].sessionVersion == Count(history', u) {
      if u !in users { NeverSet(history, u); }
      if history' != history { CountAppend(history, history'[|history|], u); }
    }
  }

  lemma UsersStep(s: System, step: Step)
    requires Counted(s.accounts.users, s.history) && Enabled(s, step)
    ensures var s' := Next(s, step);
            && s.accounts.users.Keys <= s'.accounts.users.Keys && s.history <= s'.history
            && Counted(s'.accounts.users, s'.history)
  {
    StepBumps(s, step);
    BumpCounted(s.accounts.users, Next(s, step).accounts.users, s.history, Next(s, step).history);
  }

  lemma VersionsStep(s: System, step: Step)
    requires Versions(s) && Enabled(s, step)
    ensures Versions(Next(s, step))
  {
    var s' := Next(s, step);
    UsersStep(s, step);
    forall q | q in s'.readings
      ensures Dated(s'.accounts.users, s'.history, s'.readings[q].user, s'.readings[q].sessionVersion, s'.readings[q].at)
    {
      if q in s.readings {
        DatedLasts(s.accounts.users, s'.accounts.users, s.history, s'.history, s.readings[q].user, s.readings[q].sessionVersion, s.readings[q].at);
      } else {
        assert s'.history[..|s'.history|] == s'.history;
      }
    }
    forall id | id in s'.issued
      ensures Dated(s'.accounts.users, s'.history, s'.issued[id].session.user, s'.issued[id].session.sessionVersion, s'.issued[id].at)
    {
      if id in s.issued {
        var issued := s.issued[id];
        DatedLasts(s.accounts.users, s'.accounts.users, s.history, s'.history, issued.session.user, issued.session.sessionVersion, issued.at);
      } else {
        assert s'.history[..|s'.history|] == s'.history;
      }
    }
  }

  lemma VersionsRun(trace: seq<(Step, System)>)
    requires IsTrace(IsStep, Empty, trace)
    ensures Versions(End(Empty, trace))
  {
    forall a, l, b | Versions(a) && IsStep(a, l, b) ensures Versions(b) { VersionsStep(a, l); }
    Invariant((t: System) => Versions(t), IsStep, Empty, trace);
  }

  // ----- Revocation -----

  /** Over every run: a session is accepted exactly while its membership exists and no password set was
      committed since the user row it was built from was read. */
  lemma AcceptedExactly(trace: seq<(Step, System)>, id: nat)
    requires IsTrace(IsStep, Empty, trace) && id in End(Empty, trace).issued
    ensures var s := End(Empty, trace);
            var session := s.issued[id].session;
            Accepted(s.accounts, session) <==>
              (session.organization, session.user) in s.accounts.memberships && !SetSince(s.history, session.user, s.issued[id].at)
  {
    VersionsRun(trace);
    var s := End(Empty, trace);
    CountSince(s.history, s.issued[id].session.user, s.issued[id].at);
  }

  ghost predicate Revoked(s: System, issued: Issued) {
    Counted(s.accounts.users, s.history)
    && Dated(s.accounts.users, s.history, issued.session.user, issued.session.sessionVersion, issued.at)
    && SetSince(s.history, issued.session.user, issued.at)
  }

  lemma RevokedStep(s: System, step: Step, issued: Issued)
    requires Revoked(s, issued) && Enabled(s, step)
    ensures Revoked(Next(s, step), issued)
  {
    var s' := Next(s, step);
    UsersStep(s, step);
    DatedLasts(s.accounts.users, s'.accounts.users, s.history, s'.history, issued.session.user, issued.session.sessionVersion, issued.at);
    var i :| issued.at <= i < |s.history| && s.history[i].user == issued.session.user;
    assert s'.history[i].user == issued.session.user;
  }

  /** A password set revokes: from there on, over every run, the session is never accepted again. */
  lemma RevokedForever(s: System, trace: seq<(Step, System)>, id: nat)
    requires Versions(s) && IsTrace(IsStep, s, trace)
    requires id in s.issued && SetSince(s.history, s.issued[id].session.user, s.issued[id].at)
    ensures !Accepted(End(s, trace).accounts, s.issued[id].session)
  {
    var issued := s.issued[id];
    forall a, l, b | Revoked(a, issued) && IsStep(a, l, b) ensures Revoked(b, issued) { RevokedStep(a, l, issued); }
    Invariant((t: System) => Revoked(t, issued), IsStep, s, trace);
    CountSince(End(s, trace).history, issued.session.user, issued.at);
  }

  // ----- Tokens -----

  function UsedTokens(tokens: map<nat, Token>, u: nat): set<nat> {
    set t | t in tokens && tokens[t].user == u && tokens[t].used
  }

  /** A token is not both used and invalidated, and an account has one active token at most. */
  ghost predicate TokensSound(a: Accounts) {
    && (forall t :: t in a.tokens ==> a.tokens[t].user in a.users && !(a.tokens[t].used && a.tokens[t].invalidated))
    && (forall t, v :: ActiveIn(a.tokens, t) && ActiveIn(a.tokens, v) && a.tokens[t].user == a.tokens[v].user ==> t == v)
  }

  ghost predicate ActiveIn(tokens: map<nat, Token>, t: nat) {
    t in tokens && Active(tokens[t])
  }

  /** No password set is in the history twice; its resets are those of the used tokens; an account that
      was activated has a password. */
  ghost predicate HistorySound(a: Accounts, history: seq<PasswordSet>) {
    && (forall i, j :: 0 <= i < j < |history| ==> history[i] != history[j])
    && (forall u, t :: ByReset(u, t) in history <==> t in a.tokens && a.tokens[t].user == u && a.tokens[t].used)
    && (forall u :: ByActivation(u) in history ==> u in a.users && a.users[u].password.Some?)
    && (forall i :: 0 <= i < |history| ==> history[i].user in a.users)
  }

  /** Every version is what the account's used tokens and its activation add up to. */
  ghost predicate Tally(a: Accounts, history: seq<PasswordSet>) {
    forall u :: u in a.users ==>
      a.users[u].sessionVersion == |UsedTokens(a.tokens, u)| + if ByActivation(u) in history then 1 else 0
  }

  ghost predicate AccountsSound(a: Accounts, history: seq<PasswordSet>) {
    TokensSound(a) && HistorySound(a, history) && Tally(a, history)
  }

  ghost predicate Accounted(s: System) {
    AccountsSound(s.accounts, s.history)
  }

  /** Some active tokens are invalidated, and nothing else changes. */
  ghost predicate Quieter(tokens: map<nat, Token>, tokens': map<nat, Token>) {
    && tokens'.Keys == tokens.Keys
    && forall t :: t in tokens' ==> tokens'[t] == tokens[t] || (Active(tokens[t]) && tokens'[t] == tokens[t].(invalidated := true))
  }

  lemma QuieterTokens(a: Accounts, tokens: map<nat, Token>)
    requires TokensSound(a) && Quieter(a.tokens, tokens)
    ensures TokensSound(a.(tokens := tokens))
  {
    forall t: nat | ActiveIn(tokens, t) ensures ActiveIn(a.tokens, t) && a.tokens[t] == tokens[t] {}
  }

  lemma QuieterHistory(a: Accounts, history: seq<PasswordSet>, tokens: map<nat, Token>)
    requires HistorySound(a, history) && Tally(a, history) && Quieter(a.tokens, tokens)
    ensures HistorySound(a.(tokens := tokens), history) && Tally(a.(tokens := tokens), history)
  {
    forall u ensures UsedTokens(tokens, u) == UsedTokens(a.tokens, u) {}
  }

  lemma InvalidationKeeps(a: Accounts, history: seq<PasswordSet>, tokens: map<nat, Token>)
    requires AccountsSound(a, history) && Quieter(a.tokens, tokens)
    ensures AccountsSound(a.(tokens := tokens), history)
  {
    QuieterTokens(a, tokens);
    QuieterHistory(a, history, tokens);
  }

  lemma FreshTokenKeeps(a: Accounts, history: seq<PasswordSet>, u: nat, token: nat, expiresAt: Ledger.Time)
    requires AccountsSound(a, history) && u in a.users && token !in a.tokens
    requires forall t :: ActiveIn(a.tokens, t) ==> a.tokens[t].user != u
    ensures AccountsSound(a.(tokens := a.tokens[token := Token(u, expiresAt, false, false)]), history)
  {
    var tokens := a.tokens[token := Token(u, expiresAt, false, false)];
    forall t: nat | ActiveIn(tokens, t) && t != token ensures ActiveIn(a.tokens, t) && a.tokens[t] == tokens[t] {}
    forall v ensures UsedTokens(tokens, v) == UsedTokens(a.tokens, v) {}
  }

  lemma RequestAccounted(a: Accounts, history: seq<PasswordSet>, u: nat, token: nat, expiresAt: Ledger.Time)
    requires AccountsSound(a, history) && u in a.users && token !in a.tokens
    ensures AccountsSound(CreateToken(a, u, token, expiresAt), history)
  {
    var quiet := InvalidateActive(a.tokens, u);
    InvalidationKeeps(a, history, quiet);
    FreshTokenKeeps(a.(tokens := quiet), history, u, token, expiresAt);
  }

  lemma ConsumeTallied(a: Accounts, history: seq<PasswordSet>, token: nat, password: string)
    requires Tally(a, history) && ActiveIn(a.tokens, token) && a.tokens[token].user in a.users
    ensures Tally(Consumed(a, token, password), history + [ByReset(a.tokens[token].user, token)])
  {
    var user := a.tokens[token].user;
    var tokens := a.tokens[token := a.tokens[token].(used := true)];
    assert UsedTokens(tokens, user) == UsedTokens(a.tokens, user) + {token};
    forall u | u != user ensures UsedTokens(tokens, u) == UsedTokens(a.tokens, u) {}
  }

  lemma ConsumeSound(a: Accounts, history: seq<PasswordSet>, token: nat, password: string)
    requires TokensSound(a) && HistorySound(a, history) && ActiveIn(a.tokens, token)
    ensures TokensSound(Consumed(a, token, password))
    ensures HistorySound(Consumed(a, token, password), history + [ByReset(a.tokens[token].user, token)])
  {
    var tokens := Consumed(a, token, password).tokens;
    forall t: nat | ActiveIn(tokens, t) ensures ActiveIn(a.tokens, t) && a.tokens[t] == tokens[t] {}
    assert ByReset(a.tokens[token].user, token) !in history;
  }

  lemma ConsumeAccounted(a: Accounts, history: seq<PasswordSet>, token: nat, now: Ledger.Time, password: string)
    requires AccountsSound(a, history)
    ensures var (a', refusal) := ConsumeToken(a, token, now, password);
            AccountsSound(a', if refusal != Ok then history else history + [ByReset(a.tokens[token].user, token)])
  {
    if CheckToken(a, token, now) == Ok {
      ConsumeTallied(a, history, token, password);
      ConsumeSound(a, history, token, password);
    }
  }

  lemma ActivateAccounted(a: Accounts, history: seq<PasswordSet>, u: nat, password: string)
    requires AccountsSound(a, history) && u in a.users
    ensures AccountsSound(Activate(a, u, password).0, if a.users[u].password.None? then history + [ByActivation(u)] else history)
  {
    if a.users[u].password.None? {
      assert ByActivation(u) !in history;
    }
  }

  lemma AccountedStep(s: System, step: Step)
    requires Accounted(s) && Enabled(s, step)
    ensures Accounted(Next(s, step))
  {
    match step {
      case RequestReset(u, token, expiresAt) => RequestAccounted(s.accounts, s.history, u, token, expiresAt);
      case DeliveryFailed(token) => InvalidationKeeps(s.accounts, s.history, Next(s, step).accounts.tokens);
      case FinishReset(request, password) => ConsumeAccounted(s.accounts, s.history, s.resets[request].token, s.resets[request].now, password);
      case ActivateUser(u, password, _, _) => ActivateAccounted(s.accounts, s.history, u, password);
      case Register(u, _) => assert UsedTokens(s.accounts.tokens, u) == {};
      case _ =>
    }
  }

  /** Over every run, with the check and the consumption of a reset as separate steps: each token is
      consumed at most once and adds one version bump, and nothing but an activation adds another. */
  lemma AccountedRun(trace: seq<(Step, System)>)
    requires IsTrace(IsStep, Empty, trace)
    ensures Accounted(End(Empty, trace))
  {
    forall a, l, b | Accounted(a) && IsStep(a, l, b) ensures Accounted(b) { AccountedStep(a, l); }
    Invariant((t: System) => Accounted(t), IsStep, Empty, trace);
  }

  /** The consumption is a compare-and-set: of two requests that both passed the check on one token,
      exactly the first to write sets its password. */
  lemma RacingResets(s: System, first: nat, second: nat, p: string, q: string)
    requires Accounted(s) && first in s.resets && second in s.resets && first != second && s.resets[first] == s.resets[second]
    requires CheckToken(s.accounts, s.resets[first].token, s.resets[first].now) == Ok
    ensures var s1 := Next(s, FinishReset(first, p));
            var s2 := Next(s1, FinishReset(second, q));
            && s2.accounts == s1.accounts && s2.history == s1.history
            && s1.history == s.history + [ByReset(s.accounts.tokens[s.resets[first].token].user, s.resets[first].token)]
            && s1.accounts.users[s.accounts.tokens[s.resets[first].token].user].password == Some(p)
  {
    assert Next(s, FinishReset(first, p)).accounts != s.accounts;
  }

  // ----- What each transaction does -----

  /** A token passes exactly if it is there, was not used, is not invalidated and has not expired. */
  lemma TokenPassesExactly(a: Accounts, token: nat, now: Ledger.Time)
    ensures CheckToken(a, token, now) == Ok <==>
              token in a.tokens && !a.tokens[token].used && !a.tokens[token].invalidated && now < a.tokens[token].expiresAt
    ensures token in a.tokens && a.tokens[token].used ==> CheckToken(a, token, now) == AlreadyUsed
    ensures token in a.tokens && !a.tokens[token].used && a.tokens[token].invalidated ==> CheckToken(a, token, now) == NoLongerValid
  {
  }

  /** A reset sets that password on the token's account, bumps its version and uses the token up. */
  lemma ConsumeEffect(a: Accounts, token: nat, now: Ledger.Time, password: string)
    requires TokensSound(a)
    ensures var (a', refusal) := ConsumeToken(a, token, now, password);
            && refusal == CheckToken(a, token, now)
            && (refusal != Ok ==> a' == a)
            && (refusal == Ok ==>
                  var u := a.tokens[token].user;
                  && a'.users == a.users[u := User(a.users[u].email, Some(password), a.users[u].sessionVersion + 1, a.users[u].verified)]
                  && a'.tokens == a.tokens[token := Token(u, a.tokens[token].expiresAt, true, false)]
                  && a'.memberships == a.memberships)
  {
  }

  /** An activation sets the password where there is none, and otherwise only compares it. */
  lemma ActivateEffect(a: Accounts, u: nat, password: string)
    requires u in a.users
    ensures var (a', refusal) := Activate(a, u, password);
            && (a.users[u].password.None? ==>
                  && refusal == Ok
                  && a' == a.(users := a.users[u := User(a.users[u].email, Some(password), a.users[u].sessionVersion + 1, a.users[u].verified)]))
            && (a.users[u].password.Some? ==> a' == a && (refusal == Ok <==> a.users[u].password == Some(password)))
  {
  }

  /** A new token is the account's only active one; other accounts keep theirs. */
  lemma CreateEffect(a: Accounts, user: nat, token: nat, expiresAt: Ledger.Time)
    requires token !in a.tokens
    ensures var a' := CreateToken(a, user, token, expiresAt);
            && a'.tokens.Keys == a.tokens.Keys + {token} && a'.tokens[token] == Token(user, expiresAt, false, false)
            && (forall t :: t in a.tokens ==>
                  a'.tokens[t] == a.tokens[t].(invalidated := a.tokens[t].invalidated || (a.tokens[t].user == user && !a.tokens[t].used)))
            && a'.users == a.users && a'.memberships == a.memberships
  {
  }

  lemma InvalidateEffect(a: Accounts, token: nat)
    requires token in a.tokens
    ensures var a' := InvalidateToken(a, token);
            && (a.tokens[token].used ==> a' == a)
            && (!a.tokens[token].used ==> a' == a.(tokens := a.tokens[token := a.tokens[token].(invalidated := true)]))
  {
    if a.tokens[token].invalidated { assert a.tokens[token := a.tokens[token]] == a.tokens; }
  }
}

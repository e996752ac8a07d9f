/**
 Role changes and removals as interleaved transactions over row locks, with invitations accepted in
 between. A lock statement takes its snapshot first and the rows of the snapshot one by one after it.
 */
module OwnerSafety {
  import opened Runs
  import opened Ledger

  datatype Action = SetRole(role: Role) | Removal

  datatype Stage =
    | Locking(want: set<nat>)      // rows of the snapshot that are still to be locked
    | ActorChecked
    | TargetChecked(seen: Role)
    | Counted(seen: Role)

  /** `horizon` is the first id that the snapshot of the lock statement cannot contain. */
  datatype Tx = Tx(actor: nat, target: nat, action: Action, stage: Stage, locked: set<nat>, horizon: nat)

  datatype System = Team(members: map<nat, Membership>, nextMember: nat, txs: map<nat, Tx>)

  datatype Step =
    | Begin(tx: nat, actor: nat, target: nat, action: Action)   // up to the snapshot of the lock statement
    | LockRow(tx: nat, row: nat)
    | CheckActor(tx: nat)
    | CheckTarget(tx: nat)
    | CountOwners(tx: nat)
    | Write(tx: nat)
    | Abort(tx: nat)
    | Join(user: nat, role: Role)

  /** No other transaction holds the row. */
  predicate Free(s: System, tx: nat, row: nat) {
    forall other :: other in s.txs && other != tx ==> row !in s.txs[other].locked
  }

  predicate LosesOwner(action: Action, seen: Role) {
    seen == OWNER && (action == Removal || action == SetRole(AGENT))
  }

  /** Ids are generated with their rows, so a request can only name one below `nextMember`: a row's, a
      removed row's, or one that no row will ever have. Writing a row waits for its lock like locking it
      does. */
  ghost predicate Enabled(s: System, step: Step) {
    match step
    case Begin(t, _, target, _) => t !in s.txs && target < s.nextMember
    case LockRow(t, row) => t in s.txs && s.txs[t].stage.Locking? && row in s.txs[t].stage.want && (row in s.members ==> Free(s, t, row))
    case CheckActor(t) => t in s.txs && s.txs[t].stage == Locking({})
    case CheckTarget(t) => t in s.txs && s.txs[t].stage.ActorChecked?
    case CountOwners(t) => t in s.txs && s.txs[t].stage.TargetChecked?
    case Write(t) => t in s.txs && s.txs[t].stage.Counted? && Free(s, t, s.txs[t].target)
    case Abort(t) => t in s.txs
    case Join(_, _) => true
  }

  function At(s: System, t: nat, stage: Stage): System
    requires t in s.txs
  {
    s.(txs := s.txs[t := s.txs[t].(stage := stage)])
  }

  /** Commit or rollback: the locks go with the transaction. */
  function Release(s: System, t: nat): System {
    s.(txs := s.txs - {t})
  }

  function Written(members: map<nat, Membership>, target: nat, action: Action): map<nat, Membership> {
    if target !in members then members
    else
      match action
      case SetRole(role) => members[target := members[target].(role := role)]
      case Removal => members - {target}
  }

  ghost function Next(s: System, step: Step): System
    requires Enabled(s, step)
  {
    match step
    case Begin(t, actor, target, action) => s.(txs := s.txs[t := Tx(actor, target, action, Locking(s.members.Keys), {}, s.nextMember)])
    case LockRow(t, row) =>
      var tx := s.txs[t];
      s.(txs := s.txs[t := tx.(stage := Locking(tx.stage.want - {row}), locked := if row in s.members then tx.locked + {row} else tx.locked)])
    case CheckActor(t) => if IsOwner(s.members, s.txs[t].actor) then At(s, t, ActorChecked) else Release(s, t)
    case CheckTarget(t) =>
      var tx := s.txs[t];
      if tx.target in s.members && s.members[tx.target].user != tx.actor then At(s, t, TargetChecked(s.members[tx.target].role)) else Release(s, t)
    case CountOwners(t) =>
      var tx := s.txs[t];
      if LosesOwner(tx.action, tx.stage.seen) && |Owners(s.members)| <= 1 then Release(s, t) else At(s, t, Counted(tx.stage.seen))
    case Write(t) => Release(s, t).(members := Written(s.members, s.txs[t].target, s.txs[t].action))
    case Abort(t) => Release(s, t)
    case Join(user, role) =>
      if IsMember(s.members, user) then s
      else s.(members := s.members[s.nextMember := Membership(user, role)], nextMember := s.nextMember + 1)
  }

  ghost predicate IsStep(s: System, step: Step, s': System) {
    Enabled(s, step) && s' == Next(s, step)
  }

  // ----- Mutual exclusion -----

  predicate PastTarget(tx: Tx) {
    tx.stage.TargetChecked? || tx.stage.Counted?
  }

  /** Past its lock statement with a row locked. A lock statement comes back empty if everything that it
      saw was removed while it waited; its target is then gone as well. */
  predicate Holds(tx: Tx) {
    !tx.stage.Locking? && tx.locked != {}
  }

  /** A row that the snapshot contained, and that is still there, is locked or still to be locked. */
  ghost predicate Covers(tx: Tx, members: map<nat, Membership>, next: nat) {
    && tx.target < tx.horizon <= next
    && (forall m :: m in tx.locked ==> m in members && m < tx.horizon)
    && (tx.stage.Locking? ==> forall m :: m in tx.stage.want ==> m < tx.horizon)
    && (forall m :: m in members && m < tx.horizon ==> m in tx.locked || (tx.stage.Locking? && m in tx.stage.want))
    && (PastTarget(tx) ==> tx.target in tx.locked)
  }

  ghost predicate Disjoint(txs: map<nat, Tx>) {
    forall t, v, m :: t in txs && v in txs && t != v && m in txs[t].locked ==> m !in txs[v].locked
  }

  ghost predicate Locks(s: System) {
    && MembersSound(s.members, s.nextMember)
    && (forall t :: t in s.txs ==> Covers(s.txs[t], s.members, s.nextMember))
    && Disjoint(s.txs)
  }

  /** The lock statement whose snapshot came later saw, and locked, what the other one holds. */
  lemma LocksOverlap(a: Tx, b: Tx, members: map<nat, Membership>, next: nat)
    requires Covers(a, members, next) && Covers(b, members, next) && Holds(a) && Holds(b)
    ensures exists m :: m in a.locked && m in b.locked
  {
    if a.horizon <= b.horizon {
      var m :| m in a.locked;
      assert m in b.locked;
    } else {
      var m :| m in b.locked;
      assert m in a.locked;
    }
  }

  lemma HoldersExclude(s: System, t: nat, v: nat)
    requires Locks(s) && t in s.txs && v in s.txs && Holds(s.txs[t]) && Holds(s.txs[v])
    ensures t == v
  {
    LocksOverlap(s.txs[t], s.txs[v], s.members, s.nextMember);
  }

  // ----- Owners -----

  /** What the checks found stays true until the transaction ends. */
  ghost predicate Checked(tx: Tx, members: map<nat, Membership>) {
    && (Holds(tx) ==> IsOwner(members, tx.actor))
    && (PastTarget(tx) ==>
          tx.target in members && members[tx.target].user != tx.actor && members[tx.target].role == tx.stage.seen)
  }

  ghost predicate Sound(s: System) {
    && Locks(s)
    && (forall t :: t in s.txs ==> Checked(s.txs[t], s.members))
    && Owners(s.members) != {}
  }

  /** Two transactions that have found their targets are the same one. */
  lemma MutualExclusion(s: System, t: nat, v: nat)
    requires Sound(s) && t in s.txs && v in s.txs && PastTarget(s.txs[t]) && PastTarget(s.txs[v])
    ensures t == v
  {
    assert Covers(s.txs[t], s.members, s.nextMember) && Covers(s.txs[v], s.members, s.nextMember);
    HoldersExclude(s, t, v);
  }

  lemma OwnersCount(members: map<nat, Membership>, actor: nat, target: nat)
    requires IsOwner(members, actor) && target in members && members[target].user != actor && members[target].role == OWNER
    ensures |Owners(members)| >= 2
  {
    var own :| own in members && members[own] == Membership(actor, OWNER);
    assert {own, target} <= Owners(members);
    assert |Owners(members) - {own, target}| == |Owners(members)| - |{own, target}|;
  }

  /** The count is never the reason to refuse: the actor is a second owner. */
  lemma LastOwnerIsUnreachable(s: System, t: nat)
    requires Sound(s) && t in s.txs && s.txs[t].stage.TargetChecked? && LosesOwner(s.txs[t].action, s.txs[t].stage.seen)
    ensures |Owners(s.members)| >= 2 && Next(s, CountOwners(t)) == At(s, t, Counted(OWNER))
  {
    assert Covers(s.txs[t], s.members, s.nextMember) && Checked(s.txs[t], s.members);
    OwnersCount(s.members, s.txs[t].actor, s.txs[t].target);
  }

  // ----- Steps keep all of it -----

  lemma OwnerStays(members: map<nat, Membership>, actor: nat, target: nat, action: Action)
    requires IsOwner(members, actor) && target in members && members[target].user != actor
    ensures Owners(Written(members, target, action)) != {}
  {
    var own :| own in members && members[own] == Membership(actor, OWNER);
    assert own in Owners(Written(members, target, action));
  }

  lemma WriteSound(s: System, t: nat)
    requires Sound(s) && Enabled(s, Write(t))
    ensures Sound(Next(s, Write(t)))
  {
    var s' := Next(s, Write(t));
    assert Covers(s.txs[t], s.members, s.nextMember) && Checked(s.txs[t], s.members);
    OwnerStays(s.members, s.txs[t].actor, s.txs[t].target, s.txs[t].action);
    forall v | v in s'.txs ensures Checked(s'.txs[v], s'.members) && Covers(s'.txs[v], s'.members, s'.nextMember) {
      if Holds(s.txs[v]) { HoldersExclude(s, t, v); }
      assert Covers(s.txs[v], s.members, s.nextMember);
    }
  }

  lemma JoinSound(s: System, user: nat, role: Role)
    requires Sound(s)
    ensures Sound(Next(s, Join(user, role)))
  {
    var s' := Next(s, Join(user, role));
    forall v | v in s'.txs ensures Checked(s'.txs[v], s'.members) && Covers(s'.txs[v], s'.members, s'.nextMember) {
      assert Covers(s.txs[v], s.members, s.nextMember) && Checked(s.txs[v], s.members);
      if Holds(s.txs[v]) {
        var own :| own in s.members && s.members[own] == Membership(s.txs[v].actor, OWNER);
        assert s'.members[own] == s.members[own];
      }
    }
    var own :| own in Owners(s.members);
    assert own in Owners(s'.members);
  }

  lemma LockRowCovers(tx: Tx, members: map<nat, Membership>, next: nat, row: nat)
    requires Covers(tx, members, next) && tx.stage.Locking? && row in tx.stage.want
    ensures Covers(tx.(stage := Locking(tx.stage.want - {row}), locked := if row in members then tx.locked + {row} else tx.locked), members, next)
  {
  }

  lemma LockRowDisjoint(s: System, t: nat, row: nat, tx: Tx)
    requires Disjoint(s.txs) && t in s.txs && tx.locked <= s.txs[t].locked + {row} && (tx.locked == s.txs[t].locked || Free(s, t, row))
    ensures Disjoint(s.txs[t := tx])
  {
  }

  lemma LockRowSound(s: System, t: nat, row: nat)
    requires Sound(s) && Enabled(s, LockRow(t, row))
    ensures Sound(Next(s, LockRow(t, row)))
  {
    LockRowCovers(s.txs[t], s.members, s.nextMember, row);
    LockRowDisjoint(s, t, row, Next(s, LockRow(t, row)).txs[t]);
  }

  lemma ReleaseSound(s: System, t: nat)
    requires Sound(s)
    ensures Sound(Release(s, t))
  {
  }

  /** A transaction moves on and locks nothing more. */
  lemma PlaceSound(s: System, t: nat, tx: Tx)
    requires Sound(s) && Covers(tx, s.members, s.nextMember) && Checked(tx, s.members)
    requires tx.locked == if t in s.txs then s.txs[t].locked else {}
    ensures Sound(s.(txs := s.txs[t := tx]))
  {
  }

  lemma CheckSound(s: System, step: Step)
    requires Sound(s) && Enabled(s, step) && (step.CheckActor? || step.CheckTarget? || step.CountOwners?)
    ensures Sound(Next(s, step))
  {
    var t := step.tx;
    assert Covers(s.txs[t], s.members, s.nextMember) && Checked(s.txs[t], s.members);
    if t in Next(s, step).txs {
      PlaceSound(s, t, Next(s, step).txs[t]);
    } else {
      ReleaseSound(s, t);
    }
  }

  lemma SoundStep(s: System, step: Step)
    requires Sound(s) && Enabled(s, step)
    ensures Sound(Next(s, step))
  {
    match step {
      case Write(t) => WriteSound(s, t);
      case Join(user, role) => JoinSound(s, user, role);
      case LockRow(t, row) => LockRowSound(s, t, row);
      case Begin(t, actor, target, action) => PlaceSound(s, t, Tx(actor, target, action, Locking(s.members.Keys), {}, s.nextMember));
      case Abort(t) => ReleaseSound(s, t);
      case _ => CheckSound(s, step);
    }
  }

  /** From any state with an owner and no transaction under way, over every interleaving: there is an
      owner, and the transactions that have found their targets exclude one another. */
  lemma OwnerSafetyRun(members: map<nat, Membership>, next: nat, trace: seq<(Step, System)>)
    requires MembersSound(members, next) && Owners(members) != {}
    requires IsTrace(IsStep, Team(members, next, map[]), trace)
    ensures var s := End(Team(members, next, map[]), trace);
            && Sound(s) && Owners(s.members) != {}
            && forall t, v :: t in s.txs && v in s.txs && PastTarget(s.txs[t]) && PastTarget(s.txs[v]) ==> t == v
  {
    forall a, l, b | Sound(a) && IsStep(a, l, b) ensures Sound(b) { SoundStep(a, l); }
    Invariant((s: System) => Sound(s), IsStep, Team(members, next, map[]), trace);
    var s := End(Team(members, next, map[]), trace);
    forall t, v | t in s.txs && v in s.txs && PastTarget(s.txs[t]) && PastTarget(s.txs[v]) ensures t == v { MutualExclusion(s, t, v); }
  }

  // ----- Interleaved transactions are atomic ones -----

  /** As a whole transaction, too, the check on the last owner never decides. */
  lemma CountIsRedundant(o: Org, actor: nat, target: nat, losesOwner: bool)
    ensures Ledger.CheckTarget(o, actor, target, losesOwner) == Ledger.CheckTarget(o, actor, target, false)
  {
    if IsOwner(o.members, actor) && target in o.members && o.members[target].user != actor && o.members[target].role == OWNER {
      OwnersCount(o.members, actor, target);
    }
  }

  /** What an interleaved transaction writes is what the whole transaction would do at that instant. */
  lemma WriteIsAtomic(s: System, t: nat, o: Org)
    requires Sound(s) && Enabled(s, Write(t)) && o.members == s.members
    ensures var tx := s.txs[t];
            var (o', outcome) := if tx.action.SetRole? then UpdateMemberRole(o, tx.actor, tx.target, tx.action.role) else RemoveMember(o, tx.actor, tx.target);
            outcome == Done && o'.members == Next(s, Write(t)).members
  {
    var tx := s.txs[t];
    assert Covers(tx, s.members, s.nextMember) && Checked(tx, s.members);
    CountIsRedundant(o, tx.actor, tx.target, tx.action == SetRole(AGENT));
    CountIsRedundant(o, tx.actor, tx.target, true);
  }
}

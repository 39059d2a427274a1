/**
 Runs of the store: every handler is one atomic step, and a run is any sequence of steps.
 What each run keeps is proved here by one lemma a transaction.
 */
module AccessRuns {
  import opened Basics
  import opened AccessModel

  datatype Op =
    | TickOp(at: Time)
    | CreateUserOp(user: UserId, granted: Role)
    | LoginOp(user: UserId, token: Token, ttl: int)
    | LogoutOp(token: Token)
    | UpdateUserOp(actor: UserId, target: UserId, status: Requested<UserStatus>, role: Requested<Role>)
    | RegisterAgentOp(user: UserId, name: string, agent: AgentId, publicId: string)
    | CreateShareOp(user: UserId, agent: AgentId, grantee: UserId,
                    from: Option<Time>, until: Option<Time>, maxTasksPerDay: int, id: ShareId)
    | SweepOp(pendingToo: bool)
    | TransitionOp(actor: UserId, id: ShareId, action: Action)
    | IssueOp(user: UserId, access: Access, ttl: int, requestId: string, usedToday: int, ticket: Ticket)
    | RevokeLeaseOp(ticket: Ticket)
    | RenewOp(user: UserId, access: Access, requestId: string, ttl: int)

  // Some session of this user passes SessionByToken.
  ghost predicate Authenticated(db: Db, user: UserId) {
    exists t :: t in db.sessions && SessionValid(db, t) && db.sessions[t].user == user
  }

  ghost predicate IsAdmin(db: Db, user: UserId) { user in db.users && db.users[user].role.Admin? }

  // One handler, run to its end. A step whose guard fails changes nothing.
  ghost function Step(db: Db, op: Op): Db {
    match op
    case TickOp(at) => if db.now <= at then db.(now := at) else db
    case CreateUserOp(u, role) => CreateUser(db, u, role).Final(db)
    case LoginOp(u, t, ttl) => Login(db, u, t, ttl).Final(db)
    case LogoutOp(t) => RevokeSession(db, t).Final(db)
    case UpdateUserOp(actor, target, status, role) =>
      if Authenticated(db, actor) && IsAdmin(db, actor)
      then UpdateUserLifecycle(db, actor, target, status, role).Final(db) else db
    case RegisterAgentOp(u, name, a, publicId) =>
      if Authenticated(db, u) then RegisterAgent(db, u, name, a, publicId).Final(db) else db
    case CreateShareOp(u, a, g, from, until, max, id) =>
      if Authenticated(db, u) then CreateShare(db, u, a, g, from, until, max, id).Final(db) else db
    case SweepOp(pendingToo) => Sweep(db, pendingToo)
    case TransitionOp(actor, id, action) =>
      if Authenticated(db, actor)
      then TransitionShare(db, actor, id, action, action.Revoke? && IsAdmin(db, actor)).Final(db) else db
    case IssueOp(u, x, ttl, req, used, t) =>
      if Authenticated(db, u) && Grants(db, u, x) then CreateAccessLease(db, u, x, ttl, req, used, t).Final(db) else db
    case RevokeLeaseOp(t) => RevokeAccessLease(db, t)
    case RenewOp(u, x, req, ttl) =>
      if Authenticated(db, u) && Grants(db, u, x) then RenewAccessRequest(db, u, x, req, ttl) else db
  }

  ghost function Exec(db: Db, ops: seq<Op>): Db
    decreases |ops|
  {
    if ops == [] then db else Exec(Step(db, ops[0]), ops[1..])
  }

  // ----- invariants -----

  ghost predicate AgentsOk(db: Db) {
    && (forall a :: a in db.agents ==> db.agents[a].owner in db.users)
    && (forall a, b :: a in db.agents && b in db.agents && db.agents[a].publicId == db.agents[b].publicId ==> a == b)
    && (forall a, b | a in db.agents && b in db.agents &&
                      db.agents[a].owner == db.agents[b].owner && db.agents[a].name == db.agents[b].name :: a == b)
  }

  // A share belongs to its agent's owner, and its other columns satisfy the table's checks.
  ghost predicate ShareOk(db: Db, s: Share) {
    s.agent in db.agents && s.owner == db.agents[s.agent].owner && s.owner in db.users && s.grantee in db.users &&
    s.owner != s.grantee && 1 <= s.version <= VERSION_LIMIT && s.terms.Ordered()
  }

  ghost predicate SharesOk(db: Db) { forall s :: s in db.shares ==> ShareOk(db, db.shares[s]) }

  // At most one open share for an agent and a grantee.
  ghost predicate OneOpen(shares: map<ShareId, Share>) {
    forall s, r | s in shares && r in shares && shares[s].status.Open() && shares[r].status.Open() &&
                  shares[s].agent == shares[r].agent && shares[s].grantee == shares[r].grantee :: s == r
  }

  // A lease carries its share's agent, owner and grantee, and no version the share has not had.
  ghost predicate LeaseOk(db: Db, l: Lease) {
    l.agent in db.agents && l.owner == db.agents[l.agent].owner && l.expiresAt <= db.now + 7 * DAY &&
    match l.share
    case None => l.subject == l.owner && l.version == 0
    case Some(s) => s in db.shares && db.shares[s].agent == l.agent && db.shares[s].owner == l.owner &&
                    db.shares[s].grantee == l.subject && 1 <= l.version <= db.shares[s].version
  }

  ghost predicate LeasesOk(db: Db) { forall t :: t in db.leases ==> LeaseOk(db, db.leases[t]) }

  // What holds whatever the timing of a handler's statements.
  ghost predicate Sound(db: Db) { AgentsOk(db) && SharesOk(db) && OneOpen(db.shares) && LeasesOk(db) }

  ghost predicate Inactive(db: Db, u: UserId) { u in db.users && !db.users[u].status.Enabled? }

  // A user who is not active has nothing open.
  ghost predicate InactiveHasNothing(db: Db) {
    && (forall t :: t in db.sessions ==> db.sessions[t].user in db.users)
    && (forall t :: t in db.sessions && db.sessions[t].live ==> !Inactive(db, db.sessions[t].user))
    && (forall t :: t in db.leases && !db.leases[t].revoked ==>
          !Inactive(db, db.leases[t].subject) && !Inactive(db, db.leases[t].owner))
    && (forall s :: s in db.shares && db.shares[s].status.Open() ==>
          !Inactive(db, db.shares[s].owner) && !Inactive(db, db.shares[s].grantee))
  }

  predicate WithoutLease(status: ShareStatus) { status.Pending? || status.Declined? || status.Revoked? }

  // Ending a share by decline or revocation leaves no lease of it in force.
  ghost predicate EndedHasNoLease(db: Db) {
    forall t | t in db.leases && db.leases[t].share.Some? && db.leases[t].share.value in db.shares ::
      WithoutLease(db.shares[db.leases[t].share.value].status) ==> db.leases[t].revoked
  }

  ghost predicate Inv(db: Db) { Sound(db) && InactiveHasNothing(db) && EndedHasNoLease(db) }

  ghost predicate Initial(db: Db) {
    db.sessions == map[] && db.shares == map[] && db.leases == map[] && db.log == [] && AgentsOk(db)
  }

  // ----- what can never be undone -----

  // Rows are never deleted, their identity never changes, closed shares and revoked leases stay so,
  // versions and lease ends never go back, and the log only grows.
  ghost predicate Evolves(a: Db, b: Db) {
    && a.now <= b.now && a.users.Keys <= b.users.Keys && a.log <= b.log
    && (forall k :: k in a.agents ==> k in b.agents && b.agents[k] == a.agents[k])
    && (forall s :: s in a.shares ==> s in b.shares && ShareEvolves(a.shares[s], b.shares[s]))
    && (forall t :: t in a.leases ==> t in b.leases && LeaseEvolves(a.leases[t], b.leases[t]))
  }

  ghost predicate ShareEvolves(s: Share, r: Share) {
    s.agent == r.agent && s.owner == r.owner && s.grantee == r.grantee && s.version <= r.version &&
    (s.version == r.version ==> s.terms == r.terms) && (!s.status.Open() ==> r == s) &&
    (s.status.Active? ==> !r.status.Pending?)
  }

  ghost predicate LeaseEvolves(l: Lease, m: Lease) {
    m == l.(expiresAt := m.expiresAt, revoked := m.revoked) && l.expiresAt <= m.expiresAt && (l.revoked ==> m.revoked)
  }

  lemma EvolvesTransitive(a: Db, b: Db, c: Db)
    requires Evolves(a, b) && Evolves(b, c)
    ensures Evolves(a, c)
  {
    forall s | s in a.shares ensures s in c.shares && ShareEvolves(a.shares[s], c.shares[s]) {
      assert ShareEvolves(a.shares[s], b.shares[s]) && ShareEvolves(b.shares[s], c.shares[s]);
    }
    forall t | t in a.leases ensures t in c.leases && LeaseEvolves(a.leases[t], c.leases[t]) {
      assert LeaseEvolves(a.leases[t], b.leases[t]) && LeaseEvolves(b.leases[t], c.leases[t]);
    }
  }

  // ----- each transaction keeps the tables sound and only moves them forward -----

  lemma CreateUserSound(db: Db, u: UserId, role: Role)
    requires Sound(db)
    ensures var d := CreateUser(db, u, role).Final(db); Sound(d) && Evolves(db, d)
  {}

  lemma LoginSound(db: Db, u: UserId, t: Token, ttl: int)
    requires Sound(db)
    ensures var d := Login(db, u, t, ttl).Final(db); Sound(d) && Evolves(db, d)
  {}

  // No row is added, and what changes in place breaks no check of its table.
  ghost predicate InPlace(a: Db, b: Db) {
    && Evolves(a, b) && b.agents == a.agents && b.shares.Keys == a.shares.Keys && b.leases.Keys == a.leases.Keys
    && (forall s :: s in b.shares ==> ShareInPlace(a.shares[s], b.shares[s]))
    && (forall t :: t in b.leases ==> b.leases[t].expiresAt <= a.leases[t].expiresAt ||
                                      b.leases[t].expiresAt <= b.now + 7 * DAY)
  }

  ghost predicate ShareInPlace(s: Share, r: Share) {
    (r.status.Open() ==> s.status.Open()) && (s.terms.Ordered() ==> r.terms.Ordered()) &&
    (r.version == s.version || r.version <= VERSION_LIMIT)
  }

  lemma InPlaceSound(a: Db, b: Db)
    requires Sound(a) && InPlace(a, b)
    ensures Sound(b)
  {
    forall s | s in b.shares ensures ShareOk(b, b.shares[s]) {
      assert ShareOk(a, a.shares[s]) && ShareEvolves(a.shares[s], b.shares[s]) &&
             ShareInPlace(a.shares[s], b.shares[s]);
    }
    assert OneOpen(b.shares) by {
      forall s, r | s in b.shares && r in b.shares && b.shares[s].status.Open() && b.shares[r].status.Open() &&
                    b.shares[s].agent == b.shares[r].agent && b.shares[s].grantee == b.shares[r].grantee
        ensures s == r
      {
        assert ShareEvolves(a.shares[s], b.shares[s]) && ShareEvolves(a.shares[r], b.shares[r]);
        assert ShareInPlace(a.shares[s], b.shares[s]) && ShareInPlace(a.shares[r], b.shares[r]);
      }
    }
    forall t | t in b.leases ensures LeaseOk(b, b.leases[t]) {
      assert LeaseOk(a, a.leases[t]) && LeaseEvolves(a.leases[t], b.leases[t]);
      if a.leases[t].share.Some? {
        var s := a.leases[t].share.value;
        assert ShareEvolves(a.shares[s], b.shares[s]);
      }
    }
  }

  lemma TickSound(db: Db, at: Time)
    requires Sound(db)
    ensures var d := Step(db, TickOp(at)); Sound(d) && Evolves(db, d)
  {
    TickInPlace(db, at);
    InPlaceSound(db, Step(db, TickOp(at)));
  }

  lemma TickInPlace(db: Db, at: Time)
    ensures InPlace(db, Step(db, TickOp(at)))
  {}

  lemma LogoutSound(db: Db, t: Token)
    requires Sound(db)
    ensures var d := RevokeSession(db, t).Final(db); Sound(d) && Evolves(db, d)
  {}

  lemma UpdateUserInPlace(db: Db, actor: UserId, target: UserId, status: Requested<UserStatus>, role: Requested<Role>)
    ensures InPlace(db, UpdateUserLifecycle(db, actor, target, status, role).Final(db))
  {
    NothingInPlace(db);
    if LifecycleError(db.users, actor, target, status, role).None? {
      var next := Amended(db.users[target], status, role);
      var row := UserUpdated(actor, target, next.status, next.role);
      ClosedInPlace(db, db.users[target := next], db.log + [row], target);
    }
  }

  lemma ClosedInPlace(db: Db, users: map<UserId, User>, log: seq<AuditRow>, user: UserId)
    requires db.users.Keys <= users.Keys && db.log <= log
    ensures InPlace(db, Closed(db.(users := users, log := log), user))
  {}

  lemma RegisterAgentSound(db: Db, u: UserId, name: string, a: AgentId, publicId: string)
    requires Sound(db)
    ensures var d := RegisterAgent(db, u, name, a, publicId).Final(db); Sound(d) && Evolves(db, d)
  {
    var agents := RegisterAgent(db, u, name, a, publicId).Final(db).agents;
    RegisteredOk(db, u, name, a, publicId);
    MoreAgentsSound(db, agents);
  }

  lemma RegisteredOk(db: Db, u: UserId, name: string, a: AgentId, publicId: string)
    requires AgentsOk(db)
    ensures AgentsOk(RegisterAgent(db, u, name, a, publicId).Final(db))
  {}

  lemma MoreAgentsSound(db: Db, agents: map<AgentId, Agent>)
    requires Sound(db) && AgentsOk(db.(agents := agents))
    requires forall a :: a in db.agents ==> a in agents && agents[a] == db.agents[a]
    ensures Sound(db.(agents := agents)) && Evolves(db, db.(agents := agents))
  {
    var d := db.(agents := agents);
    forall s | s in d.shares ensures ShareOk(d, d.shares[s]) { assert ShareOk(db, db.shares[s]); }
    forall t | t in d.leases ensures LeaseOk(d, d.leases[t]) { assert LeaseOk(db, db.leases[t]); }
  }

  // With the foreign keys in force the clean-up before an insert finds nothing.
  lemma NoOrphans(db: Db, agent: AgentId, grantee: UserId)
    requires Sound(db)
    ensures Orphans(db, agent, grantee) == {}
    ensures db.shares - Orphans(db, agent, grantee) == db.shares
  {
    assert forall s :: s in db.shares ==> ShareOk(db, db.shares[s]);
  }

  lemma CreateShareSound(db: Db, u: UserId, a: AgentId, g: UserId, from: Option<Time>, until: Option<Time>,
                         max: int, id: ShareId)
    requires Sound(db)
    ensures var d := CreateShare(db, u, a, g, from, until, max, id).Final(db); Sound(d) && Evolves(db, d)
  {
    NoOrphans(db, a, g);
    NothingInPlace(db);
    var o := CreateShare(db, u, a, g, from, until, max, id);
    if o.Committed? { AddedShareSound(db, id, o.db.shares[id], ShareCreated(u, id, u, g)); }
  }

  lemma AddedShareSound(db: Db, id: ShareId, share: Share, row: AuditRow)
    requires Sound(db) && id !in db.shares && ShareOk(db, share) && !OpenPair(db.shares, share.agent, share.grantee)
    ensures var d := db.(shares := db.shares[id := share], log := db.log + [row]); Sound(d) && Evolves(db, d)
  {
    var d := db.(shares := db.shares[id := share], log := db.log + [row]);
    forall s | s in d.shares ensures ShareOk(d, d.shares[s]) { assert s != id ==> ShareOk(db, db.shares[s]); }
    forall t | t in d.leases ensures LeaseOk(d, d.leases[t]) { assert LeaseOk(db, db.leases[t]); }
  }

  lemma TransitionInPlace(db: Db, actor: UserId, id: ShareId, action: Action, admin: bool)
    ensures InPlace(db, TransitionShare(db, actor, id, action, admin).Final(db))
  {
    var d := TransitionShare(db, actor, id, action, admin).Final(db);
    if d != db {
      MovedForward(db.shares[id], actor, action, admin);
      forall s | s in d.shares
        ensures ShareEvolves(db.shares[s], d.shares[s]) && ShareInPlace(db.shares[s], d.shares[s])
      {
        assert s != id ==> d.shares[s] == db.shares[s];
      }
    }
  }

  lemma MovedForward(s: Share, actor: UserId, action: Action, admin: bool)
    requires Permitted(s, actor, action, admin)
    ensures ShareEvolves(s, Moved(s, action))
    ensures Moved(s, action).terms.Ordered() && Moved(s, action).version <= VERSION_LIMIT ==>
            ShareInPlace(s, Moved(s, action))
  {}

  lemma UpdateUserSound(db: Db, actor: UserId, target: UserId, status: Requested<UserStatus>, role: Requested<Role>)
    ensures Sound(db) ==> Sound(UpdateUserLifecycle(db, actor, target, status, role).Final(db))
  {
    if Sound(db) {
      UpdateUserInPlace(db, actor, target, status, role);
      InPlaceSound(db, UpdateUserLifecycle(db, actor, target, status, role).Final(db));
    }
  }

  lemma TransitionSound(db: Db, actor: UserId, id: ShareId, action: Action, admin: bool)
    ensures Sound(db) ==> Sound(TransitionShare(db, actor, id, action, admin).Final(db))
  {
    if Sound(db) {
      TransitionInPlace(db, actor, id, action, admin);
      InPlaceSound(db, TransitionShare(db, actor, id, action, admin).Final(db));
    }
  }

  lemma SweepInPlace(db: Db, pendingToo: bool)
    ensures InPlace(db, Sweep(db, pendingToo))
  {}

  // The row an access was read from, as far as it can never change, and no later version than now.
  ghost predicate Derived(db: Db, user: UserId, x: Access) {
    user in db.users && x.agent in db.agents && x.owner == db.agents[x.agent].owner && x.owner in db.users &&
    if x.shared
    then x.share.Some? && x.share.value in db.shares && db.shares[x.share.value].agent == x.agent &&
         db.shares[x.share.value].grantee == user && 1 <= x.version <= db.shares[x.share.value].version
    else x.owner == user && x.share.None? && x.version == 0
  }

  lemma GrantsDerived(db: Db, user: UserId, x: Access)
    requires Sound(db) && user in db.users && Grants(db, user, x)
    ensures Derived(db, user, x)
  {
    if x.share.Some? { assert ShareOk(db, db.shares[x.share.value]); }
  }

  lemma DerivedStays(a: Db, b: Db, user: UserId, x: Access)
    requires Evolves(a, b) && Derived(a, user, x)
    ensures Derived(b, user, x)
  {
    if x.shared {
      var s := x.share.value;
      assert ShareEvolves(a.shares[s], b.shares[s]);
    }
  }

  lemma IssueSound(db: Db, user: UserId, x: Access, ttl: int, req: string, used: int, t: Ticket)
    requires Sound(db) && Derived(db, user, x)
    ensures var d := CreateAccessLease(db, user, x, ttl, req, used, t).Final(db); Sound(d) && Evolves(db, d)
  {
    LeaseForOk(db, user, x, ttl, req);
    AddedLeaseSound(db, t, LeaseFor(db, user, x, ttl, req));
  }

  lemma LeaseForOk(db: Db, user: UserId, x: Access, ttl: int, req: string)
    requires Sound(db) && Derived(db, user, x)
    ensures LeaseOk(db, LeaseFor(db, user, x, ttl, req))
  {
    if x.shared {
      var s := x.share.value;
      assert ShareOk(db, db.shares[s]);
    }
  }

  lemma AddedLeaseSound(db: Db, t: Ticket, l: Lease)
    requires Sound(db) && LeaseOk(db, l)
    ensures t !in db.leases ==> var d := db.(leases := db.leases[t := l]); Sound(d) && Evolves(db, d)
  {
    var d := db.(leases := db.leases[t := l]);
    forall k | k in d.leases && k != t ensures LeaseOk(d, d.leases[k]) { assert LeaseOk(db, db.leases[k]); }
    assert LeaseOk(d, l);
  }

  lemma RevokeLeaseInPlace(db: Db, t: Ticket)
    ensures InPlace(db, RevokeAccessLease(db, t))
  {}

  lemma RenewInPlace(db: Db, user: UserId, x: Access, req: string, ttl: int)
    ensures InPlace(db, RenewAccessRequest(db, user, x, req, ttl))
  {
    assert RefreshSpan(ttl) <= RenewSpan(ttl) <= 7 * DAY;
  }

  lemma RenewSound(db: Db, user: UserId, x: Access, req: string, ttl: int)
    ensures Sound(db) ==> Sound(RenewAccessRequest(db, user, x, req, ttl))
  {
    if Sound(db) {
      RenewInPlace(db, user, x, req, ttl);
      InPlaceSound(db, RenewAccessRequest(db, user, x, req, ttl));
    }
  }

  lemma IssueStepSound(db: Db, user: UserId, x: Access, ttl: int, req: string, used: int, t: Ticket)
    requires Sound(db) && Authenticated(db, user) && Grants(db, user, x)
    ensures var d := CreateAccessLease(db, user, x, ttl, req, used, t).Final(db); Sound(d) && Evolves(db, d)
  {
    GrantsDerived(db, user, x);
    IssueSound(db, user, x, ttl, req, used, t);
  }

  lemma PlainStepSound(db: Db, op: Op)
    requires Sound(db) && (op.TickOp? || op.CreateUserOp? || op.LoginOp? || op.LogoutOp?)
    ensures Sound(Step(db, op)) && Evolves(db, Step(db, op))
  {
    match op
    case TickOp(at) => TickSound(db, at);
    case CreateUserOp(u, role) => CreateUserSound(db, u, role);
    case LoginOp(u, t, ttl) => LoginSound(db, u, t, ttl);
    case LogoutOp(t) => LogoutSound(db, t);
  }

  lemma AddingStepSound(db: Db, op: Op)
    requires Sound(db) && (op.RegisterAgentOp? || op.CreateShareOp? || op.IssueOp?)
    ensures Sound(Step(db, op)) && Evolves(db, Step(db, op))
  {
    NothingInPlace(db);
    match op
    case RegisterAgentOp(u, name, a, publicId) => RegisterAgentSound(db, u, name, a, publicId);
    case CreateShareOp(u, a, g, from, until, max, id) => CreateShareSound(db, u, a, g, from, until, max, id);
    case IssueOp(u, x, ttl, req, used, t) =>
      if Authenticated(db, u) && Grants(db, u, x) { IssueStepSound(db, u, x, ttl, req, used, t); }
  }

  lemma StepSound(db: Db, op: Op)
    requires Sound(db)
    ensures Sound(Step(db, op)) && Evolves(db, Step(db, op))
  {
    if op.TickOp? || op.CreateUserOp? || op.LoginOp? || op.LogoutOp? { PlainStepSound(db, op); }
    else if op.RegisterAgentOp? || op.CreateShareOp? || op.IssueOp? { AddingStepSound(db, op); }
    else {
      StepInPlace(db, op);
      InPlaceSound(db, Step(db, op));
    }
  }

  lemma LeasesUntouched(db: Db, op: Op)
    requires !op.IssueOp? && !op.RenewOp? && !op.RevokeLeaseOp? && !op.TransitionOp? && !op.UpdateUserOp?
    ensures Step(db, op).leases == db.leases
  {}

  lemma NoNewTicket(db: Db, op: Op)
    requires !op.IssueOp?
    ensures Step(db, op).leases.Keys == db.leases.Keys
  {
    if op.UpdateUserOp? || op.TransitionOp? || op.RevokeLeaseOp? || op.RenewOp? { StepInPlace(db, op); }
    else { LeasesUntouched(db, op); }
  }

  lemma StepInPlace(db: Db, op: Op)
    requires op.UpdateUserOp? || op.SweepOp? || op.TransitionOp? || op.RevokeLeaseOp? || op.RenewOp?
    ensures InPlace(db, Step(db, op))
  {
    NothingInPlace(db);
    match op
    case UpdateUserOp(actor, target, status, role) => UpdateUserInPlace(db, actor, target, status, role);
    case SweepOp(pendingToo) => SweepInPlace(db, pendingToo);
    case TransitionOp(actor, id, action) =>
      TransitionInPlace(db, actor, id, action, action.Revoke? && IsAdmin(db, actor));
    case RevokeLeaseOp(t) => RevokeLeaseInPlace(db, t);
    case RenewOp(u, x, req, ttl) => RenewInPlace(db, u, x, req, ttl);
  }

  lemma NothingInPlace(db: Db)
    ensures InPlace(db, db)
  {}

  // In every run the tables stay sound and only move forward.
  lemma {:induction false} ExecSound(db: Db, ops: seq<Op>)
    requires Sound(db)
    ensures Sound(Exec(db, ops)) && Evolves(db, Exec(db, ops))
    decreases |ops|
  {
    if ops != [] {
      StepSound(db, ops[0]);
      ExecSound(Step(db, ops[0]), ops[1..]);
      EvolvesTransitive(db, Step(db, ops[0]), Exec(db, ops));
    }
  }
}

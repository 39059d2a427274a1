/**
 Safety of whole runs of the store when every handler is atomic: what a deactivated account
 and an ended share leave behind, and that an administrator always remains.
 */
module AccessSafety {
  import opened Basics
  import opened AccessModel
  import opened AccessRuns

  // ----- an account that is not active has nothing open -----

  lemma CreateUserInv(db: Db, u: UserId, role: Role)
    requires Inv(db)
    ensures InactiveHasNothing(CreateUser(db, u, role).Final(db))
  {
    assert forall s :: s in db.shares ==> ShareOk(db, db.shares[s]);
    assert forall t :: t in db.leases ==> LeaseOk(db, db.leases[t]);
  }

  lemma UpdateUserInactive(db: Db, actor: UserId, target: UserId, status: Requested<UserStatus>, role: Requested<Role>)
    requires InactiveHasNothing(db)
    ensures InactiveHasNothing(UpdateUserLifecycle(db, actor, target, status, role).Final(db))
  {
    if LifecycleError(db.users, actor, target, status, role).None? {
      var next := Amended(db.users[target], status, role);
      var log := db.log + [UserUpdated(actor, target, next.status, next.role)];
      if next.status.Enabled? {
        EnabledInactive(db, target, next, log);
      } else {
        ClosedInactive(db, target, next, log);
      }
    }
  }

  lemma EnabledInactive(db: Db, user: UserId, next: User, log: seq<AuditRow>)
    requires InactiveHasNothing(db) && next.status.Enabled?
    ensures InactiveHasNothing(db.(users := db.users[user := next], log := log))
  {}

  lemma ClosedInactive(db: Db, user: UserId, next: User, log: seq<AuditRow>)
    requires InactiveHasNothing(db)
    ensures InactiveHasNothing(Closed(db.(users := db.users[user := next], log := log), user))
  {}

  lemma UpdateUserEnded(db: Db, actor: UserId, target: UserId, status: Requested<UserStatus>, role: Requested<Role>)
    requires LeasesOk(db) && EndedHasNoLease(db)
    ensures EndedHasNoLease(UpdateUserLifecycle(db, actor, target, status, role).Final(db))
  {
    var d := UpdateUserLifecycle(db, actor, target, status, role).Final(db);
    forall t | t in d.leases && d.leases[t].share.Some? && d.leases[t].share.value in d.shares &&
               WithoutLease(d.shares[d.leases[t].share.value].status)
      ensures d.leases[t].revoked
    {
      assert LeaseOk(db, db.leases[t]);
      var s := d.leases[t].share.value;
      assert s in db.shares;
    }
  }

  lemma CreateShareInv(db: Db, u: UserId, a: AgentId, g: UserId, from: Option<Time>, until: Option<Time>,
                       max: int, id: ShareId)
    requires Inv(db) && Authenticated(db, u)
    ensures InactiveHasNothing(CreateShare(db, u, a, g, from, until, max, id).Final(db))
    ensures EndedHasNoLease(CreateShare(db, u, a, g, from, until, max, id).Final(db))
  {
    NoOrphans(db, a, g);
    var d := CreateShare(db, u, a, g, from, until, max, id).Final(db);
    forall t | t in db.leases && db.leases[t].share.Some? ensures db.leases[t].share.value in db.shares {
      assert LeaseOk(db, db.leases[t]);
    }
  }

  lemma SweepInv(db: Db, pendingToo: bool)
    requires Inv(db)
    ensures InactiveHasNothing(Sweep(db, pendingToo)) && EndedHasNoLease(Sweep(db, pendingToo))
  {}

  lemma TransitionInv(db: Db, actor: UserId, id: ShareId, action: Action, admin: bool)
    requires Inv(db)
    ensures InactiveHasNothing(TransitionShare(db, actor, id, action, admin).Final(db))
    ensures EndedHasNoLease(TransitionShare(db, actor, id, action, admin).Final(db))
  {}

  lemma IssueInv(db: Db, user: UserId, x: Access, ttl: int, req: string, used: int, t: Ticket)
    requires Inv(db) && Authenticated(db, user) && Grants(db, user, x)
    ensures InactiveHasNothing(CreateAccessLease(db, user, x, ttl, req, used, t).Final(db))
    ensures EndedHasNoLease(CreateAccessLease(db, user, x, ttl, req, used, t).Final(db))
  {}

  ghost predicate Extra(db: Db) { InactiveHasNothing(db) && EndedHasNoLease(db) }

  // The leases of b are those of a, possibly revoked or renewed; nothing else has moved.
  lemma LeaseUpdateInv(a: Db, b: Db)
    requires Extra(a) && b == a.(leases := b.leases) && b.leases.Keys == a.leases.Keys
    requires forall t :: t in b.leases ==> LeaseEvolves(a.leases[t], b.leases[t])
    ensures Extra(b)
  {
    forall t | t in b.leases ensures LeaseEvolves(a.leases[t], b.leases[t]) {}
  }

  lemma StepInv(db: Db, op: Op)
    requires Inv(db)
    ensures Inv(Step(db, op))
  {
    StepSound(db, op);
    if op.CreateUserOp? { CreateUserInv(db, op.user, op.granted); }
    else if op.UpdateUserOp? {
      UpdateUserInactive(db, op.actor, op.target, op.status, op.role);
      UpdateUserEnded(db, op.actor, op.target, op.status, op.role);
    }
    else if op.CreateShareOp? {
      if Authenticated(db, op.user) {
        CreateShareInv(db, op.user, op.agent, op.grantee, op.from, op.until, op.maxTasksPerDay, op.id);
      }
    }
    else if op.SweepOp? { SweepInv(db, op.pendingToo); }
    else if op.TransitionOp? {
      TransitionInv(db, op.actor, op.id, op.action, op.action.Revoke? && IsAdmin(db, op.actor));
    }
    else if op.IssueOp? {
      if Authenticated(db, op.user) && Grants(db, op.user, op.access) {
        IssueInv(db, op.user, op.access, op.ttl, op.requestId, op.usedToday, op.ticket);
      }
    }
    else if op.RevokeLeaseOp? || op.RenewOp? {
      StepInPlace(db, op);
      LeaseUpdateInv(db, Step(db, op));
    }
    else { PlainInv(db, op); }
  }

  lemma PlainInv(db: Db, op: Op)
    requires Extra(db) && (op.TickOp? || op.LoginOp? || op.LogoutOp? || op.RegisterAgentOp?)
    ensures Extra(Step(db, op))
  {}

  lemma {:induction false} ReachableInv(db: Db, ops: seq<Op>)
    requires Inv(db)
    ensures Inv(Exec(db, ops))
    decreases |ops|
  {
    if ops != [] {
      StepInv(db, ops[0]);
      ReachableInv(Step(db, ops[0]), ops[1..]);
    }
  }

  // In every state reached from empty tables, an account that is not active has no live session,
  // no unrevoked lease on either side and no open share on either side.
  lemma InactiveAccountIsClosed(db: Db, ops: seq<Op>, u: UserId)
    requires Initial(db)
    ensures var d := Exec(db, ops);
            Inactive(d, u) ==>
              && (forall t :: t in d.sessions && d.sessions[t].user == u ==> !d.sessions[t].live)
              && (forall t :: t in d.leases && u in {d.leases[t].subject, d.leases[t].owner} ==> d.leases[t].revoked)
              && (forall s :: s in d.shares && d.shares[s].Party(u) ==> !d.shares[s].status.Open())
  {
    ReachableInv(db, ops);
  }

  // ----- an administrator remains -----

  ghost predicate HasAdmin(db: Db) {
    exists u :: u in db.users && db.users[u] == User(Admin, Enabled)
  }

  // If two administrators are active, one of them is not the target.
  lemma AnotherAdmin(users: map<UserId, User>, target: UserId) returns (other: UserId)
    requires |ActiveAdmins(users)| > 1
    ensures other in users && other != target && users[other] == User(Admin, Enabled)
  {
    if forall u :: u in ActiveAdmins(users) ==> u == target {
      SubsetSize(ActiveAdmins(users), {target});
    }
    other :| other in ActiveAdmins(users) && other != target;
  }

  lemma {:induction false} SubsetSize<T>(a: set<T>, b: set<T>)
    requires a <= b
    ensures |a| <= |b|
  {
    if a != {} {
      var x :| x in a;
      SubsetSize(a - {x}, b - {x});
    }
  }

  lemma StepKeepsAdmin(db: Db, op: Op)
    requires HasAdmin(db)
    ensures HasAdmin(Step(db, op))
  {
    var u :| u in db.users && db.users[u] == User(Admin, Enabled);
    var d := Step(db, op);
    if u !in d.users || d.users[u] != db.users[u] {
      var other := AnotherAdmin(db.users, u);
      assert other in d.users && d.users[other] == User(Admin, Enabled);
    }
  }

  lemma {:induction false} AdminRemains(db: Db, ops: seq<Op>)
    requires HasAdmin(db)
    ensures HasAdmin(Exec(db, ops))
    decreases |ops|
  {
    if ops != [] {
      StepKeepsAdmin(db, ops[0]);
      AdminRemains(Step(db, ops[0]), ops[1..]);
    }
  }

  // ----- revocation lasts -----

  // The share is closed and no lease issued under it is in force.
  ghost predicate Dead(db: Db, s: ShareId) {
    s in db.shares && !db.shares[s].status.Open() &&
    forall t :: t in db.leases && db.leases[t].share == Some(s) ==> db.leases[t].revoked
  }

  // Revoking or declining a share kills it.
  lemma EndedIsDead(db: Db, s: ShareId)
    requires Inv(db) && s in db.shares && (db.shares[s].status.Revoked? || db.shares[s].status.Declined?)
    ensures Dead(db, s)
  {}

  lemma DeactivationKills(db: Db, actor: UserId, target: UserId, status: Requested<UserStatus>, role: Requested<Role>,
                          s: ShareId)
    requires Inv(db) && s in db.shares && db.shares[s].Party(target)
    requires UpdateUserLifecycle(db, actor, target, status, role).Committed?
    requires Inactive(UpdateUserLifecycle(db, actor, target, status, role).db, target)
    ensures Dead(UpdateUserLifecycle(db, actor, target, status, role).db, s)
  {
    var d := UpdateUserLifecycle(db, actor, target, status, role).db;
    forall t | t in d.leases && d.leases[t].share == Some(s) ensures d.leases[t].revoked {
      assert LeaseOk(db, db.leases[t]);
    }
  }

  // No ticket is issued under a share that is closed.
  lemma IssueKeepsDead(db: Db, user: UserId, x: Access, ttl: int, req: string, used: int, t: Ticket, s: ShareId)
    requires Dead(db, s) && Grants(db, user, x)
    ensures Dead(CreateAccessLease(db, user, x, ttl, req, used, t).Final(db), s)
  {}

  lemma OthersKeepDead(a: Db, b: Db, s: ShareId)
    requires Dead(a, s) && Evolves(a, b) && b.leases.Keys == a.leases.Keys
    ensures Dead(b, s)
  {
    assert ShareEvolves(a.shares[s], b.shares[s]);
    forall t | t in b.leases ensures LeaseEvolves(a.leases[t], b.leases[t]) {}
  }

  lemma StepKeepsDead(db: Db, op: Op, s: ShareId)
    requires Sound(db) && Dead(db, s)
    ensures Dead(Step(db, op), s)
  {
    if op.IssueOp? {
      if Grants(db, op.user, op.access) {
        IssueKeepsDead(db, op.user, op.access, op.ttl, op.requestId, op.usedToday, op.ticket, s);
      }
    } else {
      StepSound(db, op);
      NoNewTicket(db, op);
      OthersKeepDead(db, Step(db, op), s);
    }
  }

  lemma {:induction false} DeadForever(db: Db, ops: seq<Op>, s: ShareId)
    requires Sound(db) && Dead(db, s)
    ensures Dead(Exec(db, ops), s)
    decreases |ops|
  {
    if ops != [] {
      StepKeepsDead(db, ops[0], s);
      StepSound(db, ops[0]);
      DeadForever(Step(db, ops[0]), ops[1..], s);
    }
  }

  // Every ticket this subject got for the request id was a ticket of share s.
  ghost predicate OnlyTicketsOf(db: Db, s: ShareId, subject: UserId, requestId: string) {
    forall t | t in db.leases && db.leases[t].requestId == requestId && db.leases[t].subject == subject ::
      db.leases[t].share == Some(s)
  }

  // The request can be renewed on a ticket that is not of this share.
  ghost predicate OnOtherTicket(db: Db, s: ShareId, subject: UserId, x: Access, requestId: string) {
    exists t | t in db.leases && db.leases[t].share != Some(s) :: Candidate(db.leases[t], db.now, subject, x, requestId)
  }

  // A stream that passes its check after a share died lives on a ticket that is not of that share.
  lemma DeadShareAuthorizesNothing(db: Db, s: ShareId, ops: seq<Op>, token: Token, subject: UserId, x: Access,
                                   accessId: string, ownerKey: UserId, nameKey: string, requestId: string)
    returns (t: Ticket)
    requires Sound(db) && Dead(db, s)
    requires StreamAuthorized(Exec(db, ops), token, subject, x, accessId, ownerKey, nameKey, requestId)
    ensures var d := Exec(db, ops);
            t in d.leases && Candidate(d.leases[t], d.now, subject, x, requestId) && d.leases[t].share != Some(s)
  {
    DeadForever(db, ops, s);
    var d := Exec(db, ops);
    t :| t in d.leases && Candidate(d.leases[t], d.now, subject, x, requestId);
  }

  // Once a share is revoked, whatever happens later, a new share of the same agent included: a stream that passes its
  // check has a live ticket under something else, and one whose request id only ever came with tickets of that share
  // fails at every tick.
  lemma RevocationLasts(db: Db, s: ShareId, ops: seq<Op>, token: Token, subject: UserId, x: Access, accessId: string,
                        ownerKey: UserId, nameKey: string, requestId: string)
    requires Inv(db) && s in db.shares && db.shares[s].status.Revoked?
    ensures var d := Exec(db, ops);
            StreamAuthorized(d, token, subject, x, accessId, ownerKey, nameKey, requestId) ==>
              !OnlyTicketsOf(d, s, subject, requestId) && OnOtherTicket(d, s, subject, x, requestId)
  {
    EndedIsDead(db, s);
    if StreamAuthorized(Exec(db, ops), token, subject, x, accessId, ownerKey, nameKey, requestId) {
      var t := DeadShareAuthorizesNothing(db, s, ops, token, subject, x, accessId, ownerKey, nameKey, requestId);
    }
  }

  // The same after the account of its owner or of its grantee was disabled or deleted, and even if it is enabled again.
  lemma DeactivationLasts(db: Db, actor: UserId, target: UserId, status: Requested<UserStatus>, role: Requested<Role>,
                          s: ShareId, ops: seq<Op>, token: Token, subject: UserId, x: Access, accessId: string,
                          ownerKey: UserId, nameKey: string, requestId: string)
    requires Inv(db) && s in db.shares && db.shares[s].Party(target)
    requires UpdateUserLifecycle(db, actor, target, status, role).Committed?
    requires Inactive(UpdateUserLifecycle(db, actor, target, status, role).db, target)
    ensures var d := Exec(UpdateUserLifecycle(db, actor, target, status, role).db, ops);
            StreamAuthorized(d, token, subject, x, accessId, ownerKey, nameKey, requestId) ==>
              !OnlyTicketsOf(d, s, subject, requestId) && OnOtherTicket(d, s, subject, x, requestId)
  {
    var d := UpdateUserLifecycle(db, actor, target, status, role).db;
    DeactivationKills(db, actor, target, status, role, s);
    UpdateUserInPlace(db, actor, target, status, role);
    InPlaceSound(db, d);
    if StreamAuthorized(Exec(d, ops), token, subject, x, accessId, ownerKey, nameKey, requestId) {
      var t := DeadShareAuthorizesNothing(d, s, ops, token, subject, x, accessId, ownerKey, nameKey, requestId);
    }
  }
}

/**
 What each transaction means for the columns of every row, and exactly when it goes through, said of the columns alone
 and not of the functions that compute them.
 */
module AccessEffects {
  import opened Basics
  import opened AccessModel
  import opened AccessRuns
  import AccessOverlap

  // ----- accounts -----

  // The value a request asks for a column that holds this one.
  ghost predicate Asked<T>(requested: Requested<T>, before: T, after: T) {
    match requested
    case Unchanged => after == before
    case Wanted(value) => after == value
    case Unrecognised => false
  }

  // A lifecycle change goes through exactly if its columns are known, nobody disables himself, and another active
  // administrator is there if the target will not be one any more.
  lemma LifecycleGoesThrough(db: Db, actor: UserId, target: UserId, status: Requested<UserStatus>,
                             role: Requested<Role>, next: User)
    requires target in db.users
    requires Asked(status, db.users[target].status, next.status) && Asked(role, db.users[target].role, next.role)
    ensures UpdateUserLifecycle(db, actor, target, status, role).Committed? <==>
            && (actor == target ==> next.status == Enabled)
            && (db.users[target] == User(Admin, Enabled) && next != User(Admin, Enabled) ==>
                  exists u :: u in db.users && u != target && db.users[u] == User(Admin, Enabled))
  {
    if db.users[target] == User(Admin, Enabled) && next != User(Admin, Enabled) {
      AccessOverlap.DemotionLeaves(db.users, target, next);
      var others := db.users[target := next];
      assert forall u :: u in db.users && u != target ==> others[u] == db.users[u];
      if u :| u in db.users && u != target && db.users[u] == User(Admin, Enabled) {
        assert others[u] == User(Admin, Enabled);
      }
    }
  }

  lemma LifecycleNeedsKnownColumns(db: Db, actor: UserId, target: UserId, status: Requested<UserStatus>,
                                   role: Requested<Role>)
    requires target !in db.users || status.Unrecognised? || role.Unrecognised?
    ensures UpdateUserLifecycle(db, actor, target, status, role) ==
            Refused(if target !in db.users then NoRows else if status.Unrecognised? then InvalidStatus else InvalidRole)
  {}

  // Nobody else's row, session, lease or share changes, and of the target's just what an inactive account may not have.
  ghost predicate LifecycleFrame(db: Db, d: Db, target: UserId) {
    target in d.users &&
    var ended := d.users[target].status != Enabled;
    && d.users.Keys == db.users.Keys && (forall u :: u in db.users && u != target ==> d.users[u] == db.users[u])
    && d.sessions.Keys == db.sessions.Keys
    && (forall t :: t in db.sessions ==>
          d.sessions[t] == if ended && db.sessions[t].user == target
                           then db.sessions[t].(live := false) else db.sessions[t])
    && d.leases.Keys == db.leases.Keys
    && (forall t :: t in db.leases ==>
          d.leases[t] == if ended && target in {db.leases[t].subject, db.leases[t].owner}
                         then db.leases[t].(revoked := true) else db.leases[t])
    && d.shares.Keys == db.shares.Keys
    && (forall s :: s in db.shares ==>
          d.shares[s] == if ended && target in {db.shares[s].owner, db.shares[s].grantee} &&
                            db.shares[s].status in {Pending, Active}
                         then db.shares[s].(status := Revoked) else db.shares[s])
    && d.agents == db.agents && d.now == db.now
  }

  lemma LifecycleEffect(db: Db, actor: UserId, target: UserId, status: Requested<UserStatus>, role: Requested<Role>)
    requires UpdateUserLifecycle(db, actor, target, status, role).Committed?
    ensures var d := UpdateUserLifecycle(db, actor, target, status, role).db;
            && target in db.users && LifecycleFrame(db, d, target)
            && Asked(status, db.users[target].status, d.users[target].status)
            && Asked(role, db.users[target].role, d.users[target].role)
            && d.log == db.log + [UserUpdated(actor, target, d.users[target].status, d.users[target].role)]
  {}

  // ----- shares -----

  lemma CreateGoesThrough(db: Db, owner: UserId, agent: AgentId, grantee: UserId, from: Option<Time>,
                          until: Option<Time>, max: int, id: ShareId)
    requires Sound(db) && owner in db.users && id !in db.shares
    ensures CreateShare(db, owner, agent, grantee, from, until, max, id).Committed? <==>
            && agent in db.agents && db.agents[agent].owner == owner && owner != grantee
            && grantee in db.users && db.users[grantee].status == Enabled
            && (until.Some? ==> (if from.Some? then from.value else db.now) < until.value)
            && forall s :: s in db.shares && db.shares[s].agent == agent && db.shares[s].grantee == grantee ==>
                             db.shares[s].status !in {Pending, Active}
  {
    NoOrphans(db, agent, grantee);
  }

  lemma CreateEffect(db: Db, owner: UserId, agent: AgentId, grantee: UserId, from: Option<Time>, until: Option<Time>,
                     max: int, id: ShareId)
    requires Sound(db) && CreateShare(db, owner, agent, grantee, from, until, max, id).Committed?
    ensures var d := CreateShare(db, owner, agent, grantee, from, until, max, id).db;
            && id !in db.shares && id in d.shares
            && d == db.(shares := db.shares[id := d.shares[id]],
                        log := db.log + [ShareCreated(owner, id, owner, grantee)])
            && var s := d.shares[id];
            && s.agent == agent && s.owner == owner && s.grantee == grantee && s.status == Pending && s.version == 1
            && s.terms.validUntil == until && s.terms.maxTasksPerDay == max
            && s.terms.validFrom == if from.Some? then from.value else db.now
  {
    NoOrphans(db, agent, grantee);
  }

  // The window an action leaves.
  ghost predicate WindowAfter(s: Share, action: Action, validFrom: Time, validUntil: Option<Time>) {
    if action.Update?
    then validUntil == action.until && validFrom == if action.from.Some? then action.from.value else s.terms.validFrom
    else validUntil == s.terms.validUntil && validFrom == s.terms.validFrom
  }

  // Accept and decline are for the grantee of a pending share; revoke and update are for an open one, revoke by its
  // owner or an administrator, update by its owner with a window that is one.
  lemma TransitionGoesThrough(db: Db, actor: UserId, id: ShareId, action: Action, admin: bool,
                              validFrom: Time, validUntil: Option<Time>)
    requires id in db.shares && db.shares[id].version < 0x7fff_ffff
    requires var terms := db.shares[id].terms; terms.validUntil.Some? ==> terms.validFrom < terms.validUntil.value
    requires WindowAfter(db.shares[id], action, validFrom, validUntil)
    ensures var s := db.shares[id];
            TransitionShare(db, actor, id, action, admin).Committed? <==>
            (match action
             case Accept => actor == s.grantee && s.status == Pending
             case Decline => actor == s.grantee && s.status == Pending
             case Revoke => (actor == s.owner || admin) && s.status in {Pending, Active}
             case Update(_, _, _) => actor == s.owner && s.status in {Pending, Active} &&
                                     (validUntil.Some? ==> validFrom < validUntil.value))
  {}

  // An update takes effect on the terms and raises the version; any other action changes the status alone.
  lemma TransitionEffect(db: Db, actor: UserId, id: ShareId, action: Action, admin: bool)
    requires TransitionShare(db, actor, id, action, admin).Committed?
    ensures var d := TransitionShare(db, actor, id, action, admin).db;
            && id in db.shares && id in d.shares
            && d == db.(shares := db.shares[id := d.shares[id]], leases := d.leases,
                        log := db.log + [ShareMoved(actor, id, action)])
            && var s, r := db.shares[id], d.shares[id];
            && r.agent == s.agent && r.owner == s.owner && r.grantee == s.grantee
            && WindowAfter(s, action, r.terms.validFrom, r.terms.validUntil)
            && r.terms.maxTasksPerDay == (if action.Update? then action.maxTasksPerDay else s.terms.maxTasksPerDay)
            && r.version == (if action.Update? then s.version + 1 else s.version)
            && (match action
                case Accept => r.status == Active
                case Decline => r.status == Declined
                case Revoke => r.status == Revoked
                case Update(_, _, _) => r.status == s.status)
    ensures var d := TransitionShare(db, actor, id, action, admin).db;
            d.leases.Keys == db.leases.Keys &&
            forall t :: t in db.leases ==>
              d.leases[t] == if db.leases[t].share == Some(id) then db.leases[t].(revoked := true) else db.leases[t]
  {}

  lemma SweepEffect(db: Db, pendingToo: bool)
    ensures var d := Sweep(db, pendingToo);
            && d == db.(shares := d.shares) && d.shares.Keys == db.shares.Keys
            && forall s :: s in db.shares ==>
                 var r := db.shares[s];
                 d.shares[s] == if (r.status == Active || (pendingToo && r.status == Pending)) &&
                                   r.terms.validUntil.Some? && r.terms.validUntil.value <= db.now
                                then r.(status := Expired) else r
  {}

  // ----- what a granted row holds -----

  lemma GrantedRow(db: Db, user: UserId, x: Access)
    requires Grants(db, user, x)
    ensures x.agent in db.agents && x.name == db.agents[x.agent].name && x.publicId == db.agents[x.agent].publicId
    ensures x.owner == db.agents[x.agent].owner && (x.shared <==> x.owner != user)
    ensures x.accessId == if x.owner == user then x.name else x.publicId
    ensures x.share.Some? ==>
              && x.share.value in db.shares && x.maxTasksPerDay == db.shares[x.share.value].terms.maxTasksPerDay
              && x.version == db.shares[x.share.value].version
    ensures x.share.None? ==> x.maxTasksPerDay == 0 && x.version == 0 && x.owner == user
  {}

  // The identifiers that find it: for the owner the agent's name and its public id, for a grantee the public id.
  lemma RowFoundBy(db: Db, user: UserId, x: Access, accessId: string)
    requires Grants(db, user, x)
    ensures Matches(x, accessId) <==>
            accessId == db.agents[x.agent].publicId ||
            (db.agents[x.agent].owner == user && accessId == db.agents[x.agent].name)
  {}

  // A grantee is granted exactly the agents of active owners that it holds through an active share within its window.
  lemma GrantedToGrantee(db: Db, user: UserId, agent: AgentId)
    requires agent in db.agents && db.agents[agent].owner != user
    ensures (exists x :: Grants(db, user, x) && x.agent == agent) <==>
            && db.agents[agent].owner in db.users && db.users[db.agents[agent].owner].status == Enabled
            && exists s | s in db.shares && db.shares[s].agent == agent && db.shares[s].grantee == user ::
                 db.shares[s].status == Active && db.shares[s].terms.validFrom <= db.now &&
                 (db.shares[s].terms.validUntil.Some? ==> db.now < db.shares[s].terms.validUntil.value)
  {
    if db.agents[agent].owner in db.users && db.users[db.agents[agent].owner].status == Enabled {
      if s :| s in db.shares && db.shares[s].agent == agent && Joins(db, user, s) {
        assert Grants(db, user, Row(db, user, agent, Some(s)));
      }
    }
  }

  lemma GrantedToOwner(db: Db, agent: AgentId)
    requires agent in db.agents && db.agents[agent].owner in db.users
    ensures (exists x :: Grants(db, db.agents[agent].owner, x) && x.agent == agent) <==>
            db.users[db.agents[agent].owner].status == Enabled
  {
    var user := db.agents[agent].owner;
    if s :| s in db.shares && db.shares[s].agent == agent && Joins(db, user, s) {
      if db.users[user].status == Enabled { assert Grants(db, user, Row(db, user, agent, Some(s))); }
    } else if db.users[user].status == Enabled {
      assert Grants(db, user, Row(db, user, agent, None));
    }
  }

  // ----- leases -----

  // A ticket for a granted row is issued exactly if its id is new and the day's tasks are below the share's limit.
  lemma IssueGoesThrough(db: Db, user: UserId, x: Access, ttl: int, req: string, used: int, t: Ticket)
    requires Sound(db) && user in db.users && Grants(db, user, x)
    ensures CreateAccessLease(db, user, x, ttl, req, used, t).Committed? <==>
            t !in db.leases &&
            (x.owner != user && 0 < db.shares[x.share.value].terms.maxTasksPerDay ==>
               used < db.shares[x.share.value].terms.maxTasksPerDay)
  {
    if x.share.Some? { assert ShareOk(db, db.shares[x.share.value]); }
  }

  lemma IssueEffect(db: Db, user: UserId, x: Access, ttl: int, req: string, used: int, t: Ticket)
    requires CreateAccessLease(db, user, x, ttl, req, used, t).Committed?
    ensures var d := CreateAccessLease(db, user, x, ttl, req, used, t).db;
            && t !in db.leases && t in d.leases && d == db.(leases := db.leases[t := d.leases[t]])
            && var l := d.leases[t];
            && l.agent == x.agent && l.subject == user && l.owner == x.owner && l.version == x.version
            && l.share == (if x.shared then x.share else None) && l.requestId == req && !l.revoked
            && l.expiresAt - db.now == if 0 < ttl <= 10 * MINUTE then ttl else 5 * MINUTE
  {}

  // What a renewal needs of a lease.
  ghost predicate Fits(l: Lease, now: Time, user: UserId, x: Access, req: string) {
    && l.requestId == req && l.subject == user && l.agent == x.agent && l.version == x.version
    && l.revoked == false && l.expiresAt > now
  }

  lemma RenewalSucceeds(db: Db, user: UserId, x: Access, req: string)
    ensures Renewable(db, user, x, req) <==> exists t :: t in db.leases && Fits(db.leases[t], db.now, user, x, req)
  {
    assert forall l: Lease :: Fits(l, db.now, user, x, req) <==> Candidate(l, db.now, user, x, req);
  }

  // The ttl asked for counts up to seven days, a day otherwise. A fitting lease that has less than half of it left, in
  // whole seconds, is set to end after it, in whole seconds; every other lease stays.
  lemma RenewalEffect(db: Db, user: UserId, x: Access, req: string, ttl: int, span: int, t: Ticket)
    requires span == (if 0 < ttl <= 7 * DAY then ttl else 24 * HOUR) && t in db.leases
    ensures var d, l := RenewAccessRequest(db, user, x, req, ttl), db.leases[t];
            && d == db.(leases := d.leases) && d.leases.Keys == db.leases.Keys
            && (if Fits(l, db.now, user, x, req) && l.expiresAt - db.now < span / 2 / SECOND * SECOND
                then d.leases[t] == l.(expiresAt := db.now + span / SECOND * SECOND) else d.leases[t] == l)
  {}

  lemma RevokeLeaseEffect(db: Db, t: Ticket)
    ensures var d := RevokeAccessLease(db, t);
            && d == db.(leases := d.leases) && d.leases.Keys == db.leases.Keys
            && forall k :: k in db.leases ==>
                 d.leases[k] == if k == t then db.leases[k].(revoked := true) else db.leases[k]
  {}

  // ----- accounts and agents that come -----

  lemma RegistrationEffect(db: Db, owner: UserId, name: string, agent: AgentId, publicId: string)
    requires Sound(db) && owner in db.users && agent !in db.agents
    requires forall a :: a in db.agents ==> db.agents[a].publicId != publicId
    ensures var o := RegisterAgent(db, owner, name, agent, publicId);
            if exists a :: a in db.agents && db.agents[a].owner == owner && db.agents[a].name == name
            then o == Committed(db, ())
            else o == Committed(db.(agents := db.agents[agent := Agent(owner, name, publicId)]), ())
  {}

  lemma CreateUserEffect(db: Db, user: UserId, role: Role)
    ensures CreateUser(db, user, role).Committed? <==> user !in db.users
    ensures user !in db.users ==>
              CreateUser(db, user, role).db == db.(users := db.users[user := User(role, Enabled)])
  {}

  // ----- the handlers -----

  // A handler whose user is signed in does its transaction.
  lemma SignedInHandlers(db: Db, user: UserId)
    requires Authenticated(db, user)
    ensures forall a, g, from, until, max, id ::
              Step(db, CreateShareOp(user, a, g, from, until, max, id)) ==
              CreateShare(db, user, a, g, from, until, max, id).Final(db)
    ensures forall id, from, until, max ::
              Step(db, TransitionOp(user, id, Update(from, until, max))) ==
              TransitionShare(db, user, id, Update(from, until, max), false).Final(db)
    ensures forall x, ttl, req, used, t :: Grants(db, user, x) ==>
              Step(db, IssueOp(user, x, ttl, req, used, t)) ==
              CreateAccessLease(db, user, x, ttl, req, used, t).Final(db)
    ensures forall x, req, ttl :: Grants(db, user, x) ==>
              Step(db, RenewOp(user, x, req, ttl)) == RenewAccessRequest(db, user, x, req, ttl)
    ensures db.users[user].role == Admin ==> forall target, status, role ::
              Step(db, UpdateUserOp(user, target, status, role)) ==
              UpdateUserLifecycle(db, user, target, status, role).Final(db)
  {}
}

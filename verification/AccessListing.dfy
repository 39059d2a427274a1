/**
 What ListAccessibleAgents grants: one row for an agent at most, exactly the declared access rule,
 and independence from when lapsed shares are swept.
 */
module AccessListing {
  import opened Basics
  import opened AccessModel
  import opened AccessRuns

  // The access rule: the owner's account is active and the user owns the agent or holds it through a share in force.
  ghost predicate MayUse(db: Db, user: UserId, agent: AgentId) {
    agent in db.agents && db.agents[agent].owner in db.users && db.users[db.agents[agent].owner].status.Enabled? &&
    (db.agents[agent].owner == user || exists s :: Joins(db, user, s) && db.shares[s].agent == agent)
  }

  lemma ListedIffMayUse(db: Db, user: UserId, agent: AgentId)
    ensures (exists x :: Grants(db, user, x) && x.agent == agent) <==> MayUse(db, user, agent)
  {
    if MayUse(db, user, agent) {
      if s :| s in db.shares && Joins(db, user, s) && db.shares[s].agent == agent {
        assert Grants(db, user, Row(db, user, agent, Some(s)));
      } else {
        assert Grants(db, user, Row(db, user, agent, None));
      }
    }
  }

  // A row is either the owner's, with no share and version 0, or comes with the one share in force for the agent.
  lemma RowShape(db: Db, user: UserId, x: Access)
    requires Sound(db) && Grants(db, user, x)
    ensures if x.owner == user
            then !x.shared && x.share == None && x.version == 0
            else x.shared && x.share.Some? && x.version >= 1 && Joins(db, user, x.share.value) &&
                 db.shares[x.share.value].agent == x.agent && db.shares[x.share.value].owner == x.owner &&
                 forall s :: Joins(db, user, s) && db.shares[s].agent == x.agent ==> s == x.share.value
  {
    if x.share.Some? {
      var s := x.share.value;
      assert ShareOk(db, db.shares[s]);
    }
  }

  lemma OneRowPerAgent(db: Db, user: UserId, x: Access, y: Access)
    requires Sound(db) && Grants(db, user, x) && Grants(db, user, y) && x.agent == y.agent
    ensures x == y
  {
    RowShape(db, user, x);
    RowShape(db, user, y);
  }

  lemma ReachableRowUnique(db: Db, ops: seq<Op>, user: UserId, x: Access, y: Access)
    requires Initial(db)
    requires Grants(Exec(db, ops), user, x) && Grants(Exec(db, ops), user, y) && x.agent == y.agent
    ensures x == y
  {
    ExecSound(db, ops);
    OneRowPerAgent(Exec(db, ops), user, x, y);
  }

  // ----- lazy expiry -----

  // late differs from early only in that some lapsed shares of late have been closed as expired,
  // or have since moved in early in a way that could not bring them back into their window.
  ghost predicate Swept(early: Db, late: Db) {
    && late.now == early.now && late.users == early.users && late.agents == early.agents
    && late.sessions == early.sessions && late.shares.Keys == early.shares.Keys
    && (forall s :: s in late.shares ==> ShareSwept(early.shares[s], late.shares[s], early.now))
  }

  ghost predicate ShareSwept(s: Share, r: Share, now: Time) {
    r == s || (r.status.Expired? && s == r.(status := s.status) && s.terms.Lapsed(now))
  }

  // The share has been swept in one run and not in the other.
  ghost predicate Differs(early: Db, late: Db, s: ShareId) {
    s in early.shares && s in late.shares && early.shares[s] != late.shares[s]
  }

  // The step neither updates a share that differs nor offers its agent to its grantee anew.
  ghost predicate Leaves(early: Db, late: Db, op: Op) {
    forall s :: Differs(early, late, s) ==>
      && !(op.TransitionOp? && op.id == s && op.action.Update?)
      && !(op.CreateShareOp? && op.agent == early.shares[s].agent && op.grantee == early.shares[s].grantee)
  }

  lemma SweptGrantsAlike(early: Db, late: Db, user: UserId, x: Access)
    requires Swept(early, late)
    ensures Grants(early, user, x) <==> Grants(late, user, x)
  {
    forall s ensures Joins(early, user, s) <==> Joins(late, user, s) {
      if s in early.shares { assert ShareSwept(early.shares[s], late.shares[s], early.now); }
    }
    forall s | Joins(early, user, s) ensures early.shares[s] == late.shares[s] {
      assert ShareSwept(early.shares[s], late.shares[s], early.now);
    }
  }

  lemma SweepIsSwept(db: Db, pendingToo: bool)
    ensures Swept(db, Sweep(db, pendingToo))
  {}

  lemma SweptSession(early: Db, late: Db, user: UserId)
    requires Swept(early, late)
    ensures Authenticated(early, user) <==> Authenticated(late, user)
  {
    forall t | t in early.sessions ensures SessionValid(early, t) <==> SessionValid(late, t) {}
  }

  lemma SweptUpdateUser(early: Db, late: Db, actor: UserId, target: UserId,
                        status: Requested<UserStatus>, role: Requested<Role>)
    requires Swept(early, late)
    ensures Swept(UpdateUserLifecycle(early, actor, target, status, role).Final(early),
                  UpdateUserLifecycle(late, actor, target, status, role).Final(late))
  {
    if LifecycleError(early.users, actor, target, status, role).None? {
      var next := Amended(early.users[target], status, role);
      var users, row := early.users[target := next], UserUpdated(actor, target, next.status, next.role);
      var e := early.(users := users, log := early.log + [row]);
      SweptClosed(e, late.(users := users, log := late.log + [row]), target);
    }
  }

  lemma SweptClosed(early: Db, late: Db, user: UserId)
    requires Swept(early, late)
    ensures Swept(Closed(early, user), Closed(late, user))
  {
    forall s | s in late.shares
      ensures ShareSwept(RevokeSharesOfUser(early.shares, user)[s], RevokeSharesOfUser(late.shares, user)[s], early.now)
    {
      assert ShareSwept(early.shares[s], late.shares[s], early.now);
    }
  }

  lemma SweptSweep(early: Db, late: Db, pendingToo: bool)
    requires Swept(early, late)
    ensures Swept(Sweep(early, pendingToo), Sweep(late, pendingToo))
  {
    forall s | s in late.shares
      ensures ShareSwept(Sweep(early, pendingToo).shares[s], Sweep(late, pendingToo).shares[s], early.now)
    {
      assert ShareSwept(early.shares[s], late.shares[s], early.now);
    }
  }

  // Two rows of one share move alike, or the one that was swept stays as it is.
  lemma SweptMove(s: Share, r: Share, now: Time, actor: UserId, action: Action, admin: bool)
    requires ShareSwept(s, r, now) && Permitted(s, actor, action, admin) && (s != r ==> !action.Update?)
    ensures if Permitted(r, actor, action, admin) then r == s else ShareSwept(Moved(s, action), r, now)
  {}

  lemma SweptPermitted(s: Share, r: Share, now: Time, actor: UserId, action: Action, admin: bool)
    requires ShareSwept(s, r, now) && Permitted(r, actor, action, admin)
    ensures r == s
  {}

  lemma SweptTransition(early: Db, late: Db, actor: UserId, id: ShareId, action: Action)
    requires Swept(early, late) && Leaves(early, late, TransitionOp(actor, id, action))
    ensures Swept(Step(early, TransitionOp(actor, id, action)), Step(late, TransitionOp(actor, id, action)))
  {
    SweptSession(early, late, actor);
    if Authenticated(early, actor) && id in early.shares {
      assert ShareSwept(early.shares[id], late.shares[id], early.now);
      assert Differs(early, late, id) ==> !action.Update?;
      SweptTransitionOf(early, late, actor, id, action, action.Revoke? && IsAdmin(early, actor));
    }
  }

  lemma SweptReplace(early: Db, late: Db, id: ShareId, s: Share, r: Share)
    requires Swept(early, late) && id in early.shares && ShareSwept(s, r, early.now)
    ensures Swept(early.(shares := early.shares[id := s]), late.(shares := late.shares[id := r]))
  {
    forall k | k in late.shares && k != id ensures ShareSwept(early.shares[k], late.shares[k], early.now) {}
  }

  // What a transition leaves of the share.
  function After(s: Share, actor: UserId, action: Action, admin: bool): Share {
    if Permitted(s, actor, action, admin) && Moved(s, action).terms.Ordered() &&
       Moved(s, action).version <= VERSION_LIMIT
    then Moved(s, action) else s
  }

  lemma TransitionShares(db: Db, actor: UserId, id: ShareId, action: Action, admin: bool)
    requires id in db.shares
    ensures var d := TransitionShare(db, actor, id, action, admin).Final(db);
            d == db.(shares := db.shares[id := After(db.shares[id], actor, action, admin)],
                     leases := d.leases, log := d.log)
  {
    assert db.shares[id := db.shares[id]] == db.shares;
  }

  lemma SweptAfter(s: Share, r: Share, now: Time, actor: UserId, action: Action, admin: bool)
    requires ShareSwept(s, r, now) && (s != r ==> !action.Update?)
    ensures ShareSwept(After(s, actor, action, admin), After(r, actor, action, admin), now)
  {
    if Permitted(s, actor, action, admin) { SweptMove(s, r, now, actor, action, admin); }
    if Permitted(r, actor, action, admin) { SweptPermitted(s, r, now, actor, action, admin); }
  }

  lemma SweptTransitionOf(early: Db, late: Db, actor: UserId, id: ShareId, action: Action, admin: bool)
    requires Swept(early, late) && id in early.shares && (early.shares[id] != late.shares[id] ==> !action.Update?)
    ensures Swept(TransitionShare(early, actor, id, action, admin).Final(early),
                  TransitionShare(late, actor, id, action, admin).Final(late))
  {
    var s, r := early.shares[id], late.shares[id];
    assert ShareSwept(s, r, early.now);
    SweptAfter(s, r, early.now, actor, action, admin);
    SweptReplace(early, late, id, After(s, actor, action, admin), After(r, actor, action, admin));
    TransitionShares(early, actor, id, action, admin);
    TransitionShares(late, actor, id, action, admin);
  }

  // An offer of a pair that no differing share holds meets the same open shares in both.
  lemma SweptPair(early: Db, late: Db, agent: AgentId, grantee: UserId)
    requires Swept(early, late)
    requires forall s :: Differs(early, late, s) ==>
             early.shares[s].agent != agent || early.shares[s].grantee != grantee
    ensures OpenPair(early.shares, agent, grantee) <==> OpenPair(late.shares, agent, grantee)
  {
    forall s | s in early.shares && early.shares[s] != late.shares[s]
      ensures !(early.shares[s].agent == agent && early.shares[s].grantee == grantee)
      ensures !(late.shares[s].agent == agent && late.shares[s].grantee == grantee)
    {
      assert Differs(early, late, s) && ShareSwept(early.shares[s], late.shares[s], early.now);
    }
  }

  lemma SweptPlus(early: Db, late: Db, id: ShareId, share: Share, row: AuditRow)
    requires Swept(early, late)
    ensures Swept(early.(shares := early.shares[id := share], log := early.log + [row]),
                  late.(shares := late.shares[id := share], log := late.log + [row]))
  {}

  lemma SweptCreate(early: Db, late: Db, op: Op)
    requires Sound(early) && Sound(late) && Swept(early, late) && op.CreateShareOp? && Leaves(early, late, op)
    ensures Swept(Step(early, op), Step(late, op))
  {
    SweptSession(early, late, op.user);
    NoOrphans(early, op.agent, op.grantee);
    NoOrphans(late, op.agent, op.grantee);
    SweptPair(early, late, op.agent, op.grantee);
    var e := CreateShare(early, op.user, op.agent, op.grantee, op.from, op.until, op.maxTasksPerDay, op.id);
    if e.Committed? {
      SweptPlus(early, late, op.id, e.db.shares[op.id], ShareCreated(op.user, op.id, op.user, op.grantee));
    }
  }

  lemma SweptTick(early: Db, late: Db, at: Time)
    requires Swept(early, late)
    ensures Swept(Step(early, TickOp(at)), Step(late, TickOp(at)))
  {
    forall s | s in late.shares ensures ShareSwept(early.shares[s], late.shares[s], Step(early, TickOp(at)).now) {
      assert ShareSwept(early.shares[s], late.shares[s], early.now);
    }
  }

  lemma SweptCreateUser(early: Db, late: Db, user: UserId, role: Role)
    requires Swept(early, late)
    ensures Swept(CreateUser(early, user, role).Final(early), CreateUser(late, user, role).Final(late))
  {}

  lemma SweptLogin(early: Db, late: Db, user: UserId, token: Token, ttl: int)
    requires Swept(early, late)
    ensures Swept(Login(early, user, token, ttl).Final(early), Login(late, user, token, ttl).Final(late))
  {}

  lemma SweptLogout(early: Db, late: Db, token: Token)
    requires Swept(early, late)
    ensures Swept(RevokeSession(early, token).Final(early), RevokeSession(late, token).Final(late))
  {}

  // The steps that touch users and sessions only.
  lemma SweptElsewhere(early: Db, late: Db, op: Op)
    requires Swept(early, late) && (op.CreateUserOp? || op.LoginOp? || op.LogoutOp?)
    ensures Swept(Step(early, op), Step(late, op))
  {
    match op
    case CreateUserOp(user, role) => SweptCreateUser(early, late, user, role);
    case LoginOp(user, token, ttl) => SweptLogin(early, late, user, token, ttl);
    case LogoutOp(token) => SweptLogout(early, late, token);
  }

  lemma SweptRegister(early: Db, late: Db, user: UserId, name: string, agent: AgentId, publicId: string)
    requires Swept(early, late)
    ensures Swept(Step(early, RegisterAgentOp(user, name, agent, publicId)),
                  Step(late, RegisterAgentOp(user, name, agent, publicId)))
  {
    SweptSession(early, late, user);
    var e, l := RegisterAgent(early, user, name, agent, publicId), RegisterAgent(late, user, name, agent, publicId);
    assert e.Final(early) == early.(agents := e.Final(early).agents) &&
           l.Final(late) == late.(agents := l.Final(late).agents);
  }

  lemma SweptLeases(early: Db, late: Db, op: Op)
    requires Swept(early, late) && (op.IssueOp? || op.RevokeLeaseOp? || op.RenewOp?)
    ensures Swept(Step(early, op), Step(late, op))
  {
    assert Step(early, op) == early.(leases := Step(early, op).leases);
    assert Step(late, op) == late.(leases := Step(late, op).leases);
  }

  lemma SweptStep(early: Db, late: Db, op: Op)
    requires Sound(early) && Sound(late) && Swept(early, late) && Leaves(early, late, op)
    ensures Swept(Step(early, op), Step(late, op))
  {
    if op.UpdateUserOp? {
      SweptSession(early, late, op.actor);
      SweptUpdateUser(early, late, op.actor, op.target, op.status, op.role);
    }
    else if op.SweepOp? { SweptSweep(early, late, op.pendingToo); }
    else if op.TransitionOp? { SweptTransition(early, late, op.actor, op.id, op.action); }
    else if op.CreateShareOp? { SweptCreate(early, late, op); }
    else if op.IssueOp? || op.RevokeLeaseOp? || op.RenewOp? { SweptLeases(early, late, op); }
    else if op.TickOp? { SweptTick(early, late, op.at); }
    else if op.RegisterAgentOp? { SweptRegister(early, late, op.user, op.name, op.agent, op.publicId); }
    else { SweptElsewhere(early, late, op); }
  }

  ghost predicate LeavesAll(early: Db, late: Db, ops: seq<Op>)
    decreases |ops|
  {
    ops == [] || (Leaves(early, late, ops[0]) && LeavesAll(Step(early, ops[0]), Step(late, ops[0]), ops[1..]))
  }

  lemma {:induction false} SweptRun(early: Db, late: Db, ops: seq<Op>)
    requires Sound(early) && Sound(late) && Swept(early, late) && LeavesAll(early, late, ops)
    ensures Swept(Exec(early, ops), Exec(late, ops))
    decreases |ops|
  {
    if ops != [] {
      SweptStep(early, late, ops[0]);
      StepSound(early, ops[0]);
      StepSound(late, ops[0]);
      SweptRun(Step(early, ops[0]), Step(late, ops[0]), ops[1..]);
    }
  }

  // When lapsed shares are swept does not matter: after any run that leaves the swept shares alone,
  // exactly the same rows are granted with the sweep and without it.
  lemma SweepTimingIrrelevant(db: Db, pendingToo: bool, ops: seq<Op>, user: UserId, x: Access)
    requires Sound(db) && LeavesAll(db, Sweep(db, pendingToo), ops)
    ensures Grants(Exec(db, ops), user, x) <==> Grants(Exec(Sweep(db, pendingToo), ops), user, x)
  {
    SweepInPlace(db, pendingToo);
    InPlaceSound(db, Sweep(db, pendingToo));
    SweepIsSwept(db, pendingToo);
    SweptRun(db, Sweep(db, pendingToo), ops);
    SweptGrantsAlike(Exec(db, ops), Exec(Sweep(db, pendingToo), ops), user, x);
  }

  // ----- the same from the tables at the start alone -----

  lemma UserDiffers(early: Db, late: Db, actor: UserId, target: UserId,
                    status: Requested<UserStatus>, role: Requested<Role>, s: ShareId)
    requires Swept(early, late)
    requires Differs(UpdateUserLifecycle(early, actor, target, status, role).Final(early),
                     UpdateUserLifecycle(late, actor, target, status, role).Final(late), s)
    ensures Differs(early, late, s)
  {
    assert LifecycleError(early.users, actor, target, status, role) ==
           LifecycleError(late.users, actor, target, status, role);
  }

  lemma CreateDiffers(early: Db, late: Db, op: Op, s: ShareId)
    requires Sound(early) && Sound(late) && Swept(early, late) && op.CreateShareOp? && Leaves(early, late, op)
    requires Differs(Step(early, op), Step(late, op), s)
    ensures Differs(early, late, s)
  {
    SweptSession(early, late, op.user);
    NoOrphans(early, op.agent, op.grantee);
    NoOrphans(late, op.agent, op.grantee);
    SweptPair(early, late, op.agent, op.grantee);
  }

  lemma TransitionDiffers(early: Db, late: Db, op: Op, s: ShareId)
    requires Swept(early, late) && op.TransitionOp? && Differs(Step(early, op), Step(late, op), s)
    ensures Differs(early, late, s)
  {
    SweptSession(early, late, op.actor);
  }

  lemma SweepDiffers(early: Db, late: Db, pendingToo: bool, s: ShareId)
    requires Swept(early, late) && Differs(Sweep(early, pendingToo), Sweep(late, pendingToo), s)
    ensures Differs(early, late, s)
  {}

  predicate LeavesShares(op: Op) {
    !op.UpdateUserOp? && !op.CreateShareOp? && !op.TransitionOp? && !op.SweepOp?
  }

  lemma SharesStay(db: Db, op: Op)
    requires LeavesShares(op)
    ensures Step(db, op).shares == db.shares
  {}

  // No step makes two shares differ that agreed.
  lemma DiffersShrinks(early: Db, late: Db, op: Op, s: ShareId)
    requires Sound(early) && Sound(late) && Swept(early, late) && Leaves(early, late, op)
    requires Differs(Step(early, op), Step(late, op), s)
    ensures Differs(early, late, s)
  {
    if op.UpdateUserOp? {
      SweptSession(early, late, op.actor);
      if Authenticated(early, op.actor) && IsAdmin(early, op.actor) {
        UserDiffers(early, late, op.actor, op.target, op.status, op.role, s);
      }
    }
    else if op.CreateShareOp? { CreateDiffers(early, late, op, s); }
    else if op.TransitionOp? { TransitionDiffers(early, late, op, s); }
    else if op.SweepOp? { SweepDiffers(early, late, op.pendingToo, s); }
    else {
      SharesStay(early, op);
      SharesStay(late, op);
    }
  }

  lemma LeavesStays(early: Db, late: Db, op: Op, more: Op)
    requires Sound(early) && Sound(late) && Swept(early, late) && Leaves(early, late, op) && Leaves(early, late, more)
    ensures Leaves(Step(early, op), Step(late, op), more)
  {
    StepSound(early, op);
    forall s | Differs(Step(early, op), Step(late, op), s)
      ensures Differs(early, late, s) && ShareEvolves(early.shares[s], Step(early, op).shares[s])
    {
      DiffersShrinks(early, late, op, s);
    }
  }

  lemma {:induction false} LeavesRun(early: Db, late: Db, ops: seq<Op>)
    requires Sound(early) && Sound(late) && Swept(early, late)
    requires forall i :: 0 <= i < |ops| ==> Leaves(early, late, ops[i])
    ensures LeavesAll(early, late, ops)
    decreases |ops|
  {
    if ops != [] {
      var e, l := Step(early, ops[0]), Step(late, ops[0]);
      SweptStep(early, late, ops[0]);
      StepSound(early, ops[0]);
      StepSound(late, ops[0]);
      forall i | 0 <= i < |ops[1..]| ensures Leaves(e, l, ops[1..][i]) {
        LeavesStays(early, late, ops[0], ops[i + 1]);
      }
      LeavesRun(e, l, ops[1..]);
    }
  }

  // The step neither updates a share that had lapsed in this table nor offers its agent to its grantee anew.
  ghost predicate Spares(db: Db, op: Op) {
    forall s :: s in db.shares && db.shares[s].status.Open() && db.shares[s].terms.Lapsed(db.now) ==>
      && !(op.TransitionOp? && op.id == s && op.action.Update?)
      && !(op.CreateShareOp? && op.agent == db.shares[s].agent && op.grantee == db.shares[s].grantee)
  }

  // Any run whose steps spare the shares that had lapsed at its start grants the same rows in the end, swept or not.
  lemma SparingRunsAgree(db: Db, pendingToo: bool, ops: seq<Op>, user: UserId, x: Access)
    requires Sound(db) && forall i :: 0 <= i < |ops| ==> Spares(db, ops[i])
    ensures Grants(Exec(db, ops), user, x) <==> Grants(Exec(Sweep(db, pendingToo), ops), user, x)
  {
    var late := Sweep(db, pendingToo);
    SweepInPlace(db, pendingToo);
    InPlaceSound(db, late);
    SweepIsSwept(db, pendingToo);
    forall i | 0 <= i < |ops| ensures Leaves(db, late, ops[i]) {
      assert Spares(db, ops[i]);
    }
    LeavesRun(db, late, ops);
    SweepTimingIrrelevant(db, pendingToo, ops, user, x);
  }
}

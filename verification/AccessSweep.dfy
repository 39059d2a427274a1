/**
 Exactly when closing lapsed shares early changes what is granted: the update that brings a lapsed share back into its
 window, at once or when it is accepted, and the new offer in its place.
 */
module AccessSweep {
  import opened Basics
  import opened AccessModel
  import opened AccessRuns
  import opened AccessListing

  // ----- one step -----

  // The two stores grant the same rows to everybody.
  ghost predicate Agree(a: Db, b: Db) { forall user, x :: Grants(a, user, x) <==> Grants(b, user, x) }

  // The owner, signed in, gives an active share that has lapsed an ordered window that contains now.
  ghost predicate Revives(db: Db, op: Op) {
    op.TransitionOp? && op.action.Update? && op.id in db.shares &&
    var s, r := db.shares[op.id], Moved(db.shares[op.id], op.action);
    s.status.Active? && s.terms.Lapsed(db.now) && op.actor == s.owner && Authenticated(db, op.actor) &&
    r.terms.Ordered() && r.terms.InWindow(db.now) && r.version <= VERSION_LIMIT
  }

  // The same shares are in force, with the same rows.
  lemma SameJoins(a: Db, b: Db)
    requires b.now == a.now && b.users == a.users && b.agents == a.agents
    requires forall user, s :: Joins(a, user, s) <==> Joins(b, user, s)
    requires forall user, s :: Joins(a, user, s) && Joins(b, user, s) ==> a.shares[s] == b.shares[s]
    ensures Agree(a, b)
  {
    forall user, x ensures Grants(a, user, x) <==> Grants(b, user, x) {
      assert forall s :: Joins(a, user, s) <==> Joins(b, user, s);
    }
  }

  // An offer is pending at first.
  lemma OfferGrantsNothing(db: Db, op: Op)
    requires Sound(db) && op.CreateShareOp?
    ensures Agree(db, Step(db, op))
  {
    NoOrphans(db, op.agent, op.grantee);
    SameJoins(db, Step(db, op));
  }

  // An update of a lapsed share that does not bring it back into force.
  lemma UpdateGrantsNothing(db: Db, op: Op)
    requires op.TransitionOp? && op.action.Update? && op.id in db.shares && db.shares[op.id].terms.Lapsed(db.now)
    requires !Revives(db, op)
    ensures Agree(db, Step(db, op))
  {
    var d := Step(db, op);
    if d != db {
      assert d.shares == db.shares[op.id := Moved(db.shares[op.id], op.action)];
      SameJoins(db, d);
    }
  }

  lemma SweptAgree(early: Db, late: Db)
    requires Swept(early, late)
    ensures Agree(early, late)
  {
    forall user, x ensures Grants(early, user, x) <==> Grants(late, user, x) { SweptGrantsAlike(early, late, user, x); }
  }

  lemma SweptUpdateRefused(early: Db, late: Db, op: Op)
    requires op.TransitionOp? && op.action.Update? && Differs(early, late, op.id) && Swept(early, late)
    ensures Step(late, op) == late && early.shares[op.id].terms.Lapsed(early.now)
  {
    assert ShareSwept(early.shares[op.id], late.shares[op.id], early.now);
  }

  lemma HarmlessSteps(db: Db, pendingToo: bool, op: Op)
    requires Sound(db) && !Revives(db, op)
    ensures Agree(Step(db, op), Step(Sweep(db, pendingToo), op))
  {
    var late := Sweep(db, pendingToo);
    SweepInPlace(db, pendingToo);
    InPlaceSound(db, late);
    SweepIsSwept(db, pendingToo);
    SweptAgree(db, late);
    if op.CreateShareOp? {
      OfferGrantsNothing(db, op);
      OfferGrantsNothing(late, op);
    } else if op.TransitionOp? && op.action.Update? && Differs(db, late, op.id) {
      SweptUpdateRefused(db, late, op);
      UpdateGrantsNothing(db, op);
    } else {
      assert Leaves(db, late, op);
      SweptStep(db, late, op);
      SweptAgree(Step(db, op), Step(late, op));
    }
  }

  lemma RevivalShows(db: Db, pendingToo: bool, op: Op)
    requires Sound(db) && Revives(db, op)
    ensures !Agree(Step(db, op), Step(Sweep(db, pendingToo), op))
  {
    var late, sh, d := Sweep(db, pendingToo), db.shares[op.id], Step(db, op);
    assert ShareOk(db, sh);
    SweepIsSwept(db, pendingToo);
    SweptUpdateRefused(db, late, op);
    LapsedNotUsable(db, op.id, pendingToo);
    assert d.shares[op.id] == Moved(sh, op.action);
    InForceUsable(d, op.id);
    ListedIffMayUse(d, sh.grantee, sh.agent);
    ListedIffMayUse(late, sh.grantee, sh.agent);
    var x :| Grants(d, sh.grantee, x) && x.agent == sh.agent;
    assert !Grants(late, sh.grantee, x);
  }

  // For every store, either sweep and any step: everybody is granted the same after the step, swept before it or not,
  // if and only if the step does not bring a lapsed active share back into force.
  lemma OneStepDecides(db: Db, pendingToo: bool, op: Op)
    requires Sound(db)
    ensures Agree(Step(db, op), Step(Sweep(db, pendingToo), op)) <==> !Revives(db, op)
  {
    if Revives(db, op) { RevivalShows(db, pendingToo, op); } else { HarmlessSteps(db, pendingToo, op); }
  }

  // ----- who may use the agent of a lapsed share -----

  // Someone else's agent, no share of which is active and in its window, cannot be used.
  lemma NothingInForce(db: Db, user: UserId, agent: AgentId)
    requires agent in db.agents && db.agents[agent].owner != user
    requires forall r :: r in db.shares && db.shares[r].agent == agent && db.shares[r].grantee == user ==>
                           !db.shares[r].status.Active? || db.shares[r].terms.Lapsed(db.now)
    ensures !MayUse(db, user, agent)
  {}

  lemma LapsedNotUsable(db: Db, s: ShareId, pendingToo: bool)
    requires Sound(db) && s in db.shares && db.shares[s].status.Open() && db.shares[s].terms.Lapsed(db.now)
    ensures !MayUse(db, db.shares[s].grantee, db.shares[s].agent)
    ensures !MayUse(Sweep(db, pendingToo), db.shares[s].grantee, db.shares[s].agent)
  {
    var sh, swept := db.shares[s], Sweep(db, pendingToo);
    assert ShareOk(db, sh);
    forall r | r in db.shares && db.shares[r].agent == sh.agent && db.shares[r].grantee == sh.grantee && r != s
      ensures !db.shares[r].status.Active?
    {
      assert OneOpen(db.shares);
    }
    NothingInForce(db, sh.grantee, sh.agent);
    NothingInForce(swept, sh.grantee, sh.agent);
  }

  lemma InForceUsable(db: Db, s: ShareId)
    requires s in db.shares && db.shares[s].status.Active? && db.shares[s].terms.InWindow(db.now)
    requires db.shares[s].agent in db.agents && db.agents[db.shares[s].agent].owner in db.users
    requires db.users[db.agents[db.shares[s].agent].owner].status.Enabled?
    ensures MayUse(db, db.shares[s].grantee, db.shares[s].agent)
  {
    assert Joins(db, db.shares[s].grantee, s);
  }

  // An offer that is accepted within its window can be used.
  lemma AcceptedUsable(d: Db, id: ShareId)
    requires Sound(d) && id in d.shares && d.shares[id].status.Pending? && Authenticated(d, d.shares[id].grantee)
    requires d.shares[id].terms.InWindow(d.now)
    requires d.shares[id].owner in d.users && d.users[d.shares[id].owner].status.Enabled?
    ensures MayUse(Step(d, TransitionOp(d.shares[id].grantee, id, Accept)), d.shares[id].grantee, d.shares[id].agent)
  {
    assert ShareOk(d, d.shares[id]);
    var e := Step(d, TransitionOp(d.shares[id].grantee, id, Accept));
    assert e.shares[id] == d.shares[id].(status := Active);
    InForceUsable(e, id);
  }

  lemma SameSession(a: Db, b: Db, user: UserId)
    requires Authenticated(a, user) && b.now == a.now && b.users == a.users && b.sessions == a.sessions
    ensures Authenticated(b, user)
  {
    var t :| t in a.sessions && SessionValid(a, t) && a.sessions[t].user == user;
    assert SessionValid(b, t);
  }

  lemma ExecOne(db: Db, op: Op)
    ensures Exec(db, [op]) == Step(db, op)
  {
    assert [op][1..] == [];
  }

  lemma ExecTwo(db: Db, first: Op, second: Op)
    ensures Exec(db, [first, second]) == Step(Step(db, first), second)
  {
    assert [first, second][1..] == [second];
    ExecOne(Step(db, first), second);
  }

  // ----- the two exceptions, over a lapsed share that is active or pending -----

  // The parties are signed in, and the new window contains now.
  ghost predicate Revivable(db: Db, s: ShareId, from: Option<Time>, until: Option<Time>, id: ShareId) {
    && s in db.shares && db.shares[s].status.Open() && db.shares[s].terms.Lapsed(db.now)
    && Authenticated(db, db.shares[s].owner) && Authenticated(db, db.shares[s].grantee)
    && db.shares[s].version < VERSION_LIMIT && id !in db.shares && (until.Some? ==> db.now < until.value)
    && (if from.Some? then from.value else db.shares[s].terms.validFrom) <= db.now
  }

  // The owner renews the window; a pending share is then accepted.
  ghost function RenewOps(sh: Share, s: ShareId, from: Option<Time>, until: Option<Time>, max: int): seq<Op> {
    var update := TransitionOp(sh.owner, s, Update(from, until, max));
    if sh.status.Pending? then [update, TransitionOp(sh.grantee, s, Accept)] else [update]
  }

  // The owner offers the agent anew, and the offer is accepted.
  ghost function OfferOps(sh: Share, from: Option<Time>, until: Option<Time>, max: int, id: ShareId): seq<Op> {
    [CreateShareOp(sh.owner, sh.agent, sh.grantee, from, until, max, id), TransitionOp(sh.grantee, id, Accept)]
  }

  lemma UpdateCommits(db: Db, s: ShareId, from: Option<Time>, until: Option<Time>, max: int, id: ShareId)
    requires Sound(db) && Revivable(db, s, from, until, id)
    ensures var d := Step(db, TransitionOp(db.shares[s].owner, s, Update(from, until, max)));
            && d.now == db.now && d.users == db.users && d.sessions == db.sessions && d.agents == db.agents
            && s in d.shares && d.shares[s].status == db.shares[s].status && d.shares[s].terms.InWindow(d.now)
            && d.shares[s].Party(db.shares[s].owner) && d.shares[s].owner == db.shares[s].owner
            && d.shares[s].grantee == db.shares[s].grantee && d.shares[s].agent == db.shares[s].agent
  {}

  lemma RenewalRevives(db: Db, s: ShareId, from: Option<Time>, until: Option<Time>, max: int, id: ShareId)
    requires Sound(db) && Revivable(db, s, from, until, id)
    ensures MayUse(Exec(db, RenewOps(db.shares[s], s, from, until, max)), db.shares[s].grantee, db.shares[s].agent)
  {
    var sh, update := db.shares[s], TransitionOp(db.shares[s].owner, s, Update(from, until, max));
    assert ShareOk(db, sh);
    UpdateCommits(db, s, from, until, max, id);
    var d := Step(db, update);
    if sh.status.Pending? {
      StepSound(db, update);
      SameSession(db, d, sh.grantee);
      AcceptedUsable(d, s);
      ExecTwo(db, update, TransitionOp(sh.grantee, s, Accept));
    } else {
      InForceUsable(d, s);
      ExecOne(db, update);
    }
  }

  lemma SweptRenewalRefused(db: Db, s: ShareId, from: Option<Time>, until: Option<Time>, max: int, id: ShareId,
                            pendingToo: bool)
    requires Sound(db) && Revivable(db, s, from, until, id) && (db.shares[s].status.Active? || pendingToo)
    ensures var swept := Sweep(db, pendingToo); Exec(swept, RenewOps(db.shares[s], s, from, until, max)) == swept
  {
    var swept, sh := Sweep(db, pendingToo), db.shares[s];
    var update, accept := TransitionOp(sh.owner, s, Update(from, until, max)), TransitionOp(sh.grantee, s, Accept);
    assert swept.shares[s].status.Expired?;
    assert Step(swept, update) == swept && Step(swept, accept) == swept;
    ExecOne(swept, update);
    ExecTwo(swept, update, accept);
  }

  lemma OfferRefused(db: Db, s: ShareId, from: Option<Time>, until: Option<Time>, max: int, id: ShareId)
    requires Sound(db) && Revivable(db, s, from, until, id)
    ensures Exec(db, OfferOps(db.shares[s], from, until, max, id)) == db
  {
    var sh, ops := db.shares[s], OfferOps(db.shares[s], from, until, max, id);
    NoOrphans(db, sh.agent, sh.grantee);
    assert OpenPair(db.shares, sh.agent, sh.grantee);
    assert Step(db, ops[0]) == db;
    assert Step(db, ops[1]) == db;
    ExecTwo(db, ops[0], ops[1]);
  }

  // The sweep has freed the pair.
  lemma SweptPairFree(db: Db, s: ShareId, pendingToo: bool)
    requires Sound(db) && s in db.shares && db.shares[s].status.Open() && db.shares[s].terms.Lapsed(db.now)
    requires db.shares[s].status.Active? || pendingToo
    ensures !OpenPair(Sweep(db, pendingToo).shares, db.shares[s].agent, db.shares[s].grantee)
  {
    var sh, swept := db.shares[s], Sweep(db, pendingToo);
    forall r | r in swept.shares && swept.shares[r].agent == sh.agent && swept.shares[r].grantee == sh.grantee
      ensures !swept.shares[r].status.Open()
    {
      if r != s { assert db.shares[r].status.Open() ==> r == s; }
    }
  }

  lemma SweptOfferCommits(db: Db, s: ShareId, from: Option<Time>, until: Option<Time>, max: int, id: ShareId,
                          pendingToo: bool)
    requires Sound(db) && Revivable(db, s, from, until, id) && (db.shares[s].status.Active? || pendingToo)
    ensures var sh, swept := db.shares[s], Sweep(db, pendingToo);
            var d := Step(swept, OfferOps(sh, from, until, max, id)[0]);
            && d.now == db.now && d.users == db.users && d.sessions == db.sessions && id in d.shares
            && d.shares[id] == Share(sh.agent, sh.owner, sh.grantee, Pending,
                                     Terms(if from.Some? then from.value else db.now, until, max), 1)
  {
    var sh, swept := db.shares[s], Sweep(db, pendingToo);
    assert ShareOk(db, sh);
    SweepInPlace(db, pendingToo);
    InPlaceSound(db, swept);
    SameSession(db, swept, sh.owner);
    SweptPairFree(db, s, pendingToo);
    NoOrphans(swept, sh.agent, sh.grantee);
  }

  lemma SweptOfferStands(db: Db, s: ShareId, from: Option<Time>, until: Option<Time>, max: int, id: ShareId,
                         pendingToo: bool)
    requires Sound(db) && Revivable(db, s, from, until, id) && (db.shares[s].status.Active? || pendingToo)
    ensures var d := Exec(Sweep(db, pendingToo), OfferOps(db.shares[s], from, until, max, id));
            MayUse(d, db.shares[s].grantee, db.shares[s].agent)
  {
    var sh, ops, swept := db.shares[s], OfferOps(db.shares[s], from, until, max, id), Sweep(db, pendingToo);
    var d := Step(swept, ops[0]);
    SweptOfferCommits(db, s, from, until, max, id, pendingToo);
    SweepInPlace(db, pendingToo);
    InPlaceSound(db, swept);
    StepSound(swept, ops[0]);
    SameSession(db, d, sh.grantee);
    AcceptedUsable(d, id);
    ExecTwo(swept, ops[0], ops[1]);
  }

  // After the renewal the grantee may use the agent if and only if no sweep closed the share first; after the new
  // offer, if and only if one did. Pending shares are closed by ListShares only.
  lemma SweepDecides(db: Db, s: ShareId, from: Option<Time>, until: Option<Time>, max: int, id: ShareId,
                     swept: bool, pendingToo: bool)
    requires Sound(db) && Revivable(db, s, from, until, id) && (db.shares[s].status.Active? || pendingToo)
    ensures var sh, start := db.shares[s], if swept then Sweep(db, pendingToo) else db;
            && (MayUse(Exec(start, RenewOps(sh, s, from, until, max)), sh.grantee, sh.agent) <==> !swept)
            && (MayUse(Exec(start, OfferOps(sh, from, until, max, id)), sh.grantee, sh.agent) <==> swept)
  {
    LapsedNotUsable(db, s, pendingToo);
    if swept {
      SweptRenewalRefused(db, s, from, until, max, id, pendingToo);
      SweptOfferStands(db, s, from, until, max, id, pendingToo);
    } else {
      RenewalRevives(db, s, from, until, max, id);
      OfferRefused(db, s, from, until, max, id);
    }
  }
}

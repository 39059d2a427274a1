/**
 Lease renewal: its arithmetic for every ttl, how long a stream that keeps renewing lives,
 and how a policy update fences the tickets issued before it.
 */
module AccessLeases {
  import opened Basics
  import opened AccessModel
  import opened AccessRuns

  // What one renewal does to one lease. A revoked or expired lease is never touched.
  lemma RenewalArithmetic(db: Db, user: UserId, x: Access, req: string, ttl: int, t: Ticket)
    requires t in db.leases
    ensures var l, m := db.leases[t], RenewAccessRequest(db, user, x, req, ttl).leases[t];
            && m == l.(expiresAt := m.expiresAt) && l.expiresAt <= m.expiresAt
            && (l.revoked || l.expiresAt <= db.now ==> m == l)
            && (m != l ==> m.expiresAt == db.now + RenewSpan(ttl))
            && (Candidate(l, db.now, user, x, req) ==> db.now + RefreshSpan(ttl) <= m.expiresAt)
    ensures RenewSpan(ttl) <= RenewTtl(ttl) < RenewSpan(ttl) + SECOND && RenewTtl(ttl) <= 7 * DAY
    ensures 2 * RefreshSpan(ttl) <= RenewTtl(ttl) < 2 * RefreshSpan(ttl) + 2 * SECOND + 2
  {}

  // A renewal succeeds exactly when some lease is still in force for the access, and it leaves that lease in force.
  lemma RenewalKeepsCandidates(db: Db, user: UserId, x: Access, req: string, ttl: int)
    ensures Renewable(RenewAccessRequest(db, user, x, req, ttl), user, x, req) <==> Renewable(db, user, x, req)
  {
    var d := RenewAccessRequest(db, user, x, req, ttl);
    if Renewable(db, user, x, req) {
      var t :| t in db.leases && Candidate(db.leases[t], db.now, user, x, req);
      assert RefreshSpan(ttl) <= RenewSpan(ttl);
      assert Candidate(d.leases[t], d.now, user, x, req);
    }
    if Renewable(d, user, x, req) {
      var t :| t in d.leases && Candidate(d.leases[t], d.now, user, x, req);
      assert Candidate(db.leases[t], db.now, user, x, req);
    }
  }

  // ----- expiry is final -----

  // Of the steps on leases only a renewal moves an end, and not that of an expired lease.
  lemma LeaseStepEnds(db: Db, op: Op, t: Ticket)
    requires t in db.leases && (op.RenewOp? || op.RevokeLeaseOp? || op.IssueOp?)
    requires op.RenewOp? ==> db.leases[t].expiresAt <= db.now
    ensures t in Step(db, op).leases && Step(db, op).leases[t].expiresAt == db.leases[t].expiresAt
  {}

  lemma EndStepEnds(db: Db, op: Op, t: Ticket)
    requires t in db.leases && (op.TransitionOp? || op.UpdateUserOp?)
    ensures t in Step(db, op).leases && Step(db, op).leases[t].expiresAt == db.leases[t].expiresAt
  {}

  lemma StepLeavesExpired(db: Db, op: Op, t: Ticket)
    requires Sound(db) && t in db.leases && db.leases[t].expiresAt <= db.now
    ensures t in Step(db, op).leases && Step(db, op).leases[t].expiresAt <= Step(db, op).now
  {
    StepSound(db, op);
    if op.RenewOp? || op.RevokeLeaseOp? || op.IssueOp? { LeaseStepEnds(db, op, t); }
    else if op.TransitionOp? || op.UpdateUserOp? { EndStepEnds(db, op, t); }
    else { LeasesUntouched(db, op); }
  }

  // No run of handlers brings an expired lease back.
  lemma {:induction false} ExpiredForever(db: Db, ops: seq<Op>, t: Ticket)
    requires Sound(db) && t in db.leases && db.leases[t].expiresAt <= db.now
    ensures t in Exec(db, ops).leases && Exec(db, ops).leases[t].expiresAt <= Exec(db, ops).now
    decreases |ops|
  {
    if ops != [] {
      StepLeavesExpired(db, ops[0], t);
      StepSound(db, ops[0]);
      ExpiredForever(Step(db, ops[0]), ops[1..], t);
    }
  }

  // ----- where the end of a lease comes from -----

  // This step gives ticket t this end: it issues the ticket, or renews it while it is a candidate.
  ghost predicate SetsEnd(db: Db, op: Op, t: Ticket, end: Time) {
    || (op.IssueOp? && op.ticket == t && end == db.now + IssueTtl(op.ttl))
    || (op.RenewOp? && t in db.leases && Candidate(db.leases[t], db.now, op.user, op.access, op.requestId) &&
        end == db.now + RenewSpan(op.ttl))
  }

  lemma StepSetsEnd(db: Db, op: Op, t: Ticket)
    requires t in Step(db, op).leases
    requires t in db.leases ==> Step(db, op).leases[t].expiresAt != db.leases[t].expiresAt
    ensures SetsEnd(db, op, t, Step(db, op).leases[t].expiresAt)
  {}

  lemma {:induction false} LastSet(db: Db, ops: seq<Op>, t: Ticket) returns (i: Option<nat>)
    requires t in Exec(db, ops).leases
    ensures i.None? ==> t in db.leases && db.leases[t].expiresAt == Exec(db, ops).leases[t].expiresAt
    ensures i.Some? ==> i.value < |ops| &&
                        SetsEnd(Exec(db, ops[..i.value]), ops[i.value], t, Exec(db, ops).leases[t].expiresAt)
    decreases |ops|
  {
    if ops == [] {
      return None;
    }
    var next := Step(db, ops[0]);
    var k := LastSet(next, ops[1..], t);
    if k.Some? {
      assert ops[..k.value + 1][1..] == ops[1..][..k.value] && ops[..k.value + 1][0] == ops[0];
      return Some(k.value + 1);
    }
    if t in db.leases && next.leases[t].expiresAt == db.leases[t].expiresAt {
      return None;
    }
    StepSetsEnd(db, ops[0], t);
    return Some(0);
  }

  // In every run a lease ends exactly one clamped ttl after some step of the run that issued or renewed it,
  // so never more than seven days after its last renewal nor ten minutes after an issue without one.
  lemma EndComesFromIssueOrRenewal(db: Db, ops: seq<Op>, t: Ticket) returns (i: nat)
    requires Initial(db) && t in Exec(db, ops).leases
    ensures i < |ops| && SetsEnd(Exec(db, ops[..i]), ops[i], t, Exec(db, ops).leases[t].expiresAt)
    ensures Exec(db, ops).leases[t].expiresAt <=
            Exec(db, ops[..i]).now + if ops[i].IssueOp? then 10 * MINUTE else RenewTtl(ops[i].ttl)
  {
    var k := LastSet(db, ops, t);
    i := k.value;
  }

  // ----- a stream that renews often enough -----

  // What a stream fixes when it opens: its session, whose it is, the row it was resolved to and how, its request id.
  datatype Stream = Stream(token: Token, subject: UserId, access: Access, accessId: string,
                           ownerKey: UserId, nameKey: string, requestId: string)

  // The part of a tick before the renewal: the session is valid, and the stream's identifier still finds the same row.
  // It finds no other, so that the order in which rows are delivered does not matter.
  ghost predicate Admitted(db: Db, st: Stream) {
    SessionValid(db, st.token) && db.sessions[st.token].user == st.subject && Grants(db, st.subject, st.access) &&
    Matches(st.access, st.accessId) && st.access.owner == st.ownerKey && st.access.name == st.nameKey &&
    forall y :: Grants(db, st.subject, y) && Matches(y, st.accessId) ==> y == st.access
  }

  // The tick passes whichever of the rows it may find first.
  ghost predicate Passes(db: Db, st: Stream) {
    (exists y :: Grants(db, st.subject, y) && Matches(y, st.accessId)) &&
    forall y :: Grants(db, st.subject, y) && Matches(y, st.accessId) ==>
      StreamAuthorized(db, st.token, st.subject, y, st.accessId, st.ownerKey, st.nameKey, st.requestId)
  }

  // One round: the tick closes lapsed shares and renews, then other handlers run until the next tick.
  ghost function Round(db: Db, st: Stream, ttl: int, ops: seq<Op>): Db {
    Exec(RenewAccessRequest(Sweep(db, false), st.subject, st.access, st.requestId, ttl), ops)
  }

  // Session and access stand at every tick, the ticks come less than RefreshSpan apart, and ticket t is not revoked.
  ghost predicate Steady(db: Db, st: Stream, ttl: int, t: Ticket, rounds: seq<seq<Op>>)
    decreases |rounds|
  {
    Admitted(Sweep(db, false), st) &&
    (rounds == [] ||
     var d := Round(db, st, ttl, rounds[0]);
     t in d.leases && !d.leases[t].revoked && d.now < db.now + RefreshSpan(ttl) && Steady(d, st, ttl, t, rounds[1..]))
  }

  // Every tick passes, the one after the last round included.
  ghost predicate AllPass(db: Db, st: Stream, ttl: int, rounds: seq<seq<Op>>)
    decreases |rounds|
  {
    Passes(Sweep(db, false), st) && (rounds == [] || AllPass(Round(db, st, ttl, rounds[0]), st, ttl, rounds[1..]))
  }

  ghost predicate Alive(db: Db, st: Stream, t: Ticket) {
    t in db.leases && Candidate(db.leases[t], db.now, st.subject, st.access, st.requestId)
  }

  lemma TickRenews(db: Db, st: Stream, ttl: int, t: Ticket)
    requires Sound(db) && Alive(db, st, t)
    ensures var r := RenewAccessRequest(Sweep(db, false), st.subject, st.access, st.requestId, ttl);
            && Sound(r) && r.now == db.now && t in r.leases && db.now + RefreshSpan(ttl) <= r.leases[t].expiresAt
            && r.leases[t] == db.leases[t].(expiresAt := r.leases[t].expiresAt)
  {
    var swept := Sweep(db, false);
    SweepInPlace(db, false);
    InPlaceSound(db, swept);
    RenewSound(swept, st.subject, st.access, st.requestId, ttl);
    assert RefreshSpan(ttl) <= RenewSpan(ttl);
  }

  lemma RoundKeepsLease(db: Db, st: Stream, ttl: int, t: Ticket, ops: seq<Op>)
    requires Sound(db) && Alive(db, st, t)
    requires var d := Round(db, st, ttl, ops);
             t in d.leases && !d.leases[t].revoked && d.now < db.now + RefreshSpan(ttl)
    ensures var d := Round(db, st, ttl, ops); Sound(d) && Alive(d, st, t)
  {
    var r := RenewAccessRequest(Sweep(db, false), st.subject, st.access, st.requestId, ttl);
    TickRenews(db, st, ttl, t);
    ExecSound(r, ops);
    assert LeaseEvolves(r.leases[t], Exec(r, ops).leases[t]);
  }

  // However the other handlers interleave, a steady stream passes every tick.
  lemma {:induction false} SteadyStreamSurvives(db: Db, st: Stream, ttl: int, t: Ticket, rounds: seq<seq<Op>>)
    requires Sound(db) && Alive(db, st, t) && Steady(db, st, ttl, t, rounds)
    ensures AllPass(db, st, ttl, rounds)
    decreases |rounds|
  {
    assert Alive(Sweep(db, false), st, t);
    if rounds != [] {
      RoundKeepsLease(db, st, ttl, t, rounds[0]);
      SteadyStreamSurvives(Round(db, st, ttl, rounds[0]), st, ttl, t, rounds[1..]);
    }
  }

  // ----- fencing, with the lease insert racing -----

  datatype Held = Held(user: UserId, access: Access)

  // A store together with the accesses that handlers have resolved and not yet used.
  datatype Racing = Racing(db: Db, held: set<Held>)

  datatype RaceOp =
    | Whole(op: Op)
    | ResolveFirst(user: UserId, access: Access)
    | InsertLater(user: UserId, access: Access, ttl: int, requestId: string, usedToday: int, ticket: Ticket)

  ghost function RaceStep(r: Racing, op: RaceOp): Racing {
    match op
    case Whole(o) => r.(db := Step(r.db, o))
    case ResolveFirst(u, x) =>
      if Authenticated(r.db, u) && Grants(r.db, u, x) then r.(held := r.held + {Held(u, x)}) else r
    case InsertLater(u, x, ttl, req, used, t) =>
      if Held(u, x) in r.held
      then Racing(CreateAccessLease(r.db, u, x, ttl, req, used, t).Final(r.db), r.held - {Held(u, x)}) else r
  }

  ghost function RaceExec(r: Racing, ops: seq<RaceOp>): Racing
    decreases |ops|
  {
    if ops == [] then r else RaceExec(RaceStep(r, ops[0]), ops[1..])
  }

  ghost predicate RaceSound(r: Racing) {
    Sound(r.db) && forall h :: h in r.held ==> Derived(r.db, h.user, h.access)
  }

  lemma RaceStepSound(r: Racing, op: RaceOp)
    requires RaceSound(r)
    ensures RaceSound(RaceStep(r, op)) && Evolves(r.db, RaceStep(r, op).db)
  {
    var q := RaceStep(r, op);
    NothingInPlace(r.db);
    match op {
      case Whole(o) => StepSound(r.db, o);
      case ResolveFirst(u, x) => if q != r { GrantsDerived(r.db, u, x); }
      case InsertLater(u, x, ttl, req, used, t) =>
        if Held(u, x) in r.held { IssueSound(r.db, u, x, ttl, req, used, t); }
    }
    forall h | h in q.held && h in r.held ensures Derived(q.db, h.user, h.access) {
      DerivedStays(r.db, q.db, h.user, h.access);
    }
  }

  lemma {:induction false} RaceExecSound(r: Racing, ops: seq<RaceOp>)
    requires RaceSound(r)
    ensures RaceSound(RaceExec(r, ops)) && Evolves(r.db, RaceExec(r, ops).db)
    decreases |ops|
  {
    NothingInPlace(r.db);
    if ops != [] {
      RaceStepSound(r, ops[0]);
      RaceExecSound(RaceStep(r, ops[0]), ops[1..]);
      EvolvesTransitive(r.db, RaceStep(r, ops[0]).db, RaceExec(r, ops).db);
    }
  }

  // Once share s has reached version v, whatever is resolved from s later accepts no ticket of s with a lower
  // version, even one whose insert was overtaken by the update; it accepts the current version only.
  lemma UpdateFences(r: Racing, ops: seq<RaceOp>, s: ShareId, user: UserId, x: Access, req: string, t: Ticket)
    requires RaceSound(r) && s in r.db.shares
    requires var d := RaceExec(r, ops).db;
             Grants(d, user, x) && x.share == Some(s) && t in d.leases && d.leases[t].share == Some(s) &&
             Candidate(d.leases[t], d.now, user, x, req)
    ensures var d := RaceExec(r, ops).db;
            s in d.shares && r.db.shares[s].version <= d.leases[t].version == d.shares[s].version
  {
    RaceExecSound(r, ops);
    assert ShareEvolves(r.db.shares[s], RaceExec(r, ops).db.shares[s]);
  }

  // Each update that commits raises the version by one and revokes what was issued before it;
  // no other transition touches the version.
  lemma UpdateRaisesVersion(db: Db, actor: UserId, id: ShareId, action: Action, admin: bool)
    requires TransitionShare(db, actor, id, action, admin).Committed?
    ensures var d := TransitionShare(db, actor, id, action, admin).db;
            && d.shares[id].version == db.shares[id].version + (if action.Update? then 1 else 0)
            && (forall t :: t in d.leases && d.leases[t].share == Some(id) ==> d.leases[t].revoked)
            && (forall t :: t in d.leases && d.leases[t].share != Some(id) ==> d.leases[t] == db.leases[t])
            && (forall s :: s in d.shares && s != id ==> d.shares[s] == db.shares[s])
  {}

  // ----- with whole handlers only the current version is ever in force -----

  ghost predicate CurrentOnly(db: Db) {
    forall t :: t in db.leases && !db.leases[t].revoked && db.leases[t].share.Some? ==>
                  var s := db.leases[t].share.value;
                  s in db.shares ==> db.leases[t].version == db.shares[s].version
  }

  lemma TransitionCurrent(db: Db, actor: UserId, id: ShareId, action: Action, admin: bool)
    requires CurrentOnly(db)
    ensures CurrentOnly(TransitionShare(db, actor, id, action, admin).Final(db))
  {
    var o := TransitionShare(db, actor, id, action, admin);
    if o.Committed? { UpdateRaisesVersion(db, actor, id, action, admin); }
  }

  lemma IssueCurrent(db: Db, user: UserId, x: Access, ttl: int, req: string, used: int, t: Ticket)
    requires CurrentOnly(db) && Grants(db, user, x)
    ensures CurrentOnly(CreateAccessLease(db, user, x, ttl, req, used, t).Final(db))
  {}

  lemma CreateCurrent(db: Db, u: UserId, a: AgentId, g: UserId, from: Option<Time>, until: Option<Time>, max: int,
                      id: ShareId)
    requires Sound(db) && CurrentOnly(db)
    ensures CurrentOnly(CreateShare(db, u, a, g, from, until, max, id).Final(db))
  {
    NoOrphans(db, a, g);
    forall t | t in db.leases && db.leases[t].share.Some? ensures db.leases[t].share.value in db.shares {
      assert LeaseOk(db, db.leases[t]);
    }
  }

  // No version changes and no ticket comes into force.
  lemma CurrentStays(a: Db, b: Db)
    requires CurrentOnly(a) && b.leases.Keys == a.leases.Keys && b.shares.Keys == a.shares.Keys
    requires forall t :: t in b.leases ==> LeaseEvolves(a.leases[t], b.leases[t])
    requires forall s :: s in b.shares ==> b.shares[s].version == a.shares[s].version
    ensures CurrentOnly(b)
  {
    forall t | t in b.leases ensures LeaseEvolves(a.leases[t], b.leases[t]) {}
  }

  lemma UpdateUserCurrent(db: Db, actor: UserId, target: UserId, status: Requested<UserStatus>, role: Requested<Role>)
    requires CurrentOnly(db)
    ensures CurrentOnly(UpdateUserLifecycle(db, actor, target, status, role).Final(db))
  {
    if LifecycleError(db.users, actor, target, status, role).None? { CurrentStays(db, Closed(db, target)); }
  }

  lemma SweepCurrent(db: Db, pendingToo: bool)
    requires CurrentOnly(db)
    ensures CurrentOnly(Sweep(db, pendingToo))
  {
    CurrentStays(db, Sweep(db, pendingToo));
  }

  lemma LeasesCurrent(db: Db, op: Op)
    requires CurrentOnly(db) && (op.RevokeLeaseOp? || op.RenewOp?)
    ensures CurrentOnly(Step(db, op))
  {
    StepInPlace(db, op);
    CurrentStays(db, Step(db, op));
  }

  lemma PlainCurrent(db: Db, op: Op)
    requires CurrentOnly(db)
    requires op.TickOp? || op.CreateUserOp? || op.LoginOp? || op.LogoutOp? || op.RegisterAgentOp?
    ensures CurrentOnly(Step(db, op))
  {
    assert Step(db, op).leases == db.leases && Step(db, op).shares == db.shares;
  }

  lemma StepCurrent(db: Db, op: Op)
    requires Sound(db) && CurrentOnly(db)
    ensures CurrentOnly(Step(db, op))
  {
    if op.TransitionOp? {
      TransitionCurrent(db, op.actor, op.id, op.action, op.action.Revoke? && IsAdmin(db, op.actor));
    } else if op.IssueOp? {
      if Grants(db, op.user, op.access) {
        IssueCurrent(db, op.user, op.access, op.ttl, op.requestId, op.usedToday, op.ticket);
      }
    } else if op.CreateShareOp? {
      CreateCurrent(db, op.user, op.agent, op.grantee, op.from, op.until, op.maxTasksPerDay, op.id);
    } else if op.UpdateUserOp? {
      UpdateUserCurrent(db, op.actor, op.target, op.status, op.role);
    } else if op.SweepOp? {
      SweepCurrent(db, op.pendingToo);
    } else if op.RevokeLeaseOp? || op.RenewOp? {
      LeasesCurrent(db, op);
    } else {
      PlainCurrent(db, op);
    }
  }

  lemma {:induction false} ExecCurrent(db: Db, ops: seq<Op>)
    requires Sound(db) && CurrentOnly(db)
    ensures CurrentOnly(Exec(db, ops))
    decreases |ops|
  {
    if ops != [] {
      StepCurrent(db, ops[0]);
      StepSound(db, ops[0]);
      ExecCurrent(Step(db, ops[0]), ops[1..]);
    }
  }

  // In every run of whole handlers a ticket in force carries the version its share has now: every update, accept,
  // decline and revoke has ended all tickets before it.
  lemma TicketInForceIsCurrent(db: Db, ops: seq<Op>, t: Ticket, s: ShareId)
    requires Initial(db)
    requires var d := Exec(db, ops); t in d.leases && d.leases[t].share == Some(s) && !d.leases[t].revoked
    ensures var d := Exec(db, ops); s in d.shares && d.leases[t].version == d.shares[s].version
  {
    ExecCurrent(db, ops);
    ExecSound(db, ops);
    assert LeaseOk(Exec(db, ops), Exec(db, ops).leases[t]);
  }
}

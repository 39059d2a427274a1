/**
 The store as an object whose fields the transactions update in place, statement by statement.
 Every method is proved against the transaction function of AccessModel and keeps the tables sound.
 */
module AccessStore {
  import opened Basics
  import opened AccessModel
  import opened AccessRuns
  import AccessEffects
  import AccessListing

  ghost predicate Before(order: seq<AgentId>, a: AgentId, b: AgentId) {
    exists i, j :: 0 <= i < j < |order| && order[i] == a && order[j] == b
  }

  // Of the granted rows under this identifier, the one that comes first in the order of the query.
  ghost predicate FirstMatch(db: Db, user: UserId, agentId: string, order: seq<AgentId>, x: Access) {
    Grants(db, user, x) && Matches(x, agentId) &&
    forall y :: Grants(db, user, y) && Matches(y, agentId) ==> y == x || Before(order, x.agent, y.agent)
  }

  // With the agents in some order without repetition there is one first match.
  lemma OneFirstMatch(db: Db, user: UserId, agentId: string, order: seq<AgentId>, x: Access, y: Access)
    requires forall i, j :: 0 <= i < j < |order| ==> order[i] != order[j]
    requires FirstMatch(db, user, agentId, order, x) && FirstMatch(db, user, agentId, order, y)
    ensures x == y
  {}

  class Store {
    var now: Time
    var users: map<UserId, User>
    var sessions: map<Token, Session>
    var agents: map<AgentId, Agent>
    var shares: map<ShareId, Share>
    var leases: map<Ticket, Lease>
    var log: seq<AuditRow>

    ghost function Tables(): Db
      reads this
    {
      Db(now, users, sessions, agents, shares, leases, log)
    }

    ghost predicate Valid()
      reads this
    {
      Sound(Tables())
    }

    constructor ()
      ensures Valid() && Initial(Tables()) && users == map[] && now == 0
    {
      now, users, sessions, agents, shares, leases, log := 0, map[], map[], map[], map[], map[], [];
    }

    // Absent columns keep their value; the status is checked before the role.
    static method ReadRequest(current: User, status: Requested<UserStatus>, role: Requested<Role>)
      returns (r: Result<User, AccessError>)
      ensures r.Success? <==> !status.Unrecognised? && !role.Unrecognised?
      ensures r.Success? ==> r.value == Amended(current, status, role)
      ensures r.Failure? ==> r.error == if status.Unrecognised? then InvalidStatus else InvalidRole
    {
      var next := current;
      match status {
        case Unchanged =>
        case Wanted(s) => next := next.(status := s);
        case Unrecognised => return Failure(InvalidStatus);
      }
      match role {
        case Unchanged =>
        case Wanted(g) => next := next.(role := g);
        case Unrecognised => return Failure(InvalidRole);
      }
      return Success(next);
    }

    // The three statements that end what an account has open.
    method CloseAccount(user: UserId)
      modifies this`sessions, this`leases, this`shares
      ensures Tables() == Closed(old(Tables()), user)
      ensures sessions.Keys == old(sessions).Keys && leases.Keys == old(leases).Keys && shares.Keys == old(shares).Keys
      ensures forall t :: t in sessions ==>
                var before := old(sessions)[t];
                sessions[t] == if before.user == user then before.(live := false) else before
      ensures forall t :: t in leases && user !in {leases[t].subject, leases[t].owner} ==> leases[t] == old(leases)[t]
      ensures forall s :: s in shares && user !in {shares[s].owner, shares[s].grantee} ==> shares[s] == old(shares)[s]
    {
      sessions := EndSessions(sessions, user);
      leases := RevokeLeasesOfUser(leases, user);
      shares := RevokeSharesOfUser(shares, user);
    }

    // The guards of a lifecycle change, in order; the row it will write when all pass.
    method CheckLifecycle(actor: UserId, target: UserId, status: Requested<UserStatus>, role: Requested<Role>)
      returns (r: Result<User, AccessError>)
      ensures var refusal := LifecycleError(users, actor, target, status, role);
              if refusal.Some? then r == Failure(refusal.value)
              else target in users && r == Success(Amended(users[target], status, role))
    {
      if target !in users {
        return Failure(NoRows);
      }
      var current := users[target];
      r := ReadRequest(current, status, role);
      if r.Failure? {
        return;
      }
      var next := r.value;
      if actor == target && next.status != Enabled {
        return Failure(SelfManagement);
      }
      if current.role == Admin && current.status == Enabled && (next.role != Admin || next.status != Enabled) {
        var count := |ActiveAdmins(users)|;
        if count <= 1 {
          return Failure(LastActiveAdmin);
        }
      }
    }

    method UpdateUserLifecycle(actor: UserId, target: UserId, status: Requested<UserStatus>, role: Requested<Role>)
      returns (r: Result<(), AccessError>)
      modifies this
      ensures var o := AccessModel.UpdateUserLifecycle(old(Tables()), actor, target, status, role);
              Tables() == o.Final(old(Tables())) && r == o.Reply()
      ensures r.Success? ==> AccessEffects.LifecycleFrame(old(Tables()), Tables(), target)
      ensures old(Valid()) ==> Valid()
    {
      ghost var after := AccessModel.UpdateUserLifecycle(Tables(), actor, target, status, role).Final(Tables());
      var checked := CheckLifecycle(actor, target, status, role);
      if checked.Failure? {
        return Failure(checked.error);
      }
      var next := checked.value;
      users := users[target := next];
      if next.status != Enabled {
        CloseAccount(target);
      }
      log := log + [UserUpdated(actor, target, next.status, next.role)];
      assert Tables() == after;
      UpdateUserSound(old(Tables()), actor, target, status, role);
      AccessEffects.LifecycleEffect(old(Tables()), actor, target, status, role);
      return Success(());
    }

    method CreateShare(owner: UserId, agent: AgentId, grantee: UserId, from: Option<Time>, until: Option<Time>,
                       maxTasksPerDay: int, id: ShareId)
      returns (r: Result<ShareId, AccessError>)
      requires Valid()
      modifies this
      ensures Valid()
      ensures var o := AccessModel.CreateShare(old(Tables()), owner, agent, grantee, from, until, maxTasksPerDay, id);
              Tables() == o.Final(old(Tables())) && r == o.Reply()
    {
      CreateShareSound(Tables(), owner, agent, grantee, from, until, maxTasksPerDay, id);
      var validFrom := now;
      if from.Some? {
        validFrom := from.value;
      }
      if agent !in agents || agents[agent].owner != owner {
        return Failure(NoRows);
      }
      if grantee !in users || users[grantee].status != Enabled {
        return Failure(NoRows);
      }
      if grantee == owner {
        return Failure(SharedWithOwner);
      }
      var before := shares;
      shares := shares - Orphans(Db(now, users, sessions, agents, shares, leases, log), agent, grantee);
      var terms := Terms(validFrom, until, maxTasksPerDay);
      if !terms.Ordered() || owner !in users || id in shares {
        shares := before;
        return Failure(ConstraintViolated);
      }
      if OpenPair(shares, agent, grantee) {
        shares := before;
        return Failure(OpenShareExists);
      }
      shares := shares[id := Share(agent, owner, grantee, Pending, terms, 1)];
      log := log + [ShareCreated(owner, id, owner, grantee)];
      return Success(id);
    }

    // Who may move a share, and from which status.
    static method CheckTransition(share: Share, actor: UserId, action: Action, admin: bool) returns (allowed: bool)
      ensures allowed <==> Permitted(share, actor, action, admin)
    {
      match action {
        case Accept => allowed := actor == share.grantee && share.status == Pending;
        case Decline => allowed := actor == share.grantee && share.status == Pending;
        case Revoke =>
          allowed := (actor == share.owner || admin) && (share.status == Pending || share.status == Active);
        case Update(_, _, _) => allowed := actor == share.owner && (share.status == Pending || share.status == Active);
      }
    }

    method TransitionShare(actor: UserId, id: ShareId, action: Action, admin: bool) returns (r: Result<(), AccessError>)
      modifies this
      ensures var o := AccessModel.TransitionShare(old(Tables()), actor, id, action, admin);
              Tables() == o.Final(old(Tables())) && r == o.Reply()
      ensures old(Valid()) ==> Valid()
    {
      ghost var after := AccessModel.TransitionShare(Tables(), actor, id, action, admin).Final(Tables());
      if id !in shares {
        return Failure(NoRows);
      }
      var share := shares[id];
      var allowed := CheckTransition(share, actor, action, admin);
      if !allowed {
        return Failure(NoRows);
      }
      match action {
        case Accept => share := share.(status := Active);
        case Decline => share := share.(status := Declined);
        case Revoke => share := share.(status := Revoked);
        case Update(from, until, maxTasksPerDay) =>
          var validFrom := if from.Some? then from.value else share.terms.validFrom;
          share := share.(terms := Terms(validFrom, until, maxTasksPerDay), version := share.version + 1);
      }
      if !share.terms.Ordered() || share.version > VERSION_LIMIT {
        return Failure(ConstraintViolated);
      }
      shares := shares[id := share];
      leases := RevokeLeasesOfShare(leases, id);
      log := log + [ShareMoved(actor, id, action)];
      assert Tables() == after;
      TransitionSound(old(Tables()), actor, id, action, admin);
      return Success(());
    }

    // order is the order in which the query delivers the agents (by their updated_at).
    ghost predicate Orders(order: seq<AgentId>)
      reads this
    {
      (forall a :: a in agents <==> a in order) && forall i, j :: 0 <= i < j < |order| ==> order[i] != order[j]
    }

    method ExpireActive()
      requires Valid()
      modifies this
      ensures Valid() && Tables() == Sweep(old(Tables()), false)
    {
      SweepInPlace(Tables(), false);
      InPlaceSound(Tables(), Sweep(Tables(), false));
      shares := SweepShares(shares, now, false);
    }

    method ListAccessibleAgents(user: UserId, order: seq<AgentId>) returns (items: seq<Access>)
      requires Valid() && Orders(order)
      modifies this
      ensures Valid() && Tables() == Sweep(old(Tables()), false)
      ensures forall x :: x in items <==> Grants(Tables(), user, x)
      ensures forall i, j :: 0 <= i < j < |items| ==> Before(order, items[i].agent, items[j].agent)
    {
      ExpireActive();
      var db := Db(now, users, sessions, agents, shares, leases, log);
      items := [];
      for i := 0 to |order|
        invariant Tables() == db && Sound(db) && db == Sweep(old(Tables()), false)
        invariant forall x :: x in items <==> Grants(db, user, x) && x.agent in order[..i]
        invariant forall j, k :: 0 <= j < k < |items| ==> Before(order, items[j].agent, items[k].agent)
      {
        var rows := JoinAgent(db, user, order[i]);
        assert forall j :: 0 <= j < |items| ==> items[j] in items && items[j].agent in order[..i];
        forall j | 0 <= j < |items| ensures Before(order, items[j].agent, order[i]) {
          assert items[j].agent in order[..i];
        }
        items := items + rows;
        assert order[..i + 1] == order[..i] + [order[i]];
      }
      assert order[..|order|] == order;
    }

    // The rows of the outer join for one agent: its matching share, or the agent alone if it has none.
    static method JoinAgent(db: Db, user: UserId, a: AgentId) returns (rows: seq<Access>)
      requires Sound(db) && a in db.agents
      ensures |rows| <= 1
      ensures forall x :: x in rows <==> Grants(db, user, x) && x.agent == a
    {
      var owner := db.agents[a].owner;
      if owner !in db.users || db.users[owner].status != Enabled {
        return [];
      }
      if s :| s in db.shares && Joins(db, user, s) && db.shares[s].agent == a {
        rows := [Row(db, user, a, Some(s))];
      } else if owner == user {
        rows := [Row(db, user, a, None)];
      } else {
        rows := [];
      }
      forall x, y | Grants(db, user, x) && x.agent == a && y in rows ensures x == y {
        AccessListing.OneRowPerAgent(db, user, x, y);
      }
    }

    // The row that comes first among those under this identifier, if there is one.
    method ResolveAgentAccess(user: UserId, accessId: string, order: seq<AgentId>) returns (r: Option<Access>)
      requires Valid() && Orders(order)
      modifies this
      ensures Valid() && Tables() == Sweep(old(Tables()), false)
      ensures r.Some? ==> Grants(Tables(), user, r.value) && Matches(r.value, accessId)
      ensures r.Some? ==> forall y :: Grants(Tables(), user, y) && Matches(y, accessId) ==>
                y == r.value || Before(order, r.value.agent, y.agent)
      ensures r.None? ==> forall x :: Grants(Tables(), user, x) ==> !Matches(x, accessId)
    {
      var items := ListAccessibleAgents(user, order);
      for i := 0 to |items|
        invariant forall k :: 0 <= k < i ==> !Matches(items[k], accessId)
      {
        if items[i].accessId == accessId || (!items[i].shared && items[i].publicId == accessId) {
          forall y | y in items && Matches(y, accessId) && y != items[i]
            ensures Before(order, items[i].agent, y.agent)
          {
            var k :| 0 <= k < |items| && items[k] == y;
          }
          return Some(items[i]);
        }
      }
      return None;
    }

    method CreateAccessLease(user: UserId, x: Access, ttl: int, requestId: string, usedToday: int, ticket: Ticket)
      returns (r: Result<Ticket, AccessError>)
      requires Valid() && Derived(Tables(), user, x)
      modifies this
      ensures Valid()
      ensures var o := AccessModel.CreateAccessLease(old(Tables()), user, x, ttl, requestId, usedToday, ticket);
              Tables() == o.Final(old(Tables())) && r == o.Reply()
    {
      IssueSound(Tables(), user, x, ttl, requestId, usedToday, ticket);
      var span := ttl;
      if span <= 0 || span > 10 * MINUTE {
        span := 5 * MINUTE;
      }
      var share: Option<ShareId> := None;
      if x.shared {
        share := x.share;
        if x.maxTasksPerDay > 0 && usedToday >= x.maxTasksPerDay {
          return Failure(DailyLimit);
        }
      }
      if ticket in leases || x.agent !in agents || user !in users || x.owner !in users ||
         (share.Some? && share.value !in shares) {
        return Failure(ConstraintViolated);
      }
      leases := leases[ticket := Lease(x.agent, user, x.owner, share, x.version, requestId, now + span, false)];
      return Success(ticket);
    }

    // works tells whether the statement reaches the table; its callers do not look at the result.
    method RevokeAccessLease(ticket: Ticket, works: bool) returns (ok: bool)
      requires Valid()
      modifies this
      ensures Valid() && ok == works
      ensures Tables() == if works then AccessModel.RevokeAccessLease(old(Tables()), ticket) else old(Tables())
    {
      RevokeLeaseInPlace(Tables(), ticket);
      InPlaceSound(Tables(), AccessModel.RevokeAccessLease(Tables(), ticket));
      if !works {
        return false;
      }
      if ticket in leases && !leases[ticket].revoked {
        leases := leases[ticket := leases[ticket].(revoked := true)];
      }
      return true;
    }

    // The candidates are found first and only the ones about to run out are rewritten.
    method RenewAccessRequest(user: UserId, x: Access, requestId: string, ttl: int) returns (ok: bool)
      modifies this
      ensures Tables() == AccessModel.RenewAccessRequest(old(Tables()), user, x, requestId, ttl)
      ensures ok <==> Renewable(old(Tables()), user, x, requestId)
      ensures old(Valid()) ==> Valid()
    {
      ghost var after := AccessModel.RenewAccessRequest(Tables(), user, x, requestId, ttl);
      var span := ttl;
      if span <= 0 || span > 7 * DAY {
        span := 24 * HOUR;
      }
      var ttlSeconds, refreshSeconds := span / SECOND, span / 2 / SECOND;
      assert ttlSeconds * SECOND == RenewSpan(ttl) && refreshSeconds * SECOND == RefreshSpan(ttl);
      var candidates := set t | t in leases && Candidate(leases[t], now, user, x, requestId);
      var due := set t | t in candidates && leases[t].expiresAt < now + refreshSeconds * SECOND;
      leases := map t | t in leases ::
        if t in due then leases[t].(expiresAt := now + ttlSeconds * SECOND) else leases[t];
      ok := exists t :: t in candidates;
      assert ok <==> exists t :: t in old(leases) && Candidate(old(leases)[t], now, user, x, requestId) by {
        assert forall t :: t in candidates <==> t in old(leases) && Candidate(old(leases)[t], now, user, x, requestId);
      }
      forall t | t in leases ensures leases[t] == after.leases[t] {}
      assert leases == after.leases;
      assert Tables() == after;
      RenewSound(old(Tables()), user, x, requestId, ttl);
    }

    method SessionByToken(token: Token) returns (user: Option<UserId>)
      ensures user.Some? <==> SessionValid(Tables(), token)
      ensures user.Some? ==> user.value == sessions[token].user
    {
      if token !in sessions || !sessions[token].live || sessions[token].expiresAt <= now {
        return None;
      }
      var owner := sessions[token].user;
      if owner !in users || users[owner].status != Enabled {
        return None;
      }
      return Some(owner);
    }

    // The check of a tick: the session, then the first row under the identifier, then the renewal. It passes exactly if
    // the stream is authorized for that row, and renews its tickets then.
    method GatewayAuthorized(token: Token, subject: UserId, accessId: string, ownerKey: UserId, nameKey: string,
                             requestId: string, order: seq<AgentId>)
      returns (ok: bool)
      requires Valid() && Orders(order)
      modifies this
      ensures Valid()
      ensures var db := Sweep(old(Tables()), false);
              forall x | FirstMatch(db, subject, accessId, order, x) ::
                && (ok <==> StreamAuthorized(db, token, subject, x, accessId, ownerKey, nameKey, requestId))
                && (ok ==> Tables() == AccessModel.RenewAccessRequest(db, subject, x, requestId, DAY))
      ensures !ok ==> leases == old(leases)
      ensures ok ==> SessionValid(old(Tables()), token) && old(sessions)[token].user == subject
      ensures ok ==> exists x :: FirstMatch(Sweep(old(Tables()), false), subject, accessId, order, x) &&
                                 x.owner == ownerKey && x.name == nameKey
    {
      var user := SessionByToken(token);
      if user != Some(subject) {
        return false;
      }
      var found := ResolveAgentAccess(subject, accessId, order);
      if found.None? {
        return false;
      }
      var x := found.value;
      forall y | FirstMatch(Tables(), subject, accessId, order, y) ensures y == x {
        OneFirstMatch(Tables(), subject, accessId, order, x, y);
      }
      if x.owner != ownerKey || x.name != nameKey {
        return false;
      }
      ghost var before := leases;
      ok := RenewAccessRequest(subject, x, requestId, 24 * HOUR);
      if !ok {
        forall t | t in before ensures leases[t] == before[t] {}
        assert leases == before;
      }
    }
  }
}

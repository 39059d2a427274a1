/**
 The sharing and lease tables as one value, and each transaction on them as a function.
 A transaction either commits a new value or is refused, in which case nothing changes.
 */
module AccessModel {
  import opened Basics

  type UserId = int
  type AgentId = int
  type ShareId = int
  type Ticket = int
  type Token = int

  datatype Role = Admin | Member
  datatype UserStatus = Enabled | Disabled | Deleted
  datatype User = User(role: Role, status: UserStatus)

  // An optional column value in a request: absent, recognised, or neither.
  datatype Requested<+T> = Unchanged | Wanted(value: T) | Unrecognised

  datatype Session = Session(user: UserId, live: bool, expiresAt: Time)

  datatype Agent = Agent(owner: UserId, name: string, publicId: string)

  datatype ShareStatus = Pending | Active | Declined | Revoked | Expired
  {
    predicate Open() { Pending? || Active? }
  }

  datatype Terms = Terms(validFrom: Time, validUntil: Option<Time>, maxTasksPerDay: int)
  {
    predicate Ordered() { validUntil.Some? ==> validFrom < validUntil.value }
    predicate Lapsed(at: Time) { validUntil.Some? && validUntil.value <= at }
    predicate InWindow(at: Time) { validFrom <= at && !Lapsed(at) }
  }

  datatype Share = Share(agent: AgentId, owner: UserId, grantee: UserId,
                         status: ShareStatus, terms: Terms, version: int)
  {
    predicate Party(user: UserId) { owner == user || grantee == user }
  }

  datatype Lease = Lease(agent: AgentId, subject: UserId, owner: UserId, share: Option<ShareId>, version: int,
                         requestId: string, expiresAt: Time, revoked: bool)

  // A row of ListAccessibleAgents.
  datatype Access = Access(agent: AgentId, owner: UserId, name: string, publicId: string, accessId: string,
                           shared: bool, share: Option<ShareId>, maxTasksPerDay: int, version: int)

  datatype Action =
    | Accept
    | Decline
    | Revoke
    | Update(from: Option<Time>, until: Option<Time>, maxTasksPerDay: int)

  datatype AuditRow =
    | ShareCreated(actor: UserId, share: ShareId, owner: UserId, grantee: UserId)
    | ShareMoved(actor: UserId, share: ShareId, action: Action)
    | UserUpdated(actor: UserId, target: UserId, status: UserStatus, role: Role)

  datatype AccessError =
    | NoRows | InvalidStatus | InvalidRole | SelfManagement | LastActiveAdmin
    | SharedWithOwner | OpenShareExists | ConstraintViolated | DailyLimit

  datatype Db = Db(now: Time,
                   users: map<UserId, User>,
                   sessions: map<Token, Session>,
                   agents: map<AgentId, Agent>,
                   shares: map<ShareId, Share>,
                   leases: map<Ticket, Lease>,
                   log: seq<AuditRow>)

  datatype Outcome<+T> = Committed(db: Db, value: T) | Refused(error: AccessError)
  {
    // The tables after the transaction ended on db.
    function Final(before: Db): Db { if Committed? then db else before }

    function Reply(): Result<T, AccessError> { if Committed? then Success(value) else Failure(error) }
  }

  // ----- statements: the rows one UPDATE touches -----

  function EndSessions(sessions: map<Token, Session>, user: UserId): map<Token, Session> {
    map t | t in sessions :: if sessions[t].user == user then sessions[t].(live := false) else sessions[t]
  }

  function RevokeLeasesOfUser(leases: map<Ticket, Lease>, user: UserId): map<Ticket, Lease> {
    map t | t in leases ::
      if leases[t].subject == user || leases[t].owner == user then leases[t].(revoked := true) else leases[t]
  }

  function RevokeLeasesOfShare(leases: map<Ticket, Lease>, share: ShareId): map<Ticket, Lease> {
    map t | t in leases :: if leases[t].share == Some(share) then leases[t].(revoked := true) else leases[t]
  }

  function RevokeSharesOfUser(shares: map<ShareId, Share>, user: UserId): map<ShareId, Share> {
    map s | s in shares ::
      if shares[s].status.Open() && shares[s].Party(user) then shares[s].(status := Revoked) else shares[s]
  }

  // ListShares closes lapsed pending and active shares, ListAccessibleAgents only active ones.
  function SweepShares(shares: map<ShareId, Share>, now: Time, pendingToo: bool): map<ShareId, Share> {
    map s | s in shares ::
      if (shares[s].status.Active? || (pendingToo && shares[s].status.Pending?)) && shares[s].terms.Lapsed(now)
      then shares[s].(status := Expired) else shares[s]
  }

  function ActiveAdmins(users: map<UserId, User>): set<UserId> {
    set u | u in users && users[u] == User(Admin, Enabled)
  }

  // ----- users and sessions -----

  function CreateUser(db: Db, user: UserId, role: Role): Outcome<()> {
    if user in db.users then Refused(ConstraintViolated)
    else Committed(db.(users := db.users[user := User(role, Enabled)]), ())
  }

  predicate SessionValid(db: Db, token: Token) {
    token in db.sessions && db.sessions[token].live && db.now < db.sessions[token].expiresAt &&
    db.sessions[token].user in db.users && db.users[db.sessions[token].user].status.Enabled?
  }

  function Login(db: Db, user: UserId, token: Token, ttl: int): Outcome<()> {
    if user !in db.users || !db.users[user].status.Enabled? then Refused(NoRows)
    else if token in db.sessions then Refused(ConstraintViolated)
    else Committed(db.(sessions := db.sessions[token := Session(user, true, db.now + ttl)]), ())
  }

  function RevokeSession(db: Db, token: Token): Outcome<()> {
    if token !in db.sessions then Committed(db, ())
    else Committed(db.(sessions := db.sessions[token := db.sessions[token].(live := false)]), ())
  }

  function Wish<T>(requested: Requested<T>, current: T): T {
    if requested.Wanted? then requested.value else current
  }

  function Amended(user: User, status: Requested<UserStatus>, role: Requested<Role>): User {
    User(Wish(role, user.role), Wish(status, user.status))
  }

  // Why a lifecycle change is refused, if it is.
  function LifecycleError(users: map<UserId, User>, actor: UserId, target: UserId,
                          status: Requested<UserStatus>, role: Requested<Role>): Option<AccessError>
  {
    if target !in users then Some(NoRows)
    else if status.Unrecognised? then Some(InvalidStatus)
    else if role.Unrecognised? then Some(InvalidRole)
    else
      var next := Amended(users[target], status, role);
      if actor == target && !next.status.Enabled? then Some(SelfManagement)
      else if users[target] == User(Admin, Enabled) && next != User(Admin, Enabled) && |ActiveAdmins(users)| <= 1
      then Some(LastActiveAdmin)
      else None
  }

  function UpdateUserLifecycle(db: Db, actor: UserId, target: UserId,
                               status: Requested<UserStatus>, role: Requested<Role>): Outcome<()>
  {
    var refusal := LifecycleError(db.users, actor, target, status, role);
    if refusal.Some? then Refused(refusal.value)
    else
      var next := Amended(db.users[target], status, role);
      var row := UserUpdated(actor, target, next.status, next.role);
      var updated := db.(users := db.users[target := next], log := db.log + [row]);
      Committed(if next.status.Enabled? then updated else Closed(updated, target), ())
  }

  // Everything that was open for this account is ended.
  function Closed(db: Db, user: UserId): Db {
    db.(sessions := EndSessions(db.sessions, user),
        leases := RevokeLeasesOfUser(db.leases, user),
        shares := RevokeSharesOfUser(db.shares, user))
  }

  // ----- agents -----

  // RegisterAgent upserts by (owner, name); a repeated registration keeps the row's id and public id.
  function RegisterAgent(db: Db, owner: UserId, name: string, agent: AgentId, publicId: string): Outcome<()> {
    if owner !in db.users then Refused(ConstraintViolated)
    else if exists a :: a in db.agents && db.agents[a].owner == owner && db.agents[a].name == name
    then Committed(db, ())
    else if agent in db.agents || exists a :: a in db.agents && db.agents[a].publicId == publicId
    then Refused(ConstraintViolated)
    else Committed(db.(agents := db.agents[agent := Agent(owner, name, publicId)]), ())
  }

  // ----- shares -----

  // Open rows of the pair whose agent or users are gone; CreateShare deletes them first.
  function Orphans(db: Db, agent: AgentId, grantee: UserId): set<ShareId> {
    set s | s in db.shares && db.shares[s].agent == agent && db.shares[s].grantee == grantee &&
            db.shares[s].status.Open() &&
            (db.shares[s].agent !in db.agents || db.shares[s].owner !in db.users || db.shares[s].grantee !in db.users)
  }

  predicate OpenPair(shares: map<ShareId, Share>, agent: AgentId, grantee: UserId) {
    exists s :: s in shares && shares[s].agent == agent && shares[s].grantee == grantee && shares[s].status.Open()
  }

  function CreateShare(db: Db, owner: UserId, agent: AgentId, grantee: UserId,
                       from: Option<Time>, until: Option<Time>, maxTasksPerDay: int, id: ShareId): Outcome<ShareId>
  {
    var terms := Terms(if from.Some? then from.value else db.now, until, maxTasksPerDay);
    if agent !in db.agents || db.agents[agent].owner != owner then Refused(NoRows)
    else if grantee !in db.users || !db.users[grantee].status.Enabled? then Refused(NoRows)
    else if grantee == owner then Refused(SharedWithOwner)
    else
      var kept := db.shares - Orphans(db, agent, grantee);
      if !terms.Ordered() || owner !in db.users || id in kept then Refused(ConstraintViolated)
      else if OpenPair(kept, agent, grantee) then Refused(OpenShareExists)
      else Committed(db.(shares := kept[id := Share(agent, owner, grantee, Pending, terms, 1)],
                         log := db.log + [ShareCreated(owner, id, owner, grantee)]), id)
  }

  predicate Permitted(share: Share, actor: UserId, action: Action, admin: bool) {
    match action
    case Accept => actor == share.grantee && share.status == Pending
    case Decline => actor == share.grantee && share.status == Pending
    case Revoke => (actor == share.owner || admin) && share.status.Open()
    case Update(_, _, _) => actor == share.owner && share.status.Open()
  }

  // policy_version is a 32-bit column.
  const VERSION_LIMIT: int := 0x7fff_ffff

  function Moved(share: Share, action: Action): Share {
    match action
    case Accept => share.(status := Active)
    case Decline => share.(status := Declined)
    case Revoke => share.(status := Revoked)
    case Update(from, until, max) =>
      share.(terms := Terms(if from.Some? then from.value else share.terms.validFrom, until, max),
             version := share.version + 1)
  }

  function TransitionShare(db: Db, actor: UserId, id: ShareId, action: Action, admin: bool): Outcome<()> {
    if id !in db.shares || !Permitted(db.shares[id], actor, action, admin) then Refused(NoRows)
    else
      var next := Moved(db.shares[id], action);
      if !next.terms.Ordered() || next.version > VERSION_LIMIT then Refused(ConstraintViolated)
      else Committed(db.(shares := db.shares[id := next],
                         leases := RevokeLeasesOfShare(db.leases, id),
                         log := db.log + [ShareMoved(actor, id, action)]), ())
  }

  function Sweep(db: Db, pendingToo: bool): Db {
    db.(shares := SweepShares(db.shares, db.now, pendingToo))
  }

  // ----- access -----

  // The share joins an agent row for this user at the current time.
  predicate Joins(db: Db, user: UserId, s: ShareId) {
    s in db.shares && db.shares[s].grantee == user && db.shares[s].status.Active? && db.shares[s].terms.InWindow(db.now)
  }

  // (agent, share) is a row of the outer join that passes the WHERE clause.
  predicate Selected(db: Db, user: UserId, agent: AgentId, share: Option<ShareId>) {
    agent in db.agents && db.agents[agent].owner in db.users && db.users[db.agents[agent].owner].status.Enabled? &&
    match share
    case Some(s) => Joins(db, user, s) && db.shares[s].agent == agent
    case None =>
      db.agents[agent].owner == user &&
      !exists s :: s in db.shares && Joins(db, user, s) && db.shares[s].agent == agent
  }

  function Row(db: Db, user: UserId, agent: AgentId, share: Option<ShareId>): Access
    requires agent in db.agents && (share.Some? ==> share.value in db.shares)
  {
    var a := db.agents[agent];
    var owned := a.owner == user;
    Access(agent, a.owner, a.name, a.publicId, if owned then a.name else a.publicId, !owned, share,
           if share.Some? then db.shares[share.value].terms.maxTasksPerDay else 0,
           if share.Some? then db.shares[share.value].version else 0)
  }

  // x is a row of ListAccessibleAgents for this user.
  predicate Grants(db: Db, user: UserId, x: Access) {
    Selected(db, user, x.agent, x.share) && x == Row(db, user, x.agent, x.share)
  }

  // The identifiers by which ResolveAgentAccess finds a row.
  predicate Matches(x: Access, accessId: string) {
    x.accessId == accessId || (!x.shared && x.publicId == accessId)
  }

  // ----- leases -----

  function IssueTtl(ttl: int): int { if ttl <= 0 || ttl > 10 * MINUTE then 5 * MINUTE else ttl }

  function LeaseFor(db: Db, user: UserId, x: Access, ttl: int, requestId: string): Lease {
    Lease(x.agent, user, x.owner, if x.shared then x.share else None, x.version, requestId,
          db.now + IssueTtl(ttl), false)
  }

  // usedToday is the day's task total of the share as the usage table holds it.
  function CreateAccessLease(db: Db, user: UserId, x: Access, ttl: int, requestId: string,
                             usedToday: int, ticket: Ticket): Outcome<Ticket>
  {
    if x.shared && x.maxTasksPerDay > 0 && usedToday >= x.maxTasksPerDay then Refused(DailyLimit)
    else if ticket in db.leases || x.agent !in db.agents || user !in db.users || x.owner !in db.users ||
            (x.shared && (x.share.None? || x.share.value !in db.shares))
    then Refused(ConstraintViolated)
    else Committed(db.(leases := db.leases[ticket := LeaseFor(db, user, x, ttl, requestId)]), ticket)
  }

  function RevokeAccessLease(db: Db, ticket: Ticket): Db {
    if ticket in db.leases then db.(leases := db.leases[ticket := db.leases[ticket].(revoked := true)]) else db
  }

  function RenewTtl(ttl: int): int { if ttl <= 0 || ttl > 7 * DAY then DAY else ttl }

  // Whole seconds of a non-negative duration, as a duration.
  function WholeSeconds(d: int): int { d / SECOND * SECOND }

  function RenewSpan(ttl: int): int { WholeSeconds(RenewTtl(ttl)) }

  function RefreshSpan(ttl: int): int { WholeSeconds(RenewTtl(ttl) / 2) }

  predicate Candidate(l: Lease, now: Time, user: UserId, x: Access, requestId: string) {
    l.requestId == requestId && l.subject == user && l.agent == x.agent && l.version == x.version &&
    !l.revoked && now < l.expiresAt
  }

  function Renewed(l: Lease, now: Time, user: UserId, x: Access, requestId: string, ttl: int): Lease {
    if Candidate(l, now, user, x, requestId) && l.expiresAt < now + RefreshSpan(ttl)
    then l.(expiresAt := now + RenewSpan(ttl)) else l
  }

  function RenewAccessRequest(db: Db, user: UserId, x: Access, requestId: string, ttl: int): Db {
    db.(leases := map t | t in db.leases :: Renewed(db.leases[t], db.now, user, x, requestId, ttl))
  }

  predicate Renewable(db: Db, user: UserId, x: Access, requestId: string) {
    exists t :: t in db.leases && Candidate(db.leases[t], db.now, user, x, requestId)
  }

  // The check a stream repeats on every tick (gatewayAuthorized and, for a mobile peer, sessionAuthorized).
  predicate StreamAuthorized(db: Db, token: Token, subject: UserId, x: Access, accessId: string,
                             ownerKey: UserId, nameKey: string, requestId: string)
  {
    SessionValid(db, token) && db.sessions[token].user == subject &&
    Grants(db, subject, x) && Matches(x, accessId) && x.owner == ownerKey && x.name == nameKey &&
    Renewable(db, subject, x, requestId)
  }
}

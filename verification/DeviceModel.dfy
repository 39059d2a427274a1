/**
 Devices and their credentials as a value, each operation of the repository as one function, and its runs.
 Tokens are stored as hashes; a hash is injective. What happens between the two statements of a bind or of an exchange
 is the subject of DeviceOverlap.
 */
module DeviceModel {
  import opened Basics

  type Uid = string
  type UserId = int
  type Token = string

  datatype Hash = HashOf(token: Token)

  datatype Credential = Credential(hash: Hash, expiresAt: Time)

  datatype BindState = Unconfirmed | Active | Revoked

  datatype Device = Device(owner: UserId, state: BindState, refresh: Option<Credential>, access: Option<Credential>,
                           lastSeen: Time)
  {
    predicate Holds(token: Token) {
      (refresh.Some? && refresh.value.hash == HashOf(token)) || (access.Some? && access.value.hash == HashOf(token))
    }
  }

  const ACCESS_TTL: int := 5 * HOUR
  const REFRESH_TTL: int := 100 * 365 * 24 * HOUR

  // What happened to a device and its credentials.
  datatype News =
    | Bound(uid: Uid, owner: UserId)
    | Issued(uid: Uid, owner: UserId, refresh: Token, access: Token, at: Time)
    | Exchanged(uid: Uid, owner: UserId, refresh: Token, access: Token, at: Time)
    | Cleared(uid: Uid)

  datatype Fleet = Fleet(now: Time, devices: map<Uid, Device>, log: seq<News>)

  datatype Bundle = Bundle(refreshExpiresAt: Time, access: Token, accessExpiresAt: Time)

  datatype Refusal = UidRequired | Conflict | NotFound | InvalidRefresh | RefreshExpired

  // ----- statements; uids are normalized, tokens trimmed -----

  // The insert, or the update that a conflict makes of it.
  function Upsert(f: Fleet, user: UserId, uid: Uid): Fleet {
    var d := if uid in f.devices then f.devices[uid].(owner := user, state := Active, lastSeen := f.now)
             else Device(user, Active, None, None, f.now);
    f.(devices := f.devices[uid := d], log := f.log + [Bound(uid, user)])
  }

  // Another user holds the device.
  predicate HeldByOther(f: Fleet, user: UserId, uid: Uid) {
    uid in f.devices && f.devices[uid].owner != user && !f.devices[uid].state.Revoked?
  }

  function BindDevice(f: Fleet, user: UserId, uid: Uid): (Fleet, Option<Refusal>) {
    if uid == "" then (f, Some(UidRequired))
    else if HeldByOther(f, user, uid) then (f, Some(Conflict))
    else (Upsert(f, user, uid), None)
  }

  function IssueDeviceTokens(f: Fleet, user: UserId, uid: Uid, refresh: Token, access: Token)
    : (Fleet, Result<Bundle, Refusal>)
  {
    if uid !in f.devices || f.devices[uid].owner != user || !f.devices[uid].state.Active? then (f, Failure(NotFound))
    else
      var d := f.devices[uid].(refresh := Some(Credential(HashOf(refresh), f.now + REFRESH_TTL)),
                               access := Some(Credential(HashOf(access), f.now + ACCESS_TTL)));
      (f.(devices := f.devices[uid := d], log := f.log + [Issued(uid, user, refresh, access, f.now)]),
       Success(Bundle(f.now + REFRESH_TTL, access, f.now + ACCESS_TTL)))
  }

  predicate Refreshes(f: Fleet, uid: Uid, refresh: Token) {
    uid in f.devices && f.devices[uid].state.Active? && f.devices[uid].refresh.Some? &&
    f.devices[uid].refresh.value.hash == HashOf(refresh)
  }

  // The update by uid; owner is the user that the select before it read.
  function WriteAccess(f: Fleet, uid: Uid, owner: UserId, refresh: Token, access: Token): Fleet
    requires uid in f.devices
  {
    var d := f.devices[uid].(access := Some(Credential(HashOf(access), f.now + ACCESS_TTL)));
    f.(devices := f.devices[uid := d], log := f.log + [Exchanged(uid, owner, refresh, access, f.now)])
  }

  function ExchangeRefresh(f: Fleet, uid: Uid, refresh: Token, access: Token): (Fleet, Result<Bundle, Refusal>) {
    if uid == "" || refresh == "" then (f, Failure(UidRequired))
    else if !Refreshes(f, uid, refresh) then (f, Failure(InvalidRefresh))
    else
      var expires := f.devices[uid].refresh.value.expiresAt;
      if f.now > expires then (f, Failure(RefreshExpired))
      else
        (WriteAccess(f, uid, f.devices[uid].owner, refresh, access),
         Success(Bundle(expires, access, f.now + ACCESS_TTL)))
  }

  // The row a presence report with this access token updates.
  predicate Presents(f: Fleet, uid: Uid, access: Token) {
    uid in f.devices && f.devices[uid].state.Active? && f.devices[uid].access.Some? &&
    f.devices[uid].access.value.hash == HashOf(access) && f.devices[uid].access.value.expiresAt > f.now
  }

  function Presence(f: Fleet, access: Token): Fleet {
    f.(devices := map u | u in f.devices ::
         if Presents(f, u, access) then f.devices[u].(lastSeen := f.now) else f.devices[u])
  }

  function RevokeDevice(f: Fleet, user: UserId, uid: Uid): (Fleet, bool) {
    if uid !in f.devices || f.devices[uid].owner != user || f.devices[uid].state.Revoked? then (f, false)
    else
      var d := f.devices[uid].(state := Revoked, refresh := None, access := None);
      (f.(devices := f.devices[uid := d], log := f.log + [Cleared(uid)]), true)
  }

  // ----- runs -----

  datatype Op =
    | TickOp(at: Time)
    | BindOp(user: UserId, uid: Uid)
    | IssueOp(user: UserId, uid: Uid, refresh: Token, access: Token)
    | ExchangeOp(uid: Uid, refresh: Token, access: Token)
    | PresenceOp(access: Token)
    | RevokeOp(user: UserId, uid: Uid)

  // This token was handed out at some time.
  predicate Mentions(n: News, token: Token) {
    (HandsOut(n) && n.access == token) || (n.Issued? && n.refresh == token)
  }

  predicate HandsOut(n: News) { n.Issued? || n.Exchanged? }

  predicate Used(log: seq<News>, token: Token) { exists i :: 0 <= i < |log| && Mentions(log[i], token) }

  // New tokens are random: they were never used before, and the two of an issue differ.
  function Step(f: Fleet, op: Op): Fleet {
    match op
    case TickOp(at) => if f.now <= at then f.(now := at) else f
    case BindOp(user, uid) => BindDevice(f, user, uid).0
    case IssueOp(user, uid, refresh, access) =>
      if Used(f.log, refresh) || Used(f.log, access) || refresh == access then f
      else IssueDeviceTokens(f, user, uid, refresh, access).0
    case ExchangeOp(uid, refresh, access) =>
      if Used(f.log, access) then f else ExchangeRefresh(f, uid, refresh, access).0
    case PresenceOp(access) => Presence(f, access)
    case RevokeOp(user, uid) => RevokeDevice(f, user, uid).0
  }

  function Exec(f: Fleet, ops: seq<Op>): Fleet {
    if ops == [] then f else Step(Exec(f, ops[..|ops| - 1]), ops[|ops| - 1])
  }
}

/**
 What every run of the devices keeps: who may own a device, and where each token it accepts came from.
 */
module DeviceSafety {
  import opened Basics
  import opened DeviceModel

  ghost predicate Initial(f: Fleet) { f.devices == map[] && f.log == [] }

  // Entry i handed this access token out to the owner of the device, and the device was not revoked since.
  ghost predicate GaveAccess(log: seq<News>, i: nat, uid: Uid, owner: UserId, c: Credential) {
    && i < |log| && HandsOut(log[i]) && log[i].uid == uid && log[i].owner == owner && HashOf(log[i].access) == c.hash
    && c.expiresAt == log[i].at + ACCESS_TTL && NotCleared(log, i, uid)
  }

  ghost predicate GaveRefresh(log: seq<News>, i: nat, uid: Uid, owner: UserId, c: Credential) {
    && i < |log| && log[i].Issued? && log[i].uid == uid && log[i].owner == owner && HashOf(log[i].refresh) == c.hash
    && c.expiresAt == log[i].at + REFRESH_TTL && NotCleared(log, i, uid)
  }

  ghost predicate NotCleared(log: seq<News>, i: nat, uid: Uid) { forall j :: i < j < |log| ==> log[j] != Cleared(uid) }

  ghost predicate AccessBacked(log: seq<News>, uid: Uid, d: Device) {
    d.access.Some? ==> exists i :: GaveAccess(log, i, uid, d.owner, d.access.value)
  }

  ghost predicate RefreshBacked(log: seq<News>, uid: Uid, d: Device) {
    d.refresh.Some? ==> exists i :: GaveRefresh(log, i, uid, d.owner, d.refresh.value)
  }

  ghost predicate DeviceOk(log: seq<News>, uid: Uid, d: Device) {
    && AccessBacked(log, uid, d) && RefreshBacked(log, uid, d)
    && (d.state.Revoked? ==> d.refresh.None? && d.access.None?)
    && (d.access.Some? && d.refresh.Some? ==> d.access.value.hash != d.refresh.value.hash)
  }

  ghost predicate Apart(devices: map<Uid, Device>) {
    forall u, v, token | u in devices && v in devices && devices[u].Holds(token) && devices[v].Holds(token) :: u == v
  }

  ghost predicate FleetOk(f: Fleet) {
    (forall u :: u in f.devices ==> DeviceOk(f.log, u, f.devices[u])) && Apart(f.devices)
  }

  // A token that a device holds was handed out.
  lemma HeldIsUsed(log: seq<News>, uid: Uid, d: Device, token: Token)
    requires DeviceOk(log, uid, d) && d.Holds(token)
    ensures Used(log, token)
  {
    if d.access.Some? && d.access.value.hash == HashOf(token) {
      var i: nat :| GaveAccess(log, i, uid, d.owner, d.access.value);
      assert Mentions(log[i], token);
    } else {
      var i: nat :| GaveRefresh(log, i, uid, d.owner, d.refresh.value);
      assert Mentions(log[i], token);
    }
  }

  // A device that stays as it is stays backed when the log grows, unless the entry clears it.
  lemma StillOk(log: seq<News>, n: News, uid: Uid, d: Device)
    requires DeviceOk(log, uid, d) && n != Cleared(uid)
    ensures DeviceOk(log + [n], uid, d)
  {
    if d.access.Some? {
      var i: nat :| GaveAccess(log, i, uid, d.owner, d.access.value);
      assert GaveAccess(log + [n], i, uid, d.owner, d.access.value);
    }
    if d.refresh.Some? {
      var i: nat :| GaveRefresh(log, i, uid, d.owner, d.refresh.value);
      assert GaveRefresh(log + [n], i, uid, d.owner, d.refresh.value);
    }
  }

  lemma ApartAfter(devices: map<Uid, Device>, log: seq<News>, uid: Uid, d: Device)
    requires Apart(devices) && forall u :: u in devices ==> DeviceOk(log, u, devices[u])
    requires forall token :: d.Holds(token) ==> (uid in devices && devices[uid].Holds(token)) || !Used(log, token)
    ensures Apart(devices[uid := d])
  {
    var after := devices[uid := d];
    forall u, v, token | u in after && v in after && after[u].Holds(token) && after[v].Holds(token) ensures u == v {
      if u in devices && u != uid { if devices[u].Holds(token) { HeldIsUsed(log, u, devices[u], token); } }
      if v in devices && v != uid { if devices[v].Holds(token) { HeldIsUsed(log, v, devices[v], token); } }
    }
  }

  lemma UpsertOk(f: Fleet, user: UserId, uid: Uid)
    requires FleetOk(f) && !HeldByOther(f, user, uid)
    ensures FleetOk(Upsert(f, user, uid))
  {
    var g := Upsert(f, user, uid);
    forall u | u in f.devices ensures DeviceOk(g.log, u, f.devices[u]) {
      StillOk(f.log, Bound(uid, user), u, f.devices[u]);
    }
    assert DeviceOk(g.log, uid, g.devices[uid]);
    ApartAfter(f.devices, f.log, uid, g.devices[uid]);
  }

  lemma BindOk(f: Fleet, user: UserId, uid: Uid)
    requires FleetOk(f)
    ensures FleetOk(BindDevice(f, user, uid).0)
  {
    if uid != "" && !HeldByOther(f, user, uid) { UpsertOk(f, user, uid); }
  }

  lemma IssueOk(f: Fleet, user: UserId, uid: Uid, refresh: Token, access: Token)
    requires FleetOk(f) && !Used(f.log, refresh) && !Used(f.log, access) && refresh != access
    ensures FleetOk(IssueDeviceTokens(f, user, uid, refresh, access).0)
  {
    var g := IssueDeviceTokens(f, user, uid, refresh, access).0;
    if g != f {
      var d, n := g.devices[uid], g.log[|f.log|];
      assert GaveAccess(g.log, |f.log|, uid, user, d.access.value);
      assert GaveRefresh(g.log, |f.log|, uid, user, d.refresh.value);
      forall u | u in f.devices && u != uid ensures DeviceOk(g.log, u, f.devices[u]) {
        StillOk(f.log, n, u, f.devices[u]);
      }
      ApartAfter(f.devices, f.log, uid, d);
    }
  }

  lemma WriteAccessOk(f: Fleet, uid: Uid, refresh: Token, access: Token)
    requires FleetOk(f) && uid in f.devices && !f.devices[uid].state.Revoked?
    requires !Used(f.log, access)
    ensures FleetOk(WriteAccess(f, uid, f.devices[uid].owner, refresh, access))
  {
    var d := f.devices[uid];
    var g := WriteAccess(f, uid, d.owner, refresh, access);
    var e, n := g.devices[uid], g.log[|f.log|];
    forall u | u in f.devices ensures DeviceOk(g.log, u, f.devices[u]) { StillOk(f.log, n, u, f.devices[u]); }
    if d.refresh.Some? { HeldIsUsed(f.log, uid, d, d.refresh.value.hash.token); }
    assert GaveAccess(g.log, |f.log|, uid, e.owner, e.access.value);
    assert DeviceOk(g.log, uid, e);
    ApartAfter(f.devices, f.log, uid, e);
  }

  lemma ExchangeOk(f: Fleet, uid: Uid, refresh: Token, access: Token)
    requires FleetOk(f) && !Used(f.log, access)
    ensures FleetOk(ExchangeRefresh(f, uid, refresh, access).0)
  {
    if Refreshes(f, uid, refresh) { WriteAccessOk(f, uid, refresh, access); }
  }

  lemma PresenceOk(f: Fleet, access: Token)
    requires FleetOk(f)
    ensures FleetOk(Presence(f, access))
  {
    var g := Presence(f, access);
    forall u | u in g.devices ensures DeviceOk(g.log, u, g.devices[u]) { assert DeviceOk(f.log, u, f.devices[u]); }
    forall u, v, token | u in g.devices && v in g.devices && g.devices[u].Holds(token) && g.devices[v].Holds(token)
      ensures u == v
    {
      assert f.devices[u].Holds(token) && f.devices[v].Holds(token);
    }
  }

  lemma RevokeOk(f: Fleet, user: UserId, uid: Uid)
    requires FleetOk(f)
    ensures FleetOk(RevokeDevice(f, user, uid).0)
  {
    var g := RevokeDevice(f, user, uid).0;
    if g != f {
      forall u | u in f.devices && u != uid ensures DeviceOk(g.log, u, f.devices[u]) {
        StillOk(f.log, Cleared(uid), u, f.devices[u]);
      }
      ApartAfter(f.devices, f.log, uid, g.devices[uid]);
    }
  }

  lemma StepOk(f: Fleet, op: Op)
    requires FleetOk(f)
    ensures FleetOk(Step(f, op))
  {
    match op
    case TickOp(at) =>
    case BindOp(user, uid) => BindOk(f, user, uid);
    case IssueOp(user, uid, refresh, access) => if Step(f, op) != f { IssueOk(f, user, uid, refresh, access); }
    case ExchangeOp(uid, refresh, access) => if Step(f, op) != f { ExchangeOk(f, uid, refresh, access); }
    case PresenceOp(access) => PresenceOk(f, access);
    case RevokeOp(user, uid) => RevokeOk(f, user, uid);
  }

  lemma {:induction false} ExecOk(f: Fleet, ops: seq<Op>)
    requires FleetOk(f)
    ensures FleetOk(Exec(f, ops))
  {
    if ops != [] {
      ExecOk(f, ops[..|ops| - 1]);
      StepOk(Exec(f, ops[..|ops| - 1]), ops[|ops| - 1]);
    }
  }

  // ----- main results -----

  // Entry i handed this access token out, to the owner the device has now, less than five hours ago and after the
  // latest revocation of the device.
  ghost predicate AccessFrom(f: Fleet, i: nat, uid: Uid, access: Token) {
    && i < |f.log| && HandsOut(f.log[i]) && f.log[i].uid == uid && f.log[i].access == access
    && uid in f.devices && f.log[i].owner == f.devices[uid].owner
    && f.now < f.log[i].at + 5 * HOUR && NotCleared(f.log, i, uid)
  }

  ghost predicate RefreshFrom(f: Fleet, i: nat, uid: Uid, refresh: Token) {
    && i < |f.log| && f.log[i].Issued? && f.log[i].uid == uid && f.log[i].refresh == refresh
    && uid in f.devices && f.log[i].owner == f.devices[uid].owner
    && f.now <= f.log[i].at + REFRESH_TTL && NotCleared(f.log, i, uid)
  }

  lemma AccessOrigin(f: Fleet, uid: Uid, access: Token) returns (i: nat)
    requires FleetOk(f) && Presents(f, uid, access)
    ensures AccessFrom(f, i, uid, access) && forall v :: Presents(f, v, access) ==> v == uid
  {
    var d := f.devices[uid];
    assert DeviceOk(f.log, uid, d) && d.Holds(access);
    i :| GaveAccess(f.log, i, uid, d.owner, d.access.value);
    forall v | Presents(f, v, access) ensures v == uid { assert f.devices[v].Holds(access); }
  }

  lemma RefreshOrigin(f: Fleet, uid: Uid, refresh: Token, access: Token) returns (i: nat)
    requires FleetOk(f) && ExchangeRefresh(f, uid, refresh, access).1.Success?
    ensures RefreshFrom(f, i, uid, refresh)
  {
    assert DeviceOk(f.log, uid, f.devices[uid]);
    i :| GaveRefresh(f.log, i, uid, f.devices[uid].owner, f.devices[uid].refresh.value);
  }

  // A token accepted by a presence report was handed out less than five hours ago, to the owner the device has now,
  // after the latest revocation of the device; and only one device accepts it.
  lemma AcceptedAccess(start: Fleet, ops: seq<Op>, uid: Uid, access: Token) returns (i: nat)
    requires Initial(start) && Presents(Exec(start, ops), uid, access)
    ensures AccessFrom(Exec(start, ops), i, uid, access)
    ensures forall v :: Presents(Exec(start, ops), v, access) ==> v == uid
  {
    ExecOk(start, ops);
    i := AccessOrigin(Exec(start, ops), uid, access);
  }

  // A refresh token that an exchange accepts was issued to the owner the device has now, after its latest revocation,
  // and the access token it is exchanged for lasts five hours.
  lemma AcceptedRefresh(start: Fleet, ops: seq<Op>, uid: Uid, refresh: Token, access: Token) returns (i: nat)
    requires Initial(start) && ExchangeRefresh(Exec(start, ops), uid, refresh, access).1.Success?
    ensures RefreshFrom(Exec(start, ops), i, uid, refresh)
    ensures var f := Exec(start, ops);
            var b := ExchangeRefresh(f, uid, refresh, access).1.value;
            b.access == access && b.accessExpiresAt == f.now + 5 * HOUR
  {
    ExecOk(start, ops);
    i := RefreshOrigin(Exec(start, ops), uid, refresh, access);
  }

  // ----- ownership -----

  lemma StepKeepsOwner(f: Fleet, op: Op, uid: Uid)
    requires uid in f.devices && !f.devices[uid].state.Revoked?
    ensures uid in Step(f, op).devices && Step(f, op).devices[uid].owner == f.devices[uid].owner
  {}

  // Whoever owned a device at one moment of a run owns it at the end, unless it was in the revoked state in between.
  lemma {:induction false} OwnerChangesThroughRevoked(start: Fleet, ops: seq<Op>, i: nat, uid: Uid)
    requires i <= |ops| && uid in Exec(start, ops[..i]).devices
    requires forall k :: i <= k < |ops| && uid in Exec(start, ops[..k]).devices ==>
                           !Exec(start, ops[..k]).devices[uid].state.Revoked?
    ensures uid in Exec(start, ops).devices &&
            Exec(start, ops).devices[uid].owner == Exec(start, ops[..i]).devices[uid].owner
  {
    if i == |ops| {
      assert ops[..i] == ops;
    } else {
      var last := |ops| - 1;
      var front := ops[..last];
      assert front[..i] == ops[..i];
      forall k | i <= k < last && uid in Exec(start, front[..k]).devices
        ensures !Exec(start, front[..k]).devices[uid].state.Revoked?
      {
        assert front[..k] == ops[..k];
      }
      OwnerChangesThroughRevoked(start, front, i, uid);
      StepKeepsOwner(Exec(start, front), ops[last], uid);
    }
  }

  // ----- a token once given up is never accepted again -----

  // The token was handed out and no device holds it any more.
  ghost predicate Retired(f: Fleet, token: Token) {
    Used(f.log, token) && forall u :: u in f.devices ==> !f.devices[u].Holds(token)
  }

  lemma StepKeepsRetired(f: Fleet, op: Op, token: Token)
    requires Retired(f, token)
    ensures Retired(Step(f, op), token)
  {
    var g := Step(f, op);
    var i :| 0 <= i < |f.log| && Mentions(f.log[i], token);
    assert f.log <= g.log && g.log[i] == f.log[i];
    forall u | u in g.devices ensures !g.devices[u].Holds(token) {
      assert u in f.devices ==> !f.devices[u].Holds(token);
    }
  }

  lemma {:induction false} RetiredForever(f: Fleet, ops: seq<Op>, token: Token)
    requires Retired(f, token)
    ensures Retired(Exec(f, ops), token)
  {
    if ops != [] {
      RetiredForever(f, ops[..|ops| - 1], token);
      StepKeepsRetired(Exec(f, ops[..|ops| - 1]), ops[|ops| - 1], token);
    }
  }

  // Revoking a device ends its tokens for good: neither table lookup accepts one later, for this device or another,
  // whoever binds the device again and whatever is issued to it.
  lemma RevokedTokensStayDead(f: Fleet, user: UserId, uid: Uid, ops: seq<Op>, token: Token, v: Uid, access: Token)
    requires FleetOk(f) && uid in f.devices && f.devices[uid].Holds(token) && RevokeDevice(f, user, uid).1
    ensures var g := Exec(RevokeDevice(f, user, uid).0, ops);
            !Presents(g, v, token) && ExchangeRefresh(g, v, token, access).1.Failure?
  {
    var r := RevokeDevice(f, user, uid).0;
    HeldIsUsed(f.log, uid, f.devices[uid], token);
    var i :| 0 <= i < |f.log| && Mentions(f.log[i], token);
    assert r.log[i] == f.log[i];
    assert Retired(r, token);
    RetiredForever(r, ops, token);
  }

  // An exchange ends the access token it replaces in the same way.
  lemma ReplacedTokenStaysDead(f: Fleet, uid: Uid, refresh: Token, access: Token, ops: seq<Op>, token: Token, v: Uid)
    requires FleetOk(f) && !Used(f.log, access) && ExchangeRefresh(f, uid, refresh, access).1.Success?
    requires f.devices[uid].access.Some? && f.devices[uid].access.value.hash == HashOf(token)
    ensures !Presents(Exec(ExchangeRefresh(f, uid, refresh, access).0, ops), v, token)
  {
    var g := ExchangeRefresh(f, uid, refresh, access).0;
    var d := f.devices[uid];
    assert DeviceOk(f.log, uid, d) && d.Holds(token);
    HeldIsUsed(f.log, uid, d, token);
    var i :| 0 <= i < |f.log| && Mentions(f.log[i], token);
    assert g.log[i] == f.log[i];
    forall u | u in g.devices ensures !g.devices[u].Holds(token) { assert u != uid ==> !f.devices[u].Holds(token); }
    RetiredForever(g, ops, token);
  }
}

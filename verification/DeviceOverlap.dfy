/**
 Binds and exchanges as the two statements they are, with other operations in between. A bind locks the row it finds
 until it ends, but finds nothing to lock when the device is new; an exchange locks nothing. What DeviceSafety proves of
 whole operations holds of these runs exactly when no write comes too late, and a write does so only after another bind
 or a revocation of its device in between.
 */
module DeviceOverlap {
  import opened Basics
  import opened DeviceModel
  import opened DeviceSafety

  type TxId = int

  // mark is how much of the history the first statement saw.
  datatype BindTx = BindTx(user: UserId, uid: Uid, found: bool, mark: nat)

  datatype SwapTx = SwapTx(uid: Uid, refresh: Token, owner: UserId, mark: nat)

  datatype World = World(fleet: Fleet, locks: map<Uid, TxId>, binds: map<TxId, BindTx>, swaps: map<TxId, SwapTx>)

  datatype Act =
    | Whole(op: Op)
    | FindBind(tx: TxId, user: UserId, uid: Uid)
    | WriteBind(tx: TxId)
    | FindSwap(tx: TxId, uid: Uid, refresh: Token)
    | WriteSwap(tx: TxId, access: Token)
    | Abort(tx: TxId)

  // A single statement waits for the locks of the rows it writes.
  predicate Waits(w: World, op: Op) {
    match op
    case TickOp(_) => false
    case IssueOp(_, uid, _, _) => uid in w.locks
    case RevokeOp(_, uid) => uid in w.locks
    case PresenceOp(access) => exists uid :: uid in w.locks && Presents(w.fleet, uid, access)
    case BindOp(_, _) => true
    case ExchangeOp(_, _, _) => true
  }

  function EndBind(w: World, t: TxId): World {
    w.(binds := map u | u in w.binds && u != t :: w.binds[u],
       locks := map uid | uid in w.locks && w.locks[uid] != t :: w.locks[uid])
  }

  function EndSwap(w: World, t: TxId): World { w.(swaps := map u | u in w.swaps && u != t :: w.swaps[u]) }

  // The bind's write can run: the lock of its row is its own, or nobody's.
  predicate BindReady(w: World, t: TxId) {
    t in w.binds && (w.binds[t].uid in w.locks ==> w.locks[w.binds[t].uid] == t)
  }

  predicate SwapReady(w: World, t: TxId, access: Token) {
    t in w.swaps && w.swaps[t].uid in w.fleet.devices && w.swaps[t].uid !in w.locks && !Used(w.fleet.log, access)
  }

  function Find(w: World, t: TxId, user: UserId, uid: Uid): World {
    if t in w.binds || uid == "" then w
    else if uid !in w.fleet.devices then w.(binds := w.binds[t := BindTx(user, uid, false, |w.fleet.log|)])
    else if uid in w.locks || HeldByOther(w.fleet, user, uid) then w
    else w.(binds := w.binds[t := BindTx(user, uid, true, |w.fleet.log|)], locks := w.locks[uid := t])
  }

  function Step(w: World, a: Act): World {
    match a
    case Whole(op) => if Waits(w, op) then w else w.(fleet := DeviceModel.Step(w.fleet, op))
    case FindBind(t, user, uid) => Find(w, t, user, uid)
    case WriteBind(t) =>
      if BindReady(w, t) then EndBind(w, t).(fleet := Upsert(w.fleet, w.binds[t].user, w.binds[t].uid)) else w
    case FindSwap(t, uid, refresh) =>
      if t in w.swaps || uid == "" || refresh == "" || !Refreshes(w.fleet, uid, refresh) ||
         w.fleet.now > w.fleet.devices[uid].refresh.value.expiresAt
      then w
      else w.(swaps := w.swaps[t := SwapTx(uid, refresh, w.fleet.devices[uid].owner, |w.fleet.log|)])
    case WriteSwap(t, access) =>
      if SwapReady(w, t, access)
      then EndSwap(w, t).(fleet := WriteAccess(w.fleet, w.swaps[t].uid, w.swaps[t].owner, w.swaps[t].refresh, access))
      else w
    case Abort(t) => EndSwap(EndBind(w, t), t)
  }

  function Exec(w: World, acts: seq<Act>): World {
    if acts == [] then w else Step(Exec(w, acts[..|acts| - 1]), acts[|acts| - 1])
  }

  ghost predicate Initial(w: World) {
    DeviceSafety.Initial(w.fleet) && w.locks == map[] && w.binds == map[] && w.swaps == map[]
  }

  // ----- good steps and timely writes -----

  // A device changes hands only when it is revoked.
  ghost predicate OwnersKept(f: Fleet, g: Fleet) {
    forall uid :: uid in f.devices && !f.devices[uid].state.Revoked? ==>
                    uid in g.devices && g.devices[uid].owner == f.devices[uid].owner
  }

  // The step ends with every credential backed and unshared, and takes no device from its owner.
  ghost predicate Good(w: World, a: Act) { FleetOk(Step(w, a).fleet) && OwnersKept(w.fleet, Step(w, a).fleet) }

  ghost predicate AllGood(w: World, acts: seq<Act>) {
    acts == [] || (AllGood(w, acts[..|acts| - 1]) && Good(Exec(w, acts[..|acts| - 1]), acts[|acts| - 1]))
  }

  // The write still finds what the select before it allowed: nobody else has the device; it is not revoked and has the
  // owner it had.
  predicate Timely(w: World, a: Act) {
    match a
    case WriteBind(t) => BindReady(w, t) ==> !HeldByOther(w.fleet, w.binds[t].user, w.binds[t].uid)
    case WriteSwap(t, access) =>
      SwapReady(w, t, access) ==>
        var d := w.fleet.devices[w.swaps[t].uid]; !d.state.Revoked? && d.owner == w.swaps[t].owner
    case _ => true
  }

  ghost predicate AllTimely(w: World, acts: seq<Act>) {
    acts == [] || (AllTimely(w, acts[..|acts| - 1]) && Timely(Exec(w, acts[..|acts| - 1]), acts[|acts| - 1]))
  }

  // ----- a timely step is good -----

  lemma WholeGood(f: Fleet, op: Op)
    requires FleetOk(f) && !op.BindOp?
    ensures OwnersKept(f, DeviceModel.Step(f, op)) && FleetOk(DeviceModel.Step(f, op))
  {
    StepOk(f, op);
    var g := DeviceModel.Step(f, op);
    forall uid | uid in f.devices && !f.devices[uid].state.Revoked?
      ensures uid in g.devices && g.devices[uid].owner == f.devices[uid].owner
    {
      StepKeepsOwner(f, op, uid);
    }
  }

  lemma TimelyIsGood(w: World, a: Act)
    requires FleetOk(w.fleet) && Timely(w, a)
    ensures Good(w, a)
  {
    match a
    case Whole(op) => if !Waits(w, op) { WholeGood(w.fleet, op); }
    case FindBind(t, user, uid) =>
    case WriteBind(t) => if BindReady(w, t) { UpsertOk(w.fleet, w.binds[t].user, w.binds[t].uid); }
    case FindSwap(t, uid, refresh) =>
    case WriteSwap(t, access) =>
      if SwapReady(w, t, access) { WriteAccessOk(w.fleet, w.swaps[t].uid, w.swaps[t].refresh, access); }
    case Abort(t) =>
  }

  // ----- an untimely step is not -----

  // A fresh token written for a user who is not the owner is not backed.
  lemma UnbackedAccess(f: Fleet, uid: Uid, owner: UserId, refresh: Token, access: Token)
    requires uid in f.devices && !Used(f.log, access) && owner != f.devices[uid].owner
    ensures !AccessBacked(WriteAccess(f, uid, owner, refresh, access).log, uid,
                          WriteAccess(f, uid, owner, refresh, access).devices[uid])
  {
    var g := WriteAccess(f, uid, owner, refresh, access);
    var d := g.devices[uid];
    forall i: nat | i < |f.log| ensures !Mentions(g.log[i], access) { assert g.log[i] == f.log[i]; }
    forall i: nat ensures !GaveAccess(g.log, i, uid, d.owner, d.access.value) {}
  }

  lemma UntimelyIsBad(w: World, a: Act)
    requires !Timely(w, a)
    ensures !Good(w, a)
  {
    if a.WriteSwap? {
      var x := w.swaps[a.tx];
      var g := Step(w, a).fleet;
      if w.fleet.devices[x.uid].state.Revoked? {
        assert !DeviceOk(g.log, x.uid, g.devices[x.uid]);
      } else {
        UnbackedAccess(w.fleet, x.uid, x.owner, x.refresh, a.access);
        assert !DeviceOk(g.log, x.uid, g.devices[x.uid]);
      }
    }
  }

  // For every run: no step takes a device from its owner or leaves a credential unbacked
  // if and only if no write in it comes too late.
  lemma {:induction false} GoodIffTimely(w: World, acts: seq<Act>)
    requires FleetOk(w.fleet)
    ensures AllGood(w, acts) <==> AllTimely(w, acts)
    ensures AllTimely(w, acts) ==> FleetOk(Exec(w, acts).fleet)
  {
    if acts != [] {
      var front, last := acts[..|acts| - 1], acts[|acts| - 1];
      GoodIffTimely(w, front);
      if AllTimely(w, front) {
        if Timely(Exec(w, front), last) {
          TimelyIsGood(Exec(w, front), last);
        } else {
          UntimelyIsBad(Exec(w, front), last);
        }
      }
    }
  }

  // So in every timely run an access token that is accepted was handed out to the present owner, in the last five hours
  // and after the latest revocation, and one device accepts it ...
  lemma AcceptedAccessOverlapping(w: World, acts: seq<Act>, uid: Uid, access: Token) returns (i: nat)
    requires Initial(w) && AllTimely(w, acts) && Presents(Exec(w, acts).fleet, uid, access)
    ensures AccessFrom(Exec(w, acts).fleet, i, uid, access)
    ensures forall v :: Presents(Exec(w, acts).fleet, v, access) ==> v == uid
  {
    GoodIffTimely(w, acts);
    i := AccessOrigin(Exec(w, acts).fleet, uid, access);
  }

  // ... a refresh token that a select of an exchange accepts was issued to the present owner after that revocation ...
  lemma AcceptedRefreshOverlapping(w: World, acts: seq<Act>, uid: Uid, refresh: Token, access: Token) returns (i: nat)
    requires Initial(w) && AllTimely(w, acts) && ExchangeRefresh(Exec(w, acts).fleet, uid, refresh, access).1.Success?
    ensures RefreshFrom(Exec(w, acts).fleet, i, uid, refresh)
  {
    GoodIffTimely(w, acts);
    i := RefreshOrigin(Exec(w, acts).fleet, uid, refresh, access);
  }

  // ... and whoever owned a device at one moment owns it at the end, unless it was revoked in between.
  lemma {:induction false} OwnerChangesThroughRevokedOverlapping(w: World, acts: seq<Act>, i: nat, uid: Uid)
    requires FleetOk(w.fleet) && AllTimely(w, acts) && i <= |acts| && uid in Exec(w, acts[..i]).fleet.devices
    requires forall k :: i <= k < |acts| && uid in Exec(w, acts[..k]).fleet.devices ==>
                           !Exec(w, acts[..k]).fleet.devices[uid].state.Revoked?
    ensures var f, g := Exec(w, acts[..i]).fleet, Exec(w, acts).fleet;
            uid in g.devices && g.devices[uid].owner == f.devices[uid].owner
  {
    if i == |acts| {
      assert acts[..i] == acts;
    } else {
      var front, last := acts[..|acts| - 1], acts[|acts| - 1];
      assert front[..i] == acts[..i];
      forall k | i <= k < |front| && uid in Exec(w, front[..k]).fleet.devices
        ensures !Exec(w, front[..k]).fleet.devices[uid].state.Revoked?
      {
        assert front[..k] == acts[..k];
      }
      OwnerChangesThroughRevokedOverlapping(w, front, i, uid);
      GoodIffTimely(w, front);
      TimelyIsGood(Exec(w, front), last);
    }
  }

  // ----- a token once given up stays dead in every run, late writes or not -----

  lemma UsedStays(f: Fleet, g: Fleet, token: Token)
    requires Used(f.log, token) && f.log <= g.log
    ensures Used(g.log, token)
  {
    var i :| 0 <= i < |f.log| && Mentions(f.log[i], token);
    assert g.log[i] == f.log[i];
  }

  lemma StepKeepsRetiredOverlapping(w: World, a: Act, token: Token)
    requires Retired(w.fleet, token)
    ensures Retired(Step(w, a).fleet, token)
  {
    var f, g := w.fleet, Step(w, a).fleet;
    if a.Whole? {
      StepKeepsRetired(f, a.op, token);
    } else {
      UsedStays(f, g, token);
      forall u | u in g.devices ensures !g.devices[u].Holds(token) {
        assert u in f.devices ==> !f.devices[u].Holds(token);
      }
    }
  }

  lemma {:induction false} RetiredForeverOverlapping(w: World, acts: seq<Act>, token: Token)
    requires Retired(w.fleet, token)
    ensures Retired(Exec(w, acts).fleet, token)
  {
    if acts != [] {
      RetiredForeverOverlapping(w, acts[..|acts| - 1], token);
      StepKeepsRetiredOverlapping(Exec(w, acts[..|acts| - 1]), acts[|acts| - 1], token);
    }
  }

  // After a revocation the tokens that the device held are accepted by no select and no presence report of any run.
  lemma RevokedTokensStayDeadOverlapping(w: World, user: UserId, uid: Uid, acts: seq<Act>, token: Token, v: Uid,
                                         access: Token)
    requires FleetOk(w.fleet) && uid in w.fleet.devices && w.fleet.devices[uid].Holds(token)
    requires uid !in w.locks && RevokeDevice(w.fleet, user, uid).1
    ensures var g := Exec(Step(w, Whole(RevokeOp(user, uid))), acts).fleet;
            !Presents(g, v, token) && ExchangeRefresh(g, v, token, access).1.Failure?
  {
    var r := Step(w, Whole(RevokeOp(user, uid)));
    HeldIsUsed(w.fleet.log, uid, w.fleet.devices[uid], token);
    UsedStays(w.fleet, r.fleet, token);
    assert Retired(r.fleet, token);
    RetiredForeverOverlapping(r, acts, token);
  }

  // ----- what makes a write late -----

  // Another user's bind of this device was written since the mark.
  ghost predicate BoundSince(log: seq<News>, mark: nat, uid: Uid, owner: UserId) {
    exists j :: mark <= j < |log| && log[j] == Bound(uid, owner)
  }

  ghost predicate ClearedSince(log: seq<News>, mark: nat, uid: Uid) {
    exists j :: mark <= j < |log| && log[j] == Cleared(uid)
  }

  ghost predicate BindTxOk(w: World, t: TxId, x: BindTx) {
    x.mark <= |w.fleet.log| &&
    if x.found then x.uid in w.locks && w.locks[x.uid] == t && !HeldByOther(w.fleet, x.user, x.uid)
    else x.uid in w.fleet.devices ==> BoundSince(w.fleet.log, x.mark, x.uid, w.fleet.devices[x.uid].owner)
  }

  ghost predicate SwapTxOk(f: Fleet, x: SwapTx) {
    x.mark <= |f.log| && x.uid in f.devices &&
    ((!f.devices[x.uid].state.Revoked? && f.devices[x.uid].owner == x.owner) || ClearedSince(f.log, x.mark, x.uid))
  }

  ghost predicate TxsOk(w: World) {
    && (forall t :: t in w.binds ==> BindTxOk(w, t, w.binds[t]))
    && (forall t :: t in w.swaps ==> SwapTxOk(w.fleet, w.swaps[t]))
  }

  // The history grows, an owner comes with the entry of a bind, a revocation with one that clears.
  ghost predicate Follows(f: Fleet, g: Fleet) {
    && f.log <= g.log
    && (forall uid :: uid in f.devices ==> uid in g.devices)
    && (forall uid :: uid in g.devices && (uid in f.devices ==> g.devices[uid].owner != f.devices[uid].owner) ==>
          BoundSince(g.log, |f.log|, uid, g.devices[uid].owner))
    && (forall uid :: uid in f.devices && !f.devices[uid].state.Revoked? ==>
          (!g.devices[uid].state.Revoked? && g.devices[uid].owner == f.devices[uid].owner) ||
          ClearedSince(g.log, |f.log|, uid))
  }

  lemma BindTxFollows(w: World, v: World, t: TxId, x: BindTx)
    requires BindTxOk(w, t, x) && Follows(w.fleet, v.fleet)
    requires x.found ==> x.uid in v.locks && v.locks[x.uid] == t && !HeldByOther(v.fleet, x.user, x.uid)
    ensures BindTxOk(v, t, x)
  {
    if !x.found && x.uid in v.fleet.devices {
      var owner := v.fleet.devices[x.uid].owner;
      if x.uid in w.fleet.devices && owner == w.fleet.devices[x.uid].owner {
        var j :| x.mark <= j < |w.fleet.log| && w.fleet.log[j] == Bound(x.uid, owner);
        assert v.fleet.log[j] == Bound(x.uid, owner);
      } else {
        var j :| |w.fleet.log| <= j < |v.fleet.log| && v.fleet.log[j] == Bound(x.uid, owner);
        assert x.mark <= j;
      }
    }
  }

  lemma SwapTxFollows(f: Fleet, g: Fleet, x: SwapTx)
    requires SwapTxOk(f, x) && Follows(f, g)
    ensures SwapTxOk(g, x)
  {
    if ClearedSince(f.log, x.mark, x.uid) {
      var j :| x.mark <= j < |f.log| && f.log[j] == Cleared(x.uid);
      assert g.log[j] == Cleared(x.uid);
    } else if !(!g.devices[x.uid].state.Revoked? && g.devices[x.uid].owner == x.owner) {
      var j :| |f.log| <= j < |g.log| && g.log[j] == Cleared(x.uid);
      assert x.mark <= j;
    }
  }

  lemma WholeFollows(f: Fleet, op: Op)
    requires op.TickOp? || op.IssueOp? || op.PresenceOp? || op.RevokeOp?
    ensures Follows(f, DeviceModel.Step(f, op))
  {
    var g := DeviceModel.Step(f, op);
    if op.RevokeOp? && g != f { assert g.log[|f.log|] == Cleared(op.uid); }
  }

  lemma UpsertFollows(f: Fleet, user: UserId, uid: Uid)
    requires !HeldByOther(f, user, uid)
    ensures Follows(f, Upsert(f, user, uid))
  {
    assert Upsert(f, user, uid).log[|f.log|] == Bound(uid, user);
  }

  lemma WriteAccessFollows(f: Fleet, uid: Uid, owner: UserId, refresh: Token, access: Token)
    requires uid in f.devices
    ensures Follows(f, WriteAccess(f, uid, owner, refresh, access))
  {}

  // A locked row changes only by the bind that holds the lock.
  lemma LockedStays(w: World, op: Op, uid: Uid)
    requires uid in w.locks && !Waits(w, op)
    ensures var g := DeviceModel.Step(w.fleet, op);
            && (uid in g.devices <==> uid in w.fleet.devices)
            && (uid in g.devices ==> g.devices[uid] == w.fleet.devices[uid])
  {}

  lemma WholeTxs(w: World, op: Op)
    requires TxsOk(w) && !Waits(w, op)
    ensures TxsOk(Step(w, Whole(op)))
  {
    var v := Step(w, Whole(op));
    WholeFollows(w.fleet, op);
    forall t | t in v.binds ensures BindTxOk(v, t, v.binds[t]) {
      if v.binds[t].found { LockedStays(w, op, v.binds[t].uid); }
      BindTxFollows(w, v, t, v.binds[t]);
    }
    forall t | t in v.swaps ensures SwapTxOk(v.fleet, v.swaps[t]) { SwapTxFollows(w.fleet, v.fleet, v.swaps[t]); }
  }

  lemma WriteBindTxs(w: World, t: TxId)
    requires TxsOk(w) && BindReady(w, t) && Timely(w, WriteBind(t))
    ensures TxsOk(Step(w, WriteBind(t)))
  {
    var v, x := Step(w, WriteBind(t)), w.binds[t];
    UpsertFollows(w.fleet, x.user, x.uid);
    forall u | u in v.binds ensures BindTxOk(v, u, v.binds[u]) {
      assert BindTxOk(w, u, w.binds[u]);
      BindTxFollows(w, v, u, v.binds[u]);
    }
    forall u | u in v.swaps ensures SwapTxOk(v.fleet, v.swaps[u]) { SwapTxFollows(w.fleet, v.fleet, v.swaps[u]); }
  }

  lemma WriteSwapTxs(w: World, t: TxId, access: Token)
    requires TxsOk(w) && SwapReady(w, t, access)
    ensures TxsOk(Step(w, WriteSwap(t, access)))
  {
    var v, x := Step(w, WriteSwap(t, access)), w.swaps[t];
    WriteAccessFollows(w.fleet, x.uid, x.owner, x.refresh, access);
    forall u | u in v.binds ensures BindTxOk(v, u, v.binds[u]) {
      assert BindTxOk(w, u, w.binds[u]);
      BindTxFollows(w, v, u, v.binds[u]);
    }
    forall u | u in v.swaps ensures SwapTxOk(v.fleet, v.swaps[u]) { SwapTxFollows(w.fleet, v.fleet, v.swaps[u]); }
  }

  lemma EndTxs(w: World, t: TxId)
    requires TxsOk(w)
    ensures TxsOk(EndBind(w, t)) && TxsOk(EndSwap(w, t))
  {
    var b, s := EndBind(w, t), EndSwap(w, t);
    forall u | u in b.binds ensures BindTxOk(b, u, w.binds[u]) { assert BindTxOk(w, u, w.binds[u]); }
    forall u | u in s.binds ensures BindTxOk(s, u, w.binds[u]) { assert BindTxOk(w, u, w.binds[u]); }
  }

  lemma FindTxs(w: World, a: Act)
    requires TxsOk(w) && (a.FindBind? || a.FindSwap?)
    ensures TxsOk(Step(w, a))
  {
    var v := Step(w, a);
    forall u | u in v.binds && u in w.binds ensures BindTxOk(v, u, w.binds[u]) { assert BindTxOk(w, u, w.binds[u]); }
  }

  lemma {:induction false} ExecTxs(w: World, acts: seq<Act>)
    requires Initial(w) && AllTimely(w, acts)
    ensures TxsOk(Exec(w, acts))
  {
    if acts != [] {
      var v, last := Exec(w, acts[..|acts| - 1]), acts[|acts| - 1];
      ExecTxs(w, acts[..|acts| - 1]);
      match last
      case Whole(op) => if !Waits(v, op) { WholeTxs(v, op); }
      case FindBind(t, user, uid) => FindTxs(v, last);
      case WriteBind(t) => if BindReady(v, t) { WriteBindTxs(v, t); }
      case FindSwap(t, uid, refresh) => FindTxs(v, last);
      case WriteSwap(t, access) => if SwapReady(v, t, access) { WriteSwapTxs(v, t, access); }
      case Abort(t) =>
        EndTxs(v, t);
        EndTxs(EndBind(v, t), t);
    }
  }

  // The first late write of a run is a bind that found no row, after another user's bind of the device was written,
  // or an exchange after a revocation of its device, in either case since its own select.
  lemma LateWriteWasOvertaken(w: World, acts: seq<Act>, a: Act)
    requires Initial(w) && AllTimely(w, acts) && !Timely(Exec(w, acts), a)
    ensures var v := Exec(w, acts);
            match a
            case WriteBind(t) =>
              t in v.binds && !v.binds[t].found &&
              exists owner | owner != v.binds[t].user ::
                BoundSince(v.fleet.log, v.binds[t].mark, v.binds[t].uid, owner)
            case WriteSwap(t, _) => t in v.swaps && ClearedSince(v.fleet.log, v.swaps[t].mark, v.swaps[t].uid)
            case _ => false
  {
    ExecTxs(w, acts);
    var v := Exec(w, acts);
    if a.WriteBind? {
      assert BindTxOk(v, a.tx, v.binds[a.tx]);
    } else if a.WriteSwap? {
      assert SwapTxOk(v.fleet, v.swaps[a.tx]);
    }
  }

  // ----- two runs in which a write comes too late -----

  lemma ExecMore(w: World, acts: seq<Act>, a: Act)
    ensures Exec(w, acts + [a]) == Step(Exec(w, acts), a)
  {
    assert (acts + [a])[..|acts|] == acts;
  }

  function FirstBinds(u: UserId, v: UserId, uid: Uid, refresh: Token, access: Token): seq<Act> {
    [FindBind(1, u, uid)] + [FindBind(2, v, uid)] + [WriteBind(1)] + [Whole(IssueOp(u, uid, refresh, access))] +
    [WriteBind(2)]
  }

  // Two users bind a new device at once: the second takes it, with the first one's tokens on it.
  lemma FirstBindsOverlap(w: World, u: UserId, v: UserId, uid: Uid, refresh: Token, access: Token)
    requires Initial(w) && u != v && uid != "" && refresh != access
    ensures var f := Exec(w, FirstBinds(u, v, uid, refresh, access)).fleet;
            && uid in f.devices && f.devices[uid].owner == v && Presents(f, uid, access)
            && forall i: nat :: !AccessFrom(f, i, uid, access)
  {
    var a, b := [FindBind(1, u, uid)], [FindBind(1, u, uid)] + [FindBind(2, v, uid)];
    ExecMore(w, [], FindBind(1, u, uid));
    assert [] + a == a;
    ExecMore(w, a, FindBind(2, v, uid));
    var w2 := Exec(w, b);
    ExecMore(w, b, WriteBind(1));
    var w3 := Exec(w, b + [WriteBind(1)]);
    assert w3.fleet.devices[uid] == Device(u, Active, None, None, w.fleet.now) && w3.fleet.log == [Bound(uid, u)];
    ExecMore(w, b + [WriteBind(1)], Whole(IssueOp(u, uid, refresh, access)));
    var w4 := Step(w3, Whole(IssueOp(u, uid, refresh, access)));
    assert w4.fleet.log == [Bound(uid, u), Issued(uid, u, refresh, access, w.fleet.now)];
    ExecMore(w, b + [WriteBind(1)] + [Whole(IssueOp(u, uid, refresh, access))], WriteBind(2));
  }

  function BindAndIssue(u: UserId, uid: Uid, refresh: Token, access: Token): seq<Act> {
    [FindBind(1, u, uid)] + [WriteBind(1)] + [Whole(IssueOp(u, uid, refresh, access))]
  }

  lemma BoundAndIssued(w: World, u: UserId, uid: Uid, refresh: Token, access: Token)
    requires Initial(w) && uid != "" && refresh != access
    ensures var v, now := Exec(w, BindAndIssue(u, uid, refresh, access)), w.fleet.now;
            && v.locks == map[] && v.binds == map[] && v.swaps == map[] && v.fleet.now == now
            && v.fleet.devices == map[uid := Device(u, Active, Some(Credential(HashOf(refresh), now + REFRESH_TTL)),
                                                    Some(Credential(HashOf(access), now + ACCESS_TTL)), now)]
            && v.fleet.log == [Bound(uid, u), Issued(uid, u, refresh, access, now)]
  {
    var a := [FindBind(1, u, uid)];
    ExecMore(w, [], FindBind(1, u, uid));
    assert [] + a == a;
    ExecMore(w, a, WriteBind(1));
    var w2 := Exec(w, a + [WriteBind(1)]);
    assert w2.fleet.devices[uid] == Device(u, Active, None, None, w.fleet.now) && w2.fleet.log == [Bound(uid, u)];
    ExecMore(w, a + [WriteBind(1)], Whole(IssueOp(u, uid, refresh, access)));
  }

  function SwapAndRevoke(u: UserId, uid: Uid, refresh: Token, access: Token, late: Token): seq<Act> {
    BindAndIssue(u, uid, refresh, access) + [FindSwap(2, uid, refresh)] + [Whole(RevokeOp(u, uid))] +
    [WriteSwap(2, late)]
  }

  // A device is revoked in the middle of an exchange: it ends up revoked and holds a token.
  lemma SwapOverlapsRevoke(w: World, u: UserId, uid: Uid, refresh: Token, access: Token, late: Token)
    requires Initial(w) && uid != "" && refresh != "" && refresh != access && late !in {refresh, access}
    ensures var f := Exec(w, SwapAndRevoke(u, uid, refresh, access, late)).fleet;
            uid in f.devices && f.devices[uid].state.Revoked? && f.devices[uid].Holds(late)
  {
    var b := BindAndIssue(u, uid, refresh, access);
    BoundAndIssued(w, u, uid, refresh, access);
    ExecMore(w, b, FindSwap(2, uid, refresh));
    var w4 := Exec(w, b + [FindSwap(2, uid, refresh)]);
    assert 2 in w4.swaps;
    ExecMore(w, b + [FindSwap(2, uid, refresh)], Whole(RevokeOp(u, uid)));
    var w5 := Step(w4, Whole(RevokeOp(u, uid)));
    assert w5.fleet.log == w4.fleet.log + [Cleared(uid)];
    ExecMore(w, b + [FindSwap(2, uid, refresh)] + [Whole(RevokeOp(u, uid))], WriteSwap(2, late));
  }
}

/**
 Exactly when the operations on devices go through, what they write, and how long a credential lives.
 */
module DeviceEffects {
  import opened Basics
  import opened DeviceModel
  import opened DeviceSafety
  import DeviceOverlap

  // A bind goes through unless another user holds the device; it makes the device active and the user's, and keeps
  // what credentials it has.
  lemma BindEffect(f: Fleet, user: UserId, uid: Uid)
    requires uid != ""
    ensures var (g, refusal) := BindDevice(f, user, uid);
            && (refusal == None <==>
                  (uid in f.devices ==> f.devices[uid].owner == user || f.devices[uid].state == Revoked))
            && (refusal != None ==> refusal == Some(Conflict) && g == f)
            && (refusal == None ==>
                  && uid in g.devices && g.devices == f.devices[uid := g.devices[uid]] && g.now == f.now
                  && g.devices[uid].owner == user && g.devices[uid].state == Active && g.devices[uid].lastSeen == f.now
                  && g.devices[uid].access == (if uid in f.devices then f.devices[uid].access else None)
                  && g.devices[uid].refresh == (if uid in f.devices then f.devices[uid].refresh else None))
  {}

  // An issue goes through exactly for the owner of an active device; the access token lasts five hours, the refresh
  // token a hundred years.
  lemma IssueEffect(f: Fleet, user: UserId, uid: Uid, refresh: Token, access: Token)
    ensures var (g, r) := IssueDeviceTokens(f, user, uid, refresh, access);
            && (r.Success? <==> uid in f.devices && f.devices[uid].owner == user && f.devices[uid].state == Active)
            && (r.Failure? ==> g == f)
            && (r.Success? ==>
                  && r.value == Bundle(f.now + 36500 * DAY, access, f.now + 5 * HOUR) && g.now == f.now
                  && g.devices == f.devices[uid := f.devices[uid].(
                                             refresh := Some(Credential(HashOf(refresh), f.now + 36500 * DAY)),
                                             access := Some(Credential(HashOf(access), f.now + 5 * HOUR)))])
  {}

  // An exchange goes through exactly for the refresh token that an active device holds, until that expires.
  lemma ExchangeEffect(f: Fleet, uid: Uid, refresh: Token, access: Token)
    requires uid != "" && refresh != ""
    ensures var (g, r) := ExchangeRefresh(f, uid, refresh, access);
            && (r.Success? <==>
                  && uid in f.devices && f.devices[uid].state == Active
                  && exists end :: f.devices[uid].refresh == Some(Credential(HashOf(refresh), end)) && f.now <= end)
            && (r.Failure? ==> g == f)
            && (r.Success? ==>
                  var token := Credential(HashOf(access), f.now + 5 * HOUR);
                  g.now == f.now && g.devices == f.devices[uid := f.devices[uid].(access := Some(token))])
  {
    if uid in f.devices && f.devices[uid].refresh.Some? && f.devices[uid].refresh.value.hash == HashOf(refresh) {
      assert f.devices[uid].refresh == Some(Credential(HashOf(refresh), f.devices[uid].refresh.value.expiresAt));
    }
  }

  lemma RevokeEffect(f: Fleet, user: UserId, uid: Uid)
    ensures var (g, found) := RevokeDevice(f, user, uid);
            && (found <==> uid in f.devices && f.devices[uid].owner == user && f.devices[uid].state != Revoked)
            && (!found ==> g == f)
            && (found ==>
                  && g.now == f.now
                  && g.devices == f.devices[uid := Device(user, Revoked, None, None, f.devices[uid].lastSeen)])
  {}

  // A presence report touches nothing but the time at which the devices that accept the token were last seen.
  lemma PresenceEffect(f: Fleet, access: Token)
    ensures var g := Presence(f, access);
            && g == f.(devices := g.devices) && g.devices.Keys == f.devices.Keys
            && forall u :: u in f.devices ==>
                 var d := f.devices[u];
                 g.devices[u] == if d.state == Active && d.access.Some? && d.access.value.hash == HashOf(access) &&
                                    f.now < d.access.value.expiresAt
                                 then d.(lastSeen := f.now) else d
  {}

  // ----- how long a token is accepted -----

  // The step writes the device's access token or revokes it.
  predicate Replaces(op: Op, uid: Uid) {
    (op.IssueOp? && op.uid == uid) || (op.ExchangeOp? && op.uid == uid) || (op.RevokeOp? && op.uid == uid)
  }

  ghost predicate HoldsAccess(f: Fleet, uid: Uid, access: Token, end: Time) {
    uid in f.devices && f.devices[uid].state == Active && f.devices[uid].access == Some(Credential(HashOf(access), end))
  }

  lemma {:induction false} AccessStays(f: Fleet, ops: seq<Op>, uid: Uid, access: Token, end: Time)
    requires HoldsAccess(f, uid, access, end) && forall i :: 0 <= i < |ops| ==> !Replaces(ops[i], uid)
    ensures HoldsAccess(Exec(f, ops), uid, access, end)
  {
    if ops != [] {
      var front, last := ops[..|ops| - 1], ops[|ops| - 1];
      AccessStays(f, front, uid, access, end);
      assert !Replaces(last, uid);
    }
  }

  // A token that was issued is accepted for five hours, over every run that neither replaces it nor revokes the device.
  lemma IssuedAccessLives(f: Fleet, user: UserId, uid: Uid, refresh: Token, access: Token, ops: seq<Op>)
    requires uid in f.devices && f.devices[uid].owner == user && f.devices[uid].state == Active
    requires forall i :: 0 <= i < |ops| ==> !Replaces(ops[i], uid)
    ensures var g := Exec(IssueDeviceTokens(f, user, uid, refresh, access).0, ops);
            Presents(g, uid, access) <==> g.now < f.now + 5 * HOUR
  {
    AccessStays(IssueDeviceTokens(f, user, uid, refresh, access).0, ops, uid, access, f.now + 5 * HOUR);
  }

  // ----- statements in a row -----

  // A bind and an exchange whose two statements nothing comes between are the whole operations.
  lemma BindAlone(w: DeviceOverlap.World, t: DeviceOverlap.TxId, user: UserId, uid: Uid)
    requires t !in w.binds && uid !in w.locks && forall u :: u in w.locks ==> w.locks[u] != t
    ensures var v := DeviceOverlap.Step(DeviceOverlap.Step(w, DeviceOverlap.FindBind(t, user, uid)),
                                        DeviceOverlap.WriteBind(t));
            v.fleet == BindDevice(w.fleet, user, uid).0 && t !in v.binds
  {}

  lemma ExchangeAlone(w: DeviceOverlap.World, t: DeviceOverlap.TxId, uid: Uid, refresh: Token, access: Token)
    requires t !in w.swaps && uid !in w.locks && !Used(w.fleet.log, access)
    ensures var v := DeviceOverlap.Step(DeviceOverlap.Step(w, DeviceOverlap.FindSwap(t, uid, refresh)),
                                        DeviceOverlap.WriteSwap(t, access));
            v.fleet == ExchangeRefresh(w.fleet, uid, refresh, access).0 && t !in v.swaps
  {}
}

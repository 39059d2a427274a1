/**
 The devices table as an object, updated in place by the statements of the repository.
 */
module DeviceStore {
  import opened Basics
  import opened DeviceModel
  import opened DeviceSafety

  class Devices {
    var now: Time
    var devices: map<Uid, Device>
    ghost var log: seq<News>

    ghost function Contents(): Fleet
      reads this
    {
      Fleet(now, devices, log)
    }

    ghost predicate Valid()
      reads this
    {
      FleetOk(Contents())
    }

    constructor ()
      ensures Valid() && Initial(Contents())
    {
      now, devices, log := 0, map[], [];
    }

    // A device of another user that is not revoked is a conflict; otherwise the row is inserted or taken over.
    method BindDevice(user: UserId, uid: Uid) returns (refusal: Option<Refusal>)
      requires Valid()
      modifies this`devices, this`log
      ensures Valid()
      ensures (Contents(), refusal) == DeviceModel.BindDevice(old(Contents()), user, uid)
    {
      BindOk(Contents(), user, uid);
      if uid == "" {
        return Some(UidRequired);
      }
      if uid in devices && devices[uid].owner != user && devices[uid].state != Revoked {
        return Some(Conflict);
      }
      if uid in devices {
        devices := devices[uid := devices[uid].(owner := user, state := Active, lastSeen := now)];
      } else {
        devices := devices[uid := Device(user, Active, None, None, now)];
      }
      log := log + [Bound(uid, user)];
      return None;
    }

    method IssueDeviceTokens(user: UserId, uid: Uid, refresh: Token, access: Token) returns (r: Result<Bundle, Refusal>)
      requires Valid() && !Used(log, refresh) && !Used(log, access) && refresh != access
      modifies this
      ensures Valid()
      ensures (Contents(), r) == DeviceModel.IssueDeviceTokens(old(Contents()), user, uid, refresh, access)
    {
      IssueOk(Contents(), user, uid, refresh, access);
      var bundle := Bundle(now + 100 * 365 * 24 * HOUR, access, now + 5 * HOUR);
      if uid !in devices || devices[uid].owner != user || devices[uid].state != Active {
        return Failure(NotFound);
      }
      var first := Credential(HashOf(refresh), bundle.refreshExpiresAt);
      var second := Credential(HashOf(access), bundle.accessExpiresAt);
      devices := devices[uid := devices[uid].(refresh := Some(first), access := Some(second))];
      log := log + [Issued(uid, user, refresh, access, now)];
      return Success(bundle);
    }

    method ExchangeRefresh(uid: Uid, refresh: Token, access: Token) returns (r: Result<Bundle, Refusal>)
      requires Valid() && !Used(log, access)
      modifies this
      ensures Valid()
      ensures (Contents(), r) == DeviceModel.ExchangeRefresh(old(Contents()), uid, refresh, access)
    {
      ExchangeOk(Contents(), uid, refresh, access);
      if uid == "" || refresh == "" {
        return Failure(UidRequired);
      }
      if uid !in devices || devices[uid].state != Active || devices[uid].refresh.None? ||
         devices[uid].refresh.value.hash != HashOf(refresh) {
        return Failure(InvalidRefresh);
      }
      var expires := devices[uid].refresh.value.expiresAt;
      if now > expires {
        return Failure(RefreshExpired);
      }
      var renewed := Credential(HashOf(access), now + 5 * HOUR);
      devices := devices[uid := devices[uid].(access := Some(renewed))];
      log := log + [Exchanged(uid, devices[uid].owner, refresh, access, now)];
      return Success(Bundle(expires, access, now + 5 * HOUR));
    }

    // At most one row matches, so the statement reports and updates the same device.
    method PresenceByAccess(access: Token) returns (found: Option<Uid>)
      requires Valid()
      modifies this`devices
      ensures Valid()
      ensures Contents() == Presence(old(Contents()), access)
      ensures forall u :: found == Some(u) <==> Presents(old(Contents()), u, access)
      ensures forall u | u in devices ::
                devices[u] == if found == Some(u) then old(devices)[u].(lastSeen := now) else old(devices)[u]
    {
      PresenceOk(Contents(), access);
      found := None;
      if u :| u in devices && Presents(Fleet(now, devices, []), u, access) {
        found := Some(u);
        assert devices[u].Holds(access);
        assert forall v :: v in devices && v != u ==> !devices[v].Holds(access);
        devices := devices[u := devices[u].(lastSeen := now)];
      }
      assert devices == Presence(old(Contents()), access).devices;
    }

    method RevokeDevice(user: UserId, uid: Uid) returns (found: bool)
      requires Valid()
      modifies this
      ensures Valid()
      ensures (Contents(), found) == DeviceModel.RevokeDevice(old(Contents()), user, uid)
    {
      RevokeOk(Contents(), user, uid);
      if uid !in devices || devices[uid].owner != user || devices[uid].state == Revoked {
        return false;
      }
      devices := devices[uid := devices[uid].(state := Revoked, refresh := None, access := None)];
      log := log + [Cleared(uid)];
      return true;
    }
  }
}

/**
 The audit log replays to the share table: reading the log alone gives every share's owner, grantee,
 version and status, up to expiry, which is not logged.
 */
module AccessAudit {
  import opened Basics
  import opened AccessModel
  import opened AccessRuns

  datatype Trace = Unborn | Born(owner: UserId, grantee: UserId, status: ShareStatus, version: int)

  // One log row, read as news about share s.
  function Read(t: Trace, row: AuditRow, s: ShareId): Trace {
    match row
    case ShareCreated(_, id, owner, grantee) => if id == s then Born(owner, grantee, Pending, 1) else t
    case ShareMoved(_, id, action) =>
      if id != s || t.Unborn? then t
      else (match action
            case Accept => t.(status := Active)
            case Decline => t.(status := Declined)
            case Revoke => t.(status := Revoked)
            case Update(_, _, _) => t.(version := t.version + 1))
    case UserUpdated(_, target, status, _) =>
      if t.Born? && !status.Enabled? && (t.owner == target || t.grantee == target) && t.status.Open()
      then t.(status := Revoked) else t
  }

  function Replay(log: seq<AuditRow>, s: ShareId): Trace {
    if log == [] then Unborn else Read(Replay(log[..|log| - 1], s), log[|log| - 1], s)
  }

  datatype Kind = Accepts | Declines | Revokes | Updates

  predicate IsMove(row: AuditRow, s: ShareId, kind: Kind) {
    row.ShareMoved? && row.share == s &&
    match kind
    case Accepts => row.action.Accept?
    case Declines => row.action.Decline?
    case Revokes => row.action.Revoke?
    case Updates => row.action.Update?
  }

  function Count(log: seq<AuditRow>, s: ShareId, kind: Kind): nat {
    if log == [] then 0
    else Count(log[..|log| - 1], s, kind) + if IsMove(log[|log| - 1], s, kind) then 1 else 0
  }

  // The log holds a deactivation of one of the two accounts.
  predicate Deactivated(log: seq<AuditRow>, owner: UserId, grantee: UserId) {
    exists row :: row in log && row.UserUpdated? && !row.status.Enabled? && row.target in {owner, grantee}
  }

  lemma Appended(log: seq<AuditRow>, row: AuditRow, s: ShareId)
    ensures Replay(log + [row], s) == Read(Replay(log, s), row, s)
    ensures forall kind :: Count(log + [row], s, kind) == Count(log, s, kind) + if IsMove(row, s, kind) then 1 else 0
    ensures forall o, g :: Deactivated(log, o, g) ==> Deactivated(log + [row], o, g)
    ensures row.UserUpdated? && !row.status.Enabled? ==>
              forall o, g :: row.target == o || row.target == g ==> Deactivated(log + [row], o, g)
  {
    assert (log + [row])[..|log|] == log;
    assert row in log + [row];
  }

  ghost predicate Agrees(r: Share, t: Trace) {
    t.Born? && t.owner == r.owner && t.grantee == r.grantee && t.version == r.version &&
    (t.status == r.status || (r.status.Expired? && (t.status.Pending? || t.status.Active? || t.status.Revoked?)))
  }

  // How often each transition of the share was logged, by status.
  ghost predicate Tallied(log: seq<AuditRow>, s: ShareId, r: Share) {
    var a, d, v, u := Count(log, s, Accepts), Count(log, s, Declines), Count(log, s, Revokes), Count(log, s, Updates);
    r.version == 1 + u &&
    match r.status
    case Pending => a == d == v == 0
    case Active => a == 1 && d == v == 0
    case Declined => a == 0 && d == 1 && v == 0
    case Revoked => a <= 1 && d == 0 && v <= 1 && (v == 1 || Deactivated(log, r.owner, r.grantee))
    case Expired => a <= 1 && d == v == 0
  }

  ghost predicate Told(db: Db, s: ShareId) {
    if s in db.shares then Agrees(db.shares[s], Replay(db.log, s)) && Tallied(db.log, s, db.shares[s])
    else Replay(db.log, s) == Unborn && forall kind :: Count(db.log, s, kind) == 0
  }

  lemma UpdateUserTold(db: Db, actor: UserId, target: UserId, status: Requested<UserStatus>, role: Requested<Role>,
                       s: ShareId)
    requires Told(db, s)
    ensures Told(UpdateUserLifecycle(db, actor, target, status, role).Final(db), s)
  {
    var o := UpdateUserLifecycle(db, actor, target, status, role);
    if o.Committed? {
      var next := Amended(db.users[target], status, role);
      Appended(db.log, UserUpdated(actor, target, next.status, next.role), s);
    }
  }

  // A row about another share is no news.
  lemma OtherRow(log: seq<AuditRow>, row: AuditRow, s: ShareId)
    requires (row.ShareCreated? || row.ShareMoved?) && row.share != s
    ensures Replay(log + [row], s) == Replay(log, s)
    ensures forall kind :: Count(log + [row], s, kind) == Count(log, s, kind)
    ensures forall r: Share :: Tallied(log, s, r) ==> Tallied(log + [row], s, r)
  {
    Appended(log, row, s);
  }

  lemma CreateShareTold(db: Db, u: UserId, a: AgentId, g: UserId, from: Option<Time>, until: Option<Time>,
                        max: int, id: ShareId, s: ShareId)
    requires Sound(db) && Told(db, s)
    ensures Told(CreateShare(db, u, a, g, from, until, max, id).Final(db), s)
  {
    NoOrphans(db, a, g);
    var o := CreateShare(db, u, a, g, from, until, max, id);
    if o.Committed? {
      if id == s {
        Appended(db.log, ShareCreated(u, id, u, g), s);
      } else {
        OtherRow(db.log, ShareCreated(u, id, u, g), s);
      }
    }
  }

  // A permitted move of this share, read from its row.
  lemma MoveTold(log: seq<AuditRow>, s: ShareId, r: Share, actor: UserId, action: Action, admin: bool)
    requires Permitted(r, actor, action, admin) && Agrees(r, Replay(log, s)) && Tallied(log, s, r)
    ensures var more := log + [ShareMoved(actor, s, action)];
            Agrees(Moved(r, action), Replay(more, s)) && Tallied(more, s, Moved(r, action))
  {
    Appended(log, ShareMoved(actor, s, action), s);
  }

  lemma TransitionTold(db: Db, actor: UserId, id: ShareId, action: Action, admin: bool, s: ShareId)
    requires Told(db, s)
    ensures Told(TransitionShare(db, actor, id, action, admin).Final(db), s)
  {
    var o := TransitionShare(db, actor, id, action, admin);
    if o.Committed? {
      if id == s {
        MoveTold(db.log, s, db.shares[s], actor, action, admin);
      } else {
        OtherRow(db.log, ShareMoved(actor, id, action), s);
      }
    }
  }

  lemma StepTold(db: Db, op: Op, s: ShareId)
    requires Sound(db) && Told(db, s)
    ensures Told(Step(db, op), s)
  {
    if op.UpdateUserOp? { UpdateUserTold(db, op.actor, op.target, op.status, op.role, s); }
    else if op.CreateShareOp? {
      CreateShareTold(db, op.user, op.agent, op.grantee, op.from, op.until, op.maxTasksPerDay, op.id, s);
    }
    else if op.TransitionOp? {
      TransitionTold(db, op.actor, op.id, op.action, op.action.Revoke? && IsAdmin(db, op.actor), s);
    }
    else { UnloggedTold(db, op, s); }
  }

  lemma UnloggedTold(db: Db, op: Op, s: ShareId)
    requires Told(db, s) && !op.UpdateUserOp? && !op.CreateShareOp? && !op.TransitionOp?
    ensures Told(Step(db, op), s)
  {
    assert Step(db, op).log == db.log;
  }

  lemma {:induction false} ExecTold(db: Db, ops: seq<Op>, s: ShareId)
    requires Sound(db) && Told(db, s)
    ensures Told(Exec(db, ops), s)
    decreases |ops|
  {
    if ops != [] {
      StepTold(db, ops[0], s);
      StepSound(db, ops[0]);
      ExecTold(Step(db, ops[0]), ops[1..], s);
    }
  }

  // In every run from empty tables the log alone tells which shares exist, with their parties and version,
  // and their status unless it is expired; and it counts each transition as the status demands.
  lemma LogReplaysToShares(db: Db, ops: seq<Op>, s: ShareId)
    requires Initial(db)
    ensures var d := Exec(db, ops);
            && (s in d.shares <==> Replay(d.log, s).Born?)
            && (s in d.shares ==> Agrees(d.shares[s], Replay(d.log, s)) && Tallied(d.log, s, d.shares[s]))
  {
    assert forall kind :: Count(db.log, s, kind) == 0;
    ExecTold(db, ops, s);
  }

  // ----- who moved a share -----

  lemma OthersLogNoMove(db: Db, op: Op, row: AuditRow)
    requires !op.TransitionOp? && row.ShareMoved? && row in Step(db, op).log
    ensures row in db.log
  {}

  lemma StepMove(db: Db, op: Op, row: AuditRow)
    requires row.ShareMoved? && row in Step(db, op).log && row !in db.log
    ensures op == TransitionOp(row.actor, row.share, row.action) && row.share in db.shares &&
            Permitted(db.shares[row.share], row.actor, row.action, row.action.Revoke? && IsAdmin(db, row.actor))
  {
    if !op.TransitionOp? { OthersLogNoMove(db, op, row); }
  }

  // A logged move was made by a step of the run, by an actor who was entitled to it in the state of that step.
  lemma {:induction false} MoveOrigin(db: Db, ops: seq<Op>, row: AuditRow) returns (i: nat)
    requires row.ShareMoved? && row in Exec(db, ops).log && row !in db.log
    ensures i < |ops| && ops[i] == TransitionOp(row.actor, row.share, row.action)
    ensures var d := Exec(db, ops[..i]);
            row.share in d.shares &&
            Permitted(d.shares[row.share], row.actor, row.action, row.action.Revoke? && IsAdmin(d, row.actor))
    decreases |ops|
  {
    var next := Step(db, ops[0]);
    if row in next.log {
      StepMove(db, ops[0], row);
      i := 0;
    } else {
      var k := MoveOrigin(next, ops[1..], row);
      i := k + 1;
      assert ops[..i][1..] == ops[1..][..k] && ops[..i][0] == ops[0];
    }
  }

  lemma {:induction false} ExecSplit(db: Db, ops: seq<Op>, i: nat)
    requires i <= |ops|
    ensures Exec(db, ops) == Exec(Exec(db, ops[..i]), ops[i..])
    decreases |ops|
  {
    if i > 0 {
      ExecSplit(Step(db, ops[0]), ops[1..], i - 1);
      assert ops[..i][1..] == ops[1..][..i - 1] && ops[1..][i - 1..] == ops[i..];
    } else {
      assert ops[i..] == ops;
    }
  }

  // In every run each logged move of a share was made by whom the share names: accept and decline by its grantee,
  // update by its owner, revoke by its owner or by someone who was an administrator at that moment.
  lemma MovesWereEntitled(db: Db, ops: seq<Op>, row: AuditRow)
    requires Initial(db) && row.ShareMoved? && row in Exec(db, ops).log
    ensures var d := Exec(db, ops);
            row.share in d.shares &&
            match row.action
            case Accept => row.actor == d.shares[row.share].grantee
            case Decline => row.actor == d.shares[row.share].grantee
            case Update(_, _, _) => row.actor == d.shares[row.share].owner
            case Revoke =>
              row.actor == d.shares[row.share].owner ||
              exists i | 0 <= i < |ops| && ops[i] == TransitionOp(row.actor, row.share, Revoke) ::
                IsAdmin(Exec(db, ops[..i]), row.actor)
  {
    var i := MoveOrigin(db, ops, row);
    ExecSound(db, ops[..i]);
    ExecSplit(db, ops, i);
    ExecSound(Exec(db, ops[..i]), ops[i..]);
    assert ShareEvolves(Exec(db, ops[..i]).shares[row.share], Exec(db, ops).shares[row.share]);
  }
}

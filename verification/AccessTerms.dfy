/**
 The terms of a share, told from the log and the steps of a run: those of its latest update, or of its creation.
 */
module AccessTerms {
  import opened Basics
  import opened AccessModel
  import opened AccessRuns
  import AccessEffects
  import AccessSessions

  ghost predicate UpdateRow(row: AuditRow, s: ShareId) { row.ShareMoved? && row.share == s && row.action.Update? }

  // Row j is the latest update of the share in the log.
  ghost predicate LatestUpdate(log: seq<AuditRow>, s: ShareId, j: nat) {
    j < |log| && UpdateRow(log[j], s) && forall k :: j < k < |log| ==> !UpdateRow(log[k], s)
  }

  ghost predicate NoUpdate(log: seq<AuditRow>, s: ShareId) { forall k :: 0 <= k < |log| ==> !UpdateRow(log[k], s) }

  // The limit and the end are the update's, and so is the start if it names one.
  ghost predicate AsUpdated(terms: Terms, action: Action) {
    action.Update? && terms.maxTasksPerDay == action.maxTasksPerDay && terms.validUntil == action.until &&
    (action.from.Some? ==> terms.validFrom == action.from.value)
  }

  ghost predicate Follows(db: Db, s: ShareId) {
    forall j: nat :: LatestUpdate(db.log, s, j) ==> s in db.shares && AsUpdated(db.shares[s].terms, db.log[j].action)
  }

  // The step is a committed update of the share.
  ghost predicate Updates(db: Db, op: Op, s: ShareId) {
    op.TransitionOp? && op.id == s && op.action.Update? && Authenticated(db, op.actor) &&
    TransitionShare(db, op.actor, s, op.action, false).Committed?
  }

  lemma OthersKeepTerms(db: Db, op: Op, s: ShareId)
    requires s in db.shares && !op.TransitionOp? && !op.CreateShareOp?
    ensures s in Step(db, op).shares && Step(db, op).shares[s].terms == db.shares[s].terms
  {
    if op.UpdateUserOp? && UpdateUserLifecycle(db, op.actor, op.target, op.status, op.role).Committed? {
      AccessEffects.LifecycleEffect(db, op.actor, op.target, op.status, op.role);
    }
  }

  lemma TermsStay(db: Db, op: Op, s: ShareId)
    requires Sound(db) && s in db.shares && !Updates(db, op, s)
    ensures s in Step(db, op).shares && Step(db, op).shares[s].terms == db.shares[s].terms
  {
    if op.TransitionOp? {
      var admin := op.action.Revoke? && IsAdmin(db, op.actor);
      if TransitionShare(db, op.actor, op.id, op.action, admin).Committed? {
        AccessEffects.TransitionEffect(db, op.actor, op.id, op.action, admin);
      }
    } else if op.CreateShareOp? {
      var o := CreateShare(db, op.user, op.agent, op.grantee, op.from, op.until, op.maxTasksPerDay, op.id);
      if o.Committed? {
        AccessEffects.CreateEffect(db, op.user, op.agent, op.grantee, op.from, op.until, op.maxTasksPerDay, op.id);
      }
    } else {
      OthersKeepTerms(db, op, s);
    }
  }

  // What a step that is no update of the share adds to the log is no update row of it.
  lemma LogOtherwise(db: Db, op: Op, s: ShareId)
    requires !Updates(db, op, s)
    ensures db.log <= Step(db, op).log
    ensures forall k :: |db.log| <= k < |Step(db, op).log| ==> !UpdateRow(Step(db, op).log[k], s)
  {}

  lemma UpdateFollows(db: Db, op: Op, s: ShareId)
    requires Updates(db, op, s)
    ensures Follows(Step(db, op), s) && !NoUpdate(Step(db, op).log, s)
  {
    AccessEffects.TransitionEffect(db, op.actor, s, op.action, false);
    var d := Step(db, op);
    assert d.log[|db.log|] == ShareMoved(op.actor, s, op.action);
  }

  lemma StepFollows(db: Db, op: Op, s: ShareId)
    requires Sound(db) && Follows(db, s)
    ensures Follows(Step(db, op), s)
  {
    if Updates(db, op, s) {
      UpdateFollows(db, op, s);
    } else {
      LogOtherwise(db, op, s);
      var d := Step(db, op);
      forall j: nat | LatestUpdate(d.log, s, j) ensures s in d.shares && AsUpdated(d.shares[s].terms, d.log[j].action) {
        assert forall k :: 0 <= k < |db.log| ==> d.log[k] == db.log[k];
        assert LatestUpdate(db.log, s, j);
        TermsStay(db, op, s);
      }
    }
  }

  lemma {:induction false} ExecFollows(db: Db, ops: seq<Op>, s: ShareId)
    requires Initial(db)
    ensures Sound(Exec(db, ops)) && Follows(Exec(db, ops), s)
  {
    ExecSound(db, ops);
    if ops != [] {
      AccessSessions.ExecLast(db, ops);
      ExecFollows(db, ops[..|ops| - 1], s);
      StepFollows(Exec(db, ops[..|ops| - 1]), ops[|ops| - 1], s);
    }
  }

  // In every run the terms of an updated share are those of the latest update in the log.
  lemma TermsOfLatestUpdate(db: Db, ops: seq<Op>, s: ShareId, j: nat)
    requires Initial(db) && LatestUpdate(Exec(db, ops).log, s, j)
    ensures var d := Exec(db, ops); s in d.shares && AsUpdated(d.shares[s].terms, d.log[j].action)
  {
    ExecFollows(db, ops, s);
  }

  // The step creates the share, with these terms.
  ghost predicate CreatedWith(db: Db, op: Op, s: ShareId, terms: Terms) {
    op.CreateShareOp? && op.id == s && s !in db.shares && terms.maxTasksPerDay == op.maxTasksPerDay &&
    terms.validUntil == op.until && terms.validFrom == if op.from.Some? then op.from.value else db.now
  }

  // And the terms of a share that was never updated are those it was created with.
  lemma {:induction false} TermsAsCreated(db: Db, ops: seq<Op>, s: ShareId) returns (i: nat)
    requires Initial(db) && s in Exec(db, ops).shares && NoUpdate(Exec(db, ops).log, s)
    ensures i < |ops| && CreatedWith(Exec(db, ops[..i]), ops[i], s, Exec(db, ops).shares[s].terms)
  {
    var last := |ops| - 1;
    var c, op := Exec(db, ops[..last]), ops[last];
    AccessSessions.ExecLast(db, ops);
    ExecSound(db, ops[..last]);
    if Updates(c, op, s) { UpdateFollows(c, op, s); }
    LogOtherwise(c, op, s);
    if s in c.shares {
      TermsStay(c, op, s);
      assert NoUpdate(c.log, s);
      i := TermsAsCreated(db, ops[..last], s);
      assert ops[..last][..i] == ops[..i];
    } else {
      SharesCome(c, op, s);
      i := last;
    }
  }

  lemma OthersAddNoShare(db: Db, op: Op)
    requires !op.CreateShareOp?
    ensures Step(db, op).shares.Keys == db.shares.Keys
  {
    if op.UpdateUserOp? && UpdateUserLifecycle(db, op.actor, op.target, op.status, op.role).Committed? {
      AccessEffects.LifecycleEffect(db, op.actor, op.target, op.status, op.role);
    }
  }

  lemma SharesCome(db: Db, op: Op, s: ShareId)
    requires Sound(db) && s !in db.shares && s in Step(db, op).shares
    ensures CreatedWith(db, op, s, Step(db, op).shares[s].terms)
  {
    if !op.CreateShareOp? { OthersAddNoShare(db, op); }
    AccessEffects.CreateEffect(db, op.user, op.agent, op.grantee, op.from, op.until, op.maxTasksPerDay, op.id);
  }
}

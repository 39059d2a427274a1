/**
 When a session is valid, told from the steps of a run alone.
 */
module AccessSessions {
  import opened Basics
  import opened AccessModel
  import opened AccessRuns
  import AccessAudit
  import AccessEffects
  import AccessSafety

  // The step signs an active user in with a new token.
  ghost predicate Begins(db: Db, op: Op, token: Token) {
    op.LoginOp? && op.token == token && token !in db.sessions &&
    op.user in db.users && db.users[op.user].status == Enabled
  }

  // The step is a logout with this token, or leaves its user disabled or deleted.
  ghost predicate Ends(db: Db, op: Op, token: Token) {
    token in db.sessions &&
    (op == LogoutOp(token) ||
     (op.UpdateUserOp? && op.target == db.sessions[token].user && Step(db, op) != db &&
      op.target in Step(db, op).users && Step(db, op).users[op.target].status != Enabled))
  }

  lemma OthersKeepSessions(db: Db, op: Op)
    requires !op.LoginOp? && !op.LogoutOp? && !op.UpdateUserOp?
    ensures Step(db, op).sessions == db.sessions
  {}

  lemma UpdateUserSessions(db: Db, op: Op, token: Token)
    requires op.UpdateUserOp? && token in db.sessions
    ensures var s := Step(db, op).sessions;
            && s.Keys == db.sessions.Keys
            && s[token] == db.sessions[token].(live := db.sessions[token].live && !Ends(db, op, token))
  {
    if UpdateUserLifecycle(db, op.actor, op.target, op.status, op.role).Committed? {
      AccessEffects.LifecycleEffect(db, op.actor, op.target, op.status, op.role);
    }
  }

  // A session stays as it is, apart from being live until a step ends it.
  lemma SessionStep(db: Db, op: Op, token: Token)
    requires token in db.sessions
    ensures var s := Step(db, op).sessions;
            token in s && s[token] == db.sessions[token].(live := db.sessions[token].live && !Ends(db, op, token))
  {
    if op.UpdateUserOp? { UpdateUserSessions(db, op, token); }
    else if !op.LoginOp? && !op.LogoutOp? { OthersKeepSessions(db, op); }
  }

  // A session comes with a login, and no other way.
  lemma SessionComes(db: Db, op: Op, token: Token)
    requires token !in db.sessions
    ensures token in Step(db, op).sessions <==> Begins(db, op, token)
    ensures Begins(db, op, token) ==> Step(db, op).sessions[token] == Session(op.user, true, db.now + op.ttl)
  {
    if op.UpdateUserOp? {
      if UpdateUserLifecycle(db, op.actor, op.target, op.status, op.role).Committed? {
        AccessEffects.LifecycleEffect(db, op.actor, op.target, op.status, op.role);
      }
    } else if !op.LoginOp? && !op.LogoutOp? {
      OthersKeepSessions(db, op);
    }
  }

  // Step i is the login of this token.
  ghost predicate BegunAt(db: Db, ops: seq<Op>, i: nat, token: Token) {
    i < |ops| && Begins(Exec(db, ops[..i]), ops[i], token)
  }

  ghost predicate EndedAfter(db: Db, ops: seq<Op>, i: nat, token: Token) {
    exists k :: i < k < |ops| && Ends(Exec(db, ops[..k]), ops[k], token)
  }

  // The session that the login at step i has become by the end.
  ghost function SessionOf(db: Db, ops: seq<Op>, i: nat, token: Token): Session
    requires BegunAt(db, ops, i, token)
  {
    Session(ops[i].user, !EndedAfter(db, ops, i, token), Exec(db, ops[..i]).now + ops[i].ttl)
  }

  lemma ExecLast(db: Db, ops: seq<Op>)
    requires ops != []
    ensures Exec(db, ops) == Step(Exec(db, ops[..|ops| - 1]), ops[|ops| - 1])
  {
    AccessAudit.ExecSplit(db, ops, |ops| - 1);
    assert ops[|ops| - 1..] == [ops[|ops| - 1]];
    assert ops[|ops| - 1..][1..] == [];
  }

  // What a session is after a run in which step i was its login.
  lemma {:induction false} SessionSince(db: Db, ops: seq<Op>, i: nat, token: Token)
    requires BegunAt(db, ops, i, token)
    ensures var d := Exec(db, ops);
            token in d.sessions && d.sessions[token] == SessionOf(db, ops, i, token)
  {
    var last := |ops| - 1;
    var front := ops[..last];
    ExecLast(db, ops);
    if i == last {
      SessionComes(Exec(db, front), ops[last], token);
    } else {
      assert front[..i] == ops[..i];
      SessionSince(db, front, i, token);
      SessionStep(Exec(db, front), ops[last], token);
      EndedMore(db, ops, i, token);
    }
  }

  lemma EndedMore(db: Db, ops: seq<Op>, i: nat, token: Token)
    requires i < |ops| - 1
    ensures var front := ops[..|ops| - 1];
            EndedAfter(db, ops, i, token) <==>
            EndedAfter(db, front, i, token) || Ends(Exec(db, front), ops[|ops| - 1], token)
  {
    var front := ops[..|ops| - 1];
    if k: nat :| i < k < |front| && Ends(Exec(db, front[..k]), front[k], token) {
      assert front[..k] == ops[..k];
      assert Ends(Exec(db, ops[..k]), ops[k], token);
    }
    if k: nat :| i < k < |ops| && Ends(Exec(db, ops[..k]), ops[k], token) {
      if k < |front| {
        assert front[..k] == ops[..k];
        assert Ends(Exec(db, front[..k]), front[k], token);
      }
    }
  }

  lemma {:induction false} SessionHasLogin(db: Db, ops: seq<Op>, token: Token) returns (i: nat)
    requires token !in db.sessions && token in Exec(db, ops).sessions
    ensures BegunAt(db, ops, i, token)
  {
    var last := |ops| - 1;
    var front := ops[..last];
    ExecLast(db, ops);
    if token in Exec(db, front).sessions {
      i := SessionHasLogin(db, front, token);
      assert front[..i] == ops[..i];
    } else {
      SessionComes(Exec(db, front), ops[last], token);
      i := last;
    }
  }

  // In every run: a token is valid for a user if and only if one of the steps was a login of that user with it, less
  // than its ttl ago, and no later step was a logout with it or deactivated the user.
  lemma SessionValidIff(db: Db, ops: seq<Op>, token: Token, user: UserId)
    requires Initial(db)
    ensures var d := Exec(db, ops);
            SessionValid(d, token) && d.sessions[token].user == user <==>
            exists i: nat | BegunAt(db, ops, i, token) :: ops[i].user == user && !EndedAfter(db, ops, i, token) &&
                                                     d.now < Exec(db, ops[..i]).now + ops[i].ttl
  {
    var d := Exec(db, ops);
    AccessSafety.ReachableInv(db, ops);
    forall j: nat | BegunAt(db, ops, j, token)
      ensures token in d.sessions
      ensures d.sessions[token] == SessionOf(db, ops, j, token)
    {
      SessionSince(db, ops, j, token);
    }
    if token in d.sessions {
      var i := SessionHasLogin(db, ops, token);
      LiveIsEnabled(d, token);
    }
  }

  lemma LiveIsEnabled(db: Db, token: Token)
    requires Inv(db) && token in db.sessions
    ensures SessionValid(db, token) <==> db.sessions[token].live && db.now < db.sessions[token].expiresAt
  {}

  // If a live session has ended by the end of a run, some step was a logout with this token or deactivated its user.
  lemma {:induction false} SessionEndedBy(db: Db, ops: seq<Op>, token: Token) returns (i: nat)
    requires token in db.sessions && db.sessions[token].live
    requires token in Exec(db, ops).sessions && !Exec(db, ops).sessions[token].live
    ensures i < |ops| && Ends(Exec(db, ops[..i]), ops[i], token)
    decreases |ops|
  {
    var next := Step(db, ops[0]);
    SessionStep(db, ops[0], token);
    if next.sessions[token].live {
      var k := SessionEndedBy(next, ops[1..], token);
      i := k + 1;
      assert ops[..i][1..] == ops[1..][..k] && ops[..i][0] == ops[0];
    } else {
      i := 0;
    }
  }

  // A stream of a user who is disabled or deleted, or who logged out, fails at every tick.
  lemma EndedSessionStream(db: Db, ops: seq<Op>, i: nat, token: Token, subject: UserId, x: Access, accessId: string,
                           ownerKey: UserId, nameKey: string, requestId: string)
    requires Initial(db) && BegunAt(db, ops, i, token) && EndedAfter(db, ops, i, token)
    ensures !StreamAuthorized(Exec(db, ops), token, subject, x, accessId, ownerKey, nameKey, requestId)
  {
    SessionSince(db, ops, i, token);
  }
}

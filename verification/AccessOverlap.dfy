/**
 Lifecycle transactions that overlap: each locks its target's row, counts the active administrators, and writes, with
 other transactions' statements in between. An administrator remains exactly when no write comes too late, and a write
 does so only after another demotion since its own count.
 */
module AccessOverlap {
  import opened Basics
  import opened AccessModel
  import AccessSafety

  type TxId = int

  const ADMIN := User(Admin, Enabled)

  // demotes: the row was that of an active administrator and will not be. mark is what the count saw of the history.
  datatype Tx = Tx(target: UserId, next: User, demotes: bool, counted: bool, mark: nat)

  // demoted lists the administrators whose demotion was committed, in order.
  datatype World = World(users: map<UserId, User>, locks: map<UserId, TxId>, open: map<TxId, Tx>, demoted: seq<UserId>)

  datatype Act =
    | Create(user: UserId, granted: Role)
    | Lock(tx: TxId, actor: UserId, target: UserId, status: Requested<UserStatus>, role: Requested<Role>)
    | Count(tx: TxId)
    | Commit(tx: TxId)
    | Abort(tx: TxId)

  function End(w: World, t: TxId): World {
    w.(open := map u | u in w.open && u != t :: w.open[u],
       locks := map k | k in w.locks && w.locks[k] != t :: w.locks[k])
  }

  // The select that locks the row, and the checks of the request. It waits while another transaction has the row.
  function LockRow(w: World, t: TxId, actor: UserId, target: UserId,
                   status: Requested<UserStatus>, role: Requested<Role>): World
  {
    if t in w.open || target !in w.users || target in w.locks || status.Unrecognised? || role.Unrecognised? then w
    else
      var next := Amended(w.users[target], status, role);
      if actor == target && !next.status.Enabled? then w
      else
        var x := Tx(target, next, w.users[target] == ADMIN && next != ADMIN, false, |w.demoted|);
        w.(open := w.open[t := x], locks := w.locks[target := t])
  }

  predicate Writes(w: World, t: TxId) { t in w.open && w.open[t].counted }

  function Step(w: World, a: Act): World {
    match a
    case Create(user, role) => if user in w.users then w else w.(users := w.users[user := User(role, Enabled)])
    case Lock(t, actor, target, status, role) => LockRow(w, t, actor, target, status, role)
    case Count(t) =>
      if t !in w.open || w.open[t].counted then w
      else if w.open[t].demotes && |ActiveAdmins(w.users)| <= 1 then End(w, t)
      else w.(open := w.open[t := w.open[t].(counted := true, mark := |w.demoted|)])
    case Commit(t) =>
      if Writes(w, t)
      then End(w, t).(users := w.users[w.open[t].target := w.open[t].next],
                      demoted := w.demoted + if w.open[t].demotes then [w.open[t].target] else [])
      else w
    case Abort(t) => End(w, t)
  }

  function Exec(w: World, acts: seq<Act>): World {
    if acts == [] then w else Step(Exec(w, acts[..|acts| - 1]), acts[|acts| - 1])
  }

  ghost predicate HasAdmin(users: map<UserId, User>) { exists u :: u in users && users[u] == ADMIN }

  // A demotion is written while another administrator is there.
  predicate Timely(w: World, a: Act) {
    a.Commit? && Writes(w, a.tx) && w.open[a.tx].demotes ==> |ActiveAdmins(w.users)| > 1
  }

  ghost predicate AllTimely(w: World, acts: seq<Act>) {
    acts == [] || (AllTimely(w, acts[..|acts| - 1]) && Timely(Exec(w, acts[..|acts| - 1]), acts[|acts| - 1]))
  }

  // An administrator is there after every step.
  ghost predicate AlwaysAdmin(w: World, acts: seq<Act>) {
    HasAdmin(Exec(w, acts).users) && (acts == [] || AlwaysAdmin(w, acts[..|acts| - 1]))
  }

  // The row a transaction has locked is as it was read, and a counted demotion is still possible unless another came.
  ghost predicate TxOk(w: World, t: TxId, x: Tx) {
    && x.target in w.users && x.target in w.locks && w.locks[x.target] == t && x.mark <= |w.demoted|
    && (x.demotes <==> w.users[x.target] == ADMIN && x.next != ADMIN)
    && (x.counted && x.demotes ==> |ActiveAdmins(w.users)| > 1 || x.mark < |w.demoted|)
  }

  ghost predicate TxsOk(w: World) { forall t :: t in w.open ==> TxOk(w, t, w.open[t]) }

  // No administrator is lost between w and v, or a demotion has been written.
  lemma TxStays(w: World, v: World, t: TxId, x: Tx)
    requires TxOk(w, t, x) && |w.demoted| <= |v.demoted|
    requires x.target in v.users && v.users[x.target] == w.users[x.target]
    requires x.target in v.locks && v.locks[x.target] == t
    requires ActiveAdmins(w.users) <= ActiveAdmins(v.users) || |w.demoted| < |v.demoted|
    ensures TxOk(v, t, x)
  {
    if ActiveAdmins(w.users) <= ActiveAdmins(v.users) {
      AccessSafety.SubsetSize(ActiveAdmins(w.users), ActiveAdmins(v.users));
    }
  }

  lemma StepTxs(w: World, a: Act)
    requires TxsOk(w)
    ensures TxsOk(Step(w, a))
  {
    var v := Step(w, a);
    if a.Commit? && Writes(w, a.tx) { assert TxOk(w, a.tx, w.open[a.tx]); }
    forall t | t in v.open && t in w.open && v.open[t] == w.open[t] ensures TxOk(v, t, v.open[t]) {
      assert TxOk(w, t, w.open[t]);
      TxStays(w, v, t, w.open[t]);
    }
    if a.Count? && a.tx in w.open { assert TxOk(w, a.tx, w.open[a.tx]); }
  }

  lemma {:induction false} ExecTxs(w: World, acts: seq<Act>)
    requires w.open == map[]
    ensures TxsOk(Exec(w, acts))
  {
    if acts != [] {
      ExecTxs(w, acts[..|acts| - 1]);
      StepTxs(Exec(w, acts[..|acts| - 1]), acts[|acts| - 1]);
    }
  }

  lemma AdminsThere(users: map<UserId, User>)
    ensures HasAdmin(users) <==> |ActiveAdmins(users)| > 0
  {
    if HasAdmin(users) {
      var u :| u in users && users[u] == ADMIN;
      assert u in ActiveAdmins(users);
    } else {
      forall u | u in users ensures u !in ActiveAdmins(users) { assert users[u] != ADMIN; }
      assert ActiveAdmins(users) == {};
    }
  }

  lemma DemotionLeaves(users: map<UserId, User>, target: UserId, next: User)
    requires target in users && users[target] == ADMIN && next != ADMIN
    ensures HasAdmin(users[target := next]) <==> |ActiveAdmins(users)| > 1
  {
    var rest := ActiveAdmins(users[target := next]);
    assert rest == ActiveAdmins(users) - {target};
    AdminsThere(users[target := next]);
  }

  lemma StepDecides(w: World, a: Act)
    requires HasAdmin(w.users) && TxsOk(w)
    ensures HasAdmin(Step(w, a).users) <==> Timely(w, a)
  {
    var u :| u in w.users && w.users[u] == ADMIN;
    if a.Commit? && Writes(w, a.tx) {
      var x := w.open[a.tx];
      assert TxOk(w, a.tx, x);
      if x.demotes {
        DemotionLeaves(w.users, x.target, x.next);
      } else {
        assert Step(w, a).users[u] == ADMIN;
      }
    } else {
      assert Step(w, a).users[u] == ADMIN;
    }
  }

  // For every run of overlapping lifecycle transactions that starts with an active administrator: one is there after
  // every step if and only if no demotion is written too late.
  lemma {:induction false} AdminRemainsIffTimely(w: World, acts: seq<Act>)
    requires w.open == map[] && HasAdmin(w.users)
    ensures AlwaysAdmin(w, acts) <==> AllTimely(w, acts)
  {
    if acts != [] {
      var front := acts[..|acts| - 1];
      AdminRemainsIffTimely(w, front);
      if AllTimely(w, front) {
        ExecTxs(w, front);
        StepDecides(Exec(w, front), acts[|acts| - 1]);
      }
    }
  }

  // A demotion is late only when another one was committed since its own count.
  lemma LateDemotionWasOvertaken(w: World, acts: seq<Act>, a: Act)
    requires w.open == map[] && !Timely(Exec(w, acts), a)
    ensures var v := Exec(w, acts); a.Commit? && a.tx in v.open && v.open[a.tx].mark < |v.demoted|
  {
    ExecTxs(w, acts);
    var v := Exec(w, acts);
    assert TxOk(v, a.tx, v.open[a.tx]);
  }

  // ----- a run that ends without an administrator -----

  function Mutual(a: UserId, b: UserId): seq<Act> {
    [Lock(1, a, b, Unchanged, Wanted(Member))] + [Lock(2, b, a, Unchanged, Wanted(Member))] + [Count(1)] + [Count(2)] +
    [Commit(1)] + [Commit(2)]
  }

  lemma ExecMore(w: World, acts: seq<Act>, a: Act)
    ensures Exec(w, acts + [a]) == Step(Exec(w, acts), a)
  {
    assert (acts + [a])[..|acts|] == acts;
  }

  lemma BothLocked(w: World, a: UserId, b: UserId)
    requires w.open == map[] && w.locks == map[] && a != b && w.users == map[a := ADMIN, b := ADMIN]
    ensures var v := Exec(w, [Lock(1, a, b, Unchanged, Wanted(Member))] + [Lock(2, b, a, Unchanged, Wanted(Member))]);
            var next, mark := User(Member, Enabled), |w.demoted|;
            && v.users == w.users && v.demoted == w.demoted && v.locks == map[b := 1, a := 2]
            && v.open == map[1 := Tx(b, next, true, false, mark), 2 := Tx(a, next, true, false, mark)]
  {
    var lockB, lockA := Lock(1, a, b, Unchanged, Wanted(Member)), Lock(2, b, a, Unchanged, Wanted(Member));
    ExecMore(w, [], lockB);
    assert [] + [lockB] == [lockB];
    ExecMore(w, [lockB], lockA);
  }

  lemma BothCounted(v: World, a: UserId, b: UserId)
    requires a != b && v.users == map[a := ADMIN, b := ADMIN] && v.open.Keys == {1, 2}
    requires !v.open[1].counted && !v.open[2].counted
    ensures var c := Step(Step(v, Count(1)), Count(2));
            && c.users == v.users && c.locks == v.locks && c.open.Keys == {1, 2}
            && c.open[1] == v.open[1].(counted := true, mark := |v.demoted|)
            && c.open[2] == v.open[2].(counted := true, mark := |v.demoted|)
  {
    assert ActiveAdmins(v.users) == {a, b};
  }

  lemma BothCommitted(c: World, a: UserId, b: UserId)
    requires a != b && c.users == map[a := ADMIN, b := ADMIN] && c.open.Keys == {1, 2}
    requires c.open[1].counted && c.open[2].counted && c.open[1].target == b && c.open[2].target == a
    requires c.open[1].next != ADMIN && c.open[2].next != ADMIN
    ensures !HasAdmin(Step(Step(c, Commit(1)), Commit(2)).users)
  {
    var d := Step(c, Commit(1));
    assert 2 in d.open && d.open[2] == c.open[2];
    assert Step(d, Commit(2)).users == map[a := c.open[2].next, b := c.open[1].next];
  }

  // Two administrators demote each other, and each counts before the other commits.
  lemma MutualDemotion(w: World, a: UserId, b: UserId)
    requires w.open == map[] && w.locks == map[] && a != b && w.users == map[a := ADMIN, b := ADMIN]
    ensures !HasAdmin(Exec(w, Mutual(a, b)).users)
  {
    var locks := [Lock(1, a, b, Unchanged, Wanted(Member))] + [Lock(2, b, a, Unchanged, Wanted(Member))];
    BothLocked(w, a, b);
    ExecMore(w, locks, Count(1));
    ExecMore(w, locks + [Count(1)], Count(2));
    BothCounted(Exec(w, locks), a, b);
    var counted := locks + [Count(1)] + [Count(2)];
    ExecMore(w, counted, Commit(1));
    ExecMore(w, counted + [Commit(1)], Commit(2));
    BothCommitted(Exec(w, counted), a, b);
    assert Mutual(a, b) == counted + [Commit(1)] + [Commit(2)];
  }

  // ----- a transaction that nothing overlaps -----

  lemma CountAndCommit(w: World, t: TxId)
    requires t in w.open && !w.open[t].counted
    ensures var v, x := Step(Step(w, Count(t)), Commit(t)), w.open[t];
            && t !in v.open
            && v.users == if x.demotes && |ActiveAdmins(w.users)| <= 1 then w.users else w.users[x.target := x.next]
  {}

  lemma LockReads(w: World, t: TxId, actor: UserId, target: UserId,
                  status: Requested<UserStatus>, role: Requested<Role>)
    requires t !in w.open && target !in w.locks
    ensures var v := Step(w, Lock(t, actor, target, status, role));
            && v.users == w.users
            && (t in v.open <==> && target in w.users && !status.Unrecognised? && !role.Unrecognised?
                                 && (actor == target ==> Amended(w.users[target], status, role).status == Enabled))
            && (t in v.open ==> && v.open[t].target == target && !v.open[t].counted
                                && v.open[t].next == Amended(w.users[target], status, role)
                                && (v.open[t].demotes <==> w.users[target] == ADMIN && v.open[t].next != ADMIN))
  {}

  lemma LifecycleUsers(db: Db, actor: UserId, target: UserId, status: Requested<UserStatus>, role: Requested<Role>)
    ensures UpdateUserLifecycle(db, actor, target, status, role).Final(db).users ==
            if LifecycleError(db.users, actor, target, status, role).Some? then db.users
            else db.users[target := Amended(db.users[target], status, role)]
  {}

  // Its three statements in a row do to the accounts what the whole transaction does.
  lemma LifecycleAlone(w: World, db: Db, t: TxId, actor: UserId, target: UserId,
                       status: Requested<UserStatus>, role: Requested<Role>)
    requires w.users == db.users && t !in w.open && target !in w.locks
    ensures var v := Step(Step(Step(w, Lock(t, actor, target, status, role)), Count(t)), Commit(t));
            v.users == UpdateUserLifecycle(db, actor, target, status, role).Final(db).users && t !in v.open
  {
    var locked := Step(w, Lock(t, actor, target, status, role));
    LockReads(w, t, actor, target, status, role);
    LifecycleUsers(db, actor, target, status, role);
    if t in locked.open { CountAndCommit(locked, t); }
  }
}

/**
 Claims that overlap: each is a transaction of two statements whose row locks last until it ends. The first closes what
 has lapsed, row by row, and waits for rows that others hold; the second skips those rows. Enqueues and completions wait
 for them, and keep the time at which they began.
 */
module MailboxConcurrent {
  import opened Basics
  import opened MailboxModel
  import opened MailboxHistory

  type TxId = int

  datatype Phase = Begun | Lapsed | Chosen

  // start is the transaction's NOW(); taken are the rows its second statement has marked.
  datatype Tx = Tx(start: Time, phase: Phase, taken: seq<int>)

  // The committed table, the holders of row locks, and the claims under way.
  datatype Desk = Desk(box: Box, locks: map<int, TxId>, open: map<TxId, Tx>)

  datatype Act =
    | Whole(op: Op, start: Time)
    | Begin(tx: TxId)
    | LapseRow(tx: TxId, id: int)
    | LapseEnd(tx: TxId)
    | Choose(tx: TxId, user: int, agent: string, limit: int)
    | Commit(tx: TxId)
    | Abort(tx: TxId)

  // The first n eligible rows that nobody holds.
  function FirstFree(rows: seq<Row>, user: int, agent: string, at: Time, n: nat, held: set<int>): seq<int> {
    if rows == [] then []
    else if n > 0 && Eligible(rows[0], user, agent, at) && rows[0].id !in held
    then [rows[0].id] + FirstFree(rows[1..], user, agent, at, n - 1, held)
    else FirstFree(rows[1..], user, agent, at, n, held)
  }

  function LapsedIds(rows: seq<Row>, at: Time): set<int> {
    set row | row in rows && row.status.Live() && row.expiresAt <= at :: row.id
  }

  function Lock(locks: map<int, TxId>, ids: set<int>, t: TxId): map<int, TxId> {
    map id | id in locks.Keys + ids :: if id in ids then t else locks[id]
  }

  function Release(d: Desk, t: TxId): Desk {
    d.(locks := map id | id in d.locks && d.locks[id] != t :: d.locks[id],
       open := map u | u in d.open && u != t :: d.open[u])
  }

  function Ended(row: Row, locks: map<int, TxId>, t: TxId, taken: seq<int>): Row {
    if row.id in taken then row.(status := Claimed)
    else if row.id in locks && locks[row.id] == t then row.(status := Expired)
    else row
  }

  function EndedRows(rows: seq<Row>, locks: map<int, TxId>, t: TxId, taken: seq<int>): seq<Row> {
    seq(|rows|, i requires 0 <= i < |rows| => Ended(rows[i], locks, t, taken))
  }

  // Whether a statement outside the claims has to wait for a row lock.
  predicate Waits(d: Desk, op: Op) {
    match op
    case TickOp(_) => false
    case EnqueueOp(slot, _) => exists row :: row in d.box.rows && row.slot == slot && row.id in d.locks
    case CompleteOp(_, id, _) => id in d.locks
    case ClaimOp(_, _, _) => true
  }

  // A statement reads its own start as the time.
  function Run(b: Box, op: Op, start: Time): Box {
    if op.TickOp? then MailboxModel.Step(b, op) else MailboxModel.Step(b.(now := start), op).(now := b.now)
  }

  function Step(d: Desk, a: Act): Desk {
    match a
    case Whole(op, start) => if Waits(d, op) || d.box.now < start then d else d.(box := Run(d.box, op, start))
    case Begin(t) => if t in d.open then d else d.(open := d.open[t := Tx(d.box.now, Begun, [])])
    case LapseRow(t, id) =>
      if t in d.open && d.open[t].phase == Begun && id in LapsedIds(d.box.rows, d.open[t].start) && id !in d.locks
      then d.(locks := d.locks[id := t]) else d
    case LapseEnd(t) =>
      if t in d.open && d.open[t].phase == Begun &&
         forall id :: id in LapsedIds(d.box.rows, d.open[t].start) ==> id in d.locks && d.locks[id] == t
      then d.(open := d.open[t := d.open[t].(phase := Lapsed)]) else d
    case Choose(t, user, agent, limit) =>
      if t !in d.open || d.open[t].phase != Phase.Lapsed then d
      else
        var ids := FirstFree(d.box.rows, user, agent, d.open[t].start, Limit(limit), d.locks.Keys);
        d.(locks := Lock(d.locks, (set id | id in ids), t),
           open := d.open[t := d.open[t].(phase := Chosen, taken := ids)])
    case Commit(t) =>
      if t !in d.open || d.open[t].phase != Chosen then d
      else
        var x := d.open[t];
        Release(d, t).(box := d.box.(rows := EndedRows(d.box.rows, d.locks, t, x.taken),
                                     log := d.box.log + HandOuts(x.taken, x.start)))
    case Abort(t) => Release(d, t)
  }

  function Exec(d: Desk, acts: seq<Act>): Desk {
    if acts == [] then d else Step(Exec(d, acts[..|acts| - 1]), acts[|acts| - 1])
  }

  // ----- what overlapping claims keep -----

  // A locked row is still as its holder saw it.
  ghost predicate Undisturbed(row: Row, locks: map<int, TxId>, open: map<TxId, Tx>) {
    row.id in locks ==>
      locks[row.id] in open &&
      var x := open[locks[row.id]];
      if row.id in x.taken then row.status.Pending? && x.start < row.expiresAt
      else row.status.Live() && row.expiresAt <= x.start
  }

  ghost predicate RowsHeld(rows: seq<Row>, locks: map<int, TxId>, open: map<TxId, Tx>) {
    forall i :: 0 <= i < |rows| ==> Undisturbed(rows[i], locks, open)
  }

  ghost predicate TxsHold(rows: seq<Row>, locks: map<int, TxId>, open: map<TxId, Tx>) {
    forall t :: t in open ==>
      Ascending(open[t].taken) && (open[t].phase != Chosen ==> open[t].taken == []) &&
      forall id :: id in open[t].taken ==> HasRow(rows, id) && id in locks && locks[id] == t
  }

  ghost predicate LocksRows(rows: seq<Row>, locks: map<int, TxId>) { forall id :: id in locks ==> HasRow(rows, id) }

  ghost predicate Orderly(d: Desk) {
    && Told(d.box) && LocksRows(d.box.rows, d.locks)
    && RowsHeld(d.box.rows, d.locks, d.open) && TxsHold(d.box.rows, d.locks, d.open)
  }

  lemma {:induction false} FirstFreeIds(rows: seq<Row>, user: int, agent: string, at: Time, n: nat, held: set<int>)
    requires forall i, j | 0 <= i < j < |rows| :: rows[i].id < rows[j].id
    ensures var ids := FirstFree(rows, user, agent, at, n, held);
            Ascending(ids) && forall id :: id in ids ==> HasRow(rows, id) && id !in held
  {
    if rows != [] {
      var take := n > 0 && Eligible(rows[0], user, agent, at) && rows[0].id !in held;
      var m := if take then n - 1 else n;
      var rest := FirstFree(rows[1..], user, agent, at, m, held);
      FirstFreeIds(rows[1..], user, agent, at, m, held);
      forall id | id in rest ensures HasRow(rows, id) && id > rows[0].id {
        var i :| 0 <= i < |rows[1..]| && rows[1..][i].id == id;
        assert rows[i + 1].id == id;
      }
      if take {
        AscendingCons(rows[0].id, rest);
        assert HasRow(rows, rows[0].id);
      }
    }
  }

  lemma {:induction false} FirstFreeRow(rows: seq<Row>, user: int, agent: string, at: Time, n: nat, held: set<int>,
                                        i: nat)
    requires i < |rows| && forall i, j | 0 <= i < j < |rows| :: rows[i].id < rows[j].id
    requires rows[i].id in FirstFree(rows, user, agent, at, n, held)
    ensures Eligible(rows[i], user, agent, at)
  {
    var take := n > 0 && Eligible(rows[0], user, agent, at) && rows[0].id !in held;
    var m := if take then n - 1 else n;
    FirstFreeIds(rows[1..], user, agent, at, m, held);
    if i == 0 {
      forall k | 0 <= k < |rows[1..]| ensures rows[1..][k].id > rows[0].id {
        assert rows[k + 1].id > rows[0].id;
      }
    } else {
      assert rows[0].id < rows[i].id && rows[1..][i - 1] == rows[i];
      FirstFreeRow(rows[1..], user, agent, at, m, held, i - 1);
    }
  }

  lemma ReleaseOrderly(d: Desk, t: TxId, rows: seq<Row>)
    requires Orderly(d) && SamePlaces(d.box.rows, rows)
    requires forall i :: 0 <= i < |rows| && rows[i] != d.box.rows[i] ==>
                           rows[i].id in d.locks && d.locks[rows[i].id] == t
    ensures var r := Release(d, t);
            RowsHeld(rows, r.locks, r.open) && TxsHold(rows, r.locks, r.open) && LocksRows(rows, r.locks)
  {
    var r := Release(d, t);
    IdsKept(d.box.rows, rows);
    forall i | 0 <= i < |rows| ensures Undisturbed(rows[i], r.locks, r.open) {
      assert Undisturbed(d.box.rows[i], d.locks, d.open);
    }
    forall u, id | u in r.open && id in r.open[u].taken ensures HasRow(rows, id) && id in r.locks && r.locks[id] == u {
      assert HasRow(d.box.rows, id) && d.locks[id] == u;
    }
  }

  lemma CommitTold(d: Desk, t: TxId)
    requires Orderly(d) && t in d.open
    ensures var x := d.open[t];
            Told(d.box.(rows := EndedRows(d.box.rows, d.locks, t, x.taken),
                        log := d.box.log + HandOuts(x.taken, x.start)))
  {
    var x, rows := d.open[t], d.box.rows;
    var after := EndedRows(rows, d.locks, t, x.taken);
    var middle := seq(|rows|, i requires 0 <= i < |rows| => if rows[i].id in x.taken then rows[i] else after[i]);
    forall i | 0 <= i < |rows|
      ensures middle[i] == rows[i] || (rows[i].status.Live() && middle[i] == rows[i].(status := Expired))
    {
      assert Undisturbed(rows[i], d.locks, d.open);
    }
    LapseTold(d.box, middle);
    forall i | 0 <= i < |rows| && rows[i].id in x.taken ensures rows[i].status.Pending? && x.start < rows[i].expiresAt {
      assert Undisturbed(rows[i], d.locks, d.open) && d.locks[rows[i].id] == t;
    }
    forall id | id in x.taken ensures HasRow(middle, id) {
      var i :| 0 <= i < |rows| && rows[i].id == id;
      assert middle[i].id == id;
    }
    HandOutTold(d.box.(rows := middle), after, x.taken, x.start);
  }

  lemma CommitOrderly(d: Desk, t: TxId)
    requires Orderly(d) && t in d.open && d.open[t].phase == Chosen
    ensures Orderly(Step(d, Commit(t)))
  {
    CommitTold(d, t);
    ReleaseOrderly(d, t, EndedRows(d.box.rows, d.locks, t, d.open[t].taken));
  }

  lemma AbortOrderly(d: Desk, t: TxId)
    requires Orderly(d)
    ensures Orderly(Release(d, t))
  {
    ReleaseOrderly(d, t, d.box.rows);
  }

  lemma LapseRowOrderly(d: Desk, t: TxId, id: int)
    requires Orderly(d)
    ensures Orderly(Step(d, LapseRow(t, id)))
  {
    var e := Step(d, LapseRow(t, id));
    if e != d {
      var r :| r in d.box.rows && r.status.Live() && r.expiresAt <= d.open[t].start && r.id == id;
      assert HasRow(d.box.rows, id);
      assert id !in d.open[t].taken;
      forall i | 0 <= i < |e.box.rows| ensures Undisturbed(e.box.rows[i], e.locks, e.open) {
        assert Undisturbed(d.box.rows[i], d.locks, d.open);
        if d.box.rows[i].id == id { OneRow(d.box, d.box.rows[i], r); }
      }
    }
  }

  lemma LapseEndOrderly(d: Desk, t: TxId)
    requires Orderly(d)
    ensures Orderly(Step(d, LapseEnd(t)))
  {
    var e := Step(d, LapseEnd(t));
    forall i | 0 <= i < |e.box.rows| ensures Undisturbed(e.box.rows[i], e.locks, e.open) {
      assert Undisturbed(d.box.rows[i], d.locks, d.open);
    }
  }

  lemma OneRow(b: Box, row: Row, r: Row)
    requires Ordered(b.rows, b.nextId) && row in b.rows && r in b.rows && row.id == r.id
    ensures row == r
  {}

  lemma ChooseOrderly(d: Desk, t: TxId, user: int, agent: string, limit: int)
    requires Orderly(d) && t in d.open && d.open[t].phase == Phase.Lapsed
    ensures Orderly(Step(d, Choose(t, user, agent, limit)))
  {
    var e := Step(d, Choose(t, user, agent, limit));
    var ids := FirstFree(d.box.rows, user, agent, d.open[t].start, Limit(limit), d.locks.Keys);
    FirstFreeIds(d.box.rows, user, agent, d.open[t].start, Limit(limit), d.locks.Keys);
    forall i | 0 <= i < |e.box.rows| ensures Undisturbed(e.box.rows[i], e.locks, e.open) {
      assert Undisturbed(d.box.rows[i], d.locks, d.open);
      if d.box.rows[i].id in ids {
        FirstFreeRow(d.box.rows, user, agent, d.open[t].start, Limit(limit), d.locks.Keys, i);
      }
    }
  }

  lemma WholeOrderly(d: Desk, op: Op, start: Time)
    requires Orderly(d) && !Waits(d, op)
    ensures Orderly(d.(box := Run(d.box, op, start)))
  {
    if op.TickOp? { StepTold(d.box, op); } else { StepTold(d.box.(now := start), op); }
    var rows, after := d.box.rows, Run(d.box, op, start).rows;
    UnlockedChange(d, op, start);
    IdsKept(rows, after);
    forall i | 0 <= i < |after| ensures Undisturbed(after[i], d.locks, d.open) {
      if i < |rows| { assert Undisturbed(rows[i], d.locks, d.open); }
    }
  }

  // The step changes no locked row, moves no row, and brings no row with a locked id.
  lemma UnlockedChange(d: Desk, op: Op, start: Time)
    requires Orderly(d) && !Waits(d, op)
    ensures var rows, after := d.box.rows, Run(d.box, op, start).rows;
            && |rows| <= |after|
            && (forall i :: 0 <= i < |rows| ==>
                              after[i].id == rows[i].id && (after[i] == rows[i] || rows[i].id !in d.locks))
            && (forall i :: |rows| <= i < |after| ==> after[i].id !in d.locks)
  {
    if op.EnqueueOp? {
      FindIndex(d.box.rows, op.slot);
      LocksHaveRows(d);
    }
  }

  lemma LocksHaveRows(d: Desk)
    requires Orderly(d)
    ensures forall id :: id in d.locks ==> id < d.box.nextId
  {
    forall id | id in d.locks ensures id < d.box.nextId { assert HasRow(d.box.rows, id); }
  }

  lemma BeginOrderly(d: Desk, t: TxId)
    requires Orderly(d)
    ensures Orderly(Step(d, Begin(t)))
  {
    forall i | 0 <= i < |d.box.rows| && t !in d.open
      ensures Undisturbed(d.box.rows[i], d.locks, Step(d, Begin(t)).open)
    {
      assert Undisturbed(d.box.rows[i], d.locks, d.open);
    }
  }

  lemma StepOrderly(d: Desk, a: Act)
    requires Orderly(d)
    ensures Orderly(Step(d, a))
  {
    match a
    case Whole(op, start) => if !Waits(d, op) { WholeOrderly(d, op, start); }
    case Begin(t) => BeginOrderly(d, t);
    case LapseRow(t, id) => LapseRowOrderly(d, t, id);
    case LapseEnd(t) => LapseEndOrderly(d, t);
    case Choose(t, user, agent, limit) =>
      if t in d.open && d.open[t].phase == Phase.Lapsed { ChooseOrderly(d, t, user, agent, limit); }
    case Commit(t) => if t in d.open && d.open[t].phase == Chosen { CommitOrderly(d, t); }
    case Abort(t) => AbortOrderly(d, t);
  }

  ghost predicate Initial(d: Desk) { MailboxHistory.Initial(d.box) && d.locks == map[] && d.open == map[] }

  lemma {:induction false} ExecOrderly(d: Desk, acts: seq<Act>)
    requires Initial(d)
    ensures Orderly(Exec(d, acts))
  {
    if acts == [] {
      assert forall k :: Tell(d.box.log, k) == UNTOLD;
    } else {
      ExecOrderly(d, acts[..|acts| - 1]);
      StepOrderly(Exec(d, acts[..|acts| - 1]), acts[|acts| - 1]);
    }
  }

  // Two claims under way never have a row in common.
  lemma ClaimsDisjoint(d: Desk, acts: seq<Act>, t: TxId, u: TxId, id: int)
    requires Initial(d)
    requires var e := Exec(d, acts); t in e.open && u in e.open && id in e.open[t].taken && id in e.open[u].taken
    ensures t == u
  {
    ExecOrderly(d, acts);
  }

  // However claims overlap: between two hand-outs of a row, or two completions, lies an enqueue of it ...
  lemma AtMostOnceConcurrently(d: Desk, acts: seq<Act>, id: int, i: nat, j: nat)
    requires Initial(d)
    requires var log := Exec(d, acts).box.log;
             i < j < |log| && log[i].id == id && log[j].id == id && SameKind(log[i], log[j])
    ensures var log := Exec(d, acts).box.log; exists k :: i < k < j && log[k].id == id && log[k].Enqueued?
  {
    ExecOrderly(d, acts);
    NeverTwice(Exec(d, acts).box.log, id, i, j);
  }

  // ... and each falls within two minutes of the latest enqueue before it, by the times at which they began.
  lemma InTimeConcurrently(d: Desk, acts: seq<Act>, id: int, j: nat) returns (k: nat)
    requires Initial(d)
    requires var log := Exec(d, acts).box.log; j < |log| && log[j].id == id && !log[j].Enqueued?
    ensures var log := Exec(d, acts).box.log;
            && k < j && log[k].Enqueued? && log[k].id == id && log[j].at < log[k].at + TTL
            && forall m :: k < m < j && log[m].id == id ==> !log[m].Enqueued?
  {
    ExecOrderly(d, acts);
    k := NeverLate(Exec(d, acts).box.log, id, j);
  }
}

/**
 The mailbox of connection requests: one row a (user, agent, request), handed to the agent in the order of row ids.
 */
module MailboxModel {
  import opened Basics

  datatype Slot = Slot(user: int, agent: string, request: string)

  datatype Status = Pending | Claimed | Completed | Rejected | Expired
  {
    predicate Live() { Pending? || Claimed? }
  }

  datatype Row = Row(id: int, slot: Slot, status: Status, expiresAt: Time, payload: string)

  datatype News = Enqueued(id: int, at: Time) | HandedOut(id: int, at: Time) | Finished(id: int, at: Time)

  // The table in the order of its ids, and the history of what was done with its rows.
  datatype Box = Box(now: Time, nextId: int, rows: seq<Row>, log: seq<News>)

  const TTL: int := 2 * MINUTE

  function Find(rows: seq<Row>, slot: Slot): Option<nat> {
    if rows == [] then None
    else if rows[0].slot == slot then Some(0)
    else
      var rest := Find(rows[1..], slot);
      if rest.Some? then Some(rest.value + 1) else None
  }

  // The row that an enqueue of this slot leaves, at its place in the table. A conflict keeps the row's id.
  function Enqueue(b: Box, slot: Slot, payload: string): (Box, int) {
    var at := Find(b.rows, slot);
    FindIndex(b.rows, slot);
    var id := if at.Some? then b.rows[at.value].id else b.nextId;
    var row := Row(id, slot, Pending, b.now + TTL, payload);
    (b.(nextId := b.nextId + 1,
        rows := if at.Some? then b.rows[at.value := row] else b.rows + [row],
        log := b.log + [Enqueued(id, b.now)]), id)
  }

  lemma {:induction false} FindIndex(rows: seq<Row>, slot: Slot)
    ensures var at := Find(rows, slot);
            if at.Some? then at.value < |rows| && rows[at.value].slot == slot
            else forall i :: 0 <= i < |rows| ==> rows[i].slot != slot
  {
    if rows != [] && rows[0].slot != slot {
      FindIndex(rows[1..], slot);
      forall i | 0 <= i < |rows| && Find(rows, slot).None? ensures rows[i].slot != slot {
        assert i > 0 ==> rows[i] == rows[1..][i - 1];
      }
    }
  }

  function Lapse(row: Row, now: Time): Row {
    if row.status.Live() && row.expiresAt <= now then row.(status := Expired) else row
  }

  function ExpireRows(rows: seq<Row>, now: Time): (r: seq<Row>)
    ensures |r| == |rows| && forall i :: 0 <= i < |rows| ==> r[i] == Lapse(rows[i], now)
  {
    if rows == [] then [] else [Lapse(rows[0], now)] + ExpireRows(rows[1..], now)
  }

  predicate Eligible(row: Row, user: int, agent: string, now: Time) {
    row.slot.user == user && row.slot.agent == agent && row.status.Pending? && now < row.expiresAt
  }

  // The first n eligible rows are marked.
  function Mark(rows: seq<Row>, user: int, agent: string, now: Time, n: nat): (r: seq<Row>)
    ensures |r| == |rows|
  {
    if rows == [] then []
    else if n > 0 && Eligible(rows[0], user, agent, now)
    then [rows[0].(status := Claimed)] + Mark(rows[1..], user, agent, now, n - 1)
    else [rows[0]] + Mark(rows[1..], user, agent, now, n)
  }

  // And these are the ids of the rows marked.
  function Marked(rows: seq<Row>, user: int, agent: string, now: Time, n: nat): seq<int> {
    if rows == [] then []
    else if n > 0 && Eligible(rows[0], user, agent, now)
    then [rows[0].id] + Marked(rows[1..], user, agent, now, n - 1)
    else Marked(rows[1..], user, agent, now, n)
  }

  function Limit(limit: int): nat { if limit < 1 || limit > 50 then 20 else limit }

  function HandOuts(ids: seq<int>, at: Time): seq<News> {
    seq(|ids|, i requires 0 <= i < |ids| => HandedOut(ids[i], at))
  }

  function Claim(b: Box, user: int, agent: string, limit: int): (Box, seq<int>) {
    var live := ExpireRows(b.rows, b.now);
    var ids := Marked(live, user, agent, b.now, Limit(limit));
    (b.(rows := Mark(live, user, agent, b.now, Limit(limit)), log := b.log + HandOuts(ids, b.now)), ids)
  }

  predicate Completable(row: Row, user: int, id: int, now: Time) {
    row.id == id && row.slot.user == user && row.status.Live() && now < row.expiresAt
  }

  function Settle(rows: seq<Row>, user: int, id: int, now: Time, status: Status): (r: seq<Row>)
    ensures |r| == |rows|
    ensures forall i :: 0 <= i < |rows| ==>
              r[i] == if Completable(rows[i], user, id, now) then rows[i].(status := status) else rows[i]
  {
    if rows == [] then []
    else [if Completable(rows[0], user, id, now) then rows[0].(status := status) else rows[0]] +
         Settle(rows[1..], user, id, now, status)
  }

  function Complete(b: Box, user: int, id: int, rejected: bool): (Box, bool) {
    if exists i :: 0 <= i < |b.rows| && Completable(b.rows[i], user, id, b.now)
    then (b.(rows := Settle(b.rows, user, id, b.now, if rejected then Rejected else Completed),
             log := b.log + [Finished(id, b.now)]), true)
    else (b, false)
  }

  datatype Op =
    | TickOp(at: Time)
    | EnqueueOp(slot: Slot, payload: string)
    | ClaimOp(user: int, agent: string, limit: int)
    | CompleteOp(user: int, id: int, rejected: bool)

  function Step(b: Box, op: Op): Box {
    match op
    case TickOp(at) => if b.now <= at then b.(now := at) else b
    case EnqueueOp(slot, payload) => Enqueue(b, slot, payload).0
    case ClaimOp(user, agent, limit) => Claim(b, user, agent, limit).0
    case CompleteOp(user, id, rejected) => Complete(b, user, id, rejected).0
  }

  function Exec(b: Box, ops: seq<Op>): Box
    decreases |ops|
  {
    if ops == [] then b else Exec(Step(b, ops[0]), ops[1..])
  }

  // ----- the table -----

  // Ids ascend, and no slot has two rows.
  ghost predicate Ordered(rows: seq<Row>, nextId: int) {
    && (forall i, j | 0 <= i < j < |rows| :: rows[i].id < rows[j].id)
    && (forall i, j | 0 <= i < j < |rows| :: rows[i].slot != rows[j].slot)
    && (forall i :: 0 <= i < |rows| ==> rows[i].id < nextId)
  }

  // The ids of all eligible rows, lowest first.
  function Waiting(rows: seq<Row>, user: int, agent: string, now: Time): seq<int> {
    if rows == [] then []
    else (if Eligible(rows[0], user, agent, now) then [rows[0].id] else []) + Waiting(rows[1..], user, agent, now)
  }

  function Least(a: nat, b: nat): nat { if a < b then a else b }

  lemma {:induction false} MarkedIsPrefix(rows: seq<Row>, user: int, agent: string, now: Time, n: nat)
    ensures var w := Waiting(rows, user, agent, now); Marked(rows, user, agent, now, n) == w[..Least(n, |w|)]
  {
    if rows != [] {
      var w := Waiting(rows, user, agent, now);
      var rest := Waiting(rows[1..], user, agent, now);
      if Eligible(rows[0], user, agent, now) && n > 0 {
        MarkedIsPrefix(rows[1..], user, agent, now, n - 1);
        assert w[..Least(n, |w|)] == [rows[0].id] + rest[..Least(n - 1, |rest|)];
      } else {
        MarkedIsPrefix(rows[1..], user, agent, now, n);
      }
    }
  }

  lemma {:induction false} MarkLeavesRest(rows: seq<Row>, user: int, agent: string, now: Time, n: nat)
    ensures var w := Waiting(rows, user, agent, now);
            Waiting(Mark(rows, user, agent, now, n), user, agent, now) == w[Least(n, |w|)..]
  {
    if rows != [] {
      var w := Waiting(rows, user, agent, now);
      var rest := Waiting(rows[1..], user, agent, now);
      var m := if Eligible(rows[0], user, agent, now) && n > 0 then n - 1 else n;
      MarkLeavesRest(rows[1..], user, agent, now, m);
      assert Mark(rows, user, agent, now, n)[1..] == Mark(rows[1..], user, agent, now, m);
      if Eligible(rows[0], user, agent, now) && n > 0 {
        assert w[Least(n, |w|)..] == rest[Least(m, |rest|)..];
      }
    }
  }

  lemma {:induction false} ExpiredWaiting(rows: seq<Row>, user: int, agent: string, now: Time)
    ensures Waiting(ExpireRows(rows, now), user, agent, now) == Waiting(rows, user, agent, now)
  {
    if rows != [] { ExpiredWaiting(rows[1..], user, agent, now); }
  }

  // A claim takes the lowest waiting ids, as many as the limit allows; the rest go on waiting.
  lemma ClaimTakesLowest(b: Box, user: int, agent: string, limit: int)
    ensures var w := Waiting(b.rows, user, agent, b.now);
            var k := Least(Limit(limit), |w|);
            var (after, ids) := Claim(b, user, agent, limit);
            after.now == b.now && ids == w[..k] && Waiting(after.rows, user, agent, after.now) == w[k..]
  {
    var live := ExpireRows(b.rows, b.now);
    ExpiredWaiting(b.rows, user, agent, b.now);
    MarkedIsPrefix(live, user, agent, b.now, Limit(limit));
    MarkLeavesRest(live, user, agent, b.now, Limit(limit));
  }

  // ----- what an enqueue leaves -----

  lemma {:induction false} EligibleWaits(rows: seq<Row>, user: int, agent: string, now: Time, i: nat)
    requires i < |rows| && Eligible(rows[i], user, agent, now)
    ensures rows[i].id in Waiting(rows, user, agent, now)
  {
    if i > 0 { EligibleWaits(rows[1..], user, agent, now, i - 1); }
  }

  // The row an enqueue leaves is the newest of its slot and waits.
  lemma EnqueuedRow(b: Box, slot: Slot, payload: string) returns (at: nat)
    ensures var (c, id) := Enqueue(b, slot, payload);
            at < |c.rows| && c.rows[at] == Row(id, slot, Pending, b.now + TTL, payload)
    ensures var (c, id) := Enqueue(b, slot, payload);
            c.now == b.now && id in Waiting(c.rows, slot.user, slot.agent, b.now)
  {
    var (c, id) := Enqueue(b, slot, payload);
    FindIndex(b.rows, slot);
    at := if Find(b.rows, slot).Some? then Find(b.rows, slot).value else |b.rows|;
    EligibleWaits(c.rows, slot.user, slot.agent, b.now, at);
  }
}

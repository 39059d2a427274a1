/**
 The life of one mailbox row, read off the history of the mailbox: between two enqueues it is handed out at most once
 and finished at most once, and neither after the two minutes of the enqueue.
 */
module MailboxHistory {
  import opened Basics
  import opened MailboxModel

  // Since the last enqueue: its time, and how often the row was handed out and finished.
  // late and twice are set for good when the row was touched past its time, or a second time.
  datatype Story = Story(born: Option<Time>, handed: nat, finished: nat, late: bool, twice: bool)

  const UNTOLD := Story(None, 0, 0, false, false)

  predicate Late(s: Story, at: Time) { s.born.None? || at >= s.born.value + TTL }

  function Read(s: Story, news: News, id: int): Story {
    if news.id != id then s
    else
      match news
      case Enqueued(_, at) => s.(born := Some(at), handed := 0, finished := 0)
      case HandedOut(_, at) =>
        s.(handed := s.handed + 1, late := s.late || Late(s, at), twice := s.twice || s.handed > 0)
      case Finished(_, at) =>
        s.(finished := s.finished + 1, late := s.late || Late(s, at), twice := s.twice || s.finished > 0)
  }

  function Tell(log: seq<News>, id: int): Story {
    if log == [] then UNTOLD else Read(Tell(log[..|log| - 1], id), log[|log| - 1], id)
  }

  lemma TellMore(log: seq<News>, news: News, id: int)
    ensures Tell(log + [news], id) == Read(Tell(log, id), news, id)
  {
    assert (log + [news])[..|log|] == log;
  }

  ghost predicate Ascending(ids: seq<int>) { forall i, j | 0 <= i < j < |ids| :: ids[i] < ids[j] }

  lemma {:induction false} TellHandOuts(log: seq<News>, ids: seq<int>, at: Time, id: int)
    requires Ascending(ids)
    ensures Tell(log + HandOuts(ids, at), id) ==
            if id in ids then Read(Tell(log, id), HandedOut(id, at), id) else Tell(log, id)
  {
    if ids == [] {
      assert log + HandOuts(ids, at) == log;
    } else {
      var front, last := ids[..|ids| - 1], ids[|ids| - 1];
      TellHandOuts(log, front, at, id);
      HandOutsMore(log, front, last, at);
      assert ids == front + [last];
      TellMore(log + HandOuts(front, at), HandedOut(last, at), id);
      assert last !in front;
    }
  }

  lemma HandOutsMore(log: seq<News>, ids: seq<int>, id: int, at: Time)
    ensures log + HandOuts(ids + [id], at) == (log + HandOuts(ids, at)) + [HandedOut(id, at)]
  {
    assert HandOuts(ids + [id], at) == HandOuts(ids, at) + [HandedOut(id, at)];
  }

  // ----- the rows and their stories -----

  ghost predicate RowTold(row: Row, s: Story) {
    s.born == Some(row.expiresAt - TTL) &&
    match row.status
    case Pending => s.handed == 0 && s.finished == 0
    case Claimed => s.handed == 1 && s.finished == 0
    case Completed => s.handed <= 1 && s.finished == 1
    case Rejected => s.handed <= 1 && s.finished == 1
    case Expired => s.handed <= 1 && s.finished == 0
  }

  ghost predicate HasRow(rows: seq<Row>, id: int) { exists i :: 0 <= i < |rows| && rows[i].id == id }

  ghost predicate RowsTold(rows: seq<Row>, log: seq<News>) {
    forall i :: 0 <= i < |rows| ==> RowTold(rows[i], Tell(log, rows[i].id))
  }

  ghost predicate RestUntold(rows: seq<Row>, log: seq<News>) {
    forall id :: !HasRow(rows, id) ==> Tell(log, id) == UNTOLD
  }

  ghost predicate Proper(log: seq<News>) { forall id :: !Tell(log, id).late && !Tell(log, id).twice }

  ghost predicate Told(b: Box) {
    Ordered(b.rows, b.nextId) && RowsTold(b.rows, b.log) && RestUntold(b.rows, b.log) && Proper(b.log)
  }

  // The rows keep their ids and slots.
  ghost predicate SamePlaces(rows: seq<Row>, after: seq<Row>) {
    |after| == |rows| && forall i :: 0 <= i < |rows| ==> after[i].id == rows[i].id && after[i].slot == rows[i].slot
  }

  lemma SamePlacesKept(rows: seq<Row>, after: seq<Row>, nextId: int)
    requires SamePlaces(rows, after) && Ordered(rows, nextId)
    ensures Ordered(after, nextId) && Ordered(after, nextId + 1)
    ensures forall id :: HasRow(rows, id) <==> HasRow(after, id)
  {
    forall id | HasRow(rows, id) ensures HasRow(after, id) {
      var i :| 0 <= i < |rows| && rows[i].id == id;
      assert after[i].id == id;
    }
    forall id | HasRow(after, id) ensures HasRow(rows, id) {
      var i :| 0 <= i < |rows| && after[i].id == id;
      assert rows[i].id == id;
    }
  }

  lemma UpdatedUntold(rows: seq<Row>, log: seq<News>, after: seq<Row>, news: News)
    requires RestUntold(rows, log) && HasRow(after, news.id) && forall id :: HasRow(rows, id) ==> HasRow(after, id)
    ensures RestUntold(after, log + [news])
  {
    forall id | !HasRow(after, id) ensures Tell(log + [news], id) == UNTOLD { TellMore(log, news, id); }
  }

  lemma EnqueueProper(log: seq<News>, id: int, at: Time)
    requires Proper(log)
    ensures Proper(log + [Enqueued(id, at)])
  {
    forall k ensures !Tell(log + [Enqueued(id, at)], k).late && !Tell(log + [Enqueued(id, at)], k).twice {
      TellMore(log, Enqueued(id, at), k);
    }
  }

  // The row at this place is enqueued anew, or is the first of its id.
  lemma EnqueueRowsTold(rows: seq<Row>, log: seq<News>, after: seq<Row>, at: nat, now: Time)
    requires RowsTold(rows, log) && at < |after| && |rows| <= |after|
    requires forall i :: 0 <= i < |after| && i != at ==> i < |rows| && after[i] == rows[i] && rows[i].id != after[at].id
    requires after[at].status == Pending && after[at].expiresAt == now + TTL
    ensures RowsTold(after, log + [Enqueued(after[at].id, now)])
  {
    var news := Enqueued(after[at].id, now);
    forall i | 0 <= i < |after| ensures RowTold(after[i], Tell(log + [news], after[i].id)) {
      TellMore(log, news, after[i].id);
      if i != at { assert RowTold(rows[i], Tell(log, rows[i].id)); }
    }
  }

  lemma EnqueueTold(b: Box, slot: Slot, payload: string)
    requires Told(b)
    ensures Told(Enqueue(b, slot, payload).0)
  {
    var (c, id) := Enqueue(b, slot, payload);
    var at := EnqueuedRow(b, slot, payload);
    FindIndex(b.rows, slot);
    EnqueueRowsTold(b.rows, b.log, c.rows, at, b.now);
    EnqueueProper(b.log, id, b.now);
    IdsKept(b.rows, c.rows);
    UpdatedUntold(b.rows, b.log, c.rows, Enqueued(id, b.now));
  }

  lemma IdsKept(rows: seq<Row>, after: seq<Row>)
    requires |rows| <= |after| && forall i :: 0 <= i < |rows| ==> after[i].id == rows[i].id
    ensures forall id :: HasRow(rows, id) ==> HasRow(after, id)
  {
    forall id | HasRow(rows, id) ensures HasRow(after, id) {
      var i :| 0 <= i < |rows| && rows[i].id == id;
      assert after[i].id == id;
    }
  }

  // Some live rows are closed as expired, the others stay.
  ghost predicate Lapses(rows: seq<Row>, after: seq<Row>) {
    |after| == |rows| &&
    forall i :: 0 <= i < |rows| ==>
      after[i] == rows[i] || (rows[i].status.Live() && after[i] == rows[i].(status := Expired))
  }

  // Expiring rows adds nothing to the history and contradicts none of it.
  lemma LapseTold(b: Box, after: seq<Row>)
    requires Told(b) && Lapses(b.rows, after)
    ensures Told(b.(rows := after))
  {
    forall i | 0 <= i < |after| ensures RowTold(after[i], Tell(b.log, after[i].id)) {
      assert RowTold(b.rows[i], Tell(b.log, b.rows[i].id));
    }
    SamePlacesKept(b.rows, after, b.nextId);
  }

  // Exactly the rows of these ids, all pending and in time, become claimed.
  ghost predicate HandsOut(rows: seq<Row>, after: seq<Row>, ids: seq<int>, at: Time) {
    && |after| == |rows| && Ascending(ids) && (forall id :: id in ids ==> HasRow(rows, id))
    && forall i :: 0 <= i < |rows| ==>
         if rows[i].id in ids
         then rows[i].status.Pending? && at < rows[i].expiresAt && after[i] == rows[i].(status := Claimed)
         else after[i] == rows[i]
  }

  lemma HandOutRow(b: Box, after: seq<Row>, ids: seq<int>, at: Time, i: nat)
    requires Told(b) && HandsOut(b.rows, after, ids, at) && i < |b.rows|
    ensures var s := Tell(b.log + HandOuts(ids, at), b.rows[i].id);
            && after[i].id == b.rows[i].id && after[i].slot == b.rows[i].slot
            && RowTold(after[i], s) && !s.late && !s.twice
  {
    TellHandOuts(b.log, ids, at, b.rows[i].id);
    assert RowTold(b.rows[i], Tell(b.log, b.rows[i].id));
  }

  lemma HandOutTold(b: Box, after: seq<Row>, ids: seq<int>, at: Time)
    requires Told(b) && HandsOut(b.rows, after, ids, at)
    ensures Told(b.(rows := after, log := b.log + HandOuts(ids, at)))
  {
    var log := b.log + HandOuts(ids, at);
    forall i | 0 <= i < |after|
      ensures RowTold(after[i], Tell(log, after[i].id))
      ensures after[i].id == b.rows[i].id && after[i].slot == b.rows[i].slot
    {
      HandOutRow(b, after, ids, at, i);
    }
    SamePlacesKept(b.rows, after, b.nextId);
    forall id ensures !Tell(log, id).late && !Tell(log, id).twice && (!HasRow(after, id) ==> Tell(log, id) == UNTOLD) {
      if HasRow(b.rows, id) {
        var i :| 0 <= i < |b.rows| && b.rows[i].id == id;
        HandOutRow(b, after, ids, at, i);
      } else {
        TellHandOuts(b.log, ids, at, id);
      }
    }
  }

  lemma {:induction false} MarkedIds(rows: seq<Row>, user: int, agent: string, now: Time, n: nat)
    requires forall i, j | 0 <= i < j < |rows| :: rows[i].id < rows[j].id
    ensures Ascending(Marked(rows, user, agent, now, n))
    ensures forall id :: id in Marked(rows, user, agent, now, n) ==> HasRow(rows, id)
  {
    if rows != [] {
      var take := n > 0 && Eligible(rows[0], user, agent, now);
      var rest := Marked(rows[1..], user, agent, now, if take then n - 1 else n);
      MarkedIds(rows[1..], user, agent, now, if take then n - 1 else n);
      forall id | id in rest ensures HasRow(rows, id) && id > rows[0].id {
        var i :| 0 <= i < |rows[1..]| && rows[1..][i].id == id;
        assert rows[i + 1].id == id;
      }
      if take {
        AscendingCons(rows[0].id, rest);
        assert HasRow(rows, rows[0].id);
      }
    }
  }

  // Exactly the rows that were marked have their ids in the claim.
  lemma {:induction false} MarkedRow(rows: seq<Row>, user: int, agent: string, now: Time, n: nat, i: nat)
    requires i < |rows| && forall i, j | 0 <= i < j < |rows| :: rows[i].id < rows[j].id
    ensures var ids := Marked(rows, user, agent, now, n);
            && (rows[i].id in ids ==> Eligible(rows[i], user, agent, now))
            && Mark(rows, user, agent, now, n)[i] == if rows[i].id in ids then rows[i].(status := Claimed) else rows[i]
  {
    var take := n > 0 && Eligible(rows[0], user, agent, now);
    var m := if take then n - 1 else n;
    var rest := Marked(rows[1..], user, agent, now, m);
    MarkedIds(rows[1..], user, agent, now, m);
    if i == 0 {
      forall k | 0 <= k < |rows[1..]| ensures rows[1..][k].id > rows[0].id {
        assert rows[k + 1].id > rows[0].id;
      }
    } else {
      MarkedRow(rows[1..], user, agent, now, m, i - 1);
      assert rows[1..][i - 1] == rows[i] && rows[0].id < rows[i].id;
    }
  }

  lemma AscendingCons(x: int, rest: seq<int>)
    requires Ascending(rest) && forall id :: id in rest ==> x < id
    ensures Ascending([x] + rest)
  {
    forall i, j | 0 <= i < j < |[x] + rest| ensures ([x] + rest)[i] < ([x] + rest)[j] {
      assert rest[j - 1] in rest;
    }
  }

  lemma MarkTold(b: Box, user: int, agent: string, n: nat)
    requires Told(b)
    ensures var ids := Marked(b.rows, user, agent, b.now, n);
            Told(b.(rows := Mark(b.rows, user, agent, b.now, n), log := b.log + HandOuts(ids, b.now)))
  {
    var ids, after := Marked(b.rows, user, agent, b.now, n), Mark(b.rows, user, agent, b.now, n);
    MarkedIds(b.rows, user, agent, b.now, n);
    forall i | 0 <= i < |b.rows|
      ensures (b.rows[i].id in ids ==> Eligible(b.rows[i], user, agent, b.now))
      ensures after[i] == if b.rows[i].id in ids then b.rows[i].(status := Claimed) else b.rows[i]
    {
      MarkedRow(b.rows, user, agent, b.now, n, i);
    }
    HandOutTold(b, after, ids, b.now);
  }

  // Finishing the one row of this id, while it is live and in time.
  lemma FinishedTold(rows: seq<Row>, log: seq<News>, n: nat, now: Time, status: Status, i: nat)
    requires RowsTold(rows, log) && n < |rows| && i < |rows| && (i != n ==> rows[i].id != rows[n].id)
    requires rows[n].status.Live() && now < rows[n].expiresAt && (status.Completed? || status.Rejected?)
    ensures RowTold(if i == n then rows[i].(status := status) else rows[i],
                    Tell(log + [Finished(rows[n].id, now)], rows[i].id))
  {
    TellMore(log, Finished(rows[n].id, now), rows[i].id);
    assert RowTold(rows[i], Tell(log, rows[i].id));
  }

  lemma FinishedProper(rows: seq<Row>, log: seq<News>, n: nat, now: Time)
    requires RowsTold(rows, log) && Proper(log) && n < |rows| && rows[n].status.Live() && now < rows[n].expiresAt
    ensures Proper(log + [Finished(rows[n].id, now)])
  {
    assert RowTold(rows[n], Tell(log, rows[n].id));
    var more := log + [Finished(rows[n].id, now)];
    forall k ensures !Tell(more, k).late && !Tell(more, k).twice {
      TellMore(log, Finished(rows[n].id, now), k);
    }
  }

  lemma CompleteTold(b: Box, user: int, id: int, rejected: bool)
    requires Told(b)
    ensures Told(Complete(b, user, id, rejected).0)
  {
    if Complete(b, user, id, rejected).1 {
      var n :| 0 <= n < |b.rows| && Completable(b.rows[n], user, id, b.now);
      var status := if rejected then Rejected else Completed;
      SettleOne(b, user, id, status, n);
      FinishTold(b, n, status);
    }
  }

  lemma FinishTold(b: Box, n: nat, status: Status)
    requires Told(b) && n < |b.rows| && forall i :: 0 <= i < |b.rows| && i != n ==> b.rows[i].id != b.rows[n].id
    requires b.rows[n].status.Live() && b.now < b.rows[n].expiresAt && (status.Completed? || status.Rejected?)
    ensures Told(b.(rows := b.rows[n := b.rows[n].(status := status)], log := b.log + [Finished(b.rows[n].id, b.now)]))
  {
    var after := b.rows[n := b.rows[n].(status := status)];
    SamePlacesKept(b.rows, after, b.nextId);
    assert HasRow(b.rows, b.rows[n].id);
    UpdatedUntold(b.rows, b.log, after, Finished(b.rows[n].id, b.now));
    FinishedProper(b.rows, b.log, n, b.now);
    FinishedRowsTold(b.rows, b.log, n, b.now, status);
  }

  // Ids are unique, so settling an id touches one row.
  lemma SettleOne(b: Box, user: int, id: int, status: Status, n: nat)
    requires Ordered(b.rows, b.nextId) && n < |b.rows| && Completable(b.rows[n], user, id, b.now)
    ensures Settle(b.rows, user, id, b.now, status) == b.rows[n := b.rows[n].(status := status)]
    ensures forall i :: 0 <= i < |b.rows| && i != n ==> b.rows[i].id != id
  {
    forall i | 0 <= i < |b.rows| && i != n ensures b.rows[i].id != id {
      assert if i < n then b.rows[i].id < b.rows[n].id else b.rows[n].id < b.rows[i].id;
    }
  }

  lemma FinishedRowsTold(rows: seq<Row>, log: seq<News>, n: nat, now: Time, status: Status)
    requires RowsTold(rows, log) && n < |rows| && forall i :: 0 <= i < |rows| && i != n ==> rows[i].id != rows[n].id
    requires rows[n].status.Live() && now < rows[n].expiresAt && (status.Completed? || status.Rejected?)
    ensures RowsTold(rows[n := rows[n].(status := status)], log + [Finished(rows[n].id, now)])
  {
    forall i | 0 <= i < |rows|
      ensures RowTold(if i == n then rows[i].(status := status) else rows[i],
                    Tell(log + [Finished(rows[n].id, now)], rows[i].id))
    {
      FinishedTold(rows, log, n, now, status, i);
    }
  }

  lemma StepTold(b: Box, op: Op)
    requires Told(b)
    ensures Told(Step(b, op))
  {
    match op
    case TickOp(at) =>
    case EnqueueOp(slot, payload) => EnqueueTold(b, slot, payload);
    case ClaimOp(user, agent, limit) =>
      LapseTold(b, ExpireRows(b.rows, b.now));
      MarkTold(b.(rows := ExpireRows(b.rows, b.now)), user, agent, Limit(limit));
    case CompleteOp(user, id, rejected) => CompleteTold(b, user, id, rejected);
  }

  lemma {:induction false} ExecTold(b: Box, ops: seq<Op>)
    requires Told(b)
    ensures Told(Exec(b, ops))
    decreases |ops|
  {
    if ops != [] {
      StepTold(b, ops[0]);
      ExecTold(Step(b, ops[0]), ops[1..]);
    }
  }

  // ----- the same in terms of the history itself -----

  predicate SameKind(a: News, b: News) { (a.HandedOut? && b.HandedOut?) || (a.Finished? && b.Finished?) }

  // After entry i and with no later enqueue, the story remembers the entry.
  lemma {:induction false} Remembered(log: seq<News>, i: nat, id: int)
    requires i < |log| && log[i].id == id && !log[i].Enqueued?
    requires forall k :: i < k < |log| && log[k].id == id ==> !log[k].Enqueued?
    ensures if log[i].HandedOut? then Tell(log, id).handed > 0 else Tell(log, id).finished > 0
    decreases |log|
  {
    if i < |log| - 1 { Remembered(log[..|log| - 1], i, id); }
  }

  lemma {:induction false} NeverTwice(log: seq<News>, id: int, i: nat, j: nat)
    requires i < j < |log| && log[i].id == id && log[j].id == id && SameKind(log[i], log[j]) && !Tell(log, id).twice
    ensures exists k :: i < k < j && log[k].id == id && log[k].Enqueued?
    decreases |log|
  {
    var front := log[..|log| - 1];
    if j < |log| - 1 {
      NeverTwice(front, id, i, j);
      var k :| i < k < j && front[k].id == id && front[k].Enqueued?;
      assert log[k] == front[k];
    } else if forall k :: i < k < j && log[k].id == id ==> !log[k].Enqueued? {
      Remembered(front, i, id);
    }
  }

  lemma {:induction false} BornAt(log: seq<News>, id: int) returns (k: nat)
    requires Tell(log, id).born.Some?
    ensures k < |log| && log[k] == Enqueued(id, Tell(log, id).born.value)
    ensures forall m :: k < m < |log| && log[m].id == id ==> !log[m].Enqueued?
    decreases |log|
  {
    var last := |log| - 1;
    if log[last].id == id && log[last].Enqueued? {
      k := last;
    } else {
      k := BornAt(log[..last], id);
    }
  }

  lemma {:induction false} NeverLate(log: seq<News>, id: int, j: nat) returns (k: nat)
    requires j < |log| && log[j].id == id && !log[j].Enqueued? && !Tell(log, id).late
    ensures k < j && log[k].Enqueued? && log[k].id == id && log[j].at < log[k].at + TTL
    ensures forall m :: k < m < j && log[m].id == id ==> !log[m].Enqueued?
    decreases |log|
  {
    var front := log[..|log| - 1];
    if j < |log| - 1 {
      k := NeverLate(front, id, j);
    } else {
      k := BornAt(front, id);
    }
  }

  ghost predicate Initial(b: Box) { b.rows == [] && b.log == [] }

  // In every run: of two hand-outs of a row, or two completions, an enqueue of it lies between ...
  lemma AtMostOnce(b: Box, ops: seq<Op>, id: int, i: nat, j: nat)
    requires Initial(b)
    requires var log := Exec(b, ops).log;
             i < j < |log| && log[i].id == id && log[j].id == id && SameKind(log[i], log[j])
    ensures var log := Exec(b, ops).log; exists k :: i < k < j && log[k].id == id && log[k].Enqueued?
  {
    assert forall k :: Tell(b.log, k) == UNTOLD;
    ExecTold(b, ops);
    NeverTwice(Exec(b, ops).log, id, i, j);
  }

  // ... and each of them happens within two minutes of the latest enqueue before it.
  lemma InTime(b: Box, ops: seq<Op>, id: int, j: nat) returns (k: nat)
    requires Initial(b)
    requires var log := Exec(b, ops).log; j < |log| && log[j].id == id && !log[j].Enqueued?
    ensures var log := Exec(b, ops).log;
            && k < j && log[k].Enqueued? && log[k].id == id && log[j].at < log[k].at + TTL
            && forall m :: k < m < j && log[m].id == id ==> !log[m].Enqueued?
  {
    assert forall n :: Tell(b.log, n) == UNTOLD;
    ExecTold(b, ops);
    k := NeverLate(Exec(b, ops).log, id, j);
  }
}

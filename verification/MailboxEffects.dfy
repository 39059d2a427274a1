/**
 What the mailbox statements mean for each row, said of the columns.
 */
module MailboxEffects {
  import opened Basics
  import opened MailboxModel
  import MailboxHistory
  import MailboxConcurrent

  // A claim asks for as many as its limit says, for twenty if that is not between 1 and 50.
  lemma LimitOf(limit: int)
    ensures Limit(limit) == if limit in {0} || limit < 0 || limit >= 51 then 20 else limit
  {}

  // What waits for an agent: pending commands of its own, in time.
  lemma {:induction false} WaitingIff(rows: seq<Row>, user: int, agent: string, now: Time, id: int)
    ensures id in Waiting(rows, user, agent, now) <==>
            exists row :: row in rows && row.id == id && row.slot.user == user && row.slot.agent == agent &&
                          row.status == Pending && row.expiresAt > now
  {
    if rows != [] {
      WaitingIff(rows[1..], user, agent, now, id);
      assert forall row :: row in rows <==> row == rows[0] || row in rows[1..];
    }
  }

  // An enqueue leaves one pending row of its slot, for two minutes, under the row's old id or the next one;
  // every other row stays.
  lemma EnqueueEffect(b: Box, slot: Slot, payload: string, at: nat)
    requires Ordered(b.rows, b.nextId) && at <= |b.rows| && (at < |b.rows| ==> b.rows[at].slot == slot)
    requires at == |b.rows| ==> forall i :: 0 <= i < |b.rows| ==> b.rows[i].slot != slot
    ensures var (c, id) := Enqueue(b, slot, payload);
            && id == (if at < |b.rows| then b.rows[at].id else b.nextId)
            && c.rows == b.rows[..at] + [Row(id, slot, Pending, b.now + 2 * MINUTE, payload)] +
                         (if at < |b.rows| then b.rows[at + 1..] else [])
            && c.now == b.now && c.nextId == b.nextId + 1
  {
    PlaceFound(b.rows, slot, at);
    var id := if at < |b.rows| then b.rows[at].id else b.nextId;
    RowPut(b.rows, at, Row(id, slot, Pending, b.now + TTL, payload));
  }

  lemma RowPut(rows: seq<Row>, at: nat, row: Row)
    requires at <= |rows|
    ensures (if at < |rows| then rows[at := row] else rows + [row]) ==
            rows[..at] + [row] + if at < |rows| then rows[at + 1..] else []
  {}

  lemma PlaceFound(rows: seq<Row>, slot: Slot, at: nat)
    requires at <= |rows| && (at < |rows| ==> rows[at].slot == slot)
    requires at == |rows| ==> forall i :: 0 <= i < |rows| ==> rows[i].slot != slot
    requires forall i, j | 0 <= i < j < |rows| :: rows[i].slot != rows[j].slot
    ensures Find(rows, slot) == if at < |rows| then Some(at) else None
  {
    FindIndex(rows, slot);
  }

  // A claim closes every live row whose time is over, hands out the rows it returns, and leaves the others.
  lemma ClaimEffect(b: Box, user: int, agent: string, limit: int, i: nat)
    requires Ordered(b.rows, b.nextId) && i < |b.rows|
    ensures var (c, ids) := Claim(b, user, agent, limit);
            var row := b.rows[i];
            |c.rows| == |b.rows| &&
            c.rows[i] == if row.status in {Pending, Claimed} && row.expiresAt <= b.now then row.(status := Expired)
                         else if row.id in ids then row.(status := Claimed)
                         else row
  {
    var live := ExpireRows(b.rows, b.now);
    MailboxHistory.SamePlacesKept(b.rows, live, b.nextId);
    MailboxHistory.MarkedRow(live, user, agent, b.now, Limit(limit), i);
  }

  // A completion finds exactly the user's row of this id that is pending or claimed and in time; that row becomes
  // completed or rejected, as it says, and no other changes.
  lemma CompleteEffect(b: Box, user: int, id: int, rejected: bool)
    requires Ordered(b.rows, b.nextId)
    ensures var (c, found) := Complete(b, user, id, rejected);
            && (found <==> exists row :: row in b.rows && Fit(row, user, id, b.now))
            && (!found ==> c == b)
            && (found ==>
                  && |c.rows| == |b.rows|
                  && forall i :: 0 <= i < |b.rows| ==>
                       var row := b.rows[i];
                       c.rows[i] == if Fit(row, user, id, b.now)
                                    then row.(status := if rejected then Rejected else Completed) else row)
  {
    assert forall row: Row :: Fit(row, user, id, b.now) <==> Completable(row, user, id, b.now);
  }

  ghost predicate Fit(row: Row, user: int, id: int, now: Time) {
    row.id == id && row.slot.user == user && row.status in {Pending, Claimed} && row.expiresAt > now
  }

  // ----- a claim that nothing overlaps -----

  lemma {:induction false} FreeIsMarked(rows: seq<Row>, user: int, agent: string, now: Time, n: nat, held: set<int>)
    requires forall row :: row in rows && Eligible(row, user, agent, now) ==> row.id !in held
    ensures MailboxConcurrent.FirstFree(rows, user, agent, now, n, held) ==
            Marked(ExpireRows(rows, now), user, agent, now, n)
  {
    if rows != [] {
      var m := if n > 0 && Eligible(rows[0], user, agent, now) then n - 1 else n;
      FreeIsMarked(rows[1..], user, agent, now, m, held);
      assert rows[0] in rows;
      assert Eligible(Lapse(rows[0], now), user, agent, now) <==> Eligible(rows[0], user, agent, now);
    }
  }

  lemma EndedIsMarked(b: Box, locks: map<int, MailboxConcurrent.TxId>, t: MailboxConcurrent.TxId,
                      user: int, agent: string, n: nat)
    requires Ordered(b.rows, b.nextId) && forall id :: id in locks ==> locks[id] == t
    requires var ids := Marked(ExpireRows(b.rows, b.now), user, agent, b.now, n);
             forall id :: id in locks <==> id in MailboxConcurrent.LapsedIds(b.rows, b.now) || id in ids
    ensures var live := ExpireRows(b.rows, b.now);
            MailboxConcurrent.EndedRows(b.rows, locks, t, Marked(live, user, agent, b.now, n)) ==
            Mark(live, user, agent, b.now, n)
  {
    var live := ExpireRows(b.rows, b.now);
    MailboxHistory.SamePlacesKept(b.rows, live, b.nextId);
    forall i | 0 <= i < |b.rows|
      ensures MailboxConcurrent.Ended(b.rows[i], locks, t, Marked(live, user, agent, b.now, n)) ==
              Mark(live, user, agent, b.now, n)[i]
    {
      MailboxHistory.MarkedRow(live, user, agent, b.now, n, i);
      LapsedIffLocked(b, b.rows[i]);
    }
  }

  // The second statement of a claim, when the rows it has locked so far are just those that have lapsed, and its end.
  lemma ClaimAlone(d: MailboxConcurrent.Desk, t: MailboxConcurrent.TxId, user: int, agent: string, limit: int)
    requires Ordered(d.box.rows, d.box.nextId)
    requires d.open == map[t := MailboxConcurrent.Tx(d.box.now, MailboxConcurrent.Phase.Lapsed, [])]
    requires d.locks.Keys == MailboxConcurrent.LapsedIds(d.box.rows, d.box.now)
    requires forall id :: id in d.locks ==> d.locks[id] == t
    ensures var chosen := MailboxConcurrent.Step(d, MailboxConcurrent.Choose(t, user, agent, limit));
            MailboxConcurrent.Step(chosen, MailboxConcurrent.Commit(t)).box == Claim(d.box, user, agent, limit).0
  {
    forall row | row in d.box.rows && Eligible(row, user, agent, d.box.now) ensures row.id !in d.locks {
      LapsedIffLocked(d.box, row);
    }
    FreeIsMarked(d.box.rows, user, agent, d.box.now, Limit(limit), d.locks.Keys);
    ChosenThenCommitted(d, t, user, agent, limit);
    var ids := MailboxConcurrent.FirstFree(d.box.rows, user, agent, d.box.now, Limit(limit), d.locks.Keys);
    EndedIsMarked(d.box, MailboxConcurrent.Lock(d.locks, (set id | id in ids), t), t, user, agent, Limit(limit));
  }

  lemma ChosenThenCommitted(d: MailboxConcurrent.Desk, t: MailboxConcurrent.TxId, user: int, agent: string, limit: int)
    requires d.open == map[t := MailboxConcurrent.Tx(d.box.now, MailboxConcurrent.Phase.Lapsed, [])]
    ensures var ids := MailboxConcurrent.FirstFree(d.box.rows, user, agent, d.box.now, Limit(limit), d.locks.Keys);
            var locks := MailboxConcurrent.Lock(d.locks, (set id | id in ids), t);
            var chosen := MailboxConcurrent.Step(d, MailboxConcurrent.Choose(t, user, agent, limit));
            MailboxConcurrent.Step(chosen, MailboxConcurrent.Commit(t)).box ==
            d.box.(rows := MailboxConcurrent.EndedRows(d.box.rows, locks, t, ids),
                   log := d.box.log + HandOuts(ids, d.box.now))
  {
    var chosen := MailboxConcurrent.Step(d, MailboxConcurrent.Choose(t, user, agent, limit));
    assert t in chosen.open && chosen.open[t].phase == MailboxConcurrent.Chosen;
  }

  // Ids are unique, so a row's id is among the lapsed exactly if the row has lapsed.
  lemma LapsedIffLocked(b: Box, row: Row)
    requires Ordered(b.rows, b.nextId) && row in b.rows
    ensures row.id in MailboxConcurrent.LapsedIds(b.rows, b.now) <==> row.status.Live() && row.expiresAt <= b.now
  {
    if row.id in MailboxConcurrent.LapsedIds(b.rows, b.now) {
      var r :| r in b.rows && r.status.Live() && r.expiresAt <= b.now && r.id == row.id;
      MailboxConcurrent.OneRow(b, row, r);
    }
  }
}

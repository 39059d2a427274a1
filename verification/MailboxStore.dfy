/**
 The mailbox as an object: the two tables that the statements of agent_repository.go update in place.
 */
module MailboxStore {
  import opened Basics
  import opened MailboxModel
  import opened MailboxHistory
  import MailboxResponses

  function Ids(items: seq<Row>): seq<int> { seq(|items|, i requires 0 <= i < |items| => items[i].id) }

  lemma MarkOne(done: seq<Row>, ids: seq<int>, row: Row, rest: seq<Row>, user: int, agent: string, now: Time, n: nat)
    ensures var take := n > 0 && Eligible(row, user, agent, now);
            var m := if take then n - 1 else n;
            && done + Mark([row] + rest, user, agent, now, n) ==
               done + [if take then row.(status := Claimed) else row] + Mark(rest, user, agent, now, m)
            && ids + Marked([row] + rest, user, agent, now, n) ==
               (if take then ids + [row.id] else ids) + Marked(rest, user, agent, now, m)
  {
    assert ([row] + rest)[1..] == rest;
  }

  // The commands are rows of the table, handed out.
  ghost predicate Taken(items: seq<Row>, rows: seq<Row>) {
    forall i :: 0 <= i < |items| ==> items[i] in rows && items[i].status == Claimed
  }

  lemma TakenMore(items: seq<Row>, rows: seq<Row>, row: Row)
    requires Taken(items, rows)
    ensures Taken(items, rows + [row]) && (row.status == Claimed ==> Taken(items + [row], rows + [row]))
    ensures Ids(items + [row]) == Ids(items) + [row.id]
  {}

  // The pass has come to row i: what is done, and what it would still mark and return, make up the whole.
  ghost predicate Progress(table: seq<Row>, i: nat, done: seq<Row>, items: seq<Row>,
                           user: int, agent: string, now: Time, n: nat, left: nat)
  {
    && i <= |table| && Taken(items, done)
    && done + Mark(table[i..], user, agent, now, left) == Mark(table, user, agent, now, n)
    && Ids(items) + Marked(table[i..], user, agent, now, left) == Marked(table, user, agent, now, n)
  }

  lemma PassOne(table: seq<Row>, i: nat, done: seq<Row>, items: seq<Row>,
                user: int, agent: string, now: Time, n: nat, left: nat)
    requires i < |table| && Progress(table, i, done, items, user, agent, now, n, left)
    ensures var row := table[i];
            if left > 0 && Eligible(row, user, agent, now)
            then var taken := row.(status := Claimed);
                 Progress(table, i + 1, done + [taken], items + [taken], user, agent, now, n, left - 1)
            else Progress(table, i + 1, done + [row], items, user, agent, now, n, left)
  {
    var row := table[i];
    assert table[i..] == [row] + table[i + 1..];
    MarkOne(done, Ids(items), row, table[i + 1..], user, agent, now, left);
    TakenMore(items, done, row);
    TakenMore(items, done, row.(status := Claimed));
  }

  class Mailbox {
    var now: Time
    var nextId: int
    var rows: seq<Row>
    var responses: map<Slot, MailboxResponses.Response>
    ghost var log: seq<News>

    ghost function Contents(): Box
      reads this
    {
      Box(now, nextId, rows, log)
    }

    ghost predicate Valid()
      reads this
    {
      Told(Contents())
    }

    function Shelf(): MailboxResponses.Shelf
      reads this
    {
      MailboxResponses.Shelf(now, responses)
    }

    // The response that a poll of this slot reads now.
    function Stored(slot: Slot): Option<string>
      reads this
    {
      MailboxResponses.Poll(Shelf(), slot)
    }

    constructor ()
      ensures Valid() && rows == [] && log == [] && responses == map[]
    {
      now, nextId, rows, responses, log := 0, 1, [], map[], [];
      new;
      assert forall k :: Tell(log, k) == UNTOLD;
    }

    method EnqueueHapiConnection(slot: Slot, payload: string) returns (item: Row)
      requires Valid()
      modifies this`rows, this`nextId, this`log
      ensures Valid()
      ensures (Contents(), item.id) == Enqueue(old(Contents()), slot, payload)
      ensures item in rows && item == Row(item.id, slot, Pending, now + 2 * MINUTE, payload)
    {
      ghost var place := EnqueuedRow(Contents(), slot, payload);
      ghost var after := Enqueue(Contents(), slot, payload).0;
      FindIndex(rows, slot);
      var at := Find(rows, slot);
      if at.Some? {
        item := Row(rows[at.value].id, slot, Pending, now + 2 * MINUTE, payload);
        rows := rows[at.value := item];
      } else {
        item := Row(nextId, slot, Pending, now + 2 * MINUTE, payload);
        rows := rows + [item];
      }
      nextId := nextId + 1;
      log := log + [Enqueued(item.id, now)];
      assert Contents() == after;
      EnqueueTold(old(Contents()), slot, payload);
    }

    // Lapsed rows of every agent are closed first; then the lowest waiting rows of this agent are taken.
    method ClaimHapiConnections(user: int, agent: string, limit: int) returns (items: seq<Row>)
      requires Valid()
      modifies this`rows, this`log
      ensures Valid()
      ensures (Contents(), Ids(items)) == Claim(old(Contents()), user, agent, limit)
      ensures Taken(items, rows)
    {
      StepTold(Contents(), ClaimOp(user, agent, limit));
      var n := limit;
      if limit < 1 || limit > 50 {
        n := 20;
      }
      rows := ExpireRows(rows, now);
      items := Take(user, agent, n);
      log := log + HandOuts(Ids(items), now);
    }

    // The update hands out the first n eligible rows, in the order of their ids.
    method Take(user: int, agent: string, n: nat) returns (items: seq<Row>)
      modifies this`rows
      ensures rows == Mark(old(rows), user, agent, now, n) && Ids(items) == Marked(old(rows), user, agent, now, n)
      ensures Taken(items, rows)
    {
      rows, items := Pass(rows, user, agent, now, n);
    }

    // One pass over the table.
    static method Pass(table: seq<Row>, user: int, agent: string, now: Time, n: nat)
      returns (done: seq<Row>, items: seq<Row>)
      ensures done == Mark(table, user, agent, now, n) && Ids(items) == Marked(table, user, agent, now, n)
      ensures Taken(items, done)
    {
      var left := n;
      done, items := [], [];
      assert table[0..] == table;
      for i := 0 to |table|
        invariant left >= 0
        invariant Progress(table, i, done, items, user, agent, now, n, left)
      {
        PassOne(table, i, done, items, user, agent, now, n, left);
        var row := table[i];
        if left > 0 && Eligible(row, user, agent, now) {
          row := row.(status := Claimed);
          items := items + [row];
          left := left - 1;
        }
        done := done + [row];
      }
      assert table[|table|..] == [];
    }

    method CompleteHapiConnection(user: int, id: int, rejected: bool) returns (found: bool)
      requires Valid()
      modifies this`rows, this`log
      ensures Valid()
      ensures (Contents(), found) == Complete(old(Contents()), user, id, rejected)
    {
      ghost var after := Complete(Contents(), user, id, rejected).0;
      var status := if rejected then Rejected else Completed;
      found := exists i :: 0 <= i < |rows| && Completable(rows[i], user, id, now);
      if found {
        rows := Settle(rows, user, id, now, status);
        log := log + [Finished(id, now)];
      }
      assert Contents() == after;
      CompleteTold(old(Contents()), user, id, rejected);
    }

    method SaveHapiResponse(slot: Slot, payload: string)
      modifies this`responses
      ensures Shelf() == MailboxResponses.Step(old(Shelf()), MailboxResponses.Save(slot, payload))
      ensures Stored(slot) == Some(payload)
      ensures forall other :: other != slot ==> Stored(other) == old(Stored(other))
    {
      responses := responses[slot := MailboxResponses.Response(payload, now + 5 * MINUTE)];
    }

    method HapiResponse(slot: Slot) returns (r: Option<string>)
      ensures r == MailboxResponses.Poll(Shelf(), slot)
    {
      if slot !in responses {
        return None;
      }
      var item := responses[slot];
      if item.expiresAt <= now {
        return None;
      }
      return Some(item.payload);
    }
  }
}

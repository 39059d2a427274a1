/**
 The usage ledger of shared agents: one row an event, one running total a share and day.
 Record is RecordShareUsage as one atomic transaction.
 */
module UsageModel {
  type ShareId = int
  type Day = int

  datatype Totals = Totals(tasks: int, uploaded: int, downloaded: int)
  {
    function Plus(other: Totals): Totals {
      Totals(tasks + other.tasks, uploaded + other.uploaded, downloaded + other.downloaded)
    }

    // The columns are one 32-bit and two 64-bit integers.
    predicate Fits() {
      tasks <= 0x7fff_ffff && uploaded <= 0x7fff_ffff_ffff_ffff && downloaded <= 0x7fff_ffff_ffff_ffff
    }
  }

  const NOTHING := Totals(0, 0, 0)

  datatype Event = Event(share: ShareId, id: string, day: Day, amount: Totals)

  datatype Report = Report(eventId: string, amount: Totals)
  {
    predicate Valid() {
      0 < |eventId| <= 128 && 0 <= amount.tasks <= 1 && 0 <= amount.uploaded && 0 <= amount.downloaded && amount.Fits()
    }
  }

  // The committed tables, events in the order of their inserts.
  datatype Books = Books(events: seq<Event>, daily: map<(ShareId, Day), Totals>)

  function DailyTotal(b: Books, share: ShareId, day: Day): Totals {
    if (share, day) in b.daily then b.daily[(share, day)] else NOTHING
  }

  predicate Recorded(events: seq<Event>, share: ShareId, id: string) {
    exists i :: 0 <= i < |events| && events[i].share == share && events[i].id == id
  }

  function Counted(e: Event, share: ShareId, day: Day): Totals {
    if e.share == share && e.day == day then e.amount else NOTHING
  }

  // What the events of this share add up to on this day.
  function Sum(events: seq<Event>, share: ShareId, day: Day): Totals {
    if events == [] then NOTHING
    else Sum(events[..|events| - 1], share, day).Plus(Counted(events[|events| - 1], share, day))
  }

  predicate WithinLimit(used: Totals, report: Report, maxPerDay: int) {
    report.amount.tasks > 0 && maxPerDay > 0 ==> used.tasks + report.amount.tasks <= maxPerDay
  }

  datatype Reply = Recording(books: Books, total: Totals) | OverLimit | Overflow

  function Record(b: Books, share: ShareId, day: Day, maxPerDay: int, report: Report): Reply {
    var used := DailyTotal(b, share, day);
    if Recorded(b.events, share, report.eventId) then Recording(b, used)
    else if !WithinLimit(used, report, maxPerDay) then OverLimit
    else
      var total := used.Plus(report.amount);
      if !total.Fits() then Overflow
      else Recording(Entered(b, Event(share, report.eventId, day, report.amount)), total)
  }

  // The books after the two inserts for one new event.
  function Entered(b: Books, e: Event): Books {
    Books(b.events + [e], b.daily[(e.share, e.day) := DailyTotal(b, e.share, e.day).Plus(e.amount)])
  }

  // ----- what the books say -----

  ghost predicate UniqueEvents(events: seq<Event>) {
    forall i, j | 0 <= i < j < |events| :: !(events[i].share == events[j].share && events[i].id == events[j].id)
  }

  // Every total is the sum of its events, and no event is in the books twice.
  ghost predicate Balanced(b: Books) {
    UniqueEvents(b.events) && forall share, day :: DailyTotal(b, share, day) == Sum(b.events, share, day)
  }

  lemma AppendUnique(events: seq<Event>, e: Event)
    requires UniqueEvents(events) && !Recorded(events, e.share, e.id)
    ensures UniqueEvents(events + [e])
  {
    var more := events + [e];
    forall i, j | 0 <= i < j < |more| ensures !(more[i].share == more[j].share && more[i].id == more[j].id) {
      assert more[i] == events[i];
    }
  }

  lemma AppendSum(events: seq<Event>, e: Event, share: ShareId, day: Day)
    ensures Sum(events + [e], share, day) == Sum(events, share, day).Plus(Counted(e, share, day))
  {
    assert (events + [e])[..|events|] == events;
  }

  lemma EnteredTotal(b: Books, e: Event, share: ShareId, day: Day)
    requires DailyTotal(b, share, day) == Sum(b.events, share, day)
    ensures DailyTotal(Entered(b, e), share, day) == Sum(Entered(b, e).events, share, day)
  {
    AppendSum(b.events, e, share, day);
    if e.share == share && e.day == day {
      assert DailyTotal(Entered(b, e), share, day) == DailyTotal(b, share, day).Plus(e.amount);
    } else {
      assert (share, day) != (e.share, e.day);
      assert DailyTotal(Entered(b, e), share, day) == DailyTotal(b, share, day);
    }
  }

  lemma EnteredBalances(b: Books, e: Event)
    requires Balanced(b) && !Recorded(b.events, e.share, e.id)
    ensures Balanced(Entered(b, e))
  {
    AppendUnique(b.events, e);
    forall s, d ensures DailyTotal(Entered(b, e), s, d) == Sum(Entered(b, e).events, s, d) {
      EnteredTotal(b, e, s, d);
    }
  }

  lemma RecordBalances(b: Books, share: ShareId, day: Day, maxPerDay: int, report: Report)
    requires Balanced(b) && Record(b, share, day, maxPerDay, report).Recording?
    ensures Balanced(Record(b, share, day, maxPerDay, report).books)
  {
    if !Recorded(b.events, share, report.eventId) {
      var e := Event(share, report.eventId, day, report.amount);
      EnteredBalances(b, e);
    }
  }

  // A report that was accepted once changes nothing when it is sent again, on that day or any other.
  lemma RecordIsIdempotent(b: Books, share: ShareId, day: Day, max: int, report: Report,
                           day': Day, max': int, amount': Totals)
    requires Record(b, share, day, max, report).Recording?
    ensures var r := Record(b, share, day, max, report).books;
            Record(r, share, day', max', Report(report.eventId, amount')) == Recording(r, DailyTotal(r, share, day'))
  {
    var r := Record(b, share, day, max, report).books;
    if r != b { assert r.events[|b.events|].id == report.eventId; }
  }

  // Taking one event out of the books lowers the total of its own share and day by its amount, and no other total.
  lemma {:induction false} CountedOnce(events: seq<Event>, i: nat, share: ShareId, day: Day)
    requires i < |events|
    ensures Sum(events, share, day) ==
            Sum(events[..i] + events[i + 1..], share, day).Plus(Counted(events[i], share, day))
  {
    var last := |events| - 1;
    if i == last {
      assert events[..i] + events[i + 1..] == events[..last];
    } else {
      var front := events[..last];
      CountedOnce(front, i, share, day);
      var rest := events[..i] + events[i + 1..];
      assert rest[..|rest| - 1] == front[..i] + front[i + 1..];
      assert rest[|rest| - 1] == events[last];
    }
  }
}

/**
 RecordShareUsage as the statements it runs, one after the other, on tables that are updated in place.
 */
module UsageStore {
  import opened Basics
  import opened UsageModel

  datatype UsageError = InvalidUsage | NoLease | DailyLimitReached | DatabaseError

  class Ledger {
    var events: seq<Event>
    var daily: map<(ShareId, Day), Totals>

    ghost function Contents(): Books
      reads this
    {
      Books(events, daily)
    }

    ghost predicate Valid()
      reads this
    {
      Balanced(Contents())
    }

    constructor ()
      ensures Valid() && events == []
    {
      events, daily := [], map[];
    }

    // held is the share of the newest matching lease with its policy limit, locked for this transaction.
    method RecordShareUsage(requestId: string, report: Report, held: Option<(ShareId, int)>, today: Day)
      returns (r: Result<Totals, UsageError>)
      requires Valid()
      modifies this
      ensures Valid()
      ensures requestId == "" || !report.Valid() ==> r == Failure(InvalidUsage) && Contents() == old(Contents())
      ensures requestId != "" && report.Valid() && held.None? ==> r == Failure(NoLease) && Contents() == old(Contents())
      ensures requestId != "" && report.Valid() && held.Some? ==>
                match Record(old(Contents()), held.value.0, today, held.value.1, report)
                case Recording(books, total) => Contents() == books && r == Success(total)
                case OverLimit => Contents() == old(Contents()) && r == Failure(DailyLimitReached)
                case Overflow => Contents() == old(Contents()) && r == Failure(DatabaseError)
    {
      if requestId == "" || !report.Valid() {
        return Failure(InvalidUsage);
      }
      if held.None? {
        return Failure(NoLease);
      }
      var share, limit := held.value.0, held.value.1;
      ghost var before, reply := Contents(), Record(Contents(), share, today, limit, report);
      var duplicate := Recorded(events, share, report.eventId);
      if !duplicate {
        var within := CheckLimit(share, report, limit, today);
        if !within {
          return Failure(DailyLimitReached);
        }
        var fits := InsertUsage(Event(share, report.eventId, today, report.amount));
        if !fits {
          return Failure(DatabaseError);
        }
        assert reply == Recording(Contents(), DailyTotal(Contents(), share, today));
        RecordBalances(before, share, today, limit, report);
      }
      if (share, today) in daily {
        return Success(daily[(share, today)]);
      }
      return Success(NOTHING);
    }

    method CheckLimit(share: ShareId, report: Report, limit: int, today: Day) returns (within: bool)
      ensures within <==> WithinLimit(DailyTotal(Contents(), share, today), report, limit)
    {
      if report.amount.tasks <= 0 || limit <= 0 {
        return true;
      }
      var used := 0;
      if (share, today) in daily {
        used := daily[(share, today)].tasks;
      }
      return used + report.amount.tasks <= limit;
    }

    // The two inserts; the second fails when a column would overflow, and then neither stays.
    method InsertUsage(e: Event) returns (fits: bool)
      requires e.amount.Fits()
      modifies this
      ensures fits <==> DailyTotal(old(Contents()), e.share, e.day).Plus(e.amount).Fits()
      ensures Contents() == if fits then Entered(old(Contents()), e) else old(Contents())
    {
      var before := events;
      events := events + [e];
      var total := e.amount;
      if (e.share, e.day) in daily {
        total := daily[(e.share, e.day)].Plus(e.amount);
      }
      if !total.Fits() {
        events := before;
        return false;
      }
      daily := daily[(e.share, e.day) := total];
      return true;
    }
  }
}

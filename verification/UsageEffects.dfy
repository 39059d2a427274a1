/**
 What recording a report means, said of the events alone, and that a transaction nobody disturbs does it.
 */
module UsageEffects {
  import opened UsageModel
  import UsageInterleaving

  // A report names an event of 1 to 128 characters, at most one task, and amounts that the columns hold.
  lemma ReportIsValid(r: Report)
    ensures r.Valid() <==>
            && 1 <= |r.eventId| <= 128 && r.amount.tasks in {0, 1}
            && 0 <= r.amount.uploaded < 0x8000_0000_0000_0000 && 0 <= r.amount.downloaded < 0x8000_0000_0000_0000
  {}

  ghost predicate Known(events: seq<Event>, share: ShareId, id: string) {
    exists e :: e in events && e.share == share && e.id == id
  }

  // A new report is refused exactly when its task would take the day's sum over the limit.
  lemma RefusedOverTheLimit(b: Books, share: ShareId, day: Day, max: int, report: Report)
    requires Balanced(b)
    ensures Record(b, share, day, max, report) == OverLimit <==>
            && !Known(b.events, share, report.eventId) && report.amount.tasks > 0 && max > 0
            && max < Sum(b.events, share, day).tasks + report.amount.tasks
  {
    KnownIsRecorded(b.events, share, report.eventId);
    assert DailyTotal(b, share, day) == Sum(b.events, share, day);
  }

  lemma KnownIsRecorded(events: seq<Event>, share: ShareId, id: string)
    ensures Known(events, share, id) <==> Recorded(events, share, id)
  {
    if Known(events, share, id) {
      var e :| e in events && e.share == share && e.id == id;
      var i :| 0 <= i < |events| && events[i] == e;
    }
  }

  // Otherwise it becomes one more event of its share and the day, and the reply is the day's sum with it.
  lemma RecordedAsEvent(b: Books, share: ShareId, day: Day, max: int, report: Report)
    requires Balanced(b)
    ensures var r, sum := Record(b, share, day, max, report), Sum(b.events, share, day);
            && !Known(b.events, share, report.eventId)
            && (report.amount.tasks > 0 && max > 0 ==> sum.tasks + report.amount.tasks <= max)
            && sum.tasks + report.amount.tasks < 0x8000_0000
            && sum.uploaded + report.amount.uploaded < 0x8000_0000_0000_0000
            && sum.downloaded + report.amount.downloaded < 0x8000_0000_0000_0000 ==>
              && r.Recording? && r.books.events == b.events + [Event(share, report.eventId, day, report.amount)]
              && r.total == Totals(sum.tasks + report.amount.tasks, sum.uploaded + report.amount.uploaded,
                                   sum.downloaded + report.amount.downloaded)
  {
    KnownIsRecorded(b.events, share, report.eventId);
    assert DailyTotal(b, share, day) == Sum(b.events, share, day);
  }

  function Next(w: UsageInterleaving.World, t: UsageInterleaving.TxId): UsageInterleaving.World {
    UsageInterleaving.Step(w, UsageInterleaving.Proceed(t))
  }

  // A transaction whose statements run in a row records the report, or is refused, as the atomic recording does.
  lemma AloneIsRecord(w: UsageInterleaving.World, t: UsageInterleaving.TxId, share: ShareId, report: Report)
    requires t !in w.open && share in w.policies && w.policies[share] != [] && report.Valid()
    requires forall u :: u in w.open ==> w.open[u].share != share
    ensures var begun := UsageInterleaving.Step(w, UsageInterleaving.Begin(t, share, report));
            var v := Next(Next(Next(Next(Next(begun, t), t), t), t), t);
            var r := Record(w.books, share, w.today, w.policies[share][|w.policies[share]| - 1], report);
            t !in v.open && v.books == if r.Recording? then r.books else w.books
  {
    var begun := UsageInterleaving.Step(w, UsageInterleaving.Begin(t, share, report));
    var duplicate := Recorded(w.books.events, share, report.eventId);
    var looked := Next(begun, t);
    assert looked.open[t].phase == UsageInterleaving.Looked(duplicate) && looked.books == w.books;
    var cleared := Next(looked, t);
    if t in cleared.open {
      assert cleared.open[t].phase == UsageInterleaving.Cleared(duplicate) && cleared.books == w.books;
    }
  }
}

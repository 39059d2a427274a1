/**
 RecordShareUsage transactions interleaved statement by statement. Each holds the lock of its share's row from its
 first statement to its end, as does an update of the share's policy; the books change only when a transaction commits.
 */
module UsageInterleaving {
  import opened UsageModel

  type TxId = int

  datatype Phase =
    | Locked
    | Looked(duplicate: bool)
    | Cleared(duplicate: bool)
    | Inserted
    | Ready(duplicate: bool, total: Totals)

  datatype Tx =
    | Use(share: ShareId, report: Report, limit: int, day: Day, phase: Phase)
    | Repolicy(share: ShareId, limit: int)

  // policies keeps every limit a share has had, the current one last.
  datatype World = World(today: Day, books: Books, policies: map<ShareId, seq<int>>, open: map<TxId, Tx>)

  datatype Act =
    | NextDay
    | CreateShare(share: ShareId, limit: int)
    | Begin(tx: TxId, share: ShareId, report: Report)
    | BeginUpdate(tx: TxId, share: ShareId, limit: int)
    | Proceed(tx: TxId)
    | Abort(tx: TxId)

  predicate Free(w: World, share: ShareId) { forall t :: t in w.open ==> w.open[t].share != share }

  function Limit(w: World, share: ShareId): int
    requires share in w.policies && w.policies[share] != []
  {
    w.policies[share][|w.policies[share]| - 1]
  }

  function Drop(w: World, t: TxId): World { w.(open := map k | k in w.open && k != t :: w.open[k]) }

  function Advance(w: World, t: TxId, phase: Phase): World
    requires t in w.open && w.open[t].Use?
  {
    w.(open := w.open[t := w.open[t].(phase := phase)])
  }

  // The next statement of transaction t. The date is taken after the lock, the limit is read with it.
  function NextStatement(w: World, t: TxId): World
    requires t in w.open
  {
    match w.open[t]
    case Repolicy(share, limit) =>
      var known := if share in w.policies then w.policies[share] else [];
      Drop(w, t).(policies := w.policies[share := known + [limit]])
    case Use(share, report, limit, day, phase) =>
      var used := DailyTotal(w.books, share, day);
      match phase
      case Locked =>
        var recorded := Recorded(w.books.events, share, report.eventId);
        w.(open := w.open[t := w.open[t].(day := w.today, phase := Looked(recorded))])
      case Looked(duplicate) =>
        if !duplicate && !WithinLimit(used, report, limit) then Drop(w, t) else Advance(w, t, Cleared(duplicate))
      case Cleared(duplicate) =>
        if duplicate then Advance(w, t, Ready(true, used))
        else if Recorded(w.books.events, share, report.eventId) then Drop(w, t)
        else Advance(w, t, Inserted)
      case Inserted =>
        var total := used.Plus(report.amount);
        if total.Fits() then Advance(w, t, Ready(false, total)) else Drop(w, t)
      case Ready(duplicate, total) =>
        if duplicate then Drop(w, t)
        else Drop(w, t).(books := Books(w.books.events + [Event(share, report.eventId, day, report.amount)],
                                        w.books.daily[(share, day) := total]))
  }

  function Step(w: World, a: Act): World {
    match a
    case NextDay => w.(today := w.today + 1)
    case CreateShare(share, limit) => if share in w.policies then w else w.(policies := w.policies[share := [limit]])
    case Begin(t, share, report) =>
      if t !in w.open && share in w.policies && w.policies[share] != [] && Free(w, share) && report.Valid()
      then w.(open := w.open[t := Use(share, report, Limit(w, share), w.today, Locked)]) else w
    case BeginUpdate(t, share, limit) =>
      if t !in w.open && share in w.policies && Free(w, share)
      then w.(open := w.open[t := Repolicy(share, limit)]) else w
    case Proceed(t) => if t in w.open then NextStatement(w, t) else w
    case Abort(t) => if t in w.open then Drop(w, t) else w
  }

  function Exec(w: World, acts: seq<Act>): World
    decreases |acts|
  {
    if acts == [] then w else Exec(Step(w, acts[0]), acts[1..])
  }

  // ----- what every interleaving keeps -----

  ghost predicate OneHolder(w: World) {
    forall t, u | t in w.open && u in w.open && w.open[t].share == w.open[u].share :: t == u
  }

  // What a transaction has read still holds of the committed books: nobody else can have written to its share.
  ghost predicate Fresh(w: World, x: Tx) {
    x.share in w.policies &&
    (x.Use? ==>
       var used := DailyTotal(w.books, x.share, x.day);
       var recorded := Recorded(w.books.events, x.share, x.report.eventId);
       w.policies[x.share] != [] && x.limit == Limit(w, x.share) && x.report.Valid() &&
       match x.phase
       case Locked => true
       case Looked(duplicate) => duplicate == recorded
       case Cleared(duplicate) => duplicate == recorded && (!duplicate ==> WithinLimit(used, x.report, x.limit))
       case Inserted => !recorded && WithinLimit(used, x.report, x.limit)
       case Ready(duplicate, total) =>
         duplicate == recorded &&
         if duplicate then total == used
         else WithinLimit(used, x.report, x.limit) && total == used.Plus(x.report.amount) && total.Fits())
  }

  // The tasks of a day stay within the largest limit the share has had, unless it once had none.
  ghost predicate Allowed(w: World, share: ShareId, tasks: int) {
    tasks <= 0 || (share in w.policies && exists p :: p in w.policies[share] && (p <= 0 || tasks <= p))
  }

  ghost predicate Consistent(w: World) {
    && Balanced(w.books) && OneHolder(w)
    && (forall s :: s in w.policies ==> w.policies[s] != [])
    && (forall t :: t in w.open ==> Fresh(w, w.open[t]))
    && (forall share, day :: Allowed(w, share, DailyTotal(w.books, share, day).tasks))
  }

  // A transaction of another share is not disturbed by a commit.
  lemma FreshElsewhere(w: World, v: World, x: Tx)
    requires Fresh(w, x)
    requires x.share in v.policies && v.policies[x.share] == w.policies[x.share]
    requires forall day :: DailyTotal(v.books, x.share, day) == DailyTotal(w.books, x.share, day)
    requires forall id :: Recorded(v.books.events, x.share, id) == Recorded(w.books.events, x.share, id)
    ensures Fresh(v, x)
  {}

  // The heart of it: what a transaction commits is exactly what Record would do at that moment.
  lemma CommitIsRecord(w: World, t: TxId)
    requires Consistent(w) && t in w.open && w.open[t].Use? && w.open[t].phase.Ready?
    ensures var x := w.open[t];
            Record(w.books, x.share, x.day, Limit(w, x.share), x.report) ==
            Recording(NextStatement(w, t).books, x.phase.total)
  {
    assert Fresh(w, w.open[t]);
  }

  // A transaction that stops at the limit is one Record refuses at that moment.
  lemma RefusalIsRecord(w: World, t: TxId)
    requires Consistent(w) && t in w.open && w.open[t].Use? && w.open[t].phase.Looked?
    ensures var x := w.open[t];
            t !in NextStatement(w, t).open <==>
            Record(w.books, x.share, x.day, Limit(w, x.share), x.report) == OverLimit
  {
    assert Fresh(w, w.open[t]);
  }

  // Under the lock the primary key of the event table is never violated.
  lemma InsertNeverClashes(w: World, t: TxId)
    requires Consistent(w) && t in w.open && w.open[t].Use? && w.open[t].phase.Cleared?
    ensures t in NextStatement(w, t).open
  {
    assert Fresh(w, w.open[t]);
  }

  lemma DropConsistent(w: World, t: TxId)
    requires Consistent(w)
    ensures Consistent(Drop(w, t))
  {
    forall u | u in Drop(w, t).open ensures Fresh(Drop(w, t), w.open[u]) { assert Fresh(w, w.open[u]); }
    forall share, day ensures Allowed(Drop(w, t), share, DailyTotal(w.books, share, day).tasks) {
      assert Allowed(w, share, DailyTotal(w.books, share, day).tasks);
    }
  }

  lemma PutConsistent(w: World, t: TxId, x: Tx)
    requires Consistent(w) && Fresh(w, x)
    requires forall u :: u in w.open && w.open[u].share == x.share ==> u == t
    ensures Consistent(w.(open := w.open[t := x]))
  {
    var v := w.(open := w.open[t := x]);
    forall u | u in v.open ensures Fresh(v, v.open[u]) { if u != t { assert Fresh(w, w.open[u]); } }
    forall share, day ensures Allowed(v, share, DailyTotal(v.books, share, day).tasks) {
      assert Allowed(w, share, DailyTotal(w.books, share, day).tasks);
    }
  }

  lemma CommitConsistent(w: World, t: TxId)
    requires Consistent(w) && t in w.open && w.open[t].Use? && w.open[t].phase.Ready? && !w.open[t].phase.duplicate
    ensures Consistent(NextStatement(w, t))
  {
    var x := w.open[t];
    var v := NextStatement(w, t);
    assert Fresh(w, x);
    RecordBalances(w.books, x.share, x.day, x.limit, x.report);
    assert v.books == Record(w.books, x.share, x.day, x.limit, x.report).books;
    forall u | u in v.open ensures Fresh(v, v.open[u]) {
      var y := w.open[u];
      assert Fresh(w, y) && y.share != x.share;
      forall id ensures Recorded(v.books.events, y.share, id) == Recorded(w.books.events, y.share, id) {
        RecordedAppend(w.books.events, Event(x.share, x.report.eventId, x.day, x.report.amount), y.share, id);
      }
      FreshElsewhere(w, v, y);
    }
    forall share, day ensures Allowed(v, share, DailyTotal(v.books, share, day).tasks) {
      assert Allowed(w, share, DailyTotal(w.books, share, day).tasks);
      if share == x.share && day == x.day && x.report.amount.tasks > 0 {
        assert Limit(w, share) in v.policies[share];
      }
    }
  }

  lemma RecordedAppend(events: seq<Event>, e: Event, share: ShareId, id: string)
    ensures Recorded(events + [e], share, id) <==> Recorded(events, share, id) || (e.share == share && e.id == id)
  {
    var more := events + [e];
    if Recorded(events, share, id) {
      var i :| 0 <= i < |events| && events[i].share == share && events[i].id == id;
      assert more[i] == events[i];
    }
    assert more[|events|] == e;
  }

  lemma AllowedMore(w: World, v: World, share: ShareId, tasks: int)
    requires Allowed(w, share, tasks)
    requires share in w.policies ==> share in v.policies && w.policies[share] <= v.policies[share]
    ensures Allowed(v, share, tasks)
  {
    if tasks > 0 {
      var p :| p in w.policies[share] && (p <= 0 || tasks <= p);
      assert p in v.policies[share];
    }
  }

  lemma PolicyConsistent(w: World, share: ShareId, limits: seq<int>)
    requires Consistent(w) && Free(w, share) && limits != []
    requires share in w.policies ==> w.policies[share] <= limits
    ensures Consistent(w.(policies := w.policies[share := limits]))
  {
    var v := w.(policies := w.policies[share := limits]);
    forall u | u in v.open ensures Fresh(v, v.open[u]) {
      assert Fresh(w, w.open[u]);
      FreshElsewhere(w, v, w.open[u]);
    }
    forall s, day ensures Allowed(v, s, DailyTotal(v.books, s, day).tasks) {
      AllowedMore(w, v, s, DailyTotal(w.books, s, day).tasks);
    }
  }

  lemma StatementConsistent(w: World, t: TxId)
    requires Consistent(w) && t in w.open
    ensures Consistent(NextStatement(w, t))
  {
    var x := w.open[t];
    assert Fresh(w, x);
    DropConsistent(w, t);
    if x.Repolicy? {
      PolicyConsistent(Drop(w, t), x.share, w.policies[x.share] + [x.limit]);
    } else if x.phase.Ready? {
      if !x.phase.duplicate { CommitConsistent(w, t); }
    } else if t in NextStatement(w, t).open {
      PutConsistent(w, t, NextStatement(w, t).open[t]);
      assert NextStatement(w, t) == w.(open := w.open[t := NextStatement(w, t).open[t]]);
    } else {
      assert NextStatement(w, t) == Drop(w, t);
    }
  }

  lemma StepConsistent(w: World, a: Act)
    requires Consistent(w)
    ensures Consistent(Step(w, a))
  {
    match a
    case NextDay => DayConsistent(w);
    case CreateShare(share, limit) =>
      if share !in w.policies {
        forall t | t in w.open ensures w.open[t].share != share { assert Fresh(w, w.open[t]); }
        PolicyConsistent(w, share, [limit]);
      }
    case Begin(t, share, report) =>
      if Step(w, a) != w { PutConsistent(w, t, Use(share, report, Limit(w, share), w.today, Locked)); }
    case BeginUpdate(t, share, limit) => if Step(w, a) != w { PutConsistent(w, t, Repolicy(share, limit)); }
    case Proceed(t) => if t in w.open { StatementConsistent(w, t); }
    case Abort(t) => DropConsistent(w, t);
  }

  lemma DayConsistent(w: World)
    requires Consistent(w)
    ensures Consistent(w.(today := w.today + 1))
  {
    var v := w.(today := w.today + 1);
    forall t | t in v.open ensures Fresh(v, v.open[t]) { assert Fresh(w, w.open[t]); }
    forall s, day ensures Allowed(v, s, DailyTotal(v.books, s, day).tasks) {
      assert Allowed(w, s, DailyTotal(w.books, s, day).tasks);
    }
  }

  lemma {:induction false} ExecConsistent(w: World, acts: seq<Act>)
    requires Consistent(w)
    ensures Consistent(Exec(w, acts))
    decreases |acts|
  {
    if acts != [] {
      StepConsistent(w, acts[0]);
      ExecConsistent(Step(w, acts[0]), acts[1..]);
    }
  }

  ghost predicate Initial(w: World) { w.books == Books([], map[]) && w.policies == map[] && w.open == map[] }

  // Whatever the interleaving, each total is the sum of its share's events of that day and counts no event twice,
  // and a day's tasks never exceed the largest limit its share has had, unless the share once had no limit.
  lemma LedgerSound(w: World, acts: seq<Act>, share: ShareId, day: Day)
    requires Initial(w)
    ensures var v := Exec(w, acts);
            && UniqueEvents(v.books.events)
            && DailyTotal(v.books, share, day) == Sum(v.books.events, share, day)
            && Allowed(v, share, Sum(v.books.events, share, day).tasks)
  {
    ExecConsistent(w, acts);
  }

  // Each event in the books of a run counts once: without it the total of its own share and day is lower by its amount,
  // every other total is the same, and no other event has its share and id.
  lemma EachEventCountsOnce(w: World, acts: seq<Act>, i: nat, share: ShareId, day: Day)
    requires Initial(w) && i < |Exec(w, acts).books.events|
    ensures var b := Exec(w, acts).books;
            && DailyTotal(b, share, day) ==
               Sum(b.events[..i] + b.events[i + 1..], share, day).Plus(Counted(b.events[i], share, day))
            && !Recorded(b.events[..i] + b.events[i + 1..], b.events[i].share, b.events[i].id)
  {
    LedgerSound(w, acts, share, day);
    var events := Exec(w, acts).books.events;
    CountedOnce(events, i, share, day);
    var rest := events[..i] + events[i + 1..];
    forall j | 0 <= j < |rest| ensures !(rest[j].share == events[i].share && rest[j].id == events[i].id) {
      assert rest[j] == if j < i then events[j] else events[j + 1];
    }
  }

  // The limits a policy can hold once it came through normalizeSharePolicy.
  predicate Normalized(limit: int) { 1 <= limit <= 1000 }

  predicate NormalizedAct(a: Act) { a.CreateShare? || a.BeginUpdate? ==> Normalized(a.limit) }

  ghost predicate AllNormalized(w: World) {
    && (forall s :: s in w.policies ==> forall p :: p in w.policies[s] ==> Normalized(p))
    && (forall t :: t in w.open && w.open[t].Repolicy? ==> Normalized(w.open[t].limit))
  }

  lemma StepNormalized(w: World, a: Act)
    requires AllNormalized(w) && NormalizedAct(a)
    ensures AllNormalized(Step(w, a))
  {
    var v := Step(w, a);
    forall s, p | s in v.policies && p in v.policies[s] ensures Normalized(p) {
      if s in w.policies && p in w.policies[s] { assert Normalized(p); }
    }
  }

  lemma {:induction false} ExecNormalized(w: World, acts: seq<Act>)
    requires AllNormalized(w) && forall i :: 0 <= i < |acts| ==> NormalizedAct(acts[i])
    ensures AllNormalized(Exec(w, acts))
    decreases |acts|
  {
    if acts != [] {
      StepNormalized(w, acts[0]);
      ExecNormalized(Step(w, acts[0]), acts[1..]);
    }
  }

  // With the policies the API lets through, no day of a share ever has more than 1000 tasks.
  lemma LedgerUnderNormalizedPolicies(w: World, acts: seq<Act>, share: ShareId, day: Day)
    requires Initial(w) && forall i :: 0 <= i < |acts| ==> NormalizedAct(acts[i])
    ensures DailyTotal(Exec(w, acts).books, share, day).tasks <= 1000
  {
    LedgerSound(w, acts, share, day);
    ExecNormalized(w, acts);
    var v := Exec(w, acts);
    assert Allowed(v, share, DailyTotal(v.books, share, day).tasks);
  }

  // ----- serializability -----

  datatype Call = Call(share: ShareId, day: Day, limit: int, report: Report)

  // The transactions that write, in the order in which they commit.
  function Commits(w: World, acts: seq<Act>): seq<Call>
    decreases |acts|
  {
    if acts == [] then []
    else
      var here := if acts[0].Proceed? && acts[0].tx in w.open && w.open[acts[0].tx].Use? &&
                     w.open[acts[0].tx].phase.Ready? && !w.open[acts[0].tx].phase.duplicate
                  then var x := w.open[acts[0].tx]; [Call(x.share, x.day, x.limit, x.report)] else [];
      here + Commits(Step(w, acts[0]), acts[1..])
  }

  // The calls run one at a time.
  function Serial(b: Books, calls: seq<Call>): Books
    decreases |calls|
  {
    if calls == [] then b
    else
      var r := Record(b, calls[0].share, calls[0].day, calls[0].limit, calls[0].report);
      Serial(if r.Recording? then r.books else b, calls[1..])
  }

  // Every interleaving leaves the books as running the committed calls one after the other would.
  lemma {:induction false} Serializable(w: World, acts: seq<Act>)
    requires Consistent(w)
    ensures Exec(w, acts).books == Serial(w.books, Commits(w, acts))
    decreases |acts|
  {
    if acts != [] {
      var v := Step(w, acts[0]);
      StepConsistent(w, acts[0]);
      Serializable(v, acts[1..]);
      var rest := Commits(v, acts[1..]);
      if acts[0].Proceed? && acts[0].tx in w.open && w.open[acts[0].tx].Use? &&
         w.open[acts[0].tx].phase.Ready? && !w.open[acts[0].tx].phase.duplicate
      {
        var x := w.open[acts[0].tx];
        var call := Call(x.share, x.day, x.limit, x.report);
        assert Fresh(w, x);
        CommitIsRecord(w, acts[0].tx);
        assert Commits(w, acts) == [call] + rest;
        assert ([call] + rest)[1..] == rest;
      } else {
        assert v.books == w.books;
        assert Commits(w, acts) == [] + rest == rest;
      }
    }
  }
}

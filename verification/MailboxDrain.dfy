/**
 How commands are handed out over a run: an agent's claims take its waiting commands in the order of their ids,
 however the clock and the traffic of other agents run between them.
 */
module MailboxDrain {
  import opened Basics
  import opened MailboxModel

  // This step brings the agent no new command, finishes none that waits, and lets none of them expire.
  ghost predicate Quiet(b: Box, op: Op, user: int, agent: string) {
    match op
    case TickOp(at) => forall row :: row in b.rows && Eligible(row, user, agent, b.now) ==> at < row.expiresAt
    case EnqueueOp(slot, _) => slot.user != user || slot.agent != agent
    case ClaimOp(_, _, _) => true
    case CompleteOp(_, id, _) => id !in Waiting(b.rows, user, agent, b.now)
  }

  ghost predicate QuietRun(b: Box, ops: seq<Op>, user: int, agent: string)
    decreases |ops|
  {
    ops == [] || (Quiet(b, ops[0], user, agent) && QuietRun(Step(b, ops[0]), ops[1..], user, agent))
  }

  predicate Own(op: Op, user: int, agent: string) { op.ClaimOp? && op.user == user && op.agent == agent }

  // All ids handed out to the agent, in the order in which it got them.
  function HandedOver(b: Box, ops: seq<Op>, user: int, agent: string): seq<int>
    decreases |ops|
  {
    if ops == [] then []
    else (if Own(ops[0], user, agent) then Claim(b, user, agent, ops[0].limit).1 else []) +
         HandedOver(Step(b, ops[0]), ops[1..], user, agent)
  }

  // How many commands the agent's claims ask for.
  function Asked(ops: seq<Op>, user: int, agent: string): nat {
    if ops == [] then 0
    else (if Own(ops[0], user, agent) then Limit(ops[0].limit) else 0) + Asked(ops[1..], user, agent)
  }

  function Claims(ops: seq<Op>, user: int, agent: string): nat {
    if ops == [] then 0 else (if Own(ops[0], user, agent) then 1 else 0) + Claims(ops[1..], user, agent)
  }

  // ----- what leaves the waiting commands as they are -----

  lemma {:induction false} SameWaiting(rows: seq<Row>, after: seq<Row>, user: int, agent: string,
                                       now: Time, later: Time)
    requires |after| == |rows|
    requires forall i :: 0 <= i < |rows| ==> after[i].id == rows[i].id
    requires forall i :: 0 <= i < |rows| ==>
                           (Eligible(after[i], user, agent, later) <==> Eligible(rows[i], user, agent, now))
    ensures Waiting(after, user, agent, later) == Waiting(rows, user, agent, now)
  {
    if rows != [] { SameWaiting(rows[1..], after[1..], user, agent, now, later); }
  }

  lemma {:induction false} WaitingAppend(rows: seq<Row>, row: Row, user: int, agent: string, now: Time)
    ensures Waiting(rows + [row], user, agent, now) ==
            Waiting(rows, user, agent, now) + if Eligible(row, user, agent, now) then [row.id] else []
  {
    if rows != [] {
      assert (rows + [row])[1..] == rows[1..] + [row];
      WaitingAppend(rows[1..], row, user, agent, now);
    }
  }

  lemma QuietTick(b: Box, at: Time, user: int, agent: string)
    requires Quiet(b, TickOp(at), user, agent)
    ensures var c := Step(b, TickOp(at)); Waiting(c.rows, user, agent, c.now) == Waiting(b.rows, user, agent, b.now)
  {
    if b.now <= at { SameWaiting(b.rows, b.rows, user, agent, b.now, at); }
  }

  lemma QuietEnqueue(b: Box, slot: Slot, payload: string, user: int, agent: string)
    requires slot.user != user || slot.agent != agent
    ensures Waiting(Enqueue(b, slot, payload).0.rows, user, agent, b.now) == Waiting(b.rows, user, agent, b.now)
  {
    var c := Enqueue(b, slot, payload).0;
    FindIndex(b.rows, slot);
    if Find(b.rows, slot).Some? {
      SameWaiting(b.rows, c.rows, user, agent, b.now, b.now);
    } else {
      WaitingAppend(b.rows, c.rows[|b.rows|], user, agent, b.now);
    }
  }

  lemma QuietComplete(b: Box, who: int, id: int, rejected: bool, user: int, agent: string)
    requires id !in Waiting(b.rows, user, agent, b.now)
    ensures Waiting(Complete(b, who, id, rejected).0.rows, user, agent, b.now) == Waiting(b.rows, user, agent, b.now)
  {
    forall i | 0 <= i < |b.rows| && Eligible(b.rows[i], user, agent, b.now) ensures b.rows[i].id != id {
      EligibleWaits(b.rows, user, agent, b.now, i);
    }
    SameWaiting(b.rows, Complete(b, who, id, rejected).0.rows, user, agent, b.now, b.now);
  }

  lemma {:induction false} OthersMarked(rows: seq<Row>, who: int, whose: string, now: Time, n: nat,
                                        user: int, agent: string)
    requires who != user || whose != agent
    ensures Waiting(Mark(rows, who, whose, now, n), user, agent, now) == Waiting(rows, user, agent, now)
  {
    if rows != [] {
      var m := if n > 0 && Eligible(rows[0], who, whose, now) then n - 1 else n;
      OthersMarked(rows[1..], who, whose, now, m, user, agent);
      assert Mark(rows, who, whose, now, n)[1..] == Mark(rows[1..], who, whose, now, m);
    }
  }

  lemma QuietClaim(b: Box, who: int, whose: string, limit: int, user: int, agent: string)
    requires who != user || whose != agent
    ensures Waiting(Claim(b, who, whose, limit).0.rows, user, agent, b.now) == Waiting(b.rows, user, agent, b.now)
  {
    ExpiredWaiting(b.rows, user, agent, b.now);
    OthersMarked(ExpireRows(b.rows, b.now), who, whose, b.now, Limit(limit), user, agent);
  }

  lemma QuietStep(b: Box, op: Op, user: int, agent: string)
    requires Quiet(b, op, user, agent) && !Own(op, user, agent)
    ensures var c := Step(b, op); Waiting(c.rows, user, agent, c.now) == Waiting(b.rows, user, agent, b.now)
  {
    match op
    case TickOp(at) => QuietTick(b, at, user, agent);
    case EnqueueOp(slot, payload) => QuietEnqueue(b, slot, payload, user, agent);
    case ClaimOp(who, whose, limit) => QuietClaim(b, who, whose, limit, user, agent);
    case CompleteOp(who, id, rejected) => QuietComplete(b, who, id, rejected, user, agent);
  }

  // ----- draining -----

  lemma TakeMore<T>(w: seq<T>, first: nat, more: nat)
    ensures var got := Least(first, |w|);
            var rest := w[got..];
            var next := Least(more, |rest|);
            var taken := Least(first + more, |w|);
            w[..got] + rest[..next] == w[..taken] && rest[next..] == w[taken..]
  {}

  // Over any quiet run the agent is handed exactly the first waiting commands, as many as its claims ask for,
  // each once and in order; the others go on waiting.
  lemma {:induction false} ClaimsDrain(b: Box, ops: seq<Op>, user: int, agent: string)
    requires QuietRun(b, ops, user, agent)
    ensures var w, c := Waiting(b.rows, user, agent, b.now), Exec(b, ops);
            var taken := Least(Asked(ops, user, agent), |w|);
            HandedOver(b, ops, user, agent) == w[..taken] && Waiting(c.rows, user, agent, c.now) == w[taken..]
    decreases |ops|
  {
    if ops != [] {
      var w := Waiting(b.rows, user, agent, b.now);
      var c, more := Step(b, ops[0]), Asked(ops[1..], user, agent);
      ClaimsDrain(c, ops[1..], user, agent);
      if Own(ops[0], user, agent) {
        ClaimTakesLowest(b, user, agent, ops[0].limit);
        TakeMore(w, Limit(ops[0].limit), more);
      } else {
        QuietStep(b, ops[0], user, agent);
      }
    }
  }

  function Ceiling(n: nat, limit: nat): nat
    requires limit > 0
  {
    (n + limit - 1) / limit
  }

  lemma CeilingCovers(n: nat, limit: nat)
    requires limit > 0
    ensures Ceiling(n, limit) * limit >= n
  {
    var k := n + limit - 1;
    assert k / limit * limit == k - k % limit;
  }

  lemma {:induction false} AskedAtLeast(ops: seq<Op>, user: int, agent: string, limit: nat)
    requires forall i :: 0 <= i < |ops| && Own(ops[i], user, agent) ==> Limit(ops[i].limit) >= limit
    ensures Asked(ops, user, agent) >= Claims(ops, user, agent) * limit
  {
    if ops != [] {
      AskedAtLeast(ops[1..], user, agent, limit);
      OneMoreTimes(Claims(ops[1..], user, agent), limit);
    }
  }

  lemma OneMoreTimes(k: nat, n: nat)
    ensures (1 + k) * n == n + k * n
  {}

  lemma MoreTimes(j: nat, k: nat, n: nat)
    requires j <= k
    ensures j * n <= k * n
  {}

  // A quiet run with ceil(n / limit) claims of at least that limit hands out all n commands and leaves none waiting.
  lemma DrainedByCeiling(b: Box, ops: seq<Op>, user: int, agent: string, limit: nat)
    requires QuietRun(b, ops, user, agent) && limit > 0
    requires forall i :: 0 <= i < |ops| && Own(ops[i], user, agent) ==> Limit(ops[i].limit) >= limit
    requires Claims(ops, user, agent) >= Ceiling(|Waiting(b.rows, user, agent, b.now)|, limit)
    ensures HandedOver(b, ops, user, agent) == Waiting(b.rows, user, agent, b.now)
    ensures Waiting(Exec(b, ops).rows, user, agent, Exec(b, ops).now) == []
  {
    var w := Waiting(b.rows, user, agent, b.now);
    AskedAtLeast(ops, user, agent, limit);
    CeilingCovers(|w|, limit);
    MoreTimes(Ceiling(|w|, limit), Claims(ops, user, agent), limit);
    ClaimsDrain(b, ops, user, agent);
    assert w[..|w|] == w;
  }

  // A command that was queued is handed out in every quiet run whose claims ask for as many as waited with it.
  lemma EnqueuedIsHandedOut(b: Box, slot: Slot, payload: string, ops: seq<Op>)
    requires QuietRun(Enqueue(b, slot, payload).0, ops, slot.user, slot.agent)
    requires Asked(ops, slot.user, slot.agent) >=
             |Waiting(Enqueue(b, slot, payload).0.rows, slot.user, slot.agent, b.now)|
    ensures Enqueue(b, slot, payload).1 in HandedOver(Enqueue(b, slot, payload).0, ops, slot.user, slot.agent)
  {
    var (c, id) := Enqueue(b, slot, payload);
    var at := EnqueuedRow(b, slot, payload);
    var w := Waiting(c.rows, slot.user, slot.agent, b.now);
    ClaimsDrain(c, ops, slot.user, slot.agent);
    assert w[..|w|] == w;
  }
}

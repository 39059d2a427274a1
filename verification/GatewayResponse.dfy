/**
 What the client of the gateway is sent, as a function of the events the streaming loop selects, and the loop itself.
 */
module GatewayResponse {
  import opened Basics
  import opened Base64

  datatype Kind = ResponseStart | ResponseChunk | ResponseEnd | ResponseError | OtherKind

  datatype Frame = Frame(id: string, kind: Kind, status: int, body: string, message: string)

  // How the write of a chunk to the client goes: whole, or failing after some bytes of it.
  datatype Write = Whole | Broken(taken: nat)

  // One turn of the select; write tells how the chunk of this frame reaches the client, if it is one.
  datatype Event =
    | Arrived(frame: Frame, write: Write)
    | AuthorizationTick(authorized: bool)
    | StartTimeout
    | GatewayClosed
    | ClientGone

  datatype Answer = Streaming(status: int) | NoContent | Failed(status: int, message: string)

  datatype Response = Response(answer: Option<Answer>, body: seq<byte>, ended: bool)

  const SESSION_INVALID := "HAPI_GATEWAY_SESSION_INVALID"

  function StatusOf(f: Frame): int { if f.status < 100 || f.status > 599 then 502 else f.status }

  predicate Accepted(conn: string, e: Event) { e.Arrived? && (e.frame.id == "" || e.frame.id == conn) }

  predicate Opens(conn: string, e: Event) { Accepted(conn, e) && e.frame.kind.ResponseStart? }

  predicate Terminal(conn: string, e: Event) {
    Accepted(conn, e) && (e.frame.kind.ResponseEnd? || e.frame.kind.ResponseError?)
  }

  predicate Cuts(e: Event) { e == AuthorizationTick(false) || e.GatewayClosed? || e.ClientGone? }

  // Ends the loop before the response has started.
  predicate EndsIdle(conn: string, e: Event) { Terminal(conn, e) || Cuts(e) || e.StartTimeout? }

  predicate BadChunk(conn: string, e: Event) {
    Accepted(conn, e) && e.frame.kind.ResponseChunk? && (Decode(e.frame.body).None? || e.write.Broken?)
  }

  // Ends the loop once the response has started; the start timer is stopped by then.
  predicate EndsOpen(conn: string, e: Event) { Terminal(conn, e) || Cuts(e) || BadChunk(conn, e) }

  // ----- reference -----

  // How many events pass before the response starts or is given up.
  function IdleLength(conn: string, events: seq<Event>): (n: nat)
    ensures n <= |events|
  {
    if events == [] || Opens(conn, events[0]) || EndsIdle(conn, events[0]) then 0 else 1 + IdleLength(conn, events[1..])
  }

  function OpenLength(conn: string, events: seq<Event>): (n: nat)
    ensures n <= |events|
  {
    if events == [] || EndsOpen(conn, events[0]) then 0 else 1 + OpenLength(conn, events[1..])
  }

  function Reaching(write: Write, chunk: seq<byte>): seq<byte> {
    if write.Broken? && write.taken < |chunk| then chunk[..write.taken] else chunk
  }

  // What an event adds to the body.
  function ChunkBytes(conn: string, e: Event): seq<byte> {
    if Accepted(conn, e) && e.frame.kind.ResponseChunk? && Decode(e.frame.body).Some?
    then Reaching(e.write, Decode(e.frame.body).value) else []
  }

  // The decoded chunks among the events, in a row.
  function Content(conn: string, events: seq<Event>): seq<byte> {
    if events == [] then [] else ChunkBytes(conn, events[0]) + Content(conn, events[1..])
  }

  // What the client gets when the loop ends before a start. A client that is gone gets nothing.
  function IdleAnswer(conn: string, e: Event): Option<Answer> {
    match e
    case Arrived(f, _) =>
      if f.kind.ResponseEnd? then Some(NoContent)
      else if f.message == SESSION_INVALID then Some(Failed(409, f.message))
      else Some(Failed(502, f.message))
    case AuthorizationTick(_) => Some(Failed(401, ""))
    case StartTimeout => Some(Failed(504, ""))
    case GatewayClosed => Some(Failed(503, ""))
    case ClientGone => None
  }

  function OneBeyond(n: nat, size: nat): (m: nat)
    ensures m <= size
  {
    if n < size then n + 1 else size
  }

  // The first start fixes the status; the body is the decoded chunks between it and the first event that ends the loop,
  // with what a failing write still delivered if it was that event.
  function Reference(conn: string, events: seq<Event>): Response {
    var i := IdleLength(conn, events);
    if i == |events| then Response(None, [], false)
    else if !Opens(conn, events[i]) then Response(IdleAnswer(conn, events[i]), [], true)
    else
      var tail := events[i + 1..];
      var n := OpenLength(conn, tail);
      Response(Some(Streaming(StatusOf(events[i].frame))), Content(conn, tail[..OneBeyond(n, |tail|)]), n < |tail|)
  }

  // ----- the loop -----

  method StreamGatewayResponse(conn: string, events: seq<Event>) returns (r: Response)
    ensures r == Reference(conn, events)
  {
    r := Response(None, [], false);
    for k := 0 to |events|
      invariant r == Reference(conn, events[..k]) && !r.ended
    {
      NextEvent(conn, events, k);
      r := Turn(conn, r, events[k]);
      if r.ended {
        EndedStays(conn, events, k + 1);
        return;
      }
    }
    assert events[..|events|] == events;
  }

  // One turn of the loop.
  method Turn(conn: string, before: Response, e: Event) returns (r: Response)
    requires !before.ended && (before.answer.Some? ==> before.answer.value.Streaming?)
    requires before.answer.None? ==> before.body == []
    ensures r == After(conn, before, e)
  {
    var started := before.answer.Some?;
    match e {
      case Arrived(frame, write) =>
        if frame.id != "" && frame.id != conn {
          return before;
        }
        match frame.kind {
          case ResponseStart =>
            if started {
              return before;
            }
            var status := frame.status;
            if status < 100 || status > 599 {
              status := 502;
            }
            return before.(answer := Some(Streaming(status)));
          case ResponseChunk =>
            if !started {
              return before;
            }
            var chunk := Decode(frame.body);
            if chunk.None? {
              return before.(ended := true);
            }
            if write.Broken? {
              var taken := if write.taken < |chunk.value| then write.taken else |chunk.value|;
              return before.(body := before.body + chunk.value[..taken], ended := true);
            }
            return before.(body := before.body + chunk.value);
          case ResponseEnd =>
            return if started then before.(ended := true) else Response(Some(NoContent), [], true);
          case ResponseError =>
            if started {
              return before.(ended := true);
            }
            if frame.message == SESSION_INVALID {
              return Response(Some(Failed(409, frame.message)), [], true);
            }
            return Response(Some(Failed(502, frame.message)), [], true);
          case OtherKind =>
            return before;
        }
      case AuthorizationTick(authorized) =>
        if authorized {
          return before;
        }
        return if started then before.(ended := true) else Response(Some(Failed(401, "")), [], true);
      case StartTimeout =>
        return if started then before else Response(Some(Failed(504, "")), [], true);
      case GatewayClosed =>
        return if started then before.(ended := true) else Response(Some(Failed(503, "")), [], true);
      case ClientGone =>
        return before.(ended := true);
    }
  }

  // ----- one more event -----

  // What one event does to a response that has not ended.
  function After(conn: string, r: Response, e: Event): Response {
    if r.answer.None? then
      if Opens(conn, e) then Response(Some(Streaming(StatusOf(e.frame))), [], false)
      else if EndsIdle(conn, e) then Response(IdleAnswer(conn, e), [], true)
      else r
    else r.(body := r.body + ChunkBytes(conn, e), ended := EndsOpen(conn, e))
  }

  lemma {:induction false} IdleMore(conn: string, events: seq<Event>, e: Event)
    ensures IdleLength(conn, events + [e]) ==
            if IdleLength(conn, events) < |events| then IdleLength(conn, events)
            else if Opens(conn, e) || EndsIdle(conn, e) then |events| else |events| + 1
  {
    if events != [] {
      assert (events + [e])[1..] == events[1..] + [e];
      IdleMore(conn, events[1..], e);
    }
  }

  lemma {:induction false} OpenMore(conn: string, events: seq<Event>, e: Event)
    ensures OpenLength(conn, events + [e]) ==
            if OpenLength(conn, events) < |events| then OpenLength(conn, events)
            else if EndsOpen(conn, e) then |events| else |events| + 1
  {
    if events != [] {
      assert (events + [e])[1..] == events[1..] + [e];
      OpenMore(conn, events[1..], e);
    }
  }

  lemma {:induction false} ContentMore(conn: string, events: seq<Event>, e: Event)
    ensures Content(conn, events + [e]) == Content(conn, events) + ChunkBytes(conn, e)
  {
    if events != [] {
      assert (events + [e])[1..] == events[1..] + [e];
      ContentMore(conn, events[1..], e);
    }
  }

  lemma OneMore(conn: string, events: seq<Event>, e: Event)
    ensures var r := Reference(conn, events);
            Reference(conn, events + [e]) == if r.ended then r else After(conn, r, e)
  {
    IdleMore(conn, events, e);
    var i := IdleLength(conn, events);
    if i < |events| && Opens(conn, events[i]) {
      var tail := events[i + 1..];
      assert (events + [e])[i + 1..] == tail + [e];
      OpenMore(conn, tail, e);
      var n := OpenLength(conn, tail);
      if n < |tail| {
        assert (tail + [e])[..n + 1] == tail[..n + 1];
      } else {
        assert tail[..n] == tail && (tail + [e])[..n + 1] == tail + [e];
        ContentMore(conn, tail, e);
      }
    } else if i == |events| && Opens(conn, e) {
      assert (events + [e])[i + 1..] == [];
    }
  }

  lemma NextEvent(conn: string, events: seq<Event>, k: nat)
    requires k < |events|
    ensures var p := Reference(conn, events[..k]);
            && Reference(conn, events[..k + 1]) == (if p.ended then p else After(conn, p, events[k]))
            && (!p.ended && p.answer.Some? ==> p.answer.value.Streaming?) && (p.answer.None? ==> p.body == [])
  {
    OneMore(conn, events[..k], events[k]);
    assert events[..k] + [events[k]] == events[..k + 1];
    IdleAnswers(conn, events[..k]);
  }

  // ----- what the client can rely on -----

  // As events go by the answer is fixed once and the body only grows; an ended response does not change.
  lemma {:induction false} Monotone(conn: string, events: seq<Event>, k: nat)
    requires k <= |events|
    ensures var p, r := Reference(conn, events[..k]), Reference(conn, events);
            && (p.answer.Some? ==> r.answer == p.answer) && p.body <= r.body && (p.ended ==> r == p)
    decreases |events|
  {
    if k == |events| {
      assert events[..k] == events;
    } else {
      var front := events[..|events| - 1];
      Monotone(conn, front, k);
      assert front[..k] == events[..k] && front + [events[|events| - 1]] == events;
      OneMore(conn, front, events[|events| - 1]);
      IdleAnswers(conn, front);
    }
  }

  lemma EndedStays(conn: string, events: seq<Event>, k: nat)
    requires k <= |events| && Reference(conn, events[..k]).ended
    ensures Reference(conn, events) == Reference(conn, events[..k])
  {
    Monotone(conn, events, k);
  }

  lemma IdleAnswers(conn: string, events: seq<Event>)
    ensures var r := Reference(conn, events); r.answer.Some? && !r.answer.value.Streaming? ==> r.ended && r.body == []
    ensures var r := Reference(conn, events); r.answer.None? ==> r.body == []
  {}

  // The status is a proper one, and an error is answered only when nothing of a response has been sent.
  lemma AnswerIsClean(conn: string, events: seq<Event>)
    ensures match Reference(conn, events)
            case Response(Some(Streaming(status)), body, ended) => 100 <= status <= 599
            case Response(answer, body, ended) => body == []
  {}

  // ----- frames alone -----

  function FramesOf(events: seq<Event>): seq<Frame> {
    if events == [] then []
    else
      var last := events[|events| - 1];
      FramesOf(events[..|events| - 1]) + if last.Arrived? then [last.frame] else []
  }

  function Undisturbed(frames: seq<Frame>): seq<Event> {
    seq(|frames|, i requires 0 <= i < |frames| => Arrived(frames[i], Whole))
  }

  // The response the frames alone would make: no tick, timeout, close or failing client comes between.
  function FromFrames(conn: string, frames: seq<Frame>): Response { Reference(conn, Undisturbed(frames)) }

  lemma TurnOnlyCuts(conn: string, r: Response, f: Response, e: Event)
    requires !r.ended && r == f
    ensures var a := After(conn, r, e);
            var b := if e.Arrived? then After(conn, f, Arrived(e.frame, Whole)) else f;
            a.body <= b.body && (!a.ended ==> a == b)
  {}

  // Whatever else the loop selects can only cut the frames' response short.
  lemma {:induction false} OthersOnlyCut(conn: string, events: seq<Event>)
    ensures var r, f := Reference(conn, events), FromFrames(conn, FramesOf(events));
            r.body <= f.body && (!r.ended ==> r == f)
  {
    if events != [] {
      var front, e := events[..|events| - 1], events[|events| - 1];
      assert front + [e] == events;
      OthersOnlyCut(conn, front);
      OneMore(conn, front, e);
      var frames, all := FramesOf(front), FramesOf(events);
      assert all == frames + if e.Arrived? then [e.frame] else [];
      MoreFramesMoreBody(conn, frames, all);
      PrefixTransitive(Reference(conn, front).body, FromFrames(conn, frames).body, FromFrames(conn, all).body);
      if !Reference(conn, front).ended {
        TurnOnlyCuts(conn, Reference(conn, front), FromFrames(conn, frames), e);
        if e.Arrived? {
          var one := Arrived(e.frame, Whole);
          assert Undisturbed(all) == Undisturbed(frames) + [one];
          OneMore(conn, Undisturbed(frames), one);
          assert FromFrames(conn, all) == After(conn, FromFrames(conn, frames), one);
        } else {
          assert all == frames;
        }
      }
    }
  }

  lemma PrefixTransitive<T>(a: seq<T>, b: seq<T>, c: seq<T>)
    requires a <= b <= c
    ensures a <= c
  {}

  lemma MoreFramesMoreBody(conn: string, taken: seq<Frame>, sent: seq<Frame>)
    requires taken <= sent
    ensures FromFrames(conn, taken).body <= FromFrames(conn, sent).body
  {
    assert Undisturbed(sent)[..|taken|] == Undisturbed(taken);
    Monotone(conn, Undisturbed(sent), |taken|);
  }
}

/**
 The bounded channel between the agent's read loop and the streaming loop. A frame that finds no room in time is
 dropped, and then the gateway is closed.
 */
module GatewayPipe {
  import opened Basics
  import opened GatewayResponse

  const CAPACITY := 32

  // sent is what the agent addressed to this gateway, taken what the streaming loop has received, in order.
  datatype Pipe = Pipe(sent: seq<Frame>, queue: seq<Frame>, taken: seq<Frame>, closed: bool)

  datatype Act = Deliver(frame: Frame) | DropClosed(frame: Frame) | TimeOut(frame: Frame) | Take | Close

  function Step(p: Pipe, a: Act): Pipe {
    match a
    case Deliver(f) => if |p.queue| < CAPACITY then p.(sent := p.sent + [f], queue := p.queue + [f]) else p
    case DropClosed(f) => if p.closed then p.(sent := p.sent + [f]) else p
    case TimeOut(f) => p.(sent := p.sent + [f], closed := true)
    case Take => if p.queue == [] then p else p.(queue := p.queue[1..], taken := p.taken + [p.queue[0]])
    case Close => p.(closed := true)
  }

  function Exec(p: Pipe, acts: seq<Act>): Pipe {
    if acts == [] then p else Step(Exec(p, acts[..|acts| - 1]), acts[|acts| - 1])
  }

  const START := Pipe([], [], [], false)

  datatype Choice = ToQueue | SeesClosed | TimesOut

  // a is b with some elements left out.
  ghost predicate Subsequence<T>(a: seq<T>, b: seq<T>) {
    a == [] || (b != [] && ((a[|a| - 1] == b[|b| - 1] && Subsequence(a[..|a| - 1], b[..|b| - 1])) ||
                            Subsequence(a, b[..|b| - 1])))
  }

  lemma SubsequenceMore<T>(a: seq<T>, b: seq<T>, x: T)
    requires Subsequence(a, b)
    ensures Subsequence(a + [x], b + [x]) && Subsequence(a, b + [x])
  {
    assert (a + [x])[..|a|] == a && (b + [x])[..|b|] == b;
  }

  ghost predicate InOrder(p: Pipe) {
    |p.queue| <= CAPACITY && Subsequence(p.taken + p.queue, p.sent) && (!p.closed ==> p.taken + p.queue == p.sent)
  }

  lemma StepInOrder(p: Pipe, a: Act)
    requires InOrder(p)
    ensures InOrder(Step(p, a))
  {
    match a
    case Deliver(f) =>
      SubsequenceMore(p.taken + p.queue, p.sent, f);
      assert p.taken + (p.queue + [f]) == p.taken + p.queue + [f];
    case DropClosed(f) => SubsequenceMore(p.taken + p.queue, p.sent, f);
    case TimeOut(f) => SubsequenceMore(p.taken + p.queue, p.sent, f);
    case Take => if p.queue != [] { assert (p.taken + [p.queue[0]]) + p.queue[1..] == p.taken + p.queue; }
    case Close =>
  }

  // Frames are never reordered or repeated, and until the gateway closes none is missing.
  lemma {:induction false} AlwaysInOrder(acts: seq<Act>)
    ensures InOrder(Exec(START, acts))
  {
    if acts != [] {
      AlwaysInOrder(acts[..|acts| - 1]);
      StepInOrder(Exec(START, acts[..|acts| - 1]), acts[|acts| - 1]);
    }
  }

  // While the gateway is not closed, the client's body is a prefix of the one the agent's frames make,
  // whatever ticks, timeouts and failures the streaming loop saw between them.
  lemma ClientSeesPrefix(acts: seq<Act>, conn: string, events: seq<Event>)
    requires FramesOf(events) == Exec(START, acts).taken && !Exec(START, acts).closed
    ensures Reference(conn, events).body <= FromFrames(conn, Exec(START, acts).sent).body
  {
    AlwaysInOrder(acts);
    var p := Exec(START, acts);
    assert p.taken <= p.sent;
    OthersOnlyCut(conn, events);
    MoreFramesMoreBody(conn, p.taken, p.sent);
  }

  function Delivered(frames: seq<Frame>): seq<Act> { seq(|frames|, i requires 0 <= i < |frames| => Deliver(frames[i])) }

  lemma {:induction false} AllQueued(p: Pipe, frames: seq<Frame>)
    requires |p.queue| + |frames| <= 32
    ensures Exec(p, Delivered(frames)) == Pipe(p.sent + frames, p.queue + frames, p.taken, p.closed)
  {
    if frames == [] {
      assert p.queue + frames == p.queue && p.sent + frames == p.sent;
    } else {
      var front := frames[..|frames| - 1];
      AllQueued(p, front);
      assert Delivered(frames)[..|frames| - 1] == Delivered(front);
      assert frames == front + [frames[|frames| - 1]];
    }
  }

  // Up to 32 frames wait in the order of their arrival, and the first is taken first.
  lemma FirstInFirstOut(frames: seq<Frame>)
    requires 0 < |frames| <= 32
    ensures var p := Step(Exec(START, Delivered(frames)), Act.Take);
            p.sent == frames && p.taken == [frames[0]] && p.queue == frames[1..] && !p.closed
  {
    AllQueued(START, frames);
  }

  class GatewayQueue {
    var frames: seq<Frame>
    var closed: bool
    ghost var sent: seq<Frame>
    ghost var taken: seq<Frame>

    ghost function Contents(): Pipe
      reads this
    {
      Pipe(sent, frames, taken, closed)
    }

    ghost predicate Valid()
      reads this
    {
      InOrder(Contents())
    }

    constructor ()
      ensures Contents() == START && Valid()
    {
      frames, closed, sent, taken := [], false, [], [];
    }

    // The choice of the select: it queues the frame, if there is room at some moment of the ten seconds; it drops it,
    // if the gateway is closed by then; or its timer wins, which it may also do when room has just appeared.
    method Deliver(f: Frame, choice: Choice)
      requires Valid()
      requires choice.ToQueue? ==> |frames| < CAPACITY
      requires choice.SeesClosed? ==> closed
      modifies this
      ensures Valid()
      ensures Contents() == Step(old(Contents()), match choice
                                                  case ToQueue => Act.Deliver(f)
                                                  case SeesClosed => DropClosed(f)
                                                  case TimesOut => TimeOut(f))
    {
      ghost var before := Contents();
      sent := sent + [f];
      match choice {
        case ToQueue =>
          frames := frames + [f];
          StepInOrder(before, Act.Deliver(f));
        case SeesClosed =>
          StepInOrder(before, DropClosed(f));
        case TimesOut =>
          closed := true;
          StepInOrder(before, TimeOut(f));
      }
    }

    method Take() returns (f: Option<Frame>)
      requires Valid()
      modifies this
      ensures Valid() && Contents() == Step(old(Contents()), Act.Take)
      ensures f == if old(frames) == [] then None else Some(old(frames)[0])
    {
      StepInOrder(Contents(), Act.Take);
      if frames == [] {
        return None;
      }
      f := Some(frames[0]);
      taken := taken + [frames[0]];
      frames := frames[1..];
    }
  }
}

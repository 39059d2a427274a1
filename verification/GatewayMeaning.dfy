/**
 What the streamed response is, said of the events alone: the first event that counts fixes the answer, and the body is
 what the agent encoded.
 */
module GatewayMeaning {
  import opened Basics
  import opened Base64
  import opened GatewayResponse

  // The frame is for this connection.
  ghost predicate Mine(conn: string, e: Event) { e.Arrived? && e.frame.id in {"", conn} }

  ghost predicate Starts(conn: string, e: Event) { Mine(conn, e) && e.frame.kind == ResponseStart }

  ghost predicate Closes(conn: string, e: Event) {
    (Mine(conn, e) && e.frame.kind in {ResponseEnd, ResponseError}) ||
    e in {AuthorizationTick(false), GatewayClosed, ClientGone}
  }

  // The event settles the answer.
  ghost predicate Counts(conn: string, e: Event) { Starts(conn, e) || Closes(conn, e) || e == StartTimeout }

  ghost predicate First(conn: string, events: seq<Event>, i: nat) {
    i < |events| && Counts(conn, events[i]) && forall k :: 0 <= k < i ==> !Counts(conn, events[k])
  }

  lemma {:induction false} IdleUntilFirst(conn: string, events: seq<Event>, i: nat)
    requires i <= |events| && forall k :: 0 <= k < i ==> !Counts(conn, events[k])
    ensures IdleLength(conn, events) == i + IdleLength(conn, events[i..])
  {
    if i > 0 {
      assert !Counts(conn, events[0]);
      IdleUntilFirst(conn, events[1..], i - 1);
      assert events[1..][i - 1..] == events[i..];
    } else {
      assert events[0..] == events;
    }
  }

  lemma FirstIsIdleLength(conn: string, events: seq<Event>, i: nat)
    requires First(conn, events, i)
    ensures IdleLength(conn, events) == i
  {
    IdleUntilFirst(conn, events, i);
  }

  // Until an event counts the client is sent nothing.
  lemma NothingYet(conn: string, events: seq<Event>)
    requires forall k :: 0 <= k < |events| ==> !Counts(conn, events[k])
    ensures Reference(conn, events) == Response(None, [], false)
  {
    IdleUntilFirst(conn, events, |events|);
  }

  // A start that comes first passes the agent's status on, or 502 if it is none.
  lemma StartAnswers(conn: string, events: seq<Event>, i: nat)
    requires First(conn, events, i) && Starts(conn, events[i])
    ensures var status := events[i].frame.status;
            Reference(conn, events).answer == Some(Streaming(if 100 <= status <= 599 then status else 502))
  {
    FirstIsIdleLength(conn, events, i);
  }

  // Any other event that comes first ends the response with its own answer.
  lemma EndAnswers(conn: string, events: seq<Event>, i: nat)
    requires First(conn, events, i) && !Starts(conn, events[i])
    ensures var r, e := Reference(conn, events), events[i];
            && r.ended && r.body == []
            && (e.Arrived? && e.frame.kind == ResponseEnd ==> r.answer == Some(NoContent))
            && (e.Arrived? && e.frame.kind == ResponseError ==>
                  r.answer == Some(Failed(if e.frame.message == "HAPI_GATEWAY_SESSION_INVALID" then 409 else 502,
                                          e.frame.message)))
            && (e == AuthorizationTick(false) ==> r.answer == Some(Failed(401, "")))
            && (e == StartTimeout ==> r.answer == Some(Failed(504, "")))
            && (e == GatewayClosed ==> r.answer == Some(Failed(503, "")))
            && (e == ClientGone ==> r.answer == None)
  {
    FirstIsIdleLength(conn, events, i);
  }

  lemma {:induction false} FirstExists(conn: string, events: seq<Event>) returns (i: Option<nat>)
    ensures i.Some? ==> First(conn, events, i.value)
    ensures i.None? ==> forall k :: 0 <= k < |events| ==> !Counts(conn, events[k])
  {
    if events == [] {
      return None;
    }
    var front, last := events[..|events| - 1], |events| - 1;
    i := FirstExists(conn, front);
    if i.None? && Counts(conn, events[last]) {
      assert forall k :: 0 <= k < last ==> events[k] == front[k];
      return Some(last);
    }
    assert forall k :: 0 <= k < last ==> events[k] == front[k];
  }

  // The client gets a stream of this status if and only if the first event that counts is a start with it.
  lemma StreamingIff(conn: string, events: seq<Event>, status: int)
    ensures Reference(conn, events).answer == Some(Streaming(status)) <==>
            exists i: nat | First(conn, events, i) && Starts(conn, events[i]) ::
              status == if 100 <= events[i].frame.status <= 599 then events[i].frame.status else 502
  {
    var i := FirstExists(conn, events);
    if i.Some? {
      assert forall j: nat :: First(conn, events, j) ==> j == i.value;
      if Starts(conn, events[i.value]) {
        StartAnswers(conn, events, i.value);
      } else {
        FirstIsIdleLength(conn, events, i.value);
      }
    } else {
      NothingYet(conn, events);
    }
  }

  // ----- the body -----

  // What may come between a start and the end: a chunk that the agent encoded, whole, or an event without effect.
  datatype Part = Piece(bytes: seq<byte>, event: Event) | Noise(event: Event)

  ghost predicate Carries(conn: string, p: Part) {
    match p
    case Piece(bytes, e) =>
      Mine(conn, e) && e.frame.kind == ResponseChunk && e.frame.body == Encode(bytes) && e.write == Whole
    case Noise(e) => !Closes(conn, e) && !(Mine(conn, e) && e.frame.kind == ResponseChunk)
  }

  function EventsOf(parts: seq<Part>): seq<Event> { seq(|parts|, i requires 0 <= i < |parts| => parts[i].event) }

  function Bytes(p: Part): seq<byte> { if p.Piece? then p.bytes else [] }

  function Pieces(parts: seq<Part>): seq<byte> {
    if parts == [] then [] else Pieces(parts[..|parts| - 1]) + Bytes(parts[|parts| - 1])
  }

  // The response has started and goes on.
  ghost predicate Flowing(r: Response) { r.answer.Some? && !r.ended }

  lemma PartArrives(conn: string, before: seq<Event>, p: Part)
    requires Flowing(Reference(conn, before)) && Carries(conn, p)
    ensures var r := Reference(conn, before);
            Reference(conn, before + [p.event]) == Response(r.answer, r.body + Bytes(p), false)
  {
    OneMore(conn, before, p.event);
    if p.Piece? { DecodeEncode(p.bytes); }
  }

  lemma {:induction false} PartsArrive(conn: string, before: seq<Event>, parts: seq<Part>)
    requires Flowing(Reference(conn, before))
    requires forall i :: 0 <= i < |parts| ==> Carries(conn, parts[i])
    ensures var r := Reference(conn, before);
            Reference(conn, before + EventsOf(parts)) == Response(r.answer, r.body + Pieces(parts), false)
  {
    if parts == [] {
      assert before + EventsOf(parts) == before;
    } else {
      var front, p := parts[..|parts| - 1], parts[|parts| - 1];
      PartsArrive(conn, before, front);
      MoreEvents(before, parts);
      PartArrives(conn, before + EventsOf(front), p);
      Regrouped(Reference(conn, before).body, Pieces(front), Bytes(p));
    }
  }

  lemma MoreEvents(before: seq<Event>, parts: seq<Part>)
    requires parts != []
    ensures before + EventsOf(parts) == (before + EventsOf(parts[..|parts| - 1])) + [parts[|parts| - 1].event]
  {
    assert EventsOf(parts) == EventsOf(parts[..|parts| - 1]) + [parts[|parts| - 1].event];
  }

  lemma Regrouped(a: seq<byte>, b: seq<byte>, c: seq<byte>)
    ensures (a + b) + c == a + (b + c)
  {}

  lemma StartBegins(conn: string, idle: seq<Event>, start: Event)
    requires (forall k :: 0 <= k < |idle| ==> !Counts(conn, idle[k])) && Starts(conn, start)
    ensures var status := start.frame.status;
            Reference(conn, idle + [start]) ==
            Response(Some(Streaming(if 100 <= status <= 599 then status else 502)), [], false)
  {
    NothingYet(conn, idle);
    OneMore(conn, idle, start);
  }

  lemma CloseEnds(conn: string, before: seq<Event>, last: Event)
    requires Flowing(Reference(conn, before)) && Closes(conn, last)
    ensures Reference(conn, before + [last]) == Reference(conn, before).(ended := true)
  {
    OneMore(conn, before, last);
  }

  // Whatever came before without counting: after a start the client gets exactly the bytes that the agent encoded, in
  // order, and the response ends with the first event that closes it.
  lemma ClientGetsWhatWasEncoded(conn: string, idle: seq<Event>, start: Event, parts: seq<Part>, last: Event)
    requires (forall k :: 0 <= k < |idle| ==> !Counts(conn, idle[k])) && Starts(conn, start) && Closes(conn, last)
    requires forall i :: 0 <= i < |parts| ==> Carries(conn, parts[i])
    ensures var status := start.frame.status;
            Reference(conn, idle + [start] + EventsOf(parts) + [last]) ==
            Response(Some(Streaming(if 100 <= status <= 599 then status else 502)), Pieces(parts), true)
  {
    StartBegins(conn, idle, start);
    PartsArrive(conn, idle + [start], parts);
    CloseEnds(conn, idle + [start] + EventsOf(parts), last);
  }

  // A chunk that does not decode ends it as well, and one whose write breaks off delivers a part of itself.
  lemma BadChunkEnds(conn: string, before: seq<Event>, e: Event)
    requires Reference(conn, before).answer.Some? && !Reference(conn, before).ended
    requires Mine(conn, e) && e.frame.kind == ResponseChunk && (Decode(e.frame.body).None? || e.write.Broken?)
    ensures var r, s := Reference(conn, before), Reference(conn, before + [e]);
            && s.ended && s.answer == r.answer && r.body <= s.body
            && (Decode(e.frame.body).None? ==> s.body == r.body)
            && (Decode(e.frame.body).Some? ==> s.body <= r.body + Decode(e.frame.body).value)
            && (Decode(e.frame.body).Some? && e.write.taken <= |Decode(e.frame.body).value| ==>
                  |s.body| == |r.body| + e.write.taken)
  {
    OneMore(conn, before, e);
  }
}

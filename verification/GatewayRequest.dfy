/**
 How the gateway puts a request body on the tunnel: one frame for a small body, a start, chunks and an end for a
 larger one.
 */
module GatewayRequest {
  import opened Basics
  import opened Base64

  const MAX_BODY := 72 * 1024 * 1024
  const INLINE_BODY := 6 * 1024 * 1024
  const CHUNK := 192 * 1024

  // Method, path and forwarded headers.
  datatype Head = Head(verb: string, path: string, headers: map<string, string>)

  datatype Frame =
    | Request(id: string, head: Head, body: string)
    | RequestStart(id: string, head: Head, contentLength: int)
    | RequestChunk(id: string, body: string)
    | RequestEnd(id: string)

  datatype Reply = Streaming | TooLarge | Offline

  function Piece(body: seq<byte>): nat { if |body| < CHUNK then |body| else CHUNK }

  // The chunk frames of a body, cut from the front.
  function Chunks(id: string, body: seq<byte>): seq<Frame>
    decreases |body|
  {
    if body == [] then []
    else [RequestChunk(id, Encode(body[..Piece(body)]))] + Chunks(id, body[Piece(body)..])
  }

  function Frames(id: string, head: Head, body: seq<byte>): seq<Frame> {
    if |body| <= INLINE_BODY then [Request(id, head, Encode(body))]
    else [RequestStart(id, head, |body|)] + Chunks(id, body) + [RequestEnd(id)]
  }

  // What is still to be cut at this offset, which runs past the end with the last chunk.
  function Rest(body: seq<byte>, offset: nat): seq<byte> { if offset < |body| then body[offset..] else [] }

  lemma NextChunk(id: string, body: seq<byte>, offset: nat)
    requires offset < |body|
    ensures var end := if offset + CHUNK < |body| then offset + CHUNK else |body|;
            Chunks(id, Rest(body, offset)) ==
            [RequestChunk(id, Encode(body[offset..end]))] + Chunks(id, Rest(body, offset + CHUNK))
  {
    var rest := Rest(body, offset);
    var end := if offset + CHUNK < |body| then offset + CHUNK else |body|;
    assert rest[..Piece(rest)] == body[offset..end];
    assert rest[Piece(rest)..] == Rest(body, offset + CHUNK);
  }

  lemma Associative<T>(a: seq<T>, b: seq<T>, c: seq<T>)
    ensures a + (b + c) == (a + b) + c
  {}

  // The chunk loop. room is the number of frames sendGatewayFrame still accepts before it fails.
  method SendChunks(id: string, body: seq<byte>, room: nat) returns (sent: seq<Frame>, ok: bool)
    ensures ok <==> |Chunks(id, body)| <= room
    ensures sent == if ok then Chunks(id, body) else Chunks(id, body)[..room]
  {
    sent := [];
    var offset := 0;
    ghost var all := Chunks(id, body);
    ghost var rest := all;
    assert Rest(body, 0) == body;
    while offset < |body|
      invariant 0 <= offset && |sent| <= room && all == sent + rest && rest == Chunks(id, Rest(body, offset))
      decreases |body| - offset
    {
      var end := if offset + CHUNK < |body| then offset + CHUNK else |body|;
      var frame := RequestChunk(id, Encode(body[offset..end]));
      ghost var after := Chunks(id, Rest(body, offset + CHUNK));
      assert rest == [frame] + after by { NextChunk(id, body, offset); }
      if |sent| == room {
        return sent, false;
      }
      Associative(sent, [frame], after);
      sent, rest := sent + [frame], after;
      offset := offset + CHUNK;
    }
    assert rest == [];
    return sent, true;
  }

  method SendRequest(id: string, head: Head, body: seq<byte>, room: nat) returns (sent: seq<Frame>, reply: Reply)
    ensures reply == TooLarge <==> |body| > 75497472
    ensures |body| > MAX_BODY ==> sent == [] && reply == TooLarge
    ensures |body| <= MAX_BODY && |Frames(id, head, body)| <= room ==>
            sent == Frames(id, head, body) && reply == Streaming
    ensures |body| <= MAX_BODY && room < |Frames(id, head, body)| ==>
              sent == Frames(id, head, body)[..room] && reply == Offline
  {
    if |body| > MAX_BODY {
      return [], TooLarge;
    }
    if |body| <= INLINE_BODY {
      if room == 0 {
        return [], Offline;
      }
      return [Request(id, head, Encode(body))], Streaming;
    }
    if room == 0 {
      return [], Offline;
    }
    var chunks, ok := SendChunks(id, body, room - 1);
    sent := [RequestStart(id, head, |body|)] + chunks;
    if !ok || |sent| == room {
      assert sent == Frames(id, head, body)[..room];
      return sent, Offline;
    }
    return sent + [RequestEnd(id)], Streaming;
  }

  // ----- the receiving side -----

  // The bytes of a run of chunk frames, if each of them decodes.
  function Collect(chunks: seq<Frame>): Option<seq<byte>> {
    if chunks == [] then Some([])
    else if !chunks[0].RequestChunk? then None
    else
      var first, rest := Decode(chunks[0].body), Collect(chunks[1..]);
      if first.None? || rest.None? then None else Some(first.value + rest.value)
  }

  function Reassemble(frames: seq<Frame>): Option<seq<byte>> {
    if |frames| == 1 && frames[0].Request? then Decode(frames[0].body)
    else if |frames| >= 2 && frames[0].RequestStart? && frames[|frames| - 1].RequestEnd? then
      var body := Collect(frames[1..|frames| - 1]);
      if body.Some? && |body.value| == frames[0].contentLength then body else None
    else None
  }

  lemma {:induction false} CollectChunks(id: string, body: seq<byte>)
    ensures Collect(Chunks(id, body)) == Some(body)
    decreases |body|
  {
    if body != [] {
      var n := Piece(body);
      DecodeEncode(body[..n]);
      CollectChunks(id, body[n..]);
      assert body == body[..n] + body[n..];
    }
  }

  // Whoever puts the frames together again gets the body, and the announced length is its length.
  lemma RoundTrip(id: string, head: Head, body: seq<byte>)
    ensures Reassemble(Frames(id, head, body)) == Some(body)
  {
    var frames := Frames(id, head, body);
    if |body| <= INLINE_BODY {
      DecodeEncode(body);
    } else {
      CollectChunks(id, body);
      assert frames[1..|frames| - 1] == Chunks(id, body);
    }
  }

  function Ceiling(n: nat): nat { (n + CHUNK - 1) / CHUNK }

  lemma CeilingStep(n: nat)
    ensures Ceiling(0) == 0
    ensures 0 < n <= CHUNK ==> Ceiling(n) == 1
    ensures n > CHUNK ==> Ceiling(n) == 1 + Ceiling(n - CHUNK)
  {}

  // There are ceil(n / 196608) chunks.
  lemma {:induction false} ChunkCount(id: string, body: seq<byte>)
    ensures |Chunks(id, body)| == Ceiling(|body|) == (|body| + 196607) / 196608
    decreases |body|
  {
    CeilingStep(|body|);
    if body != [] {
      ChunkCount(id, body[Piece(body)..]);
      CeilingStep(|body| - Piece(body));
    }
  }

  // Each chunk carries 196608 bytes, the last one what is left, and none is empty.
  lemma {:induction false} ChunkShapes(id: string, body: seq<byte>, i: nat)
    requires i < |Chunks(id, body)|
    ensures var f := Chunks(id, body)[i];
            && f.RequestChunk? && f.id == id && Decode(f.body).Some? && 1 <= |Decode(f.body).value| <= 196608
            && (i < |Chunks(id, body)| - 1 ==> |Decode(f.body).value| == 196608)
    decreases |body|
  {
    var n := Piece(body);
    if i == 0 {
      DecodeEncode(body[..n]);
    } else {
      ChunkShapes(id, body[n..], i - 1);
    }
  }

  function Texts(chunks: seq<Frame>): string {
    if chunks == [] then ""
    else (if chunks[0].RequestChunk? then chunks[0].body else "") + Texts(chunks[1..])
  }

  // The chunk texts in a row are the encoding of the whole body: every cut is at a multiple of three bytes.
  lemma {:induction false} TextsAreEncoding(id: string, body: seq<byte>)
    ensures Texts(Chunks(id, body)) == Encode(body)
    decreases |body|
  {
    if body != [] {
      var n := Piece(body);
      TextsAreEncoding(id, body[n..]);
      assert body == body[..n] + body[n..];
      if |body| <= CHUNK {
        assert body[n..] == [] && body[..n] == body;
        assert Encode(body[n..]) == "";
      } else {
        EncodeConcat(body[..n], body[n..]);
      }
      assert Texts(Chunks(id, body)) == Encode(body[..n]) + Texts(Chunks(id, body[n..]));
    }
  }

  // The frames of a request: one for a body of up to 6 MiB, otherwise a start that announces the length, the chunks and
  // an end. Method, path and headers come with the first, and every frame names the gateway.
  lemma FramesCarryRequest(id: string, head: Head, body: seq<byte>)
    ensures var frames := Frames(id, head, body);
            && |frames| > 0 && (forall i :: 0 <= i < |frames| ==> frames[i].id == id)
            && (|body| <= 6291456 ==> frames == [Request(id, head, Encode(body))])
            && (|body| > 6291456 ==>
                  && |frames| == Ceiling(|body|) + 2 && frames[0] == RequestStart(id, head, |body|)
                  && frames[|frames| - 1] == RequestEnd(id)
                  && forall i :: 0 < i < |frames| - 1 ==> frames[i].RequestChunk?)
  {
    if |body| > INLINE_BODY {
      ChunkCount(id, body);
      forall i | 0 <= i < |Chunks(id, body)| ensures Chunks(id, body)[i].RequestChunk? && Chunks(id, body)[i].id == id {
        ChunkShapes(id, body, i);
      }
    }
  }

}

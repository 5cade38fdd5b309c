/**
  From a byte stream to packets: what CLanServer::OnRecvComplete delivers
  (myIOCP/CLanServer.cpp), as functions of the bytes received.
*/
module Framing {
  import opened Options
  import opened Bytes
  import opened Ctr
  import opened Codec

  /** The ring keeps one of its 4096 bytes free. */
  const RING_CAPACITY: nat := 4095

  datatype Status = Open | Oversize | BadMac | Full

  /** Payloads delivered in order, bytes left over, and why parsing stopped. */
  datatype Parse = Parse(delivered: seq<seq<byte>>, rest: seq<byte>, status: Status)

  const NOTHING := Parse([], [], Open)

  function Prepend(delivered: seq<seq<byte>>, p: Parse): Parse {
    p.(delivered := delivered + p.delivered)
  }

  lemma PrependTwice(a: seq<seq<byte>>, b: seq<seq<byte>>, p: Parse)
    ensures Prepend(a, Prepend(b, p)) == Prepend(a + b, p)
  {
    assert a + (b + p.delivered) == (a + b) + p.delivered;
  }

  /** The loop of one completed receive, on the bytes in the ring. */
  function ParseLoop(k: Keys, s: seq<byte>): (p: Parse)
    ensures |p.rest| <= |s|
    decreases |s|
  {
    if |s| < HEADER_SIZE then Parse([], s, Open)
    else
      var len := WordAt(s);
      if len > MAX_PAYLOAD then Parse([], s, Oversize)
      else if |s| < HEADER_SIZE + len then Parse([], s, Open)
      else
        var rest := s[HEADER_SIZE + len..];
        match Decode(k, s)
        case None => Parse([], rest, BadMac)
        case Some(plain) => Prepend([plain], ParseLoop(k, rest))
  }

  /** One completed receive: the loop, then the test for a full ring. */
  function OnRecv(k: Keys, s: seq<byte>): (p: Parse)
    ensures |p.rest| <= |s|
  {
    var p := ParseLoop(k, s);
    if p.status.Open? && |p.rest| == RING_CAPACITY then p.(status := Full) else p
  }

  /** A connection: receives one after another until the session is closed. */
  function Receive(k: Keys, st: Parse, chunk: seq<byte>): Parse {
    if st.status.Open? then Prepend(st.delivered, OnRecv(k, st.rest + chunk)) else st
  }

  function ReceiveAll(k: Keys, st: Parse, chunks: seq<seq<byte>>): Parse
    decreases |chunks|
  {
    if chunks == [] then st else ReceiveAll(k, Receive(k, st, chunks[0]), chunks[1..])
  }

  /** Every receive fits the room the ring has for it. */
  ghost predicate Fits(k: Keys, st: Parse, chunks: seq<seq<byte>>)
    decreases |chunks|
  {
    chunks == []
    || ((st.status.Open? ==> |st.rest| + |chunks[0]| <= RING_CAPACITY)
        && Fits(k, Receive(k, st, chunks[0]), chunks[1..]))
  }

  function Concat(chunks: seq<seq<byte>>): seq<byte> {
    if chunks == [] then [] else chunks[0] + Concat(chunks[1..])
  }

  /** The reference: one recursive parser over the whole stream, which knows nothing
      of receives. It stops at an oversize length, a failed mac, or 4095 bytes of a
      frame that needs 4096. */
  function Frames(k: Keys, s: seq<byte>): (p: Parse)
    ensures |p.rest| <= |s|
    decreases |s|
  {
    if |s| < HEADER_SIZE then Parse([], s, Open)
    else
      var len := WordAt(s);
      if len > MAX_PAYLOAD then Parse([], s, Oversize)
      else if len == MAX_PAYLOAD then Parse([], s, if |s| >= RING_CAPACITY then Full else Open)
      else if |s| < HEADER_SIZE + len then Parse([], s, Open)
      else
        var rest := s[HEADER_SIZE + len..];
        match Decode(k, s)
        case None => Parse([], rest, BadMac)
        case Some(plain) => Prepend([plain], Frames(k, rest))
  }

  /** Exact reach of the full-ring close: with no more bytes than the ring holds, the
      loop leaves the ring full only behind the header of a 4066-byte payload. */
  lemma {:induction false} FullOnlyAtMaxPayload(k: Keys, s: seq<byte>)
    requires |s| <= RING_CAPACITY
    ensures var p := ParseLoop(k, s);
      p.status.Open? && |p.rest| == RING_CAPACITY
      <==> |s| == RING_CAPACITY && WordAt(s) == MAX_PAYLOAD
  {
    if |s| >= HEADER_SIZE {
      var len := WordAt(s);
      if len <= MAX_PAYLOAD && |s| >= HEADER_SIZE + len {
        assert |ParseLoop(k, s).rest| <= |s| - HEADER_SIZE;
      }
    }
  }

  lemma {:induction false} OnRecvIsFrames(k: Keys, s: seq<byte>)
    requires |s| <= RING_CAPACITY
    ensures OnRecv(k, s) == Frames(k, s)
    decreases |s|
  {
    if |s| >= HEADER_SIZE {
      var len := WordAt(s);
      if len < MAX_PAYLOAD && |s| >= HEADER_SIZE + len {
        OnRecvIsFrames(k, s[HEADER_SIZE + len..]);
      }
    }
  }

  /** One step of the reference parser over a complete frame. */
  lemma FirstFrame(k: Keys, s: seq<byte>)
    requires Complete(s)
    ensures var rest := s[HEADER_SIZE + WordAt(s)..];
      Frames(k, s) ==
        if Decode(k, s).None? then Parse([], rest, BadMac)
        else Prepend([Decode(k, s).value], Frames(k, rest))
  {
  }

  /** The head of `s` holds a complete frame the parser will try to decode. */
  predicate Complete(s: seq<byte>) {
    |s| >= HEADER_SIZE && WordAt(s) < MAX_PAYLOAD && |s| >= HEADER_SIZE + WordAt(s)
  }

  function Resume(k: Keys, p: Parse, more: seq<byte>): Parse {
    if p.status.Open? then Prepend(p.delivered, Frames(k, p.rest + more))
    else Parse(p.delivered, p.rest + more, p.status)
  }

  lemma IncompleteAppend(k: Keys, a: seq<byte>, b: seq<byte>)
    requires !Complete(a)
    ensures Frames(k, a + b) == Resume(k, Frames(k, a), b)
  {
    if |a| >= HEADER_SIZE {
      assert WordAt(a + b) == WordAt(a);
    }
  }

  lemma ResumePrepend(k: Keys, first: seq<seq<byte>>, p: Parse, more: seq<byte>)
    ensures Resume(k, Prepend(first, p), more) == Prepend(first, Resume(k, p, more))
  {
    if p.status.Open? {
      var tail := Frames(k, p.rest + more).delivered;
      assert (first + p.delivered) + tail == first + (p.delivered + tail);
    }
  }

  lemma FirstFrameAppend(k: Keys, a: seq<byte>, b: seq<byte>)
    requires Complete(a)
    ensures var rest := a[HEADER_SIZE + WordAt(a)..];
      Frames(k, a + b) ==
        if Decode(k, a).None? then Parse([], rest + b, BadMac)
        else Prepend([Decode(k, a).value], Frames(k, rest + b))
  {
    assert WordAt(a + b) == WordAt(a);
    assert (a + b)[HEADER_SIZE + WordAt(a)..] == a[HEADER_SIZE + WordAt(a)..] + b;
    DecodeIgnoresTail(k, a, b);
    FirstFrame(k, a + b);
  }

  /** Parsing a stream in two parts: an open parse resumes from its leftover bytes,
      a stopped one ignores what follows. */
  lemma {:induction false} FramesAppend(k: Keys, a: seq<byte>, b: seq<byte>)
    ensures Frames(k, a + b) == Resume(k, Frames(k, a), b)
    decreases |a|
  {
    if Complete(a) {
      var rest := a[HEADER_SIZE + WordAt(a)..];
      FirstFrame(k, a);
      FirstFrameAppend(k, a, b);
      FramesAppend(k, rest, b);
      if Decode(k, a).Some? {
        ResumePrepend(k, [Decode(k, a).value], Frames(k, rest), b);
      }
    } else {
      IncompleteAppend(k, a, b);
    }
  }

  lemma DecodeIgnoresTail(k: Keys, a: seq<byte>, b: seq<byte>)
    requires |a| >= HEADER_SIZE && |a| >= HEADER_SIZE + WordAt(a)
    ensures Decode(k, a + b) == Decode(k, a)
  {
    assert (a + b)[HEADER_SIZE..HEADER_SIZE + WordAt(a)] == a[HEADER_SIZE..HEADER_SIZE + WordAt(a)];
    assert (a + b)[MAC_OFFSET..HEADER_SIZE] == a[MAC_OFFSET..HEADER_SIZE];
    assert (a + b)[..MAC_OFFSET] == a[..MAC_OFFSET];
    assert (a + b)[NONCE_OFFSET..MAC_OFFSET] == a[NONCE_OFFSET..MAC_OFFSET];
  }

  /** The receives so far, against the stream so far. */
  ghost predicate Agrees(k: Keys, st: Parse, stream: seq<byte>) {
    var whole := Frames(k, stream);
    && st.delivered == whole.delivered && st.status == whole.status
    && st.rest <= whole.rest
    && (st.status.Open? ==> st.rest == whole.rest)
  }

  lemma ReceiveAgrees(k: Keys, st: Parse, stream: seq<byte>, chunk: seq<byte>)
    requires Agrees(k, st, stream)
    requires st.status.Open? ==> |st.rest| + |chunk| <= RING_CAPACITY
    ensures Agrees(k, Receive(k, st, chunk), stream + chunk)
  {
    FramesAppend(k, stream, chunk);
    if st.status.Open? {
      OnRecvIsFrames(k, st.rest + chunk);
    } else {
      assert st.rest <= Frames(k, stream).rest + chunk;
    }
  }

  lemma {:induction false} ReceiveAllAgrees(k: Keys, st: Parse, stream: seq<byte>, chunks: seq<seq<byte>>)
    requires Agrees(k, st, stream) && Fits(k, st, chunks)
    ensures Agrees(k, ReceiveAll(k, st, chunks), stream + Concat(chunks))
    decreases |chunks|
  {
    if chunks == [] {
      assert stream + Concat(chunks) == stream;
    } else {
      ReceiveAgrees(k, st, stream, chunks[0]);
      assert stream + Concat(chunks) == (stream + chunks[0]) + Concat(chunks[1..]);
      ReceiveAllAgrees(k, Receive(k, st, chunks[0]), stream + chunks[0], chunks[1..]);
    }
  }

  /** Chunking independence: however the stream is cut, the payloads delivered and the
      closed status are those of the reference parser on the whole stream, and so are
      the leftover bytes while the session is open. */
  lemma ChunkingIndependent(k: Keys, chunks: seq<seq<byte>>)
    requires Fits(k, NOTHING, chunks)
    ensures var got, whole := ReceiveAll(k, NOTHING, chunks), Frames(k, Concat(chunks));
      && got.delivered == whole.delivered
      && got.status == whole.status
      && got.rest <= whole.rest && (got.status.Open? ==> got.rest == whole.rest)
  {
    ReceiveAllAgrees(k, NOTHING, [], chunks);
    assert [] + Concat(chunks) == Concat(chunks);
  }

  /** What an open parse leaves is an incomplete frame, at most 4094 bytes of it. */
  lemma {:induction false} OpenRestIsShort(k: Keys, s: seq<byte>)
    requires Frames(k, s).status.Open?
    ensures |Frames(k, s).rest| < RING_CAPACITY
    ensures !Complete(Frames(k, s).rest)
    decreases |s|
  {
    if Complete(s) {
      FirstFrame(k, s);
      OpenRestIsShort(k, s[HEADER_SIZE + WordAt(s)..]);
    }
  }

  // ------------------------------------------------------- end to end

  /** A packet to send: its payload and the nonce drawn for it. */
  datatype Outgoing = Outgoing(nonce: Nonce, payload: seq<byte>)

  function Stream(k: Keys, out: seq<Outgoing>): seq<byte> {
    if out == [] then [] else Encode(k, out[0].nonce, out[0].payload) + Stream(k, out[1..])
  }

  function Payloads(out: seq<Outgoing>): (r: seq<seq<byte>>)
    ensures |r| == |out|
    ensures forall i | 0 <= i < |out| :: r[i] == out[i].payload
  {
    if out == [] then [] else [out[0].payload] + Payloads(out[1..])
  }

  lemma StreamHead(k: Keys, out: seq<Outgoing>)
    requires out != [] && |out[0].payload| < 0x10000
    ensures WordAt(Stream(k, out)) == |out[0].payload|
    ensures |Stream(k, out)| >= HEADER_SIZE + |out[0].payload|
    ensures Stream(k, out)[HEADER_SIZE + |out[0].payload|..] == Stream(k, out[1..])
    ensures Decode(k, Stream(k, out)) == Some(out[0].payload)
  {
    FrameParts(k, out[0].nonce, out[0].payload, Stream(k, out[1..]));
    DecodeEncode(k, out[0].nonce, out[0].payload, Stream(k, out[1..]));
  }

  lemma {:induction false} StreamParses(k: Keys, out: seq<Outgoing>)
    requires forall i | 0 <= i < |out| :: |out[i].payload| < MAX_PAYLOAD
    ensures Frames(k, Stream(k, out)) == Parse(Payloads(out), [], Open)
  {
    if out != [] {
      StreamHead(k, out);
      FirstFrame(k, Stream(k, out));
      StreamParses(k, out[1..]);
    }
  }

  /** A payload of exactly 4066 bytes fits a packet but stops its receiver. */
  lemma {:induction false} StreamStops(k: Keys, out: seq<Outgoing>, i: nat)
    requires i < |out| && |out[i].payload| == MAX_PAYLOAD
    requires forall j | 0 <= j < i :: |out[j].payload| < MAX_PAYLOAD
    ensures var p := Frames(k, Stream(k, out));
      p.delivered == Payloads(out)[..i] && p.status == Full
    decreases i
  {
    StreamHead(k, out);
    if i > 0 {
      FirstFrame(k, Stream(k, out));
      StreamStops(k, out[1..], i - 1);
      assert Payloads(out)[..i] == [out[0].payload] + Payloads(out[1..])[..i - 1];
    }
  }

  /** End to end, for everything a packet buffer can hold and any way the network cuts
      the stream: the list is delivered exactly, in order, on an open session if and
      only if no payload is longer than 4065 bytes. */
  lemma EndToEnd(k: Keys, out: seq<Outgoing>, chunks: seq<seq<byte>>)
    requires forall i | 0 <= i < |out| :: |out[i].payload| <= MAX_PAYLOAD
    requires Fits(k, NOTHING, chunks) && Concat(chunks) == Stream(k, out)
    ensures ReceiveAll(k, NOTHING, chunks) == Parse(Payloads(out), [], Open)
       <==> forall i | 0 <= i < |out| :: |out[i].payload| < MAX_PAYLOAD
  {
    ChunkingIndependent(k, chunks);
    if forall i | 0 <= i < |out| :: |out[i].payload| < MAX_PAYLOAD {
      StreamParses(k, out);
    } else {
      var i := FirstMax(out);
      StreamStops(k, out, i);
    }
  }

  lemma {:induction false} FirstMax(out: seq<Outgoing>) returns (i: nat)
    requires exists j | 0 <= j < |out| :: |out[j].payload| >= MAX_PAYLOAD
    ensures i < |out| && |out[i].payload| >= MAX_PAYLOAD
    ensures forall j | 0 <= j < i :: |out[j].payload| < MAX_PAYLOAD
  {
    if |out[0].payload| >= MAX_PAYLOAD {
      i := 0;
    } else {
      var j :| 0 <= j < |out| && |out[j].payload| >= MAX_PAYLOAD;
      assert out[1..][j - 1] == out[j];
      i := FirstMax(out[1..]);
      i := i + 1;
    }
  }

  /** Where a stream stops for good: behind complete frames, at a length no packet can hold, with
      nothing more delivered; or at a frame whose mac is not that of its length, nonce and
      cipher text, which is not delivered either. */
  lemma BadFramesStop(k: Keys, out: seq<Outgoing>, tail: seq<byte>)
    requires forall i | 0 <= i < |out| :: |out[i].payload| <= 4065
    requires |tail| >= 30
    ensures var p, len := Frames(k, Stream(k, out) + tail), WordAt(tail);
      && (len > 4066 ==> p.delivered == Payloads(out) && p.status == Oversize)
      && (len <= 4065 && |tail| >= 30 + len ==>
            if tail[14..30] == k.hmac(tail[..14] + tail[30..30 + len])[..16] then
              |p.delivered| > |out| && p.delivered[..|out|] == Payloads(out)
            else p.delivered == Payloads(out) && p.status == BadMac)
  {
    StreamParses(k, out);
    FramesAppend(k, Stream(k, out), tail);
    assert [] + tail == tail;
    if WordAt(tail) <= 4065 && |tail| >= 30 + WordAt(tail) {
      DecodeAuthenticates(k, tail);
      FirstFrame(k, tail);
    }
  }
}

/**
  The receiving half of a session (OnRecvComplete in myIOCP/CLanServer.cpp): bytes
  that the network wrote into the ring become packets for the content layer.
*/
module Receiver {
  import opened Options
  import opened Bytes
  import opened Codec
  import opened Framing
  import opened PacketBuffer
  import Ring = RingBuffer

  /** What the head of the queue turns out to be. */
  datatype Head = Incomplete | TooLong | Damaged | Got(plain: seq<byte>)

  function HeadOf(k: Keys, s: seq<byte>): (h: Head)
    ensures h.Got? ==> |s| >= HEADER_SIZE && |h.plain| == WordAt(s) <= MAX_PAYLOAD
  {
    if |s| < HEADER_SIZE then Incomplete
    else if WordAt(s) > MAX_PAYLOAD then TooLong
    else if |s| < HEADER_SIZE + WordAt(s) then Incomplete
    else match Decode(k, s) case None => Damaged case Some(plain) => Got(plain)
  }

  function AfterHead(h: Head, s: seq<byte>): (rest: seq<byte>) {
    if (h.Got? || h.Damaged?) && |s| >= HEADER_SIZE && |s| >= HEADER_SIZE + WordAt(s)
    then s[HEADER_SIZE + WordAt(s)..] else s
  }

  /** One turn of the parse loop. */
  lemma ParseLoopHead(k: Keys, s: seq<byte>)
    ensures var rest := AfterHead(HeadOf(k, s), s);
      ParseLoop(k, s) ==
        match HeadOf(k, s)
        case Incomplete => Parse([], s, Open)
        case TooLong => Parse([], s, Oversize)
        case Damaged => Parse([], rest, BadMac)
        case Got(plain) => Prepend([plain], ParseLoop(k, rest))
    ensures HeadOf(k, s).Got? ==> |AfterHead(HeadOf(k, s), s)| < |s|
  {
  }

  function StatusOf(h: Head): Status {
    match h
    case Incomplete => Open
    case TooLong => Oversize
    case Damaged => BadMac
    case Got(_) => Open
  }

  /** The loop ends here. */
  lemma HeadStops(k: Keys, s: seq<byte>, done: seq<seq<byte>>)
    requires !HeadOf(k, s).Got?
    ensures var h := HeadOf(k, s);
      Prepend(done, ParseLoop(k, s)) == Parse(done, AfterHead(h, s), StatusOf(h))
  {
    ParseLoopHead(k, s);
    assert done + [] == done;
  }

  /** The loop goes on behind a decoded frame. */
  lemma HeadGoesOn(k: Keys, s: seq<byte>, done: seq<seq<byte>>)
    requires HeadOf(k, s).Got?
    ensures var h := HeadOf(k, s);
      && |AfterHead(h, s)| < |s|
      && Prepend(done, ParseLoop(k, s)) == Prepend(done + [h.plain], ParseLoop(k, AfterHead(h, s)))
  {
    ParseLoopHead(k, s);
    var h := HeadOf(k, s);
    PrependTwice(done, [h.plain], ParseLoop(k, AfterHead(h, s)));
  }

  class Receiver {
    const keys: Keys
    const ring: Ring.RingBuffer
    const frame: array<byte>           // the local `buf` of OnRecvComplete
    var delivered: seq<seq<byte>>      // payloads passed to OnRecv
    var closed: bool                   // CloseSession has been called

    ghost predicate Valid()
      reads this, ring
    {
      ring.Valid() && frame.Length == PACKET_BUFFER_SIZE && frame != ring.buffer
    }

    /** The connection as the framing functions see it; `status` says why it closed. */
    ghost predicate Shows(st: Parse)
      requires Valid()
      reads this, ring, ring.buffer
    {
      delivered == st.delivered && ring.Contents() == st.rest && (closed <==> !st.status.Open?)
    }

    constructor (keys: Keys)
      ensures Valid() && Shows(NOTHING) && fresh(ring) && fresh(ring.buffer) && fresh(frame)
      ensures this.keys == keys
    {
      this.keys := keys;
      ring := new Ring.RingBuffer();
      frame := new byte[PACKET_BUFFER_SIZE](_ => 0);
      delivered, closed := [], false;
    }

    /** The body of the parse loop up to the decoded payload: looks at the head of the
        queue and takes a complete frame off it. */
    method TakeFrame() returns (head: Head)
      requires Valid()
      modifies ring, frame
      ensures Valid()
      ensures head == HeadOf(keys, old(ring.Contents()))
      ensures ring.Contents() == AfterHead(head, old(ring.Contents()))
    {
      ghost var s := ring.Contents();
      if ring.UseSize() < HEADER_SIZE { return Incomplete; }
      var peeked := ring.Peek(frame, HEADER_SIZE);
      var len := WordAt(frame[..2]);
      assert len == WordAt(s) by { assert frame[..HEADER_SIZE] == s[..HEADER_SIZE]; }
      if len > MAX_PAYLOAD { return TooLong; }
      if ring.UseSize() < HEADER_SIZE + len { return Incomplete; }
      var n := ring.Read(frame, HEADER_SIZE + len);
      var input := frame[..HEADER_SIZE + len];
      assert s == input + ring.Contents() && WordAt(input) == len;
      DecodeIgnoresTail(keys, input, ring.Contents());
      var plain := Decode(keys, input);
      return if plain.None? then Damaged else Got(plain.value);
    }

    /** Alloc, AttachRaw, OnRecv, Release. */
    method Deliver(plain: seq<byte>)
      requires |plain| <= MAX_PAYLOAD
      modifies this`delivered
      ensures delivered == old(delivered) + [plain]
    {
      var pkt := new Packet();
      pkt.AttachRaw(plain);
      delivered := delivered + [pkt.buffer[HEADER_SIZE..pkt.writePos]];
    }

    /** The parse loop. It leaves by `break` (Open) or by closing the session. */
    method ParseFrames() returns (status: Status)
      requires Valid()
      modifies this, ring, frame
      ensures Valid()
      ensures var p := ParseLoop(keys, old(ring.Contents()));
        && delivered == old(delivered) + p.delivered
        && ring.Contents() == p.rest
        && status == p.status && closed == (old(closed) || !status.Open?)
    {
      ghost var s, done := ring.Contents(), [];
      ghost var goal := ParseLoop(keys, s);
      while true
        invariant Valid() && s == ring.Contents()
        invariant closed == old(closed) && delivered == old(delivered) + done
        invariant goal == Prepend(done, ParseLoop(keys, s))
        decreases |s|
      {
        var head := TakeFrame();
        if !head.Got? {
          HeadStops(keys, s, done);
          closed := closed || !head.Incomplete?;
          return StatusOf(head);
        }
        Deliver(head.plain);
        HeadGoesOn(keys, s, done);
        s, done := AfterHead(head, s), done + [head.plain];
      }
    }

    /** `bytes` have arrived behind the queue. Delivers every complete frame, and closes the
        session unless the next receive is to be posted (Open). */
    method OnRecvComplete(bytes: nat) returns (status: Status)
      requires Valid() && bytes <= ring.DirectEnqueueSize()
      modifies this, ring, frame
      ensures Valid()
      ensures var p := OnRecv(keys, old(ring.Contents()) + old(ring.buffer[ring.rear..ring.rear + bytes]));
        && delivered == old(delivered) + p.delivered
        && ring.Contents() == p.rest
        && (closed <==> old(closed) || !p.status.Open?)
        && status == p.status
    {
      ring.MoveWritePos(bytes);
      ghost var s := ring.Contents();
      assert s == old(ring.Contents()) + old(ring.buffer[ring.rear..ring.rear + bytes]);
      status := ParseFrames();
      if !status.Open? { return; }
      assert ring.DirectEnqueueSize() == 0 <==> |ParseLoop(keys, s).rest| == RING_CAPACITY;
      if ring.DirectEnqueueSize() == 0 {
        closed := true;
        status := Full;
      }
    }

    /** One receive from the wire into the ring and through the parser. */
    method TakeChunk(chunk: seq<byte>, ghost st: Parse)
      requires Valid() && Shows(st) && st.status.Open? && |chunk| <= ring.DirectEnqueueSize()
      modifies this, ring, ring.buffer, frame
      ensures Valid() && Shows(Receive(keys, st, chunk))
    {
      ghost var before := ring.Contents();
      ring.KernelWrite(chunk);
      assert ring.Contents() + ring.buffer[ring.rear..ring.rear + |chunk|] == before + chunk;
      var status := OnRecvComplete(|chunk|);
    }

    /** A whole connection: receives of any sizes that fit, wherever the ring stands, until the
        stream ends or the session closes. `cuts` is how the network slices it. */
    method TakeStream(stream: seq<byte>, cuts: nat -> nat)
      requires Valid() && Shows(NOTHING)
      modifies this, ring, ring.buffer, frame
      ensures Valid() && delivered == Frames(keys, stream).delivered
      ensures closed <==> !Frames(keys, stream).status.Open?
      ensures !closed ==> ring.Contents() == Frames(keys, stream).rest
    {
      var rest, turn := stream, 0;
      ghost var st, done := NOTHING, [];
      while rest != [] && !closed
        invariant Valid() && Shows(st) && Agrees(keys, st, done) && done + rest == stream
        decreases |rest|
      {
        OpenRestIsShort(keys, done);
        var n := TakeSome(rest, cuts(turn), st);
        ghost var chunk := rest[..n];
        ReceiveAgrees(keys, st, done, chunk);
        SliceMoves(done, rest, n);
        st, done := Receive(keys, st, chunk), done + chunk;
        rest, turn := rest[n..], turn + 1;
      }
      StreamEnds(keys, st, done, rest);
    }

    /** The next receive: `cut` bytes, or as many as fit, or all there are. */
    method TakeSome(stream: seq<byte>, cut: nat, ghost st: Parse) returns (n: nat)
      requires Valid() && Shows(st) && st.status.Open? && stream != [] && |st.rest| < RING_CAPACITY
      modifies this, ring, ring.buffer, frame
      ensures 0 < n <= |stream| && |st.rest| + n <= RING_CAPACITY
      ensures Valid() && Shows(Receive(keys, st, stream[..n]))
    {
      var room := ring.DirectEnqueueSize();
      n := if 0 < cut < room then cut else room;
      if n > |stream| { n := |stream|; }
      TakeChunk(stream[..n], st);
    }
  }

  lemma SliceMoves(done: seq<byte>, rest: seq<byte>, n: nat)
    requires n <= |rest|
    ensures done + rest[..n] + rest[n..] == done + rest
  {
  }

  /** A stream read to its end, or given up by a parser that has stopped. */
  lemma StreamEnds(k: Keys, st: Parse, done: seq<byte>, rest: seq<byte>)
    requires Agrees(k, st, done) && (rest == [] || !st.status.Open?)
    ensures var whole := Frames(k, done + rest);
      && st.delivered == whole.delivered && st.status == whole.status
      && (st.status.Open? ==> st.rest == whole.rest)
  {
    FramesAppend(k, done, rest);
    if rest == [] { assert done + rest == done; }
  }
}

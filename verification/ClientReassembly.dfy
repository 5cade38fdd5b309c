/**
  The peer's side of the stream: DrainRecv in DummyClient/DummyClient.cpp, which keeps
  the bytes in a linear buffer, shifts it with memmove, and tests no length.
*/
module ClientReassembly {
  import opened Options
  import opened Bytes
  import opened Codec
  import opened Framing

  const CLIENT_BUFFER: nat := 8192

  /** The loop of DrainRecv, on the bytes in the buffer. */
  function Drain(k: Keys, s: seq<byte>): (p: Parse)
    ensures |p.rest| <= |s|
    ensures p.status.Open? || p.status.BadMac?
    decreases |s|
  {
    if |s| < HEADER_SIZE || |s| < HEADER_SIZE + WordAt(s) then Parse([], s, Open)
    else
      match Decode(k, s)
      case None => Parse([], s, BadMac)
      case Some(plain) => Prepend([plain], Drain(k, s[HEADER_SIZE + WordAt(s)..]))
  }

  /** One call of DrainRecv for which `chunk` has arrived. On a full buffer recv has no room,
      returns 0, and the call reports a closed connection. */
  function Take(k: Keys, st: Parse, chunk: seq<byte>): Parse {
    if !st.status.Open? then st
    else if |st.rest| == CLIENT_BUFFER then st.(status := Full)
    else Prepend(st.delivered, Drain(k, st.rest + chunk))
  }

  function TakeAll(k: Keys, st: Parse, chunks: seq<seq<byte>>): Parse
    decreases |chunks|
  {
    if chunks == [] then st else TakeAll(k, Take(k, st, chunks[0]), chunks[1..])
  }

  /** Every recv fits the room the buffer has for it. */
  ghost predicate FitsClient(k: Keys, st: Parse, chunks: seq<seq<byte>>)
    decreases |chunks|
  {
    chunks == []
    || ((st.status.Open? && |st.rest| != CLIENT_BUFFER ==> |st.rest| + |chunks[0]| <= CLIENT_BUFFER)
        && FitsClient(k, Take(k, st, chunks[0]), chunks[1..]))
  }

  /** Where the server's parser stays open or rejects a mac, the client's delivers the
      same payloads and stops for the same reason. */
  lemma {:induction false} DrainIsFrames(k: Keys, s: seq<byte>)
    requires Frames(k, s).status.Open? || Frames(k, s).status.BadMac?
    ensures Drain(k, s).delivered == Frames(k, s).delivered
    ensures Drain(k, s).status == Frames(k, s).status
    ensures Frames(k, s).status.Open? ==> Drain(k, s).rest == Frames(k, s).rest
    decreases |s|
  {
    if Complete(s) {
      FirstFrame(k, s);
      if Decode(k, s).Some? {
        DrainIsFrames(k, s[HEADER_SIZE + WordAt(s)..]);
      }
    }
  }

  /** The client so far, against the server's reference parser on the stream so far. */
  ghost predicate Follows(k: Keys, st: Parse, stream: seq<byte>) {
    var whole := Frames(k, stream);
    && st.delivered == whole.delivered && st.status == whole.status
    && (st.status.Open? ==> st.rest == whole.rest)
  }

  lemma TakeFollows(k: Keys, st: Parse, stream: seq<byte>, chunk: seq<byte>)
    requires Follows(k, st, stream)
    requires Frames(k, stream + chunk).status.Open? || Frames(k, stream + chunk).status.BadMac?
    ensures Follows(k, Take(k, st, chunk), stream + chunk)
  {
    FramesAppend(k, stream, chunk);
    if st.status.Open? {
      OpenRestIsShort(k, stream);
      DrainIsFrames(k, st.rest + chunk);
    }
  }

  /** Once stopped, a stream stays stopped. */
  lemma PrefixStatus(k: Keys, a: seq<byte>, b: seq<byte>)
    requires Frames(k, a + b).status.Open? || Frames(k, a + b).status.BadMac?
    ensures Frames(k, a).status.Open? || Frames(k, a).status.BadMac?
  {
    FramesAppend(k, a, b);
  }

  lemma {:induction false} TakeAllFollows(k: Keys, st: Parse, stream: seq<byte>, chunks: seq<seq<byte>>)
    requires Follows(k, st, stream)
    requires var p := Frames(k, stream + Concat(chunks)); p.status.Open? || p.status.BadMac?
    ensures Follows(k, TakeAll(k, st, chunks), stream + Concat(chunks))
    decreases |chunks|
  {
    if chunks == [] {
      assert stream + Concat(chunks) == stream;
    } else {
      var next := stream + chunks[0];
      assert stream + Concat(chunks) == next + Concat(chunks[1..]);
      PrefixStatus(k, next, Concat(chunks[1..]));
      TakeFollows(k, st, stream, chunks[0]);
      TakeAllFollows(k, Take(k, st, chunks[0]), next, chunks[1..]);
    }
  }

  lemma FollowsWhole(k: Keys, chunks: seq<seq<byte>>)
    requires var p := Frames(k, Concat(chunks)); p.status.Open? || p.status.BadMac?
    ensures Follows(k, TakeAll(k, NOTHING, chunks), Concat(chunks))
  {
    assert [] + Concat(chunks) == Concat(chunks);
    TakeAllFollows(k, NOTHING, [], chunks);
  }

  /** Client and server reassembly agree: the same stream, cut in any two ways, yields
      the same payloads, the same verdict and the same leftover, unless it makes the
      server stop at a length the client does not test. */
  lemma ReassemblyAgrees(k: Keys, atServer: seq<seq<byte>>, atClient: seq<seq<byte>>)
    requires Concat(atServer) == Concat(atClient) && Fits(k, NOTHING, atServer)
    requires var server := ReceiveAll(k, NOTHING, atServer); server.status.Open? || server.status.BadMac?
    ensures var server, client := ReceiveAll(k, NOTHING, atServer), TakeAll(k, NOTHING, atClient);
      && client.delivered == server.delivered && client.status == server.status
      && (server.status.Open? ==>
            client.rest == server.rest && |client.rest| < RING_CAPACITY < CLIENT_BUFFER)
  {
    ChunkingIndependent(k, atServer);
    FollowsWhole(k, atClient);
    if Frames(k, Concat(atServer)).status.Open? {
      OpenRestIsShort(k, Concat(atServer));
    }
  }

  // ------------------------------------------------- the client on its own

  /** One turn of the client's loop, with more bytes behind. */
  lemma DrainHead(k: Keys, a: seq<byte>, b: seq<byte>)
    requires |a| >= HEADER_SIZE && |a| >= HEADER_SIZE + WordAt(a)
    ensures var rest := a[HEADER_SIZE + WordAt(a)..];
      Drain(k, a + b) == if Decode(k, a).None? then Parse([], a + b, BadMac)
                         else Prepend([Decode(k, a).value], Drain(k, rest + b))
  {
    assert WordAt(a + b) == WordAt(a);
    assert (a + b)[HEADER_SIZE + WordAt(a)..] == a[HEADER_SIZE + WordAt(a)..] + b;
    DecodeIgnoresTail(k, a, b);
  }

  function Onward(k: Keys, p: Parse, more: seq<byte>): Parse {
    if p.status.Open? then Prepend(p.delivered, Drain(k, p.rest + more))
    else Parse(p.delivered, p.rest + more, p.status)
  }

  lemma OnwardPrepend(k: Keys, first: seq<seq<byte>>, p: Parse, more: seq<byte>)
    ensures Onward(k, Prepend(first, p), more) == Prepend(first, Onward(k, p, more))
  {
    if p.status.Open? { PrependTwice(first, p.delivered, Drain(k, p.rest + more)); }
  }

  /** The client parsing in two parts, as FramesAppend says of the server. */
  lemma {:induction false} DrainAppend(k: Keys, a: seq<byte>, b: seq<byte>)
    ensures Drain(k, a + b) == Onward(k, Drain(k, a), b)
    decreases |a|
  {
    if |a| >= HEADER_SIZE && |a| >= HEADER_SIZE + WordAt(a) {
      var rest := a[HEADER_SIZE + WordAt(a)..];
      DrainHead(k, a, b);
      if Decode(k, a).Some? {
        DrainAppend(k, rest, b);
        OnwardPrepend(k, [Decode(k, a).value], Drain(k, rest), b);
      }
    }
  }

  lemma {:induction false} DrainStream(k: Keys, out: seq<Outgoing>)
    requires forall i | 0 <= i < |out| :: |out[i].payload| < 0x10000
    ensures Drain(k, Stream(k, out)) == Parse(Payloads(out), [], Open)
  {
    if out != [] {
      StreamHead(k, out);
      DrainStream(k, out[1..]);
    }
  }

  /** The longest payload whose frame the client's buffer can hold. */
  const CLIENT_MAX: nat := CLIENT_BUFFER - HEADER_SIZE

  /** The client is open and there is room for the next recv. */
  predicate Roomy(p: Parse) {
    p.status.Open? && |p.rest| < CLIENT_BUFFER
  }

  /** Up to any byte of such a stream what the client has left over is a part of one frame. */
  lemma {:induction false} PrefixRest(k: Keys, out: seq<Outgoing>, n: nat)
    requires n <= |Stream(k, out)| && forall i | 0 <= i < |out| :: |out[i].payload| <= CLIENT_MAX
    ensures Roomy(Drain(k, Stream(k, out)[..n]))
  {
    if out == [] {
      assert Stream(k, out)[..n] == [];
    } else {
      var len := HEADER_SIZE + |out[0].payload|;
      StreamHead(k, out);
      if n >= len { PrefixRest(k, out[1..], n - len); }
      FirstFrameLeavesRoom(k, Stream(k, out), len, Stream(k, out[1..]), n);
    }
  }

  lemma FirstFrameLeavesRoom(k: Keys, s: seq<byte>, len: nat, rest: seq<byte>, n: nat)
    requires HEADER_SIZE <= len <= |s| && n <= |s| && WordAt(s) == len - HEADER_SIZE <= CLIENT_MAX
    requires s[len..] == rest && Decode(k, s).Some? && (n >= len ==> Roomy(Drain(k, rest[..n - len])))
    ensures Roomy(Drain(k, s[..n]))
  {
    if n < len { IncompleteStays(k, s, n); } else { FirstFrameOff(k, s, len, rest, n); }
  }

  lemma IncompleteStays(k: Keys, s: seq<byte>, n: nat)
    requires HEADER_SIZE <= |s| && n <= |s| && n < HEADER_SIZE + WordAt(s)
    ensures Drain(k, s[..n]) == Parse([], s[..n], Open)
  {
    if n >= HEADER_SIZE { assert WordAt(s[..n]) == WordAt(s); }
  }

  lemma FirstFrameOff(k: Keys, s: seq<byte>, len: nat, rest: seq<byte>, n: nat)
    requires HEADER_SIZE <= len <= n <= |s| && WordAt(s) == len - HEADER_SIZE
    requires s[len..] == rest && Decode(k, s).Some?
    ensures Drain(k, s[..n]) == Prepend([Decode(k, s).value], Drain(k, rest[..n - len]))
  {
    assert WordAt(s[..n]) == WordAt(s) && s[..n][len..] == rest[..n - len];
    assert s[..n] + s[n..] == s;
    DecodeIgnoresTail(k, s[..n], s[n..]);
  }

  lemma Regroup(whole: seq<byte>, first: seq<byte>, rest: seq<byte>, a: seq<byte>, b: seq<byte>, front: seq<byte>)
    requires whole == first + rest && rest == a + b && front == first + a
    ensures whole == front + b
  {
  }

  lemma {:induction false} StreamSplit(k: Keys, out: seq<Outgoing>, i: nat)
    requires i <= |out|
    ensures Stream(k, out) == Stream(k, out[..i]) + Stream(k, out[i..])
  {
    if i == 0 {
      assert out[i..] == out;
    } else {
      var front, behind := out[1..][..i - 1], out[i..];
      StreamSplit(k, out[1..], i - 1);
      assert out[..i][1..] == front && out[1..][i - 1..] == behind;
      Regroup(Stream(k, out), Encode(k, out[0].nonce, out[0].payload), Stream(k, out[1..]),
              Stream(k, front), Stream(k, behind), Stream(k, out[..i]));
    }
  }

  /** Payload `i` is the first one too long for the client, or there is none. */
  ghost predicate FirstTooLong(out: seq<Outgoing>, i: nat) {
    && i <= |out|
    && (forall j | 0 <= j < |out| :: |out[j].payload| < 0x10000)
    && (forall j | 0 <= j < i :: |out[j].payload| <= CLIENT_MAX)
    && (i < |out| ==> |out[i].payload| > CLIENT_MAX)
  }

  /** Where that payload's frame begins. */
  function Before(k: Keys, out: seq<Outgoing>, i: nat): nat
    requires i <= |out|
  {
    |Stream(k, out[..i])|
  }

  lemma FrameIsLong(k: Keys, out: seq<Outgoing>, i: nat)
    requires FirstTooLong(out, i)
    ensures Before(k, out, i) <= |Stream(k, out)|
    ensures i < |out| ==> Before(k, out, i) + CLIENT_BUFFER < |Stream(k, out)|
    ensures i == |out| ==> Before(k, out, i) == |Stream(k, out)|
  {
    StreamSplit(k, out, i);
    if i < |out| { StreamHead(k, out[i..]); }
  }

  lemma InFront(k: Keys, front: seq<Outgoing>, s: seq<byte>)
    requires forall j | 0 <= j < |front| :: |front[j].payload| <= CLIENT_MAX
    requires s <= Stream(k, front)
    ensures Roomy(Drain(k, s))
  {
    PrefixRest(k, front, |s|);
    assert Stream(k, front)[..|s|] == s;
  }

  lemma Behind(k: Keys, front: seq<Outgoing>, s: seq<byte>, behind: seq<byte>)
    requires forall j | 0 <= j < |front| :: |front[j].payload| <= CLIENT_MAX
    requires s == Stream(k, front) + behind && Drain(k, behind) == Parse([], behind, Open)
    ensures Drain(k, s).status.Open? && Drain(k, s).delivered == Payloads(front)
    ensures |Drain(k, s).rest| == |behind|
  {
    DrainStream(k, front);
    DrainAppend(k, Stream(k, front), behind);
    assert [] + behind == behind;
  }

  /** A part of the frame that is too long. */
  lemma PartOfTooLong(k: Keys, out: seq<Outgoing>, i: nat, m: nat)
    requires FirstTooLong(out, i) && m <= |Stream(k, out[i..])| && m <= CLIENT_BUFFER
    ensures var part := Stream(k, out[i..])[..m]; Drain(k, part) == Parse([], part, Open)
  {
    if i < |out| {
      StreamHead(k, out[i..]);
      IncompleteStays(k, Stream(k, out[i..]), m);
    }
  }

  lemma Cut(s: seq<byte>, a: seq<byte>, b: seq<byte>, n: nat)
    requires s == a + b && n <= |s|
    ensures if n < |a| then s[..n] <= a else s[..n] == a + b[..n - |a|]
  {
  }

  /** After `n` bytes, the frame that is too long beginning at `at`. */
  ghost predicate Waits(out: seq<Outgoing>, i: nat, at: nat, n: nat, p: Parse)
    requires i <= |out|
  {
    && p.status.Open?
    && (n < at ==> |p.rest| < CLIENT_BUFFER)
    && (n >= at ==> p.delivered == Payloads(out)[..i] && |p.rest| == n - at)
  }

  /** In front of it there is always room; behind, its frame waits for more. */
  lemma UpToTooLong(k: Keys, out: seq<Outgoing>, i: nat, n: nat)
    requires FirstTooLong(out, i) && n <= |Stream(k, out)| && n <= Before(k, out, i) + CLIENT_BUFFER
    ensures Waits(out, i, Before(k, out, i), n, Drain(k, Stream(k, out)[..n]))
  {
    var s, at, behind := Stream(k, out)[..n], Before(k, out, i), Stream(k, out[i..]);
    StreamSplit(k, out, i);
    Cut(Stream(k, out), Stream(k, out[..i]), behind, n);
    if n < at {
      InFront(k, out[..i], s);
    } else {
      PartOfTooLong(k, out, i, n - at);
      Behind(k, out[..i], s, behind[..n - at]);
      assert Payloads(out[..i]) == Payloads(out)[..i];
    }
  }

  /** So it is at every byte up to a full buffer. */
  ghost predicate WaitsThroughout(k: Keys, out: seq<Outgoing>, i: nat, s: seq<byte>, at: nat) {
    && i <= |out| && (i < |out| || at == |s|)
    && forall n: nat | n <= |s| && n <= at + CLIENT_BUFFER :: Waits(out, i, at, n, Drain(k, s[..n]))
  }

  /** The client after the first `n` bytes of the stream: as if it had read them at once, or
      stopped in front of the first payload that is too long. */
  ghost predicate Reached(k: Keys, out: seq<Outgoing>, i: nat, s: seq<byte>, at: nat, n: nat, st: Parse) {
    && i <= |out| && n <= |s|
    && if st.status.Open? then n <= at + CLIENT_BUFFER && st == Drain(k, s[..n])
       else i < |out| && st.status.Full? && st.delivered == Payloads(out)[..i]
  }

  lemma TakeIsDrain(k: Keys, s: seq<byte>, n: nat, chunk: seq<byte>)
    requires n <= |s| && chunk <= s[n..]
    requires Drain(k, s[..n]).status.Open? && |Drain(k, s[..n]).rest| != CLIENT_BUFFER
    ensures Take(k, Drain(k, s[..n]), chunk) == Drain(k, s[..n + |chunk|])
  {
    assert s[..n + |chunk|] == s[..n] + chunk;
    DrainAppend(k, s[..n], chunk);
  }

  lemma RoomTakes(k: Keys, out: seq<Outgoing>, i: nat, s: seq<byte>, at: nat, n: nat, st: Parse, chunk: seq<byte>)
    requires WaitsThroughout(k, out, i, s, at) && Reached(k, out, i, s, at, n, st) && chunk <= s[n..]
    requires st.status.Open? && |st.rest| != CLIENT_BUFFER && |st.rest| + |chunk| <= CLIENT_BUFFER
    ensures Reached(k, out, i, s, at, n + |chunk|, Take(k, st, chunk))
  {
    assert Waits(out, i, at, n, Drain(k, s[..n]));
    TakeIsDrain(k, s, n, chunk);
    assert Waits(out, i, at, n + |chunk|, Drain(k, s[..n + |chunk|]));
  }

  lemma FullStops(k: Keys, out: seq<Outgoing>, i: nat, s: seq<byte>, at: nat, n: nat, st: Parse)
    requires WaitsThroughout(k, out, i, s, at) && Reached(k, out, i, s, at, n, st)
    requires st.status.Open? && |st.rest| == CLIENT_BUFFER
    ensures i < |out| && st.delivered == Payloads(out)[..i]
  {
    assert Waits(out, i, at, n, Drain(k, s[..n]));
  }

  lemma TakeReaches(k: Keys, out: seq<Outgoing>, i: nat, s: seq<byte>, at: nat, n: nat, st: Parse, chunk: seq<byte>)
    requires WaitsThroughout(k, out, i, s, at) && Reached(k, out, i, s, at, n, st) && chunk <= s[n..]
    requires st.status.Open? && |st.rest| != CLIENT_BUFFER ==> |st.rest| + |chunk| <= CLIENT_BUFFER
    ensures Reached(k, out, i, s, at, n + |chunk|, Take(k, st, chunk))
  {
    if st.status.Open? {
      if |st.rest| == CLIENT_BUFFER {
        FullStops(k, out, i, s, at, n, st);
      } else {
        RoomTakes(k, out, i, s, at, n, st, chunk);
      }
    }
  }

  lemma {:induction false} TakeAllReaches(k: Keys, out: seq<Outgoing>, i: nat, s: seq<byte>, at: nat, n: nat,
                                          st: Parse, chunks: seq<seq<byte>>)
    requires WaitsThroughout(k, out, i, s, at) && Reached(k, out, i, s, at, n, st)
    requires FitsClient(k, st, chunks) && Concat(chunks) == s[n..]
    ensures Reached(k, out, i, s, at, |s|, TakeAll(k, st, chunks))
    decreases |chunks|
  {
    if chunks == [] {
      assert |s[n..]| == 0;
    } else {
      TakeReaches(k, out, i, s, at, n, st, chunks[0]);
      assert s[n + |chunks[0]|..] == s[n..][|chunks[0]|..] == Concat(chunks[1..]);
      TakeAllReaches(k, out, i, s, at, n + |chunks[0]|, Take(k, st, chunks[0]), chunks[1..]);
    }
  }

  lemma StreamWaits(k: Keys, out: seq<Outgoing>, i: nat)
    requires FirstTooLong(out, i)
    ensures WaitsThroughout(k, out, i, Stream(k, out), Before(k, out, i))
  {
    FrameIsLong(k, out, i);
    forall n: nat | n <= |Stream(k, out)| && n <= Before(k, out, i) + CLIENT_BUFFER
      ensures Waits(out, i, Before(k, out, i), n, Drain(k, Stream(k, out)[..n]))
    {
      UpToTooLong(k, out, i, n);
    }
  }

  /** However the stream is cut into receives that fit, the client gets the payloads in front
      of the first one longer than 8162 bytes. There its buffer fills up and it takes the
      connection for closed. */
  lemma ClientStops(k: Keys, out: seq<Outgoing>, chunks: seq<seq<byte>>, i: nat)
    requires Concat(chunks) == Stream(k, out) && FitsClient(k, NOTHING, chunks) && FirstTooLong(out, i)
    ensures var p := TakeAll(k, NOTHING, chunks);
      && p.delivered == Payloads(out)[..i]
      && if i < |out| then p.status.Full? else p.status.Open? && p.rest == []
  {
    var s := Stream(k, out);
    StreamWaits(k, out, i);
    NothingReached(k, out, i, s, Before(k, out, i));
    TakeAllReaches(k, out, i, s, Before(k, out, i), 0, NOTHING, chunks);
    FrameIsLong(k, out, i);
    if i == |out| { UpToTooLong(k, out, i, |s|); assert s[..|s|] == s; }
  }

  lemma NothingReached(k: Keys, out: seq<Outgoing>, i: nat, s: seq<byte>, at: nat)
    requires i <= |out|
    ensures Reached(k, out, i, s, at, 0, NOTHING) && s[0..] == s
  {
    assert s[..0] == [];
  }

  lemma FindTooLong(out: seq<Outgoing>) returns (i: nat)
    requires forall j | 0 <= j < |out| :: |out[j].payload| < 0x10000
    ensures FirstTooLong(out, i)
    ensures i == |out| <==> forall j | 0 <= j < |out| :: |out[j].payload| <= CLIENT_MAX
  {
    i := 0;
    while i < |out| && |out[i].payload| <= CLIENT_MAX
      invariant i <= |out| && forall j | 0 <= j < i :: |out[j].payload| <= CLIENT_MAX
    {
      i := i + 1;
    }
  }

  /** A stream of encoded frames reaches the client whole, however it is cut, if and only if
      no payload is longer than 8162 bytes. */
  lemma ClientEndToEnd(k: Keys, out: seq<Outgoing>, chunks: seq<seq<byte>>)
    requires forall i | 0 <= i < |out| :: |out[i].payload| < 0x10000
    requires Concat(chunks) == Stream(k, out) && FitsClient(k, NOTHING, chunks)
    ensures TakeAll(k, NOTHING, chunks) == Parse(Payloads(out), [], Open)
       <==> forall i | 0 <= i < |out| :: |out[i].payload| <= CLIENT_MAX
  {
    var i := FindTooLong(out);
    ClientStops(k, out, chunks, i);
    assert Payloads(out)[..|out|] == Payloads(out);
  }

  /** After every drain there is room for the next recv, wherever the stream is cut, if and
      only if no payload is longer than 8162 bytes. */
  lemma ClientHasRoom(k: Keys, out: seq<Outgoing>)
    requires forall i | 0 <= i < |out| :: |out[i].payload| < 0x10000
    ensures (forall n | 0 <= n <= |Stream(k, out)| :: |Drain(k, Stream(k, out)[..n]).rest| < CLIENT_BUFFER)
       <==> forall i | 0 <= i < |out| :: |out[i].payload| <= CLIENT_MAX
  {
    var i := FindTooLong(out);
    if i == |out| {
      forall n | 0 <= n <= |Stream(k, out)| ensures |Drain(k, Stream(k, out)[..n]).rest| < CLIENT_BUFFER {
        PrefixRest(k, out, n);
      }
    } else {
      FrameIsLong(k, out, i);
      UpToTooLong(k, out, i, Before(k, out, i) + CLIENT_BUFFER);
    }
  }

  // ------------------------------------------------------------ the buffer

  class ClientBuffer {
    const keys: Keys
    const recvBuf: array<byte>
    var used: nat
    var delivered: seq<seq<byte>>

    ghost predicate Valid()
      reads this
    {
      recvBuf.Length == CLIENT_BUFFER && used <= CLIENT_BUFFER
    }

    constructor (keys: Keys)
      ensures Valid() && used == 0 && delivered == [] && this.keys == keys && fresh(recvBuf)
    {
      this.keys := keys;
      recvBuf := new byte[CLIENT_BUFFER](_ => 0);
      used, delivered := 0, [];
    }

    /** memmove(recvBuf, recvBuf + n, used - n). */
    method Shift(n: nat)
      requires Valid() && n <= used
      modifies this`used, recvBuf
      ensures Valid() && recvBuf[..used] == old(recvBuf[..used])[n..]
    {
      forall i | 0 <= i < used - n { recvBuf[i] := recvBuf[n + i]; }
      used := used - n;
    }

    /** recv into the free part of the buffer. */
    method Append(chunk: seq<byte>)
      requires Valid() && |chunk| <= CLIENT_BUFFER - used
      modifies this`used, recvBuf
      ensures Valid() && recvBuf[..used] == old(recvBuf[..used]) + chunk
    {
      forall i | 0 <= i < |chunk| { recvBuf[used + i] := chunk[i]; }
      used := used + |chunk|;
    }

    /** Handles what `chunk` completes; an empty chunk is a closed connection. */
    method DrainRecv(chunk: seq<byte>) returns (ok: bool)
      requires Valid() && |chunk| <= CLIENT_BUFFER - used
      modifies this, recvBuf
      ensures Valid()
      ensures chunk == [] ==> !ok && used == old(used) && recvBuf[..] == old(recvBuf[..]) && delivered == old(delivered)
      ensures chunk != [] ==>
                var p := Drain(keys, old(recvBuf[..used]) + chunk);
                && delivered == old(delivered) + p.delivered
                && recvBuf[..used] == p.rest
                && ok == p.status.Open?
    {
      if chunk == [] { return false; }
      Append(chunk);
      ok := DrainBuffer();
    }

    /** The loop of DrainRecv. */
    method DrainBuffer() returns (ok: bool)
      requires Valid()
      modifies this, recvBuf
      ensures Valid()
      ensures var p := Drain(keys, old(recvBuf[..used]));
        delivered == old(delivered) + p.delivered && recvBuf[..used] == p.rest && ok == p.status.Open?
    {
      ghost var s, done := recvBuf[..used], [];
      ghost var goal := Drain(keys, s);
      while true
        invariant Valid() && s == recvBuf[..used]
        invariant delivered == old(delivered) + done
        invariant goal == Prepend(done, Drain(keys, s))
        decreases used
      {
        if used < HEADER_SIZE { return true; }
        var len := WordAt(recvBuf[..used]);
        if used < HEADER_SIZE + len { return true; }
        var plain := Decode(keys, recvBuf[..used]);
        if plain.None? { return false; }
        delivered := delivered + [plain.value];
        Shift(HEADER_SIZE + len);
        PrependTwice(done, [plain.value], Drain(keys, s[HEADER_SIZE + len..]));
        s, done := s[HEADER_SIZE + len..], done + [plain.value];
      }
    }

    /** A connection, `chunks` being what arrives for each call in turn; with no room left the
        call gets nothing. */
    method TakeStream(chunks: seq<seq<byte>>) returns (ok: bool)
      requires Valid() && used == 0 && delivered == []
      requires FitsClient(keys, NOTHING, chunks) && [] !in chunks
      modifies this, recvBuf
      ensures Valid()
      ensures var p := TakeAll(keys, NOTHING, chunks);
        delivered == p.delivered && ok == p.status.Open? && (ok ==> recvBuf[..used] == p.rest)
    {
      ok := true;
      ghost var st := NOTHING;
      var left := chunks;
      while left != [] && ok
        invariant Valid() && Matches(st, ok) && [] !in left
        invariant FitsClient(keys, st, left) && TakeAll(keys, st, left) == TakeAll(keys, NOTHING, chunks)
        decreases |left|
      {
        ok := DrainRecv(if used == CLIENT_BUFFER then [] else left[0]);
        st := Take(keys, st, left[0]);
        left := left[1..];
      }
      if !ok { StoppedStays(keys, st, left); }
    }

    ghost predicate Matches(st: Parse, ok: bool)
      requires Valid()
      reads this, recvBuf
    {
      delivered == st.delivered && ok == st.status.Open? && (ok ==> recvBuf[..used] == st.rest)
    }
  }

  lemma {:induction false} StoppedStays(k: Keys, st: Parse, chunks: seq<seq<byte>>)
    requires !st.status.Open?
    ensures TakeAll(k, st, chunks) == st
    decreases |chunks|
  {
    if chunks != [] { StoppedStays(k, st, chunks[1..]); }
  }
}

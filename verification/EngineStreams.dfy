/**
  The engine fed with bytes: what each session receives goes through the framing of
  OnRecvComplete (myIOCP/CLanServer.cpp:340-382), and what comes out is what the session
  queues for the Update thread.
*/
module EngineStreams {
  import opened Options
  import opened Bytes
  import opened Codec
  import opened PacketPool
  import opened SessionId
  import opened Engine
  import opened EngineRefs
  import opened EngineOwnership
  import opened DeliveredMessages
  import F = Framing
  import R = EngineRuns
  import X = EngineCloses
  import opened SendQueue

  /** One slot's current incarnation: the state of its parser; bookkeeping of the bytes it has
      received and of the payloads it has queued, read off the content queue. */
  datatype Line = Line(conn: F.Parse, stream: seq<byte>, said: seq<seq<byte>>)

  const SILENT := Line(F.NOTHING, [], [])

  datatype Feed = Feed(sys: R.Sys, lines: seq<Line>)

  datatype Act =
    | Arrive(op: Op, chunk: seq<byte>, ok: bool)   // a receive completed with these bytes
    | Other(a: R.Action)                           // any other step

  function Start(n: nat): Feed {
    Feed(R.Start(n), seq(n, _ => SILENT))
  }

  /** How the parse loop's result closes the session or not. */
  function EndOf(status: F.Status): End {
    match status
    case Open => Repost
    case BadMac => Damaged
    case Oversize => Shut
    case Full => Shut
  }

  function Parsed(k: Keys, line: Line, chunk: seq<byte>): F.Parse {
    F.OnRecv(k, line.conn.rest + chunk)
  }

  /** The engine's step. */
  function ActionOf(k: Keys, f: Feed, act: Act): R.Action
    requires act.Arrive? ==> act.op.slot < |f.lines|
  {
    match act
    case Arrive(op, chunk, ok) =>
      var p := Parsed(k, f.lines[op.slot], chunk);
      R.ReceiveDone(op, p.delivered, EndOf(p.status), ok)
    case Other(a) => a
  }

  /** A receive brings some bytes, at most what the ring had room for. */
  ghost predicate Enabled(k: Keys, f: Feed, act: Act) {
    && |f.lines| == |f.sys.srv.slots|
    && (act.Arrive? ==>
          && act.op.slot < |f.lines| && act.chunk != []
          && |f.lines[act.op.slot].conn.rest| + |act.chunk| <= F.RING_CAPACITY)
    && (act.Other? ==> !act.a.ReceiveDone?)
    && R.Enabled(f.sys, ActionOf(k, f, act))
  }

  /** The payloads that messages bring. */
  function Spoken(q: seq<Msg>, b: Buffers): seq<seq<byte>> {
    if q == [] then []
    else (if q[0].Received? then [ContentOf(b, q[0].pkt).bytes] else []) + Spoken(q[1..], b)
  }

  function Hear(k: Keys, line: Line, chunk: seq<byte>, said: seq<seq<byte>>): Line {
    Line(F.Prepend(line.conn.delivered, Parsed(k, line, chunk)), line.stream + chunk, line.said + said)
  }

  /** What has joined the content queue. */
  function News(s: Srv, s': Srv): seq<seq<byte>> {
    if |s.contentQ| <= |s'.contentQ| then Spoken(s'.contentQ[|s.contentQ|..], s'.packets.contents) else []
  }

  ghost function Lines(k: Keys, f: Feed, act: Act, after: Srv): seq<Line>
    requires Enabled(k, f, act)
  {
    match act
    case Arrive(op, chunk, _) => f.lines[op.slot := Hear(k, f.lines[op.slot], chunk, News(f.sys.srv, after))]
    case Other(a) =>
      if a.Connect? && f.sys.srv.indexPool != [] then f.lines[f.sys.srv.indexPool[0] := SILENT] else f.lines
  }

  ghost function Step(k: Keys, f: Feed, act: Act): Feed
    requires Enabled(k, f, act)
  {
    var sys := R.Step(f.sys, ActionOf(k, f, act));
    Feed(sys, Lines(k, f, act, sys.srv))
  }

  // ---------------------------------------------------------- the invariant

  ghost predicate LineOk(k: Keys, line: Line) {
    line.said == line.conn.delivered && F.Agrees(k, line.conn, line.stream)
  }

  /** Whoever still receives has a parser that still runs. */
  ghost predicate Listening(net: multiset<Op>, lines: seq<Line>) {
    forall o: Op | o in net && o.kind.Recv? && o.slot < |lines| :: lines[o.slot].conn.status.Open?
  }

  ghost predicate LinesOk(k: Keys, lines: seq<Line>) {
    forall i | 0 <= i < |lines| :: LineOk(k, lines[i])
  }

  lemma {:induction false} SpokenIs(q: seq<Msg>, b: Buffers, sid: SessionID, payloads: seq<seq<byte>>)
    requires |payloads| <= |q| && forall j | 0 <= j < |payloads| :: Says(b, q[j], sid, payloads[j])
    requires q[|payloads|..] == [] || q[|payloads|..] == [Leave(sid)]
    ensures Spoken(q, b) == payloads
    decreases |q|
  {
    if payloads == [] {
      assert q == q[0..];
      if q != [] { assert q[1..] == []; }
    } else {
      assert q[1..][|payloads| - 1..] == q[|payloads|..];
      assert forall j | 0 <= j < |payloads| - 1 :: q[1..][j] == q[j + 1] && payloads[1..][j] == payloads[j + 1];
      SpokenIs(q[1..], b, sid, payloads[1..]);
    }
  }

  lemma QueuedIsSpoken(q: seq<Msg>, b: Buffers, at: nat, sid: SessionID, payloads: seq<seq<byte>>)
    requires at + |payloads| <= |q| && Queued(q, b, at, sid, payloads)
    requires q[at + |payloads|..] == [] || q[at + |payloads|..] == [Leave(sid)]
    ensures Spoken(q[at..], b) == payloads
  {
    var news := q[at..];
    assert news[|payloads|..] == q[at + |payloads|..];
    forall j | 0 <= j < |payloads| ensures Says(b, news[j], sid, payloads[j]) {
      assert news[j] == q[at + j];
    }
    SpokenIs(news, b, sid, payloads);
  }

  /** What one receive adds to the queue is what the parser delivered. */
  lemma NewsIsParsed(s: Srv, op: Op, payloads: seq<seq<byte>>, end: End, ok: bool, callers: multiset<Pkt>)
    requires op.slot < |s.slots| && Owned(s, callers)
    ensures News(s, RecvDone(s, op, payloads, end, ok)) == payloads
  {
    RecvDoneQueues(s, op, payloads, end, ok, callers);
    var s' := RecvDone(s, op, payloads, end, ok);
    QueuedIsSpoken(s'.contentQ, s'.packets.contents, |s.contentQ|, s.slots[op.slot].sid, payloads);
  }

  lemma HeardLine(k: Keys, line: Line, chunk: seq<byte>)
    requires LineOk(k, line) && line.conn.status.Open?
    requires |line.conn.rest| + |chunk| <= F.RING_CAPACITY
    ensures LineOk(k, Hear(k, line, chunk, Parsed(k, line, chunk).delivered))
  {
    F.ReceiveAgrees(k, line.conn, line.stream, chunk);
    assert F.Receive(k, line.conn, chunk) == F.Prepend(line.conn.delivered, Parsed(k, line, chunk));
  }

  // ------------------------------------------------ who goes on receiving

  /** No receive is posted, but perhaps at slot `i`. */
  ghost predicate RecvsElsewhere(s: Srv, s': Srv, i: nat) {
    forall o: Op | o.kind.Recv? && o.slot != i :: s'.net[o] <= s.net[o]
  }

  ghost predicate NoRecvs(s: Srv, s': Srv) {
    forall o: Op | o.kind.Recv? :: s'.net[o] <= s.net[o]
  }

  lemma CloseNoRecvs(s: Srv, i: nat)
    requires i < |s.slots|
    ensures NoRecvs(s, CloseSession(s, i))
  {
  }

  lemma PostRecvElsewhere(s: Srv, i: nat, ok: bool)
    requires i < |s.slots|
    ensures RecvsElsewhere(s, PostRecv(s, i, ok), i)
  {
    if !ok || s.slots[i].closed { CloseNoRecvs(IOAddRef(s, i), i); }
  }

  lemma FlushNoRecvs(s: Srv, i: nat, ok: bool)
    requires i < |s.slots|
    ensures NoRecvs(s, FlushSend(s, i, ok))
  {
    var s1 := IOAddRef(SetSlot(s, i, Take(s.slots[i])), i);
    if !s.slots[i].pending && (!ok || s.slots[i].closed) { CloseNoRecvs(DropSent(s1, i), i); }
  }

  lemma SendDoneNoRecvs(s: Srv, op: Op, ok: bool)
    requires op.slot < |s.slots|
    ensures NoRecvs(s, SendDone(s, op, ok))
  {
    var s1 := DropSent(Arrived(s, op), op.slot);
    if s1.slots[op.slot].queue != [] { FlushNoRecvs(s1, op.slot, ok); }
    assert NoRecvs(Arrived(s, op), OnSendComplete(Arrived(s, op), op.slot, ok));
  }

  lemma OpFailedNoRecvs(s: Srv, op: Op)
    requires op.slot < |s.slots|
    ensures NoRecvs(s, OpFailed(s, op))
  {
    CloseNoRecvs(Arrived(s, op), op.slot);
  }

  lemma SendPacketNoRecvs(s: Srv, sid: SessionID, p: Pkt, ok: bool)
    ensures NoRecvs(s, SendPacket(s, sid, p, ok).srv)
  {
    if Addresses(s, sid) && !s.slots[SidIndex(sid)].closed {
      var i := SidIndex(sid);
      if |s.slots[i].queue| >= QSIZE { CloseNoRecvs(s, i); } else { FlushNoRecvs(Enqueue(s, i, p), i, ok); }
    }
  }

  lemma DisconnectNoRecvs(s: Srv, sid: SessionID)
    ensures NoRecvs(s, Disconnect(s, sid).srv)
  {
    if Addresses(s, sid) { CloseNoRecvs(s, SidIndex(sid)); }
  }

  lemma AcceptElsewhere(s: Srv, associated: bool, ok: bool)
    requires Shaped(s)
    ensures if s.indexPool == [] then NoRecvs(s, Accept(s, associated, ok))
            else RecvsElsewhere(s, Accept(s, associated, ok), s.indexPool[0])
  {
    if s.indexPool != [] {
      var i, s1 := s.indexPool[0], Initialised(s);
      assert i in s.indexPool;
      if associated {
        PostRecvElsewhere(s1.(contentQ := s1.contentQ + [Join(s1.slots[i].sid)]), i, ok);
      } else {
        CloseNoRecvs(s1, i);
      }
    }
  }

  lemma RecvDoneElsewhere(s: Srv, op: Op, payloads: seq<seq<byte>>, end: End, ok: bool)
    requires op.slot < |s.slots|
    ensures RecvsElsewhere(s, RecvDone(s, op, payloads, end, ok), op.slot)
    ensures !end.Repost? ==> NoRecvs(Arrived(s, op), RecvDone(s, op, payloads, end, ok))
  {
    var s1 := DeliverAll(Arrived(s, op), op.slot, payloads, end.Damaged?);
    if end.Repost? { PostRecvElsewhere(s1, op.slot, ok); } else { CloseNoRecvs(s1, op.slot); }
  }

  /** The one outstanding receive of a slot has arrived, and none was posted. */
  lemma StopsReceiving(s: Srv, op: Op, s': Srv)
    requires RefsSettled(s) && op in s.net && op.kind.Recv? && NoRecvs(Arrived(s, op), s')
    ensures forall o: Op | o.kind.Recv? && o.slot == op.slot :: o !in s'.net
  {
    var i := op.slot;
    assert op == Op(i, s.slots[i].generation, Recv);
    assert SlotOk(s.slots[i], i, Recvs(s, i), Sends(s, i), SETTLED);
    forall o: Op | o.kind.Recv? && o.slot == i ensures o !in s'.net {
      if o in s.net { assert o == op; }
      assert Arrived(s, op).net[o] == 0;
    }
  }

  // ------------------------------------------------------------ the steps

  lemma ArriveKeepsLines(k: Keys, s: Srv, lines: seq<Line>, op: Op, chunk: seq<byte>, ok: bool, callers: multiset<Pkt>)
    requires Owned(s, callers) && LinesOk(k, lines) && Listening(s.net, lines)
    requires op in s.net && op.kind.Recv? && op.slot < |s.slots| == |lines|
    requires |lines[op.slot].conn.rest| + |chunk| <= F.RING_CAPACITY
    ensures var line, p := lines[op.slot], Parsed(k, lines[op.slot], chunk);
      var s' := RecvDone(s, op, p.delivered, EndOf(p.status), ok);
      LinesOk(k, lines[op.slot := Hear(k, line, chunk, News(s, s'))])
  {
    var p := Parsed(k, lines[op.slot], chunk);
    NewsIsParsed(s, op, p.delivered, EndOf(p.status), ok, callers);
    HeardLine(k, lines[op.slot], chunk);
  }

  lemma ArriveKeepsListening(k: Keys, s: Srv, lines: seq<Line>, op: Op, chunk: seq<byte>, ok: bool,
                             said: seq<seq<byte>>)
    requires RefsSettled(s) && Listening(s.net, lines)
    requires op in s.net && op.kind.Recv? && op.slot < |s.slots| == |lines|
    ensures var line, p := lines[op.slot], Parsed(k, lines[op.slot], chunk);
      var s' := RecvDone(s, op, p.delivered, EndOf(p.status), ok);
      Listening(s'.net, lines[op.slot := Hear(k, line, chunk, said)])
  {
    var p := Parsed(k, lines[op.slot], chunk);
    var s' := RecvDone(s, op, p.delivered, EndOf(p.status), ok);
    RecvDoneElsewhere(s, op, p.delivered, EndOf(p.status), ok);
    if !p.status.Open? { StopsReceiving(s, op, s'); }
    HeardListening(s.net, s'.net, lines, op.slot, Hear(k, lines[op.slot], chunk, said));
  }

  lemma HeardListening(net: multiset<Op>, net': multiset<Op>, lines: seq<Line>, i: nat, line: Line)
    requires i < |lines| && Listening(net, lines)
    requires forall o: Op | o.kind.Recv? && o.slot != i :: net'[o] <= net[o]
    requires line.conn.status.Open? || forall o: Op | o.kind.Recv? && o.slot == i :: o !in net'
    ensures Listening(net', lines[i := line])
  {
    forall o: Op | o in net' && o.kind.Recv? && o.slot < |lines| ensures lines[i := line][o.slot].conn.status.Open? {
      if o.slot != i { assert o in net; }
    }
  }

  lemma QuietListening(s: Srv, s': Srv, lines: seq<Line>)
    requires NoRecvs(s, s') && Listening(s.net, lines)
    ensures Listening(s'.net, lines)
  {
    forall o: Op | o in s'.net && o.kind.Recv? && o.slot < |lines| ensures lines[o.slot].conn.status.Open? {
      assert o in s.net;
    }
  }

  lemma ConnectKeepsListening(s: Srv, lines: seq<Line>, associated: bool, ok: bool)
    requires Shaped(s) && Listening(s.net, lines) && |lines| == |s.slots|
    ensures var s' := Accept(s, associated, ok);
      if s.indexPool == [] then Listening(s'.net, lines)
      else s.indexPool[0] < |lines| && Listening(s'.net, lines[s.indexPool[0] := SILENT])
  {
    AcceptElsewhere(s, associated, ok);
    var s' := Accept(s, associated, ok);
    if s.indexPool == [] {
      QuietListening(s, s', lines);
    } else {
      assert s.indexPool[0] in s.indexPool;
      HeardListening(s.net, s'.net, lines, s.indexPool[0], SILENT);
    }
  }

  lemma EngineNoRecvs(s: R.Sys, a: R.Action)
    requires R.Enabled(s, a) && !R.ByUpdateThread(a) && !a.Connect? && !a.ReceiveDone?
    ensures NoRecvs(s.srv, R.EngineStep(s, a))
  {
    match a
    case SendCompleted(op, ok) => SendDoneNoRecvs(s.srv, op, ok);
    case Failed(op) => OpFailedNoRecvs(s.srv, op);
    case Drop(sid) => DisconnectNoRecvs(s.srv, sid);
    case SendTo(sid, ok) => SendPacketNoRecvs(s.srv, sid, s.out.value, ok);
  }

  lemma OtherKeepsListening(s: R.Sys, a: R.Action, lines: seq<Line>)
    requires R.Enabled(s, a) && !a.Connect? && !a.ReceiveDone? && Listening(s.srv.net, lines)
    ensures Listening(R.Step(s, a).srv.net, lines)
  {
    if R.ByUpdateThread(a) {
      assert R.UpdateStep(s, a).srv.net == s.srv.net;
    } else {
      EngineNoRecvs(s, a);
      QuietListening(s.srv, R.EngineStep(s, a), lines);
    }
  }

  /** The lines' part of the invariant. */
  ghost predicate FeedOk(k: Keys, f: Feed) {
    |f.lines| == |f.sys.srv.slots| && LinesOk(k, f.lines) && Listening(f.sys.srv.net, f.lines)
  }

  lemma SameSlots(s: R.Sys, a: R.Action)
    requires R.Enabled(s, a)
    ensures |R.Step(s, a).srv.slots| == |s.srv.slots|
  {
    if R.ByUpdateThread(a) {
      assert R.UpdateStep(s, a).srv.slots == s.srv.slots;
    } else if a.SendTo? {
      SendPacketSlots(s.srv, a.sid, s.out.value, a.ok);
    }
  }

  lemma SendPacketSlots(s: Srv, sid: SessionID, p: Pkt, ok: bool)
    ensures |SendPacket(s, sid, p, ok).srv.slots| == |s.slots|
  {
  }

  lemma ArriveKeepsFeed(k: Keys, f: Feed, op: Op, chunk: seq<byte>, ok: bool)
    requires RefsSettled(f.sys.srv) && Owned(f.sys.srv, R.Callers(f.sys)) && FeedOk(k, f)
    requires Enabled(k, f, Arrive(op, chunk, ok))
    ensures FeedOk(k, Step(k, f, Arrive(op, chunk, ok)))
  {
    var p := Parsed(k, f.lines[op.slot], chunk);
    var s' := RecvDone(f.sys.srv, op, p.delivered, EndOf(p.status), ok);
    ArriveKeepsLines(k, f.sys.srv, f.lines, op, chunk, ok, R.Callers(f.sys));
    ArriveKeepsListening(k, f.sys.srv, f.lines, op, chunk, ok, News(f.sys.srv, s'));
    assert Step(k, f, Arrive(op, chunk, ok)).sys.srv == s';
  }

  lemma OtherKeepsFeed(k: Keys, f: Feed, a: R.Action)
    requires FeedOk(k, f) && Enabled(k, f, Other(a))
    ensures FeedOk(k, Step(k, f, Other(a)))
  {
    SameSlots(f.sys, a);
    if a.Connect? {
      ConnectKeepsListening(f.sys.srv, f.lines, a.associated, a.ok);
    } else {
      OtherKeepsListening(f.sys, a, f.lines);
    }
  }

  lemma StepKeepsFeed(k: Keys, f: Feed, act: Act)
    requires RefsSettled(f.sys.srv) && Owned(f.sys.srv, R.Callers(f.sys)) && FeedOk(k, f) && Enabled(k, f, act)
    ensures FeedOk(k, Step(k, f, act))
  {
    match act
    case Arrive(op, chunk, ok) => ArriveKeepsFeed(k, f, op, chunk, ok);
    case Other(a) => OtherKeepsFeed(k, f, a);
  }

  // ------------------------------------------------------------- whole runs

  ghost predicate EnabledRun(k: Keys, f: Feed, acts: seq<Act>)
    decreases |acts|
  {
    acts == [] || (Enabled(k, f, acts[0]) && EnabledRun(k, Step(k, f, acts[0]), acts[1..]))
  }

  ghost function Final(k: Keys, f: Feed, acts: seq<Act>): Feed
    requires EnabledRun(k, f, acts)
    decreases |acts|
  {
    if acts == [] then f else Final(k, Step(k, f, acts[0]), acts[1..])
  }

  ghost predicate Inv(k: Keys, f: Feed) {
    R.Inv(f.sys) && FeedOk(k, f)
  }

  lemma StepKeepsInv(k: Keys, f: Feed, act: Act)
    requires Inv(k, f) && Enabled(k, f, act)
    ensures Inv(k, Step(k, f, act))
  {
    StepKeepsFeed(k, f, act);
    R.StepKeepsInv(f.sys, ActionOf(k, f, act));
  }

  lemma {:induction false} RunKeepsInv(k: Keys, f: Feed, acts: seq<Act>)
    requires Inv(k, f) && EnabledRun(k, f, acts)
    ensures Inv(k, Final(k, f, acts))
    decreases |acts|
  {
    if acts != [] {
      StepKeepsInv(k, f, acts[0]);
      RunKeepsInv(k, Step(k, f, acts[0]), acts[1..]);
    }
  }

  lemma StartInv(k: Keys, n: nat)
    requires n <= 0xFFFF
    ensures Inv(k, Start(n))
  {
    R.StartInv(n);
    assert F.Frames(k, []) == F.NOTHING;
  }

  /** In every reachable state, whatever other sessions do and however its stream is cut, what
      a session has queued for the Update thread is what the one-pass parser makes of all the
      bytes it has received. */
  lemma StreamsAreHeard(k: Keys, n: nat, acts: seq<Act>, i: nat)
    requires n <= 0xFFFF && EnabledRun(k, Start(n), acts) && i < |Final(k, Start(n), acts).lines|
    ensures var line := Final(k, Start(n), acts).lines[i]; line.said == F.Frames(k, line.stream).delivered
  {
    StartInv(k, n);
    RunKeepsInv(k, Start(n), acts);
  }

  /** So an encoded list of payloads of at most 4065 bytes is queued exactly, in order. */
  lemma EncodedStreamsAreHeard(k: Keys, n: nat, acts: seq<Act>, i: nat, out: seq<F.Outgoing>)
    requires n <= 0xFFFF && EnabledRun(k, Start(n), acts) && i < |Final(k, Start(n), acts).lines|
    requires Final(k, Start(n), acts).lines[i].stream == F.Stream(k, out)
    requires forall j | 0 <= j < |out| :: |out[j].payload| < MAX_PAYLOAD
    ensures Final(k, Start(n), acts).lines[i].said == F.Payloads(out)
  {
    StreamsAreHeard(k, n, acts, i);
    F.StreamParses(k, out);
  }

  /** A completed receive closes its session if and only if the stream received so far makes the
      parser stop (an oversize length, a mac that does not match, a full ring), or the next
      receive cannot be posted. */
  lemma BadStreamsClose(k: Keys, n: nat, acts: seq<Act>, op: Op, chunk: seq<byte>, ok: bool)
    requires n <= 0xFFFF && EnabledRun(k, Start(n), acts)
    requires Enabled(k, Final(k, Start(n), acts), Arrive(op, chunk, ok))
    requires EngineRefs.Open(Final(k, Start(n), acts).sys.srv.slots[op.slot])
    ensures var f' := Step(k, Final(k, Start(n), acts), Arrive(op, chunk, ok));
      && op.slot < |f'.lines| == |f'.sys.srv.slots|
      && f'.lines[op.slot].stream == Final(k, Start(n), acts).lines[op.slot].stream + chunk
      && (EngineRefs.Open(f'.sys.srv.slots[op.slot]) <==> ok && F.Frames(k, f'.lines[op.slot].stream).status.Open?)
  {
    StartInv(k, n);
    RunKeepsInv(k, Start(n), acts);
    ReceiveCloses(k, Final(k, Start(n), acts), op, chunk, ok);
  }

  lemma ReceiveCloses(k: Keys, f: Feed, op: Op, chunk: seq<byte>, ok: bool)
    requires Inv(k, f) && Enabled(k, f, Arrive(op, chunk, ok)) && EngineRefs.Open(f.sys.srv.slots[op.slot])
    ensures var f' := Step(k, f, Arrive(op, chunk, ok));
      && op.slot < |f'.lines| == |f'.sys.srv.slots|
      && f'.lines[op.slot].stream == f.lines[op.slot].stream + chunk
      && (EngineRefs.Open(f'.sys.srv.slots[op.slot]) <==> ok && F.Frames(k, f'.lines[op.slot].stream).status.Open?)
  {
    StepKeepsInv(k, f, Arrive(op, chunk, ok));
    X.StepCloses(f.sys, ActionOf(k, f, Arrive(op, chunk, ok)), op.slot);
    assert LineOk(k, Step(k, f, Arrive(op, chunk, ok)).lines[op.slot]);
  }
}

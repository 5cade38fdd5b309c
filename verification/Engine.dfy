/**
  The session engine (CLanServer), one call per step: one accepted connection, one
  I/O completion, one SendPacket or Disconnect. The network is an arbitrary choice of
  outcomes, except that posting on a closed socket fails at once.
*/
module Engine {
  import opened PacketPool
  import opened SessionId
  import opened Bytes
  import opened SendQueue

  /** Bookkeeping of one incarnation; no step consults it. */
  datatype Log = Log(
    accepted: seq<Content>,   // what SendPacket accepted, in order
    posted: seq<Content>,     // what WSASend accepted, in order
    inFlight: seq<Pkt>,       // taken off the queue and not yet released or abandoned
    returned: nat              // times the slot went back to indexPool, over all incarnations
  )

  datatype Slot = Slot(
    generation: int,
    sid: SessionID,
    closed: bool,             // closeFlag
    pending: bool,            // sendPending
    queue: seq<Pkt>,          // sendQ from sqHead, sqCount long
    sent: seq<Pkt>,           // sendPkts[..sentCount]
    ioRef: int,
    log: Log
  )

  datatype Kind = Recv | Send

  /** A posted operation. Its completion carries the slot, not the generation. */
  datatype Op = Op(slot: nat, generation: int, kind: Kind)

  datatype Msg = Join(sid: SessionID) | Leave(sid: SessionID) | Received(sid: SessionID, pkt: Pkt)

  datatype Srv = Srv(
    slots: seq<Slot>,
    indexPool: seq<nat>,      // top first
    packets: Packets,
    contentQ: seq<Msg>,
    net: multiset<Op>,        // posted and not yet completed
    abandoned: multiset<Pkt>  // bookkeeping: references a failed send completion left behind
  )

  const FRESH_SLOT := Slot(0, 0, false, false, [], [], 0, Log([], [], [], 0))

  /** After `Start(maxSession = n)`. */
  function Started(n: nat): Srv {
    Srv(seq(n, _ => FRESH_SLOT), Descending(n), NO_PACKETS, [], multiset{}, multiset{})
  }

  function Descending(n: nat): (r: seq<nat>)
    ensures |r| == n
    ensures forall i | 0 <= i < n :: r[i] == n - 1 - i
  {
    if n == 0 then [] else [n - 1] + Descending(n - 1)
  }

  function SetSlot(s: Srv, i: nat, slot: Slot): (r: Srv)
    requires i < |s.slots|
    ensures |r.slots| == |s.slots|
    ensures r.packets.contents == s.packets.contents && r.packets.allocs == s.packets.allocs
    ensures r.abandoned == s.abandoned
  {
    s.(slots := s.slots[i := slot])
  }

  // -------------------------------------------------------------- the calls

  function IORelease(s: Srv, i: nat): (r: Srv)
    requires i < |s.slots|
    ensures |r.slots| == |s.slots|
    ensures r.packets.contents == s.packets.contents && r.packets.allocs == s.packets.allocs
    ensures r.abandoned == s.abandoned
  {
    var slot := s.slots[i];
    if slot.ioRef - 1 == 0 then
      var log := slot.log.(returned := slot.log.returned + 1);
      SetSlot(s, i, slot.(ioRef := slot.ioRef - 1, log := log)).(indexPool := [i] + s.indexPool)
    else SetSlot(s, i, slot.(ioRef := slot.ioRef - 1))
  }

  function IOAddRef(s: Srv, i: nat): (r: Srv)
    requires i < |s.slots|
    ensures |r.slots| == |s.slots|
    ensures r.packets.contents == s.packets.contents && r.packets.allocs == s.packets.allocs
    ensures r.abandoned == s.abandoned
  {
    SetSlot(s, i, s.slots[i].(ioRef := s.slots[i].ioRef + 1))
  }

  /** The first caller closes: the queue is released, LEAVE is announced, and the base
      reference is dropped. */
  function CloseSession(s: Srv, i: nat): (r: Srv)
    requires i < |s.slots|
    ensures |r.slots| == |s.slots|
    ensures r.packets.contents == s.packets.contents && r.packets.allocs == s.packets.allocs
    ensures r.abandoned == s.abandoned
  {
    if s.slots[i].closed then s else
    var slot := s.slots[i];
    var s1 := SetSlot(s, i, slot.(closed := true, queue := []));
    var s2 := s1.(packets := ReleaseAll(s1.packets, slot.queue), contentQ := s1.contentQ + [Leave(slot.sid)]);
    IORelease(s2, i)
  }

  function Posted(s: Srv, i: nat, kind: Kind): (r: Srv)
    requires i < |s.slots|
    ensures |r.slots| == |s.slots|
    ensures r.packets.contents == s.packets.contents && r.packets.allocs == s.packets.allocs
    ensures r.abandoned == s.abandoned
  {
    s.(net := s.net + multiset{Op(i, s.slots[i].generation, kind)})
  }

  function PostRecv(s: Srv, i: nat, ok: bool): (r: Srv)
    requires i < |s.slots|
    ensures |r.slots| == |s.slots|
    ensures r.packets.contents == s.packets.contents && r.packets.allocs == s.packets.allocs
    ensures r.abandoned == s.abandoned
  {
    var s1 := IOAddRef(s, i);
    if ok && !s.slots[i].closed then Posted(s1, i, Recv) else IORelease(CloseSession(s1, i), i)
  }

  /** Moves the queue to sendPkts. */
  function Take(slot: Slot): Slot {
    var n := if |slot.queue| <= QSIZE then |slot.queue| else QSIZE;
    slot.(pending := true, sent := slot.queue[..n], queue := slot.queue[n..],
          log := slot.log.(inFlight := slot.queue[..n]))
  }

  /** WSASend accepted the batch. */
  function SendPosted(s: Srv, i: nat): (r: Srv)
    requires i < |s.slots|
    ensures |r.slots| == |s.slots|
    ensures r.packets.contents == s.packets.contents && r.packets.allocs == s.packets.allocs
    ensures r.abandoned == s.abandoned
  {
    var slot := s.slots[i];
    var log := slot.log.(posted := slot.log.posted + Contents(s.packets.contents, slot.sent));
    Posted(SetSlot(s, i, slot.(log := log)), i, Send)
  }

  /** sendPkts is released and sendPending given up. */
  function DropSent(s: Srv, i: nat): (r: Srv)
    requires i < |s.slots|
    ensures |r.slots| == |s.slots|
    ensures r.packets.contents == s.packets.contents && r.packets.allocs == s.packets.allocs
    ensures r.abandoned == s.abandoned
  {
    var slot := s.slots[i];
    SetSlot(s, i, slot.(sent := [], pending := false, log := slot.log.(inFlight := [])))
      .(packets := ReleaseAll(s.packets, slot.sent))
  }

  function FlushSend(s: Srv, i: nat, ok: bool): (r: Srv)
    requires i < |s.slots|
    ensures |r.slots| == |s.slots|
    ensures r.packets.contents == s.packets.contents && r.packets.allocs == s.packets.allocs
    ensures r.abandoned == s.abandoned
  {
    if s.slots[i].pending then s else
    var s1 := IOAddRef(SetSlot(s, i, Take(s.slots[i])), i);
    if ok && !s.slots[i].closed then SendPosted(s1, i)
    else IORelease(CloseSession(DropSent(s1, i), i), i)
  }

  function OnSendComplete(s: Srv, i: nat, ok: bool): (r: Srv)
    requires i < |s.slots|
    ensures |r.slots| == |s.slots|
    ensures r.packets.contents == s.packets.contents && r.packets.allocs == s.packets.allocs
    ensures r.abandoned == s.abandoned
  {
    var s1 := DropSent(s, i);
    if s1.slots[i].queue != [] then FlushSend(s1, i, ok) else s1
  }

  function Enqueue(s: Srv, i: nat, p: Pkt): (r: Srv)
    requires i < |s.slots|
    ensures |r.slots| == |s.slots|
    ensures r.packets.contents == s.packets.contents && r.packets.allocs == s.packets.allocs
    ensures r.abandoned == s.abandoned
  {
    var slot := s.slots[i];
    var log := slot.log.(accepted := slot.log.accepted + [ContentOf(s.packets.contents, p)]);
    SetSlot(s, i, slot.(queue := slot.queue + [p], log := log)).(packets := AddRef(s.packets, p))
  }

  datatype Result = Result(srv: Srv, ok: bool)

  /** The tests both calls make of an identifier. */
  predicate Addresses(s: Srv, sid: SessionID) {
    SidIndex(sid) < |s.slots| && s.slots[SidIndex(sid)].generation == SidGeneration(sid)
  }

  function SendPacket(s: Srv, sid: SessionID, p: Pkt, ok: bool): (r: Result)
    ensures r.srv.packets.contents == s.packets.contents && r.srv.packets.allocs == s.packets.allocs
    ensures r.srv.abandoned == s.abandoned
  {
    var i := SidIndex(sid);
    if !Addresses(s, sid) || s.slots[i].closed then Result(s, false)
    else if |s.slots[i].queue| >= QSIZE then Result(CloseSession(s, i), false)
    else Result(FlushSend(Enqueue(s, i, p), i, ok), true)
  }

  function Disconnect(s: Srv, sid: SessionID): (r: Result)
    ensures r.srv.packets.contents == s.packets.contents && r.srv.packets.allocs == s.packets.allocs
    ensures r.srv.abandoned == s.abandoned
  {
    if !Addresses(s, sid) then Result(s, false) else Result(CloseSession(s, SidIndex(sid)), true)
  }

  function InitSlot(slot: Slot, i: nat): Slot
    requires i < 0xFFFF && -MAX_LONG - 1 <= slot.generation <= MAX_LONG
  {
    var g := NextLong(slot.generation);
    Slot(g, MakeSid(i, g), false, false, [], [], 1, Log([], [], [], slot.log.returned))
  }

  /** The pool holds slot numbers, and generations are 32-bit. */
  ghost predicate Shaped(s: Srv) {
    && |s.slots| <= 0xFFFF
    && (forall j | 0 <= j < |s.slots| :: -MAX_LONG - 1 <= s.slots[j].generation <= MAX_LONG)
    && (forall k | k in s.indexPool :: k < |s.slots|)
  }

  /** AcceptThread for one connection. `associated` is whether the completion port took
      the socket, `ok` whether the first receive was posted. */
  function Accept(s: Srv, associated: bool, ok: bool): (r: Srv)
    requires Shaped(s)
    ensures |r.slots| == |s.slots|
    ensures r.packets.contents == s.packets.contents && r.packets.allocs == s.packets.allocs
    ensures r.abandoned == s.abandoned
  {
    if s.indexPool == [] then s else
    var i := s.indexPool[0];
    assert i in s.indexPool;
    var s1 := SetSlot(s, i, InitSlot(s.slots[i], i)).(indexPool := s.indexPool[1..]);
    if !associated then CloseSession(s1, i)
    else PostRecv(s1.(contentQ := s1.contentQ + [Join(s1.slots[i].sid)]), i, ok)
  }

  /** Alloc, AttachRaw, OnRecv, Release for one decoded payload. */
  function Deliver(s: Srv, i: nat, payload: seq<byte>): (r: Srv)
    requires i < |s.slots|
    ensures |r.slots| == |s.slots|
    ensures r.abandoned == s.abandoned
  {
    var p := NextPkt(s.packets);
    var ps := Release(AddRef(AllocWith(s.packets, payload), p), p);
    s.(packets := ps, contentQ := s.contentQ + [Received(s.slots[i].sid, p)])
  }

  /** How the parse loop ended: it ran out of complete frames, closed the session, or
      closed it over a frame that failed to decode. */
  datatype End = Repost | Shut | Damaged

  /** Alloc and Release for a frame that failed to decode. */
  function Discard(s: Srv): Srv {
    s.(packets := Release(AllocWith(s.packets, []), NextPkt(s.packets)))
  }

  function DeliverAll(s: Srv, i: nat, payloads: seq<seq<byte>>, bad: bool): (r: Srv)
    requires i < |s.slots|
    ensures r.slots == s.slots && r.indexPool == s.indexPool && r.net == s.net && r.abandoned == s.abandoned
    decreases |payloads|
  {
    if payloads == [] then (if bad then Discard(s) else s)
    else DeliverAll(Deliver(s, i, payloads[0]), i, payloads[1..], bad)
  }

  /** OnRecvComplete: deliver what the frames yield, then close or receive again. */
  function OnRecvComplete(s: Srv, i: nat, payloads: seq<seq<byte>>, end: End, ok: bool): (r: Srv)
    requires i < |s.slots|
    ensures |r.slots| == |s.slots|
    ensures r.packets.contents == DeliverAll(s, i, payloads, end.Damaged?).packets.contents
    ensures r.packets.allocs == DeliverAll(s, i, payloads, end.Damaged?).packets.allocs
    ensures r.abandoned == s.abandoned
  {
    var s1 := DeliverAll(s, i, payloads, end.Damaged?);
    if end.Repost? then PostRecv(s1, i, ok) else CloseSession(s1, i)
  }

  function Arrived(s: Srv, op: Op): (r: Srv)
    ensures r.abandoned == s.abandoned
  {
    s.(net := s.net - multiset{op})
  }

  /** WorkerThread, receive completed with some bytes. */
  function RecvDone(s: Srv, op: Op, payloads: seq<seq<byte>>, end: End, ok: bool): (r: Srv)
    requires op.slot < |s.slots|
    ensures |r.slots| == |s.slots|
    ensures r.packets.contents == DeliverAll(Arrived(s, op), op.slot, payloads, end.Damaged?).packets.contents
    ensures r.packets.allocs == DeliverAll(Arrived(s, op), op.slot, payloads, end.Damaged?).packets.allocs
    ensures r.abandoned == s.abandoned
  {
    IORelease(OnRecvComplete(Arrived(s, op), op.slot, payloads, end, ok), op.slot)
  }

  /** WorkerThread, send completed. */
  function SendDone(s: Srv, op: Op, ok: bool): (r: Srv)
    requires op.slot < |s.slots|
    ensures |r.slots| == |s.slots|
    ensures r.packets.contents == s.packets.contents && r.packets.allocs == s.packets.allocs
    ensures r.abandoned == s.abandoned
  {
    IORelease(OnSendComplete(Arrived(s, op), op.slot, ok), op.slot)
  }

  /** The references of a send that failed stay in sendPkts for good. */
  function Abandon(s: Srv, i: nat): (r: Srv)
    requires i < |s.slots|
    ensures |r.slots| == |s.slots|
    ensures r.packets.contents == s.packets.contents && r.packets.allocs == s.packets.allocs
  {
    var slot := s.slots[i];
    SetSlot(s, i, slot.(log := slot.log.(inFlight := [])))
      .(abandoned := s.abandoned + multiset(slot.log.inFlight))
  }

  /** WorkerThread, failed or zero-byte completion. */
  function OpFailed(s: Srv, op: Op): (r: Srv)
    requires op.slot < |s.slots|
    ensures |r.slots| == |s.slots|
    ensures r.packets.contents == s.packets.contents && r.packets.allocs == s.packets.allocs
  {
    var s1 := CloseSession(Arrived(s, op), op.slot);
    var s2 := if op.kind.Send? then Abandon(s1, op.slot) else s1;
    IORelease(s2, op.slot)
  }
}

/** I/O reference counts, slot reuse and outstanding operations. */
module EngineRefs {
  import opened PacketPool
  import opened SessionId
  import opened Engine
  import opened Bytes
  import opened SendQueue

  predicate Open(slot: Slot) { slot.generation > 0 && !slot.closed }

  /** Where a worker stands with the slot it works on: references it holds itself;
      whether a receive is still to be posted; whether it owns sendPkts; whether it may
      still have to flush the queue. */
  datatype Due = Due(held: nat, recv: bool, send: bool, flush: bool)

  const SETTLED := Due(0, false, false, false)

  /** One slot with `r` receives and `w` sends outstanding. */
  ghost predicate SlotOk(slot: Slot, i: nat, r: nat, w: nat, d: Due) {
    && i < 0xFFFF && 0 <= slot.generation <= MAX_LONG
    && (slot.generation > 0 ==> slot.sid == MakeSid(i, slot.generation))
    && r <= 1 && w <= 1
    && slot.ioRef == (if Open(slot) then 1 else 0) + r + w + d.held
    && slot.log.returned + (if slot.ioRef == 0 then 0 else 1) == slot.generation
    && (Open(slot) ==> r == if d.recv then 0 else 1)
    && (d.send ==> w == 0 && slot.pending)
    && (w == 1 ==> slot.pending && slot.sent != [])
    && (Open(slot) && slot.pending && !d.send ==> w == 1)
    && (slot.queue != [] ==> Open(slot) && (slot.pending || d.flush))
    && |slot.queue| <= QSIZE
    && slot.log.inFlight == if w == 1 || d.send then slot.sent else []
  }

  function Recvs(s: Srv, i: nat): nat
    requires i < |s.slots|
  {
    s.net[Op(i, s.slots[i].generation, Recv)]
  }

  function Sends(s: Srv, i: nat): nat
    requires i < |s.slots|
  {
    s.net[Op(i, s.slots[i].generation, Send)]
  }

  /** indexPool holds each slot whose count is 0, once. */
  ghost predicate PoolOk(s: Srv) {
    && (forall k: nat :: k in s.indexPool <==> k < |s.slots| && s.slots[k].ioRef == 0)
    && (forall a, b | 0 <= a < b < |s.indexPool| :: s.indexPool[a] != s.indexPool[b])
  }

  /** Only operations of current incarnations can still complete. */
  ghost predicate NetOk(s: Srv) {
    forall op | op in s.net :: op.slot < |s.slots| && op.generation == s.slots[op.slot].generation
  }

  ghost predicate Others(s: Srv, i: nat) {
    forall j | 0 <= j < |s.slots| && j != i :: SlotOk(s.slots[j], j, Recvs(s, j), Sends(s, j), SETTLED)
  }

  /** The invariant while a worker is busy with slot `i`. */
  ghost predicate Refs(s: Srv, i: nat, d: Due) {
    && i < |s.slots| <= 0xFFFF
    && PoolOk(s) && NetOk(s) && Others(s, i)
    && SlotOk(s.slots[i], i, Recvs(s, i), Sends(s, i), d)
  }

  /** The invariant between steps. */
  ghost predicate RefsSettled(s: Srv) {
    && |s.slots| <= 0xFFFF
    && PoolOk(s) && NetOk(s)
    && (forall j | 0 <= j < |s.slots| :: SlotOk(s.slots[j], j, Recvs(s, j), Sends(s, j), SETTLED))
  }

  /** `s'` differs from `s` at slot `i` only, and in operations of slot `i` only. */
  ghost predicate OnlySlot(s: Srv, s': Srv, i: nat) {
    && |s'.slots| == |s.slots|
    && (forall j | 0 <= j < |s.slots| && j != i :: s'.slots[j] == s.slots[j])
    && (forall op: Op | op.slot != i :: s'.net[op] == s.net[op])
  }

  /** Moving between the two forms of the invariant. */
  lemma Settle(s: Srv, i: nat)
    requires i < |s.slots|
    ensures Refs(s, i, SETTLED) <==> RefsSettled(s)
  {
  }

  /** A step at slot `i` that neither frees nor takes the slot. */
  lemma SlotStep(s: Srv, s': Srv, i: nat, d: Due, d': Due)
    requires Refs(s, i, d) && OnlySlot(s, s', i)
    requires s'.indexPool == s.indexPool && (s'.slots[i].ioRef == 0 <==> s.slots[i].ioRef == 0)
    requires s'.slots[i].generation == s.slots[i].generation
    requires forall g, k | Op(i, g, k) in s'.net :: g == s.slots[i].generation
    requires SlotOk(s'.slots[i], i, Recvs(s', i), Sends(s', i), d')
    ensures Refs(s', i, d')
  {
    assert NetOk(s') by {
      forall op | op in s'.net ensures op.slot < |s'.slots| && op.generation == s'.slots[op.slot].generation {
        if op.slot != i { assert op in s.net; } else { assert op == Op(i, op.generation, op.kind); }
      }
    }
  }

  lemma AddRefKeeps(s: Srv, i: nat, d: Due)
    requires Refs(s, i, d) && s.slots[i].ioRef > 0
    ensures Refs(IOAddRef(s, i), i, d.(held := d.held + 1))
  {
    SlotStep(s, IOAddRef(s, i), i, d, d.(held := d.held + 1));
  }

  /** Dropping the last reference returns the slot. */
  lemma LastReleaseKeeps(s: Srv, i: nat, d: Due, d': Due)
    requires Refs(s, i, d) && s.slots[i].ioRef == 1
    requires SlotOk(IORelease(s, i).slots[i], i, Recvs(s, i), Sends(s, i), d')
    ensures Refs(IORelease(s, i), i, d')
  {
    assert i !in s.indexPool;
    assert IORelease(s, i).indexPool == [i] + s.indexPool;
  }

  lemma ReleaseKeeps(s: Srv, i: nat, d: Due)
    requires Refs(s, i, d) && d.held > 0
    ensures Refs(IORelease(s, i), i, d.(held := d.held - 1))
  {
    if s.slots[i].ioRef == 1 {
      LastReleaseKeeps(s, i, d, d.(held := d.held - 1));
    } else {
      SlotStep(s, IORelease(s, i), i, d, d.(held := d.held - 1));
    }
  }

  /** Closing leaves at least one reference: an operation outstanding or a worker's own. */
  lemma CloseKeeps(s: Srv, i: nat, d: Due)
    requires Refs(s, i, d) && s.slots[i].generation > 0 && (d.recv ==> d.held > 0)
    ensures Refs(CloseSession(s, i), i, Due(d.held, false, d.send, false))
    ensures CloseSession(s, i).slots[i].closed
  {
    if !s.slots[i].closed {
      SlotStep(s, CloseSession(s, i), i, d, Due(d.held, false, d.send, false));
    }
  }

  /** A reference taken for a receive becomes the outstanding receive. */
  lemma RecvPostedKeeps(s: Srv, i: nat, d: Due)
    requires Refs(s, i, d) && Open(s.slots[i]) && d.recv && d.held > 0
    ensures Refs(Posted(s, i, Recv), i, Due(d.held - 1, false, d.send, d.flush))
  {
    var s' := Posted(s, i, Recv);
    assert Recvs(s', i) == 1 && Sends(s', i) == Sends(s, i);
    SlotStep(s, s', i, d, Due(d.held - 1, false, d.send, d.flush));
  }

  lemma PostRecvKeeps(s: Srv, i: nat, d: Due, ok: bool)
    requires Refs(s, i, d) && s.slots[i].generation > 0 && s.slots[i].ioRef > 0 && d.recv && !d.flush
    ensures Refs(PostRecv(s, i, ok), i, d.(recv := false))
  {
    var s1 := IOAddRef(s, i);
    AddRefKeeps(s, i, d);
    if ok && !s.slots[i].closed {
      RecvPostedKeeps(s1, i, d.(held := d.held + 1));
    } else {
      CloseKeeps(s1, i, d.(held := d.held + 1));
      ReleaseKeeps(CloseSession(s1, i), i, Due(d.held + 1, false, d.send, false));
    }
  }

  lemma TakeKeeps(s: Srv, i: nat, d: Due)
    requires Refs(s, i, d) && Open(s.slots[i]) && !s.slots[i].pending && !d.send && s.slots[i].queue != []
    ensures Refs(SetSlot(s, i, Take(s.slots[i])), i, Due(d.held, d.recv, true, false))
    ensures Take(s.slots[i]).sent != [] && Take(s.slots[i]).queue == []
  {
    SlotStep(s, SetSlot(s, i, Take(s.slots[i])), i, d, Due(d.held, d.recv, true, false));
  }

  lemma SendPostedKeeps(s: Srv, i: nat, d: Due)
    requires Refs(s, i, d) && Open(s.slots[i]) && d.send && d.held > 0 && s.slots[i].sent != []
    ensures Refs(SendPosted(s, i), i, d.(held := d.held - 1, send := false))
  {
    var s' := SendPosted(s, i);
    assert Recvs(s', i) == Recvs(s, i) && Sends(s', i) == 1;
    SlotStep(s, s', i, d, d.(held := d.held - 1, send := false));
  }

  lemma DropSentKeeps(s: Srv, i: nat, d: Due)
    requires Refs(s, i, d) && d.send
    ensures Refs(DropSent(s, i), i, d.(send := false, flush := true))
  {
    SlotStep(s, DropSent(s, i), i, d, d.(send := false, flush := true));
  }

  /** An empty queue needs no flush. */
  lemma NothingToFlush(s: Srv, i: nat, d: Due)
    requires Refs(s, i, d) && (s.slots[i].queue == [] || s.slots[i].pending)
    ensures Refs(s, i, d.(flush := false))
  {
  }

  lemma FlushKeeps(s: Srv, i: nat, d: Due, ok: bool)
    requires Refs(s, i, d) && Open(s.slots[i]) && s.slots[i].queue != [] && !d.send && !d.recv && d.flush
    ensures Refs(FlushSend(s, i, ok), i, d.(flush := false))
  {
    if s.slots[i].pending {
      NothingToFlush(s, i, d);
    } else {
      var s0 := SetSlot(s, i, Take(s.slots[i]));
      var d1 := Due(d.held + 1, d.recv, true, false);
      TakeKeeps(s, i, d);
      AddRefKeeps(s0, i, Due(d.held, d.recv, true, false));
      var s1 := IOAddRef(s0, i);
      if ok && !s.slots[i].closed {
        SendPostedKeeps(s1, i, d1);
      } else {
        DropSentKeeps(s1, i, d1);
        CloseKeeps(DropSent(s1, i), i, Due(d.held + 1, false, false, true));
        ReleaseKeeps(CloseSession(DropSent(s1, i), i), i, Due(d.held + 1, false, false, false));
      }
    }
  }

  lemma OnSendCompleteKeeps(s: Srv, i: nat, d: Due, ok: bool)
    requires Refs(s, i, d) && d.send && !d.recv
    ensures Refs(OnSendComplete(s, i, ok), i, Due(d.held, false, false, false))
  {
    DropSentKeeps(s, i, d);
    var s1 := DropSent(s, i);
    if s1.slots[i].queue != [] {
      FlushKeeps(s1, i, d.(send := false, flush := true), ok);
    } else {
      NothingToFlush(s1, i, d.(send := false, flush := true));
    }
  }

  lemma EnqueueKeeps(s: Srv, i: nat, p: Pkt)
    requires Refs(s, i, SETTLED) && Open(s.slots[i]) && |s.slots[i].queue| < QSIZE
    ensures Refs(Enqueue(s, i, p), i, Due(0, false, false, true))
  {
    SlotStep(s, Enqueue(s, i, p), i, SETTLED, Due(0, false, false, true));
  }

  // ------------------------------------------------------------- the steps

  /** An identifier that some InitSession has issued. */
  ghost predicate Issued(s: Srv, sid: SessionID) {
    exists i: nat, g: int ::
      i < |s.slots| && i < 0xFFFF && 0 < g <= s.slots[i].generation <= MAX_LONG && sid == MakeSid(i, g)
  }

  /** SendPacket at an open slot. */
  lemma SendAtKeeps(s: Srv, i: nat, p: Pkt, ok: bool)
    requires Refs(s, i, SETTLED) && Open(s.slots[i])
    ensures |s.slots[i].queue| >= QSIZE ==> Refs(CloseSession(s, i), i, SETTLED)
    ensures |s.slots[i].queue| < QSIZE ==> Refs(FlushSend(Enqueue(s, i, p), i, ok), i, SETTLED)
  {
    if |s.slots[i].queue| >= QSIZE {
      CloseKeeps(s, i, SETTLED);
    } else {
      EnqueueKeeps(s, i, p);
      FlushKeeps(Enqueue(s, i, p), i, Due(0, false, false, true), ok);
    }
  }

  lemma SendPacketKeeps(s: Srv, sid: SessionID, p: Pkt, ok: bool)
    requires RefsSettled(s) && Issued(s, sid)
    ensures RefsSettled(SendPacket(s, sid, p, ok).srv)
  {
    IssuedAddress(s, sid);
    if Addresses(s, sid) && !s.slots[SidIndex(sid)].closed {
      var i := SidIndex(sid);
      Settle(s, i);
      SendAtKeeps(s, i, p, ok);
      Settle(SendPacket(s, sid, p, ok).srv, i);
    }
  }

  /** What an issued identifier addresses is a slot that has been used. */
  lemma IssuedAddress(s: Srv, sid: SessionID)
    requires Issued(s, sid)
    ensures Addresses(s, sid) ==> s.slots[SidIndex(sid)].generation > 0
  {
    var i: nat, g: int :|
      i < |s.slots| && i < 0xFFFF && 0 < g <= s.slots[i].generation <= MAX_LONG && sid == MakeSid(i, g);
    SidDecodes(i, g);
  }

  lemma DisconnectKeeps(s: Srv, sid: SessionID)
    requires RefsSettled(s) && Issued(s, sid)
    ensures RefsSettled(Disconnect(s, sid).srv)
  {
    IssuedAddress(s, sid);
    if Addresses(s, sid) {
      var i := SidIndex(sid);
      Settle(s, i);
      CloseKeeps(s, i, SETTLED);
      Settle(CloseSession(s, i), i);
    }
  }

  /** Taking a completion off the network leaves its reference with the worker. */
  lemma ArrivedKeeps(s: Srv, op: Op)
    requires RefsSettled(s) && op in s.net
    ensures Refs(Arrived(s, op), op.slot, Due(1, op.kind.Recv?, op.kind.Send?, false))
    ensures s.slots[op.slot].generation > 0 && s.slots[op.slot].ioRef > 0
  {
    var i := op.slot;
    Settle(s, i);
    assert op == Op(i, s.slots[i].generation, op.kind);
    SlotStep(s, Arrived(s, op), i, SETTLED, Due(1, op.kind.Recv?, op.kind.Send?, false));
  }

  lemma DeliverAllKeeps(s: Srv, i: nat, payloads: seq<seq<byte>>, bad: bool, d: Due)
    requires Refs(s, i, d)
    ensures Refs(DeliverAll(s, i, payloads, bad), i, d)
  {
    SlotStep(s, DeliverAll(s, i, payloads, bad), i, d, d);
  }

  lemma RecvDoneKeeps(s: Srv, op: Op, payloads: seq<seq<byte>>, end: End, ok: bool)
    requires RefsSettled(s) && op in s.net && op.kind.Recv?
    ensures RefsSettled(RecvDone(s, op, payloads, end, ok))
  {
    var i := op.slot;
    ArrivedKeeps(s, op);
    var s1 := DeliverAll(Arrived(s, op), i, payloads, end.Damaged?);
    DeliverAllKeeps(Arrived(s, op), i, payloads, end.Damaged?, Due(1, true, false, false));
    if end.Repost? {
      PostRecvKeeps(s1, i, Due(1, true, false, false), ok);
    } else {
      CloseKeeps(s1, i, Due(1, true, false, false));
    }
    ReleaseKeeps(OnRecvComplete(Arrived(s, op), i, payloads, end, ok), i, Due(1, false, false, false));
    Settle(RecvDone(s, op, payloads, end, ok), i);
  }

  lemma SendDoneKeeps(s: Srv, op: Op, ok: bool)
    requires RefsSettled(s) && op in s.net && op.kind.Send?
    ensures RefsSettled(SendDone(s, op, ok))
  {
    var i := op.slot;
    ArrivedKeeps(s, op);
    OnSendCompleteKeeps(Arrived(s, op), i, Due(1, false, true, false), ok);
    ReleaseKeeps(OnSendComplete(Arrived(s, op), i, ok), i, Due(1, false, false, false));
    Settle(SendDone(s, op, ok), i);
  }

  lemma AbandonKeeps(s: Srv, i: nat, d: Due)
    requires Refs(s, i, d) && d.send && !Open(s.slots[i])
    ensures Refs(Abandon(s, i), i, d.(send := false))
  {
    SlotStep(s, Abandon(s, i), i, d, d.(send := false));
  }

  lemma OpFailedKeeps(s: Srv, op: Op)
    requires RefsSettled(s) && op in s.net
    ensures RefsSettled(OpFailed(s, op))
  {
    var i := op.slot;
    ArrivedKeeps(s, op);
    var s1 := CloseSession(Arrived(s, op), i);
    CloseKeeps(Arrived(s, op), i, Due(1, op.kind.Recv?, op.kind.Send?, false));
    var s2 := if op.kind.Send? then Abandon(s1, i) else s1;
    if op.kind.Send? {
      AbandonKeeps(s1, i, Due(1, false, true, false));
    }
    ReleaseKeeps(s2, i, Due(1, false, false, false));
    Settle(OpFailed(s, op), i);
  }

  lemma SettledShaped(s: Srv)
    requires RefsSettled(s)
    ensures Shaped(s)
  {
    forall j | 0 <= j < |s.slots| ensures 0 <= s.slots[j].generation <= MAX_LONG {
      assert SlotOk(s.slots[j], j, Recvs(s, j), Sends(s, j), SETTLED);
    }
  }

  /** A reissued slot has no operation of an earlier incarnation outstanding. */
  lemma FreeSlotIsQuiet(s: Srv, op: Op)
    requires RefsSettled(s) && op.slot in s.indexPool
    ensures op !in s.net
  {
    var i := op.slot;
    assert SlotOk(s.slots[i], i, Recvs(s, i), Sends(s, i), SETTLED);
    assert Recvs(s, i) == 0 && Sends(s, i) == 0;
    match op.kind {
      case Recv => assert op == Op(i, op.generation, Recv);
      case Send => assert op == Op(i, op.generation, Send);
    }
  }

  /** The state of AcceptThread after InitSession. */
  function Initialised(s: Srv): Srv
    requires Shaped(s) && s.indexPool != []
  {
    assert s.indexPool[0] in s.indexPool;
    SetSlot(s, s.indexPool[0], InitSlot(s.slots[s.indexPool[0]], s.indexPool[0])).(indexPool := s.indexPool[1..])
  }

  lemma InitialisedKeeps(s: Srv)
    requires RefsSettled(s) && Shaped(s) && s.indexPool != []
    requires var i := s.indexPool[0]; i < |s.slots| && s.slots[i].generation < MAX_LONG
    ensures Refs(Initialised(s), s.indexPool[0], Due(0, true, false, false))
  {
    var i, s' := s.indexPool[0], Initialised(s);
    assert i in s.indexPool;
    forall op: Op | op.slot == i ensures op !in s.net { FreeSlotIsQuiet(s, op); }
    assert SlotOk(s.slots[i], i, Recvs(s, i), Sends(s, i), SETTLED);
    assert Recvs(s', i) == 0 && Sends(s', i) == 0;
    assert PoolOk(s') by {
      assert s.indexPool == [i] + s.indexPool[1..];
      forall k: nat ensures k in s'.indexPool <==> k < |s'.slots| && s'.slots[k].ioRef == 0 {
        if k == i {
          assert forall a | 0 < a < |s.indexPool| :: s.indexPool[a] != i;
        } else {
          assert k in s.indexPool <==> k in s.indexPool[1..];
        }
      }
    }
    assert Others(s', i) by {
      forall j | 0 <= j < |s'.slots| && j != i
        ensures SlotOk(s'.slots[j], j, Recvs(s', j), Sends(s', j), SETTLED)
      {
        assert SlotOk(s.slots[j], j, Recvs(s, j), Sends(s, j), SETTLED);
      }
    }
  }

  lemma AcceptKeeps(s: Srv, associated: bool, ok: bool)
    requires RefsSettled(s) && Shaped(s)
    requires s.indexPool != [] ==> s.indexPool[0] < |s.slots| && s.slots[s.indexPool[0]].generation < MAX_LONG
    ensures RefsSettled(Accept(s, associated, ok))
  {
    if s.indexPool != [] {
      var i, s1 := s.indexPool[0], Initialised(s);
      InitialisedKeeps(s);
      if !associated {
        NoReceiveDue(s1, i);
        Settle(CloseSession(s1, i), i);
      } else {
        var s2 := s1.(contentQ := s1.contentQ + [Join(s1.slots[i].sid)]);
        SlotStep(s1, s2, i, Due(0, true, false, false), Due(0, true, false, false));
        PostRecvKeeps(s2, i, Due(0, true, false, false), ok);
        Settle(PostRecv(s2, i, ok), i);
      }
    }
  }

  /** A session that could not be associated closes with nothing outstanding, and its
      slot goes straight back. */
  lemma NoReceiveDue(s: Srv, i: nat)
    requires Refs(s, i, Due(0, true, false, false)) && Open(s.slots[i]) && Sends(s, i) == 0
    ensures Refs(CloseSession(s, i), i, SETTLED)
  {
    var slot := s.slots[i];
    var s1 := SetSlot(s, i, slot.(closed := true, queue := []));
    var s2 := s1.(packets := ReleaseAll(s1.packets, slot.queue), contentQ := s1.contentQ + [Leave(slot.sid)]);
    assert i !in s.indexPool;
    assert CloseSession(s, i).indexPool == [i] + s.indexPool;
  }

  lemma StartedSettled(n: nat)
    requires n <= 0xFFFF
    ensures RefsSettled(Started(n))
  {
    var s := Started(n);
    forall k: nat ensures k in s.indexPool <==> k < n {
      if k < n { assert s.indexPool[n - 1 - k] == k; }
    }
  }
}

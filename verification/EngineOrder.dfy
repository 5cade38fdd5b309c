/**
  The send queue as a queue of bytes: what a session accepts is posted in order, once,
  and no buffer changes while it waits or is in flight, although buffers are shared by
  many sessions and reused.
*/
module EngineOrder {
  import opened PacketPool
  import opened SessionId
  import opened Engine
  import opened EngineRefs
  import opened EngineOwnership
  import opened Bytes
  import opened SendQueue

  /** Where a flush stands: nothing pending, a batch taken but not posted, or a batch
      lost to a failed WSASend, after which the session closes. */
  datatype Stage = Exact | Taken | Broken

  /** The tail of `posted` is still what the buffers in flight hold. */
  ghost predicate FlightIntact(b: Buffers, log: Log) {
    && |log.inFlight| <= |log.posted|
    && log.posted[|log.posted| - |log.inFlight|..] == Contents(b, log.inFlight)
  }

  ghost predicate Ordered(b: Buffers, slot: Slot, stage: Stage) {
    && slot.log.posted <= slot.log.accepted
    && (!stage.Taken? ==> FlightIntact(b, slot.log))
    && (Open(slot) ==>
          match stage
          case Exact => slot.log.accepted == slot.log.posted + Contents(b, slot.queue)
          case Taken => slot.log.accepted == slot.log.posted + Contents(b, slot.sent) + Contents(b, slot.queue)
          case Broken => true)
  }

  /** Accepted packets come in order of allocation, none younger than `top`. */
  ghost predicate Sorted(log: Log, top: nat) {
    && (forall a, c | 0 <= a < c < |log.accepted| :: log.accepted[a].serial <= log.accepted[c].serial)
    && (forall a | 0 <= a < |log.accepted| :: log.accepted[a].serial <= top)
  }

  /** Every slot, `i` in the middle of a flush. */
  ghost predicate InOrder(s: Srv, i: nat, stage: Stage, top: nat) {
    forall j | 0 <= j < |s.slots| ::
      Ordered(s.packets.contents, s.slots[j], if j == i then stage else Exact) && Sorted(s.slots[j].log, top)
  }

  lemma OrderStep(s: Srv, s': Srv, i: nat, stage: Stage, stage': Stage, top: nat)
    requires InOrder(s, i, stage, top) && i < |s.slots| == |s'.slots|
    requires forall j | 0 <= j < |s.slots| && j != i :: s'.slots[j] == s.slots[j]
    requires s'.packets.contents == s.packets.contents
    requires Ordered(s.packets.contents, s'.slots[i], stage') && Sorted(s'.slots[i].log, top)
    ensures InOrder(s', i, stage', top)
  {
  }

  lemma ReleaseOrder(s: Srv, i: nat, stage: Stage, top: nat)
    requires i < |s.slots| && InOrder(s, i, stage, top)
    ensures InOrder(IORelease(s, i), i, stage, top)
  {
    OrderStep(s, IORelease(s, i), i, stage, stage, top);
  }

  lemma AddRefOrder(s: Srv, i: nat, stage: Stage, top: nat)
    requires i < |s.slots| && InOrder(s, i, stage, top)
    ensures InOrder(IOAddRef(s, i), i, stage, top)
  {
    OrderStep(s, IOAddRef(s, i), i, stage, stage, top);
  }

  lemma CloseOrder(s: Srv, i: nat, stage: Stage, top: nat)
    requires i < |s.slots| && InOrder(s, i, stage, top) && !stage.Taken? && s.slots[i].generation > 0
    ensures InOrder(CloseSession(s, i), i, Exact, top)
  {
    var s' := CloseSession(s, i);
    var log, log' := s.slots[i].log, s'.slots[i].log;
    assert log'.accepted == log.accepted && log'.posted == log.posted && log'.inFlight == log.inFlight;
    ClosedOrdered(s.packets.contents, s.slots[i], s'.slots[i], stage);
    OrderStep(s, s', i, stage, Exact, top);
  }

  lemma ClosedOrdered(b: Buffers, slot: Slot, slot': Slot, stage: Stage)
    requires Ordered(b, slot, stage) && !stage.Taken? && slot'.closed
    requires slot'.log.accepted == slot.log.accepted && slot'.log.posted == slot.log.posted
    requires slot'.log.inFlight == slot.log.inFlight
    ensures Ordered(b, slot', Exact)
  {
  }

  lemma PostRecvOrder(s: Srv, i: nat, ok: bool, top: nat)
    requires i < |s.slots| && InOrder(s, i, Exact, top) && s.slots[i].generation > 0
    ensures InOrder(PostRecv(s, i, ok), i, Exact, top)
  {
    AddRefOrder(s, i, Exact, top);
    if ok && !s.slots[i].closed {
      OrderStep(IOAddRef(s, i), PostRecv(s, i, ok), i, Exact, Exact, top);
    } else {
      CloseOrder(IOAddRef(s, i), i, Exact, top);
      ReleaseOrder(CloseSession(IOAddRef(s, i), i), i, Exact, top);
    }
  }

  /** Splitting a queue splits its contents. */
  lemma {:induction false} ContentsSplit(b: Buffers, p: seq<Pkt>, q: seq<Pkt>)
    ensures Contents(b, p + q) == Contents(b, p) + Contents(b, q)
  {
    var all, parts := Contents(b, p + q), Contents(b, p) + Contents(b, q);
    assert forall k | 0 <= k < |all| :: all[k] == parts[k];
  }

  lemma TakenOrdered(b: Buffers, slot: Slot)
    requires Ordered(b, slot, Exact)
    ensures Ordered(b, Take(slot), Taken)
  {
    assert slot.queue == Take(slot).sent + Take(slot).queue;
    ContentsSplit(b, Take(slot).sent, Take(slot).queue);
    if Open(slot) {
      var log, a, c := slot.log, Contents(b, Take(slot).sent), Contents(b, Take(slot).queue);
      assert log.posted + (a + c) == log.posted + a + c;
    }
  }

  lemma TakeOrder(s: Srv, i: nat, top: nat)
    requires i < |s.slots| && InOrder(s, i, Exact, top)
    ensures InOrder(SetSlot(s, i, Take(s.slots[i])), i, Taken, top)
  {
    var slot := s.slots[i];
    TakenOrdered(s.packets.contents, slot);
    OrderStep(s, SetSlot(s, i, Take(slot)), i, Exact, Taken, top);
  }

  lemma SendPostedOrder(s: Srv, i: nat, top: nat)
    requires i < |s.slots| && InOrder(s, i, Taken, top) && Open(s.slots[i])
    requires s.slots[i].log.inFlight == s.slots[i].sent
    ensures InOrder(SendPosted(s, i), i, Exact, top)
  {
    OrderStep(s, SendPosted(s, i), i, Taken, Exact, top);
  }

  lemma DropSentOrder(s: Srv, i: nat, stage: Stage, top: nat)
    requires i < |s.slots| && InOrder(s, i, stage, top)
    ensures InOrder(DropSent(s, i), i, if stage.Exact? then Exact else Broken, top)
  {
    OrderStep(s, DropSent(s, i), i, stage, if stage.Exact? then Exact else Broken, top);
  }

  lemma FlushOrder(s: Srv, i: nat, ok: bool, top: nat)
    requires i < |s.slots| && InOrder(s, i, Exact, top) && s.slots[i].generation > 0
    ensures InOrder(FlushSend(s, i, ok), i, Exact, top)
  {
    if !s.slots[i].pending {
      var s0 := SetSlot(s, i, Take(s.slots[i]));
      TakeOrder(s, i, top);
      AddRefOrder(s0, i, Taken, top);
      var s1 := IOAddRef(s0, i);
      if ok && !s.slots[i].closed {
        SendPostedOrder(s1, i, top);
      } else {
        DropSentOrder(s1, i, Taken, top);
        CloseOrder(DropSent(s1, i), i, Broken, top);
        ReleaseOrder(CloseSession(DropSent(s1, i), i), i, Exact, top);
      }
    }
  }

  lemma OnSendCompleteOrder(s: Srv, i: nat, ok: bool, top: nat)
    requires i < |s.slots| && InOrder(s, i, Exact, top) && s.slots[i].generation > 0
    ensures InOrder(OnSendComplete(s, i, ok), i, Exact, top)
  {
    DropSentOrder(s, i, Exact, top);
    if DropSent(s, i).slots[i].queue != [] {
      FlushOrder(DropSent(s, i), i, ok, top);
    }
  }

  lemma EnqueueOrder(s: Srv, i: nat, p: Pkt, top: nat)
    requires i < |s.slots| && InOrder(s, i, Exact, top) && ContentOf(s.packets.contents, p).serial == top
    ensures InOrder(Enqueue(s, i, p), i, Exact, top)
  {
    EnqueueSlotOrder(s.packets.contents, s.slots[i], Enqueue(s, i, p).slots[i], p, top);
    OrderStep(s, Enqueue(s, i, p), i, Exact, Exact, top);
  }

  lemma EnqueueSlotOrder(b: Buffers, slot: Slot, slot': Slot, p: Pkt, top: nat)
    requires Ordered(b, slot, Exact) && Sorted(slot.log, top) && ContentOf(b, p).serial == top
    requires slot' == slot.(queue := slot.queue + [p],
                            log := slot.log.(accepted := slot.log.accepted + [ContentOf(b, p)]))
    ensures Ordered(b, slot', Exact) && Sorted(slot'.log, top)
  {
    ContentsSplit(b, slot.queue, [p]);
  }

  /** The packet sent is the youngest so far. */
  lemma SendPacketOrder(s: Srv, sid: SessionID, p: Pkt, ok: bool, top: nat)
    requires Issued(s, sid) && InOrder(s, 0, Exact, top) && ContentOf(s.packets.contents, p).serial == top
    ensures InOrder(SendPacket(s, sid, p, ok).srv, 0, Exact, top)
  {
    IssuedAddress(s, sid);
    if Addresses(s, sid) && !s.slots[SidIndex(sid)].closed {
      var i := SidIndex(sid);
      if |s.slots[i].queue| >= QSIZE {
        CloseOrder(s, i, Exact, top);
      } else {
        EnqueueOrder(s, i, p, top);
        FlushOrder(Enqueue(s, i, p), i, ok, top);
      }
    }
  }

  lemma DisconnectOrder(s: Srv, sid: SessionID, top: nat)
    requires Issued(s, sid) && InOrder(s, 0, Exact, top)
    ensures InOrder(Disconnect(s, sid).srv, 0, Exact, top)
  {
    IssuedAddress(s, sid);
    if Addresses(s, sid) { CloseOrder(s, SidIndex(sid), Exact, top); }
  }

  /** A slot's packets are among the holders'. */
  lemma {:induction false} SlotRefsIncluded(slots: seq<Slot>, i: nat)
    requires i < |slots|
    ensures SlotRefs(slots[i]) <= AllSlotRefs(slots)
  {
    if i > 0 { SlotRefsIncluded(slots[1..], i - 1); }
  }

  /** Alloc hands out no buffer that anybody holds, so queued and in-flight contents
      stay as they are. */
  lemma AllocOrder(s: Srv, bytes: seq<byte>, callers: multiset<Pkt>, top: nat)
    requires Owned(s, callers) && InOrder(s, 0, Exact, top)
    ensures InOrder(s.(packets := AllocWith(s.packets, bytes)), 0, Exact, top)
  {
    AllocAccounts(s.packets, Holders(s) + callers, bytes);
    var b, b' := s.packets.contents, AllocWith(s.packets, bytes).contents;
    forall j | 0 <= j < |s.slots| ensures Ordered(b', s.slots[j], Exact) && Sorted(s.slots[j].log, top) {
      var slot := s.slots[j];
      SlotRefsIncluded(s.slots, j);
      assert Ordered(b, slot, Exact);
      HeldContents(b, b', slot.queue, Holders(s) + callers);
      HeldContents(b, b', slot.log.inFlight, Holders(s) + callers);
    }
  }

  lemma HeldContents(b: Buffers, b': Buffers, pkts: seq<Pkt>, held: multiset<Pkt>)
    requires multiset(pkts) <= held && forall p | p in held :: ContentOf(b', p) == ContentOf(b, p)
    ensures Contents(b', pkts) == Contents(b, pkts)
  {
    forall k | 0 <= k < |pkts| ensures ContentOf(b', pkts[k]) == ContentOf(b, pkts[k]) {
      assert pkts[k] in multiset(pkts);
    }
  }

  lemma DeliverOrder(s: Srv, i: nat, payload: seq<byte>, callers: multiset<Pkt>, top: nat)
    requires i < |s.slots| && Owned(s, callers) && InOrder(s, 0, Exact, top)
    ensures InOrder(Deliver(s, i, payload), 0, Exact, top)
  {
    AllocOrder(s, payload, callers, top);
  }

  lemma {:induction false} DeliverAllOrder(s: Srv, i: nat, payloads: seq<seq<byte>>, bad: bool,
                                           callers: multiset<Pkt>, top: nat)
    requires i < |s.slots| && Owned(s, callers) && InOrder(s, 0, Exact, top)
    ensures InOrder(DeliverAll(s, i, payloads, bad), 0, Exact, top)
    decreases |payloads|
  {
    if payloads != [] {
      DeliverOrder(s, i, payloads[0], callers, top);
      DeliverOwned(s, i, payloads[0], callers);
      DeliverAllOrder(Deliver(s, i, payloads[0]), i, payloads[1..], bad, callers, top);
    } else if bad {
      AllocOrder(s, [], callers, top);
    }
  }

  lemma OnRecvCompleteOrder(s: Srv, i: nat, payloads: seq<seq<byte>>, end: End, ok: bool,
                            callers: multiset<Pkt>, top: nat)
    requires i < |s.slots| && Owned(s, callers) && InOrder(s, 0, Exact, top) && s.slots[i].generation > 0
    ensures InOrder(OnRecvComplete(s, i, payloads, end, ok), 0, Exact, top)
  {
    DeliverAllOrder(s, i, payloads, end.Damaged?, callers, top);
    var s1 := DeliverAll(s, i, payloads, end.Damaged?);
    if end.Repost? { PostRecvOrder(s1, i, ok, top); } else { CloseOrder(s1, i, Exact, top); }
  }

  lemma HandledOrder(s: Srv, i: nat, payloads: seq<seq<byte>>, end: End, ok: bool, callers: multiset<Pkt>, top: nat)
    requires i < |s.slots| && Owned(s, callers) && InOrder(s, 0, Exact, top) && s.slots[i].generation > 0
    ensures InOrder(IORelease(OnRecvComplete(s, i, payloads, end, ok), i), 0, Exact, top)
  {
    OnRecvCompleteOrder(s, i, payloads, end, ok, callers, top);
    ReleaseOrder(OnRecvComplete(s, i, payloads, end, ok), i, Exact, top);
  }

  lemma RecvDoneOrder(s: Srv, op: Op, payloads: seq<seq<byte>>, end: End, ok: bool, callers: multiset<Pkt>, top: nat)
    requires op.slot < |s.slots| && s.slots[op.slot].generation > 0
    requires Owned(s, callers) && InOrder(s, 0, Exact, top)
    ensures InOrder(RecvDone(s, op, payloads, end, ok), 0, Exact, top)
  {
    ArrivedOwned(s, op, callers);
    HandledOrder(Arrived(s, op), op.slot, payloads, end, ok, callers, top);
  }

  lemma SendDoneOrder(s: Srv, op: Op, ok: bool, top: nat)
    requires op.slot < |s.slots| && s.slots[op.slot].generation > 0 && InOrder(s, 0, Exact, top)
    ensures InOrder(SendDone(s, op, ok), 0, Exact, top)
  {
    OnSendCompleteOrder(Arrived(s, op), op.slot, ok, top);
    ReleaseOrder(OnSendComplete(Arrived(s, op), op.slot, ok), op.slot, Exact, top);
  }

  lemma OpFailedOrder(s: Srv, op: Op, top: nat)
    requires op.slot < |s.slots| && s.slots[op.slot].generation > 0 && InOrder(s, 0, Exact, top)
    ensures InOrder(OpFailed(s, op), 0, Exact, top)
  {
    var i := op.slot;
    CloseOrder(Arrived(s, op), i, Exact, top);
    var s1 := CloseSession(Arrived(s, op), i);
    var s2 := if op.kind.Send? then Abandon(s1, i) else s1;
    if op.kind.Send? { OrderStep(s1, s2, i, Exact, Exact, top); }
    ReleaseOrder(s2, i, Exact, top);
  }

  lemma AcceptOrder(s: Srv, associated: bool, ok: bool, top: nat)
    requires Shaped(s) && InOrder(s, 0, Exact, top)
    requires s.indexPool != [] ==> s.indexPool[0] < |s.slots| && 0 <= s.slots[s.indexPool[0]].generation < MAX_LONG
    ensures InOrder(Accept(s, associated, ok), 0, Exact, top)
  {
    if s.indexPool != [] {
      var i, s1 := s.indexPool[0], Initialised(s);
      OrderStep(s, s1, i, Exact, Exact, top);
      if !associated {
        CloseOrder(s1, i, Exact, top);
      } else {
        PostRecvOrder(s1.(contentQ := s1.contentQ + [Join(s1.slots[i].sid)]), i, ok, top);
      }
    }
  }

  /** Accepted sequences change only where SendPacket says so. */
  ghost predicate SameAccepted(slots: seq<Slot>, slots': seq<Slot>) {
    |slots'| == |slots| && forall j | 0 <= j < |slots| :: slots'[j].log.accepted == slots[j].log.accepted
  }

  lemma CloseAcceptsNothing(s: Srv, i: nat)
    requires i < |s.slots|
    ensures SameAccepted(s.slots, CloseSession(s, i).slots)
  {
  }

  lemma FlushAcceptsNothing(s: Srv, i: nat, ok: bool)
    requires i < |s.slots|
    ensures SameAccepted(s.slots, FlushSend(s, i, ok).slots)
  {
    if !s.slots[i].pending && (!ok || s.slots[i].closed) {
      CloseAcceptsNothing(DropSent(IOAddRef(SetSlot(s, i, Take(s.slots[i])), i), i), i);
    }
  }

  /** SendPacket returns true exactly when the packet joins the accepted sequence of the
      session addressed; no other sequence changes. */
  lemma SendPacketTellsTheTruth(s: Srv, sid: SessionID, p: Pkt, ok: bool)
    ensures var i, r := SidIndex(sid), SendPacket(s, sid, p, ok);
      if r.ok then
        && i < |s.slots| == |r.srv.slots| && !s.slots[i].closed
        && r.srv.slots[i].log.accepted == s.slots[i].log.accepted + [ContentOf(s.packets.contents, p)]
        && forall j | 0 <= j < |s.slots| && j != i :: r.srv.slots[j].log.accepted == s.slots[j].log.accepted
      else SameAccepted(s.slots, r.srv.slots)
  {
    var i := SidIndex(sid);
    if Addresses(s, sid) && !s.slots[i].closed {
      if |s.slots[i].queue| >= QSIZE {
        CloseAcceptsNothing(s, i);
      } else {
        FlushAcceptsNothing(Enqueue(s, i, p), i, ok);
      }
    }
  }
}

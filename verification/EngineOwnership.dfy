/** Packet references across send queues, sends in flight, and the content queue. */
module EngineOwnership {
  import opened PacketPool
  import opened SessionId
  import opened Engine
  import opened EngineRefs
  import opened Bytes
  import opened SendQueue

  /** The references one slot holds. */
  function SlotRefs(slot: Slot): multiset<Pkt> {
    multiset(slot.queue) + multiset(slot.log.inFlight)
  }

  function AllSlotRefs(slots: seq<Slot>): multiset<Pkt> {
    if slots == [] then multiset{} else SlotRefs(slots[0]) + AllSlotRefs(slots[1..])
  }

  function QueuedRefs(q: seq<Msg>): multiset<Pkt> {
    if q == [] then multiset{}
    else (if q[0].Received? then multiset{q[0].pkt} else multiset{}) + QueuedRefs(q[1..])
  }

  /** Every reference there should be: queued, in flight, waiting for the Update
      thread, or left behind by a failed send completion. */
  function Holders(s: Srv): multiset<Pkt> {
    AllSlotRefs(s.slots) + QueuedRefs(s.contentQ) + s.abandoned
  }

  /** The counts are right when `callers` are the references callers hold. */
  ghost predicate Owned(s: Srv, callers: multiset<Pkt>) {
    Accounts(s.packets, Holders(s) + callers)
  }

  lemma {:induction false} SlotRefsUpdate(slots: seq<Slot>, i: nat, slot: Slot)
    requires i < |slots|
    ensures AllSlotRefs(slots[i := slot]) + SlotRefs(slots[i]) == AllSlotRefs(slots) + SlotRefs(slot)
  {
    if i > 0 {
      assert slots[i := slot][1..] == slots[1..][i - 1 := slot];
      SlotRefsUpdate(slots[1..], i - 1, slot);
      var head, rest, rest' := SlotRefs(slots[0]), AllSlotRefs(slots[1..]), AllSlotRefs(slots[1..][i - 1 := slot]);
      assert head + rest' + SlotRefs(slots[i]) == head + (rest' + SlotRefs(slots[i]));
      assert head + (rest + SlotRefs(slot)) == head + rest + SlotRefs(slot);
    } else {
      assert slots[i := slot][1..] == slots[1..];
    }
  }

  /** A slot that keeps its references keeps the total. */
  lemma SameSlotRefs(slots: seq<Slot>, i: nat, slot: Slot)
    requires i < |slots| && SlotRefs(slot) == SlotRefs(slots[i])
    ensures AllSlotRefs(slots[i := slot]) == AllSlotRefs(slots)
  {
    SlotRefsUpdate(slots, i, slot);
    var a, b, c := AllSlotRefs(slots[i := slot]), AllSlotRefs(slots), SlotRefs(slot);
    assert a == a + c - c == b + c - c == b;
  }

  lemma {:induction false} QueuedRefsAppend(q: seq<Msg>, m: Msg)
    ensures QueuedRefs(q + [m]) == QueuedRefs(q) + if m.Received? then multiset{m.pkt} else multiset{}
  {
    if q == [] {
      assert q + [m] == [m];
    } else {
      assert (q + [m])[1..] == q[1..] + [m];
      QueuedRefsAppend(q[1..], m);
    }
  }

  /** Releasing references a slot held, and taking them off the slot. */
  lemma SlotReleases(s: Srv, i: nat, slot: Slot, pkts: seq<Pkt>, callers: multiset<Pkt>)
    requires i < |s.slots| && Owned(s, callers)
    requires SlotRefs(s.slots[i]) == SlotRefs(slot) + multiset(pkts)
    ensures Owned(SetSlot(s, i, slot).(packets := ReleaseAll(s.packets, pkts)), callers)
  {
    var s' := SetSlot(s, i, slot).(packets := ReleaseAll(s.packets, pkts));
    SlotReleasesTotal(s.slots, i, slot, pkts);
    var before, after := Holders(s) + callers, Holders(s') + callers;
    Regroup(AllSlotRefs(s'.slots), multiset(pkts), QueuedRefs(s.contentQ), s.abandoned, callers);
    ReleasedAccounts(s.packets, before, after, pkts);
  }

  lemma ReleasedAccounts(ps: Packets, before: multiset<Pkt>, after: multiset<Pkt>, pkts: seq<Pkt>)
    requires Accounts(ps, before) && before == after + multiset(pkts)
    ensures Accounts(ReleaseAll(ps, pkts), after)
  {
    ReleaseAllAccounts(ps, before, pkts);
    assert before - multiset(pkts) == after;
  }

  lemma SlotReleasesTotal(slots: seq<Slot>, i: nat, slot: Slot, pkts: seq<Pkt>)
    requires i < |slots| && SlotRefs(slots[i]) == SlotRefs(slot) + multiset(pkts)
    ensures AllSlotRefs(slots) == AllSlotRefs(slots[i := slot]) + multiset(pkts)
  {
    SlotRefsUpdate(slots, i, slot);
    var a, b := AllSlotRefs(slots[i := slot]), AllSlotRefs(slots);
    assert a + multiset(pkts) + SlotRefs(slot) == b + SlotRefs(slot);
    Cancel(a + multiset(pkts), b, SlotRefs(slot));
  }

  lemma Regroup(a: multiset<Pkt>, p: multiset<Pkt>, b: multiset<Pkt>, c: multiset<Pkt>, d: multiset<Pkt>)
    ensures a + p + b + c + d == a + b + c + d + p
  {
  }

  lemma Cancel(a: multiset<Pkt>, b: multiset<Pkt>, c: multiset<Pkt>)
    requires a + c == b + c
    ensures a == b
  {
    assert a == a + c - c == b + c - c == b;
  }

  /** A change that moves no reference. */
  lemma SameHolders(s: Srv, s': Srv, callers: multiset<Pkt>)
    requires Owned(s, callers) && s'.packets == s.packets && Holders(s') == Holders(s)
    ensures Owned(s', callers)
  {
  }

  lemma IOReleaseOwned(s: Srv, i: nat, callers: multiset<Pkt>)
    requires i < |s.slots| && Owned(s, callers)
    ensures Owned(IORelease(s, i), callers)
  {
    SameSlotRefs(s.slots, i, IORelease(s, i).slots[i]);
    assert IORelease(s, i).slots == s.slots[i := IORelease(s, i).slots[i]];
    SameHolders(s, IORelease(s, i), callers);
  }

  lemma IOAddRefOwned(s: Srv, i: nat, callers: multiset<Pkt>)
    requires i < |s.slots| && Owned(s, callers)
    ensures Owned(IOAddRef(s, i), callers)
  {
    SameSlotRefs(s.slots, i, IOAddRef(s, i).slots[i]);
    SameHolders(s, IOAddRef(s, i), callers);
  }

  lemma CloseOwned(s: Srv, i: nat, callers: multiset<Pkt>)
    requires i < |s.slots| && Owned(s, callers)
    ensures Owned(CloseSession(s, i), callers)
  {
    if !s.slots[i].closed {
      var slot := s.slots[i];
      var slot' := slot.(closed := true, queue := []);
      assert SlotRefs(slot) == SlotRefs(slot') + multiset(slot.queue);
      SlotReleases(s, i, slot', slot.queue, callers);
      var s2 := SetSlot(s, i, slot').(packets := ReleaseAll(s.packets, slot.queue));
      var s3 := s2.(contentQ := s2.contentQ + [Leave(slot.sid)]);
      QueuedRefsAppend(s2.contentQ, Leave(slot.sid));
      SameHolders(s2, s3, callers);
      IOReleaseOwned(s3, i, callers);
    }
  }

  lemma PostRecvOwned(s: Srv, i: nat, ok: bool, callers: multiset<Pkt>)
    requires i < |s.slots| && Owned(s, callers)
    ensures Owned(PostRecv(s, i, ok), callers)
  {
    IOAddRefOwned(s, i, callers);
    if !ok || s.slots[i].closed {
      CloseOwned(IOAddRef(s, i), i, callers);
      IOReleaseOwned(CloseSession(IOAddRef(s, i), i), i, callers);
    }
  }

  lemma TakeOwned(s: Srv, i: nat, callers: multiset<Pkt>)
    requires i < |s.slots| && Owned(s, callers) && s.slots[i].log.inFlight == []
    ensures Owned(SetSlot(s, i, Take(s.slots[i])), callers)
  {
    var slot := s.slots[i];
    assert slot.queue == Take(slot).sent + Take(slot).queue;
    SameSlotRefs(s.slots, i, Take(slot));
    SameHolders(s, SetSlot(s, i, Take(slot)), callers);
  }

  lemma SendPostedOwned(s: Srv, i: nat, callers: multiset<Pkt>)
    requires i < |s.slots| && Owned(s, callers)
    ensures Owned(SendPosted(s, i), callers)
  {
    SameSlotRefs(s.slots, i, SendPosted(s, i).slots[i]);
    SameHolders(s, SendPosted(s, i), callers);
  }

  /** Releasing sendPkts releases what was in flight. */
  lemma DropSentOwned(s: Srv, i: nat, callers: multiset<Pkt>)
    requires i < |s.slots| && Owned(s, callers) && s.slots[i].log.inFlight == s.slots[i].sent
    ensures Owned(DropSent(s, i), callers)
  {
    var slot := s.slots[i];
    SlotReleases(s, i, slot.(sent := [], pending := false, log := slot.log.(inFlight := [])), slot.sent, callers);
  }

  lemma FlushOwned(s: Srv, i: nat, d: Due, ok: bool, callers: multiset<Pkt>)
    requires Refs(s, i, d) && Owned(s, callers) && !d.send
    ensures Owned(FlushSend(s, i, ok), callers)
  {
    if !s.slots[i].pending {
      var s0 := SetSlot(s, i, Take(s.slots[i]));
      TakeOwned(s, i, callers);
      IOAddRefOwned(s0, i, callers);
      var s1 := IOAddRef(s0, i);
      if ok && !s.slots[i].closed {
        SendPostedOwned(s1, i, callers);
      } else {
        DropSentOwned(s1, i, callers);
        CloseOwned(DropSent(s1, i), i, callers);
        IOReleaseOwned(CloseSession(DropSent(s1, i), i), i, callers);
      }
    }
  }

  lemma OnSendCompleteOwned(s: Srv, i: nat, d: Due, ok: bool, callers: multiset<Pkt>)
    requires Refs(s, i, d) && Owned(s, callers) && d.send
    ensures Owned(OnSendComplete(s, i, ok), callers)
  {
    DropSentOwned(s, i, callers);
    DropSentKeeps(s, i, d);
    if DropSent(s, i).slots[i].queue != [] {
      FlushOwned(DropSent(s, i), i, d.(send := false, flush := true), ok, callers);
    }
  }

  /** The caller's own reference makes AddRef safe, and the queue gets a second one. */
  lemma EnqueueOwned(s: Srv, i: nat, p: Pkt, callers: multiset<Pkt>)
    requires i < |s.slots| && Owned(s, callers) && p in callers
    ensures Owned(Enqueue(s, i, p), callers)
  {
    var slot, slot' := s.slots[i], Enqueue(s, i, p).slots[i];
    AddRefAccounts(s.packets, Holders(s) + callers, p);
    SlotRefsUpdate(s.slots, i, slot');
    assert SlotRefs(slot') == SlotRefs(slot) + multiset{p};
    assert AllSlotRefs(Enqueue(s, i, p).slots) + SlotRefs(slot) == AllSlotRefs(s.slots) + multiset{p} + SlotRefs(slot);
    Cancel(AllSlotRefs(Enqueue(s, i, p).slots), AllSlotRefs(s.slots) + multiset{p}, SlotRefs(slot));
    assert Holders(Enqueue(s, i, p)) + callers == Holders(s) + callers + multiset{p};
  }

  lemma EnqueueFlushOwned(s: Srv, i: nat, p: Pkt, ok: bool, callers: multiset<Pkt>)
    requires Refs(s, i, SETTLED) && Open(s.slots[i]) && |s.slots[i].queue| < QSIZE
    requires Owned(s, callers) && p in callers
    ensures Owned(FlushSend(Enqueue(s, i, p), i, ok), callers)
  {
    EnqueueOwned(s, i, p, callers);
    EnqueueKeeps(s, i, p);
    FlushOwned(Enqueue(s, i, p), i, Due(0, false, false, true), ok, callers);
  }

  /** SendPacket at an open slot. */
  lemma SendAtOwned(s: Srv, i: nat, p: Pkt, ok: bool, callers: multiset<Pkt>)
    requires RefsSettled(s) && i < |s.slots| && Open(s.slots[i]) && Owned(s, callers) && p in callers
    ensures |s.slots[i].queue| >= QSIZE ==> Owned(CloseSession(s, i), callers)
    ensures |s.slots[i].queue| < QSIZE ==> Owned(FlushSend(Enqueue(s, i, p), i, ok), callers)
  {
    if |s.slots[i].queue| >= QSIZE {
      CloseOwned(s, i, callers);
    } else {
      Settle(s, i);
      EnqueueFlushOwned(s, i, p, ok, callers);
    }
  }

  lemma SendPacketOwned(s: Srv, sid: SessionID, p: Pkt, ok: bool, callers: multiset<Pkt>)
    requires RefsSettled(s) && Issued(s, sid) && Owned(s, callers) && p in callers
    ensures Owned(SendPacket(s, sid, p, ok).srv, callers)
  {
    IssuedAddress(s, sid);
    if Addresses(s, sid) && !s.slots[SidIndex(sid)].closed {
      SendAtOwned(s, SidIndex(sid), p, ok, callers);
    }
  }

  /** A delivered packet ends up with one reference, the content queue's. */
  lemma DeliverOwned(s: Srv, i: nat, payload: seq<byte>, callers: multiset<Pkt>)
    requires i < |s.slots| && Owned(s, callers)
    ensures Owned(Deliver(s, i, payload), callers)
  {
    var p, h := NextPkt(s.packets), Holders(s) + callers;
    AllocAccounts(s.packets, h, payload);
    var ps := AllocWith(s.packets, payload);
    AddRefAccounts(ps, h + multiset{p}, p);
    ReleaseAccounts(AddRef(ps, p), h + multiset{p} + multiset{p}, p);
    QueuedRefsAppend(s.contentQ, Received(s.slots[i].sid, p));
    assert h + multiset{p} + multiset{p} - multiset{p} == Holders(Deliver(s, i, payload)) + callers;
  }

  lemma DiscardOwned(s: Srv, callers: multiset<Pkt>)
    requires Owned(s, callers)
    ensures Owned(Discard(s), callers)
  {
    var p, h := NextPkt(s.packets), Holders(s) + callers;
    AllocAccounts(s.packets, h, []);
    ReleaseAccounts(AllocWith(s.packets, []), h + multiset{p}, p);
    assert h + multiset{p} - multiset{p} == Holders(Discard(s)) + callers;
  }

  lemma {:induction false} DeliverAllOwned(s: Srv, i: nat, payloads: seq<seq<byte>>, bad: bool, callers: multiset<Pkt>)
    requires i < |s.slots| && Owned(s, callers)
    ensures Owned(DeliverAll(s, i, payloads, bad), callers)
    decreases |payloads|
  {
    if payloads != [] {
      DeliverOwned(s, i, payloads[0], callers);
      DeliverAllOwned(Deliver(s, i, payloads[0]), i, payloads[1..], bad, callers);
    } else if bad {
      DiscardOwned(s, callers);
    }
  }

  lemma OnRecvCompleteOwned(s: Srv, i: nat, payloads: seq<seq<byte>>, end: End, ok: bool, callers: multiset<Pkt>)
    requires i < |s.slots| && Owned(s, callers)
    ensures Owned(OnRecvComplete(s, i, payloads, end, ok), callers)
  {
    DeliverAllOwned(s, i, payloads, end.Damaged?, callers);
    var s1 := DeliverAll(s, i, payloads, end.Damaged?);
    if end.Repost? { PostRecvOwned(s1, i, ok, callers); } else { CloseOwned(s1, i, callers); }
  }

  lemma ArrivedOwned(s: Srv, op: Op, callers: multiset<Pkt>)
    requires Owned(s, callers)
    ensures Owned(Arrived(s, op), callers)
  {
    SameHolders(s, Arrived(s, op), callers);
  }

  lemma RecvDoneOwned(s: Srv, op: Op, payloads: seq<seq<byte>>, end: End, ok: bool, callers: multiset<Pkt>)
    requires op.slot < |s.slots| && Owned(s, callers)
    ensures Owned(RecvDone(s, op, payloads, end, ok), callers)
  {
    ArrivedOwned(s, op, callers);
    OnRecvCompleteOwned(Arrived(s, op), op.slot, payloads, end, ok, callers);
    IOReleaseOwned(OnRecvComplete(Arrived(s, op), op.slot, payloads, end, ok), op.slot, callers);
  }

  lemma SendDoneOwned(s: Srv, op: Op, ok: bool, callers: multiset<Pkt>)
    requires RefsSettled(s) && op in s.net && op.kind.Send? && Owned(s, callers)
    ensures Owned(SendDone(s, op, ok), callers)
  {
    ArrivedKeeps(s, op);
    ArrivedOwned(s, op, callers);
    OnSendCompleteOwned(Arrived(s, op), op.slot, Due(1, false, true, false), ok, callers);
    IOReleaseOwned(OnSendComplete(Arrived(s, op), op.slot, ok), op.slot, callers);
  }

  lemma AbandonOwned(s: Srv, i: nat, callers: multiset<Pkt>)
    requires i < |s.slots| && Owned(s, callers)
    ensures Owned(Abandon(s, i), callers)
  {
    var slot, slot' := s.slots[i], Abandon(s, i).slots[i];
    SlotRefsUpdate(s.slots, i, slot');
    assert SlotRefs(slot) == SlotRefs(slot') + multiset(slot.log.inFlight);
    Cancel(AllSlotRefs(Abandon(s, i).slots) + multiset(slot.log.inFlight), AllSlotRefs(s.slots), SlotRefs(slot'));
    SameHolders(s, Abandon(s, i), callers);
  }

  lemma OpFailedOwned(s: Srv, op: Op, callers: multiset<Pkt>)
    requires op.slot < |s.slots| && Owned(s, callers)
    ensures Owned(OpFailed(s, op), callers)
  {
    var i, s0 := op.slot, Arrived(s, op);
    SameHolders(s, s0, callers);
    CloseOwned(s0, i, callers);
    var s1 := CloseSession(s0, i);
    if op.kind.Send? { AbandonOwned(s1, i, callers); }
    IOReleaseOwned(if op.kind.Send? then Abandon(s1, i) else s1, i, callers);
  }

  /** A free slot holds nothing, so initialising it loses nothing. */
  lemma InitialisedOwned(s: Srv, callers: multiset<Pkt>)
    requires RefsSettled(s) && Shaped(s) && s.indexPool != [] && Owned(s, callers)
    ensures Owned(Initialised(s), callers)
  {
    var i := s.indexPool[0];
    assert i in s.indexPool;
    assert SlotOk(s.slots[i], i, Recvs(s, i), Sends(s, i), SETTLED);
    SameSlotRefs(s.slots, i, Initialised(s).slots[i]);
    SameHolders(s, Initialised(s), callers);
  }

  lemma AcceptOwned(s: Srv, associated: bool, ok: bool, callers: multiset<Pkt>)
    requires RefsSettled(s) && Shaped(s) && Owned(s, callers)
    ensures Owned(Accept(s, associated, ok), callers)
  {
    if s.indexPool != [] {
      var i, s1 := s.indexPool[0], Initialised(s);
      assert i in s.indexPool;
      InitialisedOwned(s, callers);
      if !associated {
        CloseOwned(s1, i, callers);
      } else {
        QueuedRefsAppend(s1.contentQ, Join(s1.slots[i].sid));
        var s2 := s1.(contentQ := s1.contentQ + [Join(s1.slots[i].sid)]);
        SameHolders(s1, s2, callers);
        PostRecvOwned(s2, i, ok, callers);
      }
    }
  }
}

/**
  Which step of the engine changes what a session has accepted: SendPacket to it, and
  nothing else until its slot is reissued.
*/
module EngineAccepted {
  import opened PacketPool
  import opened SessionId
  import opened Engine
  import opened EngineRefs
  import opened EngineOrder
  import opened EngineRuns
  import opened EngineLifetimes
  import opened Bytes

  lemma PostRecvAcceptsNothing(s: Srv, i: nat, ok: bool)
    requires i < |s.slots|
    ensures SameAccepted(s.slots, PostRecv(s, i, ok).slots)
  {
    var s1 := IOAddRef(s, i);
    if !ok || s.slots[i].closed { CloseAcceptsNothing(s1, i); }
  }

  lemma OnSendCompleteAcceptsNothing(s: Srv, i: nat, ok: bool)
    requires i < |s.slots|
    ensures SameAccepted(s.slots, OnSendComplete(s, i, ok).slots)
  {
    if DropSent(s, i).slots[i].queue != [] { FlushAcceptsNothing(DropSent(s, i), i, ok); }
  }

  lemma OnRecvCompleteAcceptsNothing(s: Srv, i: nat, payloads: seq<seq<byte>>, end: End, ok: bool)
    requires i < |s.slots|
    ensures SameAccepted(s.slots, OnRecvComplete(s, i, payloads, end, ok).slots)
  {
    var s1 := DeliverAll(s, i, payloads, end.Damaged?);
    if end.Repost? { PostRecvAcceptsNothing(s1, i, ok); } else { CloseAcceptsNothing(s1, i); }
  }

  lemma OpFailedAcceptsNothing(s: Srv, op: Op)
    requires op.slot < |s.slots|
    ensures SameAccepted(s.slots, OpFailed(s, op).slots)
  {
    CloseAcceptsNothing(Arrived(s, op), op.slot);
  }

  lemma ReleaseAcceptsNothing(s: Srv, s1: Srv, i: nat)
    requires i < |s1.slots| && SameAccepted(s.slots, s1.slots)
    ensures SameAccepted(s.slots, IORelease(s1, i).slots)
  {
  }

  lemma CompletionAcceptsNothing(s: Sys, a: Action)
    requires Enabled(s, a) && (a.ReceiveDone? || a.SendCompleted? || a.Failed?)
    ensures SameAccepted(s.srv.slots, EngineStep(s, a).slots)
  {
    var s0, i := Arrived(s.srv, a.op), a.op.slot;
    match a
    case ReceiveDone(_, payloads, end, ok) =>
      OnRecvCompleteAcceptsNothing(s0, i, payloads, end, ok);
      ReleaseAcceptsNothing(s.srv, OnRecvComplete(s0, i, payloads, end, ok), i);
    case SendCompleted(_, ok) =>
      OnSendCompleteAcceptsNothing(s0, i, ok);
      ReleaseAcceptsNothing(s.srv, OnSendComplete(s0, i, ok), i);
    case Failed(op) => OpFailedAcceptsNothing(s.srv, op);
  }

  lemma StepAcceptsNothing(s: Sys, a: Action)
    requires Enabled(s, a) && !a.Connect? && !a.SendTo?
    ensures SameAccepted(s.srv.slots, Step(s, a).srv.slots)
  {
    if ByUpdateThread(a) {
      assert UpdateStep(s, a).srv.slots == s.srv.slots;
    } else if a.Drop? {
      if Addresses(s.srv, a.sid) { CloseAcceptsNothing(s.srv, SidIndex(a.sid)); }
    } else {
      CompletionAcceptsNothing(s, a);
    }
  }

  /** Slot `c` is still of the incarnation it was, and not reopened. */
  ghost predicate GoesOn(s: Srv, s': Srv, c: nat) {
    && c < |s.slots| && c < |s'.slots| && s'.slots[c].generation == s.slots[c].generation
    && (s.slots[c].closed ==> s'.slots[c].closed)
  }

  lemma StepGoesOn(s: Sys, a: Action, c: nat)
    requires Enabled(s, a) && c < |s.srv.slots| && (a.Connect? ==> s.srv.indexPool == [] || s.srv.indexPool[0] != c)
    ensures GoesOn(s.srv, Step(s, a).srv, c)
  {
    StepKeepsClosed(s, a, c);
  }

  /** Whoever SendPacket addresses, and whom the packet then reaches unless it closes. */
  lemma SendAccepts(s: Srv, sid: SessionID, p: Pkt, ok: bool, c: nat)
    requires c < |s.slots| && c < 0xFFFF && 0 < s.slots[c].generation <= MAX_LONG && Issued(s, sid)
    ensures var s' := SendPacket(s, sid, p, ok).srv;
      && c < |s'.slots|
      && (sid != MakeSid(c, s.slots[c].generation) ==> s'.slots[c].log.accepted == s.slots[c].log.accepted)
      && (sid == MakeSid(c, s.slots[c].generation) ==>
            || (s'.slots[c].log.accepted == s.slots[c].log.accepted + [ContentOf(s.packets.contents, p)]
                && !s.slots[c].closed)
            || (s'.slots[c].log.accepted == s.slots[c].log.accepted && s'.slots[c].closed))
  {
    var r := SendPacket(s, sid, p, ok);
    SendPacketTellsTheTruth(s, sid, p, ok);
    SidDecodes(c, s.slots[c].generation);
    if sid == MakeSid(c, s.slots[c].generation) {
      if !r.ok { RefusedIsClosed(s, c, p, sid, ok); }
    } else if SidIndex(sid) == c && r.ok {
      OnlyAddress(s, c, sid);
    }
  }

  lemma OnlyAddress(s: Srv, c: nat, sid: SessionID)
    requires c < |s.slots| && Issued(s, sid) && SidIndex(sid) == c && SidGeneration(sid) == s.slots[c].generation
    ensures c < 0xFFFF && -MAX_LONG - 1 <= s.slots[c].generation <= MAX_LONG && sid == MakeSid(c, s.slots[c].generation)
  {
    var i: nat, g: int :|
      i < |s.slots| && i < 0xFFFF && 0 < g <= s.slots[i].generation <= MAX_LONG && sid == MakeSid(i, g);
    SidDecodes(i, g);
  }

  lemma RefusedIsClosed(s: Srv, c: nat, p: Pkt, sid: SessionID, ok: bool)
    requires Addresses(s, sid) && SidIndex(sid) == c && !SendPacket(s, sid, p, ok).ok
    ensures SendPacket(s, sid, p, ok).srv.slots[c].closed
  {
  }
}

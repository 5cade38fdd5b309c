/**
  Which identifiers the content layer gets to see: every message the engine queues
  names a session that InitSession has issued.
*/
module EngineMessages {
  import opened PacketPool
  import opened SessionId
  import opened Engine
  import opened EngineRefs
  import opened EnginePlayers
  import opened EngineRuns
  import opened Bytes
  import opened SendQueue

  /** No identifier changes, and all that is added to the content queue is about slot `i`. */
  ghost predicate Speaks(s: Srv, s': Srv, i: nat) {
    && |s'.slots| == |s.slots| && i < |s.slots|
    && (forall j | 0 <= j < |s.slots| ::
          s'.slots[j].generation == s.slots[j].generation && s'.slots[j].sid == s.slots[j].sid)
    && |s.contentQ| <= |s'.contentQ|
    && (forall k | 0 <= k < |s.contentQ| :: s'.contentQ[k] == s.contentQ[k])
    && (forall k | |s.contentQ| <= k < |s'.contentQ| :: s'.contentQ[k].sid == s.slots[i].sid)
  }

  lemma CloseSpeaks(s: Srv, i: nat)
    requires i < |s.slots|
    ensures Speaks(s, CloseSession(s, i), i)
  {
  }

  lemma PostRecvSpeaks(s: Srv, i: nat, ok: bool)
    requires i < |s.slots|
    ensures Speaks(s, PostRecv(s, i, ok), i)
  {
    var s1 := IOAddRef(s, i);
    if !ok || s.slots[i].closed { CloseSpeaks(s1, i); }
  }

  lemma FlushSpeaks(s: Srv, i: nat, ok: bool)
    requires i < |s.slots|
    ensures Speaks(s, FlushSend(s, i, ok), i)
  {
    var s1 := IOAddRef(SetSlot(s, i, Take(s.slots[i])), i);
    if !s.slots[i].pending && (!ok || s.slots[i].closed) { CloseSpeaks(DropSent(s1, i), i); }
  }

  lemma OnSendCompleteSpeaks(s: Srv, i: nat, ok: bool)
    requires i < |s.slots|
    ensures Speaks(s, OnSendComplete(s, i, ok), i)
  {
    if DropSent(s, i).slots[i].queue != [] { FlushSpeaks(DropSent(s, i), i, ok); }
  }

  lemma {:induction false} DeliverAllSpeaks(s: Srv, i: nat, payloads: seq<seq<byte>>, bad: bool)
    requires i < |s.slots|
    ensures Speaks(s, DeliverAll(s, i, payloads, bad), i)
    decreases |payloads|
  {
    if payloads != [] {
      DeliverAllSpeaks(Deliver(s, i, payloads[0]), i, payloads[1..], bad);
    }
  }

  lemma OnRecvCompleteSpeaks(s: Srv, i: nat, payloads: seq<seq<byte>>, end: End, ok: bool)
    requires i < |s.slots|
    ensures Speaks(s, OnRecvComplete(s, i, payloads, end, ok), i)
  {
    DeliverAllSpeaks(s, i, payloads, end.Damaged?);
    var s1 := DeliverAll(s, i, payloads, end.Damaged?);
    if end.Repost? { PostRecvSpeaks(s1, i, ok); } else { CloseSpeaks(s1, i); }
  }

  lemma ReleaseSpeaks(s: Srv, s1: Srv, i: nat)
    requires Speaks(s, s1, i)
    ensures Speaks(s, IORelease(s1, i), i)
  {
  }

  lemma RecvDoneSpeaks(s: Srv, op: Op, payloads: seq<seq<byte>>, end: End, ok: bool)
    requires op.slot < |s.slots|
    ensures Speaks(s, RecvDone(s, op, payloads, end, ok), op.slot)
  {
    OnRecvCompleteSpeaks(Arrived(s, op), op.slot, payloads, end, ok);
    ReleaseSpeaks(s, OnRecvComplete(Arrived(s, op), op.slot, payloads, end, ok), op.slot);
  }

  lemma SendDoneSpeaks(s: Srv, op: Op, ok: bool)
    requires op.slot < |s.slots|
    ensures Speaks(s, SendDone(s, op, ok), op.slot)
  {
    OnSendCompleteSpeaks(Arrived(s, op), op.slot, ok);
    ReleaseSpeaks(s, OnSendComplete(Arrived(s, op), op.slot, ok), op.slot);
  }

  lemma OpFailedSpeaks(s: Srv, op: Op)
    requires op.slot < |s.slots|
    ensures Speaks(s, OpFailed(s, op), op.slot)
  {
    var s1 := CloseSession(Arrived(s, op), op.slot);
    CloseSpeaks(Arrived(s, op), op.slot);
    ReleaseSpeaks(s, if op.kind.Send? then Abandon(s1, op.slot) else s1, op.slot);
  }

  lemma SendPacketSpeaks(s: Srv, sid: SessionID, p: Pkt, ok: bool)
    requires Addresses(s, sid)
    ensures Speaks(s, SendPacket(s, sid, p, ok).srv, SidIndex(sid))
  {
    var i := SidIndex(sid);
    if !s.slots[i].closed {
      if |s.slots[i].queue| >= QSIZE { CloseSpeaks(s, i); } else { FlushSpeaks(Enqueue(s, i, p), i, ok); }
    }
  }

  // ------------------------------------------------- issued identifiers

  ghost predicate Named(s: Srv, i: nat) {
    && i < |s.slots| && i < 0xFFFF && 0 < s.slots[i].generation <= MAX_LONG
    && s.slots[i].sid == MakeSid(i, s.slots[i].generation)
  }

  lemma NamedIsIssued(s: Srv, i: nat)
    requires Named(s, i)
    ensures Issued(s, s.slots[i].sid)
  {
  }

  /** Generations only grow. */
  ghost predicate Older(s: Srv, s': Srv) {
    && |s'.slots| == |s.slots|
    && forall j | 0 <= j < |s.slots| :: s.slots[j].generation <= s'.slots[j].generation <= MAX_LONG
  }

  /** What has been issued stays issued. */
  lemma IssuedLasts(s: Srv, s': Srv, sid: SessionID)
    requires Older(s, s') && Issued(s, sid)
    ensures Issued(s', sid)
  {
    var i: nat, g: int :|
      i < |s.slots| && i < 0xFFFF && 0 < g <= s.slots[i].generation <= MAX_LONG && sid == MakeSid(i, g);
    assert g <= s'.slots[i].generation <= MAX_LONG;
  }

  ghost predicate AllIssued(s: Srv, q: seq<Msg>) {
    forall k | 0 <= k < |q| :: Issued(s, q[k].sid)
  }

  lemma SpeaksIssued(s: Srv, s': Srv, i: nat)
    requires Speaks(s, s', i) && Older(s, s') && Named(s', i) && AllIssued(s, s.contentQ)
    ensures AllIssued(s', s'.contentQ)
  {
    forall k | 0 <= k < |s'.contentQ| ensures Issued(s', s'.contentQ[k].sid) {
      if k < |s.contentQ| {
        IssuedLasts(s, s', s.contentQ[k].sid);
      } else {
        NamedIsIssued(s', i);
      }
    }
  }

  /** A settled slot that has been used carries its own identifier. */
  lemma UsedIsNamed(s: Srv, i: nat)
    requires RefsSettled(s) && i < |s.slots| && s.slots[i].generation > 0
    ensures Named(s, i) && |s.slots| <= 0xFFFF
  {
    SettledSids(s);
  }

  lemma SettledBound(s: Srv)
    requires RefsSettled(s)
    ensures forall j | 0 <= j < |s.slots| :: s.slots[j].generation <= MAX_LONG
  {
    SettledSids(s);
  }

  // ------------------------------------------------------------ the steps

  /** One step inside the engine: identifiers last, and new messages are about issued ones. */
  ghost predicate KeepsIssued(s: Srv, s': Srv) {
    Older(s, s') && (AllIssued(s, s.contentQ) ==> AllIssued(s', s'.contentQ))
  }

  lemma SpokenKeepsIssued(s: Srv, s': Srv, i: nat)
    requires RefsSettled(s) && Speaks(s, s', i) && s.slots[i].generation > 0
    ensures KeepsIssued(s, s')
  {
    UsedIsNamed(s, i);
    SettledBound(s);
    if AllIssued(s, s.contentQ) { SpeaksIssued(s, s', i); }
  }

  lemma AcceptIssues(s: Srv, associated: bool, ok: bool)
    requires RefsSettled(s) && Shaped(s)
    requires s.indexPool != [] ==> s.indexPool[0] < |s.slots| && 0 <= s.slots[s.indexPool[0]].generation < MAX_LONG
    ensures KeepsIssued(s, Accept(s, associated, ok))
  {
    SettledBound(s);
    if s.indexPool != [] {
      var i, s1 := s.indexPool[0], Initialised(s);
      assert i in s.indexPool;
      var s2 := if associated then s1.(contentQ := s1.contentQ + [Join(s1.slots[i].sid)]) else s1;
      if associated { PostRecvSpeaks(s2, i, ok); } else { CloseSpeaks(s2, i); }
      assert Speaks(s1, Accept(s, associated, ok), i);
      NewcomerIssues(s, s1, Accept(s, associated, ok), i);
    }
  }

  lemma NewcomerIssues(s: Srv, s1: Srv, s': Srv, i: nat)
    requires Older(s, s1) && s1.contentQ == s.contentQ && Speaks(s1, s', i) && Named(s1, i)
    ensures KeepsIssued(s, s')
  {
    if AllIssued(s, s.contentQ) {
      forall k | 0 <= k < |s1.contentQ| ensures Issued(s1, s1.contentQ[k].sid) {
        IssuedLasts(s, s1, s.contentQ[k].sid);
      }
      SpeaksIssued(s1, s', i);
    }
  }

  lemma RecvDoneIssues(s: Srv, op: Op, payloads: seq<seq<byte>>, end: End, ok: bool)
    requires RefsSettled(s) && op.slot < |s.slots| && s.slots[op.slot].generation > 0
    ensures KeepsIssued(s, RecvDone(s, op, payloads, end, ok))
  {
    RecvDoneSpeaks(s, op, payloads, end, ok);
    SpokenKeepsIssued(s, RecvDone(s, op, payloads, end, ok), op.slot);
  }

  lemma SendDoneIssues(s: Srv, op: Op, ok: bool)
    requires RefsSettled(s) && op.slot < |s.slots| && s.slots[op.slot].generation > 0
    ensures KeepsIssued(s, SendDone(s, op, ok))
  {
    SendDoneSpeaks(s, op, ok);
    SpokenKeepsIssued(s, SendDone(s, op, ok), op.slot);
  }

  lemma OpFailedIssues(s: Srv, op: Op)
    requires RefsSettled(s) && op.slot < |s.slots| && s.slots[op.slot].generation > 0
    ensures KeepsIssued(s, OpFailed(s, op))
  {
    OpFailedSpeaks(s, op);
    SpokenKeepsIssued(s, OpFailed(s, op), op.slot);
  }

  lemma SendPacketIssues(s: Srv, sid: SessionID, p: Pkt, ok: bool)
    requires RefsSettled(s) && Issued(s, sid)
    ensures KeepsIssued(s, SendPacket(s, sid, p, ok).srv)
  {
    IssuedAddress(s, sid);
    SettledBound(s);
    if Addresses(s, sid) {
      SendPacketSpeaks(s, sid, p, ok);
      SpokenKeepsIssued(s, SendPacket(s, sid, p, ok).srv, SidIndex(sid));
    }
  }

  lemma DisconnectIssues(s: Srv, sid: SessionID)
    requires RefsSettled(s) && Issued(s, sid)
    ensures KeepsIssued(s, Disconnect(s, sid).srv)
  {
    IssuedAddress(s, sid);
    SettledBound(s);
    if Addresses(s, sid) {
      CloseSpeaks(s, SidIndex(sid));
      SpokenKeepsIssued(s, Disconnect(s, sid).srv, SidIndex(sid));
    }
  }

  lemma EngineStepIssues(s: Sys, a: Action)
    requires RefsSettled(s.srv) && Enabled(s, a) && !ByUpdateThread(a)
    ensures KeepsIssued(s.srv, EngineStep(s, a))
  {
    match a
    case Connect(associated, ok) => AcceptIssues(s.srv, associated, ok);
    case ReceiveDone(op, payloads, end, ok) =>
      UsedSlot(s, op);
      RecvDoneIssues(s.srv, op, payloads, end, ok);
    case SendCompleted(op, ok) =>
      UsedSlot(s, op);
      SendDoneIssues(s.srv, op, ok);
    case Failed(op) =>
      UsedSlot(s, op);
      OpFailedIssues(s.srv, op);
    case Drop(sid) => DisconnectIssues(s.srv, sid);
    case SendTo(sid, ok) => SendPacketIssues(s.srv, sid, s.out.value, ok);
  }

  lemma StepIssues(s: Sys, a: Action)
    requires RefsSettled(s.srv) && Enabled(s, a)
    ensures KeepsIssued(s.srv, Step(s, a).srv)
  {
    if ByUpdateThread(a) {
      SettledBound(s.srv);
      var s' := UpdateStep(s, a).srv;
      assert s'.slots == s.srv.slots;
      if AllIssued(s.srv, s.srv.contentQ) {
        forall k | 0 <= k < |s'.contentQ| ensures Issued(s', s'.contentQ[k].sid) {
          var m := s.srv.contentQ[if a.TakeMessage? then k + 1 else k];
          assert s'.contentQ[k] == m;
          IssuedLasts(s.srv, s', m.sid);
        }
      }
    } else {
      EngineStepIssues(s, a);
    }
  }

  lemma {:induction false} RunAges(s: Sys, acts: seq<Action>)
    requires Inv(s) && EnabledRun(s, acts)
    ensures Older(s.srv, Final(s, acts).srv)
    decreases |acts|
  {
    if acts == [] {
      SettledBound(s.srv);
    } else {
      StepIssues(s, acts[0]);
      StepKeepsInv(s, acts[0]);
      RunAges(Step(s, acts[0]), acts[1..]);
    }
  }
}

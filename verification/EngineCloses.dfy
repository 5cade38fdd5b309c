/**
  When exactly a session closes (the callers of CloseSession in myIOCP/CLanServer.cpp), and
  that a flush leaves nothing behind.
*/
module EngineCloses {
  import opened PacketPool
  import opened SessionId
  import opened SendQueue
  import opened Engine
  import opened EngineRefs
  import opened EngineRuns
  import opened EngineTheorems
  import opened EngineAccepted
  import opened Bytes

  /** A slot before and after a step that is not the reissue of it. */
  ghost predicate ClosesIff(s: Srv, s': Srv, c: nat, cause: bool) {
    && c < |s.slots| && c < |s'.slots| && s'.slots[c].generation == s.slots[c].generation
    && (Open(s.slots[c]) ==> (Open(s'.slots[c]) <==> !cause))
  }

  lemma CloseCloses(s: Srv, i: nat, c: nat)
    requires i < |s.slots| && c < |s.slots|
    ensures ClosesIff(s, CloseSession(s, i), c, i == c)
  {
  }

  lemma PostRecvCloses(s: Srv, i: nat, ok: bool, c: nat)
    requires i < |s.slots| && c < |s.slots|
    ensures ClosesIff(s, PostRecv(s, i, ok), c, i == c && !ok)
  {
    if !ok || s.slots[i].closed { CloseCloses(IOAddRef(s, i), i, c); }
  }

  lemma FlushCloses(s: Srv, i: nat, ok: bool, c: nat)
    requires i < |s.slots| && c < |s.slots|
    ensures ClosesIff(s, FlushSend(s, i, ok), c, i == c && !s.slots[c].pending && !ok)
  {
    var s1 := IOAddRef(SetSlot(s, i, Take(s.slots[i])), i);
    if !s.slots[i].pending && (!ok || s.slots[i].closed) { CloseCloses(DropSent(s1, i), i, c); }
  }

  lemma OnSendCompleteCloses(s: Srv, i: nat, ok: bool, c: nat)
    requires i < |s.slots| && c < |s.slots|
    ensures ClosesIff(s, OnSendComplete(s, i, ok), c, i == c && s.slots[c].queue != [] && !ok)
  {
    if DropSent(s, i).slots[i].queue != [] { FlushCloses(DropSent(s, i), i, ok, c); }
  }

  lemma OnRecvCompleteCloses(s: Srv, i: nat, payloads: seq<seq<byte>>, end: End, ok: bool, c: nat)
    requires i < |s.slots| && c < |s.slots|
    ensures ClosesIff(s, OnRecvComplete(s, i, payloads, end, ok), c, i == c && (!end.Repost? || !ok))
  {
    var s1 := DeliverAll(s, i, payloads, end.Damaged?);
    if end.Repost? { PostRecvCloses(s1, i, ok, c); } else { CloseCloses(s1, i, c); }
  }

  lemma SendPacketCloses(s: Srv, sid: SessionID, p: Pkt, ok: bool, c: nat)
    requires c < |s.slots|
    ensures ClosesIff(s, SendPacket(s, sid, p, ok).srv, c,
                      Addresses(s, sid) && SidIndex(sid) == c
                      && (|s.slots[c].queue| >= 512 || (!s.slots[c].pending && !ok)))
  {
    if Addresses(s, sid) && !s.slots[SidIndex(sid)].closed {
      var i := SidIndex(sid);
      if |s.slots[i].queue| >= QSIZE { CloseCloses(s, i, c); } else { FlushCloses(Enqueue(s, i, p), i, ok, c); }
    }
  }

  lemma ReleaseCloses(s: Srv, s1: Srv, i: nat, c: nat, cause: bool)
    requires i < |s1.slots| && ClosesIff(s, s1, c, cause)
    ensures ClosesIff(s, IORelease(s1, i), c, cause)
  {
  }

  /** What closes session `c`: a failed or zero-byte completion of one of its operations; a
      receive that ends the parse loop for good or cannot be posted again; a completed send
      behind which the next cannot be posted; Disconnect; SendPacket to a full queue, or when it
      cannot post. */
  ghost predicate Cause(s: Sys, a: Action, c: nat)
    requires c < |s.srv.slots|
  {
    match a
    case ReceiveDone(op, _, end, ok) => op.slot == c && (!end.Repost? || !ok)
    case SendCompleted(op, ok) => op.slot == c && s.srv.slots[c].queue != [] && !ok
    case Failed(op) => op.slot == c
    case Drop(sid) => sid == s.srv.slots[c].sid
    case SendTo(sid, ok) =>
      sid == s.srv.slots[c].sid && (|s.srv.slots[c].queue| >= 512 || (!s.srv.slots[c].pending && !ok))
    case _ => false
  }

  lemma CompletionCloses(s: Sys, a: Action, c: nat)
    requires Enabled(s, a) && (a.ReceiveDone? || a.SendCompleted? || a.Failed?) && c < |s.srv.slots|
    ensures ClosesIff(s.srv, EngineStep(s, a), c, Cause(s, a, c))
  {
    var s0, i := Arrived(s.srv, a.op), a.op.slot;
    match a
    case ReceiveDone(_, payloads, end, ok) =>
      OnRecvCompleteCloses(s0, i, payloads, end, ok, c);
      ReleaseCloses(s.srv, OnRecvComplete(s0, i, payloads, end, ok), i, c, Cause(s, a, c));
    case SendCompleted(_, ok) =>
      OnSendCompleteCloses(s0, i, ok, c);
      ReleaseCloses(s.srv, OnSendComplete(s0, i, ok), i, c, Cause(s, a, c));
    case Failed(op) => FailureCloses(s.srv, op, c);
  }

  lemma FailureCloses(s: Srv, op: Op, c: nat)
    requires op.slot < |s.slots| && c < |s.slots|
    ensures ClosesIff(s, OpFailed(s, op), c, op.slot == c)
  {
    var s1 := CloseSession(Arrived(s, op), op.slot);
    CloseCloses(Arrived(s, op), op.slot, c);
    ReleaseCloses(s, if op.kind.Send? then Abandon(s1, op.slot) else s1, op.slot, c, op.slot == c);
  }

  /** An issued identifier addresses the open session that carries it, and no other. */
  lemma AddressesItsOwn(s: Srv, sid: SessionID, c: nat)
    requires RefsSettled(s) && Issued(s, sid) && c < |s.slots| && Open(s.slots[c])
    ensures Addresses(s, sid) && SidIndex(sid) == c <==> sid == s.slots[c].sid
  {
    assert SlotOk(s.slots[c], c, Recvs(s, c), Sends(s, c), SETTLED);
    SidDecodes(c, s.slots[c].generation);
    if Addresses(s, sid) && SidIndex(sid) == c { OnlyAddress(s, c, sid); }
  }

  lemma CallCloses(s: Sys, a: Action, c: nat)
    requires RefsSettled(s.srv) && Enabled(s, a) && (a.Drop? || a.SendTo?)
    requires c < |s.srv.slots| && Open(s.srv.slots[c])
    ensures ClosesIff(s.srv, EngineStep(s, a), c, Cause(s, a, c))
  {
    AddressesItsOwn(s.srv, a.sid, c);
    if a.Drop? {
      if Addresses(s.srv, a.sid) { CloseCloses(s.srv, SidIndex(a.sid), c); }
    } else {
      SendPacketCloses(s.srv, a.sid, s.out.value, a.ok, c);
    }
  }

  lemma OpenIsNotPooled(s: Srv, c: nat)
    requires RefsSettled(s) && c < |s.slots| && Open(s.slots[c])
    ensures c !in s.indexPool
  {
    assert SlotOk(s.slots[c], c, Recvs(s, c), Sends(s, c), SETTLED);
  }

  /** In every reachable state an open session is closed by a step if and only if the step is one
      of these causes. */
  lemma SessionsCloseFor(n: nat, acts: seq<Action>, a: Action, c: nat)
    requires n <= 0xFFFF && EnabledRun(Start(n), acts) && Enabled(Final(Start(n), acts), a)
    requires var slots := Final(Start(n), acts).srv.slots; c < |slots| && Open(slots[c])
    ensures var s, s' := Final(Start(n), acts), Step(Final(Start(n), acts), a);
      && c < |s'.srv.slots| && s'.srv.slots[c].generation == s.srv.slots[c].generation
      && (Open(s'.srv.slots[c]) <==> !Cause(s, a, c))
  {
    ReachableInv(n, acts);
    var s := Final(Start(n), acts);
    StepCloses(s, a, c);
  }

  lemma StepCloses(s: Sys, a: Action, c: nat)
    requires RefsSettled(s.srv) && Enabled(s, a) && c < |s.srv.slots| && Open(s.srv.slots[c])
    ensures ClosesIff(s.srv, Step(s, a).srv, c, Cause(s, a, c))
  {
    if ByUpdateThread(a) {
      assert UpdateStep(s, a).srv.slots == s.srv.slots;
    } else if a.Connect? {
      OpenIsNotPooled(s.srv, c);
      assert s.srv.indexPool != [] ==> s.srv.indexPool[0] in s.srv.indexPool;
      ConnectElsewhere(s.srv, a.associated, a.ok, c);
    } else if a.Drop? || a.SendTo? {
      CallCloses(s, a, c);
    } else {
      CompletionCloses(s, a, c);
    }
  }

  lemma ConnectElsewhere(s: Srv, associated: bool, ok: bool, c: nat)
    requires Shaped(s) && c < |s.slots| && (s.indexPool == [] || s.indexPool[0] != c)
    ensures c < |Accept(s, associated, ok).slots| && Accept(s, associated, ok).slots[c] == s.slots[c]
  {
  }

  // -------------------------------------------- a flush takes everything

  /** Whatever SendPacket finds with no send outstanding, or a completed send finds behind it, it
      posts to the last packet. */
  lemma FlushPostsAll(s: Srv, i: nat)
    requires i < |s.slots| && Open(s.slots[i]) && !s.slots[i].pending && |s.slots[i].queue| <= 512
    ensures var slot, slot' := s.slots[i], FlushSend(s, i, true).slots[i];
      && slot'.queue == [] && slot'.pending && slot'.sent == slot.queue
      && slot'.log.posted == slot.log.posted + Contents(s.packets.contents, slot.queue)
  {
    assert s.slots[i].queue[..|s.slots[i].queue|] == s.slots[i].queue;
  }

  /** So an open session whose last completed send or idle SendPacket could post has posted
      everything it accepted. */
  lemma NothingWaits(n: nat, acts: seq<Action>, a: Action, c: nat)
    requires n <= 0xFFFF && EnabledRun(Start(n), acts) && Enabled(Final(Start(n), acts), a)
    requires var slots := Final(Start(n), acts).srv.slots; c < |slots| && Open(slots[c])
    requires var slot := Final(Start(n), acts).srv.slots[c];
      || (a.SendCompleted? && a.op.slot == c && a.ok)
      || (a.SendTo? && a.sid == slot.sid && !slot.pending && a.ok)
    ensures var slots' := Step(Final(Start(n), acts), a).srv.slots;
      c < |slots'| && slots'[c].queue == [] && slots'[c].log.posted == slots'[c].log.accepted
  {
    ReachableInv(n, acts);
    StepPostsAll(Final(Start(n), acts), a, c);
  }

  lemma StepPostsAll(s: Sys, a: Action, c: nat)
    requires Inv(s) && Enabled(s, a) && c < |s.srv.slots| && Open(s.srv.slots[c])
    requires (a.SendCompleted? && a.op.slot == c && a.ok)
             || (a.SendTo? && a.sid == s.srv.slots[c].sid && !s.srv.slots[c].pending && a.ok)
    ensures var slots' := Step(s, a).srv.slots;
      c < |slots'| && slots'[c].queue == [] && slots'[c].log.posted == slots'[c].log.accepted
  {
    StepCloses(s, a, c);
    StepEmpties(s, a, c);
    StepKeepsInv(s, a);
    EmptyIsPosted(Step(s, a), c);
  }

  lemma StepEmpties(s: Sys, a: Action, c: nat)
    requires RefsSettled(s.srv) && Enabled(s, a) && c < |s.srv.slots| && Open(s.srv.slots[c])
    requires (a.SendCompleted? && a.op.slot == c && a.ok)
             || (a.SendTo? && a.sid == s.srv.slots[c].sid && !s.srv.slots[c].pending && a.ok)
    ensures !Cause(s, a, c) && c < |EngineStep(s, a).slots| && EngineStep(s, a).slots[c].queue == []
  {
    assert SlotOk(s.srv.slots[c], c, Recvs(s.srv, c), Sends(s.srv, c), SETTLED);
    if a.SendCompleted? { CompletedQueue(s.srv, a.op, c); } else { SentQueue(s.srv, a.sid, s.out.value, c); }
  }

  lemma EmptyIsPosted(s: Sys, c: nat)
    requires Inv(s) && c < |s.srv.slots| && Open(s.srv.slots[c]) && s.srv.slots[c].queue == []
    ensures s.srv.slots[c].log.posted == s.srv.slots[c].log.accepted
  {
    SlotOrdered(s, c);
  }

  lemma CompletedQueue(s: Srv, op: Op, c: nat)
    requires RefsSettled(s) && op.slot == c < |s.slots| && Open(s.slots[c])
    ensures SendDone(s, op, true).slots[c].queue == []
  {
    assert SlotOk(s.slots[c], c, Recvs(s, c), Sends(s, c), SETTLED);
    var s1 := DropSent(Arrived(s, op), c);
    if s1.slots[c].queue != [] { FlushPostsAll(s1, c); }
  }

  lemma SentQueue(s: Srv, sid: SessionID, p: Pkt, c: nat)
    requires RefsSettled(s) && c < |s.slots| && Open(s.slots[c]) && Issued(s, sid) && sid == s.slots[c].sid
    requires !s.slots[c].pending
    ensures SendPacket(s, sid, p, true).srv.slots[c].queue == []
  {
    assert SlotOk(s.slots[c], c, Recvs(s, c), Sends(s, c), SETTLED);
    AddressesItsOwn(s, sid, c);
    FlushPostsAll(Enqueue(s, c, p), c);
  }
}

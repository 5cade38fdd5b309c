/**
  From decoded payloads to the Update thread: what one receive queues, in order, and that
  no buffer is written again before the message that carries it is taken.
*/
module DeliveredMessages {
  import opened Options
  import opened PacketPool
  import opened SessionId
  import opened Engine
  import opened EngineRefs
  import opened EngineOwnership
  import opened EngineMessages
  import opened EngineRuns
  import opened Bytes

  /** Message `m` brings `payload` from session `sid`. */
  predicate Says(b: Buffers, m: Msg, sid: SessionID, payload: seq<byte>) {
    m.Received? && m.sid == sid && ContentOf(b, m.pkt).bytes == payload
  }

  /** A queued message's packet is held. */
  lemma {:induction false} QueuedIsHeld(q: seq<Msg>, k: nat)
    requires k < |q| && q[k].Received?
    ensures q[k].pkt in QueuedRefs(q)
  {
    if k > 0 { QueuedIsHeld(q[1..], k - 1); }
  }

  /** The buffers of the messages in `q` are the same. */
  ghost predicate BuffersKept(q: seq<Msg>, b: Buffers, b': Buffers) {
    forall k | 0 <= k < |q| && q[k].Received? :: ContentOf(b', q[k].pkt) == ContentOf(b, q[k].pkt)
  }

  lemma AllocKeepsBuffers(s: Srv, bytes: seq<byte>, callers: multiset<Pkt>)
    requires Owned(s, callers)
    ensures BuffersKept(s.contentQ, s.packets.contents, AllocWith(s.packets, bytes).contents)
  {
    AllocAccounts(s.packets, Holders(s) + callers, bytes);
    forall k | 0 <= k < |s.contentQ| && s.contentQ[k].Received?
      ensures s.contentQ[k].pkt in Holders(s) + callers
    {
      QueuedIsHeld(s.contentQ, k);
    }
  }

  /** The messages of `q` from `at` on bring these payloads from `sid`, one each, in order. */
  ghost predicate Queued(q: seq<Msg>, b: Buffers, at: nat, sid: SessionID, payloads: seq<seq<byte>>) {
    && at + |payloads| <= |q|
    && forall k | at <= k < at + |payloads| :: Says(b, q[k], sid, payloads[k - at])
  }

  /** One delivery puts its payload behind the queue. */
  lemma DeliverQueues(s: Srv, i: nat, payload: seq<byte>, callers: multiset<Pkt>)
    requires i < |s.slots| && Owned(s, callers)
    ensures var s', p := Deliver(s, i, payload), NextPkt(s.packets);
      && BuffersKept(s.contentQ, s.packets.contents, s'.packets.contents)
      && s'.contentQ == s.contentQ + [Received(s.slots[i].sid, p)]
      && ContentOf(s'.packets.contents, p).bytes == payload
  {
    AllocKeepsBuffers(s, payload, callers);
    AllocAccounts(s.packets, Holders(s) + callers, payload);
  }

  lemma {:induction false} DeliverAllQueues(s: Srv, i: nat, payloads: seq<seq<byte>>, bad: bool, callers: multiset<Pkt>)
    requires i < |s.slots| && Owned(s, callers)
    ensures var s' := DeliverAll(s, i, payloads, bad);
      && BuffersKept(s.contentQ, s.packets.contents, s'.packets.contents)
      && |s'.contentQ| == |s.contentQ| + |payloads| && s.contentQ <= s'.contentQ
      && Queued(s'.contentQ, s'.packets.contents, |s.contentQ|, s.slots[i].sid, payloads)
    decreases |payloads|
  {
    if payloads == [] {
      if bad { AllocKeepsBuffers(s, [], callers); }
    } else {
      var s1, s' := Deliver(s, i, payloads[0]), DeliverAll(s, i, payloads, bad);
      DeliverQueues(s, i, payloads[0], callers);
      DeliverOwned(s, i, payloads[0], callers);
      DeliverAllQueues(s1, i, payloads[1..], bad, callers);
      OneMore(s.contentQ, s.packets.contents, s1.contentQ[|s.contentQ|], s1.packets.contents,
              s'.contentQ, s'.packets.contents, s.slots[i].sid, payloads);
    }
  }

  lemma OneMore(q: seq<Msg>, b: Buffers, m: Msg, b1: Buffers,
                q': seq<Msg>, b': Buffers, sid: SessionID, payloads: seq<seq<byte>>)
    requires payloads != [] && Says(b1, m, sid, payloads[0])
    requires BuffersKept(q, b, b1) && BuffersKept(q + [m], b1, b') && q + [m] <= q'
    requires Queued(q', b', |q| + 1, sid, payloads[1..])
    ensures BuffersKept(q, b, b') && q <= q' && Queued(q', b', |q|, sid, payloads)
  {
    forall k | 0 <= k < |q| && q[k].Received? ensures ContentOf(b', q[k].pkt) == ContentOf(b, q[k].pkt) {
      assert (q + [m])[k] == q[k];
    }
    assert (q + [m])[|q|] == m == q'[|q|];
  }

  /** A completed receive queues exactly the payloads its frames decode to, then at most the
      LEAVE of a session it closes. */
  lemma RecvDoneQueues(s: Srv, op: Op, payloads: seq<seq<byte>>, end: End, ok: bool, callers: multiset<Pkt>)
    requires op.slot < |s.slots| && Owned(s, callers)
    ensures var s', sid, n := RecvDone(s, op, payloads, end, ok), s.slots[op.slot].sid, |s.contentQ| + |payloads|;
      && BuffersKept(s.contentQ, s.packets.contents, s'.packets.contents)
      && n <= |s'.contentQ| && s.contentQ <= s'.contentQ
      && Queued(s'.contentQ, s'.packets.contents, |s.contentQ|, sid, payloads)
      && (s'.contentQ[n..] == [] || s'.contentQ[n..] == [Leave(sid)])
  {
    var s0, i := Arrived(s, op), op.slot;
    ArrivedOwned(s, op, callers);
    DeliverAllQueues(s0, i, payloads, end.Damaged?, callers);
    HandlingQueues(s0, i, payloads, end, ok);
  }

  lemma HandlingQueues(s: Srv, i: nat, payloads: seq<seq<byte>>, end: End, ok: bool)
    requires i < |s.slots|
    ensures var s1 := DeliverAll(s, i, payloads, end.Damaged?);
      var s' := IORelease(OnRecvComplete(s, i, payloads, end, ok), i);
      && (s'.contentQ == s1.contentQ || s'.contentQ == s1.contentQ + [Leave(s.slots[i].sid)])
      && s'.packets.contents == s1.packets.contents
  {
    AtMostLeave(DeliverAll(s, i, payloads, end.Damaged?), i, end, ok);
  }

  lemma AtMostLeave(s: Srv, i: nat, end: End, ok: bool)
    requires i < |s.slots|
    ensures var s' := if end.Repost? then PostRecv(s, i, ok) else CloseSession(s, i);
      s'.contentQ == s.contentQ || s'.contentQ == s.contentQ + [Leave(s.slots[i].sid)]
  {
  }

  // ------------------------------------------------ until they are taken

  /** The queue only grows, and the buffers of what it held stay. */
  ghost predicate QueueKept(s: Srv, s': Srv) {
    s.contentQ <= s'.contentQ && BuffersKept(s.contentQ, s.packets.contents, s'.packets.contents)
  }

  lemma SpokenKept(s: Srv, s': Srv, i: nat)
    requires Speaks(s, s', i) && s'.packets.contents == s.packets.contents
    ensures QueueKept(s, s')
  {
  }

  lemma AcceptKept(s: Srv, associated: bool, ok: bool)
    requires Shaped(s)
    ensures QueueKept(s, Accept(s, associated, ok))
  {
    if s.indexPool != [] {
      var i, s1 := s.indexPool[0], Initialised(s);
      assert i in s.indexPool;
      var s2 := if associated then s1.(contentQ := s1.contentQ + [Join(s1.slots[i].sid)]) else s1;
      if associated { PostRecvSpeaks(s2, i, ok); } else { CloseSpeaks(s2, i); }
      SpokenKept(s2, Accept(s, associated, ok), i);
      assert forall k | 0 <= k < |s.contentQ| :: s2.contentQ[k] == s.contentQ[k];
    }
  }

  lemma SendPacketKept(s: Srv, sid: SessionID, p: Pkt, ok: bool)
    ensures QueueKept(s, SendPacket(s, sid, p, ok).srv)
  {
    if Addresses(s, sid) {
      SendPacketSpeaks(s, sid, p, ok);
      SpokenKept(s, SendPacket(s, sid, p, ok).srv, SidIndex(sid));
    }
  }

  lemma DisconnectKept(s: Srv, sid: SessionID)
    ensures QueueKept(s, Disconnect(s, sid).srv)
  {
    if Addresses(s, sid) {
      CloseSpeaks(s, SidIndex(sid));
      SpokenKept(s, Disconnect(s, sid).srv, SidIndex(sid));
    }
  }

  lemma SendDoneQueueKept(s: Srv, op: Op, ok: bool)
    requires op.slot < |s.slots|
    ensures QueueKept(s, SendDone(s, op, ok))
  {
    SendDoneSpeaks(s, op, ok);
    SpokenKept(s, SendDone(s, op, ok), op.slot);
  }

  lemma OpFailedQueueKept(s: Srv, op: Op)
    requires op.slot < |s.slots|
    ensures QueueKept(s, OpFailed(s, op))
  {
    OpFailedSpeaks(s, op);
    SpokenKept(s, OpFailed(s, op), op.slot);
  }

  lemma EngineStepKeepsQueue(s: Sys, a: Action)
    requires Owned(s.srv, Callers(s)) && Enabled(s, a) && !ByUpdateThread(a)
    ensures QueueKept(s.srv, EngineStep(s, a))
  {
    match a
    case Connect(associated, ok) => AcceptKept(s.srv, associated, ok);
    case ReceiveDone(op, payloads, end, ok) => RecvDoneQueues(s.srv, op, payloads, end, ok, Callers(s));
    case SendCompleted(op, ok) => SendDoneQueueKept(s.srv, op, ok);
    case Failed(op) => OpFailedQueueKept(s.srv, op);
    case Drop(sid) => DisconnectKept(s.srv, sid);
    case SendTo(sid, ok) => SendPacketKept(s.srv, sid, s.out.value, ok);
  }

  /** The messages a step takes off the front. */
  function Taken(a: Action): nat { if a.TakeMessage? then 1 else 0 }

  /** A received message and what its buffer holds. */
  datatype Waiting = Waiting(msg: Msg, content: Content)

  /** The one at place `j` of the queue. */
  function At(s: Srv, j: nat): Option<Waiting> {
    if j < |s.contentQ| && s.contentQ[j].Received? then
      Some(Waiting(s.contentQ[j], ContentOf(s.packets.contents, s.contentQ[j].pkt)))
    else None
  }

  lemma KeptWaits(s: Srv, s': Srv, j: nat)
    requires QueueKept(s, s') && At(s, j).Some?
    ensures At(s', j) == At(s, j)
  {
  }

  lemma EngineStepKeepsMessage(s: Sys, a: Action, j: nat)
    requires Owned(s.srv, Callers(s)) && Enabled(s, a) && !ByUpdateThread(a) && At(s.srv, j).Some?
    ensures At(EngineStep(s, a), j) == At(s.srv, j)
  {
    EngineStepKeepsQueue(s, a);
    KeptWaits(s.srv, EngineStep(s, a), j);
  }

  lemma UpdateStepKeepsMessage(s: Sys, a: Action, j: nat)
    requires Owned(s.srv, Callers(s)) && Enabled(s, a) && ByUpdateThread(a) && At(s.srv, j).Some? && Taken(a) <= j
    ensures At(UpdateStep(s, a).srv, j - Taken(a)) == At(s.srv, j)
  {
    if a.Build? { AllocKeepsBuffers(s.srv, a.bytes, Callers(s)); }
  }

  /** Every message moves up by `taken` places, its buffer unchanged. */
  ghost predicate Advances(s: Srv, s': Srv, taken: nat) {
    forall j: nat | At(s, j).Some? && taken <= j :: At(s', j - taken) == At(s, j)
  }

  lemma StepAdvances(s: Sys, a: Action)
    requires Owned(s.srv, Callers(s)) && Enabled(s, a)
    ensures Advances(s.srv, Step(s, a).srv, Taken(a))
  {
    forall j: nat | At(s.srv, j).Some? && Taken(a) <= j
      ensures At(Step(s, a).srv, j - Taken(a)) == At(s.srv, j)
    {
      if ByUpdateThread(a) { UpdateStepKeepsMessage(s, a, j); } else { EngineStepKeepsMessage(s, a, j); }
    }
  }

  /** One step of a run, between two states of a list. */
  ghost predicate Linked(states: seq<Sys>, acts: seq<Action>, i: nat) {
    && i < |acts| && i + 1 < |states| && Owned(states[i].srv, Callers(states[i]))
    && Enabled(states[i], acts[i]) && states[i + 1] == Step(states[i], acts[i])
  }

  ghost predicate Trace(states: seq<Sys>, acts: seq<Action>) {
    |states| == |acts| + 1 && forall i | 0 <= i < |acts| :: Linked(states, acts, i)
  }

  /** Every run is such a list of states. */
  lemma {:induction false} RunIsTraced(s: Sys, acts: seq<Action>) returns (states: seq<Sys>)
    requires Inv(s) && EnabledRun(s, acts)
    ensures Trace(states, acts) && states[0] == s && states[|acts|] == Final(s, acts)
    decreases |acts|
  {
    if acts == [] {
      states := [s];
    } else {
      StepKeepsInv(s, acts[0]);
      var rest := RunIsTraced(Step(s, acts[0]), acts[1..]);
      states := [s] + rest;
      forall i | 0 <= i < |acts| ensures Linked(states, acts, i) {
        if i > 0 { LinkShifts(s, rest, acts, i); }
      }
    }
  }

  lemma LinkShifts(s: Sys, rest: seq<Sys>, acts: seq<Action>, i: nat)
    requires 0 < i < |acts| && Linked(rest, acts[1..], i - 1)
    ensures Linked([s] + rest, acts, i)
  {
  }

  lemma LinkAdvances(states: seq<Sys>, acts: seq<Action>, i: nat)
    requires Trace(states, acts) && i < |acts|
    ensures Advances(states[i].srv, states[i + 1].srv, Taken(acts[i]))
  {
    assert Linked(states, acts, i);
    StepAdvances(states[i], acts[i]);
  }

  /** Messages taken between two moments of a run. */
  function TakenBetween(acts: seq<Action>, i: nat, j: nat): nat
    requires i <= j <= |acts|
    decreases j - i
  {
    if i == j then 0 else Taken(acts[i]) + TakenBetween(acts, i + 1, j)
  }

  /** A queued message moves up by one for each message taken before it, and its buffer
      holds what it held when it was queued, whatever else is received, sent, released and
      allocated meanwhile. */
  lemma {:induction false} MessageArrivesIntact(states: seq<Sys>, acts: seq<Action>, i: nat, j: nat, k: nat)
    requires Trace(states, acts) && i <= j <= |acts|
    requires At(states[i].srv, k).Some? && TakenBetween(acts, i, j) <= k
    ensures At(states[j].srv, k - TakenBetween(acts, i, j)) == At(states[i].srv, k)
    decreases j - i
  {
    if i < j {
      LinkAdvances(states, acts, i);
      MessageArrivesIntact(states, acts, i + 1, j, k - Taken(acts[i]));
    }
  }

  lemma FrontIsTaken(s: Sys)
    requires Enabled(s, TakeMessage) && At(s.srv, 0).Some?
    ensures var w, after := At(s.srv, 0).value, Step(s, TakeMessage);
      after.current == Some(w.msg.pkt) && ContentOf(after.srv.packets.contents, w.msg.pkt) == w.content
  {
  }

  /** So the Update thread handles every message with the content it was queued with: it comes
      to message `k` after exactly `k` others. */
  lemma HandledIntact(states: seq<Sys>, acts: seq<Action>, i: nat, j: nat, k: nat)
    requires Trace(states, acts) && i <= j < |acts| && acts[j].TakeMessage?
    requires At(states[i].srv, k).Some? && TakenBetween(acts, i, j) == k
    ensures var w, after := At(states[i].srv, k).value, states[j + 1];
      after.current == Some(w.msg.pkt) && ContentOf(after.srv.packets.contents, w.msg.pkt) == w.content
  {
    MessageArrivesIntact(states, acts, i, j, k);
    assert Linked(states, acts, j);
    FrontIsTaken(states[j]);
  }
}

/**
  What outlives a session: its identifier, which nothing accepts any more, its
  outstanding operations, which only drain, and the packets of a failed send, which
  never come back.
*/
module EngineLifetimes {
  import opened PacketPool
  import opened SessionId
  import opened Engine
  import opened EngineRefs
  import opened EngineOwnership
  import opened EngineRuns
  import opened Bytes
  import opened SendQueue

  // ------------------------------------------ what a call leaves alone

  /** No generation moves, and slot `c`, once closed, stays closed with no operation posted. */
  ghost predicate Keeps(s: Srv, s': Srv, c: nat) {
    && |s'.slots| == |s.slots|
    && (forall j | 0 <= j < |s.slots| :: s'.slots[j].generation == s.slots[j].generation)
    && c < |s.slots|
    && (s.slots[c].closed ==> s'.slots[c].closed && forall op: Op | op.slot == c :: s'.net[op] == s.net[op])
  }

  lemma CloseKeepsClosed(s: Srv, i: nat, c: nat)
    requires i < |s.slots| && c < |s.slots|
    ensures Keeps(s, CloseSession(s, i), c)
  {
  }

  lemma PostRecvKeepsClosed(s: Srv, i: nat, ok: bool, c: nat)
    requires i < |s.slots| && c < |s.slots|
    ensures Keeps(s, PostRecv(s, i, ok), c)
  {
    var s1 := IOAddRef(s, i);
    if !ok || s.slots[i].closed { CloseKeepsClosed(s1, i, c); }
  }

  lemma FlushKeepsClosed(s: Srv, i: nat, ok: bool, c: nat)
    requires i < |s.slots| && c < |s.slots|
    ensures Keeps(s, FlushSend(s, i, ok), c)
  {
    var s1 := IOAddRef(SetSlot(s, i, Take(s.slots[i])), i);
    if !s.slots[i].pending && (!ok || s.slots[i].closed) { CloseKeepsClosed(DropSent(s1, i), i, c); }
  }

  lemma OnSendCompleteKeepsClosed(s: Srv, i: nat, ok: bool, c: nat)
    requires i < |s.slots| && c < |s.slots|
    ensures Keeps(s, OnSendComplete(s, i, ok), c)
  {
    if DropSent(s, i).slots[i].queue != [] { FlushKeepsClosed(DropSent(s, i), i, ok, c); }
  }

  lemma SendPacketKeepsClosed(s: Srv, sid: SessionID, p: Pkt, ok: bool, c: nat)
    requires c < |s.slots|
    ensures Keeps(s, SendPacket(s, sid, p, ok).srv, c)
  {
    if Addresses(s, sid) && !s.slots[SidIndex(sid)].closed {
      var i := SidIndex(sid);
      if |s.slots[i].queue| >= QSIZE {
        CloseKeepsClosed(s, i, c);
      } else {
        FlushKeepsClosed(Enqueue(s, i, p), i, ok, c);
      }
    }
  }

  lemma OnRecvCompleteKeepsClosed(s: Srv, i: nat, payloads: seq<seq<byte>>, end: End, ok: bool, c: nat)
    requires i < |s.slots| && c < |s.slots|
    ensures Keeps(s, OnRecvComplete(s, i, payloads, end, ok), c)
  {
    var s1 := DeliverAll(s, i, payloads, end.Damaged?);
    if end.Repost? { PostRecvKeepsClosed(s1, i, ok, c); } else { CloseKeepsClosed(s1, i, c); }
  }

  /** The operation a step takes off the network, if any. */
  function Completed(a: Action): multiset<Op> {
    if a.ReceiveDone? || a.SendCompleted? || a.Failed? then multiset{a.op} else multiset{}
  }

  /** One step, seen from slot `c` that it does not reissue: the generation stays, and a
      closed slot stays closed with no operation added. */
  ghost predicate StepKept(s: Srv, s': Srv, a: Action, c: nat) {
    && c < |s'.slots| == |s.slots|
    && s'.slots[c].generation == s.slots[c].generation
    && (s.slots[c].closed ==>
          && s'.slots[c].closed
          && forall op: Op | op.slot == c :: s'.net[op] + Completed(a)[op] == s.net[op])
  }

  lemma ReleaseKeepsClosed(s: Srv, i: nat, c: nat)
    requires i < |s.slots| && c < |s.slots|
    ensures Keeps(s, IORelease(s, i), c)
  {
  }

  lemma RecvDoneKept(s: Srv, op: Op, payloads: seq<seq<byte>>, end: End, ok: bool, c: nat)
    requires op.slot < |s.slots| && c < |s.slots|
    ensures Keeps(Arrived(s, op), RecvDone(s, op, payloads, end, ok), c)
  {
    var s1 := Arrived(s, op);
    OnRecvCompleteKeepsClosed(s1, op.slot, payloads, end, ok, c);
    ReleaseKeepsClosed(OnRecvComplete(s1, op.slot, payloads, end, ok), op.slot, c);
  }

  lemma SendDoneKept(s: Srv, op: Op, ok: bool, c: nat)
    requires op.slot < |s.slots| && c < |s.slots|
    ensures Keeps(Arrived(s, op), SendDone(s, op, ok), c)
  {
    var s1 := Arrived(s, op);
    OnSendCompleteKeepsClosed(s1, op.slot, ok, c);
    ReleaseKeepsClosed(OnSendComplete(s1, op.slot, ok), op.slot, c);
  }

  lemma OpFailedKept(s: Srv, op: Op, c: nat)
    requires op.slot < |s.slots| && c < |s.slots|
    ensures Keeps(Arrived(s, op), OpFailed(s, op), c)
  {
    var s1 := CloseSession(Arrived(s, op), op.slot);
    CloseKeepsClosed(Arrived(s, op), op.slot, c);
    ReleaseKeepsClosed(if op.kind.Send? then Abandon(s1, op.slot) else s1, op.slot, c);
  }

  lemma CompletionKept(s: Sys, a: Action, c: nat)
    requires Enabled(s, a) && (a.ReceiveDone? || a.SendCompleted? || a.Failed?)
    requires c < |s.srv.slots|
    ensures StepKept(s.srv, EngineStep(s, a), a, c)
  {
    assert forall op: Op :: Arrived(s.srv, a.op).net[op] + multiset{a.op}[op] == s.srv.net[op];
    match a
    case ReceiveDone(op, payloads, end, ok) => RecvDoneKept(s.srv, op, payloads, end, ok, c);
    case SendCompleted(op, ok) => SendDoneKept(s.srv, op, ok, c);
    case Failed(op) => OpFailedKept(s.srv, op, c);
  }

  /** Accept touches the slot it takes from the pool and no other. */
  lemma AcceptElsewhere(s: Srv, associated: bool, ok: bool, c: nat)
    requires Shaped(s) && c < |s.slots| && (s.indexPool == [] || s.indexPool[0] != c)
    ensures var s' := Accept(s, associated, ok);
      && c < |s'.slots| && s'.slots[c].generation == s.slots[c].generation
      && (s.slots[c].closed ==> s'.slots[c].closed && forall op: Op | op.slot == c :: s'.net[op] == s.net[op])
  {
    if s.indexPool != [] {
      var i, s1 := s.indexPool[0], Initialised(s);
      assert i in s.indexPool;
      if associated {
        PostRecvKeepsClosed(s1.(contentQ := s1.contentQ + [Join(s1.slots[i].sid)]), i, ok, c);
      } else {
        CloseKeepsClosed(s1, i, c);
      }
    }
  }

  lemma CallKept(s: Sys, a: Action, c: nat)
    requires Enabled(s, a) && (a.Connect? || a.Drop? || a.SendTo?)
    requires c < |s.srv.slots|
    requires a.Connect? ==> s.srv.indexPool == [] || s.srv.indexPool[0] != c
    ensures StepKept(s.srv, EngineStep(s, a), a, c)
  {
    match a
    case Connect(associated, ok) => AcceptElsewhere(s.srv, associated, ok, c);
    case Drop(sid) => if Addresses(s.srv, sid) { CloseKeepsClosed(s.srv, SidIndex(sid), c); }
    case SendTo(sid, ok) => SendPacketKeepsClosed(s.srv, sid, s.out.value, ok, c);
  }

  lemma StepKeepsClosed(s: Sys, a: Action, c: nat)
    requires Enabled(s, a) && c < |s.srv.slots|
    requires a.Connect? ==> s.srv.indexPool == [] || s.srv.indexPool[0] != c
    ensures StepKept(s.srv, Step(s, a).srv, a, c)
  {
    if ByUpdateThread(a) {
      assert UpdateStep(s, a).srv.slots == s.srv.slots && UpdateStep(s, a).srv.net == s.srv.net;
    } else if a.Connect? || a.Drop? || a.SendTo? {
      CallKept(s, a, c);
    } else {
      CompletionKept(s, a, c);
    }
  }

  // --------------------------------------------------- stale identifiers

  /** Incarnation `g` of slot `c` is over. */
  ghost predicate Over(s: Srv, c: nat, g: int) {
    && c < |s.slots| && c < 0xFFFF && 0 < g <= MAX_LONG
    && (g < s.slots[c].generation || (g == s.slots[c].generation && s.slots[c].closed))
  }

  /** A session that is over gets nothing: SendPacket refuses, Disconnect changes nothing
      (and reports success only until the slot is reused). */
  lemma StaleIdRefused(s: Srv, c: nat, g: int, p: Pkt, ok: bool)
    requires Over(s, c, g)
    ensures SendPacket(s, MakeSid(c, g), p, ok) == Result(s, false)
    ensures Disconnect(s, MakeSid(c, g)) == Result(s, s.slots[c].generation == g)
  {
    SidDecodes(c, g);
  }

  lemma ReissueAges(s: Sys, a: Action)
    requires Enabled(s, a) && a.Connect? && s.srv.indexPool != []
    ensures var i := s.srv.indexPool[0];
      i < |EngineStep(s, a).slots| && EngineStep(s, a).slots[i].generation == s.srv.slots[i].generation + 1
  {
    var i, s1 := s.srv.indexPool[0], Initialised(s.srv);
    if a.associated {
      PostRecvKeepsClosed(s1.(contentQ := s1.contentQ + [Join(s1.slots[i].sid)]), i, a.ok, i);
    } else {
      CloseKeepsClosed(s1, i, i);
    }
  }

  lemma StepKeepsOver(s: Sys, a: Action, c: nat, g: int)
    requires Enabled(s, a) && Over(s.srv, c, g)
    ensures Over(Step(s, a).srv, c, g)
  {
    if a.Connect? && s.srv.indexPool != [] && s.srv.indexPool[0] == c {
      ReissueAges(s, a);
    } else {
      StepKeepsClosed(s, a, c);
    }
  }

  lemma {:induction false} RunKeepsOver(s: Sys, acts: seq<Action>, c: nat, g: int)
    requires EnabledRun(s, acts) && Over(s.srv, c, g)
    ensures Over(Final(s, acts).srv, c, g)
    decreases |acts|
  {
    if acts != [] {
      StepKeepsOver(s, acts[0], c, g);
      RunKeepsOver(Step(s, acts[0]), acts[1..], c, g);
    }
  }

  /** Session-id freshness: once an incarnation is over, its identifier is refused in
      every later state, however often its slot is reused, so nothing sent to it can
      reach the new occupant. */
  lemma StaleIdsNeverReach(s: Sys, acts: seq<Action>, c: nat, g: int, p: Pkt, ok: bool)
    requires EnabledRun(s, acts) && Over(s.srv, c, g)
    ensures var later := Final(s, acts).srv;
      && SendPacket(later, MakeSid(c, g), p, ok) == Result(later, false)
      && Disconnect(later, MakeSid(c, g)).srv == later
  {
    RunKeepsOver(s, acts, c, g);
    StaleIdRefused(Final(s, acts).srv, c, g, p, ok);
  }

  // ------------------------------------------------------------ draining

  /** How many completions of slot `c` a step takes. */
  function Takes(a: Action, c: nat): nat {
    if (a.ReceiveDone? || a.SendCompleted? || a.Failed?) && a.op.slot == c then 1 else 0
  }

  function TakesAll(acts: seq<Action>, c: nat): nat {
    if acts == [] then 0 else Takes(acts[0], c) + TakesAll(acts[1..], c)
  }

  /** A closed session that has not gone back to the pool. */
  ghost predicate Draining(s: Srv, c: nat) {
    c < |s.slots| && s.slots[c].closed && s.slots[c].generation > 0 && s.slots[c].ioRef > 0
  }

  /** `taken` references have gone; the slot is in the pool exactly when none is left. */
  ghost predicate Drained(s: Srv, s': Srv, c: nat, taken: nat) {
    && c < |s.slots| && c < |s'.slots|
    && s'.slots[c].closed && s'.slots[c].generation == s.slots[c].generation
    && s'.slots[c].ioRef == s.slots[c].ioRef - taken
    && (c in s'.indexPool <==> s'.slots[c].ioRef == 0)
  }

  lemma TakesOfSlot(a: Action, c: nat, g: int)
    requires (a.ReceiveDone? || a.SendCompleted? || a.Failed?) && a.op.slot == c ==> a.op.generation == g
    ensures Completed(a)[Op(c, g, Recv)] + Completed(a)[Op(c, g, Send)] == Takes(a, c)
  {
    if (a.ReceiveDone? || a.SendCompleted? || a.Failed?) && a.op.slot == c {
      match a.op.kind {
        case Recv => assert a.op == Op(c, g, Recv);
        case Send => assert a.op == Op(c, g, Send);
      }
    }
  }

  lemma KeptDrains(s: Srv, s': Srv, a: Action, c: nat)
    requires RefsSettled(s) && RefsSettled(s') && Draining(s, c) && StepKept(s, s', a, c)
    requires forall op | op in Completed(a) :: op in s.net
    ensures Drained(s, s', c, Takes(a, c))
    ensures s.slots[c].ioRef <= 2
  {
    var g := s.slots[c].generation;
    assert SlotOk(s.slots[c], c, Recvs(s, c), Sends(s, c), SETTLED);
    assert SlotOk(s'.slots[c], c, Recvs(s', c), Sends(s', c), SETTLED);
    if (a.ReceiveDone? || a.SendCompleted? || a.Failed?) && a.op.slot == c {
      assert a.op in Completed(a);
    }
    TakesOfSlot(a, c, g);
    assert s'.net[Op(c, g, Recv)] + Completed(a)[Op(c, g, Recv)] == s.net[Op(c, g, Recv)];
    assert s'.net[Op(c, g, Send)] + Completed(a)[Op(c, g, Send)] == s.net[Op(c, g, Send)];
  }

  /** One step of a draining session: a completion takes one reference, nothing else
      takes or adds any. */
  lemma DrainingStep(s: Sys, a: Action, c: nat)
    requires RefsSettled(s.srv) && Enabled(s, a) && Draining(s.srv, c)
    ensures Drained(s.srv, Step(s, a).srv, c, Takes(a, c)) && s.srv.slots[c].ioRef <= 2
  {
    assert c !in s.srv.indexPool;
    assert s.srv.indexPool != [] ==> s.srv.indexPool[0] in s.srv.indexPool;
    StepKeepsClosed(s, a, c);
    StepRefs(s, a);
    KeptDrains(s.srv, Step(s, a).srv, a, c);
  }

  lemma {:induction false} DrainingRun(s: Sys, acts: seq<Action>, c: nat)
    requires RefsSettled(s.srv) && EnabledRun(s, acts) && Draining(s.srv, c)
    requires TakesAll(acts, c) < s.srv.slots[c].ioRef
    ensures RefsSettled(Final(s, acts).srv) && Draining(Final(s, acts).srv, c)
    ensures Final(s, acts).srv.slots[c].ioRef == s.srv.slots[c].ioRef - TakesAll(acts, c)
    decreases |acts|
  {
    if acts != [] {
      DrainingStep(s, acts[0], c);
      StepRefs(s, acts[0]);
      DrainingRun(Step(s, acts[0]), acts[1..], c);
    }
  }

  /** Closed sessions drain: at most two operations are outstanding, the slot cannot be
      reissued before each of them has completed, and the last completion, whatever else
      happens meanwhile, puts it back into the pool. */
  lemma ClosedSessionsDrain(n: nat, before: seq<Action>, c: nat, acts: seq<Action>, last: Action)
    requires n <= 0xFFFF && EnabledRun(Start(n), before) && Draining(Final(Start(n), before).srv, c)
    requires EnabledRun(Final(Start(n), before), acts)
    requires Enabled(Final(Final(Start(n), before), acts), last)
    requires TakesAll(acts, c) + 1 == Final(Start(n), before).srv.slots[c].ioRef && Takes(last, c) == 1
    ensures Final(Start(n), before).srv.slots[c].ioRef <= 2
    ensures c !in Final(Final(Start(n), before), acts).srv.indexPool
    ensures c in Step(Final(Final(Start(n), before), acts), last).srv.indexPool
  {
    StartInv(n);
    RunKeepsInv(Start(n), before);
    var s := Final(Start(n), before);
    DrainingRun(s, acts, c);
    DrainingStep(Final(s, acts), last, c);
    assert SlotOk(s.srv.slots[c], c, Recvs(s.srv, c), Sends(s.srv, c), SETTLED);
  }

  // ----------------------------------------------------- abandoned packets

  /** A step abandons exactly the batch in flight of a send whose completion failed. */
  function Abandoned(s: Srv, a: Action): multiset<Pkt> {
    if a.Failed? && a.op.kind.Send? && a.op.slot < |s.slots| then multiset(s.slots[a.op.slot].log.inFlight)
    else multiset{}
  }

  lemma FailedAbandons(s: Srv, op: Op)
    requires op.slot < |s.slots|
    ensures OpFailed(s, op).abandoned ==
              s.abandoned + if op.kind.Send? then multiset(s.slots[op.slot].log.inFlight) else multiset{}
  {
    var s1 := CloseSession(Arrived(s, op), op.slot);
    assert s1.slots[op.slot].log.inFlight == s.slots[op.slot].log.inFlight;
  }

  lemma StepAbandons(s: Sys, a: Action)
    requires Enabled(s, a)
    ensures Step(s, a).srv.abandoned == s.srv.abandoned + Abandoned(s.srv, a)
  {
    if a.Failed? { FailedAbandons(s.srv, a.op); }
  }

  /** A worker dequeues a failed send completion. */
  predicate FailsSend(a: Action) {
    a.Failed? && a.op.kind.Send?
  }

  /** An outstanding send always carries packets. */
  lemma SendCarriesPackets(s: Srv, op: Op)
    requires RefsSettled(s) && op in s.net && op.kind.Send?
    ensures op.slot < |s.slots| && s.slots[op.slot].log.inFlight != []
  {
    assert op == Op(op.slot, s.slots[op.slot].generation, Send);
    assert SlotOk(s.slots[op.slot], op.slot, Recvs(s, op.slot), Sends(s, op.slot), SETTLED);
  }

  lemma StepLoses(s: Sys, a: Action)
    requires RefsSettled(s.srv) && Enabled(s, a)
    ensures Abandoned(s.srv, a) != multiset{} <==> FailsSend(a)
  {
    if FailsSend(a) {
      SendCarriesPackets(s.srv, a.op);
      assert s.srv.slots[a.op.slot].log.inFlight[0] in Abandoned(s.srv, a);
    }
  }

  /** No send completion of the run failed. */
  ghost predicate NoSendFails(acts: seq<Action>) {
    forall k | 0 <= k < |acts| :: !FailsSend(acts[k])
  }

  lemma NoneFirst(acts: seq<Action>)
    requires acts != []
    ensures NoSendFails(acts) <==> !FailsSend(acts[0]) && NoSendFails(acts[1..])
  {
    assert forall k | 1 <= k < |acts| :: acts[k] == acts[1..][k - 1];
  }

  lemma LossesAddUp(before: multiset<Pkt>, lost: multiset<Pkt>, after: multiset<Pkt>)
    requires before + lost <= after
    ensures before <= after && (after == before <==> lost == multiset{} && after == before + lost)
  {
    if lost != multiset{} {
      var p :| p in lost;
      assert after[p] >= (before + lost)[p] > before[p];
    }
  }

  /** Abandoned references are never taken back, and each failed send completion adds some,
      and nothing else does. */
  lemma {:induction false} AbandonedForGood(s: Sys, acts: seq<Action>)
    requires Inv(s) && EnabledRun(s, acts)
    ensures s.srv.abandoned <= Final(s, acts).srv.abandoned
    ensures Final(s, acts).srv.abandoned == s.srv.abandoned <==> NoSendFails(acts)
    decreases |acts|
  {
    if acts != [] {
      StepAbandons(s, acts[0]);
      StepLoses(s, acts[0]);
      StepKeepsInv(s, acts[0]);
      AbandonedForGood(Step(s, acts[0]), acts[1..]);
      NoneFirst(acts);
      LossesAddUp(s.srv.abandoned, Abandoned(s.srv, acts[0]), Final(s, acts).srv.abandoned);
    }
  }

  /** Nothing queued, nothing in flight, nothing waiting for or held by the Update thread. */
  ghost predicate AtRest(s: Sys) {
    && s.current.None? && s.out.None? && QueuedRefs(s.srv.contentQ) == multiset{}
    && forall j | 0 <= j < |s.srv.slots| :: s.srv.slots[j].queue == [] && s.srv.slots[j].log.inFlight == []
  }

  lemma {:induction false} NoSlotRefs(slots: seq<Slot>)
    requires forall j | 0 <= j < |slots| :: slots[j].queue == [] && slots[j].log.inFlight == []
    ensures AllSlotRefs(slots) == multiset{}
  {
    if slots != [] { NoSlotRefs(slots[1..]); }
  }

  /** At rest every packet ever made is back in the pool if and only if no send completion
      of the whole run failed. */
  lemma PacketsComeBack(n: nat, acts: seq<Action>)
    requires n <= 0xFFFF && EnabledRun(Start(n), acts) && AtRest(Final(Start(n), acts))
    ensures var ps := Final(Start(n), acts).srv.packets;
      (forall p: Pkt | p < ps.made :: p in ps.pool) <==> NoSendFails(acts)
  {
    StartInv(n);
    RunKeepsInv(Start(n), acts);
    var s := Final(Start(n), acts);
    RestHolders(s);
    AllPooled(s.srv.packets, s.srv.abandoned);
    AbandonedForGood(Start(n), acts);
  }

  lemma RestHolders(s: Sys)
    requires AtRest(s)
    ensures Holders(s.srv) + Callers(s) == s.srv.abandoned
  {
    NoSlotRefs(s.srv.slots);
  }

  lemma AllPooled(ps: Packets, holders: multiset<Pkt>)
    requires Accounts(ps, holders)
    ensures (forall p: Pkt | p < ps.made :: p in ps.pool) <==> holders == multiset{}
  {
    if holders != multiset{} {
      var p :| p in holders;
      assert p !in ps.pool && p < ps.made;
    }
  }

  lemma AbandonedNeverPooled(n: nat, acts: seq<Action>, later: seq<Action>, p: Pkt)
    requires n <= 0xFFFF && EnabledRun(Start(n), acts) && EnabledRun(Final(Start(n), acts), later)
    requires p in Final(Start(n), acts).srv.abandoned
    ensures p !in Final(Final(Start(n), acts), later).srv.packets.pool
  {
    StartInv(n);
    RunKeepsInv(Start(n), acts);
    RunKeepsInv(Final(Start(n), acts), later);
    AbandonedForGood(Final(Start(n), acts), later);
  }
}

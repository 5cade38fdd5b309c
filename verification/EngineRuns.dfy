/**
  The engine with its content layer's Update thread, over whole runs: any interleaving
  of accepted connections, completions, disconnects and the calls the Update thread
  makes while it handles messages and results. Runs end before `Stop`.
*/
module EngineRuns {
  import opened Options
  import opened PacketPool
  import opened SessionId
  import opened Engine
  import opened EngineRefs
  import opened EngineOwnership
  import opened EnginePlayers
  import opened EngineOrder
  import opened Bytes

  datatype Sys = Sys(
    srv: Srv,
    players: set<SessionID>,   // keys of CChatServer::players
    current: Option<Pkt>,      // the received packet being handled
    out: Option<Pkt>,          // the packet being built or broadcast
    top: nat                   // bookkeeping: serial of the youngest packet broadcast
  )

  function Start(n: nat): Sys {
    Sys(Started(n), {}, None, None, 0)
  }

  datatype Action =
    | Connect(associated: bool, ok: bool)
    | ReceiveDone(op: Op, payloads: seq<seq<byte>>, end: End, ok: bool)
    | SendCompleted(op: Op, ok: bool)
    | Failed(op: Op)
    | Drop(sid: SessionID)                  // Disconnect
    | TakeMessage                           // contentQ.Pop and Handle_Join or Handle_Leave
    | Build(bytes: seq<byte>)               // Alloc, writes and SetHeader
    | SendTo(sid: SessionID, ok: bool)      // SendPacket of the packet built
    | Finish                                // Release of the packet built
    | Done                                  // Release of the message's packet

  function Held(p: Option<Pkt>): multiset<Pkt> {
    if p.Some? then multiset{p.value} else multiset{}
  }

  /** The references the Update thread holds itself. */
  function Callers(s: Sys): multiset<Pkt> {
    Held(s.current) + Held(s.out)
  }

  /** Completions arrive for posted operations; identifiers are ones InitSession issued;
      a slot is reused fewer than 2^31 times. */
  ghost predicate Enabled(s: Sys, a: Action) {
    match a
    case Connect(_, _) =>
      && Shaped(s.srv)
      && (s.srv.indexPool != [] ==>
            s.srv.indexPool[0] < |s.srv.slots| && 0 <= s.srv.slots[s.srv.indexPool[0]].generation < MAX_LONG)
    case ReceiveDone(op, _, _, _) => op in s.srv.net && op.kind.Recv? && op.slot < |s.srv.slots|
    case SendCompleted(op, _) => op in s.srv.net && op.kind.Send? && op.slot < |s.srv.slots|
    case Failed(op) => op in s.srv.net && op.slot < |s.srv.slots|
    case Drop(sid) => Issued(s.srv, sid)
    case TakeMessage => s.srv.contentQ != [] && s.current.None? && s.out.None?
    case Build(_) => s.out.None?
    case SendTo(sid, _) => s.out.Some? && Issued(s.srv, sid)
    case Finish => s.out.Some?
    case Done => s.current.Some? && s.out.None?
  }

  function DoTakeMessage(s: Sys): Sys
    requires s.srv.contentQ != []
  {
    var m := s.srv.contentQ[0];
    s.(srv := s.srv.(contentQ := s.srv.contentQ[1..]),
       players := ApplyMsg(s.players, m),
       current := if m.Received? then Some(m.pkt) else s.current)
  }

  function DoBuild(s: Sys, bytes: seq<byte>): Sys {
    s.(srv := s.srv.(packets := AllocWith(s.srv.packets, bytes)),
       out := Some(NextPkt(s.srv.packets)),
       top := s.srv.packets.allocs)
  }

  function Put(s: Sys, p: Pkt): Srv {
    s.srv.(packets := Release(s.srv.packets, p))
  }

  predicate ByUpdateThread(a: Action) {
    a.TakeMessage? || a.Build? || a.Finish? || a.Done?
  }

  /** What the Update thread does outside the engine. */
  ghost function UpdateStep(s: Sys, a: Action): Sys
    requires Enabled(s, a) && ByUpdateThread(a)
  {
    match a
    case TakeMessage => DoTakeMessage(s)
    case Build(bytes) => DoBuild(s, bytes)
    case Finish => s.(srv := Put(s, s.out.value), out := None)
    case Done => s.(srv := Put(s, s.current.value), current := None)
  }

  /** What happens inside the engine. */
  ghost function EngineStep(s: Sys, a: Action): Srv
    requires Enabled(s, a) && !ByUpdateThread(a)
  {
    match a
    case Connect(associated, ok) => Accept(s.srv, associated, ok)
    case ReceiveDone(op, payloads, end, ok) => RecvDone(s.srv, op, payloads, end, ok)
    case SendCompleted(op, ok) => SendDone(s.srv, op, ok)
    case Failed(op) => OpFailed(s.srv, op)
    case Drop(sid) => Disconnect(s.srv, sid).srv
    case SendTo(sid, ok) => SendPacket(s.srv, sid, s.out.value, ok).srv
  }

  ghost function Step(s: Sys, a: Action): Sys
    requires Enabled(s, a)
  {
    if ByUpdateThread(a) then UpdateStep(s, a) else s.(srv := EngineStep(s, a))
  }

  // ---------------------------------------------------------- the invariant

  /** The packet being broadcast is the youngest one built. */
  ghost predicate OutIsYoungest(s: Sys) {
    && s.top <= s.srv.packets.allocs
    && (s.out.Some? ==> ContentOf(s.srv.packets.contents, s.out.value).serial == s.top)
  }

  ghost predicate Inv(s: Sys) {
    && RefsSettled(s.srv)
    && Owned(s.srv, Callers(s))
    && Agree(s.srv, s.players)
    && InOrder(s.srv, 0, Exact, s.top)
    && OutIsYoungest(s)
  }

  lemma {:induction false} StartedOwned(n: nat)
    ensures AllSlotRefs(seq(n, _ => FRESH_SLOT)) == multiset{}
  {
    if n > 0 {
      assert seq(n, _ => FRESH_SLOT)[1..] == seq(n - 1, _ => FRESH_SLOT);
      StartedOwned(n - 1);
    }
  }

  lemma StartAgrees(n: nat)
    requires n <= 0xFFFF
    ensures Agree(Started(n), {})
  {
    assert OpenSids(Started(n).slots) == {};
  }

  lemma StartInv(n: nat)
    requires n <= 0xFFFF
    ensures Inv(Start(n))
  {
    StartedSettled(n);
    StartAgrees(n);
    assert Owned(Started(n), multiset{}) by {
      StartedOwned(n);
      NothingMade();
      assert Holders(Started(n)) + multiset{} == multiset{};
    }
    assert Callers(Start(n)) == multiset{};
    assert InOrder(Started(n), 0, Exact, 0);
  }

  // -------------------------------------------------- reference counts

  lemma EngineStepRefs(s: Sys, a: Action)
    requires RefsSettled(s.srv) && Enabled(s, a) && !ByUpdateThread(a)
    ensures RefsSettled(EngineStep(s, a))
  {
    match a
    case Connect(associated, ok) => AcceptKeeps(s.srv, associated, ok);
    case ReceiveDone(op, payloads, end, ok) => RecvDoneKeeps(s.srv, op, payloads, end, ok);
    case SendCompleted(op, ok) => SendDoneKeeps(s.srv, op, ok);
    case Failed(op) => OpFailedKeeps(s.srv, op);
    case Drop(sid) => DisconnectKeeps(s.srv, sid);
    case SendTo(sid, ok) => SendPacketKeeps(s.srv, sid, s.out.value, ok);
  }

  lemma StepRefs(s: Sys, a: Action)
    requires RefsSettled(s.srv) && Enabled(s, a)
    ensures RefsSettled(Step(s, a).srv)
  {
    if ByUpdateThread(a) { SameRefs(s.srv, UpdateStep(s, a).srv); } else { EngineStepRefs(s, a); }
  }

  lemma SameRefs(s: Srv, s': Srv)
    requires RefsSettled(s) && s'.slots == s.slots && s'.indexPool == s.indexPool && s'.net == s.net
    ensures RefsSettled(s')
  {
  }

  // --------------------------------------------------- packet ownership

  lemma EngineStepOwned(s: Sys, a: Action)
    requires RefsSettled(s.srv) && Owned(s.srv, Callers(s)) && Enabled(s, a) && !ByUpdateThread(a)
    ensures Owned(EngineStep(s, a), Callers(s))
  {
    var c := Callers(s);
    match a
    case Connect(associated, ok) => AcceptOwned(s.srv, associated, ok, c);
    case ReceiveDone(op, payloads, end, ok) => RecvDoneOwned(s.srv, op, payloads, end, ok, c);
    case SendCompleted(op, ok) => SendDoneOwned(s.srv, op, ok, c);
    case Failed(op) => OpFailedOwned(s.srv, op, c);
    case Drop(sid) => if Addresses(s.srv, sid) { CloseOwned(s.srv, SidIndex(sid), c); }
    case SendTo(sid, ok) => SendPacketOwned(s.srv, sid, s.out.value, ok, c);
  }

  lemma UpdateStepOwned(s: Sys, a: Action)
    requires Owned(s.srv, Callers(s)) && Enabled(s, a) && ByUpdateThread(a)
    ensures Owned(UpdateStep(s, a).srv, Callers(UpdateStep(s, a)))
  {
    match a
    case TakeMessage => TakeMessageOwned(s);
    case Build(bytes) => BuildOwned(s, bytes);
    case Finish => PutOwned(s, s.out.value, Held(s.current) + Held(None));
    case Done => PutOwned(s, s.current.value, Held(None) + Held(s.out));
  }

  lemma StepOwned(s: Sys, a: Action)
    requires RefsSettled(s.srv) && Owned(s.srv, Callers(s)) && Enabled(s, a)
    ensures Owned(Step(s, a).srv, Callers(Step(s, a)))
  {
    if ByUpdateThread(a) { UpdateStepOwned(s, a); } else { EngineStepOwned(s, a); }
  }

  lemma TakeMessageOwned(s: Sys)
    requires Owned(s.srv, Callers(s)) && s.srv.contentQ != [] && s.current.None? && s.out.None?
    ensures Owned(DoTakeMessage(s).srv, Callers(DoTakeMessage(s)))
  {
    var s' := DoTakeMessage(s);
    assert Holders(s'.srv) + Callers(s') == Holders(s.srv) + Callers(s);
  }

  lemma BuildOwned(s: Sys, bytes: seq<byte>)
    requires Owned(s.srv, Callers(s)) && s.out.None?
    ensures Owned(DoBuild(s, bytes).srv, Callers(DoBuild(s, bytes)))
  {
    AllocAccounts(s.srv.packets, Holders(s.srv) + Callers(s), bytes);
    var s' := DoBuild(s, bytes);
    assert Holders(s'.srv) + Callers(s') == Holders(s.srv) + Callers(s) + multiset{NextPkt(s.srv.packets)};
  }

  lemma PutOwned(s: Sys, p: Pkt, rest: multiset<Pkt>)
    requires Owned(s.srv, Callers(s)) && Callers(s) == rest + multiset{p}
    ensures Owned(Put(s, p), rest)
  {
    ReleaseAccounts(s.srv.packets, Holders(s.srv) + Callers(s), p);
    assert Holders(s.srv) + Callers(s) - multiset{p} == Holders(Put(s, p)) + rest;
  }

  // ------------------------------------------------------- the players

  lemma UsedSlot(s: Sys, op: Op)
    requires RefsSettled(s.srv) && op in s.srv.net
    ensures op.slot < |s.srv.slots| && s.srv.slots[op.slot].generation > 0
  {
    ArrivedKeeps(s.srv, op);
  }

  lemma EngineStepAgrees(s: Sys, a: Action)
    requires RefsSettled(s.srv) && Agree(s.srv, s.players) && Enabled(s, a) && !ByUpdateThread(a)
    ensures Agree(EngineStep(s, a), s.players)
  {
    match a
    case Connect(associated, ok) => AcceptAgrees(s.srv, associated, ok, s.players);
    case ReceiveDone(op, payloads, end, ok) =>
      UsedSlot(s, op);
      RecvDoneAgrees(s.srv, op, payloads, end, ok, s.players);
    case SendCompleted(op, ok) =>
      UsedSlot(s, op);
      SendDoneAgrees(s.srv, op, ok, s.players);
    case Failed(op) =>
      UsedSlot(s, op);
      OpFailedAgrees(s.srv, op, s.players);
    case Drop(sid) => DisconnectAgrees(s.srv, sid, s.players);
    case SendTo(sid, ok) => SendPacketAgrees(s.srv, sid, s.out.value, ok, s.players);
  }

  lemma StepAgrees(s: Sys, a: Action)
    requires RefsSettled(s.srv) && Agree(s.srv, s.players) && Enabled(s, a)
    ensures Agree(Step(s, a).srv, Step(s, a).players)
  {
    if a.TakeMessage? {
      assert Replay(s.players, s.srv.contentQ) == Replay(ApplyMsg(s.players, s.srv.contentQ[0]), s.srv.contentQ[1..]);
    } else if ByUpdateThread(a) {
      Unchanged(s.srv, UpdateStep(s, a).srv, s.players);
    } else {
      EngineStepAgrees(s, a);
    }
  }

  // ---------------------------------------------------------- the order

  lemma BuildOrder(s: Sys, bytes: seq<byte>)
    requires Owned(s.srv, Callers(s)) && InOrder(s.srv, 0, Exact, s.top) && OutIsYoungest(s)
    ensures InOrder(DoBuild(s, bytes).srv, 0, Exact, DoBuild(s, bytes).top)
    ensures OutIsYoungest(DoBuild(s, bytes))
  {
    AllocOrder(s.srv, bytes, Callers(s), s.top);
    AllocAccounts(s.srv.packets, Holders(s.srv) + Callers(s), bytes);
    OlderBound(DoBuild(s, bytes).srv, s.top, DoBuild(s, bytes).top);
  }

  lemma OlderBound(s: Srv, top: nat, top': nat)
    requires InOrder(s, 0, Exact, top) && top <= top'
    ensures InOrder(s, 0, Exact, top')
  {
  }

  lemma EngineStepOrder(s: Sys, a: Action)
    requires Inv(s) && Enabled(s, a) && !ByUpdateThread(a)
    ensures InOrder(EngineStep(s, a), 0, Exact, s.top)
  {
    match a
    case Connect(associated, ok) => AcceptOrder(s.srv, associated, ok, s.top);
    case ReceiveDone(op, payloads, end, ok) =>
      UsedSlot(s, op);
      RecvDoneOrder(s.srv, op, payloads, end, ok, Callers(s), s.top);
    case SendCompleted(op, ok) =>
      UsedSlot(s, op);
      SendDoneOrder(s.srv, op, ok, s.top);
    case Failed(op) =>
      UsedSlot(s, op);
      OpFailedOrder(s.srv, op, s.top);
    case Drop(sid) => DisconnectOrder(s.srv, sid, s.top);
    case SendTo(sid, ok) => SendPacketOrder(s.srv, sid, s.out.value, ok, s.top);
  }

  lemma UpdateStepOrder(s: Sys, a: Action)
    requires Owned(s.srv, Callers(s)) && InOrder(s.srv, 0, Exact, s.top) && OutIsYoungest(s)
    requires Enabled(s, a) && ByUpdateThread(a)
    ensures InOrder(UpdateStep(s, a).srv, 0, Exact, UpdateStep(s, a).top)
  {
    match a
    case Build(bytes) => BuildOrder(s, bytes);
    case TakeMessage => SameOrder(s.srv, DoTakeMessage(s).srv, s.top);
    case Finish => SameOrder(s.srv, Put(s, s.out.value), s.top);
    case Done => SameOrder(s.srv, Put(s, s.current.value), s.top);
  }

  lemma UpdateStepYoungest(s: Sys, a: Action)
    requires Inv(s) && Enabled(s, a) && ByUpdateThread(a)
    ensures OutIsYoungest(UpdateStep(s, a))
  {
    if a.Build? { BuildOrder(s, a.bytes); }
  }

  lemma SameOrder(s: Srv, s': Srv, top: nat)
    requires InOrder(s, 0, Exact, top) && s'.slots == s.slots && s'.packets.contents == s.packets.contents
    ensures InOrder(s', 0, Exact, top)
  {
  }

  /** No call but Alloc writes a buffer, and Alloc writes none that is held. */
  lemma {:induction false} DeliverAllKeepsHeld(s: Srv, i: nat, payloads: seq<seq<byte>>, bad: bool,
                                               callers: multiset<Pkt>)
    requires i < |s.slots| && Owned(s, callers)
    ensures s.packets.allocs <= DeliverAll(s, i, payloads, bad).packets.allocs
    ensures forall p | p in callers ::
              ContentOf(DeliverAll(s, i, payloads, bad).packets.contents, p) == ContentOf(s.packets.contents, p)
    decreases |payloads|
  {
    if payloads != [] {
      AllocAccounts(s.packets, Holders(s) + callers, payloads[0]);
      DeliverOwned(s, i, payloads[0], callers);
      DeliverAllKeepsHeld(Deliver(s, i, payloads[0]), i, payloads[1..], bad, callers);
    } else if bad {
      AllocAccounts(s.packets, Holders(s) + callers, []);
    }
  }

  lemma RecvDoneKeepsHeld(s: Srv, op: Op, payloads: seq<seq<byte>>, end: End, ok: bool, callers: multiset<Pkt>)
    requires op.slot < |s.slots| && Owned(s, callers)
    ensures s.packets.allocs <= RecvDone(s, op, payloads, end, ok).packets.allocs
    ensures forall p | p in callers ::
              ContentOf(RecvDone(s, op, payloads, end, ok).packets.contents, p) == ContentOf(s.packets.contents, p)
  {
    ArrivedOwned(s, op, callers);
    DeliverAllKeepsHeld(Arrived(s, op), op.slot, payloads, end.Damaged?, callers);
  }

  lemma EngineStepYoungest(s: Sys, a: Action)
    requires Inv(s) && Enabled(s, a) && !ByUpdateThread(a)
    ensures OutIsYoungest(s.(srv := EngineStep(s, a)))
  {
    if a.ReceiveDone? {
      RecvDoneKeepsHeld(s.srv, a.op, a.payloads, a.end, a.ok, Callers(s));
      assert s.out.Some? ==> s.out.value in Callers(s);
    }
  }

  lemma StepKeepsInv(s: Sys, a: Action)
    requires Inv(s) && Enabled(s, a)
    ensures Inv(Step(s, a))
  {
    StepRefs(s, a);
    StepOwned(s, a);
    StepAgrees(s, a);
    if ByUpdateThread(a) {
      UpdateStepOrder(s, a);
      UpdateStepYoungest(s, a);
    } else {
      EngineStepOrder(s, a);
      EngineStepYoungest(s, a);
    }
  }

  lemma SlotOrdered(s: Sys, c: nat)
    requires Inv(s) && c < |s.srv.slots|
    ensures var b, slot := s.srv.packets.contents, s.srv.slots[c];
      && Ordered(b, slot, Exact) && slot.log.posted <= slot.log.accepted
      && (Open(slot) ==> slot.log.accepted == slot.log.posted + Contents(b, slot.queue))
  {
  }

  // ------------------------------------------------------------ whole runs

  ghost predicate EnabledRun(s: Sys, acts: seq<Action>)
    decreases |acts|
  {
    acts == [] || (Enabled(s, acts[0]) && EnabledRun(Step(s, acts[0]), acts[1..]))
  }

  ghost function Final(s: Sys, acts: seq<Action>): Sys
    requires EnabledRun(s, acts)
    decreases |acts|
  {
    if acts == [] then s else Final(Step(s, acts[0]), acts[1..])
  }

  lemma {:induction false} RunSnoc(s: Sys, acts: seq<Action>, a: Action)
    requires EnabledRun(s, acts) && Enabled(Final(s, acts), a)
    ensures EnabledRun(s, acts + [a]) && Final(s, acts + [a]) == Step(Final(s, acts), a)
    decreases |acts|
  {
    if acts == [] {
      assert [a][1..] == [] && acts + [a] == [a];
      assert EnabledRun(Step(s, a), []) && Final(Step(s, a), []) == Step(s, a);
    } else {
      assert (acts + [a])[1..] == acts[1..] + [a];
      RunSnoc(Step(s, acts[0]), acts[1..], a);
    }
  }

  lemma {:induction false} RunKeepsInv(s: Sys, acts: seq<Action>)
    requires Inv(s) && EnabledRun(s, acts)
    ensures Inv(Final(s, acts))
    decreases |acts|
  {
    if acts != [] {
      StepKeepsInv(s, acts[0]);
      RunKeepsInv(Step(s, acts[0]), acts[1..]);
    }
  }
}

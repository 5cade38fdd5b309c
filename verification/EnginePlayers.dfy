/**
  The content layer's `players` map against the engine's open sessions: the agreement
  whose loss was bug 19 of BUGFIX_LOG.md. Only the keys of the map are modelled here;
  ChatRooms shows that the handlers change them as `ApplyMsg` says.
*/
module EnginePlayers {
  import opened PacketPool
  import opened SessionId
  import opened Engine
  import opened EngineRefs
  import opened Bytes
  import opened SendQueue

  /** Handle_Join and Handle_Leave on the keys of `players`. */
  function ApplyMsg(players: set<SessionID>, m: Msg): set<SessionID> {
    match m
    case Join(sid) => players + {sid}
    case Leave(sid) => players - {sid}
    case Received(_, _) => players
  }

  /** The keys once the Update thread has caught up. */
  function Replay(players: set<SessionID>, q: seq<Msg>): set<SessionID>
    decreases |q|
  {
    if q == [] then players else Replay(ApplyMsg(players, q[0]), q[1..])
  }

  lemma {:induction false} ReplaySnoc(players: set<SessionID>, q: seq<Msg>, m: Msg)
    ensures Replay(players, q + [m]) == ApplyMsg(Replay(players, q), m)
    decreases |q|
  {
    if q == [] {
      assert q + [m] == [m];
    } else {
      assert (q + [m])[1..] == q[1..] + [m];
      ReplaySnoc(ApplyMsg(players, q[0]), q[1..], m);
    }
  }

  function OpenSids(slots: seq<Slot>): set<SessionID> {
    set j | 0 <= j < |slots| && Open(slots[j]) :: slots[j].sid
  }

  /** Every slot that has been used carries the identifier of its incarnation. */
  ghost predicate SidsOk(slots: seq<Slot>) {
    && |slots| <= 0xFFFF
    && forall j | 0 <= j < |slots| && slots[j].generation > 0 ::
         slots[j].generation <= MAX_LONG && slots[j].sid == MakeSid(j, slots[j].generation)
  }

  lemma SettledSids(s: Srv)
    requires RefsSettled(s)
    ensures SidsOk(s.slots)
  {
  }

  /** Caught up, the players are the open sessions. */
  ghost predicate Agree(s: Srv, players: set<SessionID>) {
    SidsOk(s.slots) && Replay(players, s.contentQ) == OpenSids(s.slots)
  }

  /** The same sessions are open. */
  ghost predicate SameOpen(slots: seq<Slot>, slots': seq<Slot>) {
    && |slots'| == |slots|
    && forall j | 0 <= j < |slots| ::
         && slots'[j].generation == slots[j].generation && slots'[j].sid == slots[j].sid
         && slots'[j].closed == slots[j].closed
  }

  lemma Unchanged(s: Srv, s': Srv, players: set<SessionID>)
    requires Agree(s, players) && SameOpen(s.slots, s'.slots) && s'.contentQ == s.contentQ
    ensures Agree(s', players)
  {
    assert OpenSids(s'.slots) == OpenSids(s.slots);
  }

  lemma ReleaseAgrees(s: Srv, i: nat, players: set<SessionID>)
    requires i < |s.slots| && Agree(s, players)
    ensures Agree(IORelease(s, i), players)
  {
    Unchanged(s, IORelease(s, i), players);
  }

  lemma ArrivedAgrees(s: Srv, op: Op, players: set<SessionID>)
    requires Agree(s, players)
    ensures Agree(Arrived(s, op), players)
  {
    Unchanged(s, Arrived(s, op), players);
  }

  lemma AbandonAgrees(s: Srv, i: nat, players: set<SessionID>)
    requires i < |s.slots| && Agree(s, players)
    ensures Agree(Abandon(s, i), players)
  {
    Unchanged(s, Abandon(s, i), players);
  }

  /** Closing one session removes its identifier and no other. */
  lemma CloseRemovesSid(slots: seq<Slot>, i: nat, slot: Slot)
    requires i < |slots| && SidsOk(slots) && Open(slots[i])
    requires slot.closed && slot.generation == slots[i].generation && slot.sid == slots[i].sid
    ensures SidsOk(slots[i := slot])
    ensures OpenSids(slots[i := slot]) == OpenSids(slots) - {slots[i].sid}
  {
    var slots' := slots[i := slot];
    forall j | 0 <= j < |slots| && j != i && Open(slots[j]) ensures slots[j].sid != slots[i].sid {
      SidsDistinct(i, slots[i].generation, j, slots[j].generation);
    }
    forall sid | sid in OpenSids(slots) && sid != slots[i].sid ensures sid in OpenSids(slots') {
      var j :| 0 <= j < |slots| && Open(slots[j]) && slots[j].sid == sid;
      assert slots'[j] == slots[j];
    }
    forall sid | sid in OpenSids(slots') ensures sid in OpenSids(slots) - {slots[i].sid} {
      var j :| 0 <= j < |slots'| && Open(slots'[j]) && slots'[j].sid == sid;
      assert j != i && slots'[j] == slots[j];
    }
  }

  lemma CloseAgrees(s: Srv, i: nat, players: set<SessionID>)
    requires i < |s.slots| && Agree(s, players) && s.slots[i].generation > 0
    ensures Agree(CloseSession(s, i), players)
  {
    if !s.slots[i].closed {
      var slot := s.slots[i];
      CloseRemovesSid(s.slots, i, slot.(closed := true, queue := []));
      ReplaySnoc(players, s.contentQ, Leave(slot.sid));
      var s1 := SetSlot(s, i, slot.(closed := true, queue := []));
      var s2 := s1.(packets := ReleaseAll(s1.packets, slot.queue), contentQ := s1.contentQ + [Leave(slot.sid)]);
      Unchanged(s2, IORelease(s2, i), players);
    }
  }

  lemma PostRecvAgrees(s: Srv, i: nat, ok: bool, players: set<SessionID>)
    requires i < |s.slots| && Agree(s, players) && s.slots[i].generation > 0
    ensures Agree(PostRecv(s, i, ok), players)
  {
    var s1 := IOAddRef(s, i);
    Unchanged(s, s1, players);
    if ok && !s.slots[i].closed {
      Unchanged(s1, Posted(s1, i, Recv), players);
    } else {
      CloseAgrees(s1, i, players);
      ReleaseAgrees(CloseSession(s1, i), i, players);
    }
  }

  lemma FlushAgrees(s: Srv, i: nat, ok: bool, players: set<SessionID>)
    requires i < |s.slots| && Agree(s, players) && s.slots[i].generation > 0
    ensures Agree(FlushSend(s, i, ok), players)
  {
    if !s.slots[i].pending {
      var s1 := IOAddRef(SetSlot(s, i, Take(s.slots[i])), i);
      Unchanged(s, s1, players);
      if ok && !s.slots[i].closed {
        Unchanged(s1, SendPosted(s1, i), players);
      } else {
        var s2 := DropSent(s1, i);
        Unchanged(s1, s2, players);
        CloseAgrees(s2, i, players);
        ReleaseAgrees(CloseSession(s2, i), i, players);
      }
    }
  }

  lemma OnSendCompleteAgrees(s: Srv, i: nat, ok: bool, players: set<SessionID>)
    requires i < |s.slots| && Agree(s, players) && s.slots[i].generation > 0
    ensures Agree(OnSendComplete(s, i, ok), players)
  {
    Unchanged(s, DropSent(s, i), players);
    if DropSent(s, i).slots[i].queue != [] {
      FlushAgrees(DropSent(s, i), i, ok, players);
    }
  }

  lemma SendPacketAgrees(s: Srv, sid: SessionID, p: Pkt, ok: bool, players: set<SessionID>)
    requires Issued(s, sid) && Agree(s, players)
    ensures Agree(SendPacket(s, sid, p, ok).srv, players)
  {
    IssuedAddress(s, sid);
    if Addresses(s, sid) && !s.slots[SidIndex(sid)].closed {
      var i := SidIndex(sid);
      if |s.slots[i].queue| >= QSIZE {
        CloseAgrees(s, i, players);
      } else {
        Unchanged(s, Enqueue(s, i, p), players);
        FlushAgrees(Enqueue(s, i, p), i, ok, players);
      }
    }
  }

  lemma DisconnectAgrees(s: Srv, sid: SessionID, players: set<SessionID>)
    requires Issued(s, sid) && Agree(s, players)
    ensures Agree(Disconnect(s, sid).srv, players)
  {
    IssuedAddress(s, sid);
    if Addresses(s, sid) {
      CloseAgrees(s, SidIndex(sid), players);
    }
  }

  lemma {:induction false} DeliverAllAgrees(s: Srv, i: nat, payloads: seq<seq<byte>>, bad: bool,
                                            players: set<SessionID>)
    requires i < |s.slots| && Agree(s, players)
    ensures Agree(DeliverAll(s, i, payloads, bad), players)
    decreases |payloads|
  {
    if payloads != [] {
      ReplaySnoc(players, s.contentQ, Received(s.slots[i].sid, NextPkt(s.packets)));
      DeliverAllAgrees(Deliver(s, i, payloads[0]), i, payloads[1..], bad, players);
    }
  }

  lemma OnRecvCompleteAgrees(s: Srv, i: nat, payloads: seq<seq<byte>>, end: End, ok: bool, players: set<SessionID>)
    requires i < |s.slots| && Agree(s, players) && s.slots[i].generation > 0
    ensures Agree(OnRecvComplete(s, i, payloads, end, ok), players)
  {
    DeliverAllAgrees(s, i, payloads, end.Damaged?, players);
    var s1 := DeliverAll(s, i, payloads, end.Damaged?);
    if end.Repost? { PostRecvAgrees(s1, i, ok, players); } else { CloseAgrees(s1, i, players); }
  }

  lemma RecvDoneAgrees(s: Srv, op: Op, payloads: seq<seq<byte>>, end: End, ok: bool, players: set<SessionID>)
    requires op.slot < |s.slots| && Agree(s, players) && s.slots[op.slot].generation > 0
    ensures Agree(RecvDone(s, op, payloads, end, ok), players)
  {
    ArrivedAgrees(s, op, players);
    OnRecvCompleteAgrees(Arrived(s, op), op.slot, payloads, end, ok, players);
    var s1 := OnRecvComplete(Arrived(s, op), op.slot, payloads, end, ok);
    ReleaseAgrees(s1, op.slot, players);
  }

  lemma SendDoneAgrees(s: Srv, op: Op, ok: bool, players: set<SessionID>)
    requires op.slot < |s.slots| && Agree(s, players) && s.slots[op.slot].generation > 0
    ensures Agree(SendDone(s, op, ok), players)
  {
    ArrivedAgrees(s, op, players);
    OnSendCompleteAgrees(Arrived(s, op), op.slot, ok, players);
    var s1 := OnSendComplete(Arrived(s, op), op.slot, ok);
    ReleaseAgrees(s1, op.slot, players);
  }

  lemma OpFailedAgrees(s: Srv, op: Op, players: set<SessionID>)
    requires op.slot < |s.slots| && Agree(s, players) && s.slots[op.slot].generation > 0
    ensures Agree(OpFailed(s, op), players)
  {
    var i := op.slot;
    ArrivedAgrees(s, op, players);
    CloseAgrees(Arrived(s, op), i, players);
    var s1 := CloseSession(Arrived(s, op), i);
    var s2 := if op.kind.Send? then Abandon(s1, i) else s1;
    if op.kind.Send? { AbandonAgrees(s1, i, players); }
    ReleaseAgrees(s2, i, players);
  }

  /** Initialising a slot opens one session more, with an identifier of its own. */
  lemma InitialisedOpens(s: Srv)
    requires RefsSettled(s) && Shaped(s) && s.indexPool != []
    requires var i := s.indexPool[0]; i < |s.slots| && s.slots[i].generation < MAX_LONG
    ensures var i, s1 := s.indexPool[0], Initialised(s);
      && SidsOk(s1.slots) && Open(s1.slots[i])
      && OpenSids(s1.slots) == OpenSids(s.slots) + {s1.slots[i].sid}
      && s1.slots[i].sid !in OpenSids(s.slots)
  {
    var i, s1 := s.indexPool[0], Initialised(s);
    assert i in s.indexPool;
    SettledSids(s);
    assert SlotOk(s.slots[i], i, Recvs(s, i), Sends(s, i), SETTLED);
    forall j | 0 <= j < |s.slots| && j != i && Open(s.slots[j])
      ensures s.slots[j].sid != s1.slots[i].sid && s.slots[j].sid in OpenSids(s1.slots)
    {
      SidsDistinct(i, s1.slots[i].generation, j, s.slots[j].generation);
      assert s1.slots[j] == s.slots[j];
    }
    assert s1.slots[i].sid in OpenSids(s1.slots);
  }

  lemma AcceptAgrees(s: Srv, associated: bool, ok: bool, players: set<SessionID>)
    requires RefsSettled(s) && Shaped(s) && Agree(s, players)
    requires s.indexPool != [] ==> s.indexPool[0] < |s.slots| && s.slots[s.indexPool[0]].generation < MAX_LONG
    ensures Agree(Accept(s, associated, ok), players)
  {
    if s.indexPool != [] {
      var i, s1 := s.indexPool[0], Initialised(s);
      var sid := s1.slots[i].sid;
      InitialisedOpens(s);
      if associated {
        ReplaySnoc(players, s1.contentQ, Join(sid));
        PostRecvAgrees(s1.(contentQ := s1.contentQ + [Join(sid)]), i, ok, players);
      } else {
        // LEAVE without a JOIN removes nothing from the players
        var slot := s1.slots[i].(closed := true, queue := []);
        CloseRemovesSid(s1.slots, i, slot);
        ReplaySnoc(players, s1.contentQ, Leave(sid));
        assert OpenSids(s1.slots[i := slot]) == OpenSids(s.slots) == OpenSids(s.slots) - {sid};
        var s2 := SetSlot(s1, i, slot).(packets := ReleaseAll(s1.packets, []), contentQ := s1.contentQ + [Leave(sid)]);
        Unchanged(s2, IORelease(s2, i), players);
      }
    }
  }
}

/**
  CLanServer over mutable sessions (myIOCP/CLanServer.cpp): each method does to the
  objects what the Engine function of the same name does to a value. The network is
  the outcome passed in; operations posted to it are recorded in `net`.
*/
module LanServer {
  import opened PacketPool
  import opened SessionId
  import E = Engine
  import opened SessionObject
  import opened Bytes
  import opened SendQueue

  class LanServer {
    const sessions: seq<Session>
    const store: PacketStore
    ghost const cells: set<object>     // the sessions and their arrays
    var indexPool: seq<nat>
    var contentQ: seq<E.Msg>
    ghost var net: multiset<E.Op>
    ghost var abandoned: multiset<Pkt>

    /** Sessions are sound and share no storage. */
    ghost predicate Valid()
      reads this, cells
    {
      && |sessions| <= 0xFFFF
      && (forall j | 0 <= j < |sessions| :: sessions[j].Repr() <= cells && sessions[j].Valid())
      && (forall j, k | 0 <= j < |sessions| && 0 <= k < |sessions| && j != k ::
            sessions[j].Repr() !! sessions[k].Repr())
    }


    ghost predicate Shows(s: E.Srv)
      requires Valid()
      reads this, store, cells
    {
      && |s.slots| == |sessions|
      && (forall j | 0 <= j < |sessions| :: sessions[j].View() == s.slots[j])
      && s.indexPool == indexPool && s.packets == store.View() && s.contentQ == contentQ
      && s.net == net && s.abandoned == abandoned
    }

    /** `Start(maxSession = n)`. */
    constructor (n: nat)
      requires n <= 0xFFFF
      ensures Valid() && Shows(E.Started(n))
    {
      var made: seq<Session> := [];
      var free: seq<nat> := [];
      ghost var own: set<object> := {};
      while |made| < n
        invariant |made| <= n && free == E.Descending(|made|)
        invariant fresh(own)
        invariant forall j | 0 <= j < |made| ::
                    made[j].Repr() <= own && made[j].Valid() && made[j].View() == E.FRESH_SLOT
        invariant forall j, k | 0 <= j < k < |made| :: made[j].Repr() !! made[k].Repr()
      {
        var sess := new Session();
        free := [|made|] + free;
        made := made + [sess];
        own := own + sess.Repr();
      }
      sessions := made;
      cells := own;
      store := new PacketStore();
      indexPool := free;
      contentQ, net, abandoned := [], multiset{}, multiset{};
    }

    method IORelease(i: nat, ghost s: E.Srv)
      requires Valid() && Shows(s) && i < |sessions|
      modifies this`indexPool, sessions[i]
      ensures Valid() && Shows(E.IORelease(s, i))
    {
      var last := sessions[i].Unref();
      if last { indexPool := [i] + indexPool; }
    }

    method IOAddRef(i: nat, ghost s: E.Srv)
      requires Valid() && Shows(s) && i < |sessions|
      modifies sessions[i]
      ensures Valid() && Shows(E.IOAddRef(s, i))
    {
      sessions[i].Ref();
    }

    method CloseSession(i: nat, ghost s: E.Srv)
      requires Valid() && Shows(s) && i < |sessions|
      modifies this`indexPool, this`contentQ, store, sessions[i]
      ensures Valid() && Shows(E.CloseSession(s, i))
    {
      var first := sessions[i].Close(store);
      if !first { return; }
      contentQ := contentQ + [E.Leave(sessions[i].sID)];
      ghost var slot := s.slots[i];
      ghost var s1 := E.SetSlot(s, i, slot.(closed := true, queue := []));
      IORelease(i, s1.(packets := ReleaseAll(s1.packets, slot.queue), contentQ := s1.contentQ + [E.Leave(slot.sid)]));
    }

    /** `ok` is what WSARecv says on an open socket. */
    method PostRecv(i: nat, ok: bool, ghost s: E.Srv)
      requires Valid() && Shows(s) && i < |sessions|
      modifies this`indexPool, this`contentQ, this`net, store, sessions[i]
      ensures Valid() && Shows(E.PostRecv(s, i, ok))
    {
      IOAddRef(i, s);
      if ok && !sessions[i].closeFlag {
        net := net + multiset{E.Op(i, sessions[i].generation, E.Recv)};
      } else {
        CloseSession(i, E.IOAddRef(s, i));
        IORelease(i, E.CloseSession(E.IOAddRef(s, i), i));
      }
    }

    /** Releases the batch and gives up sendPending. */
    method DropSent(i: nat, ghost s: E.Srv)
      requires Valid() && Shows(s) && i < |sessions|
      modifies store, sessions[i]
      ensures Valid() && Shows(E.DropSent(s, i))
    {
      sessions[i].GiveUpSent(store);
    }

    /** Moves the queue to the batch. */
    method Take(i: nat, ghost s: E.Srv)
      requires Valid() && Shows(s) && i < |sessions|
      modifies sessions[i], sessions[i].sendPkts
      ensures Valid() && Shows(E.SetSlot(s, i, E.Take(s.slots[i])))
    {
      sessions[i].TakeQueue();
    }

    /** `ok` is what WSASend says on an open socket. */
    method FlushSend(i: nat, ok: bool, ghost s: E.Srv)
      requires Valid() && Shows(s) && i < |sessions|
      modifies this`indexPool, this`contentQ, this`net, store, sessions[i], sessions[i].sendPkts
      ensures Valid() && Shows(E.FlushSend(s, i, ok))
    {
      var sess := sessions[i];
      if sess.sendPending { return; }
      Take(i, s);
      ghost var s1 := E.SetSlot(s, i, E.Take(s.slots[i]));
      IOAddRef(i, s1);
      s1 := E.IOAddRef(s1, i);
      if ok && !sess.closeFlag {
        Post(i, s1);
      } else {
        DropSent(i, s1);
        CloseSession(i, E.DropSent(s1, i));
        IORelease(i, E.CloseSession(E.DropSent(s1, i), i));
      }
    }

    /** WSASend accepts the batch. */
    method Post(i: nat, ghost s: E.Srv)
      requires Valid() && Shows(s) && i < |sessions|
      modifies this`net, sessions[i]
      ensures Valid() && Shows(E.SendPosted(s, i))
    {
      var sess := sessions[i];
      net := net + multiset{E.Op(i, sess.generation, E.Send)};
      sess.NotePosted(store);
    }

    method OnSendComplete(i: nat, ok: bool, ghost s: E.Srv)
      requires Valid() && Shows(s) && i < |sessions|
      modifies this`indexPool, this`contentQ, this`net, store, sessions[i], sessions[i].sendPkts
      ensures Valid() && Shows(E.OnSendComplete(s, i, ok))
    {
      DropSent(i, s);
      if sessions[i].sqCount > 0 { FlushSend(i, ok, E.DropSent(s, i)); }
    }

    /** The entry goes in at sqTail with a reference of its own. */
    method Enqueue(i: nat, p: Pkt, ghost s: E.Srv)
      requires Valid() && Shows(s) && i < |sessions| && sessions[i].sqCount < QSIZE
      modifies store, sessions[i], sessions[i].sendQ
      ensures Valid() && Shows(E.Enqueue(s, i, p))
    {
      sessions[i].Enqueue(p, store);
    }

    method SendPacket(sid: SessionID, p: Pkt, ok: bool, ghost s: E.Srv) returns (sent: bool)
      requires Valid() && Shows(s)
      modifies this, store, cells
      ensures Valid() && Shows(E.SendPacket(s, sid, p, ok).srv)
      ensures sent == E.SendPacket(s, sid, p, ok).ok
    {
      var i := SidIndex(sid);
      if i >= |sessions| { return false; }
      var sess := sessions[i];
      if sess.generation != SidGeneration(sid) { return false; }
      if sess.closeFlag { return false; }
      if sess.sqCount >= QSIZE {
        CloseSession(i, s);
        return false;
      }
      Enqueue(i, p, s);
      FlushSend(i, ok, E.Enqueue(s, i, p));
      return true;
    }

    method Disconnect(sid: SessionID, ghost s: E.Srv) returns (found: bool)
      requires Valid() && Shows(s)
      modifies this, store, cells
      ensures Valid() && Shows(E.Disconnect(s, sid).srv)
      ensures found == E.Disconnect(s, sid).ok
    {
      var i := SidIndex(sid);
      if i >= |sessions| { return false; }
      if sessions[i].generation != SidGeneration(sid) { return false; }
      CloseSession(i, s);
      return true;
    }

    method InitSession(i: nat, ghost s: E.Srv)
      requires Valid() && Shows(s) && i < |sessions| && E.Shaped(s)
      modifies sessions[i]
      ensures Valid() && Shows(E.SetSlot(s, i, E.InitSlot(s.slots[i], i)))
    {
      sessions[i].Init(i);
    }

    /** AcceptThread for one connection. */
    method Accept(associated: bool, ok: bool, ghost s: E.Srv)
      requires Valid() && Shows(s) && E.Shaped(s)
      modifies this, store, cells
      ensures Valid() && Shows(E.Accept(s, associated, ok))
    {
      if indexPool == [] { return; }
      var i := indexPool[0];
      assert i in s.indexPool;
      InitSession(i, s);
      indexPool := indexPool[1..];
      ghost var s1 := E.SetSlot(s, i, E.InitSlot(s.slots[i], i)).(indexPool := s.indexPool[1..]);
      if !associated {
        CloseSession(i, s1);
      } else {
        contentQ := contentQ + [E.Join(sessions[i].sID)];
        PostRecv(i, ok, s1.(contentQ := s1.contentQ + [E.Join(s1.slots[i].sid)]));
      }
    }

    /** Alloc, AttachRaw, OnRecv, Release. */
    method Deliver(i: nat, payload: seq<byte>, ghost s: E.Srv)
      requires Valid() && Shows(s) && i < |sessions|
      modifies this`contentQ, store
      ensures Valid() && Shows(E.Deliver(s, i, payload))
    {
      var p := store.Alloc(payload);
      store.AddRef(p);
      contentQ := contentQ + [E.Received(sessions[i].sID, p)];
      store.Release(p);
    }

    /** What the parse loop does with the frames it finds; `bad` when the last of them
        failed to decode. */
    method DeliverAll(i: nat, payloads: seq<seq<byte>>, bad: bool, ghost s: E.Srv)
      requires Valid() && Shows(s) && i < |sessions|
      modifies this`contentQ, store
      ensures Valid() && Shows(E.DeliverAll(s, i, payloads, bad))
    {
      var k := 0;
      ghost var t := s;
      while k < |payloads|
        invariant Valid() && Shows(t) && k <= |payloads|
        invariant E.DeliverAll(t, i, payloads[k..], bad) == E.DeliverAll(s, i, payloads, bad)
      {
        assert payloads[k..][0] == payloads[k] && payloads[k..][1..] == payloads[k + 1..];
        Deliver(i, payloads[k], t);
        t := E.Deliver(t, i, payloads[k]);
        k := k + 1;
      }
      if bad { Discard(t); }
    }

    /** Alloc and Release for a frame that failed to decode. */
    method Discard(ghost s: E.Srv)
      requires Valid() && Shows(s)
      modifies store
      ensures Valid() && Shows(E.Discard(s))
    {
      var p := store.Alloc([]);
      store.Release(p);
    }

    method OnRecvComplete(i: nat, payloads: seq<seq<byte>>, end: E.End, ok: bool, ghost s: E.Srv)
      requires Valid() && Shows(s) && i < |sessions|
      modifies this`indexPool, this`contentQ, this`net, store, sessions[i]
      ensures Valid() && Shows(E.OnRecvComplete(s, i, payloads, end, ok))
    {
      DeliverAll(i, payloads, end.Damaged?, s);
      if end.Repost? {
        PostRecv(i, ok, E.DeliverAll(s, i, payloads, end.Damaged?));
      } else {
        CloseSession(i, E.DeliverAll(s, i, payloads, end.Damaged?));
      }
    }

    /** WorkerThread: a receive completed with some bytes. */
    method RecvDone(op: E.Op, payloads: seq<seq<byte>>, end: E.End, ok: bool, ghost s: E.Srv)
      requires Valid() && Shows(s) && op.slot < |sessions|
      modifies this, store, sessions[op.slot]
      ensures Valid() && Shows(E.RecvDone(s, op, payloads, end, ok))
    {
      net := net - multiset{op};
      OnRecvComplete(op.slot, payloads, end, ok, E.Arrived(s, op));
      IORelease(op.slot, E.OnRecvComplete(E.Arrived(s, op), op.slot, payloads, end, ok));
    }

    /** WorkerThread: a send completed. */
    method SendDone(op: E.Op, ok: bool, ghost s: E.Srv)
      requires Valid() && Shows(s) && op.slot < |sessions|
      modifies this, store, sessions[op.slot], sessions[op.slot].sendPkts
      ensures Valid() && Shows(E.SendDone(s, op, ok))
    {
      net := net - multiset{op};
      OnSendComplete(op.slot, ok, E.Arrived(s, op));
      IORelease(op.slot, E.OnSendComplete(E.Arrived(s, op), op.slot, ok));
    }

    /** WorkerThread: a completion failed or brought no bytes. */
    method OpFailed(op: E.Op, ghost s: E.Srv)
      requires Valid() && Shows(s) && op.slot < |sessions|
      modifies this, store, sessions[op.slot]
      ensures Valid() && Shows(E.OpFailed(s, op))
    {
      net := net - multiset{op};
      CloseSession(op.slot, E.Arrived(s, op));
      ghost var s1 := E.CloseSession(E.Arrived(s, op), op.slot);
      if op.kind.Send? {
        Abandon(op.slot, s1);
        s1 := E.Abandon(s1, op.slot);
      }
      IORelease(op.slot, s1);
    }

    /** Bookkeeping alone: nothing releases the batch of a failed send. */
    ghost method Abandon(i: nat, s: E.Srv)
      requires Valid() && Shows(s) && i < |sessions|
      modifies this`abandoned, sessions[i]
      ensures Valid() && Shows(E.Abandon(s, i))
    {
      abandoned := abandoned + multiset(sessions[i].log.inFlight);
      sessions[i].log := sessions[i].log.(inFlight := []);
    }
  }
}

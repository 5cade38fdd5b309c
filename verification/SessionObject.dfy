/**
  The mutable session record (Session in myIOCP/CLanServer.h) with its 512-entry
  circular send queue, and the packet store it releases references to.
*/
module SessionObject {
  import opened PacketPool
  import opened SessionId
  import opened Engine
  import opened Bytes
  import opened SendQueue

  /** The packets and their shared pool. */
  class PacketStore {
    var refs: map<Pkt, int>
    var contents: map<Pkt, Content>
    var pool: seq<Pkt>
    var made: nat
    var allocs: nat

    ghost function View(): Packets
      reads this
    {
      Packets(refs, contents, pool, made, allocs)
    }

    constructor ()
      ensures View() == NO_PACKETS
    {
      refs, contents, pool, made, allocs := map[], map[], [], 0, 0;
    }

    method Alloc(bytes: seq<byte>) returns (p: Pkt)
      modifies this
      ensures p == NextPkt(old(View())) && View() == AllocWith(old(View()), bytes)
    {
      if pool != [] {
        p := pool[0];
        pool := pool[1..];
      } else {
        p := made;
        made := made + 1;
      }
      refs := refs[p := 1];
      contents := contents[p := Content(allocs, bytes)];
      allocs := allocs + 1;
    }

    method AddRef(p: Pkt)
      modifies this
      ensures View() == PacketPool.AddRef(old(View()), p)
    {
      refs := refs[p := (if p in refs then refs[p] else 0) + 1];
    }

    method Release(p: Pkt)
      modifies this
      ensures View() == PacketPool.Release(old(View()), p)
    {
      var count := (if p in refs then refs[p] else 0) - 1;
      refs := refs[p := count];
      if count == 0 {
        pool := [p] + pool;
      }
    }
  }

  /** Entries of a circular array, `count` of them from `head`. */
  ghost function Ring(a: seq<Pkt>, head: nat, count: nat): (r: seq<Pkt>)
    requires |a| == QSIZE && head < QSIZE
    ensures |r| == count
    ensures forall k | 0 <= k < count :: r[k] == a[(head + k) % QSIZE]
    decreases count
  {
    if count == 0 then [] else [a[head]] + Ring(a, (head + 1) % QSIZE, count - 1)
  }

  class Session {
    var generation: int
    var sID: SessionID
    var closeFlag: bool
    var sendPending: bool
    const sendQ: array<Pkt>
    var sqHead: nat
    var sqTail: nat
    var sqCount: nat
    const sendPkts: array<Pkt>
    var sentCount: nat
    var ioRefCount: int
    ghost var log: Log

    ghost predicate Valid()
      reads this
    {
      && sendQ.Length == QSIZE && sendPkts.Length == QSIZE && sendQ != sendPkts
      && sqHead < QSIZE && sqCount <= QSIZE && sqTail == (sqHead + sqCount) % QSIZE
      && sentCount <= QSIZE
    }

    ghost function Repr(): set<object> { {this, sendQ, sendPkts} }

    ghost function Queue(): seq<Pkt>
      requires Valid()
      reads this, sendQ
    {
      Ring(sendQ[..], sqHead, sqCount)
    }

    ghost function View(): Slot
      requires Valid()
      reads this, sendQ, sendPkts
    {
      Slot(generation, sID, closeFlag, sendPending, Queue(), sendPkts[..sentCount], ioRefCount, log)
    }

    constructor ()
      ensures Valid() && View() == FRESH_SLOT && fresh(sendQ) && fresh(sendPkts)
    {
      sendQ := new Pkt[QSIZE](_ => 0);
      sendPkts := new Pkt[QSIZE](_ => 0);
      generation, sID, closeFlag, sendPending, ioRefCount := 0, 0, false, false, 0;
      sqHead, sqTail, sqCount, sentCount := 0, 0, 0, 0;
      log := FRESH_SLOT.log;
    }

    /** The entry at sqTail becomes the youngest. */
    method Push(p: Pkt)
      requires Valid() && sqCount < QSIZE
      modifies this`sqTail, this`sqCount, sendQ
      ensures Valid() && Queue() == old(Queue()) + [p]
    {
      ghost var before, count := sendQ[..], sqCount;
      RingPush(before, sqHead, count, p);
      NextTail(sqHead, count);
      sendQ[sqTail] := p;
      assert sendQ[..] == before[(sqHead + count) % QSIZE := p];
      sqTail := (sqTail + 1) % QSIZE;
      sqCount := sqCount + 1;
    }

    /** The entry at sqHead is the oldest. */
    method Pop() returns (p: Pkt)
      requires Valid() && sqCount > 0
      modifies this`sqHead, this`sqCount
      ensures Valid() && [p] + Queue() == old(Queue())
    {
      p := sendQ[sqHead];
      sqHead := (sqHead + 1) % QSIZE;
      sqCount := sqCount - 1;
    }

    /** The drain loop of CloseSession. */
    method Drain(store: PacketStore)
      requires Valid()
      modifies this`sqHead, this`sqCount, store
      ensures Valid() && Queue() == []
      ensures store.View() == ReleaseAll(old(store.View()), old(Queue()))
    {
      while sqCount > 0
        invariant Valid()
        invariant ReleaseAll(store.View(), Queue()) == ReleaseAll(old(store.View()), old(Queue()))
        decreases sqCount
      {
        ghost var q := Queue();
        var pkt := Pop();
        assert q[0] == pkt && q[1..] == Queue();
        store.Release(pkt);
      }
    }

    /** The release loops of FlushSend and OnSendComplete. */
    method ReleaseSent(store: PacketStore)
      requires Valid()
      modifies this`sentCount, store
      ensures Valid() && sentCount == 0
      ensures store.View() == ReleaseAll(old(store.View()), old(sendPkts[..sentCount]))
    {
      ghost var all := sendPkts[..sentCount];
      for i := 0 to sentCount
        invariant ReleaseAll(store.View(), all[i..]) == ReleaseAll(old(store.View()), all)
      {
        assert all[i..][0] == sendPkts[i] && all[i..][1..] == all[i + 1..];
        store.Release(sendPkts[i]);
      }
      sentCount := 0;
    }

    /** The batch loop of FlushSend. */
    method TakeBatch()
      requires Valid()
      modifies this`sqHead, this`sqCount, this`sentCount, sendPkts
      ensures Valid()
      ensures sendPkts[..sentCount] == old(Queue()) && Queue() == []
    {
      ghost var all := Queue();
      var count := 0;
      while sqCount > 0 && count < QSIZE
        invariant Valid() && count + sqCount == |all|
        invariant sendPkts[..count] == all[..count] && Queue() == all[count..]
        decreases sqCount
      {
        ghost var q := Queue();
        var pkt := Pop();
        assert pkt == q[0] == all[count] && Queue() == q[1..];
        sendPkts[count] := pkt;
        count := count + 1;
      }
      sentCount := count;
    }

    /** InterlockedIncrement of ioRefCount. */
    method Ref()
      requires Valid()
      modifies this`ioRefCount
      ensures Valid() && View() == old(View()).(ioRef := old(ioRefCount) + 1)
    {
      ioRefCount := ioRefCount + 1;
    }

    /** InterlockedDecrement of ioRefCount; `last` when it leaves 0. */
    method Unref() returns (last: bool)
      requires Valid()
      modifies this`ioRefCount, this`log
      ensures Valid() && last == (old(ioRefCount) - 1 == 0)
      ensures View() == old(View()).(
                ioRef := old(ioRefCount) - 1,
                log := old(log).(returned := old(log).returned + if last then 1 else 0))
    {
      ioRefCount := ioRefCount - 1;
      last := ioRefCount == 0;
      if last { log := log.(returned := log.returned + 1); }
    }

    /** Sets closeFlag and, if it was clear, drains the queue. */
    method Close(store: PacketStore) returns (first: bool)
      requires Valid()
      modifies this, store
      ensures Valid() && first == !old(closeFlag)
      ensures View() == if first then old(View()).(closed := true, queue := []) else old(View())
      ensures store.View() == if first then ReleaseAll(old(store.View()), old(Queue())) else old(store.View())
    {
      first := !closeFlag;
      closeFlag := true;
      if first { Drain(store); }
    }

    /** InitSession, for slot number `i`. */
    method Init(i: nat)
      requires Valid() && i < 0xFFFF && -MAX_LONG - 1 <= generation <= MAX_LONG
      modifies this
      ensures Valid() && View() == InitSlot(old(View()), i)
    {
      generation := NextLong(generation);
      sID := MakeSid(i, generation);
      sqHead, sqTail, sqCount, sentCount := 0, 0, 0, 0;
      sendPending := false;
      ioRefCount := 1;
      closeFlag := false;
      log := Log([], [], [], log.returned);
    }

    /** SendPacket's part under the lock: the entry goes in with a reference of its own. */
    method Enqueue(p: Pkt, store: PacketStore)
      requires Valid() && sqCount < QSIZE
      modifies this, sendQ, store
      ensures Valid() && store.View() == PacketPool.AddRef(old(store.View()), p)
      ensures View() == old(View()).(
                queue := old(View()).queue + [p],
                log := old(log).(accepted := old(log).accepted + [ContentOf(old(store.contents), p)]))
    {
      store.AddRef(p);
      Push(p);
      log := log.(accepted := log.accepted + [ContentOf(store.contents, p)]);
    }

    /** FlushSend's part under the lock. */
    method TakeQueue()
      requires Valid()
      modifies this, sendPkts
      ensures Valid() && View() == Take(old(View()))
    {
      ghost var q := Queue();
      sendPending := true;
      log := log.(inFlight := q);
      assert q[..|q|] == q && q[|q|..] == [];
      TakeBatch();
    }

    /** Bookkeeping alone: the batch has been posted. */
    ghost method NotePosted(store: PacketStore)
      requires Valid()
      modifies this`log
      ensures Valid()
      ensures View() == old(View()).(
                log := old(log).(posted := old(log).posted + Contents(old(store.contents), old(View()).sent)))
    {
      log := log.(posted := log.posted + Contents(store.contents, sendPkts[..sentCount]));
    }

    /** The batch is released and sendPending given up. */
    method GiveUpSent(store: PacketStore)
      requires Valid()
      modifies this, store
      ensures Valid() && store.View() == ReleaseAll(old(store.View()), old(View()).sent)
      ensures View() == old(View()).(sent := [], pending := false, log := old(log).(inFlight := []))
    {
      ReleaseSent(store);
      sendPending := false;
      log := log.(inFlight := []);
    }
  }

  /** Writing behind the last entry appends, and disturbs no other entry. */
  lemma {:induction false} RingPush(a: seq<Pkt>, head: nat, count: nat, p: Pkt)
    requires |a| == QSIZE && head < QSIZE && count < QSIZE
    ensures Ring(a[(head + count) % QSIZE := p], head, count + 1) == Ring(a, head, count) + [p]
  {
    var b := a[(head + count) % QSIZE := p];
    forall k | 0 <= k < count ensures Ring(b, head, count + 1)[k] == Ring(a, head, count)[k] {
      SlotsDiffer(head, k, count);
    }
  }

  lemma NextTail(head: nat, count: nat)
    ensures ((head + count) % QSIZE + 1) % QSIZE == (head + (count + 1)) % QSIZE
  {
  }

  lemma SlotsDiffer(head: nat, k: nat, n: nat)
    requires head < QSIZE && k < n < QSIZE
    ensures (head + k) % QSIZE != (head + n) % QSIZE
  {
  }
}

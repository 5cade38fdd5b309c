/** What holds of the engine in every reachable state before `Stop`. */
module EngineTheorems {
  import opened PacketPool
  import opened Engine
  import opened EngineRefs
  import opened EngineOwnership
  import opened EnginePlayers
  import opened EngineOrder
  import opened EngineRuns
  import opened SendQueue

  lemma ReachableInv(n: nat, acts: seq<Action>)
    requires n <= 0xFFFF && EnabledRun(Start(n), acts)
    ensures Inv(Final(Start(n), acts))
  {
    StartInv(n);
    RunKeepsInv(Start(n), acts);
  }

  /** Session reference counting. Every slot's count is one for an open session plus one
      for each outstanding operation; an open session always has exactly one receive
      outstanding, and a send exactly while sendPending is set. A slot is in the pool
      exactly when its count is 0, and has been returned once for every finished
      incarnation. */
  lemma SessionCounts(n: nat, acts: seq<Action>, i: nat)
    requires n <= 0xFFFF && EnabledRun(Start(n), acts) && i < |Final(Start(n), acts).srv.slots|
    ensures var s := Final(Start(n), acts).srv;
      var slot := s.slots[i];
      && slot.ioRef == (if Open(slot) then 1 else 0) + Recvs(s, i) + Sends(s, i) <= 3
      && Recvs(s, i) <= 1 && Sends(s, i) <= 1
      && (Open(slot) ==> Recvs(s, i) == 1 && (slot.pending <==> Sends(s, i) == 1))
      && (i in s.indexPool <==> slot.ioRef == 0)
      && slot.log.returned + (if slot.ioRef == 0 then 0 else 1) == slot.generation
  {
    ReachableInv(n, acts);
    var s := Final(Start(n), acts).srv;
    assert SlotOk(s.slots[i], i, Recvs(s, i), Sends(s, i), SETTLED);
  }

  /** The pool never holds a slot twice, and never one whose old incarnation can still
      get a completion. */
  lemma PooledSlotsAreQuiet(n: nat, acts: seq<Action>, op: Op)
    requires n <= 0xFFFF && EnabledRun(Start(n), acts)
    ensures var s := Final(Start(n), acts).srv;
      && (forall a, b | 0 <= a < b < |s.indexPool| :: s.indexPool[a] != s.indexPool[b])
      && (op in s.net ==>
            && op.slot < |s.slots| && op.slot !in s.indexPool
            && op.generation == s.slots[op.slot].generation)
  {
    ReachableInv(n, acts);
    var s := Final(Start(n), acts).srv;
    if op in s.net && op.slot in s.indexPool { FreeSlotIsQuiet(s, op); }
  }

  /** Packet ownership conservation: every count is the number of live references, and
      the pool is exactly the packets without one. */
  lemma PacketConservation(n: nat, acts: seq<Action>, p: Pkt)
    requires n <= 0xFFFF && EnabledRun(Start(n), acts)
    ensures var s := Final(Start(n), acts);
      var ps := s.srv.packets;
      && RefCount(ps, p) == (Holders(s.srv) + Callers(s))[p]
      && (p in ps.pool <==> p < ps.made && RefCount(ps, p) == 0)
  {
    ReachableInv(n, acts);
  }

  /** The players of the content layer, once its queue is replayed, are exactly the
      sessions that have joined and are open. */
  lemma PlayersAreOpenSessions(n: nat, acts: seq<Action>)
    requires n <= 0xFFFF && EnabledRun(Start(n), acts)
    ensures var s := Final(Start(n), acts);
      && Replay(s.players, s.srv.contentQ) == OpenSids(s.srv.slots)
      && (s.srv.contentQ == [] ==> s.players == OpenSids(s.srv.slots))
  {
    ReachableInv(n, acts);
  }

  /** What a session has accepted is what it has posted followed by what it has queued,
      byte for byte; after it closes, what was posted is a prefix; and the buffers in
      flight still hold what was posted from them. */
  lemma AcceptedIsPostedPlusQueued(n: nat, acts: seq<Action>, i: nat)
    requires n <= 0xFFFF && EnabledRun(Start(n), acts) && i < |Final(Start(n), acts).srv.slots|
    ensures var s := Final(Start(n), acts).srv;
      var slot, b := s.slots[i], s.packets.contents;
      && slot.log.posted <= slot.log.accepted
      && (Open(slot) ==> slot.log.accepted == slot.log.posted + Contents(b, slot.queue))
      && FlightIntact(b, slot.log)
      && |slot.queue| <= QSIZE
  {
    ReachableInv(n, acts);
    var s := Final(Start(n), acts).srv;
    assert Ordered(s.packets.contents, s.slots[i], Exact);
    assert SlotOk(s.slots[i], i, Recvs(s, i), Sends(s, i), SETTLED);
  }

  /** Closing an open session takes one reference off a packet for each time it is queued, and
      what is queued is exactly what was accepted and not posted. */
  lemma CloseReleasesUnposted(n: nat, acts: seq<Action>, i: nat, p: Pkt)
    requires n <= 0xFFFF && EnabledRun(Start(n), acts)
    requires var s := Final(Start(n), acts).srv; i < |s.slots| && Open(s.slots[i])
    ensures var s := Final(Start(n), acts).srv;
      var slot, s' := s.slots[i], CloseSession(s, i);
      && slot.log.posted <= slot.log.accepted
      && Contents(s.packets.contents, slot.queue) == slot.log.accepted[|slot.log.posted|..]
      && RefCount(s'.packets, p) == RefCount(s.packets, p) - multiset(slot.queue)[p]
      && s'.slots[i].queue == [] && s'.slots[i].log.posted == slot.log.posted
  {
    AcceptedIsPostedPlusQueued(n, acts, i);
    var s := Final(Start(n), acts).srv;
    ReleaseAllCounts(s.packets, s.slots[i].queue, p);
  }

  /** Room-wide total order: two packets that the network got for two sessions reached
      both in the same order, because one Update thread broadcasts one packet after
      another. */
  lemma RoomWideOrder(n: nat, acts: seq<Action>, i: nat, a: nat, b: nat, j: nat, c: nat, d: nat)
    requires n <= 0xFFFF && EnabledRun(Start(n), acts)
    requires var slots := Final(Start(n), acts).srv.slots;
      && i < |slots| && j < |slots|
      && a < |slots[i].log.posted| && b < |slots[i].log.posted|
      && c < |slots[j].log.posted| && d < |slots[j].log.posted|
      && slots[i].log.posted[a].serial == slots[j].log.posted[c].serial
      && slots[i].log.posted[b].serial == slots[j].log.posted[d].serial
      && slots[i].log.posted[a].serial != slots[i].log.posted[b].serial
    ensures a < b <==> c < d
  {
    PostedSorted(n, acts, i);
    PostedSorted(n, acts, j);
    var slots := Final(Start(n), acts).srv.slots;
    SameOrder(slots[i].log.posted, a, b, slots[j].log.posted, c, d);
  }

  ghost predicate BySerial(posted: seq<Content>) {
    forall a, b | 0 <= a < b < |posted| :: posted[a].serial <= posted[b].serial
  }

  lemma SameOrder(p: seq<Content>, a: nat, b: nat, q: seq<Content>, c: nat, d: nat)
    requires BySerial(p) && BySerial(q) && a < |p| && b < |p| && c < |q| && d < |q|
    requires p[a].serial == q[c].serial && p[b].serial == q[d].serial && p[a].serial != p[b].serial
    ensures a < b <==> c < d
  {
  }

  lemma PostedSorted(n: nat, acts: seq<Action>, i: nat)
    requires n <= 0xFFFF && EnabledRun(Start(n), acts) && i < |Final(Start(n), acts).srv.slots|
    ensures BySerial(Final(Start(n), acts).srv.slots[i].log.posted)
  {
    ReachableInv(n, acts);
    OrderedBySerial(Final(Start(n), acts).srv, i, Final(Start(n), acts).top);
  }

  lemma OrderedBySerial(s: Srv, i: nat, top: nat)
    requires InOrder(s, 0, Exact, top) && i < |s.slots|
    ensures BySerial(s.slots[i].log.posted)
  {
    var log := s.slots[i].log;
    assert Ordered(s.packets.contents, s.slots[i], Exact) && Sorted(log, top);
    assert log.posted == log.accepted[..|log.posted|];
  }
}

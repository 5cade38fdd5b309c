/**
  When a batch handed to WSASend is empty (FlushSend in myIOCP/CLanServer.cpp). Under
  SendPacket's lock never; after a completion's unlocked read of sqCount exactly when
  other flushes have meanwhile taken all there is.
*/
module EmptyBatches {
  import opened Options
  import opened SendHandshake

  /** A batch posted under SendPacket's lock is never empty. */
  lemma SendPacketPostsSomething(acts: seq<Action>, t: Tid)
    requires EnabledRun(OPENED, acts) && PcOf(Final(OPENED, acts), t) == FlushPost(true)
    ensures Final(OPENED, acts).sent != []
  {
    OpenedInv();
    RunKeepsInv(OPENED, acts);
  }

  /** Between an unlocked read that found packets and the WSASend it leads to. */
  predicate OnRead(pc: Pc) {
    pc == FlushTry(false) || pc == FlushTake(false) || pc == FlushPost(false)
  }

  /** On an open session what such a thread read has been accepted; and once it has taken
      the queue, all of that has been taken. */
  ghost predicate ReadsOk(s: State) {
    !s.closed ==> forall t: Tid | OnRead(PcOf(s, t)) :: ReadOk(s, t)
  }

  predicate ReadOk(s: State, t: Tid) {
    var r := SeenBy(s, t);
    r.taken < r.upTo <= if PcOf(s, t).FlushPost? then |s.h.taken| else |s.h.accepted|
  }

  lemma OthersReads(s: State, s': State, u: Tid)
    requires ReadOk(s, u) && PcOf(s', u) == PcOf(s, u) && SeenBy(s', u) == SeenBy(s, u)
    requires |s.h.accepted| <= |s'.h.accepted| && |s.h.taken| <= |s'.h.taken|
    ensures ReadOk(s', u)
  {
  }

  lemma GoGrows(s: State, t: Tid, u: Tid)
    requires Enabled(s, Go(t)) && u != t
    ensures var s' := DoGo(s, t);
      && PcOf(s', u) == PcOf(s, u) && SeenBy(s', u) == SeenBy(s, u)
      && |s.h.accepted| <= |s'.h.accepted| && |s.h.taken| <= |s'.h.taken|
  {
  }

  lemma CallGrows(s: State, a: Action, u: Tid)
    requires Enabled(s, a) && !a.Go? && u != a.tid
    ensures var s' := Step(s, a);
      && PcOf(s', u) == PcOf(s, u) && SeenBy(s', u) == SeenBy(s, u)
      && s.h.accepted == s'.h.accepted && s.h.taken == s'.h.taken
  {
  }

  lemma OwnRead(s: State, t: Tid)
    requires FlushFinds(s) && OrderOk(s) && Enabled(s, Go(t)) && !DoGo(s, t).closed
    requires OnRead(PcOf(s, t)) ==> ReadOk(s, t)
    ensures OnRead(PcOf(DoGo(s, t), t)) ==> ReadOk(DoGo(s, t), t)
  {
  }

  lemma StepKeepsReads(s: State, a: Action)
    requires Inv(s) && ReadsOk(s) && Enabled(s, a)
    ensures ReadsOk(Step(s, a))
  {
    var s' := Step(s, a);
    if !s'.closed {
      forall t: Tid | OnRead(PcOf(s', t)) ensures ReadOk(s', t) {
        if t == a.tid {
          if a.Go? { OwnRead(s, t); }
        } else {
          if a.Go? { GoGrows(s, a.tid, t); } else { CallGrows(s, a, t); }
          OthersReads(s, s', t);
        }
      }
    }
  }

  lemma {:induction false} RunKeepsReads(s: State, acts: seq<Action>)
    requires Inv(s) && ReadsOk(s) && EnabledRun(s, acts)
    ensures ReadsOk(Final(s, acts))
    decreases |acts|
  {
    if acts != [] {
      StepKeepsInv(s, acts[0]);
      StepKeepsReads(s, acts[0]);
      RunKeepsReads(Step(s, acts[0]), acts[1..]);
    }
  }

  lemma Reachable(acts: seq<Action>)
    requires EnabledRun(OPENED, acts)
    ensures Inv(Final(OPENED, acts)) && ReadsOk(Final(OPENED, acts))
  {
    OpenedInv();
    RunKeepsInv(OPENED, acts);
    RunKeepsReads(OPENED, acts);
  }

  /** The batch a flush of an open session takes is empty if and only if everything accepted
      so far has already been taken. */
  lemma EmptyWhenAllTaken(acts: seq<Action>, t: Tid)
    requires EnabledRun(OPENED, acts)
    requires var s := Final(OPENED, acts); !s.closed && PcOf(s, t).FlushTake? && Enabled(s, Go(t))
    ensures var s := Final(OPENED, acts);
      Step(s, Go(t)).sent == [] <==> s.h.taken == s.h.accepted
  {
    Reachable(acts);
    var s := Final(OPENED, acts);
    assert s.queue == [] <==> s.h.taken == s.h.taken + s.queue;
  }

  /** When the thread that found a non-empty queue after a completion comes to post an empty
      batch, other flushes have taken every packet it found. */
  lemma OthersTookThem(acts: seq<Action>, t: Tid)
    requires EnabledRun(OPENED, acts)
    requires var s := Final(OPENED, acts); !s.closed && PcOf(s, t) == FlushPost(false) && s.sent == []
    ensures var s := Final(OPENED, acts);
      SeenBy(s, t).taken < SeenBy(s, t).upTo <= |s.h.taken|
  {
    Reachable(acts);
  }

  lemma {:induction false} RunSnoc(s: State, acts: seq<Action>, a: Action)
    requires EnabledRun(s, acts) && Enabled(Final(s, acts), a)
    ensures EnabledRun(s, acts + [a]) && Final(s, acts + [a]) == Step(Final(s, acts), a)
    decreases |acts|
  {
    if acts == [] {
      assert [a][1..] == [];
      assert EnabledRun(Step(s, a), []) && Final(Step(s, a), []) == Step(s, a);
      assert acts + [a] == [a];
    } else {
      assert (acts + [a])[1..] == acts[1..] + [a];
      RunSnoc(Step(s, acts[0]), acts[1..], a);
    }
  }

  /** Extend a run by the next access of one thread, three or four times. */
  lemma Go3(acts: seq<Action>, t: Tid) returns (more: seq<Action>)
    requires EnabledRun(OPENED, acts) && Enabled(Final(OPENED, acts), Go(t))
    requires Enabled(DoGo(Final(OPENED, acts), t), Go(t))
    requires Enabled(DoGo(DoGo(Final(OPENED, acts), t), t), Go(t))
    ensures EnabledRun(OPENED, more)
    ensures Final(OPENED, more) == DoGo(DoGo(DoGo(Final(OPENED, acts), t), t), t)
  {
    RunSnoc(OPENED, acts, Go(t));
    RunSnoc(OPENED, acts + [Go(t)], Go(t));
    RunSnoc(OPENED, acts + [Go(t)] + [Go(t)], Go(t));
    more := acts + [Go(t)] + [Go(t)] + [Go(t)];
  }

  /** `SendPacket` by thread 0 up to its exchange on sendPending. */
  lemma SendUpToExchange(acts: seq<Action>, pkt: Packet) returns (more: seq<Action>)
    requires EnabledRun(OPENED, acts)
    requires var s := Final(OPENED, acts); PcOf(s, 0).Idle? && !s.closed && s.lock == None && s.queue == []
    ensures EnabledRun(OPENED, more)
    ensures var s, s' := Final(OPENED, acts), Final(OPENED, more);
      && s'.queue == [pkt] && PcOf(s', 0) == FlushTry(true) && s'.lock == Some(0)
      && s'.closed == s.closed && s'.pending == s.pending && s'.sent == s.sent
      && s'.inFlight == s.inFlight && s'.h.failed == s.h.failed
      && forall t: Tid | t != 0 :: PcOf(s', t) == PcOf(s, t)
  {
    RunSnoc(OPENED, acts, CallSend(0, pkt));
    more := Go3(acts + [CallSend(0, pkt)], 0);
  }

  /** Thread 0 wins the exchange, posts its batch and leaves. */
  lemma ExchangeAndPost(acts: seq<Action>) returns (more: seq<Action>)
    requires EnabledRun(OPENED, acts)
    requires var s := Final(OPENED, acts);
      !s.pending && |s.queue| == 1 && PcOf(s, 0) == FlushTry(true) && s.lock == Some(0)
    ensures EnabledRun(OPENED, more)
    ensures var s, s' := Final(OPENED, acts), Final(OPENED, more);
      && s'.queue == [] && s'.sent == s.queue && s'.pending && s'.inFlight == s.inFlight + 1
      && PcOf(s', 0).Idle? && s'.lock == None && s'.closed == s.closed && s'.h.failed == s.h.failed
      && forall t: Tid | t != 0 :: PcOf(s', t) == PcOf(s, t)
  {
    var s := Final(OPENED, acts);
    assert s.queue[..1] == s.queue && s.queue[1..] == [];
    RunSnoc(OPENED, acts, Go(0));
    RunSnoc(OPENED, acts + [Go(0)], Go(0));
    RunSnoc(OPENED, acts + [Go(0)] + [Go(0)], Post(0, true));
    RunSnoc(OPENED, acts + [Go(0)] + [Go(0)] + [Post(0, true)], Go(0));
    more := acts + [Go(0)] + [Go(0)] + [Post(0, true)] + [Go(0)];
  }

  /** A worker takes a send completion up to its unlocked read of sqCount. */
  lemma CompleteUpToRead(acts: seq<Action>, t: Tid) returns (more: seq<Action>)
    requires EnabledRun(OPENED, acts)
    requires var s := Final(OPENED, acts); PcOf(s, t).Idle? && s.inFlight == 1 && s.sent != []
    ensures EnabledRun(OPENED, more)
    ensures var s, s' := Final(OPENED, acts), Final(OPENED, more);
      && PcOf(s', t) == DoneCheck && s'.sent == [] && !s'.pending && s'.inFlight == 0
      && s'.queue == s.queue && s'.lock == s.lock && s'.closed == s.closed && s'.h.failed == s.h.failed
      && forall u: Tid | u != t :: PcOf(s', u) == PcOf(s, u)
  {
    RunSnoc(OPENED, acts, Complete(t, true));
    RunSnoc(OPENED, acts + [Complete(t, true)], Go(t));
    RunSnoc(OPENED, acts + [Complete(t, true)] + [Go(t)], Go(t));
    more := acts + [Complete(t, true)] + [Go(t)] + [Go(t)];
  }

  /** Thread 1 completes a send and reads a non-empty queue without the lock, while thread 0
      has just queued the packet and is about to flush it. */
  lemma StaleRead() returns (acts: seq<Action>)
    ensures EnabledRun(OPENED, acts)
    ensures var s := Final(OPENED, acts);
      && PcOf(s, 1) == FlushTry(false) && PcOf(s, 0) == FlushTry(true) && PcOf(s, 2).Idle?
      && |s.queue| == 1 && s.lock == Some(0) && !s.pending && s.inFlight == 0
      && !s.closed && !s.h.failed
  {
    acts := SendUpToExchange([], 7);
    acts := ExchangeAndPost(acts);
    acts := CompleteUpToRead(acts, 1);
    assert PcOf(Final(OPENED, acts), 2).Idle?;
    acts := SendUpToExchange(acts, 8);
    assert PcOf(Final(OPENED, acts), 2).Idle?;
    RunSnoc(OPENED, acts, Go(1));
    acts := acts + [Go(1)];
  }

  /** It does happen. In this run two packets
      are sent over an open session, nothing fails and nobody closes, and a completion
      thread reads a non-empty queue, loses the packet to another sender, and posts an
      empty batch, whose zero-byte completion can only be taken for a failure. */
  lemma CompletionCanPostNothing() returns (acts: seq<Action>)
    ensures EnabledRun(OPENED, acts)
    ensures var s := Final(OPENED, acts);
      && !s.closed && !s.h.failed && PcOf(s, 1) == FlushPost(false) && s.sent == []
      && forall t: Tid, ok | Enabled(DoPost(s, 1, false, true), Complete(t, ok)) :: !ok
  {
    acts := StaleRead();
    acts := ExchangeAndPost(acts);                 // thread 0 takes the packet first
    acts := CompleteUpToRead(acts, 2);
    RunSnoc(OPENED, acts, Go(1));                  // thread 1 wins sendPending
    RunSnoc(OPENED, acts + [Go(1)], Go(1));        // and finds nothing
    acts := acts + [Go(1)] + [Go(1)];
  }
}

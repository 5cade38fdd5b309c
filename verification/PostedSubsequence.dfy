/**
  Whatever fails and whoever closes (FlushSend and CloseSession in
  myIOCP/CLanServer.cpp), what a session has posted stays a subsequence of what it
  accepted: nothing twice, nothing out of order.
*/
module PostedSubsequence {
  import opened SendHandshake
  import opened SendQueue

  type Log = seq<Packet>

  /** `f` says where in `b` each entry of `a` is. */
  ghost predicate Embeds(f: seq<nat>, a: Log, b: Log) {
    && |f| == |a|
    && (forall i | 0 <= i < |a| :: f[i] < |b| && b[f[i]] == a[i])
    && (forall i, j | 0 <= i < j < |a| :: f[i] < f[j])
  }

  ghost predicate Sub(a: Log, b: Log) {
    exists f :: Embeds(f, a, b)
  }

  lemma SubSame(a: Log)
    ensures Sub(a, a)
  {
    assert Embeds(seq(|a|, i => i), a, a);
  }

  lemma SubAppend(a: Log, b: Log, c: Log)
    requires Sub(a, b)
    ensures Sub(a + c, b + c)
  {
    var f :| Embeds(f, a, b);
    var g := f + seq(|c|, i requires 0 <= i => |b| + i);
    assert Embeds(g, a + c, b + c);
  }

  lemma SubRight(a: Log, b: Log, c: Log)
    requires Sub(a, b)
    ensures Sub(a, b + c)
  {
    var f :| Embeds(f, a, b);
    assert Embeds(f, a, b + c);
  }

  lemma SubLeft(a: Log, c: Log, b: Log)
    requires Sub(a + c, b)
    ensures Sub(a, b)
  {
    var f :| Embeds(f, a + c, b);
    assert forall i | 0 <= i < |a| :: (a + c)[i] == a[i];
    assert Embeds(f[..|a|], a, b);
  }

  lemma SubTrans(a: Log, b: Log, c: Log)
    requires Sub(a, b) && Sub(b, c)
    ensures Sub(a, c)
  {
    var f :| Embeds(f, a, b);
    var g :| Embeds(g, b, c);
    var h := seq(|a|, i requires 0 <= i < |a| => g[f[i]]);
    assert Embeds(h, a, c);
  }

  // ---------------------------------------------------------- the invariant

  /** What had been taken before the batch in a flushing thread's hand. */
  function Before(s: State): Log {
    if InHand(s) && |s.sent| <= |s.h.taken| then s.h.taken[..|s.h.taken| - |s.sent|] else s.h.taken
  }

  ghost predicate LogsOk(s: State) {
    && Sub(s.h.taken + s.queue, s.h.accepted)
    && Sub(s.h.posted, Before(s))
    && (InHand(s) ==> s.h.taken == Before(s) + s.sent)
  }

  lemma BodyKeeps(s: State, t: Tid, pkt: Packet)
    requires TokenOk(s) && LogsOk(s) && PcOf(s, t) == SendBody(pkt)
    ensures LogsOk(DoSendBody(s, t, pkt))
  {
    assert Owns(PcOf(s, t)) <==> s.h.token == Thread(t);
    if |s.queue| < QSIZE {
      SubAppend(s.h.taken + s.queue, s.h.accepted, [pkt]);
      assert s.h.taken + (s.queue + [pkt]) == s.h.taken + s.queue + [pkt];
    }
  }

  lemma TakeKeeps(s: State, t: Tid, locked: bool)
    requires TokenOk(s) && FlushFinds(s) && LogsOk(s) && PcOf(s, t) == FlushTake(locked)
    ensures LogsOk(DoFlushTake(s, t, locked))
  {
    var s' := DoFlushTake(s, t, locked);
    assert Owns(PcOf(s, t)) <==> s.h.token == Thread(t);
    assert s.queue[..|s.queue|] == s.queue && s'.queue == [];
    assert s'.h.taken + s'.queue == s.h.taken + s.queue;
    assert Before(s') == s.h.taken == Before(s);
  }

  lemma DrainKeeps(s: State, t: Tid, locked: bool)
    requires TokenOk(s) && LogsOk(s) && PcOf(s, t) == CloseDrain(locked)
    ensures LogsOk(Return(s.(queue := []), t, locked))
  {
    assert Owns(PcOf(s, t)) <==> s.h.token == Thread(t);
    SubLeft(s.h.taken, s.queue, s.h.accepted);
    assert s.h.taken + [] == s.h.taken;
  }

  lemma PostKeeps(s: State, t: Tid, locked: bool, ok: bool)
    requires TokenOk(s) && LogsOk(s) && PcOf(s, t) == FlushPost(locked)
    ensures LogsOk(DoPost(s, t, locked, ok))
  {
    assert Owns(PcOf(s, t)) <==> s.h.token == Thread(t);
    SubAppend(s.h.posted, Before(s), s.sent);
    SubRight(s.h.posted, Before(s), s.sent);
  }

  /** The other steps of a thread leave the logs, and a batch in hand, alone. */
  lemma QuietGoKeeps(s: State, t: Tid)
    requires TokenOk(s) && LogsOk(s) && Enabled(s, Go(t))
    requires !PcOf(s, t).SendBody? && !PcOf(s, t).FlushTake? && !PcOf(s, t).CloseDrain?
    ensures LogsOk(DoGo(s, t))
  {
    assert Owns(PcOf(s, t)) <==> s.h.token == Thread(t);
  }

  lemma CallKeeps(s: State, a: Action)
    requires TokenOk(s) && LogsOk(s) && Enabled(s, a) && !a.Go? && !a.Post?
    ensures LogsOk(Step(s, a))
  {
    assert Owns(PcOf(s, a.tid)) <==> s.h.token == Thread(a.tid);
  }

  lemma StepKeepsLogs(s: State, a: Action)
    requires Inv(s) && LogsOk(s) && Enabled(s, a)
    ensures LogsOk(Step(s, a))
  {
    if a.Post? {
      PostKeeps(s, a.tid, PcOf(s, a.tid).locked, a.ok);
    } else if !a.Go? {
      CallKeeps(s, a);
    } else {
      match PcOf(s, a.tid)
      case SendBody(pkt) => BodyKeeps(s, a.tid, pkt);
      case FlushTake(locked) => TakeKeeps(s, a.tid, locked);
      case CloseDrain(locked) => DrainKeeps(s, a.tid, locked);
      case _ => QuietGoKeeps(s, a.tid);
    }
  }

  lemma {:induction false} RunKeepsLogs(s: State, acts: seq<Action>)
    requires Inv(s) && LogsOk(s) && EnabledRun(s, acts)
    ensures LogsOk(Final(s, acts))
    decreases |acts|
  {
    if acts != [] {
      StepKeepsInv(s, acts[0]);
      StepKeepsLogs(s, acts[0]);
      RunKeepsLogs(Step(s, acts[0]), acts[1..]);
    }
  }

  /** Under every interleaving, failures and closes included, what has been posted is a
      subsequence of what was accepted. */
  lemma PostedOnceInOrder(acts: seq<Action>)
    requires EnabledRun(OPENED, acts)
    ensures Sub(Final(OPENED, acts).h.posted, Final(OPENED, acts).h.accepted)
  {
    OpenedInv();
    SubSame([]);
    assert OPENED.h.taken + OPENED.queue == [];
    RunKeepsLogs(OPENED, acts);
    var s := Final(OPENED, acts);
    SubLeft(s.h.taken, s.queue, s.h.accepted);
    if InHand(s) { SubRight(s.h.posted, Before(s), s.sent); }
    SubTrans(s.h.posted, s.h.taken, s.h.accepted);
  }
}

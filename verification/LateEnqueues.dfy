/**
  A closed session's queue (SendPacket and CloseSession in myIOCP/CLanServer.cpp). SendPacket
  reads closeFlag before it takes sendLock, so it can enqueue after CloseSession has drained
  the queue. What then stays in the queue, and when.
*/
module LateEnqueues {
  import opened Options
  import opened SendHandshake
  import opened EmptyBatches

  predicate Drains(s: State, a: Action) {
    a.Go? && PcOf(s, a.tid).CloseDrain?
  }

  /** The state right after CloseSession's drain, if the run has come so far. */
  ghost function AtDrain(s: State, acts: seq<Action>): Option<State>
    requires EnabledRun(s, acts)
    decreases |acts|
  {
    if acts == [] then None
    else if Drains(s, acts[0]) then Some(Step(s, acts[0]))
    else AtDrain(Step(s, acts[0]), acts[1..])
  }

  ghost predicate SomeoneDrains(s: State) {
    exists t :: PcOf(s, t).CloseDrain?
  }

  /** Only the thread that sets closeFlag drains, after setting it. */
  ghost predicate DrainsOnce(s: State) {
    && (forall t: Tid, u: Tid :: PcOf(s, t).CloseDrain? && PcOf(s, u).CloseDrain? ==> t == u)
    && (SomeoneDrains(s) ==> s.closed)
  }

  ghost predicate DrainToCome(s: State) {
    s.closed ==> SomeoneDrains(s)
  }

  /** Everything accepted since the drain has been taken since or is in the queue. */
  ghost predicate Since(d: State, s: State) {
    && s.closed && !SomeoneDrains(s)
    && d.h.accepted <= s.h.accepted && d.h.taken <= s.h.taken
    && s.h.accepted[|d.h.accepted|..] == s.h.taken[|d.h.taken|..] + s.queue
  }

  lemma OthersStay(s: State, a: Action, t: Tid)
    requires Enabled(s, a) && t != a.tid
    ensures PcOf(Step(s, a), t) == PcOf(s, t)
  {
    if a.Go? { GoGrows(s, a.tid, t); } else { CallGrows(s, a, t); }
  }

  lemma StepDrainsOnce(s: State, a: Action)
    requires DrainsOnce(s) && Enabled(s, a)
    ensures DrainsOnce(Step(s, a))
  {
    var s' := Step(s, a);
    forall t: Tid | t != a.tid ensures PcOf(s', t) == PcOf(s, t) { OthersStay(s, a, t); }
    assert s.closed ==> s'.closed;
    if PcOf(s', a.tid).CloseDrain? { assert !s.closed && s'.closed; }
  }

  lemma StillToCome(s: State, a: Action)
    requires DrainToCome(s) && Enabled(s, a) && !Drains(s, a)
    ensures DrainToCome(Step(s, a))
  {
    var s' := Step(s, a);
    if s.closed {
      var t :| PcOf(s, t).CloseDrain?;
      assert PcOf(s', t) == PcOf(s, t);
    } else if s'.closed {
      assert PcOf(s', a.tid).CloseDrain?;
    }
  }

  lemma DrainBegins(s: State, a: Action)
    requires DrainsOnce(s) && Enabled(s, a) && Drains(s, a)
    ensures Since(Step(s, a), Step(s, a))
  {
    var s' := Step(s, a);
    forall t: Tid ensures !PcOf(s', t).CloseDrain? {
      if t != a.tid { OthersStay(s, a, t); }
    }
  }

  lemma StaysDrained(s: State, a: Action)
    requires Enabled(s, a) && s.closed && !SomeoneDrains(s)
    ensures Step(s, a).closed && !SomeoneDrains(Step(s, a))
  {
    var s' := Step(s, a);
    assert !PcOf(s, a.tid).CloseDrain?;
    forall t: Tid ensures !PcOf(s', t).CloseDrain? {
      if t != a.tid { OthersStay(s, a, t); }
    }
  }

  /** What a step that does not drain adds to the logs, it moves into or out of the queue. */
  lemma QueueStep(s: State, a: Action) returns (more: seq<Packet>, out: seq<Packet>)
    requires FlushFinds(s) && Enabled(s, a) && !Drains(s, a)
    ensures var s' := Step(s, a);
      && s'.h.accepted == s.h.accepted + more && s'.h.taken == s.h.taken + out
      && s.queue + more == out + s'.queue
  {
    var s' := Step(s, a);
    more, out := s'.h.accepted[|s.h.accepted|..], s'.h.taken[|s.h.taken|..];
    match a
    case Go(t) => {
      match PcOf(s, t)
      case SendBody(pkt) =>
      case FlushTake(_) => assert s.queue[..|s.queue|] == s.queue && s'.queue == [];
      case _ =>
    }
    case _ =>
  }

  lemma SinceSplices(d: State, s: State, s': State, more: seq<Packet>, out: seq<Packet>)
    requires Since(d, s) && s'.closed && !SomeoneDrains(s')
    requires s'.h.accepted == s.h.accepted + more && s'.h.taken == s.h.taken + out && s.queue + more == out + s'.queue
    ensures Since(d, s')
  {
    var a, t := s.h.accepted[|d.h.accepted|..], s.h.taken[|d.h.taken|..];
    assert s'.h.accepted[|d.h.accepted|..] == a + more && s'.h.taken[|d.h.taken|..] == t + out;
    assert a + more == t + (s.queue + more) == t + out + s'.queue;
  }

  lemma StepSince(d: State, s: State, a: Action)
    requires Inv(s) && Since(d, s) && Enabled(s, a)
    ensures Since(d, Step(s, a))
  {
    StaysDrained(s, a);
    var s' := Step(s, a);
    var more, out := QueueStep(s, a);
    SinceSplices(d, s, s', more, out);
  }

  lemma {:induction false} RunSince(d: State, s: State, acts: seq<Action>)
    requires Inv(s) && Since(d, s) && EnabledRun(s, acts)
    ensures Since(d, Final(s, acts))
    decreases |acts|
  {
    if acts != [] {
      StepKeepsInv(s, acts[0]);
      StepSince(d, s, acts[0]);
      RunSince(d, Step(s, acts[0]), acts[1..]);
    }
  }

  lemma {:induction false} RunDrains(s: State, acts: seq<Action>)
    requires Inv(s) && DrainsOnce(s) && DrainToCome(s) && EnabledRun(s, acts)
    ensures match AtDrain(s, acts)
      case None => DrainToCome(Final(s, acts))
      case Some(d) => Since(d, Final(s, acts))
    decreases |acts|
  {
    if acts != [] {
      var s' := Step(s, acts[0]);
      StepKeepsInv(s, acts[0]);
      StepDrainsOnce(s, acts[0]);
      if Drains(s, acts[0]) {
        DrainBegins(s, acts[0]);
        RunSince(s', s', acts[1..]);
      } else {
        StillToCome(s, acts[0]);
        RunDrains(s', acts[1..]);
      }
    }
  }

  // ------------------------------- who can still enqueue after the close

  /** SendPacket has read closeFlag and not yet enqueued. */
  predicate PastTest(pc: Pc) {
    pc.SendEnter? || pc.SendBody?
  }

  /** `late` are the packets of the distinct threads `who`, each past the test in `s`. */
  ghost predicate SentBy(s: State, who: seq<Tid>, late: seq<Packet>) {
    && |who| == |late|
    && (forall i | 0 <= i < |who| :: PastTest(PcOf(s, who[i])) && PcOf(s, who[i]).pkt == late[i])
    && (forall i, j | 0 <= i < j < |who| :: who[i] != who[j])
  }

  /** After the close nobody new gets past the test. */
  lemma ClosedStep(s: State, a: Action, t: Tid)
    requires Enabled(s, a) && s.closed && PastTest(PcOf(Step(s, a), t))
    ensures PastTest(PcOf(s, t)) && PcOf(s, t).pkt == PcOf(Step(s, a), t).pkt
  {
    if t != a.tid { OthersStay(s, a, t); }
  }

  /** What one step of a closed session accepts is the packet of the thread that makes it, which
      is then done. */
  lemma ClosedAccepts(s: State, a: Action) returns (more: seq<Packet>)
    requires FlushFinds(s) && Enabled(s, a) && s.closed
    ensures Step(s, a).closed && Step(s, a).h.accepted == s.h.accepted + more
    ensures more == [] ||
            (PastTest(PcOf(s, a.tid)) && more == [PcOf(s, a.tid).pkt] && !PastTest(PcOf(Step(s, a), a.tid)))
  {
    if Drains(s, a) {
      more := [];
    } else {
      var out;
      more, out := QueueStep(s, a);
    }
    assert more == Step(s, a).h.accepted[|s.h.accepted|..];
  }

  /** From a closed state on, whatever happens, only threads that were past the test then add to
      what is accepted, and each of them its one packet at most. */
  lemma {:induction false} LateSenders(s: State, acts: seq<Action>) returns (who: seq<Tid>)
    requires Inv(s) && s.closed && EnabledRun(s, acts)
    ensures s.h.accepted <= Final(s, acts).h.accepted
    ensures SentBy(s, who, Final(s, acts).h.accepted[|s.h.accepted|..])
    decreases |acts|
  {
    if acts == [] {
      who := [];
    } else {
      var a, s1 := acts[0], Step(s, acts[0]);
      var more := ClosedAccepts(s, a);
      StepKeepsInv(s, a);
      var rest := LateSenders(s1, acts[1..]);
      var late := Final(s1, acts[1..]).h.accepted[|s1.h.accepted|..];
      who := OneMoreSender(s, a, more, rest, late);
      LogSplits(s.h.accepted, more, Final(s, acts).h.accepted);
    }
  }

  lemma LogSplits(before: seq<Packet>, more: seq<Packet>, after: seq<Packet>)
    requires before + more <= after
    ensures before <= after && after[|before|..] == more + after[|before + more|..]
  {
  }

  /** The sender of the first step, if it sends, and those of the rest. */
  lemma OneMoreSender(s: State, a: Action, more: seq<Packet>, rest: seq<Tid>, late: seq<Packet>) returns (who: seq<Tid>)
    requires Enabled(s, a) && s.closed && SentBy(Step(s, a), rest, late)
    requires more == [] ||
             (PastTest(PcOf(s, a.tid)) && more == [PcOf(s, a.tid).pkt] && !PastTest(PcOf(Step(s, a), a.tid)))
    ensures SentBy(s, who, more + late)
  {
    forall i | 0 <= i < |rest| ensures PastTest(PcOf(s, rest[i])) && PcOf(s, rest[i]).pkt == late[i] {
      ClosedStep(s, a, rest[i]);
    }
    who := if more == [] then rest else [a.tid] + rest;
    if more == [] { assert more + late == late; }
  }

  /** The threads past the test. */
  ghost function AllPastTest(s: State): set<Tid> {
    set t | t in s.pcs && PastTest(s.pcs[t])
  }

  lemma {:induction false} DistinctFit(who: seq<Tid>, from: set<Tid>)
    requires (forall i | 0 <= i < |who| :: who[i] in from) && forall i, j | 0 <= i < j < |who| :: who[i] != who[j]
    ensures |who| <= |from|
    decreases |who|
  {
    if who != [] { DistinctFit(who[1..], from - {who[0]}); }
  }

  /** So after the close no more is accepted than threads were past the test then: a send called
      after the close, or not yet past its test, accepts nothing. */
  lemma ClosedSessionsRefuse(acts: seq<Action>, later: seq<Action>) returns (who: seq<Tid>)
    requires EnabledRun(OPENED, acts) && Final(OPENED, acts).closed && EnabledRun(Final(OPENED, acts), later)
    ensures var s, s' := Final(OPENED, acts), Final(Final(OPENED, acts), later);
      && s.h.accepted <= s'.h.accepted && SentBy(s, who, s'.h.accepted[|s.h.accepted|..])
      && |s'.h.accepted| - |s.h.accepted| <= |AllPastTest(s)|
  {
    OpenedInv();
    RunKeepsInv(OPENED, acts);
    var s := Final(OPENED, acts);
    who := LateSenders(s, later);
    DistinctFit(who, AllPastTest(s));
  }

  lemma {:induction false} AfterDrain(s: State, acts: seq<Action>) returns (who: seq<Tid>)
    requires Inv(s) && DrainsOnce(s) && DrainToCome(s) && EnabledRun(s, acts) && AtDrain(s, acts).Some?
    ensures var d := AtDrain(s, acts).value;
      d.h.accepted <= Final(s, acts).h.accepted && SentBy(d, who, Final(s, acts).h.accepted[|d.h.accepted|..])
    decreases |acts|
  {
    var s' := Step(s, acts[0]);
    StepKeepsInv(s, acts[0]);
    StepDrainsOnce(s, acts[0]);
    if Drains(s, acts[0]) {
      DrainBegins(s, acts[0]);
      who := LateSenders(s', acts[1..]);
    } else {
      StillToCome(s, acts[0]);
      who := AfterDrain(s', acts[1..]);
    }
  }

  /** Once the queue of a closed session has been drained, it holds exactly what has been
      accepted since and not taken since, in order: it is not empty if and only if more has
      been enqueued after the drain than later flushes took. And what has been enqueued since
      comes from threads that were past the test at the drain, one packet each. */
  lemma QueueAfterClose(acts: seq<Action>) returns (who: seq<Tid>)
    requires EnabledRun(OPENED, acts)
    requires var s := Final(OPENED, acts); s.closed && !SomeoneDrains(s)
    ensures AtDrain(OPENED, acts).Some?
    ensures var s, d := Final(OPENED, acts), AtDrain(OPENED, acts).value;
      && d.h.accepted <= s.h.accepted && d.h.taken <= s.h.taken
      && s.h.accepted[|d.h.accepted|..] == s.h.taken[|d.h.taken|..] + s.queue
      && (s.queue != [] <==> |s.h.accepted| - |d.h.accepted| > |s.h.taken| - |d.h.taken|)
      && SentBy(d, who, s.h.accepted[|d.h.accepted|..]) && |s.queue| <= |AllPastTest(d)|
  {
    OpenedInv();
    RunDrains(OPENED, acts);
    who := AfterDrain(OPENED, acts);
    DistinctFit(who, AllPastTest(AtDrain(OPENED, acts).value));
  }

  // ------------------------------------------- only after a failed send

  /** A thread that will look at the queue and flush what it finds. */
  predicate WillFlush(pc: Pc) {
    pc.FlushTry? || pc.DoneCheck?
  }

  ghost predicate SomeoneWillFlush(s: State) {
    exists t :: WillFlush(PcOf(s, t))
  }

  ghost predicate LookedAfter(s: State) {
    && (forall t: Tid :: PcOf(s, t).FlushDrop? || PcOf(s, t).FlushClear? ==> s.h.failed)
    && (s.queue != [] ==> s.h.failed || s.pending || SomeoneWillFlush(s))
  }

  /** What the acting thread makes of it. */
  lemma OwnStepLooksAfter(s: State, a: Action)
    requires FlushFinds(s) && LookedAfter(s) && Enabled(s, a) && (Owns(PcOf(s, a.tid)) ==> s.pending)
    ensures var s', pc := Step(s, a), PcOf(Step(s, a), a.tid);
      && (pc.FlushDrop? || pc.FlushClear? ==> s'.h.failed) && (s.h.failed ==> s'.h.failed)
      && (s'.queue != [] && !s'.h.failed && !s'.pending && !WillFlush(pc) ==>
            s.queue != [] && !s.pending && !WillFlush(PcOf(s, a.tid)))
  {
    match a
    case Go(t) => {
      match PcOf(s, t)
      case SendBody(_) =>
      case FlushTry(_) =>
      case FlushTake(_) =>
      case DoneCheck =>
      case _ =>
    }
    case _ =>
  }

  lemma StepLooksAfter(s: State, a: Action)
    requires TokenOk(s) && FlushFinds(s) && LookedAfter(s) && Enabled(s, a)
    ensures LookedAfter(Step(s, a))
  {
    var s' := Step(s, a);
    assert Owns(PcOf(s, a.tid)) <==> s.h.token == Thread(a.tid);
    OwnStepLooksAfter(s, a);
    forall t: Tid | t != a.tid ensures PcOf(s', t) == PcOf(s, t) { OthersStay(s, a, t); }
    if SomeoneWillFlush(s) {
      var t :| WillFlush(PcOf(s, t));
      assert t != a.tid ==> WillFlush(PcOf(s', t));
    }
    assert WillFlush(PcOf(s', a.tid)) ==> SomeoneWillFlush(s');
  }

  lemma {:induction false} RunLooksAfter(s: State, acts: seq<Action>)
    requires Inv(s) && LookedAfter(s) && EnabledRun(s, acts)
    ensures LookedAfter(Final(s, acts))
    decreases |acts|
  {
    if acts != [] {
      StepKeepsInv(s, acts[0]);
      StepLooksAfter(s, acts[0]);
      RunLooksAfter(Step(s, acts[0]), acts[1..]);
    }
  }

  /** Nobody is inside the handshake and no completion is to come. */
  ghost predicate Silent(s: State) {
    s.inFlight == 0 && forall t: Tid :: PcOf(s, t).Idle?
  }

  /** Open or closed, a silent session leaves nothing in its queue unless a WSASend of it failed
      at once, or the completion of one failed and left sendPending set for good. */
  lemma LeftBehindByFailure(acts: seq<Action>)
    requires EnabledRun(OPENED, acts) && Silent(Final(OPENED, acts)) && Final(OPENED, acts).queue != []
    ensures Final(OPENED, acts).h.failed || Final(OPENED, acts).h.token == Orphaned
  {
    OpenedInv();
    RunKeepsInv(OPENED, acts);
    RunLooksAfter(OPENED, acts);
    var s := Final(OPENED, acts);
    forall t: Tid ensures s.h.token != Thread(t) {
      assert Owns(PcOf(s, t)) <==> s.h.token == Thread(t);
    }
  }

  // ------------------------------------------------------- it does happen

  /** Only these threads are inside the handshake. */
  ghost predicate IdleBut(s: State, busy: set<Tid>) {
    forall t: Tid | t !in busy :: PcOf(s, t).Idle?
  }

  /** One more step of a run. */
  lemma Extend(acts: seq<Action>, a: Action, busy: set<Tid>) returns (more: seq<Action>)
    requires EnabledRun(OPENED, acts) && Enabled(Final(OPENED, acts), a)
    requires IdleBut(Final(OPENED, acts), busy)
    ensures EnabledRun(OPENED, more) && Final(OPENED, more) == Step(Final(OPENED, acts), a)
    ensures IdleBut(Final(OPENED, more), busy + {a.tid})
  {
    RunSnoc(OPENED, acts, a);
    more := acts + [a];
    forall t: Tid | t !in busy + {a.tid} ensures PcOf(Final(OPENED, more), t).Idle? {
      OthersStay(Final(OPENED, acts), a, t);
    }
  }

  lemma BackToIdle(s: State, busy: set<Tid>, t: Tid)
    requires IdleBut(s, busy) && PcOf(s, t).Idle?
    ensures IdleBut(s, busy - {t})
  {
  }

  /** Packet 7 is in flight, and thread 0 has read closeFlag for packet 8. */
  lemma PastTheTest() returns (acts: seq<Action>)
    ensures EnabledRun(OPENED, acts)
    ensures var s := Final(OPENED, acts);
      && PcOf(s, 0) == SendEnter(8) && !s.closed && s.pending && s.inFlight == 1 && s.queue == []
      && s.lock == None && !s.h.failed && IdleBut(s, {0})
  {
    acts := SendUpToExchange([], 7);
    acts := ExchangeAndPost(acts);
    assert IdleBut(Final(OPENED, acts), {});
    acts := Extend(acts, CallSend(0, 8), {});
    acts := Extend(acts, Go(0), {0});
  }

  /** Thread 1 closes the session and drains its empty queue. */
  lemma ClosedMeanwhile() returns (acts: seq<Action>)
    ensures EnabledRun(OPENED, acts)
    ensures var s := Final(OPENED, acts);
      && PcOf(s, 0) == SendEnter(8) && s.closed && s.pending && s.inFlight == 1 && s.queue == []
      && s.lock == None && !s.h.failed && IdleBut(s, {0})
  {
    acts := PastTheTest();
    assert PcOf(Final(OPENED, acts), 1).Idle?;
    acts := Extend(acts, CallClose(1), {0});
    acts := Extend(acts, Go(1), {0, 1});
    acts := Extend(acts, Go(1), {0, 1});
    BackToIdle(Final(OPENED, acts), {0, 1}, 1);
    assert {0, 1} - {1} == {0};
  }

  /** Thread 0 enqueues packet 8 and leaves the flush to the send in flight. */
  lemma EnqueuedLate() returns (acts: seq<Action>)
    ensures EnabledRun(OPENED, acts)
    ensures var s := Final(OPENED, acts);
      s.closed && s.inFlight == 1 && s.queue == [8] && s.lock == None && !s.h.failed && IdleBut(s, {})
  {
    acts := ClosedMeanwhile();
    acts := Extend(acts, Go(0), {0});
    acts := Extend(acts, Go(0), {0});
    acts := Extend(acts, Go(0), {0});
    acts := Extend(acts, Go(0), {0});
    BackToIdle(Final(OPENED, acts), {0}, 0);
    assert {0} - {0} == {};
  }

  /** That send fails, and nobody flushes. The session is closed and silent, no WSASend has
      failed, and packet 8 is still in the queue; InitSession will forget its reference. */
  lemma CloseLeavesAPacket() returns (acts: seq<Action>)
    ensures EnabledRun(OPENED, acts)
    ensures var s := Final(OPENED, acts); s.closed && Silent(s) && s.queue == [8] && s.lock == None && !s.h.failed
  {
    acts := EnqueuedLate();
    assert PcOf(Final(OPENED, acts), 2).Idle?;
    acts := Extend(acts, Complete(2, false), {});
    acts := Extend(acts, Go(2), {2});
    BackToIdle(Final(OPENED, acts), {2}, 2);
  }
}

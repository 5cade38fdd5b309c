/**
  The send handshake of one session incarnation (SendPacket, FlushSend,
  OnSendComplete and CloseSession in myIOCP/CLanServer.cpp), one exchange, locked
  region or unlocked read per step, for any number of threads.

  `sendLock` is a critical section, which its owner may enter again, so FlushSend
  called from SendPacket runs with the lock already held (`locked`).
*/
module SendHandshake {
  import opened Options
  import opened SendQueue

  type Tid = nat
  type Packet = nat

  /** The next access a thread will make. */
  datatype Pc =
    | Idle
    | SendCheck(pkt: Packet)      // read closeFlag
    | SendEnter(pkt: Packet)      // enter sendLock
    | SendBody(pkt: Packet)       // test sqCount, enqueue
    | FlushTry(locked: bool)      // exchange sendPending with 1
    | FlushTake(locked: bool)     // locked region: move the queue to sendPkts
    | FlushPost(locked: bool)     // WSASend
    | FlushDrop(locked: bool)     // immediate failure: release sendPkts
    | FlushClear(locked: bool)    // exchange sendPending with 0
    | CloseTry(locked: bool)      // exchange closeFlag with 1
    | CloseDrain(locked: bool)    // locked region: empty the queue
    | Leave                       // leave sendLock
    | DoneDrop                    // completion: release sendPkts
    | DoneClear                   // exchange sendPending with 0
    | DoneCheck                   // unlocked read of sqCount

  /** Who may touch sendPkts and sentCount. */
  datatype Token = Free | Thread(tid: Tid) | InFlight | Orphaned

  /** History variables: no step consults them. */
  datatype History = History(
    accepted: seq<Packet>,   // enqueued by SendPacket, in order
    taken: seq<Packet>,      // moved to sendPkts, in order
    posted: seq<Packet>,     // handed to WSASend and accepted by it, in order
    failed: bool,            // some WSASend failed at once
    token: Token,
    seen: map<Tid, Seen>     // at a thread's last unlocked read of a non-empty queue
  )

  /** How much had been taken at the read, and how much taken or queued. */
  datatype Seen = Seen(taken: nat, upTo: nat)

  datatype State = State(
    pending: bool,           // sendPending
    closed: bool,            // closeFlag
    queue: seq<Packet>,      // sendQ from sqHead, sqCount long
    sent: seq<Packet>,       // sendPkts[..sentCount]
    lock: Option<Tid>,       // owner of sendLock
    inFlight: nat,           // posted sends whose completion is still to come
    pcs: map<Tid, Pc>,
    h: History
  )

  const OPENED := State(false, false, [], [], None, 0, map[], History([], [], [], false, Free, map[]))

  function PcOf(s: State, t: Tid): Pc {
    if t in s.pcs then s.pcs[t] else Idle
  }

  function SeenBy(s: State, t: Tid): Seen {
    if t in s.h.seen then s.h.seen[t] else Seen(0, 0)
  }

  datatype Action =
    | CallSend(tid: Tid, pkt: Packet)
    | CallClose(tid: Tid)               // Disconnect, a failed receive, ...
    | Complete(tid: Tid, ok: bool)      // a worker dequeues a send completion
    | Post(tid: Tid, ok: bool)
    | Go(tid: Tid)                      // any other access

  predicate MayEnter(s: State, t: Tid) {
    s.lock == None || s.lock == Some(t)
  }

  /** An empty batch completes with zero bytes, which WorkerThread takes for a failure. */
  predicate Enabled(s: State, a: Action) {
    var pc := PcOf(s, a.tid);
    match a
    case CallSend(_, _) => pc.Idle?
    case CallClose(_) => pc.Idle?
    case Complete(_, ok) => pc.Idle? && s.inFlight > 0 && (ok ==> s.sent != [])
    case Post(_, _) => pc.FlushPost?
    case Go(t) =>
      match pc
      case Idle => false
      case FlushPost(_) => false
      case SendEnter(_) => MayEnter(s, t)
      case FlushTake(_) => MayEnter(s, t)
      case CloseDrain(_) => MayEnter(s, t)
      case _ => true
  }

  function Goto(s: State, t: Tid, pc: Pc): State {
    s.(pcs := s.pcs[t := pc])
  }

  function Return(s: State, t: Tid, locked: bool): State {
    Goto(s, t, if locked then Leave else Idle)
  }

  function Hold(s: State, token: Token): State {
    s.(h := s.h.(token := token))
  }

  function DoSendBody(s: State, t: Tid, pkt: Packet): State {
    if |s.queue| >= QSIZE then Goto(s.(lock := None), t, CloseTry(false))
    else Goto(s.(queue := s.queue + [pkt], h := s.h.(accepted := s.h.accepted + [pkt])), t, FlushTry(true))
  }

  function DoFlushTry(s: State, t: Tid, locked: bool): State {
    if s.pending then Return(s, t, locked)
    else Hold(Goto(s.(pending := true), t, FlushTake(locked)), Thread(t))
  }

  function DoFlushTake(s: State, t: Tid, locked: bool): State {
    var n := if |s.queue| <= QSIZE then |s.queue| else QSIZE;
    Goto(s.(sent := s.queue[..n], queue := s.queue[n..], h := s.h.(taken := s.h.taken + s.queue[..n])),
         t, FlushPost(locked))
  }

  function DoPost(s: State, t: Tid, locked: bool, ok: bool): State {
    if ok then
      Hold(Return(s.(inFlight := s.inFlight + 1, h := s.h.(posted := s.h.posted + s.sent)), t, locked), InFlight)
    else Goto(s.(h := s.h.(failed := true)), t, FlushDrop(locked))
  }

  /** The unlocked read of sqCount. */
  function DoDoneCheck(s: State, t: Tid): State {
    if s.queue == [] then Goto(s, t, Idle)
    else Goto(s.(h := s.h.(seen := s.h.seen[t := Seen(|s.h.taken|, |s.h.taken| + |s.queue|)])), t, FlushTry(false))
  }

  function DoComplete(s: State, t: Tid, ok: bool): State
    requires s.inFlight > 0
  {
    var s1 := s.(inFlight := s.inFlight - 1);
    if ok then Hold(Goto(s1, t, DoneDrop), Thread(t))
    else Hold(Goto(s1, t, CloseTry(false)), Orphaned)
  }

  function DoGo(s: State, t: Tid): State
    requires Enabled(s, Go(t))
  {
    match PcOf(s, t)
    case SendCheck(pkt) => Goto(s, t, if s.closed then Idle else SendEnter(pkt))
    case SendEnter(pkt) => Goto(s.(lock := Some(t)), t, SendBody(pkt))
    case SendBody(pkt) => DoSendBody(s, t, pkt)
    case FlushTry(locked) => DoFlushTry(s, t, locked)
    case FlushTake(locked) => DoFlushTake(s, t, locked)
    case FlushDrop(locked) => Goto(s.(sent := []), t, FlushClear(locked))
    case FlushClear(locked) => Hold(Goto(s.(pending := false), t, CloseTry(locked)), Free)
    case CloseTry(locked) => if s.closed then Return(s, t, locked) else Goto(s.(closed := true), t, CloseDrain(locked))
    case CloseDrain(locked) => Return(s.(queue := []), t, locked)
    case Leave => Goto(s.(lock := None), t, Idle)
    case DoneDrop => Goto(s.(sent := []), t, DoneClear)
    case DoneClear => Hold(Goto(s.(pending := false), t, DoneCheck), Free)
    case DoneCheck => DoDoneCheck(s, t)
  }

  function Step(s: State, a: Action): State
    requires Enabled(s, a)
  {
    match a
    case CallSend(t, pkt) => Goto(s, t, SendCheck(pkt))
    case CallClose(t) => Goto(s, t, CloseTry(false))
    case Complete(t, ok) => DoComplete(s, t, ok)
    case Post(t, ok) => DoPost(s, t, PcOf(s, t).locked, ok)
    case Go(t) => DoGo(s, t)
  }

  // ---------------------------------------------------------- the invariant

  /** Between winning sendPending and giving it up or handing it to the network. */
  predicate Owns(pc: Pc) {
    pc.FlushTake? || pc.FlushPost? || pc.FlushDrop? || pc.FlushClear? || pc.DoneDrop? || pc.DoneClear?
  }

  predicate HoldsLock(pc: Pc) {
    match pc
    case SendBody(_) => true
    case FlushTry(locked) => locked
    case FlushTake(locked) => locked
    case FlushPost(locked) => locked
    case FlushDrop(locked) => locked
    case FlushClear(locked) => locked
    case CloseTry(locked) => locked
    case CloseDrain(locked) => locked
    case Leave => true
    case _ => false
  }

  /** Between an enqueue or a clear and the check that follows it. */
  predicate WillCheck(pc: Pc) {
    pc.FlushTry? || pc.DoneCheck? || pc.CloseTry?
  }

  ghost predicate SomeoneWillCheck(s: State) {
    exists t :: WillCheck(PcOf(s, t))
  }

  ghost predicate SomeoneCloses(s: State) {
    exists t :: PcOf(s, t).CloseTry?
  }

  /** sendPending is one token: at most one thread, or the network, owns sendPkts. */
  ghost predicate TokenOk(s: State) {
    && (s.pending <==> s.h.token != Free)
    && (forall t: Tid :: Owns(PcOf(s, t)) <==> s.h.token == Thread(t))
    && s.inFlight == (if s.h.token == InFlight then 1 else 0)
  }

  ghost predicate LockOk(s: State) {
    forall t: Tid :: HoldsLock(PcOf(s, t)) <==> s.lock == Some(t)
  }

  /** A flush that SendPacket makes under its lock finds its packet in the queue. */
  ghost predicate FlushFinds(s: State) {
    && |s.queue| <= QSIZE
    && (forall t: Tid :: PcOf(s, t) == FlushTry(true) || PcOf(s, t) == FlushTake(true) ==> s.queue != [])
  }

  /** So what it posts is not empty; and only a closed session's queue is drained. */
  ghost predicate BatchFull(s: State) {
    && (forall t: Tid :: PcOf(s, t) == FlushPost(true) ==> s.sent != [])
    && (forall t: Tid :: PcOf(s, t).CloseDrain? ==> s.closed)
  }

  ghost predicate NotStranded(s: State) {
    && (!s.closed && s.queue != [] ==> s.pending || SomeoneWillCheck(s))
    && (s.h.token == Orphaned ==> s.closed || SomeoneCloses(s))
  }

  /** Between a WSASend that failed at once and the close it leads to. */
  predicate Failing(pc: Pc) {
    pc.FlushDrop? || pc.FlushClear? || pc.CloseTry?
  }

  ghost predicate SomeoneFails(s: State) {
    exists t :: Failing(PcOf(s, t))
  }

  ghost predicate FailureCloses(s: State) {
    s.h.failed ==> s.closed || SomeoneFails(s)
  }

  predicate InHand(s: State) {
    s.h.token.Thread? && PcOf(s, s.h.token.tid).FlushPost?
  }

  ghost predicate OrderOk(s: State) {
    && (!s.closed ==> s.h.accepted == s.h.taken + s.queue)
    && (!s.h.failed ==> s.h.taken == s.h.posted + (if InHand(s) then s.sent else []))
  }

  ghost predicate Inv(s: State) {
    TokenOk(s) && LockOk(s) && FlushFinds(s) && BatchFull(s) && NotStranded(s) && FailureCloses(s) && OrderOk(s)
  }

  lemma OpenedInv()
    ensures Inv(OPENED)
  {
  }

  lemma GoKeepsToken(s: State, a: Action)
    requires TokenOk(s) && Enabled(s, a) && a.Go?
    ensures TokenOk(Step(s, a))
  {
    var s' := Step(s, a);
    assert Owns(PcOf(s, a.tid)) <==> s.h.token == Thread(a.tid);
    forall u: Tid | u != a.tid ensures Owns(PcOf(s', u)) <==> s'.h.token == Thread(u) {
      assert PcOf(s', u) == PcOf(s, u);
    }
  }

  lemma CallKeepsToken(s: State, a: Action)
    requires TokenOk(s) && Enabled(s, a) && !a.Go?
    ensures TokenOk(Step(s, a))
  {
    var s' := Step(s, a);
    assert Owns(PcOf(s, a.tid)) <==> s.h.token == Thread(a.tid);
    forall u: Tid | u != a.tid ensures Owns(PcOf(s', u)) <==> s'.h.token == Thread(u) {
      assert PcOf(s', u) == PcOf(s, u);
    }
  }

  lemma GoKeepsLock(s: State, a: Action)
    requires LockOk(s) && Enabled(s, a) && a.Go?
    ensures LockOk(Step(s, a))
  {
    assert HoldsLock(PcOf(s, a.tid)) <==> s.lock == Some(a.tid);
    var s' := Step(s, a);
    forall u: Tid | u != a.tid ensures HoldsLock(PcOf(s', u)) <==> s'.lock == Some(u) {
      assert PcOf(s', u) == PcOf(s, u);
    }
  }

  lemma CallKeepsLock(s: State, a: Action)
    requires LockOk(s) && Enabled(s, a) && !a.Go?
    ensures LockOk(Step(s, a))
  {
    assert HoldsLock(PcOf(s, a.tid)) <==> s.lock == Some(a.tid);
    var s' := Step(s, a);
    forall u: Tid | u != a.tid ensures HoldsLock(PcOf(s', u)) <==> s'.lock == Some(u) {
      assert PcOf(s', u) == PcOf(s, u);
    }
  }

  /** The accesses that change the queue. */
  predicate OnQueue(pc: Pc) {
    pc.SendBody? || pc.FlushTake? || pc.CloseDrain?
  }

  /** Whoever changes the queue keeps the lock from everybody else. */
  lemma QueueStepFinds(s: State, a: Action)
    requires LockOk(s) && FlushFinds(s) && Enabled(s, a) && a.Go? && OnQueue(PcOf(s, a.tid))
    ensures FlushFinds(Step(s, a))
  {
    assert HoldsLock(PcOf(s, a.tid)) <==> s.lock == Some(a.tid);
    var s' := Step(s, a);
    forall u: Tid | u != a.tid ensures !HoldsLock(PcOf(s', u)) {
      assert PcOf(s, u) == PcOf(s', u);
      assert HoldsLock(PcOf(s, u)) <==> s.lock == Some(u);
    }
  }

  lemma OtherStepFinds(s: State, a: Action)
    requires FlushFinds(s) && Enabled(s, a) && a.Go? && !OnQueue(PcOf(s, a.tid))
    ensures FlushFinds(Step(s, a))
  {
    var s' := Step(s, a);
    assert s'.queue == s.queue;
    forall u: Tid | u != a.tid && (PcOf(s', u) == FlushTry(true) || PcOf(s', u) == FlushTake(true))
      ensures s'.queue != []
    {
      assert PcOf(s, u) == PcOf(s', u);
    }
  }

  lemma GoKeepsFlushFinds(s: State, a: Action)
    requires LockOk(s) && FlushFinds(s) && Enabled(s, a) && a.Go?
    ensures FlushFinds(Step(s, a))
  {
    if OnQueue(PcOf(s, a.tid)) { QueueStepFinds(s, a); } else { OtherStepFinds(s, a); }
  }

  lemma CallKeepsFlushFinds(s: State, a: Action)
    requires LockOk(s) && FlushFinds(s) && Enabled(s, a) && !a.Go?
    ensures FlushFinds(Step(s, a))
  {
    assert HoldsLock(PcOf(s, a.tid)) <==> s.lock == Some(a.tid);
    var s' := Step(s, a);
    forall u: Tid | u != a.tid && (PcOf(s', u) == FlushTry(true) || PcOf(s', u) == FlushTake(true))
      ensures s'.queue != []
    {
      assert PcOf(s, u) == PcOf(s', u);
      assert HoldsLock(PcOf(s, u)) <==> s.lock == Some(u);
    }
  }

  lemma GoKeepsBatchFull(s: State, a: Action)
    requires TokenOk(s) && FlushFinds(s) && BatchFull(s) && Enabled(s, a) && a.Go?
    ensures BatchFull(Step(s, a))
  {
    assert Owns(PcOf(s, a.tid)) <==> s.h.token == Thread(a.tid);
    var s' := Step(s, a);
    forall u: Tid | u != a.tid
      ensures PcOf(s', u) == FlushPost(true) ==> s'.sent != []
      ensures PcOf(s', u).CloseDrain? ==> s'.closed
    {
      assert PcOf(s, u) == PcOf(s', u);
      assert Owns(PcOf(s, u)) <==> s.h.token == Thread(u);
    }
  }

  lemma CallKeepsBatchFull(s: State, a: Action)
    requires TokenOk(s) && FlushFinds(s) && BatchFull(s) && Enabled(s, a) && !a.Go?
    ensures BatchFull(Step(s, a))
  {
    assert Owns(PcOf(s, a.tid)) <==> s.h.token == Thread(a.tid);
    var s' := Step(s, a);
    forall u: Tid | u != a.tid
      ensures PcOf(s', u) == FlushPost(true) ==> s'.sent != []
      ensures PcOf(s', u).CloseDrain? ==> s'.closed
    {
      assert PcOf(s, u) == PcOf(s', u);
      assert Owns(PcOf(s, u)) <==> s.h.token == Thread(u);
    }
  }

  lemma QueueStepOrder(s: State, a: Action)
    requires TokenOk(s) && FlushFinds(s) && BatchFull(s) && OrderOk(s) && Enabled(s, a)
    requires a.Go? && OnQueue(PcOf(s, a.tid))
    ensures OrderOk(Step(s, a))
  {
    assert Owns(PcOf(s, a.tid)) <==> s.h.token == Thread(a.tid);
  }

  lemma OtherStepOrder(s: State, a: Action)
    requires TokenOk(s) && OrderOk(s) && Enabled(s, a) && a.Go? && !OnQueue(PcOf(s, a.tid))
    ensures OrderOk(Step(s, a))
  {
    assert Owns(PcOf(s, a.tid)) <==> s.h.token == Thread(a.tid);
  }

  lemma GoKeepsOrder(s: State, a: Action)
    requires TokenOk(s) && FlushFinds(s) && BatchFull(s) && OrderOk(s) && Enabled(s, a) && a.Go?
    ensures OrderOk(Step(s, a))
  {
    if OnQueue(PcOf(s, a.tid)) { QueueStepOrder(s, a); } else { OtherStepOrder(s, a); }
  }

  lemma CallKeepsOrder(s: State, a: Action)
    requires TokenOk(s) && FlushFinds(s) && BatchFull(s) && OrderOk(s) && Enabled(s, a) && !a.Go?
    ensures OrderOk(Step(s, a))
  {
    assert Owns(PcOf(s, a.tid)) <==> s.h.token == Thread(a.tid);
  }

  /** A thread that is to check still is after another thread's step. */
  lemma OthersStillCheck(s: State, a: Action)
    requires Enabled(s, a)
    ensures SomeoneWillCheck(s) ==> SomeoneWillCheck(Step(s, a)) || WillCheck(PcOf(s, a.tid))
    ensures SomeoneCloses(s) ==> SomeoneCloses(Step(s, a)) || PcOf(s, a.tid).CloseTry?
    ensures WillCheck(PcOf(Step(s, a), a.tid)) ==> SomeoneWillCheck(Step(s, a))
    ensures PcOf(Step(s, a), a.tid).CloseTry? ==> SomeoneCloses(Step(s, a))
  {
    var s' := Step(s, a);
    assert forall u: Tid | u != a.tid :: PcOf(s', u) == PcOf(s, u);
  }

  lemma StepKeepsNotStranded(s: State, a: Action)
    requires TokenOk(s) && FlushFinds(s) && BatchFull(s) && NotStranded(s) && Enabled(s, a)
    ensures NotStranded(Step(s, a))
  {
    OthersStillCheck(s, a);
    assert Owns(PcOf(s, a.tid)) <==> s.h.token == Thread(a.tid);
  }

  lemma StepKeepsFailure(s: State, a: Action)
    requires FailureCloses(s) && Enabled(s, a)
    ensures FailureCloses(Step(s, a))
  {
    var s' := Step(s, a);
    if SomeoneFails(s) {
      var t :| Failing(PcOf(s, t));
      assert t != a.tid ==> PcOf(s', t) == PcOf(s, t);
    }
    assert Failing(PcOf(s', a.tid)) ==> SomeoneFails(s');
  }

  lemma StepKeepsInv(s: State, a: Action)
    requires Inv(s) && Enabled(s, a)
    ensures Inv(Step(s, a))
  {
    if a.Go? {
      GoKeepsToken(s, a);
      GoKeepsLock(s, a);
      GoKeepsFlushFinds(s, a);
      GoKeepsBatchFull(s, a);
      GoKeepsOrder(s, a);
    } else {
      CallKeepsToken(s, a);
      CallKeepsLock(s, a);
      CallKeepsFlushFinds(s, a);
      CallKeepsBatchFull(s, a);
      CallKeepsOrder(s, a);
    }
    StepKeepsNotStranded(s, a);
    StepKeepsFailure(s, a);
  }

  // ------------------------------------------------------------- whole runs

  ghost predicate EnabledRun(s: State, acts: seq<Action>)
    decreases |acts|
  {
    acts == [] || (Enabled(s, acts[0]) && EnabledRun(Step(s, acts[0]), acts[1..]))
  }

  ghost function Final(s: State, acts: seq<Action>): State
    requires EnabledRun(s, acts)
    decreases |acts|
  {
    if acts == [] then s else Final(Step(s, acts[0]), acts[1..])
  }

  lemma {:induction false} RunKeepsInv(s: State, acts: seq<Action>)
    requires Inv(s) && EnabledRun(s, acts)
    ensures Inv(Final(s, acts))
    decreases |acts|
  {
    if acts != [] {
      StepKeepsInv(s, acts[0]);
      RunKeepsInv(Step(s, acts[0]), acts[1..]);
    }
  }

  /** sendPending is an exclusive ownership token, under any interleaving: at most one
      thread may touch sendPkts and sentCount, none while a send is in flight, and at
      most one send is in flight. */
  lemma OneSendAtATime(acts: seq<Action>, t: Tid, u: Tid)
    requires EnabledRun(OPENED, acts)
    ensures var s := Final(OPENED, acts);
      && (Owns(PcOf(s, t)) ==> s.pending && s.inFlight == 0)
      && (Owns(PcOf(s, t)) && Owns(PcOf(s, u)) ==> t == u)
      && s.inFlight <= 1 && (s.inFlight == 1 ==> s.pending)
  {
    OpenedInv();
    RunKeepsInv(OPENED, acts);
    var s := Final(OPENED, acts);
    assert Owns(PcOf(s, t)) <==> s.h.token == Thread(t);
    assert Owns(PcOf(s, u)) <==> s.h.token == Thread(u);
  }

  /** No accepted packet is stranded: while an open session's queue is not empty, a send is
      in flight, or a thread owns the next one, or a thread is still between its enqueue or
      clear and its check. */
  lemma NothingStranded(acts: seq<Action>)
    requires EnabledRun(OPENED, acts)
    ensures var s := Final(OPENED, acts);
      !s.closed && s.queue != [] ==>
        || s.inFlight == 1
        || (exists t: Tid :: Owns(PcOf(s, t)))
        || (exists t: Tid :: WillCheck(PcOf(s, t)))
  {
    OpenedInv();
    RunKeepsInv(OPENED, acts);
    var s := Final(OPENED, acts);
    if !s.closed && s.queue != [] {
      if s.h.token.Thread? {
        assert Owns(PcOf(s, s.h.token.tid));
      } else if s.h.token == Orphaned {
        var t :| PcOf(s, t).CloseTry?;
        assert WillCheck(PcOf(s, t));
      } else if s.h.token == Free {
        var t :| WillCheck(PcOf(s, t));
      }
    }
  }

  /** When an open session falls silent, everything it accepted has been posted, in
      order, once, and no WSASend has failed. */
  lemma QuietMeansPosted(acts: seq<Action>)
    requires EnabledRun(OPENED, acts)
    requires var s := Final(OPENED, acts); !s.closed && s.inFlight == 0 && forall t: Tid :: PcOf(s, t).Idle?
    ensures var s := Final(OPENED, acts);
      s.queue == [] && !s.pending && !s.h.failed && s.h.posted == s.h.accepted
  {
    OpenedInv();
    RunKeepsInv(OPENED, acts);
    var s := Final(OPENED, acts);
    forall t: Tid ensures s.h.token != Thread(t) {
      assert Owns(PcOf(s, t)) <==> s.h.token == Thread(t);
    }
    assert !SomeoneWillCheck(s) && !SomeoneCloses(s) && !SomeoneFails(s);
  }

  /** While a session is open and no WSASend has failed at once, what it has posted is a
      prefix of what it accepted. */
  lemma PostedInOrder(acts: seq<Action>)
    requires EnabledRun(OPENED, acts)
    requires var s := Final(OPENED, acts); !s.closed && !s.h.failed
    ensures var s := Final(OPENED, acts); s.h.posted <= s.h.accepted
  {
    OpenedInv();
    RunKeepsInv(OPENED, acts);
  }

  /** The handshake never deadlocks: unless every thread is idle, some thread can step. */
  lemma SomeoneCanStep(acts: seq<Action>, t: Tid) returns (a: Action)
    requires EnabledRun(OPENED, acts) && !PcOf(Final(OPENED, acts), t).Idle?
    ensures Enabled(Final(OPENED, acts), a) && (a.Go? || a.Post?)
  {
    OpenedInv();
    RunKeepsInv(OPENED, acts);
    var s := Final(OPENED, acts);
    var u := if s.lock.Some? then s.lock.value else t;
    assert HoldsLock(PcOf(s, u)) <==> s.lock == Some(u);
    a := if PcOf(s, u).FlushPost? then Post(u, true) else Go(u);
  }
}

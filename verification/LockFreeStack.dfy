/**
  The stamped-pointer Treiber stack under the session pool and the packet pool
  (myIOCP/CLockFreeStack.h), one shared-memory access per step.

  Every read of the top word, every compare-exchange, every access to a node's
  fields and every `delete` is a step of its own, and any number of threads
  interleave them freely. Only `new` and the store of `data` behind it are one step:
  no other thread has the node's address yet. Freed addresses may be handed out
  again, and a read of a freed node yields an arbitrary value.
*/
module LockFreeStack {
  import opened Options

  // ---------------------------------------------------------------- the word

  const POINTER_SPAN: nat := 0x8000_0000_0000   // 2^47
  const STAMP_SPAN: nat := 0x2_0000             // 2^17

  function GetPtr(combined: nat): nat { combined % POINTER_SPAN }

  function GetStamp(combined: nat): nat { combined / POINTER_SPAN }

  /** Bitwise or. */
  function BitOr(a: nat, b: nat): nat
    decreases a
  {
    if a == 0 then b
    else (if a % 2 == 1 || b % 2 == 1 then 1 else 0) + 2 * BitOr(a / 2, b / 2)
  }

  /** `(stamp << 47) | ptr` in 64 bits: the shift keeps 17 bits of the stamp, and
      bits of `ptr` above the 47th (a garbage pointer) are or-ed into them. */
  function Combine(stamp: nat, ptr: nat): nat {
    BitOr(ptr / POINTER_SPAN, stamp % STAMP_SPAN) * POINTER_SPAN + ptr % POINTER_SPAN
  }

  /** A user-mode address and a stamp survive packing, the stamp modulo 2^17. */
  lemma CombineSplits(stamp: nat, ptr: nat)
    requires ptr < POINTER_SPAN
    ensures GetPtr(Combine(stamp, ptr)) == ptr
    ensures GetStamp(Combine(stamp, ptr)) == stamp % STAMP_SPAN
  {
    assert ptr / POINTER_SPAN == 0;
  }

  // --------------------------------------------------------------- the state

  type Tid = nat
  type Addr = nat
  type Value = int

  datatype Node = Node(data: Value, next: nat)

  /** Where a thread stands in `Push` or `Pop`, with its local variables. */
  datatype Pc =
    | Idle
    | PushTry(node: Addr)                 // about to read m_pTop
    | PushRead(node: Addr, was: nat)      // about to write newNode->next
    | PushCas(node: Addr, was: nat)       // about to compare-exchange
    | PopTry                              // about to read m_pTop
    | PopRead(was: nat)                   // about to read oldPtr->next
    | PopCas(was: nat, next: nat)         // about to compare-exchange
    | PopWon(node: Addr)                  // about to read temp->data
    | PopFree(node: Addr, value: Value)   // about to delete temp and return

  /** One linearized operation. */
  datatype Event =
    | Pushed(tid: Tid, value: Value)
    | Popped(tid: Tid, value: Value)
    | FoundEmpty(tid: Tid)

  /** What a thread called: `Push` with this value, or `Pop`. */
  datatype Asked = ToPush(value: Value) | ToPop

  /** A returned operation: who called what, its result as an event, and the number of
      events that had happened when it was called and when it returned. */
  datatype Returned = Returned(tid: Tid, asked: Asked, event: Event, calledAt: nat, returnedAt: nat)

  /** Bookkeeping of the call a thread is in: what it asked for, events at the call,
      successful compare-exchanges when it last read the top, its linearization point. */
  datatype Call = Call(asked: Asked, calledAt: nat, seen: nat, lin: nat)

  /** History variables. No step of the algorithm consults them. */
  datatype History = History(
    chain: seq<Addr>,                 // nodes on the stack, top first
    wins: nat,                        // successful compare-exchanges so far
    events: seq<Event>,               // linearized operations, in order
    calls: map<Tid, Call>,
    returned: map<nat, Returned>,     // keyed by linearization point
    pending: map<nat, Tid>            // linearized pops that have not returned
  )

  datatype State = State(top: nat, heap: map<Addr, Node>, pcs: map<Tid, Pc>, h: History)

  const INITIAL := State(0, map[], map[], History([], 0, [], map[], map[], map[]))

  function PcOf(s: State, t: Tid): Pc {
    if t in s.pcs then s.pcs[t] else Idle
  }

  function CallOf(s: State, t: Tid): Call {
    if t in s.h.calls then s.h.calls[t] else Call(ToPop, 0, 0, 0)
  }

  // --------------------------------------------------------------- the steps

  datatype Action =
    | CallPush(tid: Tid, value: Value, addr: Addr, junk: nat)  // new Node, data stored
    | CallPop(tid: Tid)
    | ReadTop(tid: Tid)
    | WriteNext(tid: Tid)
    | ReadNext(tid: Tid, junk: nat)      // junk is what a freed node yields
    | CompareExchange(tid: Tid)
    | ReadData(tid: Tid, stale: Value)
    | Free(tid: Tid)

  /** What the program counter demands; the allocator's only promise is a live-free,
      non-null user-mode address. */
  predicate Enabled(s: State, a: Action) {
    var pc := PcOf(s, a.tid);
    match a
    case CallPush(_, _, addr, _) => pc.Idle? && addr !in s.heap && 0 < addr < POINTER_SPAN
    case CallPop(_) => pc.Idle?
    case ReadTop(_) => pc.PushTry? || pc.PopTry?
    case WriteNext(_) => pc.PushRead?
    case ReadNext(_, _) => pc.PopRead?
    case CompareExchange(_) => pc.PushCas? || pc.PopCas?
    case ReadData(_, _) => pc.PopWon?
    case Free(_) => pc.PopFree?
  }

  function Goto(s: State, t: Tid, pc: Pc): State {
    s.(pcs := s.pcs[t := pc])
  }

  function NoteCall(s: State, t: Tid, asked: Asked): State {
    s.(h := s.h.(calls := s.h.calls[t := Call(asked, |s.h.events|, 0, 0)]))
  }

  function NoteRead(s: State, t: Tid): State {
    s.(h := s.h.(calls := s.h.calls[t := CallOf(s, t).(seen := s.h.wins)]))
  }

  /** Linearize `e` now and return at once. */
  function NoteReturned(s: State, t: Tid, e: Event): State {
    var k := |s.h.events|;
    s.(h := s.h.(events := s.h.events + [e],
                 returned := s.h.returned[k := Returned(t, CallOf(s, t).asked, e, CallOf(s, t).calledAt, k + 1)]))
  }

  /** Linearize `e` now; the operation returns later. */
  function NotePending(s: State, t: Tid, e: Event): State {
    var k := |s.h.events|;
    s.(h := s.h.(events := s.h.events + [e],
                 calls := s.h.calls[t := CallOf(s, t).(lin := k)],
                 pending := s.h.pending[k := t]))
  }

  function NoteResult(s: State, t: Tid, value: Value): State {
    var call := CallOf(s, t);
    var result := Returned(t, call.asked, Popped(t, value), call.calledAt, |s.h.events|);
    s.(h := s.h.(pending := s.h.pending - {call.lin}, returned := s.h.returned[call.lin := result]))
  }

  function NoteWin(s: State, chain: seq<Addr>): State {
    s.(h := s.h.(chain := chain, wins := s.h.wins + 1))
  }

  function DoReadTop(s: State, t: Tid): State
    requires Enabled(s, ReadTop(t))
  {
    match PcOf(s, t)
    case PushTry(node) => NoteRead(Goto(s, t, PushRead(node, s.top)), t)
    case PopTry =>
      if GetPtr(s.top) == 0 then NoteReturned(Goto(s, t, Idle), t, FoundEmpty(t))
      else NoteRead(Goto(s, t, PopRead(s.top)), t)
  }

  function DoWriteNext(s: State, t: Tid): State
    requires Enabled(s, WriteNext(t))
  {
    var PushRead(node, was) := PcOf(s, t);
    var data := if node in s.heap then s.heap[node].data else 0;
    Goto(s.(heap := s.heap[node := Node(data, GetPtr(was))]), t, PushCas(node, was))
  }

  function DoReadNext(s: State, t: Tid, junk: nat): State
    requires Enabled(s, ReadNext(t, junk))
  {
    var PopRead(was) := PcOf(s, t);
    var p := GetPtr(was);
    Goto(s, t, PopCas(was, if p in s.heap then s.heap[p].next else junk))
  }

  function PushExchange(s: State, t: Tid, node: Addr, was: nat): State {
    if s.top != was then Goto(s, t, PushTry(node))
    else
      var data := if node in s.heap then s.heap[node].data else 0;
      var s1 := s.(top := Combine(GetStamp(was) + 1, node));
      NoteReturned(NoteWin(Goto(s1, t, Idle), [node] + s.h.chain), t, Pushed(t, data))
  }

  function PopExchange(s: State, t: Tid, was: nat, next: nat): State {
    if s.top != was then Goto(s, t, PopTry)
    else
      var node := GetPtr(was);
      var data := if node in s.heap then s.heap[node].data else 0;
      var s1 := s.(top := Combine(GetStamp(was) + 1, next));
      var rest := if s.h.chain == [] then [] else s.h.chain[1..];
      NotePending(NoteWin(Goto(s1, t, PopWon(node)), rest), t, Popped(t, data))
  }

  function DoExchange(s: State, t: Tid): State
    requires Enabled(s, CompareExchange(t))
  {
    match PcOf(s, t)
    case PushCas(node, was) => PushExchange(s, t, node, was)
    case PopCas(was, next) => PopExchange(s, t, was, next)
  }

  function DoReadData(s: State, t: Tid, junk: Value): State
    requires Enabled(s, ReadData(t, junk))
  {
    var node := PcOf(s, t).node;
    Goto(s, t, PopFree(node, if node in s.heap then s.heap[node].data else junk))
  }

  function DoFree(s: State, t: Tid): State
    requires Enabled(s, Free(t))
  {
    var PopFree(node, value) := PcOf(s, t);
    NoteResult(Goto(s.(heap := s.heap - {node}), t, Idle), t, value)
  }

  function Step(s: State, a: Action): State
    requires Enabled(s, a)
  {
    match a
    case CallPush(t, v, addr, junk) =>
      NoteCall(Goto(s.(heap := s.heap[addr := Node(v, junk)]), t, PushTry(addr)), t, ToPush(v))
    case CallPop(t) => NoteCall(Goto(s, t, PopTry), t, ToPop)
    case ReadTop(t) => DoReadTop(s, t)
    case WriteNext(t) => DoWriteNext(s, t)
    case ReadNext(t, junk) => DoReadNext(s, t, junk)
    case CompareExchange(t) => DoExchange(s, t)
    case ReadData(t, junk) => DoReadData(s, t, junk)
    case Free(t) => DoFree(s, t)
  }

  /** The window: fewer than 2^17 successful exchanges fell between this pop's
      read of the top and its own exchange. Pushes need no such promise. */
  predicate InWindow(s: State, a: Action) {
    a.CompareExchange? && PcOf(s, a.tid).PopCas? ==> s.h.wins < CallOf(s, a.tid).seen + STAMP_SPAN
  }

  // ------------------------------------------------- the sequential stack

  /** A sequential stack after the events, top first; None when an event is not
      one a sequential stack would have produced. */
  function Replay(events: seq<Event>): Option<seq<Value>> {
    if events == [] then Some([])
    else
      var before := Replay(events[..|events| - 1]);
      if before.None? then None else
      match events[|events| - 1]
      case Pushed(_, v) => Some([v] + before.value)
      case Popped(_, v) =>
        if before.value != [] && before.value[0] == v then Some(before.value[1..]) else None
      case FoundEmpty(_) => if before.value == [] then Some([]) else None
  }

  lemma ReplaySnoc(events: seq<Event>, e: Event)
    ensures Replay(events + [e]) ==
      var before := Replay(events);
      if before.None? then None else
      match e
      case Pushed(_, v) => Some([v] + before.value)
      case Popped(_, v) =>
        if before.value != [] && before.value[0] == v then Some(before.value[1..]) else None
      case FoundEmpty(_) => if before.value == [] then Some([]) else None
  {
    assert (events + [e])[..|events|] == events;
  }

  // ---------------------------------------------------------- the invariant

  function NextInChain(chain: seq<Addr>, i: nat): nat {
    if i < |chain| then chain[i] else 0
  }

  /** The heap holds exactly this chain of distinct live nodes below the top word. */
  ghost predicate ChainOk(top: nat, heap: map<Addr, Node>, chain: seq<Addr>) {
    && GetPtr(top) == NextInChain(chain, 0)
    && (forall i | 0 <= i < |chain| :: chain[i] in heap && heap[chain[i]].next == NextInChain(chain, i + 1))
    && (forall i, j | 0 <= i < j < |chain| :: chain[i] != chain[j])
    && (forall a | a in heap :: 0 < a < POINTER_SPAN)
  }

  function Values(heap: map<Addr, Node>, chain: seq<Addr>): (r: seq<Value>)
    requires forall i | 0 <= i < |chain| :: chain[i] in heap
    ensures |r| == |chain|
    ensures forall i | 0 <= i < |chain| :: r[i] == heap[chain[i]].data
  {
    if chain == [] then [] else [heap[chain[0]].data] + Values(heap, chain[1..])
  }

  predicate HoldsNode(pc: Pc) {
    pc.PushTry? || pc.PushRead? || pc.PushCas? || pc.PopWon? || pc.PopFree?
  }

  predicate Pushing(pc: Pc) {
    pc.PushTry? || pc.PushRead? || pc.PushCas?
  }

  /** What a thread between its read of the top and its exchange may rely on. */
  ghost predicate SnapshotOk(s: State, was: nat, seen: nat) {
    && seen <= s.h.wins
    && GetStamp(was) == seen % STAMP_SPAN
    && (seen == s.h.wins ==> was == s.top && s.h.chain != [])
  }

  /** A pop that has won carries the value its linearization point announced. */
  ghost predicate WonOk(s: State, t: Tid, value: Value) {
    var k := CallOf(s, t).lin;
    && k in s.h.pending && s.h.pending[k] == t
    && CallOf(s, t).calledAt <= k < |s.h.events|
    && s.h.events[k] == Popped(t, value)
  }

  ghost predicate ThreadOk(s: State, t: Tid) {
    var pc := PcOf(s, t);
    && (HoldsNode(pc) ==> pc.node in s.heap && pc.node !in s.h.chain)
    && (!pc.Idle? ==> CallOf(s, t).calledAt <= |s.h.events|)
    && (Pushing(pc) ==> CallOf(s, t).asked == ToPush(s.heap[pc.node].data))
    && (!Pushing(pc) && !pc.Idle? ==> CallOf(s, t).asked.ToPop?)
    && match pc
       case PopRead(was) => SnapshotOk(s, was, CallOf(s, t).seen)
       case PopCas(was, next) =>
         && SnapshotOk(s, was, CallOf(s, t).seen)
         && (CallOf(s, t).seen == s.h.wins ==> next == NextInChain(s.h.chain, 1))
       case PushCas(node, was) => s.heap[node].next == GetPtr(was)
       case PopWon(node) => WonOk(s, t, s.heap[node].data)
       case PopFree(node, value) => WonOk(s, t, value)
       case _ => true
  }

  /** No two threads hold the same node. */
  ghost predicate Exclusive(s: State) {
    forall t, u | t != u && HoldsNode(PcOf(s, t)) && HoldsNode(PcOf(s, u)) :: PcOf(s, t).node != PcOf(s, u).node
  }

  /** A pending linearization point belongs to a thread that has won and not returned. */
  ghost predicate PendingOk(s: State) {
    forall k | k in s.h.pending ::
      && CallOf(s, s.h.pending[k]).lin == k
      && (PcOf(s, s.h.pending[k]).PopWon? || PcOf(s, s.h.pending[k]).PopFree?)
  }

  /** `Push(v)` answers by having pushed `v`; `Pop` by what it popped or by finding nothing. */
  predicate AnswersCall(r: Returned) {
    match r.asked
    case ToPush(v) => r.event == Pushed(r.tid, v)
    case ToPop => r.event == FoundEmpty(r.tid) || (r.event.Popped? && r.event.tid == r.tid)
  }

  /** Every returned operation took effect once, between its call and its return, as
      what was called, and returned what it announced; every event belongs to one
      operation. */
  ghost predicate ReturnsOk(h: History) {
    && (forall k | k in h.returned ::
          && h.returned[k].calledAt <= k < h.returned[k].returnedAt <= |h.events|
          && h.events[k] == h.returned[k].event && AnswersCall(h.returned[k]))
    && (forall k :: 0 <= k < |h.events| <==> (k in h.returned || k in h.pending))
    && (forall k | k in h.returned :: k !in h.pending)
  }

  /** The chain holds what a sequential stack would hold after the same events,
      and the stamp counts the successful exchanges. */
  ghost predicate StackOk(top: nat, heap: map<Addr, Node>, chain: seq<Addr>, wins: nat, events: seq<Event>) {
    && ChainOk(top, heap, chain)
    && GetStamp(top) == wins % STAMP_SPAN
    && Replay(events) == Some(Values(heap, chain))
  }

  ghost predicate ThreadsOk(s: State) {
    && (forall t :: ThreadOk(s, t))
    && Exclusive(s)
    && PendingOk(s)
  }

  ghost predicate Inv(s: State) {
    && StackOk(s.top, s.heap, s.h.chain, s.h.wins, s.h.events)
    && ThreadsOk(s)
    && ReturnsOk(s.h)
  }

  lemma InitialInv()
    ensures Inv(INITIAL)
  {
    assert Values(INITIAL.heap, INITIAL.h.chain) == [];
  }

  // ------------------------------------------------- every step keeps it

  /** A step of `t` that leaves the heap, the top and the events alone. */
  lemma QuietStep(s: State, s': State, t: Tid)
    requires Inv(s)
    requires s'.heap == s.heap && s'.top == s.top && s'.h == s.h.(calls := s'.h.calls)
    requires forall u | u != t :: PcOf(s', u) == PcOf(s, u) && CallOf(s', u) == CallOf(s, u)
    requires ThreadOk(s', t)
    requires HoldsNode(PcOf(s', t)) ==> HoldsNode(PcOf(s, t)) && PcOf(s, t).node == PcOf(s', t).node
    requires PcOf(s, t).PopWon? || PcOf(s, t).PopFree? ==>
               CallOf(s', t) == CallOf(s, t) && (PcOf(s', t).PopWon? || PcOf(s', t).PopFree?)
    ensures Inv(s')
  {
    forall u | u != t ensures ThreadOk(s', u) { assert ThreadOk(s, u); }
  }

  lemma CallPopKeepsInv(s: State, t: Tid)
    requires Inv(s) && Enabled(s, CallPop(t))
    ensures Inv(Step(s, CallPop(t)))
  {
    QuietStep(s, Step(s, CallPop(t)), t);
  }

  lemma ReadNextKeepsInv(s: State, t: Tid, junk: nat)
    requires Inv(s) && Enabled(s, ReadNext(t, junk))
    ensures Inv(DoReadNext(s, t, junk))
  {
    assert ThreadOk(s, t);
    QuietStep(s, DoReadNext(s, t, junk), t);
  }

  lemma ReadDataKeepsInv(s: State, t: Tid, stale: Value)
    requires Inv(s) && Enabled(s, ReadData(t, stale))
    ensures Inv(DoReadData(s, t, stale))
  {
    assert ThreadOk(s, t);
    QuietStep(s, DoReadData(s, t, stale), t);
  }

  /** Only `t` moved. The heap changed at its own node at most; the node it ends up
      with was its own, fresh, or on the stack; the stack gained at most its own. */
  ghost predicate OnlyMoved(s: State, s': State, t: Tid, own: Addr) {
    && (forall u | u != t :: PcOf(s', u) == PcOf(s, u) && CallOf(s', u) == CallOf(s, u))
    && (own in s.heap ==> HoldsNode(PcOf(s, t)) && PcOf(s, t).node == own)
    && (forall a | a in s.heap && a != own :: a in s'.heap && s'.heap[a] == s.heap[a])
    && (forall a | a in s'.h.chain :: a in s.h.chain || a == own)
    && (HoldsNode(PcOf(s', t)) ==>
          PcOf(s', t).node == own || PcOf(s', t).node !in s.heap || PcOf(s', t).node in s.h.chain)
  }

  /** What the other threads rely on survives a step of `t` that either wins
      nothing or wins an exchange. */
  lemma OtherThreads(s: State, s': State, t: Tid, own: Addr)
    requires (forall u :: ThreadOk(s, u)) && Exclusive(s) && OnlyMoved(s, s', t, own)
    requires s.h.events <= s'.h.events
    requires forall k | k in s.h.pending && s.h.pending[k] != t ::
               k in s'.h.pending && s'.h.pending[k] == s.h.pending[k]
    requires s'.h.wins > s.h.wins || (s'.h.wins == s.h.wins && s'.top == s.top && s'.h.chain == s.h.chain)
    ensures forall u | u != t :: ThreadOk(s', u)
    ensures Exclusive(s')
  {
    forall u | u != t
      ensures ThreadOk(s', u)
      ensures HoldsNode(PcOf(s', u)) && HoldsNode(PcOf(s', t)) ==> PcOf(s', u).node != PcOf(s', t).node
    {
      assert ThreadOk(s, u);
    }
  }

  /** A heap that agrees on the chain keeps the chain and its values. */
  lemma SameChain(top: nat, heap: map<Addr, Node>, heap': map<Addr, Node>, chain: seq<Addr>)
    requires ChainOk(top, heap, chain)
    requires forall i | 0 <= i < |chain| :: chain[i] in heap' && heap'[chain[i]] == heap[chain[i]]
    requires forall a | a in heap' :: 0 < a < POINTER_SPAN
    ensures ChainOk(top, heap', chain)
    ensures Values(heap', chain) == Values(heap, chain)
  {
  }

  lemma CallPushKeepsInv(s: State, t: Tid, v: Value, addr: Addr, junk: nat)
    requires Inv(s) && Enabled(s, CallPush(t, v, addr, junk))
    ensures Inv(Step(s, CallPush(t, v, addr, junk)))
  {
    var s' := Step(s, CallPush(t, v, addr, junk));
    SameChain(s.top, s.heap, s'.heap, s.h.chain);
    OtherThreads(s, s', t, addr);
    assert ThreadOk(s', t);
  }

  lemma WriteNextKeepsInv(s: State, t: Tid)
    requires Inv(s) && Enabled(s, WriteNext(t))
    ensures Inv(DoWriteNext(s, t))
  {
    var s' := DoWriteNext(s, t);
    assert ThreadOk(s, t);
    SameChain(s.top, s.heap, s'.heap, s.h.chain);
    OtherThreads(s, s', t, PcOf(s, t).node);
    assert ThreadOk(s', t);
  }

  lemma AppendReturned(s: State, t: Tid, e: Event)
    requires ReturnsOk(s.h) && CallOf(s, t).calledAt <= |s.h.events|
    requires AnswersCall(Returned(t, CallOf(s, t).asked, e, 0, 0))
    ensures ReturnsOk(NoteReturned(s, t, e).h)
  {
  }

  lemma AppendPending(s: State, t: Tid, e: Event)
    requires ReturnsOk(s.h)
    ensures ReturnsOk(NotePending(s, t, e).h)
  {
  }

  lemma NullTopIsEmpty(top: nat, heap: map<Addr, Node>, chain: seq<Addr>)
    requires ChainOk(top, heap, chain)
    ensures GetPtr(top) == 0 <==> chain == []
  {
  }

  lemma FoundEmptyStack(top: nat, heap: map<Addr, Node>, chain: seq<Addr>, wins: nat, events: seq<Event>, t: Tid)
    requires StackOk(top, heap, chain, wins, events) && GetPtr(top) == 0
    ensures StackOk(top, heap, chain, wins, events + [FoundEmpty(t)])
  {
    NullTopIsEmpty(top, heap, chain);
    ReplaySnoc(events, FoundEmpty(t));
  }

  lemma FoundEmptyThreads(s: State, t: Tid)
    requires ThreadsOk(s) && PcOf(s, t).PopTry? && 0 !in s.heap
    ensures ThreadsOk(NoteReturned(Goto(s, t, Idle), t, FoundEmpty(t)))
  {
    OtherThreads(s, NoteReturned(Goto(s, t, Idle), t, FoundEmpty(t)), t, 0);
  }

  /** `Pop` on an empty stack linearizes at its read of the null top. */
  lemma FoundEmptyKeepsInv(s: State, t: Tid)
    requires Inv(s) && PcOf(s, t).PopTry? && GetPtr(s.top) == 0
    ensures Inv(NoteReturned(Goto(s, t, Idle), t, FoundEmpty(t)))
  {
    assert ThreadOk(s, t);
    FoundEmptyStack(s.top, s.heap, s.h.chain, s.h.wins, s.h.events, t);
    FoundEmptyThreads(s, t);
    AppendReturned(Goto(s, t, Idle), t, FoundEmpty(t));
  }

  lemma ReadTopKeepsInv(s: State, t: Tid)
    requires Inv(s) && Enabled(s, ReadTop(t))
    ensures Inv(DoReadTop(s, t))
  {
    assert ThreadOk(s, t);
    if PcOf(s, t).PopTry? && GetPtr(s.top) == 0 {
      FoundEmptyKeepsInv(s, t);
    } else {
      QuietStep(s, DoReadTop(s, t), t);
    }
  }

  lemma FreeReturns(s: State, t: Tid, value: Value)
    requires ReturnsOk(s.h) && WonOk(s, t, value) && CallOf(s, t).asked.ToPop?
    ensures ReturnsOk(NoteResult(s, t, value).h)
  {
  }

  lemma FreeThreads(s: State, t: Tid)
    requires ThreadsOk(s) && PcOf(s, t).PopFree?
    ensures ThreadsOk(DoFree(s, t))
  {
    assert ThreadOk(s, t);
    OtherThreads(s, DoFree(s, t), t, PcOf(s, t).node);
  }

  lemma FreeStack(top: nat, heap: map<Addr, Node>, chain: seq<Addr>, wins: nat, events: seq<Event>, node: Addr)
    requires StackOk(top, heap, chain, wins, events) && node !in chain
    ensures StackOk(top, heap - {node}, chain, wins, events)
  {
    SameChain(top, heap, heap - {node}, chain);
  }

  lemma FreeKeepsInv(s: State, t: Tid)
    requires Inv(s) && Enabled(s, Free(t))
    ensures Inv(DoFree(s, t))
  {
    assert ThreadOk(s, t);
    FreeStack(s.top, s.heap, s.h.chain, s.h.wins, s.h.events, PcOf(s, t).node);
    FreeThreads(s, t);
    FreeReturns(s, t, PcOf(s, t).value);
  }

  /** A new top node above an unchanged chain. */
  lemma ChainGrows(top: nat, heap: map<Addr, Node>, chain: seq<Addr>, top': nat, node: Addr)
    requires ChainOk(top, heap, chain) && node in heap && node !in chain
    requires heap[node].next == GetPtr(top) && GetPtr(top') == node
    ensures ChainOk(top', heap, [node] + chain)
    ensures Values(heap, [node] + chain) == [heap[node].data] + Values(heap, chain)
  {
    var longer := [node] + chain;
    forall i | 0 <= i < |longer| ensures longer[i] in heap && heap[longer[i]].next == NextInChain(longer, i + 1) {
      if i > 0 { assert longer[i] == chain[i - 1]; }
    }
  }

  /** The chain below the old top node. */
  lemma ChainShrinks(top: nat, heap: map<Addr, Node>, chain: seq<Addr>, top': nat)
    requires ChainOk(top, heap, chain) && chain != []
    requires GetPtr(top') == NextInChain(chain, 1)
    ensures ChainOk(top', heap, chain[1..])
    ensures Values(heap, chain[1..]) == Values(heap, chain)[1..]
    ensures chain[0] !in chain[1..]
  {
  }

  lemma StampAdvances(stamp: nat, wins: nat)
    requires stamp == wins % STAMP_SPAN
    ensures (stamp + 1) % STAMP_SPAN == (wins + 1) % STAMP_SPAN
  {
  }

  lemma PushWinStack(top: nat, heap: map<Addr, Node>, chain: seq<Addr>, wins: nat, events: seq<Event>,
                     t: Tid, node: Addr)
    requires StackOk(top, heap, chain, wins, events)
    requires node in heap && node !in chain && heap[node].next == GetPtr(top)
    ensures StackOk(Combine(GetStamp(top) + 1, node), heap, [node] + chain, wins + 1,
                    events + [Pushed(t, heap[node].data)])
  {
    CombineSplits(GetStamp(top) + 1, node);
    StampAdvances(GetStamp(top), wins);
    ChainGrows(top, heap, chain, Combine(GetStamp(top) + 1, node), node);
    ReplaySnoc(events, Pushed(t, heap[node].data));
  }

  lemma PushWinThreads(s: State, t: Tid, node: Addr, was: nat)
    requires ThreadsOk(s) && PcOf(s, t) == PushCas(node, was) && s.top == was
    ensures ThreadsOk(PushExchange(s, t, node, was))
  {
    var s' := PushExchange(s, t, node, was);
    assert ThreadOk(s, t);
    OtherThreads(s, s', t, node);
  }

  /** The other two parts of the invariant for the state after the exchange. */
  lemma PushWinParts(s: State, t: Tid, node: Addr, was: nat)
    requires StackOk(s.top, s.heap, s.h.chain, s.h.wins, s.h.events) && ReturnsOk(s.h) && s.top == was
    requires node in s.heap && node !in s.h.chain && s.heap[node].next == GetPtr(was)
    requires CallOf(s, t).calledAt <= |s.h.events| && CallOf(s, t).asked == ToPush(s.heap[node].data)
    ensures var s' := PushExchange(s, t, node, was);
      && StackOk(s'.top, s'.heap, s'.h.chain, s'.h.wins, s'.h.events)
      && ReturnsOk(s'.h)
  {
    PushWinStack(s.top, s.heap, s.h.chain, s.h.wins, s.h.events, t, node);
    AppendReturned(s, t, Pushed(t, s.heap[node].data));
  }

  lemma PushWinKeepsInv(s: State, t: Tid, node: Addr, was: nat)
    requires Inv(s) && PcOf(s, t) == PushCas(node, was) && s.top == was
    ensures Inv(PushExchange(s, t, node, was))
  {
    assert ThreadOk(s, t);
    PushWinParts(s, t, node, was);
    PushWinThreads(s, t, node, was);
  }

  lemma StampsAgree(seen: nat, wins: nat)
    requires seen <= wins < seen + STAMP_SPAN && seen % STAMP_SPAN == wins % STAMP_SPAN
    ensures seen == wins
  {
  }

  /** Inside the window an equal top word means nothing was won since the read. */
  lemma EqualTopIsUnchanged(s: State, t: Tid)
    requires Inv(s) && PcOf(s, t).PopCas? && InWindow(s, CompareExchange(t))
    requires s.top == PcOf(s, t).was
    ensures CallOf(s, t).seen == s.h.wins
    ensures s.h.chain != [] && GetPtr(s.top) == s.h.chain[0]
    ensures PcOf(s, t).next == NextInChain(s.h.chain, 1)
  {
    assert ThreadOk(s, t);
    StampsAgree(CallOf(s, t).seen, s.h.wins);
  }

  lemma PopWinStack(top: nat, heap: map<Addr, Node>, chain: seq<Addr>, wins: nat, events: seq<Event>, t: Tid)
    requires StackOk(top, heap, chain, wins, events) && chain != []
    ensures StackOk(Combine(GetStamp(top) + 1, NextInChain(chain, 1)), heap, chain[1..], wins + 1,
                    events + [Popped(t, heap[chain[0]].data)])
    ensures chain[0] !in chain[1..]
  {
    CombineSplits(GetStamp(top) + 1, NextInChain(chain, 1));
    StampAdvances(GetStamp(top), wins);
    ChainShrinks(top, heap, chain, Combine(GetStamp(top) + 1, NextInChain(chain, 1)));
    ReplaySnoc(events, Popped(t, heap[chain[0]].data));
  }

  /** The three parts of the invariant for the state after the exchange. */
  lemma PopWinParts(s: State, t: Tid, was: nat, next: nat)
    requires StackOk(s.top, s.heap, s.h.chain, s.h.wins, s.h.events) && ReturnsOk(s.h)
    requires s.top == was && s.h.chain != [] && GetPtr(was) == s.h.chain[0] && next == NextInChain(s.h.chain, 1)
    ensures var s' := PopExchange(s, t, was, next);
      && StackOk(s'.top, s'.heap, s'.h.chain, s'.h.wins, s'.h.events)
      && ReturnsOk(s'.h)
    ensures s.h.chain[0] in s.heap && s.h.chain[0] !in s.h.chain[1..] && 0 !in s.heap
  {
    PopWinStack(s.top, s.heap, s.h.chain, s.h.wins, s.h.events, t);
    AppendPending(s, t, Popped(t, s.heap[GetPtr(was)].data));
  }

  lemma PopWinThreads(s: State, t: Tid, was: nat, next: nat)
    requires ThreadsOk(s) && PcOf(s, t) == PopCas(was, next) && s.top == was
    requires s.h.chain != [] && GetPtr(was) == s.h.chain[0]
    requires s.h.chain[0] in s.heap && s.h.chain[0] !in s.h.chain[1..] && 0 !in s.heap
    requires |s.h.events| !in s.h.pending
    ensures ThreadsOk(PopExchange(s, t, was, next))
  {
    var s' := PopExchange(s, t, was, next);
    assert ThreadOk(s, t);
    OtherThreads(s, s', t, 0);
  }

  lemma PopWinKeepsInv(s: State, t: Tid, was: nat, next: nat)
    requires Inv(s) && PcOf(s, t) == PopCas(was, next) && InWindow(s, CompareExchange(t)) && s.top == was
    ensures Inv(PopExchange(s, t, was, next))
  {
    EqualTopIsUnchanged(s, t);
    PopWinParts(s, t, was, next);
    PopWinThreads(s, t, was, next);
  }

  lemma ExchangeKeepsInv(s: State, t: Tid)
    requires Inv(s) && Enabled(s, CompareExchange(t)) && InWindow(s, CompareExchange(t))
    ensures Inv(DoExchange(s, t))
  {
    assert ThreadOk(s, t);
    match PcOf(s, t)
    case PushCas(node, was) =>
      if s.top == was { PushWinKeepsInv(s, t, node, was); } else { QuietStep(s, DoExchange(s, t), t); }
    case PopCas(was, next) =>
      if s.top == was { PopWinKeepsInv(s, t, was, next); } else { QuietStep(s, DoExchange(s, t), t); }
  }

  lemma StepKeepsInv(s: State, a: Action)
    requires Inv(s) && Enabled(s, a) && InWindow(s, a)
    ensures Inv(Step(s, a))
  {
    match a
    case CallPush(t, v, addr, junk) => CallPushKeepsInv(s, t, v, addr, junk);
    case CallPop(t) => CallPopKeepsInv(s, t);
    case ReadTop(t) => ReadTopKeepsInv(s, t);
    case WriteNext(t) => WriteNextKeepsInv(s, t);
    case ReadNext(t, junk) => ReadNextKeepsInv(s, t, junk);
    case CompareExchange(t) => ExchangeKeepsInv(s, t);
    case ReadData(t, stale) => ReadDataKeepsInv(s, t, stale);
    case Free(t) => FreeKeepsInv(s, t);
  }

  // ------------------------------------------------------------- whole runs

  ghost predicate EnabledRun(s: State, acts: seq<Action>)
    decreases |acts|
  {
    acts == [] || (Enabled(s, acts[0]) && EnabledRun(Step(s, acts[0]), acts[1..]))
  }

  ghost function Final(s: State, acts: seq<Action>): State
    requires EnabledRun(s, acts)
    decreases |acts|
  {
    if acts == [] then s else Final(Step(s, acts[0]), acts[1..])
  }

  ghost predicate WindowedRun(s: State, acts: seq<Action>)
    requires EnabledRun(s, acts)
    decreases |acts|
  {
    acts == [] || (InWindow(s, acts[0]) && WindowedRun(Step(s, acts[0]), acts[1..]))
  }

  lemma {:induction false} RunKeepsInv(s: State, acts: seq<Action>)
    requires Inv(s) && EnabledRun(s, acts) && WindowedRun(s, acts)
    ensures Inv(Final(s, acts))
    decreases |acts|
  {
    if acts != [] {
      StepKeepsInv(s, acts[0]);
      RunKeepsInv(Step(s, acts[0]), acts[1..]);
    }
  }

  /** Linearizability. After any interleaving that respects the window, the nodes
      below the top word hold exactly what a sequential stack holds after the same
      operations; each returned operation took effect once, between its call and its
      return, with the result it returned, a push with the value it was called with; an
      operation that returned before another
      was called precedes it; and nothing else took effect. */
  lemma Linearizable(acts: seq<Action>)
    requires EnabledRun(INITIAL, acts) && WindowedRun(INITIAL, acts)
    ensures var s := Final(INITIAL, acts);
      && ChainOk(s.top, s.heap, s.h.chain)
      && Replay(s.h.events) == Some(Values(s.heap, s.h.chain))
      && (forall k | k in s.h.returned ::
            && s.h.returned[k].calledAt <= k < s.h.returned[k].returnedAt <= |s.h.events|
            && s.h.events[k] == s.h.returned[k].event && AnswersCall(s.h.returned[k]))
      && (forall j, k | j in s.h.returned && k in s.h.returned
            && s.h.returned[j].returnedAt <= s.h.returned[k].calledAt :: j < k)
      && (forall k | 0 <= k < |s.h.events| && k !in s.h.returned ::
            && k in s.h.pending
            && (PcOf(s, s.h.pending[k]).PopWon? || PcOf(s, s.h.pending[k]).PopFree?))
  {
    InitialInv();
    RunKeepsInv(INITIAL, acts);
    var s := Final(INITIAL, acts);
    assert PendingOk(s) && ReturnsOk(s.h);
  }

  /** No node is popped or freed twice: in every reachable state the node a thread
      is about to write, read or delete as its own is live, off the stack, and held by
      no other thread. */
  lemma OwnedNodesAreSafe(acts: seq<Action>, t: Tid, u: Tid)
    requires EnabledRun(INITIAL, acts) && WindowedRun(INITIAL, acts)
    ensures var s := Final(INITIAL, acts);
      HoldsNode(PcOf(s, t)) ==>
        && PcOf(s, t).node in s.heap
        && PcOf(s, t).node !in s.h.chain
        && (u != t && HoldsNode(PcOf(s, u)) ==> PcOf(s, u).node != PcOf(s, t).node)
  {
    InitialInv();
    RunKeepsInv(INITIAL, acts);
    var s := Final(INITIAL, acts);
    assert ThreadsOk(s) && ThreadOk(s, t);
  }
}

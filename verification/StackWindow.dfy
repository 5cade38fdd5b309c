/**
  The bound in LockFreeStack.InWindow is exact: with 2^17 successful exchanges
  between a pop's read of the top and its own exchange, the stamp has come round,
  the exchange succeeds, and it can install a freed node.
*/
module StackWindow {
  import opened LockFreeStack

  lemma {:induction false} RunAppend(s: State, a: seq<Action>, b: seq<Action>)
    requires EnabledRun(s, a) && EnabledRun(Final(s, a), b)
    ensures EnabledRun(s, a + b)
    ensures Final(s, a + b) == Final(Final(s, a), b)
    decreases |a|
  {
    if a == [] {
      assert a + b == b;
    } else {
      RunAppend(Step(s, a[0]), a[1..], b);
      assert (a + b)[1..] == a[1..] + b;
    }
  }

  /** The top word after `wins` exchanges, above `ptr`. */
  function Pack(wins: nat, ptr: nat): nat { Combine(wins, ptr) }

  lemma PackNext(wins: nat, ptr: nat, next: nat)
    requires ptr < POINTER_SPAN && next < POINTER_SPAN
    ensures GetPtr(Pack(wins, ptr)) == ptr
    ensures Combine(GetStamp(Pack(wins, ptr)) + 1, next) == Pack(wins + 1, next)
  {
    CombineSplits(wins, ptr);
    StampAdvances(GetStamp(Pack(wins, ptr)), wins);
  }

  /** What the construction tracks of a state: the top, the heap, and one stalled thread. */
  ghost predicate Shape(s: State, wins: nat, ptr: Addr, heap: map<Addr, Node>, stalled: Pc, seen: nat) {
    && s.h.wins == wins && s.top == Pack(wins, ptr) && s.heap == heap
    && PcOf(s, 0) == stalled && CallOf(s, 0).seen == seen
    && PcOf(s, 1).Idle?
  }

  lemma RunSnoc(s: State, acts: seq<Action>, a: Action)
    requires EnabledRun(s, acts) && Enabled(Final(s, acts), a)
    ensures EnabledRun(s, acts + [a]) && Final(s, acts + [a]) == Step(Final(s, acts), a)
  {
    var s' := Final(s, acts);
    assert [a][1..] == [];
    assert EnabledRun(Step(s', a), []) && Final(Step(s', a), []) == Step(s', a);
    RunAppend(s, acts, [a]);
  }

  /** Thread 1 runs `Push` alone. */
  lemma SoloPush(s: State, wins: nat, ptr: Addr, heap: map<Addr, Node>, stalled: Pc, seen: nat, addr: Addr)
    returns (acts: seq<Action>)
    requires Shape(s, wins, ptr, heap, stalled, seen) && ptr < POINTER_SPAN
    requires addr !in heap && 0 < addr < POINTER_SPAN
    ensures EnabledRun(s, acts)
    ensures Shape(Final(s, acts), wins + 1, addr, heap[addr := Node(0, ptr)], stalled, seen)
  {
    PackNext(wins, ptr, addr);
    acts := [];
    RunSnoc(s, acts, CallPush(1, 0, addr, 0));
    acts := acts + [CallPush(1, 0, addr, 0)];
    RunSnoc(s, acts, ReadTop(1));
    acts := acts + [ReadTop(1)];
    assert PcOf(Final(s, acts), 1) == PushRead(addr, s.top);
    RunSnoc(s, acts, WriteNext(1));
    acts := acts + [WriteNext(1)];
    assert PcOf(Final(s, acts), 1) == PushCas(addr, s.top) && Final(s, acts).heap == heap[addr := Node(0, ptr)];
    RunSnoc(s, acts, CompareExchange(1));
    acts := acts + [CompareExchange(1)];
  }

  /** Thread 1 runs `Pop` alone. */
  lemma SoloPop(s: State, wins: nat, ptr: Addr, heap: map<Addr, Node>, stalled: Pc, seen: nat)
    returns (acts: seq<Action>)
    requires Shape(s, wins, ptr, heap, stalled, seen) && 0 < ptr < POINTER_SPAN
    requires ptr in heap && heap[ptr].next < POINTER_SPAN
    ensures EnabledRun(s, acts)
    ensures Shape(Final(s, acts), wins + 1, heap[ptr].next, heap - {ptr}, stalled, seen)
  {
    PackNext(wins, ptr, heap[ptr].next);
    acts := [];
    RunSnoc(s, acts, CallPop(1));
    acts := acts + [CallPop(1)];
    RunSnoc(s, acts, ReadTop(1));
    acts := acts + [ReadTop(1)];
    assert PcOf(Final(s, acts), 1) == PopRead(s.top);
    RunSnoc(s, acts, ReadNext(1, 0));
    acts := acts + [ReadNext(1, 0)];
    assert PcOf(Final(s, acts), 1) == PopCas(s.top, heap[ptr].next);
    RunSnoc(s, acts, CompareExchange(1));
    acts := acts + [CompareExchange(1)];
    assert PcOf(Final(s, acts), 1) == PopWon(ptr) && Final(s, acts).heap == heap;
    RunSnoc(s, acts, ReadData(1, 0));
    acts := acts + [ReadData(1, 0)];
    RunSnoc(s, acts, Free(1));
    acts := acts + [Free(1)];
  }

  /** Thread 1 pushes and pops a spare node: two exchanges, and all as before. */
  lemma SpareRound(s: State, wins: nat, ptr: Addr, heap: map<Addr, Node>,
                                       stalled: Pc, seen: nat, spare: Addr)
    returns (acts: seq<Action>)
    requires Shape(s, wins, ptr, heap, stalled, seen) && ptr < POINTER_SPAN
    requires spare !in heap && 0 < spare < POINTER_SPAN
    ensures EnabledRun(s, acts)
    ensures Shape(Final(s, acts), wins + 2, ptr, heap, stalled, seen)
  {
    var heap1 := heap[spare := Node(0, ptr)];
    var push := SoloPush(s, wins, ptr, heap, stalled, seen, spare);
    var pop := SoloPop(Final(s, push), wins + 1, spare, heap1, stalled, seen);
    RunAppend(s, push, pop);
    assert heap1 - {spare} == heap;
    acts := push + pop;
  }

  /** `n` rounds of pushing and popping a spare node advance the stamp by 2n. */
  lemma {:induction false} SpareRounds(s: State, n: nat, wins: nat, ptr: Addr, heap: map<Addr, Node>,
                                       stalled: Pc, seen: nat, spare: Addr)
    returns (acts: seq<Action>)
    requires Shape(s, wins, ptr, heap, stalled, seen) && ptr < POINTER_SPAN
    requires spare !in heap && 0 < spare < POINTER_SPAN
    ensures EnabledRun(s, acts)
    ensures Shape(Final(s, acts), wins + 2 * n, ptr, heap, stalled, seen)
    decreases n
  {
    acts := [];
    if n > 0 {
      var round := SpareRound(s, wins, ptr, heap, stalled, seen, spare);
      var rest := SpareRounds(Final(s, round), n - 1, wins + 2, ptr, heap, stalled, seen, spare);
      RunAppend(s, round, rest);
      acts := round + rest;
    }
  }

  /** Thread 0 starts `Pop` on the stack 1 -> 2 and stalls before its exchange. */
  lemma StalledPop() returns (acts: seq<Action>)
    ensures EnabledRun(INITIAL, acts)
    ensures Shape(Final(INITIAL, acts), 2, 1, map[2 := Node(0, 0), 1 := Node(0, 2)], PopCas(Pack(2, 1), 2), 2)
  {
    assert Pack(0, 0) == 0;
    var push2 := SoloPush(INITIAL, 0, 0, map[], Idle, 0, 2);
    var push1 := SoloPush(Final(INITIAL, push2), 1, 2, map[2 := Node(0, 0)], Idle, 0, 1);
    acts := push2 + push1;
    RunAppend(INITIAL, push2, push1);
    var s := Final(INITIAL, acts);
    PackNext(2, 1, 2);
    RunSnoc(INITIAL, acts, CallPop(0));
    acts := acts + [CallPop(0)];
    RunSnoc(INITIAL, acts, ReadTop(0));
    acts := acts + [ReadTop(0)];
    assert PcOf(Final(INITIAL, acts), 0) == PopRead(s.top);
    RunSnoc(INITIAL, acts, ReadNext(0, 0));
    acts := acts + [ReadNext(0, 0)];
  }

  /** Meanwhile thread 1 frees both nodes, reuses address 1 above a new node 3, and
      turns the stamp all the way round. */
  lemma StampComesRound(s: State, stalled: Pc) returns (acts: seq<Action>)
    requires Shape(s, 2, 1, map[2 := Node(0, 0), 1 := Node(0, 2)], stalled, 2)
    ensures EnabledRun(s, acts)
    ensures Shape(Final(s, acts), 2 + STAMP_SPAN, 1, map[3 := Node(0, 0), 1 := Node(0, 3)], stalled, 2)
  {
    var both := map[2 := Node(0, 0), 1 := Node(0, 2)];
    var pop1 := SoloPop(s, 2, 1, both, stalled, 2);
    assert both - {1} == map[2 := Node(0, 0)];
    var s1 := Final(s, pop1);
    var pop2 := SoloPop(s1, 3, 2, map[2 := Node(0, 0)], stalled, 2);
    assert map[2 := Node(0, 0)] - {2} == map[];
    RunAppend(s, pop1, pop2);
    var s2 := Final(s1, pop2);
    var push3 := SoloPush(s2, 4, 0, map[], stalled, 2, 3);
    RunAppend(s, pop1 + pop2, push3);
    var s3 := Final(s2, push3);
    var push1 := SoloPush(s3, 5, 3, map[3 := Node(0, 0)], stalled, 2, 1);
    RunAppend(s, pop1 + pop2 + push3, push1);
    var s4 := Final(s3, push1);
    var n := STAMP_SPAN / 2 - 2;
    var spare := SpareRounds(s4, n, 6, 1, map[3 := Node(0, 0), 1 := Node(0, 3)], stalled, 2, 4);
    RunAppend(s, pop1 + pop2 + push3 + push1, spare);
    acts := pop1 + pop2 + push3 + push1 + spare;
  }

  /** With exactly 2^17 successful exchanges in between, the stalled pop's exchange
      succeeds and leaves the top word pointing at a freed node. */
  lemma WindowIsTight() returns (acts: seq<Action>)
    ensures EnabledRun(INITIAL, acts)
    ensures var s := Final(INITIAL, acts);
      && Enabled(s, CompareExchange(0)) && PcOf(s, 0).PopCas?
      && s.h.wins == CallOf(s, 0).seen + STAMP_SPAN
      && s.top == PcOf(s, 0).was
      && var s' := Step(s, CompareExchange(0));
         s'.h.wins == s.h.wins + 1 && GetPtr(s'.top) != 0 && GetPtr(s'.top) !in s'.heap
  {
    var stall := StalledPop();
    var s := Final(INITIAL, stall);
    var round := StampComesRound(s, PopCas(Pack(2, 1), 2));
    acts := stall + round;
    RunAppend(INITIAL, stall, round);
    CombineSplits(2, 1);
    PackNext(2 + STAMP_SPAN, 1, 2);
    CombineSplits(3 + STAMP_SPAN, 2);
  }
}

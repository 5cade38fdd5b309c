/** No node of the stack (myIOCP/CLockFreeStack.h) is ever lost: what is not on the stack or in
    a thread's hands has been deleted. */
module StackLeaks {
  import opened LockFreeStack

  ghost predicate InSomeHand(s: State, a: Addr) {
    exists t: Tid :: HoldsNode(PcOf(s, t)) && PcOf(s, t).node == a
  }

  ghost predicate NoneLost(s: State) {
    forall a | a in s.heap :: a in s.h.chain || InSomeHand(s, a)
  }

  lemma OthersHold(s: State, act: Action, t: Tid)
    requires Enabled(s, act) && t != act.tid
    ensures PcOf(Step(s, act), t) == PcOf(s, t)
  {
  }

  /** What the acting thread may drop, it puts on the stack or deletes; what comes off the stack
      it holds. */
  lemma OwnStep(s: State, act: Action)
    requires Inv(s) && Enabled(s, act) && InWindow(s, act)
    ensures var s', pc, pc' := Step(s, act), PcOf(s, act.tid), PcOf(Step(s, act), act.tid);
      && (HoldsNode(pc) && pc.node in s'.heap ==>
            pc.node in s'.h.chain || (HoldsNode(pc') && pc'.node == pc.node))
      && (forall a | a in s.h.chain && a in s'.heap :: a in s'.h.chain || (HoldsNode(pc') && pc'.node == a))
      && (forall a | a in s'.heap && a !in s.heap :: HoldsNode(pc') && pc'.node == a)
  {
    var t := act.tid;
    assert ThreadOk(s, t);
    if act.CompareExchange? && PcOf(s, t).PopCas? && s.top == PcOf(s, t).was { EqualTopIsUnchanged(s, t); }
  }

  lemma StepLosesNone(s: State, act: Action)
    requires Inv(s) && NoneLost(s) && Enabled(s, act) && InWindow(s, act)
    ensures NoneLost(Step(s, act))
  {
    var s', t := Step(s, act), act.tid;
    OwnStep(s, act);
    forall a | a in s'.heap ensures a in s'.h.chain || InSomeHand(s', a) {
      if a in s.heap && a !in s.h.chain {
        var u: Tid :| HoldsNode(PcOf(s, u)) && PcOf(s, u).node == a;
        if u != t { OthersHold(s, act, u); }
      }
    }
  }

  lemma {:induction false} RunLosesNone(s: State, acts: seq<Action>)
    requires Inv(s) && NoneLost(s) && EnabledRun(s, acts) && WindowedRun(s, acts)
    ensures NoneLost(Final(s, acts))
    decreases |acts|
  {
    if acts != [] {
      StepLosesNone(s, acts[0]);
      StepKeepsInv(s, acts[0]);
      RunLosesNone(Step(s, acts[0]), acts[1..]);
    }
  }

  /** With no call under way the nodes that exist are exactly those on the stack. */
  lemma NothingLeaks(acts: seq<Action>)
    requires EnabledRun(INITIAL, acts) && WindowedRun(INITIAL, acts)
    requires forall t: Tid :: PcOf(Final(INITIAL, acts), t).Idle?
    ensures forall a: Addr :: a in Final(INITIAL, acts).heap <==> a in Final(INITIAL, acts).h.chain
  {
    InitialInv();
    RunKeepsInv(INITIAL, acts);
    RunLosesNone(INITIAL, acts);
    var s := Final(INITIAL, acts);
    forall a | a in s.h.chain ensures a in s.heap {
      var i :| 0 <= i < |s.h.chain| && s.h.chain[i] == a;
    }
  }
}

/**
  What becomes of every SendPacket of one session (myIOCP/CLanServer.cpp), under any
  interleaving: its packet is accepted, unless the session is closed or about to be. And
  what becomes of every batch: it is released before sendPkts is used again.
*/
module SendOutcomes {
  import opened SendHandshake
  import opened LateEnqueues

  /** SendPacket has neither enqueued its packet nor given up. */
  predicate Sending(pc: Pc) {
    pc.SendCheck? || pc.SendEnter? || pc.SendBody?
  }

  /** `who` are the threads with a send under way, and `pkts` their packets. */
  ghost predicate Senders(s: State, who: seq<Tid>, pkts: seq<Packet>) {
    && |pkts| == |who|
    && (forall t: Tid | Sending(PcOf(s, t)) :: t in who)
    && (forall i | 0 <= i < |who| :: Sending(PcOf(s, who[i])) && PcOf(s, who[i]).pkt == pkts[i])
    && (forall i, j | 0 <= i < j < |who| :: who[i] != who[j])
  }

  /** The packets SendPacket has been called with. */
  function Called(acts: seq<Action>): multiset<Packet> {
    if acts == [] then multiset{}
    else Calls(acts[0]) + Called(acts[1..])
  }

  function Calls(a: Action): multiset<Packet> {
    if a.CallSend? then multiset{a.pkt} else multiset{}
  }

  /** Closed, or a thread is about to close it. */
  ghost predicate Closing(s: State) {
    s.closed || SomeoneCloses(s)
  }

  /** Everything called for is accepted, under way, or refused by a session that is closing. */
  ghost predicate Accounted(s: State, called: multiset<Packet>, who: seq<Tid>, pkts: seq<Packet>,
                            refused: multiset<Packet>) {
    && Senders(s, who, pkts)
    && called == multiset(s.h.accepted) + multiset(pkts) + refused
    && (refused != multiset{} ==> Closing(s))
  }

  lemma StaysClosing(s: State, a: Action)
    requires Enabled(s, a) && Closing(s)
    ensures Closing(Step(s, a))
  {
    OthersStillCheck(s, a);
  }

  /** A send begins. */
  lemma SenderComes(s: State, a: Action, who: seq<Tid>, pkts: seq<Packet>)
    requires Senders(s, who, pkts) && Enabled(s, a) && a.CallSend?
    ensures Senders(Step(s, a), who + [a.tid], pkts + [a.pkt])
  {
    forall t: Tid | t != a.tid ensures PcOf(Step(s, a), t) == PcOf(s, t) { OthersStay(s, a, t); }
  }

  /** A step that begins and ends no send. */
  lemma SendersStay(s: State, a: Action, who: seq<Tid>, pkts: seq<Packet>)
    requires Senders(s, who, pkts) && Enabled(s, a)
    requires var pc, pc' := PcOf(s, a.tid), PcOf(Step(s, a), a.tid);
      (Sending(pc) <==> Sending(pc')) && (Sending(pc) ==> pc'.pkt == pc.pkt)
    ensures Senders(Step(s, a), who, pkts)
  {
    forall t: Tid | t != a.tid ensures PcOf(Step(s, a), t) == PcOf(s, t) { OthersStay(s, a, t); }
  }

  function Without<T>(xs: seq<T>, k: nat): seq<T>
    requires k < |xs|
  {
    xs[..k] + xs[k + 1..]
  }

  /** A send ends. */
  lemma SenderGoes(s: State, a: Action, who: seq<Tid>, pkts: seq<Packet>, k: nat)
    requires Senders(s, who, pkts) && Enabled(s, a) && k < |who| && who[k] == a.tid
    requires !Sending(PcOf(Step(s, a), a.tid))
    ensures Senders(Step(s, a), Without(who, k), Without(pkts, k))
    ensures multiset(pkts) == multiset(Without(pkts, k)) + multiset{pkts[k]}
  {
    var s', rest := Step(s, a), Without(who, k);
    forall t: Tid | t != a.tid ensures PcOf(s', t) == PcOf(s, t) { OthersStay(s, a, t); }
    OneOut(pkts, k);
    forall t: Tid | Sending(PcOf(s', t)) ensures t in rest {
      var i :| 0 <= i < |who| && who[i] == t;
      Moved(who, k, if i < k then i else i - 1);
    }
    forall i | 0 <= i < |rest| ensures Sending(PcOf(s', rest[i])) && PcOf(s', rest[i]).pkt == Without(pkts, k)[i] {
      Moved(who, k, i);
      Moved(pkts, k, i);
    }
  }

  lemma Moved<T>(xs: seq<T>, k: nat, i: nat)
    requires k < |xs| && i < |xs| - 1
    ensures Without(xs, k)[i] == xs[if i < k then i else i + 1]
  {
  }

  lemma OneOut(pkts: seq<Packet>, k: nat)
    requires k < |pkts|
    ensures multiset(pkts) == multiset(Without(pkts, k)) + multiset{pkts[k]}
  {
    assert pkts == pkts[..k] + [pkts[k]] + pkts[k + 1..];
  }

  /** How a send ends: accepted, or refused by a session that is closing. */
  lemma SendEnds(s: State, a: Action)
    requires Enabled(s, a) && Sending(PcOf(s, a.tid)) && !Sending(PcOf(Step(s, a), a.tid))
    ensures var s' := Step(s, a);
      || s'.h.accepted == s.h.accepted + [PcOf(s, a.tid).pkt]
      || (s'.h.accepted == s.h.accepted && Closing(s'))
  {
  }

  /** Only the end of a send accepts anything. */
  lemma NothingElseAccepts(s: State, a: Action)
    requires Enabled(s, a) && (Sending(PcOf(s, a.tid)) ==> Sending(PcOf(Step(s, a), a.tid)))
    ensures Step(s, a).h.accepted == s.h.accepted
    ensures Sending(PcOf(s, a.tid)) ==> PcOf(Step(s, a), a.tid).pkt == PcOf(s, a.tid).pkt
    ensures Sending(PcOf(Step(s, a), a.tid)) ==> Sending(PcOf(s, a.tid)) || a.CallSend?
  {
    if a.Go? {
      match PcOf(s, a.tid)
      case SendBody(_) =>
      case FlushTake(_) =>
      case _ =>
    }
  }

  lemma EndAccounts(s: State, a: Action, called: multiset<Packet>, who: seq<Tid>, pkts: seq<Packet>,
                    refused: multiset<Packet>, k: nat)
    returns (refused': multiset<Packet>)
    requires Enabled(s, a) && Accounted(s, called, who, pkts, refused) && k < |who| && who[k] == a.tid
    requires !Sending(PcOf(Step(s, a), a.tid))
    ensures Accounted(Step(s, a), called, Without(who, k), Without(pkts, k), refused')
  {
    SenderGoes(s, a, who, pkts, k);
    SendEnds(s, a);
    if refused != multiset{} { StaysClosing(s, a); }
    refused' := if Step(s, a).h.accepted == s.h.accepted then refused + multiset{pkts[k]} else refused;
  }

  lemma StepAccounts(s: State, a: Action, called: multiset<Packet>, who: seq<Tid>, pkts: seq<Packet>,
                     refused: multiset<Packet>)
    returns (who': seq<Tid>, pkts': seq<Packet>, refused': multiset<Packet>)
    requires Enabled(s, a) && Accounted(s, called, who, pkts, refused)
    ensures Accounted(Step(s, a), called + Calls(a), who', pkts', refused')
  {
    who', pkts', refused' := who, pkts, refused;
    if refused != multiset{} { StaysClosing(s, a); }
    if a.CallSend? {
      NothingElseAccepts(s, a);
      SenderComes(s, a, who, pkts);
      who', pkts' := who + [a.tid], pkts + [a.pkt];
    } else if Sending(PcOf(s, a.tid)) && !Sending(PcOf(Step(s, a), a.tid)) {
      var k :| 0 <= k < |who| && who[k] == a.tid;
      refused' := EndAccounts(s, a, called, who, pkts, refused, k);
      who', pkts' := Without(who, k), Without(pkts, k);
    } else {
      NothingElseAccepts(s, a);
      SendersStay(s, a, who, pkts);
    }
  }

  lemma {:induction false} RunAccounts(s: State, acts: seq<Action>, called: multiset<Packet>, who: seq<Tid>,
                                       pkts: seq<Packet>, refused: multiset<Packet>)
    returns (who': seq<Tid>, pkts': seq<Packet>, refused': multiset<Packet>)
    requires EnabledRun(s, acts) && Accounted(s, called, who, pkts, refused)
    ensures Accounted(Final(s, acts), called + Called(acts), who', pkts', refused')
    decreases |acts|
  {
    if acts == [] {
      who', pkts', refused' := who, pkts, refused;
    } else {
      var who1, pkts1, refused1 := StepAccounts(s, acts[0], called, who, pkts, refused);
      who', pkts', refused' := RunAccounts(Step(s, acts[0]), acts[1..], called + Calls(acts[0]), who1, pkts1, refused1);
      assert called + Calls(acts[0]) + Called(acts[1..]) == called + Called(acts);
    }
  }

  /** Every packet SendPacket has been called with is accepted, or its send is still under way,
      or it has been refused; and none is refused while the session is open and nobody is about
      to close it. */
  lemma EverySendCounts(acts: seq<Action>)
    returns (who: seq<Tid>, pkts: seq<Packet>, refused: multiset<Packet>)
    requires EnabledRun(OPENED, acts)
    ensures var s := Final(OPENED, acts);
      && Senders(s, who, pkts)
      && Called(acts) == multiset(s.h.accepted) + multiset(pkts) + refused
      && (!Closing(s) ==> refused == multiset{})
  {
    assert Accounted(OPENED, multiset{}, [], [], multiset{});
    who, pkts, refused := RunAccounts(OPENED, acts, multiset{}, [], [], multiset{});
    assert multiset{} + Called(acts) == Called(acts);
  }

  /** So an open session that has fallen silent has posted exactly the packets SendPacket was
      called with. */
  lemma SilentMeansSent(acts: seq<Action>)
    requires EnabledRun(OPENED, acts) && Silent(Final(OPENED, acts)) && !Final(OPENED, acts).closed
    ensures multiset(Final(OPENED, acts).h.posted) == Called(acts)
  {
    QuietMeansPosted(acts);
    var who, pkts, refused := EverySendCounts(acts);
    if who != [] { SenderIsBusy(Final(OPENED, acts), who, pkts); }
  }

  lemma SenderIsBusy(s: State, who: seq<Tid>, pkts: seq<Packet>)
    requires Senders(s, who, pkts) && who != []
    ensures exists t: Tid :: !PcOf(s, t).Idle?
  {
    assert Sending(PcOf(s, who[0]));
  }

  // -------------------------------------------------------------- batches

  /** sendPkts is empty whenever nobody owns it, before a batch is taken, and once it has been
      released. */
  ghost predicate BatchOk(s: State) {
    && (s.h.token == Free ==> s.sent == [])
    && forall t: Tid | PcOf(s, t).FlushTake? || PcOf(s, t).FlushClear? || PcOf(s, t).DoneClear? :: s.sent == []
  }

  lemma OwnBatch(s: State, a: Action)
    requires TokenOk(s) && BatchOk(s) && Enabled(s, a)
    ensures var s', pc := Step(s, a), PcOf(Step(s, a), a.tid);
      && (s'.h.token == Free ==> s'.sent == [])
      && (pc.FlushTake? || pc.FlushClear? || pc.DoneClear? ==> s'.sent == [])
      && (s'.sent == s.sent || s.h.token == Thread(a.tid))
  {
    assert Owns(PcOf(s, a.tid)) <==> s.h.token == Thread(a.tid);
  }

  lemma StepKeepsBatch(s: State, a: Action)
    requires TokenOk(s) && BatchOk(s) && Enabled(s, a)
    ensures BatchOk(Step(s, a))
  {
    var s' := Step(s, a);
    OwnBatch(s, a);
    forall t: Tid | t != a.tid && (PcOf(s', t).FlushTake? || PcOf(s', t).FlushClear? || PcOf(s', t).DoneClear?)
      ensures s'.sent == []
    {
      OthersStay(s, a, t);
      assert Owns(PcOf(s, t)) <==> s.h.token == Thread(t);
    }
  }

  lemma {:induction false} RunKeepsBatch(s: State, acts: seq<Action>)
    requires Inv(s) && BatchOk(s) && EnabledRun(s, acts)
    ensures BatchOk(Final(s, acts))
    decreases |acts|
  {
    if acts != [] {
      StepKeepsBatch(s, acts[0]);
      StepKeepsInv(s, acts[0]);
      RunKeepsBatch(Step(s, acts[0]), acts[1..]);
    }
  }

  /** No batch is taken over another one: when a thread is about to move the queue into sendPkts,
      the previous batch has been released, and whenever sendPending is clear there is none. */
  lemma BatchesAreReleased(acts: seq<Action>, t: Tid)
    requires EnabledRun(OPENED, acts)
    ensures var s := Final(OPENED, acts); PcOf(s, t).FlushTake? || !s.pending ==> s.sent == []
  {
    OpenedInv();
    RunKeepsInv(OPENED, acts);
    RunKeepsBatch(OPENED, acts);
  }
}

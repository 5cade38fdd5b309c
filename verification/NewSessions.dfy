/**
  What becomes of an accepted connection (AcceptThread in myIOCP/CLanServer.cpp), in every
  reachable state, and that no identifier is issued twice.
*/
module NewSessions {
  import opened SessionId
  import opened Engine
  import opened EngineRefs
  import opened EngineMessages
  import opened EngineRuns
  import opened EngineTheorems

  /** A slot is free, and the one on top of the pool has been used fewer than 2^31 - 1 times. */
  ghost predicate Vacancy(s: Srv) {
    s.indexPool != [] && s.indexPool[0] < |s.slots| && s.indexPool[0] < 0xFFFF
    && 0 <= s.slots[s.indexPool[0]].generation < MAX_LONG
  }

  /** The identifier the next connection gets. */
  ghost function NextSid(s: Srv): SessionID
    requires Vacancy(s)
  {
    MakeSid(s.indexPool[0], s.slots[s.indexPool[0]].generation + 1)
  }

  /** The slot carries the new identifier, and no other slot has changed. */
  ghost predicate Renamed(s: Srv, s': Srv)
    requires Vacancy(s)
  {
    var i := s.indexPool[0];
    && |s'.slots| == |s.slots| && (forall j | 0 <= j < |s.slots| && j != i :: s'.slots[j] == s.slots[j])
    && s'.slots[i].sid == NextSid(s) && s'.slots[i].generation == s.slots[i].generation + 1
    && s'.slots[i].queue == [] && !s'.slots[i].pending && s'.slots[i].log.accepted == [] && s'.packets == s.packets
  }

  /** A session is open, has joined, and waits for its first receive. */
  ghost predicate Served(s: Srv, s': Srv)
    requires Vacancy(s)
  {
    var i := s.indexPool[0];
    && Renamed(s, s') && Open(s'.slots[i])
    && s'.indexPool == s.indexPool[1..] && s'.contentQ == s.contentQ + [Join(NextSid(s))]
    && s'.net == s.net + multiset{Op(i, s.slots[i].generation + 1, Recv)}
  }

  /** Nothing is outstanding, the slot is back on top of the pool, and the content layer hears
      of no session that stays. */
  ghost predicate TurnedAway(s: Srv, s': Srv, associated: bool)
    requires Vacancy(s)
  {
    && Renamed(s, s') && s'.slots[s.indexPool[0]].closed
    && s'.indexPool == s.indexPool && s'.net == s.net
    && s'.contentQ == s.contentQ + (if associated then [Join(NextSid(s))] else []) + [Leave(NextSid(s))]
  }

  /** The first receive of a newcomer fails. */
  lemma TurnsAway(s: Srv, i: nat)
    requires i < |s.slots| && Open(s.slots[i]) && s.slots[i].ioRef == 1 && s.slots[i].queue == []
    ensures var s' := PostRecv(s, i, false);
      && |s'.slots| == |s.slots| && (forall j | 0 <= j < |s.slots| && j != i :: s'.slots[j] == s.slots[j])
      && s'.slots[i].closed && s'.slots[i].sid == s.slots[i].sid && s'.slots[i].generation == s.slots[i].generation
      && s'.slots[i].queue == [] && s'.slots[i].pending == s.slots[i].pending && s'.packets == s.packets
      && s'.slots[i].log.accepted == s.slots[i].log.accepted
      && s'.indexPool == [i] + s.indexPool && s'.net == s.net
      && s'.contentQ == s.contentQ + [Leave(s.slots[i].sid)]
  {
  }

  lemma Initialises(s: Srv)
    requires RefsSettled(s) && Shaped(s) && Vacancy(s)
    ensures var i, s1 := s.indexPool[0], Initialised(s);
      && Renamed(s, s1) && Open(s1.slots[i]) && s1.slots[i].ioRef == 1
      && s1.indexPool == s.indexPool[1..] && [i] + s1.indexPool == s.indexPool
      && s1.contentQ == s.contentQ && s1.net == s.net
  {
    var i := s.indexPool[0];
    assert i in s.indexPool;
    assert SlotOk(s.slots[i], i, Recvs(s, i), Sends(s, i), SETTLED);
  }

  lemma AcceptServes(s: Srv, ok: bool)
    requires RefsSettled(s) && Shaped(s) && Vacancy(s)
    ensures var s' := Accept(s, true, ok); if ok then Served(s, s') else TurnedAway(s, s', true)
  {
    var i, s1 := s.indexPool[0], Initialised(s);
    Initialises(s);
    if !ok { TurnsAway(s1.(contentQ := s1.contentQ + [Join(s1.slots[i].sid)]), i); }
  }

  /** The completion port refuses the socket. */
  lemma AcceptRefuses(s: Srv, ok: bool)
    requires RefsSettled(s) && Shaped(s) && Vacancy(s)
    ensures TurnedAway(s, Accept(s, false, ok), false)
  {
    Initialises(s);
  }

  lemma IssuedBefore(s: Srv, i: nat, g: int)
    requires i < |s.slots| && i < 0xFFFF && 0 < g <= MAX_LONG && Issued(s, MakeSid(i, g))
    ensures g <= s.slots[i].generation
  {
    var j: nat, h: int :|
      j < |s.slots| && j < 0xFFFF && 0 < h <= s.slots[j].generation <= MAX_LONG && MakeSid(i, g) == MakeSid(j, h);
    SidsDistinct(i, g, j, h);
  }

  /** The next identifier has never been issued. */
  lemma NextIsFresh(s: Srv)
    requires RefsSettled(s) && Vacancy(s)
    ensures !Issued(s, NextSid(s))
  {
    if Issued(s, NextSid(s)) { IssuedBefore(s, s.indexPool[0], s.slots[s.indexPool[0]].generation + 1); }
  }

  lemma RenamedIssues(s: Srv, s': Srv)
    requires Vacancy(s) && Renamed(s, s')
    ensures Issued(s', NextSid(s))
  {
  }

  /** A connection is refused exactly when every slot is in use, and that changes nothing.
      Otherwise the slot on top of the pool gets an identifier never issued before; the session
      is open and has joined if port and first receive take it, and the slot is back in the
      pool, nothing outstanding, if one of them does not. */
  lemma ConnectionsAreTaken(n: nat, acts: seq<Action>, associated: bool, ok: bool)
    requires n <= 0xFFFF && EnabledRun(Start(n), acts)
    ensures var s := Final(Start(n), acts).srv;
      && Shaped(s)
      && (s.indexPool == [] <==> forall i | 0 <= i < |s.slots| :: s.slots[i].ioRef != 0)
      && (s.indexPool == [] ==> Accept(s, associated, ok) == s)
      && (s.indexPool != [] ==> s.indexPool[0] < |s.slots|)
      && (Vacancy(s) <==> s.indexPool != [] && s.slots[s.indexPool[0]].generation < MAX_LONG)
      && (Vacancy(s) ==>
            var s' := Accept(s, associated, ok);
            && !Issued(s, NextSid(s)) && Issued(s', NextSid(s))
            && if associated && ok then Served(s, s') else TurnedAway(s, s', associated))
  {
    ReachableInv(n, acts);
    var s := Final(Start(n), acts).srv;
    PoolSays(s);
    if Vacancy(s) { VacancyIsFilled(s, associated, ok); }
  }

  lemma PoolSays(s: Srv)
    requires RefsSettled(s)
    ensures Shaped(s) && (s.indexPool != [] ==> s.indexPool[0] < |s.slots|)
    ensures s.indexPool == [] <==> forall i | 0 <= i < |s.slots| :: s.slots[i].ioRef != 0
    ensures Vacancy(s) <==> s.indexPool != [] && s.slots[s.indexPool[0]].generation < MAX_LONG
  {
    SettledShaped(s);
    if s.indexPool != [] {
      var i := s.indexPool[0];
      assert i in s.indexPool;
      assert SlotOk(s.slots[i], i, Recvs(s, i), Sends(s, i), SETTLED);
    }
  }

  lemma VacancyIsFilled(s: Srv, associated: bool, ok: bool)
    requires RefsSettled(s) && Shaped(s) && Vacancy(s)
    ensures var s' := Accept(s, associated, ok);
      && !Issued(s, NextSid(s)) && Issued(s', NextSid(s))
      && if associated && ok then Served(s, s') else TurnedAway(s, s', associated)
  {
    if associated { AcceptServes(s, ok); } else { AcceptRefuses(s, ok); }
    NextIsFresh(s);
    RenamedIssues(s, Accept(s, associated, ok));
  }

  /** No identifier is issued twice, whatever happens between two connections. */
  lemma NoIdentifierTwice(n: nat, before: seq<Action>, first: Action, between: seq<Action>)
    requires n <= 0xFFFF && EnabledRun(Start(n), before) && first.Connect?
    requires Vacancy(Final(Start(n), before).srv) && Enabled(Final(Start(n), before), first)
    requires EnabledRun(Step(Final(Start(n), before), first), between)
    requires Vacancy(Final(Step(Final(Start(n), before), first), between).srv)
    ensures NextSid(Final(Start(n), before).srv) != NextSid(Final(Step(Final(Start(n), before), first), between).srv)
  {
    ReachableInv(n, before);
    IssuedOnce(Final(Start(n), before), first, between);
  }

  lemma IssuedOnce(s: Sys, first: Action, between: seq<Action>)
    requires Inv(s) && first.Connect? && Vacancy(s.srv) && Enabled(s, first)
    requires EnabledRun(Step(s, first), between) && Vacancy(Final(Step(s, first), between).srv)
    ensures NextSid(s.srv) != NextSid(Final(Step(s, first), between).srv)
  {
    ConnectIssues(s, first);
    StepKeepsInv(s, first);
    StaysIssued(Step(s, first), between, NextSid(s.srv));
  }

  lemma ConnectIssues(s: Sys, a: Action)
    requires Inv(s) && a.Connect? && Vacancy(s.srv) && Enabled(s, a)
    ensures Issued(Step(s, a).srv, NextSid(s.srv))
  {
    VacancyIsFilled(s.srv, a.associated, a.ok);
  }

  lemma StaysIssued(s: Sys, acts: seq<Action>, sid: SessionID)
    requires Inv(s) && EnabledRun(s, acts) && Issued(s.srv, sid) && Vacancy(Final(s, acts).srv)
    ensures NextSid(Final(s, acts).srv) != sid
  {
    RunKeepsInv(s, acts);
    RunAges(s, acts);
    IssuedLasts(s.srv, Final(s, acts).srv, sid);
    NextIsFresh(Final(s, acts).srv);
  }
}

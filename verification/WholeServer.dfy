/**
  Engine, content layer and database worker together, over whole runs: the Update thread
  turns the engine's messages and the worker's results into the events of ChatRooms.
*/
module WholeServer {
  import opened SessionId
  import opened PacketPool
  import opened Engine
  import opened EngineRefs
  import opened EnginePlayers
  import opened EngineMessages
  import R = EngineRuns
  import C = ChatRooms
  import P = DbPipeline
  import L = EngineLifetimes
  import ChatServer

  datatype World = World(sys: R.Sys, chat: C.Chat, pipe: P.Pipe)

  datatype Act =
    | Run(a: R.Action, req: C.Request)   // `req` is what a received packet turns out to ask
    | Work(reply: P.Reply)               // the database thread's next step
    | TakeResult                         // PopResult and Handle_DbResult

  function Start(n: nat): World {
    World(R.Start(n), C.EMPTY_HALL, P.STARTED)
  }

  /** Soundness of the rooms is no restriction: Reachable shows that it always holds. */
  ghost predicate Enabled(w: World, act: Act) {
    C.Sound(w.chat) && (act.Run? ==> R.Enabled(w.sys, act.a))
  }

  function PushAll(p: P.Pipe, jobs: seq<P.Job>): P.Pipe
    decreases |jobs|
  {
    if jobs == [] then p else PushAll(P.Step(p, P.Push(jobs[0])), jobs[1..])
  }

  function NextEvent(w: World, req: C.Request): C.Event
    requires w.sys.srv.contentQ != []
  {
    ChatServer.EventOf(w.sys.srv.contentQ[0], req)
  }

  ghost function Step(w: World, act: Act): World
    requires Enabled(w, act)
  {
    match act
    case Run(a, req) =>
      var sys := R.Step(w.sys, a);
      if a.TakeMessage? then
        var e := NextEvent(w, req);
        World(sys, C.Step(w.chat, e), PushAll(w.pipe, C.NewJobs(w.chat, e)))
      else w.(sys := sys)
    case Work(reply) => w.(pipe := P.WorkerStep(w.pipe, reply))
    case TakeResult =>
      if w.pipe.results == [] then w
      else w.(chat := C.Step(w.chat, C.Answered(w.pipe.results[0])), pipe := P.Step(w.pipe, P.Consume))
  }

  ghost predicate EnabledRun(w: World, acts: seq<Act>)
    decreases |acts|
  {
    acts == [] || (Enabled(w, acts[0]) && EnabledRun(Step(w, acts[0]), acts[1..]))
  }

  ghost function Final(w: World, acts: seq<Act>): World
    requires EnabledRun(w, acts)
    decreases |acts|
  {
    if acts == [] then w else Final(Step(w, acts[0]), acts[1..])
  }

  // ---------------------------------------------------------- invariant

  ghost function IssuedIds(s: Srv): iset<SessionID> {
    iset sid: SessionID | Issued(s, sid)
  }

  ghost predicate JobsIssued(s: Srv, jobs: seq<P.Job>) {
    forall k | 0 <= k < |jobs| :: Issued(s, jobs[k].sid)
  }

  ghost predicate Inv(w: World) {
    && R.Inv(w.sys) && AllIssued(w.sys.srv, w.sys.srv.contentQ)
    && C.Sound(w.chat) && w.chat.players.Keys == w.sys.players
    && C.Known(w.chat, IssuedIds(w.sys.srv))
    && P.Corresponds(w.pipe) && JobsIssued(w.sys.srv, w.pipe.pushed)
  }

  /** The handlers change the keys of `players` as the engine's agreement needs. */
  lemma KeysFollow(c: C.Chat, m: Msg, req: C.Request)
    requires C.Sound(c)
    ensures C.Step(c, ChatServer.EventOf(m, req)).players.Keys == ApplyMsg(c.players.Keys, m)
  {
  }

  lemma {:induction false} PushAllKeeps(p: P.Pipe, jobs: seq<P.Job>)
    requires P.Corresponds(p)
    ensures P.Corresponds(PushAll(p, jobs)) && PushAll(p, jobs).pushed == p.pushed + jobs
    decreases |jobs|
  {
    if jobs == [] {
      assert p.pushed + jobs == p.pushed;
    } else {
      P.StepKeeps(p, P.Push(jobs[0]));
      PushAllKeeps(P.Step(p, P.Push(jobs[0])), jobs[1..]);
      assert p.pushed + [jobs[0]] + jobs[1..] == p.pushed + jobs;
    }
  }

  lemma KnownLasts(c: C.Chat, s: Srv, s': Srv)
    requires C.Known(c, IssuedIds(s)) && Older(s, s')
    ensures C.Known(c, IssuedIds(s'))
  {
    forall sid | Issued(s, sid) ensures Issued(s', sid) { IssuedLasts(s, s', sid); }
    assert forall sid: SessionID | sid in IssuedIds(s) :: sid in IssuedIds(s');
  }

  lemma JobsLast(jobs: seq<P.Job>, s: Srv, s': Srv)
    requires JobsIssued(s, jobs) && Older(s, s')
    ensures JobsIssued(s', jobs)
  {
    forall k | 0 <= k < |jobs| ensures Issued(s', jobs[k].sid) { IssuedLasts(s, s', jobs[k].sid); }
  }

  /** The content layer's part of taking a message. */
  lemma MessageKeeps(c: C.Chat, s: Srv, m: Msg, req: C.Request, pushed: seq<P.Job>)
    requires C.Sound(c) && C.Known(c, IssuedIds(s)) && Issued(s, m.sid) && JobsIssued(s, pushed)
    ensures C.Known(C.Step(c, ChatServer.EventOf(m, req)), IssuedIds(s))
    ensures JobsIssued(s, pushed + C.NewJobs(c, ChatServer.EventOf(m, req)))
  {
    var e := ChatServer.EventOf(m, req);
    C.OnlyKnownIds(c, e, IssuedIds(s), m.sid);
    var jobs := C.NewJobs(c, e);
    forall k | 0 <= k < |jobs| ensures Issued(s, jobs[k].sid) {
      assert jobs[k] in jobs;
    }
  }

  lemma RunStepKeeps(w: World, a: R.Action, req: C.Request)
    requires Inv(w) && R.Enabled(w.sys, a)
    ensures Inv(Step(w, Run(a, req)))
  {
    var s, s' := w.sys.srv, R.Step(w.sys, a).srv;
    R.StepKeepsInv(w.sys, a);
    StepIssues(w.sys, a);
    if a.TakeMessage? {
      var e := NextEvent(w, req);
      MessageKeeps(w.chat, s, s.contentQ[0], req, w.pipe.pushed);
      KeysFollow(w.chat, s.contentQ[0], req);
      PushAllKeeps(w.pipe, C.NewJobs(w.chat, e));
      KnownLasts(C.Step(w.chat, e), s, s');
      JobsLast(w.pipe.pushed + C.NewJobs(w.chat, e), s, s');
    } else {
      KnownLasts(w.chat, s, s');
      JobsLast(w.pipe.pushed, s, s');
      PlayersOnlyByMessage(w.sys, a);
    }
  }

  lemma PlayersOnlyByMessage(s: R.Sys, a: R.Action)
    requires R.Enabled(s, a) && !a.TakeMessage?
    ensures R.Step(s, a).players == s.players
  {
  }

  lemma ResultKeeps(c: C.Chat, d: P.DbResult, ids: iset<SessionID>)
    requires C.Sound(c) && C.Known(c, ids)
    ensures C.Known(C.Step(c, C.Answered(d)), ids)
    ensures C.Step(c, C.Answered(d)).players.Keys == c.players.Keys
  {
    C.OnlyKnownIds(c, C.Answered(d), ids, d.sid);
  }

  lemma TakeResultKeeps(w: World)
    requires Inv(w)
    ensures Inv(Step(w, TakeResult))
  {
    if w.pipe.results != [] {
      ResultKeeps(w.chat, w.pipe.results[0], IssuedIds(w.sys.srv));
      P.StepKeeps(w.pipe, P.Consume);
    }
  }

  lemma WorkKeeps(w: World, reply: P.Reply)
    requires Inv(w)
    ensures Inv(w.(pipe := P.WorkerStep(w.pipe, reply)))
  {
    P.WorkerStepKeeps(w.pipe, reply);
  }

  lemma StepKeeps(w: World, act: Act)
    requires Inv(w) && Enabled(w, act)
    ensures Inv(Step(w, act))
  {
    match act
    case Run(a, req) => RunStepKeeps(w, a, req);
    case Work(reply) => WorkKeeps(w, reply);
    case TakeResult => TakeResultKeeps(w);
  }

  lemma {:induction false} RunKeeps(w: World, acts: seq<Act>)
    requires Inv(w) && EnabledRun(w, acts)
    ensures Inv(Final(w, acts))
    decreases |acts|
  {
    if acts != [] {
      StepKeeps(w, acts[0]);
      RunKeeps(Step(w, acts[0]), acts[1..]);
    }
  }

  lemma EmptyHall(ids: iset<SessionID>)
    ensures C.Sound(C.EMPTY_HALL) && C.EMPTY_HALL.players.Keys == {} && C.Known(C.EMPTY_HALL, ids)
    ensures P.Corresponds(P.STARTED) && P.STARTED.pushed == []
  {
  }

  lemma StartKeeps(n: nat)
    requires n <= 0xFFFF
    ensures Inv(Start(n))
  {
    R.StartInv(n);
    EmptyHall(IssuedIds(Started(n)));
  }

  lemma Reachable(n: nat, acts: seq<Act>)
    requires n <= 0xFFFF && EnabledRun(Start(n), acts)
    ensures Inv(Final(Start(n), acts))
  {
    StartKeeps(n);
    RunKeeps(Start(n), acts);
  }

  /** Identifiers that have been issued stay issued. */
  lemma StepAges(w: World, act: Act)
    requires Inv(w) && Enabled(w, act)
    ensures Older(w.sys.srv, Step(w, act).sys.srv)
  {
    if act.Run? { StepIssues(w.sys, act.a); } else { SettledBound(w.sys.srv); }
  }

  lemma {:induction false} RunAges(w: World, acts: seq<Act>)
    requires Inv(w) && EnabledRun(w, acts)
    ensures Inv(Final(w, acts)) && Older(w.sys.srv, Final(w, acts).sys.srv)
    decreases |acts|
  {
    if acts == [] {
      SettledBound(w.sys.srv);
    } else {
      StepAges(w, acts[0]);
      StepKeeps(w, acts[0]);
      RunAges(Step(w, acts[0]), acts[1..]);
    }
  }

  /** The handlers are about to send to `q`, for the next message or the next result. */
  ghost predicate Addressed(w: World, req: C.Request, q: SessionID)
    requires C.Sound(w.chat)
  {
    || (w.sys.srv.contentQ != [] && C.Mail(w.chat, NextEvent(w, req), q) != [])
    || (w.pipe.results != [] && C.Mail(w.chat, C.Answered(w.pipe.results[0]), q) != [])
  }

  lemma AddresseeIsIssued(w: World, req: C.Request, q: SessionID)
    requires Inv(w) && Addressed(w, req, q)
    ensures Issued(w.sys.srv, q)
  {
    var ids := IssuedIds(w.sys.srv);
    if w.sys.srv.contentQ != [] {
      assert Issued(w.sys.srv, w.sys.srv.contentQ[0].sid);
      C.OnlyKnownIds(w.chat, NextEvent(w, req), ids, q);
    }
    if w.pipe.results != [] {
      C.OnlyKnownIds(w.chat, C.Answered(w.pipe.results[0]), ids, q);
    }
  }

  // ----------------------------------------------------------- theorems

  /** The map of players, with the messages still queued replayed over its keys, is the set
      of open sessions; so the two agree whenever the queue is empty. A player in a room is
      a member of one that exists, and no room has more than 50. */
  lemma PlayerMapAgrees(n: nat, acts: seq<Act>)
    requires n <= 0xFFFF && EnabledRun(Start(n), acts)
    ensures var w := Final(Start(n), acts);
      && Replay(w.chat.players.Keys, w.sys.srv.contentQ) == OpenSids(w.sys.srv.slots)
      && (w.sys.srv.contentQ == [] ==> w.chat.players.Keys == OpenSids(w.sys.srv.slots))
      && C.Sound(w.chat)
  {
    Reachable(n, acts);
  }

  /** Whatever the next message asks, and whatever the next result says, everything the
      handlers send goes to an identifier that InitSession issued. */
  lemma AddresseesAreIssued(n: nat, acts: seq<Act>, req: C.Request, q: SessionID)
    requires n <= 0xFFFF && EnabledRun(Start(n), acts)
    ensures var w := Final(Start(n), acts);
      C.Sound(w.chat) && (Addressed(w, req, q) ==> Issued(w.sys.srv, q))
  {
    Reachable(n, acts);
    var w := Final(Start(n), acts);
    if Addressed(w, req, q) { AddresseeIsIssued(w, req, q); }
  }

  /** Every job queued or in hand, and every result queued or consumed, is for an identifier
      that InitSession issued. */
  lemma WorkIsIssued(n: nat, acts: seq<Act>)
    requires n <= 0xFFFF && EnabledRun(Start(n), acts)
    ensures var w := Final(Start(n), acts);
      && (forall k | 0 <= k < |P.Answered(w.pipe)| :: Issued(w.sys.srv, P.Answered(w.pipe)[k].sid))
      && JobsIssued(w.sys.srv, P.InHand(w.pipe.worker) + w.pipe.jobs)
  {
    Reachable(n, acts);
    var w := Final(Start(n), acts);
    var done, waiting := P.Answered(w.pipe), P.InHand(w.pipe.worker) + w.pipe.jobs;
    forall k | 0 <= k < |done| ensures Issued(w.sys.srv, done[k].sid) {
      assert P.Answers(done[k], w.pipe.pushed[k], w.pipe.replies[k]);
    }
    forall k | 0 <= k < |waiting| ensures Issued(w.sys.srv, waiting[k].sid) {
      assert waiting[k] == w.pipe.pushed[|done|..][k] == w.pipe.pushed[|done| + k];
    }
  }

  /** An issued identifier is that of an open session, or its session is over. */
  lemma OpenOrOver(s: Srv, sid: SessionID) returns (c: nat, g: int)
    requires RefsSettled(s) && Issued(s, sid)
    ensures c < |s.slots| && c < 0xFFFF && 0 < g <= MAX_LONG && sid == MakeSid(c, g)
    ensures L.Over(s, c, g) || (Open(s.slots[c]) && s.slots[c].sid == sid)
  {
    SettledSids(s);
    c, g :| c < |s.slots| && c < 0xFFFF && 0 < g <= s.slots[c].generation <= MAX_LONG && sid == MakeSid(c, g);
  }

  /** Whom the engine serves under an identifier. */
  ghost predicate ReachesOwnerOnly(s: Srv, q: SessionID) {
    || (exists c: nat :: c < |s.slots| && Open(s.slots[c]) && s.slots[c].sid == q)
    || (forall p: Pkt, ok :: SendPacket(s, q, p, ok) == Result(s, false))
  }

  lemma IssuedReachesOwnerOnly(s: Srv, q: SessionID)
    requires RefsSettled(s) && Issued(s, q)
    ensures ReachesOwnerOnly(s, q)
  {
    var c, g := OpenOrOver(s, q);
    if L.Over(s, c, g) {
      forall p: Pkt, ok ensures SendPacket(s, q, p, ok) == Result(s, false) {
        L.StaleIdRefused(s, c, g, p, ok);
      }
    }
  }

  /** Stale room entries and late results never reach a new occupant: everyone the handlers
      send to, for the next message or the next result, is in every later state the open
      session of that very identifier, or SendPacket refuses and changes nothing. */
  lemma MailReachesItsOwner(n: nat, acts: seq<Act>, req: C.Request, q: SessionID, later: seq<Act>)
    requires n <= 0xFFFF && EnabledRun(Start(n), acts) && EnabledRun(Final(Start(n), acts), later)
    ensures var w := Final(Start(n), acts);
      C.Sound(w.chat) && (Addressed(w, req, q) ==> ReachesOwnerOnly(Final(w, later).sys.srv, q))
  {
    Reachable(n, acts);
    var w := Final(Start(n), acts);
    if Addressed(w, req, q) {
      AddresseeIsIssued(w, req, q);
      RunAges(w, later);
      IssuedLasts(w.sys.srv, Final(w, later).sys.srv, q);
      IssuedReachesOwnerOnly(Final(w, later).sys.srv, q);
    }
  }

  /** Nothing a late result does at the engine or to the players concerns the occupant. */
  ghost predicate Spares(s: Srv, chat: C.Chat, d: P.DbResult, occupant: SessionID)
    requires C.Sound(chat)
  {
    var after := C.Step(chat, C.Answered(d));
    && occupant != d.sid && after.rooms == chat.rooms
    && (occupant in after.players <==> occupant in chat.players)
    && (occupant in chat.players ==> after.players[occupant] == chat.players[occupant])
    && forall p: Pkt, ok :: SendPacket(s, d.sid, p, ok) == Result(s, false)
  }

  lemma OverSpares(s: Srv, chat: C.Chat, d: P.DbResult, c: nat, g: int)
    requires RefsSettled(s) && C.Sound(chat) && L.Over(s, c, g) && d.sid == MakeSid(c, g) && Open(s.slots[c])
    ensures Spares(s, chat, d, s.slots[c].sid)
  {
    SettledSids(s);
    SidsDistinct(c, s.slots[c].generation, c, g);
    C.ResultTouchesItsPlayer(chat, d, s.slots[c].sid);
    forall p: Pkt, ok ensures SendPacket(s, d.sid, p, ok) == Result(s, false) {
      L.StaleIdRefused(s, c, g, p, ok);
    }
  }

  /** A late result, for a session that is over, is refused by SendPacket, and handling it
      leaves the rooms and the slot's new occupant alone. */
  lemma LateResultSparesTheOccupant(n: nat, acts: seq<Act>, c: nat, g: int)
    requires n <= 0xFFFF && EnabledRun(Start(n), acts)
    requires var w := Final(Start(n), acts);
      && w.pipe.results != [] && L.Over(w.sys.srv, c, g) && w.pipe.results[0].sid == MakeSid(c, g)
      && Open(w.sys.srv.slots[c])
    ensures var w := Final(Start(n), acts);
      C.Sound(w.chat) && Spares(w.sys.srv, w.chat, w.pipe.results[0], w.sys.srv.slots[c].sid)
  {
    Reachable(n, acts);
    var w := Final(Start(n), acts);
    OverSpares(w.sys.srv, w.chat, w.pipe.results[0], c, g);
  }
}

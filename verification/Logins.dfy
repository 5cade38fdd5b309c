/**
  A login from request to name (Handle_Login, Handle_SignUp and Handle_DbResult in
  myIOCP/CChatServer.cpp with the worker of myIOCP/CDBWorker.cpp): which requests become
  jobs, and that a player's number and nickname come from the database's answer to a login
  of its own.
*/
module Logins {
  import opened SessionId
  import R = EngineRuns
  import C = ChatRooms
  import P = DbPipeline
  import opened WholeServer

  // ------------------------------------------------- requests become jobs

  lemma {:induction false} PushAllQueues(p: P.Pipe, jobs: seq<P.Job>)
    ensures PushAll(p, jobs).jobs == p.jobs + jobs && PushAll(p, jobs).pushed == p.pushed + jobs
    ensures PushAll(p, jobs).results == p.results && PushAll(p, jobs).consumed == p.consumed
    ensures PushAll(p, jobs).replies == p.replies && PushAll(p, jobs).worker == p.worker
    decreases |jobs|
  {
    if jobs == [] {
      assert p.jobs + jobs == p.jobs && p.pushed + jobs == p.pushed;
    } else {
      PushAllQueues(P.Step(p, P.Push(jobs[0])), jobs[1..]);
      assert p.jobs + [jobs[0]] + jobs[1..] == p.jobs + jobs;
      assert p.pushed + [jobs[0]] + jobs[1..] == p.pushed + jobs;
    }
  }

  /** The next message is a request to log in or sign up by a player that is there. */
  predicate AsksDatabase(w: World, act: Act) {
    && act.Run? && act.a.TakeMessage? && w.sys.srv.contentQ != [] && w.sys.srv.contentQ[0].Received?
    && w.sys.srv.contentQ[0].sid in w.chat.players
    && (act.req.LoginReq? || act.req.SignUpReq?)
  }

  /** Such a message appends one job, with the player's identifier and what the request says; no
      other step of anybody appends any. */
  lemma RequestsBecomeJobs(w: World, act: Act)
    requires Enabled(w, act)
    ensures var pushed, pushed' := w.pipe.pushed, Step(w, act).pipe.pushed;
      if AsksDatabase(w, act) then
        && |pushed'| == |pushed| + 1 && pushed'[..|pushed|] == pushed
        && C.JobFor(pushed'[|pushed|], w.sys.srv.contentQ[0].sid, act.req)
        && Step(w, act).pipe.jobs == w.pipe.jobs + [pushed'[|pushed|]]
      else pushed' == pushed
  {
    match act
    case Run(a, req) =>
      if a.TakeMessage? { PushAllQueues(w.pipe, C.NewJobs(w.chat, NextEvent(w, req))); }
    case Work(_) =>
    case TakeResult =>
  }

  // ------------------------------------------- names come from the database

  /** The answer to job k, already handled, was a successful login of `sid` as this user. */
  predicate LoggedInBy(p: P.Pipe, k: nat, sid: SessionID, userNo: int, nickname: string) {
    && k < |p.consumed| && k < |p.pushed| && k < |p.replies|
    && p.pushed[k].kind.Login? && p.pushed[k].sid == sid
    && p.replies[k] == P.Said(0, userNo, nickname)
  }

  /** A player is nobody yet, or the user of a login of its own. */
  ghost predicate NamedBy(p: P.Pipe, sid: SessionID, player: C.Player) {
    || (player.userNo == 0 && player.nickname == "")
    || exists k: nat :: LoggedInBy(p, k, sid, player.userNo, player.nickname)
  }

  ghost predicate AllNamed(w: World) {
    forall sid | sid in w.chat.players :: NamedBy(w.pipe, sid, w.chat.players[sid])
  }

  /** The logs only grow. */
  predicate Extends(p: P.Pipe, p': P.Pipe) {
    p.consumed <= p'.consumed && p.pushed <= p'.pushed && p.replies <= p'.replies
  }

  lemma NamedStays(p: P.Pipe, p': P.Pipe, sid: SessionID, player: C.Player)
    requires NamedBy(p, sid, player) && Extends(p, p')
    ensures NamedBy(p', sid, player)
  {
    if !(player.userNo == 0 && player.nickname == "") {
      var k: nat :| LoggedInBy(p, k, sid, player.userNo, player.nickname);
      assert LoggedInBy(p', k, sid, player.userNo, player.nickname);
    }
  }

  lemma WorkExtends(p: P.Pipe, reply: P.Reply)
    ensures Extends(p, P.WorkerStep(p, reply))
  {
  }

  /** An event that is not a result gives nobody a name. */
  lemma EventNames(c: C.Chat, e: C.Event, p: P.Pipe, p': P.Pipe)
    requires C.Sound(c) && !e.Answered? && Extends(p, p')
    requires forall sid | sid in c.players :: NamedBy(p, sid, c.players[sid])
    ensures forall sid | sid in C.Step(c, e).players :: NamedBy(p', sid, C.Step(c, e).players[sid])
  {
    forall sid | sid in C.Step(c, e).players ensures NamedBy(p', sid, C.Step(c, e).players[sid]) {
      C.PlayerAfter(c, e, sid);
      if sid in c.players {
        NamedStays(p, p', sid, c.players[sid]);
      }
    }
  }

  /** The result consumed next answers the job at its own place. */
  lemma NextAnswers(p: P.Pipe)
    requires P.Corresponds(p) && p.results != []
    ensures var k := |p.consumed|;
      k < |p.pushed| && k < |p.replies| && P.Answers(p.results[0], p.pushed[k], p.replies[k])
  {
    assert P.Answered(p)[|p.consumed|] == p.results[0];
  }

  lemma ConsumeExtends(p: P.Pipe)
    requires P.Corresponds(p) && p.results != []
    ensures var p', k := P.Step(p, P.Consume), |p.consumed|;
      && Extends(p, p') && k < |p'.consumed| && k < |p'.pushed| && k < |p'.replies|
      && P.Answers(p.results[0], p'.pushed[k], p'.replies[k])
  {
    NextAnswers(p);
  }

  /** The player `player` after result `d`, having been `was`. */
  lemma ResultNames(p: P.Pipe, sid: SessionID, was: C.Player, player: C.Player)
    requires P.Corresponds(p) && p.results != [] && NamedBy(p, sid, was)
    requires var d := p.results[0];
      if sid == d.sid && d.kind.Login? && d.result == 0 then
        player.userNo == d.userNo && player.nickname == d.nickname
      else player == was
    ensures NamedBy(P.Step(p, P.Consume), sid, player)
  {
    var d, p' := p.results[0], P.Step(p, P.Consume);
    ConsumeExtends(p);
    if sid == d.sid && d.kind.Login? && d.result == 0 {
      NewName(p', |p.consumed|, d, player);
    } else {
      NamedStays(p, p', sid, was);
    }
  }

  lemma AnsweredNames(c: C.Chat, p: P.Pipe)
    requires C.Sound(c) && P.Corresponds(p) && p.results != []
    requires forall sid | sid in c.players :: NamedBy(p, sid, c.players[sid])
    ensures var after := C.Step(c, C.Answered(p.results[0]));
      forall sid | sid in after.players :: NamedBy(P.Step(p, P.Consume), sid, after.players[sid])
  {
    var after := C.Step(c, C.Answered(p.results[0]));
    forall sid | sid in after.players ensures NamedBy(P.Step(p, P.Consume), sid, after.players[sid]) {
      C.PlayerAfter(c, C.Answered(p.results[0]), sid);
      ResultNames(p, sid, c.players[sid], after.players[sid]);
    }
  }

  lemma NewName(p: P.Pipe, k: nat, d: P.DbResult, player: C.Player)
    requires k < |p.consumed| && k < |p.pushed| && k < |p.replies| && P.Answers(d, p.pushed[k], p.replies[k])
    requires d.kind.Login? && d.result == 0 && player.userNo == d.userNo && player.nickname == d.nickname
    ensures NamedBy(p, d.sid, player)
  {
    if p.replies[k].Said? { assert LoggedInBy(p, k, d.sid, player.userNo, player.nickname); }
  }

  lemma MessageNames(w: World, a: R.Action, req: C.Request)
    requires Enabled(w, Run(a, req)) && AllNamed(w)
    ensures AllNamed(Step(w, Run(a, req)))
  {
    if a.TakeMessage? {
      var e := NextEvent(w, req);
      PushAllQueues(w.pipe, C.NewJobs(w.chat, e));
      EventNames(w.chat, e, w.pipe, PushAll(w.pipe, C.NewJobs(w.chat, e)));
    }
  }

  lemma WorkNames(w: World, reply: P.Reply)
    requires AllNamed(w)
    ensures AllNamed(w.(pipe := P.WorkerStep(w.pipe, reply)))
  {
    WorkExtends(w.pipe, reply);
    forall sid | sid in w.chat.players ensures NamedBy(P.WorkerStep(w.pipe, reply), sid, w.chat.players[sid]) {
      NamedStays(w.pipe, P.WorkerStep(w.pipe, reply), sid, w.chat.players[sid]);
    }
  }

  lemma StepNames(w: World, act: Act)
    requires Inv(w) && Enabled(w, act) && AllNamed(w)
    ensures AllNamed(Step(w, act))
  {
    match act
    case Run(a, req) => MessageNames(w, a, req);
    case Work(reply) => WorkNames(w, reply);
    case TakeResult => if w.pipe.results != [] { AnsweredNames(w.chat, w.pipe); }
  }

  lemma {:induction false} RunNames(w: World, acts: seq<Act>)
    requires Inv(w) && EnabledRun(w, acts) && AllNamed(w)
    ensures AllNamed(Final(w, acts))
    decreases |acts|
  {
    if acts != [] {
      StepNames(w, acts[0]);
      StepKeeps(w, acts[0]);
      RunNames(Step(w, acts[0]), acts[1..]);
    }
  }

  /** Over whole runs of engine, Update thread and worker, whoever has a number or a nickname has
      the ones that the database gave to a login job of that very session. */
  lemma IdentityFromDatabase(n: nat, acts: seq<Act>, sid: SessionID)
    requires n <= 0xFFFF && EnabledRun(Start(n), acts) && sid in Final(Start(n), acts).chat.players
    ensures var w := Final(Start(n), acts);
      var player := w.chat.players[sid];
      || (player.userNo == 0 && player.nickname == "")
      || exists k: nat :: LoggedInBy(w.pipe, k, sid, player.userNo, player.nickname)
  {
    StartKeeps(n);
    RunNames(Start(n), acts);
  }
}

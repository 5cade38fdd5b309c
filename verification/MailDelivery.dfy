/**
  From the handlers to the client: the Update thread builds a packet for what an event has
  to say and calls SendPacket for each addressee (the handlers in
  myIOCP/CChatServer.cpp), one letter after another, while the engine, the worker and every
  connection go on.
*/
module MailDelivery {
  import opened Options
  import opened Bytes
  import opened Ctr
  import opened Codec
  import opened SessionId
  import opened PacketPool
  import opened Engine
  import opened EngineRefs
  import opened EngineMessages
  import opened EngineAccepted
  import opened NewSessions
  import opened ChatServer
  import R = EngineRuns
  import C = ChatRooms
  import W = WholeServer
  import F = Framing
  import K = ClientReassembly

  /** `wire` is what a handler writes for a body. */
  datatype Setup = Setup(keys: Keys, wire: C.Body -> seq<byte>)

  datatype Desk = Desk(
    world: W.World,
    written: Option<C.Body>,   // what the packet being broadcast says
    todo: seq<Letter>,         // sends the current event still asks for
    events: seq<C.Event>,      // handled so far
    handed: seq<Letter>        // SendPacket calls made so far
  )

  function Start(n: nat): Desk {
    Desk(W.Start(n), None, [], [], [])
  }

  datatype Act =
    | Handle(act: W.Act, letters: seq<Letter>)     // a message or a result, and its sends in some order
    | Write(body: C.Body, nonce: Nonce)            // Alloc, writes and SetHeader
    | Post(ok: bool)                               // SendPacket for the next letter
    | Other(act: W.Act)

  /** The step makes the handlers handle an event. */
  predicate Handles(w: W.World, act: W.Act) {
    match act
    case Run(a, _) => a.TakeMessage? && w.sys.srv.contentQ != []
    case TakeResult => w.pipe.results != []
    case Work(_) => false
  }

  function EventIn(w: W.World, act: W.Act): C.Event
    requires Handles(w, act)
  {
    if act.Run? then W.NextEvent(w, act.req) else C.Answered(w.pipe.results[0])
  }

  function ActOf(u: Setup, d: Desk, a: Act): W.Act
    requires a.Post? ==> d.todo != []
  {
    match a
    case Handle(act, _) => act
    case Write(body, nonce) => W.Run(R.Build(Encode(u.keys, nonce, u.wire(body))), C.Unknown)
    case Post(ok) => W.Run(R.SendTo(d.todo[0].to, ok), C.Unknown)
    case Other(act) => act
  }

  /** The letters are what the event has to say to each session, in that session's order. */
  ghost predicate Asked(c: C.Chat, e: C.Event, letters: seq<Letter>)
    requires C.Sound(c)
  {
    forall q :: To(letters, q) == C.Mail(c, e, q)
  }

  /** The Update thread takes the next event when it has sent what the last one asked for, and
      sends a packet that says what the letter says. */
  ghost predicate Enabled(u: Setup, d: Desk, a: Act) {
    && (a.Post? ==> d.todo != [] && d.written == Some(d.todo[0].body))
    && W.Enabled(d.world, ActOf(u, d, a))
    && match a
       case Handle(act, letters) =>
         Handles(d.world, act) && d.todo == [] && Asked(d.world.chat, EventIn(d.world, act), letters)
       case Other(act) => !Handles(d.world, act) && (act.Run? ==> !act.a.Build? && !act.a.SendTo?)
       case _ => true
  }

  ghost function Step(u: Setup, d: Desk, a: Act): Desk
    requires Enabled(u, d, a)
  {
    var next := d.(world := W.Step(d.world, ActOf(u, d, a)));
    match a
    case Handle(act, letters) => next.(todo := letters, events := d.events + [EventIn(d.world, act)])
    case Write(body, _) => next.(written := Some(body))
    case Post(_) => next.(todo := d.todo[1..], handed := d.handed + [d.todo[0]])
    case Other(act) => if act.Run? && act.a.Finish? then next.(written := None) else next
  }

  ghost predicate EnabledRun(u: Setup, d: Desk, acts: seq<Act>)
    decreases |acts|
  {
    acts == [] || (Enabled(u, d, acts[0]) && EnabledRun(u, Step(u, d, acts[0]), acts[1..]))
  }

  ghost function Final(u: Setup, d: Desk, acts: seq<Act>): Desk
    requires EnabledRun(u, d, acts)
    decreases |acts|
  {
    if acts == [] then d else Final(u, Step(u, d, acts[0]), acts[1..])
  }

  // ---------------------------------------------------------- the invariant

  /** A buffer holds the frame of what a body is written as. */
  ghost predicate Carries(u: Setup, bytes: seq<byte>, body: C.Body) {
    exists nonce: Nonce :: bytes == Encode(u.keys, nonce, u.wire(body))
  }

  ghost predicate AllCarry(u: Setup, log: seq<Content>, bodies: seq<C.Body>) {
    |log| <= |bodies| && forall i | 0 <= i < |log| :: Carries(u, log[i].bytes, bodies[i])
  }

  /** A session has accepted the mail handed over for it; from its close on, no more. */
  ghost predicate SlotHas(u: Setup, slot: Slot, bodies: seq<C.Body>) {
    && AllCarry(u, slot.log.accepted, bodies)
    && (EngineRefs.Open(slot) ==> |slot.log.accepted| == |bodies|)
  }

  ghost predicate AllHave(u: Setup, slots: seq<Slot>, handed: seq<Letter>) {
    forall c | 0 <= c < |slots| && slots[c].generation > 0 :: SlotHas(u, slots[c], To(handed, slots[c].sid))
  }

  /** What the handled events had to say has been handed over or is still to do. */
  ghost predicate Accounted(events: seq<C.Event>, handed: seq<Letter>, todo: seq<Letter>) {
    C.Sound(C.EMPTY_HALL) && forall q :: To(handed, q) + To(todo, q) == C.AllMail(C.EMPTY_HALL, events, q)
  }

  ghost predicate LettersIssued(s: Srv, letters: seq<Letter>) {
    forall i | 0 <= i < |letters| :: Issued(s, letters[i].to)
  }

  ghost predicate SaysWritten(u: Setup, s: R.Sys, written: Option<C.Body>) {
    written.Some? ==> s.out.Some? && Carries(u, ContentOf(s.srv.packets.contents, s.out.value).bytes, written.value)
  }

  ghost predicate Inv(u: Setup, d: Desk) {
    && W.Inv(d.world)
    && C.Sound(C.EMPTY_HALL) && d.world.chat == C.Run(C.EMPTY_HALL, d.events)
    && Accounted(d.events, d.handed, d.todo)
    && LettersIssued(d.world.sys.srv, d.handed) && LettersIssued(d.world.sys.srv, d.todo)
    && SaysWritten(u, d.world.sys, d.written)
    && AllHave(u, d.world.sys.srv.slots, d.handed)
  }

  // ------------------------------------------------------------- letters

  lemma {:induction false} ToCons(l: Letter, rest: seq<Letter>, q: SessionID)
    ensures To([l] + rest, q) == (if l.to == q then [l.body] else []) + To(rest, q)
    decreases |rest|
  {
    if rest == [] {
      assert [l] + rest == [] + [l];
      ToSnoc([], l, q);
    } else {
      var init, last := rest[..|rest| - 1], rest[|rest| - 1];
      ToCons(l, init, q);
      assert [l] + rest == ([l] + init) + [last] && rest == init + [last];
      ToSnoc([l] + init, last, q);
      ToSnoc(init, last, q);
    }
  }

  lemma {:induction false} LetterArrives(letters: seq<Letter>, i: nat)
    requires i < |letters|
    ensures To(letters, letters[i].to) != []
    decreases |letters|
  {
    var init, last := letters[..|letters| - 1], letters[|letters| - 1];
    assert letters == init + [last];
    ToSnoc(init, last, letters[i].to);
    if i < |init| { LetterArrives(init, i); }
  }

  lemma {:induction false} NothingTo(letters: seq<Letter>, q: SessionID)
    requires forall i | 0 <= i < |letters| :: letters[i].to != q
    ensures To(letters, q) == []
    decreases |letters|
  {
    if letters != [] { NothingTo(letters[..|letters| - 1], q); }
  }

  /** The broadcast loop, in some order. */
  lemma Copies(to: set<SessionID>, body: C.Body) returns (letters: seq<Letter>)
    ensures forall q :: To(letters, q) == C.If(q in to, body)
  {
    letters := [];
    var left := to;
    while left != {}
      invariant left <= to
      invariant forall q :: To(letters, q) == C.If(q in to - left, body)
      decreases left
    {
      var l :| l in left;
      forall q ensures To(letters + [Letter(l, body)], q) == C.If(q in to - (left - {l}), body) {
        ToSnoc(letters, Letter(l, body), q);
      }
      letters, left := letters + [Letter(l, body)], left - {l};
    }
  }

  lemma Answer(l: Letter, rest: seq<Letter>)
    ensures forall q :: To([l] + rest, q) == C.If(q == l.to, l.body) + To(rest, q)
  {
    forall q ensures To([l] + rest, q) == C.If(q == l.to, l.body) + To(rest, q) { ToCons(l, rest, q); }
  }

  /** What an event has to say can always be put into letters, so the Update thread is never
      kept from handling it. */
  lemma LettersExist(c: C.Chat, e: C.Event) returns (letters: seq<Letter>)
    requires C.Sound(c)
    ensures Asked(c, e, letters)
  {
    letters := [];
    match e {
      case Asked(sid, req) =>
        if sid in c.players { letters := RequestLetters(c, sid, req); }
      case Answered(d) =>
        if d.sid in c.players {
          var body := match d.kind
            case Login => C.LoginRes(C.ResultCode(d), d.userNo, d.nickname)
            case SignUp => C.SignUpRes(C.ResultCode(d), d.userNo);
          letters := Copies({d.sid}, body);
        }
      case _ =>
    }
  }

  lemma EnterLetters(c: C.Chat, sid: SessionID, no: nat) returns (letters: seq<Letter>)
    requires C.Sound(c) && sid in c.players
    ensures forall q :: To(letters, q) == C.EnterMail(c, sid, no, q)
  {
    letters := [];
    if C.RoomExists(no) && C.Admits(c.rooms[no - 1], sid) && !c.players[sid].state.InRoom? {
      var rest := Copies(c.rooms[no - 1], C.UserJoin(c.players[sid].nickname));
      Answer(Letter(sid, C.EnterRes(no)), rest);
      letters := [Letter(sid, C.EnterRes(no))] + rest;
    }
  }

  lemma RequestLetters(c: C.Chat, sid: SessionID, req: C.Request) returns (letters: seq<Letter>)
    requires C.Sound(c) && sid in c.players
    ensures Asked(c, C.Asked(sid, req), letters)
  {
    letters := [];
    var p := c.players[sid];
    match req {
      case EnterReq(no) => letters := EnterLetters(c, sid, no);
      case LeaveReq =>
        if p.state.InRoom? { letters := Copies(c.rooms[p.roomNo - 1] - {sid}, C.UserLeave(p.nickname)); }
      case ChatReq(text) =>
        if |text| <= C.MAX_CHAT_LEN && p.state.InRoom? {
          letters := Copies(c.rooms[p.roomNo - 1], C.ChatRes(p.nickname, text));
        }
      case _ =>
    }
  }

  lemma HandledAccounts(c: C.Chat, events: seq<C.Event>, handed: seq<Letter>, e: C.Event, letters: seq<Letter>)
    requires Accounted(events, handed, []) && c == C.Run(C.EMPTY_HALL, events) && Asked(c, e, letters)
    ensures Accounted(events + [e], handed, letters)
    ensures C.Run(C.EMPTY_HALL, events + [e]) == C.Step(c, e)
  {
    C.RunSnoc(C.EMPTY_HALL, events, e);
    forall q ensures To(handed, q) + To(letters, q) == C.AllMail(C.EMPTY_HALL, events + [e], q) {
      C.AllMailSnoc(C.EMPTY_HALL, events, e, q);
      assert To(handed, q) + To([], q) == To(handed, q);
    }
  }

  lemma PostedAccounts(events: seq<C.Event>, handed: seq<Letter>, todo: seq<Letter>)
    requires todo != [] && Accounted(events, handed, todo)
    ensures Accounted(events, handed + [todo[0]], todo[1..])
  {
    forall q ensures To(handed + [todo[0]], q) + To(todo[1..], q) == C.AllMail(C.EMPTY_HALL, events, q) {
      ToSnoc(handed, todo[0], q);
      ToCons(todo[0], todo[1..], q);
      assert [todo[0]] + todo[1..] == todo;
      Regroup(To(handed, q), if todo[0].to == q then [todo[0].body] else [], To(todo[1..], q));
    }
  }

  lemma LettersLast(s: Srv, s': Srv, letters: seq<Letter>)
    requires LettersIssued(s, letters) && Older(s, s')
    ensures LettersIssued(s', letters)
  {
    forall i | 0 <= i < |letters| ensures Issued(s', letters[i].to) { IssuedLasts(s, s', letters[i].to); }
  }

  lemma AskedIsIssued(w: W.World, act: W.Act, letters: seq<Letter>)
    requires W.Inv(w) && Handles(w, act) && Asked(w.chat, EventIn(w, act), letters)
    ensures LettersIssued(w.sys.srv, letters)
  {
    forall i | 0 <= i < |letters| ensures Issued(w.sys.srv, letters[i].to) {
      LetterArrives(letters, i);
      W.AddresseeIsIssued(w, if act.Run? then act.req else C.Unknown, letters[i].to);
    }
  }

  // -------------------------------------------- what sessions have accepted

  lemma SlotsKeep(u: Setup, s: Srv, s': Srv, handed: seq<Letter>)
    requires AllHave(u, s.slots, handed) && RefsSettled(s) && RefsSettled(s')
    requires |s.slots| == |s'.slots| && forall c: nat | c < |s.slots| :: GoesOn(s, s', c)
    requires forall c | 0 <= c < |s.slots| :: s'.slots[c].log.accepted == s.slots[c].log.accepted
    ensures AllHave(u, s'.slots, handed)
  {
    forall c | 0 <= c < |s'.slots| && s'.slots[c].generation > 0
      ensures SlotHas(u, s'.slots[c], To(handed, s'.slots[c].sid))
    {
      assert GoesOn(s, s', c);
      SameSid(s, s', c);
    }
  }

  lemma SameSid(s: Srv, s': Srv, c: nat)
    requires RefsSettled(s) && RefsSettled(s') && GoesOn(s, s', c) && s.slots[c].generation > 0
    ensures c < 0xFFFF && s.slots[c].generation <= MAX_LONG
    ensures s'.slots[c].sid == s.slots[c].sid == MakeSid(c, s.slots[c].generation)
  {
    UsedIsNamed(s, c);
    UsedIsNamed(s', c);
  }

  lemma QuietStepKeeps(u: Setup, s: R.Sys, a: R.Action, handed: seq<Letter>)
    requires R.Inv(s) && R.Enabled(s, a) && !a.Connect? && !a.SendTo? && AllHave(u, s.srv.slots, handed)
    ensures AllHave(u, R.Step(s, a).srv.slots, handed)
  {
    R.StepRefs(s, a);
    StepAcceptsNothing(s, a);
    forall c: nat | c < |s.srv.slots| ensures GoesOn(s.srv, R.Step(s, a).srv, c) { StepGoesOn(s, a, c); }
    SlotsKeep(u, s.srv, R.Step(s, a).srv, handed);
  }

  /** A newcomer's identifier is new, so nothing has been handed over for it. */
  lemma AcceptHas(u: Setup, s: Srv, associated: bool, ok: bool, handed: seq<Letter>)
    requires RefsSettled(s) && Shaped(s) && Vacancy(s) && AllHave(u, s.slots, handed) && LettersIssued(s, handed)
    ensures AllHave(u, Accept(s, associated, ok).slots, handed)
  {
    VacancyIsFilled(s, associated, ok);
    NothingTo(handed, NextSid(s));
    NewcomerHas(u, s, Accept(s, associated, ok), handed);
  }

  lemma ConnectKeeps(u: Setup, s: R.Sys, a: R.Action, handed: seq<Letter>)
    requires R.Inv(s) && R.Enabled(s, a) && a.Connect?
    requires AllHave(u, s.srv.slots, handed) && LettersIssued(s.srv, handed)
    ensures AllHave(u, R.Step(s, a).srv.slots, handed)
  {
    PoolSays(s.srv);
    if Vacancy(s.srv) { AcceptHas(u, s.srv, a.associated, a.ok, handed); }
  }

  lemma NewcomerHas(u: Setup, s: Srv, s': Srv, handed: seq<Letter>)
    requires AllHave(u, s.slots, handed) && Vacancy(s) && Renamed(s, s') && To(handed, NextSid(s)) == []
    ensures AllHave(u, s'.slots, handed)
  {
    forall c | 0 <= c < |s'.slots| && s'.slots[c].generation > 0
      ensures SlotHas(u, s'.slots[c], To(handed, s'.slots[c].sid))
    {
      if c != s.indexPool[0] { assert s'.slots[c] == s.slots[c]; }
    }
  }

  lemma AllCarryMore(u: Setup, log: seq<Content>, bodies: seq<C.Body>, content: Content, body: C.Body)
    requires AllCarry(u, log, bodies)
    ensures AllCarry(u, log, bodies + [body])
    ensures |log| == |bodies| && Carries(u, content.bytes, body) ==> AllCarry(u, log + [content], bodies + [body])
  {
  }

  /** A slot before and after one letter has been handed over, to it or to another. */
  ghost predicate Posted(slot: Slot, slot': Slot, l: Letter, content: Content) {
    && slot'.sid == slot.sid && slot'.generation == slot.generation && (slot.closed ==> slot'.closed)
    && (l.to != slot.sid ==> slot'.log.accepted == slot.log.accepted)
    && (l.to == slot.sid ==>
          || (slot'.log.accepted == slot.log.accepted + [content] && !slot.closed)
          || (slot'.log.accepted == slot.log.accepted && slot'.closed))
  }

  lemma PostToSlot(u: Setup, slot: Slot, slot': Slot, l: Letter, content: Content, handed: seq<Letter>)
    requires slot.generation > 0 && SlotHas(u, slot, To(handed, slot.sid)) && Posted(slot, slot', l, content)
    requires Carries(u, content.bytes, l.body)
    ensures SlotHas(u, slot', To(handed + [l], slot'.sid))
  {
    ToSnoc(handed, l, slot.sid);
    AllCarryMore(u, slot.log.accepted, To(handed, slot.sid), content, l.body);
    assert To(handed, slot.sid) + [] == To(handed, slot.sid);
  }

  lemma SlotPosts(s: Srv, s': Srv, l: Letter, p: Pkt, ok: bool, c: nat)
    requires RefsSettled(s) && RefsSettled(s') && GoesOn(s, s', c) && s.slots[c].generation > 0
    requires Issued(s, l.to) && s' == SendPacket(s, l.to, p, ok).srv
    ensures Posted(s.slots[c], s'.slots[c], l, ContentOf(s.packets.contents, p))
  {
    SameSid(s, s', c);
    SendAccepts(s, l.to, p, ok, c);
  }

  ghost predicate EveryPosted(slots: seq<Slot>, slots': seq<Slot>, l: Letter, content: Content) {
    && |slots'| == |slots|
    && forall c | 0 <= c < |slots| ::
         && slots'[c].generation == slots[c].generation
         && (slots[c].generation > 0 ==> Posted(slots[c], slots'[c], l, content))
  }

  lemma SlotsPost(s: Srv, s': Srv, l: Letter, p: Pkt, ok: bool)
    requires RefsSettled(s) && RefsSettled(s') && Issued(s, l.to) && s' == SendPacket(s, l.to, p, ok).srv
    requires |s'.slots| == |s.slots| && forall c: nat | c < |s.slots| :: GoesOn(s, s', c)
    ensures EveryPosted(s.slots, s'.slots, l, ContentOf(s.packets.contents, p))
  {
    forall c: nat | c < |s.slots|
      ensures s'.slots[c].generation == s.slots[c].generation
      ensures s.slots[c].generation > 0 ==> Posted(s.slots[c], s'.slots[c], l, ContentOf(s.packets.contents, p))
    {
      assert GoesOn(s, s', c);
      if s.slots[c].generation > 0 { SlotPosts(s, s', l, p, ok, c); }
    }
  }

  lemma SendPosts(s: R.Sys, l: Letter, ok: bool)
    requires R.Inv(s) && R.Enabled(s, R.SendTo(l.to, ok))
    ensures EveryPosted(s.srv.slots, R.Step(s, R.SendTo(l.to, ok)).srv.slots, l,
                        ContentOf(s.srv.packets.contents, s.out.value))
  {
    var a := R.SendTo(l.to, ok);
    R.StepRefs(s, a);
    forall c: nat | c < |s.srv.slots| ensures GoesOn(s.srv, R.Step(s, a).srv, c) { StepGoesOn(s, a, c); }
    SlotsPost(s.srv, R.Step(s, a).srv, l, s.out.value, ok);
  }

  lemma PostKeeps(u: Setup, s: R.Sys, l: Letter, ok: bool, handed: seq<Letter>)
    requires R.Inv(s) && R.Enabled(s, R.SendTo(l.to, ok)) && AllHave(u, s.srv.slots, handed)
    requires SaysWritten(u, s, Some(l.body))
    ensures AllHave(u, R.Step(s, R.SendTo(l.to, ok)).srv.slots, handed + [l])
  {
    SendPosts(s, l, ok);
    SlotsHave(u, s.srv.slots, R.Step(s, R.SendTo(l.to, ok)).srv.slots, l,
              ContentOf(s.srv.packets.contents, s.out.value), handed);
  }

  lemma SlotsHave(u: Setup, slots: seq<Slot>, slots': seq<Slot>, l: Letter, content: Content, handed: seq<Letter>)
    requires AllHave(u, slots, handed) && Carries(u, content.bytes, l.body) && EveryPosted(slots, slots', l, content)
    ensures AllHave(u, slots', handed + [l])
  {
    forall c | 0 <= c < |slots'| && slots'[c].generation > 0
      ensures SlotHas(u, slots'[c], To(handed + [l], slots'[c].sid))
    {
      PostToSlot(u, slots[c], slots'[c], l, content, handed);
    }
  }

  // ------------------------------------------------------ what is written

  lemma ContentsStay(s: R.Sys, a: R.Action)
    requires R.Enabled(s, a) && !a.Build? && !a.ReceiveDone?
    ensures R.Step(s, a).srv.packets.contents == s.srv.packets.contents
  {
    match a
    case Connect(_, _) =>
    case SendCompleted(_, _) =>
    case Failed(_) =>
    case Drop(_) =>
    case SendTo(_, _) =>
    case _ =>
  }

  /** While a packet is being broadcast nobody writes its buffer. */
  lemma OutStays(s: R.Sys, a: R.Action)
    requires R.Inv(s) && R.Enabled(s, a) && !a.Build? && !a.Finish? && s.out.Some?
    ensures R.Step(s, a).out == s.out
    ensures ContentOf(R.Step(s, a).srv.packets.contents, s.out.value) == ContentOf(s.srv.packets.contents, s.out.value)
  {
    if a.ReceiveDone? {
      R.RecvDoneKeepsHeld(s.srv, a.op, a.payloads, a.end, a.ok, R.Callers(s));
      assert s.out.value in R.Callers(s);
    } else {
      ContentsStay(s, a);
    }
  }

  lemma BuildSays(u: Setup, s: R.Sys, body: C.Body, nonce: Nonce)
    requires R.Enabled(s, R.Build(Encode(u.keys, nonce, u.wire(body))))
    ensures SaysWritten(u, R.Step(s, R.Build(Encode(u.keys, nonce, u.wire(body)))), Some(body))
  {
  }

  lemma WorldSays(u: Setup, w: W.World, act: W.Act, written: Option<C.Body>)
    requires W.Inv(w) && W.Enabled(w, act) && SaysWritten(u, w.sys, written)
    requires act.Run? ==> !act.a.Build? && !act.a.Finish?
    ensures SaysWritten(u, W.Step(w, act).sys, written)
  {
    if act.Run? && w.sys.out.Some? { OutStays(w.sys, act.a); }
  }

  // -------------------------------------------------------------- the steps

  /** What every step of the desk takes from the world's. */
  lemma WorldKeeps(u: Setup, d: Desk, act: W.Act)
    requires Inv(u, d) && W.Enabled(d.world, act)
    ensures var w' := W.Step(d.world, act);
      && W.Inv(w') && LettersIssued(w'.sys.srv, d.handed) && LettersIssued(w'.sys.srv, d.todo)
      && Older(d.world.sys.srv, w'.sys.srv)
  {
    W.StepKeeps(d.world, act);
    W.StepAges(d.world, act);
    LettersLast(d.world.sys.srv, W.Step(d.world, act).sys.srv, d.handed);
    LettersLast(d.world.sys.srv, W.Step(d.world, act).sys.srv, d.todo);
  }

  lemma WorldHas(u: Setup, d: Desk, act: W.Act)
    requires Inv(u, d) && W.Enabled(d.world, act) && (act.Run? ==> !act.a.SendTo?)
    ensures AllHave(u, W.Step(d.world, act).sys.srv.slots, d.handed)
  {
    if act.Run? {
      if act.a.Connect? {
        ConnectKeeps(u, d.world.sys, act.a, d.handed);
      } else {
        QuietStepKeeps(u, d.world.sys, act.a, d.handed);
      }
    }
  }

  lemma HandleKeeps(u: Setup, d: Desk, act: W.Act, letters: seq<Letter>)
    requires Inv(u, d) && Enabled(u, d, Handle(act, letters))
    ensures Inv(u, Step(u, d, Handle(act, letters)))
  {
    WorldKeeps(u, d, act);
    WorldHas(u, d, act);
    WorldSays(u, d.world, act, d.written);
    HandledAccounts(d.world.chat, d.events, d.handed, EventIn(d.world, act), letters);
    AskedIsIssued(d.world, act, letters);
    LettersLast(d.world.sys.srv, W.Step(d.world, act).sys.srv, letters);
  }

  lemma WriteKeeps(u: Setup, d: Desk, a: Act)
    requires Inv(u, d) && Enabled(u, d, a) && a.Write?
    ensures Inv(u, Step(u, d, a))
  {
    WorldKeeps(u, d, ActOf(u, d, a));
    WorldHas(u, d, ActOf(u, d, a));
    BuildSays(u, d.world.sys, a.body, a.nonce);
  }

  lemma PostStepKeeps(u: Setup, d: Desk, a: Act)
    requires Inv(u, d) && Enabled(u, d, a) && a.Post?
    ensures Inv(u, Step(u, d, a))
  {
    var act := ActOf(u, d, a);
    WorldKeeps(u, d, act);
    WorldSays(u, d.world, act, d.written);
    PostKeeps(u, d.world.sys, d.todo[0], a.ok, d.handed);
    PostedAccounts(d.events, d.handed, d.todo);
    LettersMove(W.Step(d.world, act).sys.srv, d.handed, d.todo);
  }

  lemma LettersMove(s: Srv, handed: seq<Letter>, todo: seq<Letter>)
    requires todo != [] && LettersIssued(s, handed) && LettersIssued(s, todo)
    ensures LettersIssued(s, handed + [todo[0]]) && LettersIssued(s, todo[1..])
  {
  }

  lemma OtherKeeps(u: Setup, d: Desk, act: W.Act)
    requires Inv(u, d) && Enabled(u, d, Other(act))
    ensures Inv(u, Step(u, d, Other(act)))
  {
    WorldKeeps(u, d, act);
    WorldHas(u, d, act);
    if !(act.Run? && act.a.Finish?) { WorldSays(u, d.world, act, d.written); }
    ChatStays(d.world, act);
  }

  lemma ChatStays(w: W.World, act: W.Act)
    requires W.Enabled(w, act) && !Handles(w, act)
    ensures W.Step(w, act).chat == w.chat
  {
  }

  lemma StepKeeps(u: Setup, d: Desk, a: Act)
    requires Inv(u, d) && Enabled(u, d, a)
    ensures Inv(u, Step(u, d, a))
  {
    match a
    case Handle(act, letters) => HandleKeeps(u, d, act, letters);
    case Write(_, _) => WriteKeeps(u, d, a);
    case Post(_) => PostStepKeeps(u, d, a);
    case Other(act) => OtherKeeps(u, d, act);
  }

  lemma {:induction false} RunKeeps(u: Setup, d: Desk, acts: seq<Act>)
    requires Inv(u, d) && EnabledRun(u, d, acts)
    ensures Inv(u, Final(u, d, acts))
    decreases |acts|
  {
    if acts != [] {
      StepKeeps(u, d, acts[0]);
      RunKeeps(u, Step(u, d, acts[0]), acts[1..]);
    }
  }

  lemma StartKeeps(u: Setup, n: nat)
    requires n <= 0xFFFF
    ensures Inv(u, Start(n))
  {
    W.StartKeeps(n);
  }

  lemma Reachable(u: Setup, n: nat, acts: seq<Act>)
    requires n <= 0xFFFF && EnabledRun(u, Start(n), acts)
    ensures Inv(u, Final(u, Start(n), acts))
  {
    StartKeeps(u, n);
    RunKeeps(u, Start(n), acts);
  }

  // ----------------------------------------------------------- theorems

  /** What a session has accepted is, packet for packet, the mail of the events handled so far:
      all of it while the session is open and the current event has been sent in full; without
      what is still to be sent meanwhile; and what had been sent by then once it is closed. */
  lemma MailIsAccepted(u: Setup, n: nat, acts: seq<Act>, c: nat)
    requires n <= 0xFFFF && EnabledRun(u, Start(n), acts)
    requires var slots := Final(u, Start(n), acts).world.sys.srv.slots; c < |slots| && slots[c].generation > 0
    ensures var d := Final(u, Start(n), acts);
      var slot := d.world.sys.srv.slots[c];
      && C.Sound(C.EMPTY_HALL)
      && To(d.handed, slot.sid) + To(d.todo, slot.sid) == C.AllMail(C.EMPTY_HALL, d.events, slot.sid)
      && AllCarry(u, slot.log.accepted, C.AllMail(C.EMPTY_HALL, d.events, slot.sid))
      && (EngineRefs.Open(slot) ==> |slot.log.accepted| == |To(d.handed, slot.sid)|)
      && (EngineRefs.Open(slot) && d.todo == [] ==>
            |slot.log.accepted| == |C.AllMail(C.EMPTY_HALL, d.events, slot.sid)|)
  {
    Reachable(u, n, acts);
    var d := Final(u, Start(n), acts);
    var slot := d.world.sys.srv.slots[c];
    assert SlotHas(u, slot, To(d.handed, slot.sid));
    AllCarryPast(u, slot.log.accepted, To(d.handed, slot.sid), To(d.todo, slot.sid));
  }

  lemma AllCarryPast(u: Setup, log: seq<Content>, bodies: seq<C.Body>, more: seq<C.Body>)
    requires AllCarry(u, log, bodies)
    ensures AllCarry(u, log, bodies + more)
  {
  }

  /** The buffers of a log one after another: what WSASend is given. */
  function BytesOf(log: seq<Content>): seq<byte> {
    if log == [] then [] else log[0].bytes + BytesOf(log[1..])
  }

  /** The payloads those bodies are written as. */
  function Written(u: Setup, bodies: seq<C.Body>): (r: seq<seq<byte>>)
    ensures |r| == |bodies|
    ensures forall i | 0 <= i < |bodies| :: r[i] == u.wire(bodies[i])
  {
    if bodies == [] then [] else [u.wire(bodies[0])] + Written(u, bodies[1..])
  }

  lemma {:induction false} CarriedIsStream(u: Setup, log: seq<Content>, bodies: seq<C.Body>)
    returns (out: seq<F.Outgoing>)
    requires AllCarry(u, log, bodies)
    ensures |out| == |log| && forall i | 0 <= i < |out| :: out[i].payload == u.wire(bodies[i])
    ensures BytesOf(log) == F.Stream(u.keys, out)
    decreases |log|
  {
    if log == [] {
      out := [];
    } else {
      assert Carries(u, log[0].bytes, bodies[0]);
      var nonce: Nonce :| log[0].bytes == Encode(u.keys, nonce, u.wire(bodies[0]));
      var rest := CarriedIsStream(u, log[1..], bodies[1..]);
      out := [F.Outgoing(nonce, u.wire(bodies[0]))] + rest;
      assert out[1..] == rest;
    }
  }

  /** What a client makes of everything posted to it. */
  lemma PostedIsHeard(u: Setup, log: seq<Content>, bodies: seq<C.Body>, chunks: seq<seq<byte>>)
    requires AllCarry(u, log, bodies) && forall b: C.Body :: |u.wire(b)| <= K.CLIENT_MAX
    requires F.Concat(chunks) == BytesOf(log) && K.FitsClient(u.keys, F.NOTHING, chunks)
    ensures K.TakeAll(u.keys, F.NOTHING, chunks) == F.Parse(Written(u, bodies[..|log|]), [], F.Open)
  {
    var out := CarriedIsStream(u, log, bodies);
    K.ClientEndToEnd(u.keys, out, chunks);
    assert F.Payloads(out) == Written(u, bodies[..|log|]);
  }

  lemma PostedIsPrefix(u: Setup, d: Desk, c: nat)
    requires Inv(u, d) && c < |d.world.sys.srv.slots|
    ensures var slot := d.world.sys.srv.slots[c];
      && slot.log.posted <= slot.log.accepted
      && (EngineRefs.Open(slot) && slot.queue == [] ==> slot.log.posted == slot.log.accepted)
  {
    R.SlotOrdered(d.world.sys, c);
  }

  /** From the handlers to the client: however the network cuts what has been posted to a
      session, its client decodes exactly what the handled events had to say to it, in order,
      as far as it has been posted; and everything is posted once the current event has been
      sent in full and the open session's queue is empty. */
  lemma ClientHearsItsMail(u: Setup, n: nat, acts: seq<Act>, c: nat, chunks: seq<seq<byte>>)
    requires n <= 0xFFFF && EnabledRun(u, Start(n), acts) && forall b: C.Body :: |u.wire(b)| <= K.CLIENT_MAX
    requires var slots := Final(u, Start(n), acts).world.sys.srv.slots;
      && c < |slots| && slots[c].generation > 0
      && F.Concat(chunks) == BytesOf(slots[c].log.posted) && K.FitsClient(u.keys, F.NOTHING, chunks)
    ensures C.Sound(C.EMPTY_HALL)
    ensures var d := Final(u, Start(n), acts);
      var slot := d.world.sys.srv.slots[c];
      var mail := C.AllMail(C.EMPTY_HALL, d.events, slot.sid);
      && |slot.log.posted| <= |mail|
      && K.TakeAll(u.keys, F.NOTHING, chunks) == F.Parse(Written(u, mail[..|slot.log.posted|]), [], F.Open)
      && (EngineRefs.Open(slot) && slot.queue == [] && d.todo == [] ==> |slot.log.posted| == |mail|)
  {
    Reachable(u, n, acts);
    MailIsAccepted(u, n, acts, c);
    var d := Final(u, Start(n), acts);
    var slot := d.world.sys.srv.slots[c];
    var mail := C.AllMail(C.EMPTY_HALL, d.events, slot.sid);
    PostedIsPrefix(u, d, c);
    FewerCarry(u, slot.log.posted, slot.log.accepted, mail);
    PostedIsHeard(u, slot.log.posted, mail, chunks);
  }

  lemma FewerCarry(u: Setup, posted: seq<Content>, accepted: seq<Content>, bodies: seq<C.Body>)
    requires posted <= accepted && AllCarry(u, accepted, bodies)
    ensures AllCarry(u, posted, bodies)
  {
  }
}

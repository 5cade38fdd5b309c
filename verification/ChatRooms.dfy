/**
  The content layer as values: players, the five rooms, and what each handler of
  CChatServer makes of them. The Update thread handles one event at a time.
*/
module ChatRooms {
  import opened SessionId
  import opened DbPipeline

  const MAX_ROOM_COUNT: nat := 5
  const MAX_LIMIT_PERSON: nat := 50
  const MAX_CHAT_LEN: nat := 256
  const INVALID_ROOM_NO: nat := 0xFFFF

  datatype PlayerState = NotLoggedIn | LoggedIn | InRoom

  datatype Player = Player(state: PlayerState, roomNo: nat, userNo: int, nickname: string)

  const NEWCOMER := Player(NotLoggedIn, INVALID_ROOM_NO, 0, "")

  /** `rooms[k]` is the key set of room number k + 1. */
  datatype Chat = Chat(players: map<SessionID, Player>, rooms: seq<set<SessionID>>)

  const EMPTY_HALL := Chat(map[], [{}, {}, {}, {}, {}])

  /** A request, once its fields are read off the packet. */
  datatype Request =
    | LoginReq(account: string, password: string)
    | SignUpReq(newAccount: string, newPassword: string, nickname: string)
    | EnterReq(no: nat)
    | LeaveReq
    | ChatReq(text: string)
    | Unknown

  datatype Event =
    | Joined(sid: SessionID)
    | Left(sid: SessionID)
    | Asked(sid: SessionID, req: Request)
    | Answered(result: DbResult)

  /** GetRoom finds a room. */
  predicate RoomExists(no: nat) {
    0 < no <= MAX_ROOM_COUNT
  }

  /** The player itself says it is in room `no`. */
  predicate Records(c: Chat, sid: SessionID, no: nat) {
    sid in c.players && c.players[sid].state.InRoom? && c.players[sid].roomNo == no
  }

  /** What every handler keeps, whatever happens: a player that says it is in a room names
      a room there is, and is among its members; no room has more than 50. */
  ghost predicate Sound(c: Chat) {
    && |c.rooms| == MAX_ROOM_COUNT
    && (forall sid | sid in c.players && c.players[sid].state.InRoom? ::
          RoomExists(c.players[sid].roomNo) && sid in c.rooms[c.players[sid].roomNo - 1])
    && (forall k | 0 <= k < MAX_ROOM_COUNT :: |c.rooms[k]| <= MAX_LIMIT_PERSON)
  }

  // ------------------------------------------------------------ handlers

  function RoomRemove(c: Chat, no: nat, sid: SessionID): Chat
    requires RoomExists(no) && |c.rooms| == MAX_ROOM_COUNT
  {
    c.(rooms := c.rooms[no - 1 := c.rooms[no - 1] - {sid}])
  }

  function RoomAdd(c: Chat, no: nat, sid: SessionID): Chat
    requires RoomExists(no) && |c.rooms| == MAX_ROOM_COUNT
  {
    c.(rooms := c.rooms[no - 1 := c.rooms[no - 1] + {sid}])
  }

  function HandleJoin(c: Chat, sid: SessionID): (r: Chat)
    requires Sound(c)
    ensures Sound(r) && r.players.Keys == c.players.Keys + {sid}
  {
    if sid in c.players then c else c.(players := c.players[sid := NEWCOMER])
  }

  function HandleLeave(c: Chat, sid: SessionID): (r: Chat)
    requires Sound(c)
    ensures Sound(r) && r.players.Keys == c.players.Keys - {sid}
  {
    if sid !in c.players then c
    else
      var c1 := if c.players[sid].state.InRoom? then RoomRemove(c, c.players[sid].roomNo, sid) else c;
      c1.(players := c1.players - {sid})
  }

  /** CRoom::EnterRoom admits the player. */
  predicate Admits(room: set<SessionID>, sid: SessionID) {
    |room| < MAX_LIMIT_PERSON && sid !in room
  }

  /** The room lets the player in before the player's own check can refuse. */
  function HandleRoomEnter(c: Chat, sid: SessionID, no: nat): (r: Chat)
    requires Sound(c)
    ensures Sound(r) && r.players.Keys == c.players.Keys
  {
    if sid !in c.players || !RoomExists(no) || !Admits(c.rooms[no - 1], sid) then c
    else
      var c1 := RoomAdd(c, no, sid);
      if c.players[sid].state.InRoom? then c1
      else c1.(players := c.players[sid := c.players[sid].(roomNo := no, state := InRoom)])
  }

  function HandleRoomLeave(c: Chat, sid: SessionID): (r: Chat)
    requires Sound(c)
    ensures Sound(r) && r.players.Keys == c.players.Keys
  {
    if sid !in c.players || !c.players[sid].state.InRoom? then c
    else
      var p := c.players[sid].(roomNo := INVALID_ROOM_NO, state := LoggedIn);
      RoomRemove(c, c.players[sid].roomNo, sid).(players := c.players[sid := p])
  }

  predicate LoginSucceeds(r: DbResult) {
    r.kind.Login? && r.result == 0
  }

  /** SetNickname also sets the state, whatever it was. */
  function HandleDbResult(c: Chat, d: DbResult): (r: Chat)
    requires Sound(c)
    ensures Sound(r) && r.players.Keys == c.players.Keys
  {
    if d.sid !in c.players || !LoginSucceeds(d) then c
    else
      var p := c.players[d.sid].(userNo := d.userNo, nickname := d.nickname, state := LoggedIn);
      c.(players := c.players[d.sid := p])
  }

  function HandleRequest(c: Chat, sid: SessionID, req: Request): (r: Chat)
    requires Sound(c)
    ensures Sound(r) && r.players.Keys == c.players.Keys
  {
    match req
    case EnterReq(no) => HandleRoomEnter(c, sid, no)
    case LeaveReq => HandleRoomLeave(c, sid)
    case _ => c
  }

  /** One event. The contract is the unconditional half of the room/player agreement. */
  function Step(c: Chat, e: Event): (r: Chat)
    requires Sound(c)
    ensures Sound(r)
  {
    match e
    case Joined(sid) => HandleJoin(c, sid)
    case Left(sid) => HandleLeave(c, sid)
    case Asked(sid, req) => HandleRequest(c, sid, req)
    case Answered(d) => HandleDbResult(c, d)
  }

  function Run(c: Chat, es: seq<Event>): (r: Chat)
    requires Sound(c)
    ensures Sound(r)
    decreases |es|
  {
    if es == [] then c else Run(Step(c, es[0]), es[1..])
  }

  // ------------------------------------------------------- what is sent

  datatype Body =
    | LoginRes(code: nat, userNo: int, nickname: string)
    | SignUpRes(code: nat, newUserNo: int)
    | EnterRes(no: nat)
    | UserJoin(who: string)
    | UserLeave(who: string)
    | ChatRes(speaker: string, text: string)

  /** MapLoginResult and MapSignUpResult. */
  function ResultCode(d: DbResult): nat {
    match d.kind
    case Login => if d.result == 0 then 0 else if d.result == 1 then 6 else if d.result == 2 then 7 else 1
    case SignUp => if d.result == 0 then 0 else if d.result == 1 then 8 else if d.result == 2 then 9 else 1
  }

  function If(b: bool, body: Body): seq<Body> {
    if b then [body] else []
  }

  function EnterMail(c: Chat, sid: SessionID, no: nat, q: SessionID): seq<Body>
    requires Sound(c)
  {
    if sid !in c.players || !RoomExists(no) || !Admits(c.rooms[no - 1], sid) || c.players[sid].state.InRoom? then []
    else If(q == sid, EnterRes(no)) + If(q in c.rooms[no - 1], UserJoin(c.players[sid].nickname))
  }

  function LeaveMail(c: Chat, sid: SessionID, q: SessionID): seq<Body>
    requires Sound(c)
  {
    if sid !in c.players || !c.players[sid].state.InRoom? then []
    else If(q in c.rooms[c.players[sid].roomNo - 1] - {sid}, UserLeave(c.players[sid].nickname))
  }

  function ChatMail(c: Chat, sid: SessionID, text: string, q: SessionID): seq<Body>
    requires Sound(c)
  {
    if |text| > MAX_CHAT_LEN || sid !in c.players || !c.players[sid].state.InRoom? then []
    else If(q in c.rooms[c.players[sid].roomNo - 1], ChatRes(c.players[sid].nickname, text))
  }

  function DbMail(c: Chat, d: DbResult, q: SessionID): seq<Body> {
    if d.sid !in c.players then []
    else If(q == d.sid, match d.kind
                        case Login => LoginRes(ResultCode(d), d.userNo, d.nickname)
                        case SignUp => SignUpRes(ResultCode(d), d.userNo))
  }

  /** What `q` is sent while the event is handled, in order. */
  function Mail(c: Chat, e: Event, q: SessionID): seq<Body>
    requires Sound(c)
  {
    match e
    case Asked(sid, EnterReq(no)) => EnterMail(c, sid, no, q)
    case Asked(sid, LeaveReq) => LeaveMail(c, sid, q)
    case Asked(sid, ChatReq(text)) => ChatMail(c, sid, text, q)
    case Answered(d) => DbMail(c, d, q)
    case _ => []
  }

  /** What `q` is sent over a run. */
  function AllMail(c: Chat, es: seq<Event>, q: SessionID): seq<Body>
    requires Sound(c)
    decreases |es|
  {
    if es == [] then [] else Mail(c, es[0], q) + AllMail(Step(c, es[0]), es[1..], q)
  }

  lemma {:induction false} RunSnoc(c: Chat, es: seq<Event>, e: Event)
    requires Sound(c)
    ensures Run(c, es + [e]) == Step(Run(c, es), e)
    decreases |es|
  {
    if es == [] {
      assert [e][1..] == [] && es + [e] == [e];
    } else {
      assert (es + [e])[1..] == es[1..] + [e];
      RunSnoc(Step(c, es[0]), es[1..], e);
    }
  }

  lemma {:induction false} AllMailSnoc(c: Chat, es: seq<Event>, e: Event, q: SessionID)
    requires Sound(c)
    ensures AllMail(c, es + [e], q) == AllMail(c, es, q) + Mail(Run(c, es), e, q)
    decreases |es|
  {
    if es == [] {
      assert [e][1..] == [] && es + [e] == [e];
      assert AllMail(c, [e], q) == Mail(c, e, q) + [];
    } else {
      assert (es + [e])[1..] == es[1..] + [e];
      AllMailSnoc(Step(c, es[0]), es[1..], e, q);
    }
  }

  /** The job a request hands to the database worker, if any. */
  function NewJobs(c: Chat, e: Event): seq<Job> {
    if !e.Asked? || e.sid !in c.players then []
    else
      match e.req
      case LoginReq(account, password) => [Job(Login, e.sid, account, password, "")]
      case SignUpReq(account, password, nickname) => [Job(SignUp, e.sid, account, password, nickname)]
      case _ => []
  }

  /** The job hands over what the request asks for, on behalf of whoever asked. */
  predicate JobFor(job: Job, sid: SessionID, req: Request) {
    && job.sid == sid
    && match req
       case LoginReq(account, password) => job.kind.Login? && job.account == account && job.password == password
       case SignUpReq(account, password, nickname) =>
         job.kind.SignUp? && job.account == account && job.password == password && job.nickname == nickname
       case _ => false
  }

  // ------------------------------------------------------ exact agreement

  /** Each room's members are exactly the players that say they are in it. */
  ghost predicate Exact(c: Chat) {
    && |c.rooms| == MAX_ROOM_COUNT
    && forall k, sid | 0 <= k < MAX_ROOM_COUNT :: sid in c.rooms[k] <==> Records(c, sid, k + 1)
  }

  /** A member of room k + 1 that does not say so itself. */
  ghost predicate Stale(c: Chat, sid: SessionID, k: nat) {
    k < MAX_ROOM_COUNT && |c.rooms| == MAX_ROOM_COUNT && sid in c.rooms[k] && !Records(c, sid, k + 1)
  }

  /** A player already in a room enters another that admits it, or logs in. */
  predicate Breaks(c: Chat, e: Event) {
    match e
    case Asked(sid, req) =>
      && req.EnterReq? && sid in c.players && c.players[sid].state.InRoom?
      && RoomExists(req.no) && |c.rooms| == MAX_ROOM_COUNT && Admits(c.rooms[req.no - 1], sid)
    case Answered(d) => d.sid in c.players && c.players[d.sid].state.InRoom? && LoginSucceeds(d)
    case _ => false
  }

  /** The only way a sound hall is not exact. */
  lemma InexactIsStale(c: Chat)
    requires Sound(c)
    ensures Exact(c) <==> !exists sid, k: nat :: Stale(c, sid, k)
  {
    if !Exact(c) {
      var k: nat, sid :| k < MAX_ROOM_COUNT && !(sid in c.rooms[k] <==> Records(c, sid, k + 1));
      assert Stale(c, sid, k);
    }
  }

  lemma ExactRoomEnter(c: Chat, sid: SessionID, no: nat)
    requires Sound(c) && Exact(c)
    ensures Exact(HandleRoomEnter(c, sid, no)) <==> !Breaks(c, Asked(sid, EnterReq(no)))
  {
    if Breaks(c, Asked(sid, EnterReq(no))) {
      assert Stale(HandleRoomEnter(c, sid, no), sid, no - 1);
    }
  }

  lemma ExactDbResult(c: Chat, d: DbResult)
    requires Sound(c) && Exact(c)
    ensures Exact(HandleDbResult(c, d)) <==> !Breaks(c, Answered(d))
  {
    if Breaks(c, Answered(d)) {
      assert Stale(HandleDbResult(c, d), d.sid, c.players[d.sid].roomNo - 1);
    }
  }

  lemma ExactDeparture(c: Chat, sid: SessionID)
    requires Sound(c) && Exact(c)
    ensures Exact(HandleJoin(c, sid)) && Exact(HandleLeave(c, sid)) && Exact(HandleRoomLeave(c, sid))
  {
  }

  /** Exactness survives precisely the events that do not break it. */
  lemma ExactStep(c: Chat, e: Event)
    requires Sound(c) && Exact(c)
    ensures Exact(Step(c, e)) <==> !Breaks(c, e)
  {
    match e
    case Joined(sid) => ExactDeparture(c, sid);
    case Left(sid) => ExactDeparture(c, sid);
    case Asked(sid, EnterReq(no)) => ExactRoomEnter(c, sid, no);
    case Asked(sid, LeaveReq) => ExactDeparture(c, sid);
    case Asked(_, _) =>
    case Answered(d) => ExactDbResult(c, d);
  }

  lemma StaleThroughRequest(c: Chat, other: SessionID, req: Request, sid: SessionID, k: nat)
    requires Sound(c) && Stale(c, sid, k)
    ensures Stale(HandleRequest(c, other, req), sid, k)
  {
  }

  lemma StaleThroughLeave(c: Chat, other: SessionID, sid: SessionID, k: nat)
    requires Sound(c) && Stale(c, sid, k)
    ensures Stale(HandleLeave(c, other), sid, k)
  {
  }

  /** A stale entry is never removed. */
  lemma StaleStays(c: Chat, e: Event, sid: SessionID, k: nat)
    requires Sound(c) && Stale(c, sid, k)
    ensures Stale(Step(c, e), sid, k)
  {
    match e
    case Joined(_) =>
    case Left(other) => StaleThroughLeave(c, other, sid, k);
    case Asked(other, req) => StaleThroughRequest(c, other, req, sid, k);
    case Answered(_) =>
  }

  lemma {:induction false} StaleForever(c: Chat, es: seq<Event>, sid: SessionID, k: nat)
    requires Sound(c) && Stale(c, sid, k)
    ensures Stale(Run(c, es), sid, k)
    decreases |es|
  {
    if es != [] {
      StaleStays(c, es[0], sid, k);
      StaleForever(Step(c, es[0]), es[1..], sid, k);
    }
  }

  /** No event of the run breaks exactness. */
  ghost predicate NoneBreaks(c: Chat, es: seq<Event>)
    requires Sound(c)
    decreases |es|
  {
    es == [] || (!Breaks(c, es[0]) && NoneBreaks(Step(c, es[0]), es[1..]))
  }

  /** So a run ends with rooms and players in exact agreement if and only if no event of it
      entered a room or logged in as a player already in one. */
  lemma {:induction false} ExactRun(c: Chat, es: seq<Event>)
    requires Sound(c) && Exact(c)
    ensures Exact(Run(c, es)) <==> NoneBreaks(c, es)
    decreases |es|
  {
    if es != [] {
      var c1 := Step(c, es[0]);
      ExactStep(c, es[0]);
      if Breaks(c, es[0]) {
        InexactIsStale(c1);
        var sid, k: nat :| Stale(c1, sid, k);
        StaleForever(c1, es[1..], sid, k);
      } else {
        ExactRun(c1, es[1..]);
      }
    }
  }

  /** It does happen: joining and entering two rooms makes a player a member of both. */
  lemma EnteringTwoRooms(sid: SessionID)
    ensures Stale(Run(EMPTY_HALL, [Joined(sid), Asked(sid, EnterReq(1)), Asked(sid, EnterReq(2))]), sid, 1)
  {
    EnteredOne(sid);
    RunThree(EMPTY_HALL, Joined(sid), Asked(sid, EnterReq(1)), Asked(sid, EnterReq(2)));
  }

  /** And logging in inside a room leaves a member that no longer says it is there. */
  lemma LoggingInInsideARoom(sid: SessionID, userNo: int, nickname: string)
    ensures Stale(Run(EMPTY_HALL, [Joined(sid), Asked(sid, EnterReq(1)),
                                   Answered(DbResult(Login, sid, 0, userNo, nickname))]), sid, 0)
  {
    EnteredOne(sid);
    RunThree(EMPTY_HALL, Joined(sid), Asked(sid, EnterReq(1)), Answered(DbResult(Login, sid, 0, userNo, nickname)));
  }

  lemma EnteredOne(sid: SessionID)
    ensures var c := HandleRoomEnter(HandleJoin(EMPTY_HALL, sid), sid, 1);
      && c.players == map[sid := NEWCOMER.(roomNo := 1, state := InRoom)]
      && c.rooms == [{sid}, {}, {}, {}, {}]
  {
  }

  lemma RunThree(c: Chat, a: Event, b: Event, d: Event)
    requires Sound(c)
    ensures Run(c, [a, b, d]) == Step(Step(Step(c, a), b), d)
  {
    assert [a, b, d][1..] == [b, d] && [b, d][1..] == [d];
    assert Run(Step(Step(c, a), b), [d]) == Step(Step(Step(c, a), b), d);
  }

  // ---------------------------------------------------------- who hears

  /** A chat message of at most 256 characters goes to the members of the room the speaker says it
      is in, once each; a longer one to nobody. */
  lemma ChatGoesToMembers(c: Chat, sid: SessionID, text: string, q: SessionID)
    requires Sound(c)
    ensures var mail := Mail(c, Asked(sid, ChatReq(text)), q);
      && (mail != [] <==> |text| <= 256 && exists no | 1 <= no <= 5 :: Records(c, sid, no) && q in c.rooms[no - 1])
      && (mail != [] ==> mail == [ChatRes(c.players[sid].nickname, text)])
  {
    if sid in c.players && c.players[sid].state.InRoom? { assert Records(c, sid, c.players[sid].roomNo); }
  }

  /** An admission is announced to whoever is then a member: the newcomer gets the answer, the
      others the notice. */
  lemma EnterGoesToMembers(c: Chat, sid: SessionID, no: nat, q: SessionID)
    requires Sound(c)
    ensures var mail, after := Mail(c, Asked(sid, EnterReq(no)), q), Step(c, Asked(sid, EnterReq(no)));
      && (mail != [] <==> 1 <= no <= 5 && Records(after, sid, no) && !Records(c, sid, no) && q in after.rooms[no - 1])
      && (mail != [] ==> mail == if q == sid then [EnterRes(no)] else [UserJoin(c.players[sid].nickname)])
  {
  }

  /** A departure is announced to whoever is still a member. */
  lemma LeaveGoesToMembers(c: Chat, sid: SessionID, q: SessionID)
    requires Sound(c)
    ensures var mail, after := Mail(c, Asked(sid, LeaveReq), q), Step(c, Asked(sid, LeaveReq));
      && (mail != [] <==> exists no | 1 <= no <= 5 :: Records(c, sid, no) && q in after.rooms[no - 1])
      && (mail != [] ==> mail == [UserLeave(c.players[sid].nickname)])
  {
    if sid in c.players && c.players[sid].state.InRoom? { assert Records(c, sid, c.players[sid].roomNo); }
  }

  /** Under exact agreement the members of a room are the players that say they are in it. */
  lemma MembersSaySo(c: Chat, q: SessionID, no: nat)
    requires Exact(c) && 1 <= no <= 5
    ensures q in c.rooms[no - 1] <==> Records(c, q, no)
  {
    assert q in c.rooms[no - 1] <==> Records(c, q, no - 1 + 1);
  }

  /** So then a chat message of at most 256 characters reaches exactly the players in the
      speaker's room, the speaker among them; a longer one nobody. */
  lemma ChatReachesTheRoom(c: Chat, sid: SessionID, text: string, q: SessionID)
    requires Sound(c) && Exact(c)
    ensures var mail := Mail(c, Asked(sid, ChatReq(text)), q);
      && (mail != [] <==> |text| <= 256 && exists no :: Records(c, sid, no) && Records(c, q, no))
      && (mail != [] ==> mail == [ChatRes(c.players[sid].nickname, text)])
  {
    ChatGoesToMembers(c, sid, text, q);
    forall no: nat | 1 <= no <= 5 ensures q in c.rooms[no - 1] <==> Records(c, q, no) { MembersSaySo(c, q, no); }
  }

  /** An admission is announced to exactly the players then in the room. */
  lemma EnterIsAnnounced(c: Chat, sid: SessionID, no: nat, q: SessionID)
    requires Sound(c) && Exact(c)
    ensures var mail, after := Mail(c, Asked(sid, EnterReq(no)), q), Step(c, Asked(sid, EnterReq(no)));
      && (mail != [] <==> Records(after, sid, no) && !Records(c, sid, no) && Records(after, q, no))
      && (mail != [] ==> mail == if q == sid then [EnterRes(no)] else [UserJoin(c.players[sid].nickname)])
  {
    EnterGoesToMembers(c, sid, no, q);
    if 1 <= no <= 5 {
      MembersSaySo(c, q, no);
      MembersSaySo(c, sid, no);
    }
  }

  /** And a departure to exactly those who stay. */
  lemma LeaveIsAnnounced(c: Chat, sid: SessionID, q: SessionID)
    requires Sound(c) && Exact(c)
    ensures var mail, after := Mail(c, Asked(sid, LeaveReq), q), Step(c, Asked(sid, LeaveReq));
      && (mail != [] <==> exists no :: Records(c, sid, no) && !Records(after, sid, no) && Records(after, q, no))
      && (mail != [] ==> mail == [UserLeave(c.players[sid].nickname)])
  {
    LeaveGoesToMembers(c, sid, q);
    forall no: nat | 1 <= no <= 5 ensures q in c.rooms[no - 1] <==> Records(c, q, no) { MembersSaySo(c, q, no); }
  }

  /** The player named in a result, if it is still there, and nobody else gets one answer, of the
      result's kind: code 0 if and only if the result is 0, else the code of its table. */
  lemma ResultIsAnswered(c: Chat, d: DbResult, q: SessionID)
    requires Sound(c)
    ensures var mail := Mail(c, Answered(d), q);
      if q != d.sid || q !in c.players then mail == []
      else
        && |mail| == 1
        && match d.kind
           case Login =>
             && mail[0].LoginRes? && mail[0].userNo == d.userNo && mail[0].nickname == d.nickname
             && mail[0].code == LOGIN_CODES[if 0 <= d.result <= 2 then d.result else 3]
           case SignUp =>
             && mail[0].SignUpRes? && mail[0].newUserNo == d.userNo
             && mail[0].code == SIGN_UP_CODES[if 0 <= d.result <= 2 then d.result else 3]
  {
  }

  /** The codes of results 0, 1, 2 and any other. */
  const LOGIN_CODES: seq<nat> := [0, 6, 7, 1]
  const SIGN_UP_CODES: seq<nat> := [0, 8, 9, 1]

  /** Joining, leaving, asking the database and requests unknown are answered to nobody. */
  lemma SilentEvents(c: Chat, e: Event, q: SessionID)
    requires Sound(c) && (e.Asked? ==> e.req.LoginReq? || e.req.SignUpReq? || e.req.Unknown?) && !e.Answered?
    ensures Mail(c, e, q) == []
  {
  }

  // ------------------------------------------------- what events change

  /** Whom an event is about. */
  function Subject(e: Event): SessionID {
    if e.Answered? then e.result.sid else e.sid
  }

  /** The members of room k + 1 after an event: one comes when it asks to enter, is a player, and
      the room has fewer than 50; one goes when it leaves the room it says it is in, or the
      server. */
  lemma MembersAfter(c: Chat, e: Event, q: SessionID, k: nat)
    requires Sound(c) && k < 5
    ensures |Step(c, e).rooms| == 5
    ensures q in Step(c, e).rooms[k] <==>
              if q == Subject(e) && e.Asked? && e.req == EnterReq(k + 1) then
                q in c.rooms[k] || (q in c.players && |c.rooms[k]| < 50)
              else if q == Subject(e) && (e.Left? || (e.Asked? && e.req.LeaveReq?)) then
                q in c.rooms[k] && !Records(c, q, k + 1)
              else q in c.rooms[k]
  {
    if e.Asked? && e.req.EnterReq? { EntrantJoins(c, e.sid, e.req.no, q, k); }
  }

  lemma EntrantJoins(c: Chat, sid: SessionID, no: nat, q: SessionID, k: nat)
    requires Sound(c) && k < 5
    ensures |HandleRoomEnter(c, sid, no).rooms| == 5
    ensures q in HandleRoomEnter(c, sid, no).rooms[k] <==>
              q in c.rooms[k] || (q == sid && no == k + 1 && q in c.players && |c.rooms[k]| < 50)
  {
  }

  /** The room a player asks for lets it in. */
  predicate LetIn(c: Chat, sid: SessionID, no: nat)
    requires |c.rooms| == MAX_ROOM_COUNT
  {
    1 <= no <= 5 && |c.rooms[no - 1]| < 50 && sid !in c.rooms[no - 1]
  }

  /** A player after an event. A newcomer is nobody; a login that succeeds sets number, nickname
      and state; a player outside enters the room that lets it in, and one inside leaves to
      nowhere; nothing else changes anybody. */
  lemma PlayerAfter(c: Chat, e: Event, q: SessionID)
    requires Sound(c) && q in Step(c, e).players
    ensures var p' := Step(c, e).players[q];
      if q !in c.players then e == Joined(q) && p' == Player(NotLoggedIn, 0xFFFF, 0, "")
      else
        var p := c.players[q];
        p' == if q != Subject(e) then p
              else
                match e
                case Answered(d) =>
                  if d.kind.Login? && d.result == 0 then Player(LoggedIn, p.roomNo, d.userNo, d.nickname) else p
                case Asked(_, EnterReq(no)) =>
                  if !p.state.InRoom? && LetIn(c, q, no) then Player(InRoom, no, p.userNo, p.nickname) else p
                case Asked(_, LeaveReq) =>
                  if p.state.InRoom? then Player(LoggedIn, 0xFFFF, p.userNo, p.nickname) else p
                case _ => p
  {
  }

  /** LeaveRoom sets the state that only a login should: whoever enters a room and leaves it
      again counts as logged in. */
  lemma LoggedInWithoutLogin(sid: SessionID)
    ensures var c := Run(EMPTY_HALL, [Joined(sid), Asked(sid, EnterReq(1)), Asked(sid, LeaveReq)]);
      sid in c.players && c.players[sid] == Player(LoggedIn, 0xFFFF, 0, "")
  {
    EnteredOne(sid);
    RunThree(EMPTY_HALL, Joined(sid), Asked(sid, EnterReq(1)), Asked(sid, LeaveReq));
  }

  /** A result concerns the player that asked, and no room. */
  lemma ResultTouchesItsPlayer(c: Chat, d: DbResult, q: SessionID)
    requires Sound(c) && q != d.sid
    ensures var after := Step(c, Answered(d));
      && after.rooms == c.rooms
      && (q in after.players <==> q in c.players)
      && (q in c.players ==> after.players[q] == c.players[q])
  {
  }

  /** The players of the map and the members of the rooms. */
  ghost predicate Known(c: Chat, ids: iset<SessionID>) {
    && (forall sid | sid in c.players :: sid in ids)
    && (forall k, sid | 0 <= k < |c.rooms| && sid in c.rooms[k] :: sid in ids)
  }

  lemma RequestKnown(c: Chat, sid: SessionID, req: Request, ids: iset<SessionID>)
    requires Sound(c) && Known(c, ids)
    ensures Known(HandleRequest(c, sid, req), ids)
  {
  }

  lemma StepKnown(c: Chat, e: Event, ids: iset<SessionID>)
    requires Sound(c) && Known(c, ids) && (e.Joined? ==> e.sid in ids)
    ensures Known(Step(c, e), ids)
  {
    if e.Asked? { RequestKnown(c, e.sid, e.req, ids); }
  }

  lemma MailKnown(c: Chat, e: Event, ids: iset<SessionID>, q: SessionID)
    requires Sound(c) && Known(c, ids) && Mail(c, e, q) != []
    ensures q in ids
  {
  }

  /** Nothing is sent to, and nothing is remembered of, an identifier that never joined. */
  lemma OnlyKnownIds(c: Chat, e: Event, ids: iset<SessionID>, q: SessionID)
    requires Sound(c) && Known(c, ids) && (e.Joined? ==> e.sid in ids)
    ensures Known(Step(c, e), ids)
    ensures Mail(c, e, q) != [] ==> q in ids
    ensures forall job | job in NewJobs(c, e) :: job.sid in ids
  {
    StepKnown(c, e, ids);
    if Mail(c, e, q) != [] { MailKnown(c, e, ids, q); }
  }
}

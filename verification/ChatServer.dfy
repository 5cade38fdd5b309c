/**
  The content layer over its mutable objects (CChatServer, CRoomManager, CRoom, CPlayer
  and CContentQueue): every handler does to them what the ChatRooms function of the same
  name does to values, and sends what `Mail` says.
*/
module ChatServer {
  import opened Options
  import opened SessionId
  import opened DbPipeline
  import W = DbWorker
  import C = ChatRooms
  import E = Engine
  import opened PacketPool
  import opened SessionObject

  class Player {
    const sid: SessionID
    var userNo: int
    var nickname: string
    var roomNo: nat
    var state: C.PlayerState

    ghost function View(): C.Player
      reads this
    {
      C.Player(state, roomNo, userNo, nickname)
    }

    constructor (sid: SessionID)
      ensures this.sid == sid && View() == C.NEWCOMER
    {
      this.sid := sid;
      userNo, nickname, roomNo, state := 0, "", C.INVALID_ROOM_NO, C.NotLoggedIn;
    }

    method SetUserNo(no: int)
      modifies this
      ensures View() == old(View()).(userNo := no)
    {
      userNo := no;
    }

    method SetNickname(name: string)
      modifies this
      ensures View() == old(View()).(nickname := name, state := C.LoggedIn)
    {
      nickname := name;
      state := C.LoggedIn;
    }

    method EnterRoom(no: nat) returns (ok: bool)
      modifies this
      ensures ok == !old(state).InRoom?
      ensures View() == if ok then old(View()).(roomNo := no, state := C.InRoom) else old(View())
    {
      if state == C.InRoom { return false; }
      roomNo := no;
      state := C.InRoom;
      return true;
    }

    method LeaveRoom() returns (ok: bool)
      modifies this
      ensures ok == old(state).InRoom?
      ensures View() == if ok then old(View()).(roomNo := C.INVALID_ROOM_NO, state := C.LoggedIn) else old(View())
    {
      if state != C.InRoom { return false; }
      roomNo := C.INVALID_ROOM_NO;
      state := C.LoggedIn;
      return true;
    }
  }

  class Room {
    const roomNo: nat
    var users: map<SessionID, Player>

    constructor (no: nat)
      ensures roomNo == no && users == map[]
    {
      roomNo := no;
      users := map[];
    }

    method EnterRoom(sid: SessionID, player: Player) returns (ok: bool)
      modifies this
      ensures ok == C.Admits(old(users.Keys), sid)
      ensures users == if ok then old(users)[sid := player] else old(users)
      ensures users.Keys == if ok then old(users.Keys) + {sid} else old(users.Keys)
    {
      assert |users| == |users.Keys|;
      if |users| >= C.MAX_LIMIT_PERSON { return false; }
      if sid in users { return false; }
      users := users[sid := player];
      return true;
    }

    method LeaveRoom(sid: SessionID) returns (ok: bool)
      modifies this
      ensures ok == (sid in old(users)) && users == old(users) - {sid}
      ensures users.Keys == old(users.Keys) - {sid}
    {
      ok := sid in users;
      users := users - {sid};
    }
  }

  /** The FIFO between the I/O workers and the Update thread. */
  class ContentQueue {
    var msg: seq<E.Msg>

    constructor ()
      ensures msg == []
    {
      msg := [];
    }

    method Push(m: E.Msg)
      modifies this
      ensures msg == old(msg) + [m]
    {
      msg := msg + [m];
    }

    method Pop() returns (m: Option<E.Msg>)
      modifies this
      ensures m.None? <==> old(msg) == []
      ensures m.Some? ==> [m.value] + msg == old(msg)
      ensures m.None? ==> msg == []
    {
      if msg == [] { return None; }
      m := Some(msg[0]);
      msg := msg[1..];
    }
  }

  datatype Letter = Letter(to: SessionID, body: C.Body)

  /** What has been sent to one session, in order. */
  ghost function To(outbox: seq<Letter>, q: SessionID): seq<C.Body> {
    if outbox == [] then []
    else
      var rest := To(outbox[..|outbox| - 1], q);
      var last := outbox[|outbox| - 1];
      if last.to == q then rest + [last.body] else rest
  }

  lemma ToSnoc(outbox: seq<Letter>, l: Letter, q: SessionID)
    ensures To(outbox + [l], q) == To(outbox, q) + if l.to == q then [l.body] else []
  {
    assert (outbox + [l])[..|outbox|] == outbox;
  }

  /** `after` is `before` and the event's mail. */
  ghost predicate Mailed(before: seq<Letter>, after: seq<Letter>, c: C.Chat, e: C.Event)
    requires C.Sound(c)
  {
    forall q :: To(after, q) == To(before, q) + C.Mail(c, e, q)
  }

  ghost predicate MailedAll(before: seq<Letter>, after: seq<Letter>, c: C.Chat, es: seq<C.Event>)
    requires C.Sound(c)
  {
    forall q :: To(after, q) == To(before, q) + C.AllMail(c, es, q)
  }

  lemma MailedSnoc(before: seq<Letter>, mid: seq<Letter>, after: seq<Letter>, c: C.Chat, es: seq<C.Event>, e: C.Event)
    requires C.Sound(c) && MailedAll(before, mid, c, es) && Mailed(mid, after, C.Run(c, es), e)
    ensures MailedAll(before, after, c, es + [e])
  {
    forall q ensures To(after, q) == To(before, q) + C.AllMail(c, es + [e], q) {
      C.AllMailSnoc(c, es, e, q);
      Regroup(To(before, q), C.AllMail(c, es, q), C.Mail(C.Run(c, es), e, q));
    }
  }

  lemma Regroup(a: seq<C.Body>, b: seq<C.Body>, d: seq<C.Body>)
    ensures a + b + d == a + (b + d)
  {
  }

  /** The event a message is; `req` is what its packet, if it has one, asks. */
  function EventOf(m: E.Msg, req: C.Request): C.Event {
    match m
    case Join(sid) => C.Joined(sid)
    case Leave(sid) => C.Left(sid)
    case Received(sid, _) => C.Asked(sid, req)
  }

  function RequestOf(m: E.Msg, read: Pkt -> C.Request): (req: C.Request)
    ensures m.Received? ==> EventOf(m, req) == C.Asked(m.sid, read(m.pkt))
  {
    if m.Received? then read(m.pkt) else C.Unknown
  }

  /** The sessions' send queues, as a list of the SendPacket calls made. */
  class Network {
    var outbox: seq<Letter>

    constructor ()
      ensures outbox == []
    {
      outbox := [];
    }

    method Send(to: SessionID, body: C.Body)
      modifies this`outbox
      ensures forall q :: To(outbox, q) == To(old(outbox), q) + C.If(q == to, body)
    {
      forall q ensures To(outbox + [Letter(to, body)], q) == To(outbox, q) + C.If(q == to, body) {
        ToSnoc(outbox, Letter(to, body), q);
      }
      outbox := outbox + [Letter(to, body)];
    }

    /** The broadcast loops. A room is visited in no particular order. */
    method Broadcast(to: set<SessionID>, body: C.Body)
      modifies this`outbox
      ensures forall q :: To(outbox, q) == To(old(outbox), q) + C.If(q in to, body)
    {
      var left := to;
      while left != {}
        invariant left <= to
        invariant forall q :: To(outbox, q) == To(old(outbox), q) + C.If(q in to - left, body)
        decreases left
      {
        var q :| q in left;
        Send(q, body);
        left := left - {q};
      }
    }

    /** The answer to the newcomer, then the notice to the others. */
    method Welcome(sid: SessionID, no: nat, others: set<SessionID>, nickname: string)
      modifies this
      ensures forall q :: To(outbox, q) == To(old(outbox), q)
                                           + (C.If(q == sid, C.EnterRes(no)) + C.If(q in others, C.UserJoin(nickname)))
    {
      Send(sid, C.EnterRes(no));
      Broadcast(others, C.UserJoin(nickname));
    }
  }

  class ChatServer {
    const rooms: seq<Room>
    const db: W.DbWorker
    const contentQ: ContentQueue
    const store: PacketStore
    const net: Network
    var players: map<SessionID, Player>
    ghost var everyone: set<Player>    // every player object there has been

    ghost predicate Valid()
      reads this
    {
      && |rooms| == C.MAX_ROOM_COUNT
      && (forall j, k | 0 <= j < k < |rooms| :: rooms[j] != rooms[k])
      && (forall sid | sid in players :: players[sid] in everyone)
      && (forall a, b | a in players && b in players && a != b :: players[a] != players[b])
    }

    ghost predicate ShowsPlayers(values: map<SessionID, C.Player>)
      requires Valid()
      reads this, everyone
    {
      && players.Keys == values.Keys
      && forall sid | sid in players :: players[sid].View() == values[sid]
    }

    ghost predicate ShowsRooms(members: seq<set<SessionID>>)
      reads rooms
    {
      |members| == |rooms| && forall k | 0 <= k < |rooms| :: rooms[k].users.Keys == members[k]
    }

    ghost predicate Shows(c: C.Chat)
      requires Valid()
      reads this, everyone, rooms
    {
      ShowsPlayers(c.players) && ShowsRooms(c.rooms)
    }

    constructor (store: PacketStore)
      ensures this.store == store
      ensures Valid() && C.Sound(C.EMPTY_HALL) && Shows(C.EMPTY_HALL) && net.outbox == [] && contentQ.msg == []
      ensures db.View() == STARTED
    {
      var made: seq<Room> := [];
      for k := 0 to C.MAX_ROOM_COUNT
        invariant |made| == k
        invariant forall j | 0 <= j < k :: fresh(made[j]) && made[j].users == map[]
        invariant forall i, j | 0 <= i < j < k :: made[i] != made[j]
      {
        var room := new Room(k + 1);
        made := made + [room];
      }
      rooms := made;
      this.store := store;
      db := new W.DbWorker();
      contentQ := new ContentQueue();
      net := new Network();
      players, everyone := map[], {};
    }

    function GetRoom(no: nat): (room: Option<Room>)
      requires |rooms| == C.MAX_ROOM_COUNT
      ensures room.Some? <==> C.RoomExists(no)
    {
      if 0 < no <= C.MAX_ROOM_COUNT then Some(rooms[no - 1]) else None
    }

    method HandleJoin(sid: SessionID, ghost c: C.Chat)
      requires Valid() && C.Sound(c) && Shows(c)
      modifies this
      ensures Valid() && Shows(C.HandleJoin(c, sid)) && fresh(everyone - old(everyone))
    {
      if sid !in players {
        var player := new Player(sid);
        players, everyone := players[sid := player], everyone + {player};
      }
    }

    /** Takes a member off room `no`. */
    method DropMember(sid: SessionID, no: nat, ghost c: C.Chat) returns (room: Room)
      requires Valid() && C.Sound(c) && ShowsRooms(c.rooms) && C.RoomExists(no)
      modifies rooms[no - 1]
      ensures ShowsRooms(C.RoomRemove(c, no, sid).rooms)
      ensures room == rooms[no - 1]
    {
      room := GetRoom(no).value;
      var _ := room.LeaveRoom(sid);
    }

    /** Drops the player from the map. */
    method Forget(sid: SessionID, ghost values: map<SessionID, C.Player>)
      requires Valid() && ShowsPlayers(values)
      modifies this`players
      ensures Valid() && ShowsPlayers(values - {sid})
    {
      players := players - {sid};
    }

    method HandleLeave(sid: SessionID, ghost c: C.Chat)
      requires Valid() && C.Sound(c) && Shows(c)
      modifies this`players, rooms
      ensures Valid() && Shows(C.HandleLeave(c, sid))
    {
      if sid !in players { return; }
      if players[sid].state == C.InRoom {
        var _ := DropMember(sid, players[sid].roomNo, c);
      }
      Forget(sid, c.players);
    }

    /** The room's check, which comes first. */
    method LetIn(sid: SessionID, no: nat, ghost c: C.Chat) returns (ok: bool)
      requires Valid() && C.Sound(c) && ShowsRooms(c.rooms) && sid in players && C.RoomExists(no)
      modifies rooms[no - 1]
      ensures ok == C.Admits(c.rooms[no - 1], sid)
      ensures if ok then ShowsRooms(C.RoomAdd(c, no, sid).rooms) else ShowsRooms(c.rooms)
    {
      ok := rooms[no - 1].EnterRoom(sid, players[sid]);
    }

    /** The player's own check. */
    method PlayerEnters(sid: SessionID, no: nat, ghost values: map<SessionID, C.Player>) returns (ok: bool)
      requires Valid() && ShowsPlayers(values) && sid in players
      modifies players[sid]
      ensures Valid() && ok == !values[sid].state.InRoom?
      ensures if ok then ShowsPlayers(values[sid := values[sid].(roomNo := no, state := C.InRoom)])
              else ShowsPlayers(values)
    {
      ok := players[sid].EnterRoom(no);
    }

    /** Both checks of HandleRoomEnter. */
    method Admit(sid: SessionID, no: nat, ghost c: C.Chat) returns (ok: bool)
      requires Valid() && C.Sound(c) && Shows(c) && sid in players && C.RoomExists(no)
      modifies rooms[no - 1], players[sid]
      ensures Valid() && Shows(C.HandleRoomEnter(c, sid, no))
      ensures ok == (C.Admits(c.rooms[no - 1], sid) && !c.players[sid].state.InRoom?)
      ensures players[sid].nickname == c.players[sid].nickname
    {
      ok := LetIn(sid, no, c);
      if !ok { return; }
      ok := PlayerEnters(sid, no, c.players);
    }

    method HandleRoomEnter(sid: SessionID, no: nat, ghost c: C.Chat)
      requires Valid() && C.Sound(c) && Shows(c)
      modifies net, rooms, everyone
      ensures Valid() && Shows(C.HandleRoomEnter(c, sid, no))
      ensures forall q :: To(net.outbox, q) == To(old(net.outbox), q) + C.EnterMail(c, sid, no, q)
    {
      if sid in players && GetRoom(no).Some? {
        var ok := Admit(sid, no, c);
        if ok {
          var others := GetRoom(no).value.users.Keys - {sid};
          assert others == c.rooms[no - 1];
          net.Welcome(sid, no, others, players[sid].nickname);
        }
      }
    }

    /** Both sides forget that the player is in its room. */
    method TakeOut(sid: SessionID, ghost c: C.Chat) returns (room: Room)
      requires Valid() && C.Sound(c) && Shows(c) && sid in players && players[sid].state == C.InRoom
      modifies rooms, players[sid]
      ensures Valid() && Shows(C.HandleRoomLeave(c, sid))
      ensures room.users.Keys == c.rooms[c.players[sid].roomNo - 1] - {sid}
      ensures players[sid].nickname == c.players[sid].nickname
    {
      room := DropMember(sid, players[sid].roomNo, c);
      var _ := players[sid].LeaveRoom();
    }

    method HandleRoomLeave(sid: SessionID, ghost c: C.Chat)
      requires Valid() && C.Sound(c) && Shows(c)
      modifies net, rooms, everyone
      ensures Valid() && Shows(C.HandleRoomLeave(c, sid))
      ensures forall q :: To(net.outbox, q) == To(old(net.outbox), q) + C.LeaveMail(c, sid, q)
    {
      if sid !in players { return; }
      if players[sid].state != C.InRoom { return; }
      var room := TakeOut(sid, c);
      var others, notice := room.users.Keys, C.UserLeave(players[sid].nickname);
      assert net.outbox == old(net.outbox);
      assert forall q :: C.LeaveMail(c, sid, q) == C.If(q in others, notice);
      net.Broadcast(others, notice);
    }

    method HandleChat(sid: SessionID, text: string, ghost c: C.Chat)
      requires Valid() && C.Sound(c) && Shows(c)
      modifies net
      ensures Valid() && Shows(c)
      ensures forall q :: To(net.outbox, q) == To(old(net.outbox), q) + C.ChatMail(c, sid, text, q)
    {
      if |text| > C.MAX_CHAT_LEN { return; }
      if sid !in players { return; }
      var player := players[sid];
      if player.state != C.InRoom { return; }
      var room := GetRoom(player.roomNo).value;
      net.Broadcast(room.users.Keys, C.ChatRes(player.nickname, text));
    }

    method HandleDbResult(d: DbResult, ghost c: C.Chat)
      requires Valid() && C.Sound(c) && Shows(c)
      modifies net, everyone
      ensures Valid() && Shows(C.HandleDbResult(c, d))
      ensures forall q :: To(net.outbox, q) == To(old(net.outbox), q) + C.DbMail(c, d, q)
    {
      if d.sid !in players { return; }
      match d.kind {
        case Login =>
          if C.ResultCode(d) == 0 {
            var player := players[d.sid];
            player.SetUserNo(d.userNo);
            player.SetNickname(d.nickname);
            assert player.View() == C.HandleDbResult(c, d).players[d.sid];
          }
          assert net.outbox == old(net.outbox);
          net.Send(d.sid, C.LoginRes(C.ResultCode(d), d.userNo, d.nickname));
        case SignUp =>
          net.Send(d.sid, C.SignUpRes(C.ResultCode(d), d.userNo));
      }
    }

    /** Handle_Login and Handle_SignUp: a job for the worker, if the player is still there. */
    method HandleDbRequest(sid: SessionID, req: C.Request, ghost c: C.Chat)
      requires Valid() && C.Sound(c) && Shows(c) && (req.LoginReq? || req.SignUpReq?)
      modifies db
      ensures Valid() && Shows(c)
      ensures db.jobs == old(db.jobs) + C.NewJobs(c, C.Asked(sid, req)) && db.results == old(db.results)
      ensures sid !in players ==> db.jobs == old(db.jobs)
      ensures sid in players ==>
                && db.jobs[..old(|db.jobs|)] == old(db.jobs) && |db.jobs| == old(|db.jobs|) + 1
                && C.JobFor(db.jobs[old(|db.jobs|)], sid, req)
    {
      if sid in players {
        var job := match req
          case LoginReq(account, password) => Job(Login, sid, account, password, "")
          case SignUpReq(account, password, nickname) => Job(SignUp, sid, account, password, nickname);
        db.PushJob(job);
      }
    }

    /** Handle_Recv for the requests that concern a room. */
    method HandleRoomRequest(sid: SessionID, req: C.Request, ghost c: C.Chat)
      requires Valid() && C.Sound(c) && Shows(c) && !req.LoginReq? && !req.SignUpReq?
      modifies net, rooms, everyone
      ensures Valid() && Shows(C.Step(c, C.Asked(sid, req)))
      ensures Mailed(old(net.outbox), net.outbox, c, C.Asked(sid, req))
    {
      match req {
        case EnterReq(no) => HandleRoomEnter(sid, no, c);
        case LeaveReq => HandleRoomLeave(sid, c);
        case ChatReq(text) => HandleChat(sid, text, c);
        case Unknown =>
      }
    }

    /** Handle_Recv. */
    method HandleRecv(sid: SessionID, req: C.Request, ghost c: C.Chat)
      requires Valid() && C.Sound(c) && Shows(c)
      modifies net, db, rooms, everyone
      ensures Valid() && Shows(C.Step(c, C.Asked(sid, req)))
      ensures Mailed(old(net.outbox), net.outbox, c, C.Asked(sid, req))
      ensures db.jobs == old(db.jobs) + C.NewJobs(c, C.Asked(sid, req)) && db.results == old(db.results)
    {
      if req.LoginReq? || req.SignUpReq? {
        HandleDbRequest(sid, req, c);
      } else {
        HandleRoomRequest(sid, req, c);
      }
    }

    /** The switch of UpdateLoop. */
    method HandleMessage(m: E.Msg, read: Pkt -> C.Request, ghost c: C.Chat)
      requires Valid() && C.Sound(c) && Shows(c)
      modifies this, net, db, rooms, everyone
      ensures Valid() && Shows(C.Step(c, EventOf(m, RequestOf(m, read))))
      ensures Mailed(old(net.outbox), net.outbox, c, EventOf(m, RequestOf(m, read)))
      ensures db.jobs == old(db.jobs) + C.NewJobs(c, EventOf(m, RequestOf(m, read))) && db.results == old(db.results)
      ensures fresh(everyone - old(everyone))
    {
      match m {
        case Join(sid) => HandleJoin(sid, c);
        case Leave(sid) => HandleLeave(sid, c);
        case Received(sid, pkt) => HandleRecv(sid, read(pkt), c);
      }
    }

    /** One more result, after `done`. */
    method HandleOne(d: DbResult, ghost c: C.Chat, ghost done: seq<C.Event>, ghost start: seq<Letter>)
      requires Valid() && C.Sound(c) && Shows(C.Run(c, done)) && MailedAll(start, net.outbox, c, done)
      modifies net, everyone
      ensures Valid() && Shows(C.Run(c, done + [C.Answered(d)]))
      ensures MailedAll(start, net.outbox, c, done + [C.Answered(d)])
    {
      ghost var now, before := C.Run(c, done), net.outbox;
      C.RunSnoc(c, done, C.Answered(d));
      HandleDbResult(d, now);
      MailedSnoc(start, before, net.outbox, c, done, C.Answered(d));
    }

    /** PopResult, which disturbs nothing else. */
    method NextResult(ghost c: C.Chat) returns (d: Option<DbResult>)
      requires Valid() && Shows(c)
      modifies db
      ensures Valid() && Shows(c) && db.jobs == old(db.jobs)
      ensures AllAnswered(old(db.results)) == Pending(d, db.results)
      ensures d.None? ==> db.results == []
      ensures d.Some? ==> |db.results| < |old(db.results)|
    {
      d := db.PopResult();
    }

    /** The switch of UpdateLoop, and the Release of a received packet behind it. */
    method HandleFront(m: E.Msg, read: Pkt -> C.Request, ghost c: C.Chat)
      requires Valid() && C.Sound(c) && Shows(c)
      modifies this, net, db, rooms, everyone, store
      ensures Valid() && Shows(C.Step(c, EventOf(m, RequestOf(m, read))))
      ensures Mailed(old(net.outbox), net.outbox, c, EventOf(m, RequestOf(m, read)))
      ensures db.jobs == old(db.jobs) + C.NewJobs(c, EventOf(m, RequestOf(m, read))) && db.results == old(db.results)
      ensures fresh(everyone - old(everyone))
      ensures store.View() == Handled(old(store.View()), [m])
      ensures m.Received? ==> RefCount(store.View(), m.pkt) == old(RefCount(store.View(), m.pkt)) - 1
    {
      HandleMessage(m, read, c);
      if m.Received? { store.Release(m.pkt); }
    }

    /** The inner loop of UpdateLoop: every result there is. */
    method HandleResults(ghost c: C.Chat)
      requires Valid() && C.Sound(c) && Shows(c)
      modifies net, db, everyone
      ensures Valid() && Shows(C.Run(c, AllAnswered(old(db.results))))
      ensures MailedAll(old(net.outbox), net.outbox, c, AllAnswered(old(db.results)))
      ensures db.results == [] && db.jobs == old(db.jobs)
    {
      ghost var all, done := AllAnswered(db.results), [];
      var d := NextResult(c);
      while d.Some?
        invariant Valid() && Shows(C.Run(c, done)) && db.jobs == old(db.jobs)
        invariant MailedAll(old(net.outbox), net.outbox, c, done)
        invariant (d.None? ==> db.results == []) && all == done + Pending(d, db.results)
        decreases d.Some?, |db.results|
      {
        Shift(done, C.Answered(d.value), AllAnswered(db.results));
        HandleOne(d.value, c, done, old(net.outbox));
        done := done + [C.Answered(d.value)];
        d := NextResult(C.Run(c, done));
      }
      assert done == all;
    }

    /** One iteration of UpdateLoop. `read` is what the handlers find in a packet. */
    method UpdateOnce(read: Pkt -> C.Request, ghost c: C.Chat) returns (didWork: bool)
      requires Valid() && C.Sound(c) && Shows(c)
      modifies this, net, db, contentQ, rooms, everyone, store
      ensures Valid() && Shows(C.Run(c, Front(old(contentQ.msg), read) + AllAnswered(old(db.results))))
      ensures MailedAll(old(net.outbox), net.outbox, c, Front(old(contentQ.msg), read) + AllAnswered(old(db.results)))
      ensures contentQ.msg == if old(contentQ.msg) == [] then [] else old(contentQ.msg)[1..]
      ensures db.jobs == old(db.jobs) + FrontJobs(c, old(contentQ.msg), read) && db.results == []
      ensures store.View() == Handled(old(store.View()), old(contentQ.msg))
      ensures didWork == (old(contentQ.msg) != [] || old(db.results) != [])
    {
      var pending := db.results != [];
      var m := contentQ.Pop();
      ghost var now := c;
      if m.Some? {
        HandleFront(m.value, read, c);
        now := C.Step(c, EventOf(m.value, RequestOf(m.value, read)));
      }
      FrontRun(c, m, old(contentQ.msg), read, AllAnswered(old(db.results)));
      ghost var mid, es := net.outbox, AllAnswered(db.results);
      HandleResults(now);
      if m.Some? {
        FrontMail(old(net.outbox), mid, net.outbox, c, EventOf(m.value, RequestOf(m.value, read)), es);
      } else {
        assert Front(old(contentQ.msg), read) + es == es;
      }
      return m.Some? || pending;
    }
  }

  lemma FrontMail(before: seq<Letter>, mid: seq<Letter>, after: seq<Letter>, c: C.Chat, e: C.Event, es: seq<C.Event>)
    requires C.Sound(c) && Mailed(before, mid, c, e) && MailedAll(mid, after, C.Step(c, e), es)
    ensures MailedAll(before, after, c, [e] + es)
  {
    assert ([e] + es)[1..] == es;
    forall q ensures To(after, q) == To(before, q) + C.AllMail(c, [e] + es, q) {
      Regroup(To(before, q), C.Mail(c, e, q), C.AllMail(C.Step(c, e), es, q));
    }
  }

  lemma FrontRun(c: C.Chat, m: Option<E.Msg>, msg: seq<E.Msg>, read: Pkt -> C.Request, es: seq<C.Event>)
    requires C.Sound(c) && (m.None? <==> msg == []) && (m.Some? ==> m.value == msg[0])
    ensures C.Run(c, Front(msg, read) + es)
         == C.Run(if m.Some? then C.Step(c, EventOf(m.value, RequestOf(m.value, read))) else c, es)
  {
    if msg == [] {
      assert Front(msg, read) + es == es;
    } else {
      assert (Front(msg, read) + es)[1..] == es;
    }
  }

  function AllAnswered(results: seq<DbResult>): (es: seq<C.Event>)
    ensures |es| == |results| && forall i | 0 <= i < |es| :: es[i] == C.Answered(results[i])
  {
    if results == [] then [] else [C.Answered(results[0])] + AllAnswered(results[1..])
  }

  lemma Shift(done: seq<C.Event>, e: C.Event, rest: seq<C.Event>)
    ensures done + ([e] + rest) == done + [e] + rest
  {
  }

  /** The result in hand and those still queued. */
  function Pending(d: Option<DbResult>, results: seq<DbResult>): seq<C.Event> {
    if d.Some? then [C.Answered(d.value)] + AllAnswered(results) else AllAnswered(results)
  }

  /** The packets, once the message at the front has been handled. */
  function Handled(ps: Packets, msg: seq<E.Msg>): Packets {
    if msg != [] && msg[0].Received? then Release(ps, msg[0].pkt) else ps
  }

  /** The jobs of the message at the front, if any. */
  function FrontJobs(c: C.Chat, msg: seq<E.Msg>, read: Pkt -> C.Request): seq<Job> {
    if msg == [] then [] else C.NewJobs(c, EventOf(msg[0], RequestOf(msg[0], read)))
  }

  /** The event of the message at the front, if any. */
  function Front(msg: seq<E.Msg>, read: Pkt -> C.Request): seq<C.Event> {
    if msg == [] then [] else [EventOf(msg[0], RequestOf(msg[0], read))]
  }
}

/**
  A run that loses a packet (myIOCP/CLanServer.cpp:218-222): one client connects, one
  packet is sent to it and released by its sender, and the send's completion fails.
*/
module LostPacket {
  import opened Options
  import opened PacketPool
  import opened SessionId
  import opened Engine
  import opened EngineRefs
  import opened EngineOwnership
  import opened EngineRuns
  import opened EngineLifetimes
  import opened Bytes

  const SID: SessionID := MakeSid(0, 1)

  /** The only slot, its session open. */
  function Joined(pending: bool, sent: seq<Pkt>, ioRef: int, log: Log): Slot {
    Slot(1, SID, false, pending, [], sent, ioRef, log)
  }

  const IDLE := Joined(false, [], 2, Log([], [], [], 0))

  function Connected(): Sys {
    Sys(Srv([IDLE], [], NO_PACKETS, [Join(SID)], multiset{Op(0, 1, Recv)}, multiset{}), {}, None, None, 0)
  }

  function Built(bytes: seq<byte>): Sys {
    Connected().(srv := Connected().srv.(packets := AllocWith(NO_PACKETS, bytes)), out := Some(0))
  }

  function Sent(bytes: seq<byte>): Sys {
    var c := Content(0, bytes);
    var slot := Joined(true, [0], 3, Log([c], [c], [0], 0));
    var ps := AddRef(AllocWith(NO_PACKETS, bytes), 0);
    Built(bytes).(srv := Srv([slot], [], ps, [Join(SID)], multiset{Op(0, 1, Recv), Op(0, 1, Send)}, multiset{}))
  }

  function Released(bytes: seq<byte>): Sys {
    Sent(bytes).(srv := Put(Sent(bytes), 0), out := None)
  }

  function Lost(bytes: seq<byte>): Sys {
    var c, s := Content(0, bytes), Released(bytes).srv;
    var slot := Slot(1, SID, true, true, [], [0], 1, Log([c], [c], [], 0));
    Released(bytes).(srv := Srv([slot], [], s.packets, [Join(SID), Leave(SID)], multiset{Op(0, 1, Recv)}, multiset{0}))
  }

  lemma Connects()
    ensures Enabled(Start(1), Connect(true, true)) && Step(Start(1), Connect(true, true)) == Connected()
  {
  }

  lemma Builds(bytes: seq<byte>)
    ensures Enabled(Connected(), Build(bytes)) && Step(Connected(), Build(bytes)) == Built(bytes)
  {
  }

  lemma Flushes(queued: Srv, c: Content)
    requires queued.slots == [IDLE.(queue := [0], log := Log([c], [], [], 0))]
    requires ContentOf(queued.packets.contents, 0) == c && queued.net == multiset{Op(0, 1, Recv)}
    ensures FlushSend(queued, 0, true) ==
              queued.(slots := [Joined(true, [0], 3, Log([c], [c], [0], 0))],
                      net := multiset{Op(0, 1, Recv), Op(0, 1, Send)})
  {
    var taken := IOAddRef(SetSlot(queued, 0, Take(queued.slots[0])), 0);
    assert [0 as Pkt][..1] == [0] && [0 as Pkt][1..] == [];
    assert taken.slots[0] == Joined(true, [0], 3, Log([c], [], [0], 0));
    assert Contents(taken.packets.contents, [0]) == [c] && [] + [c] == [c];
  }

  lemma SidIsIssued(s: Srv)
    requires |s.slots| == 1 && s.slots[0].generation == 1
    ensures Issued(s, SID) && Addresses(s, SID) && SidIndex(SID) == 0
  {
    SidDecodes(0, 1);
  }

  lemma Sends(bytes: seq<byte>)
    ensures Enabled(Built(bytes), SendTo(SID, true)) && Step(Built(bytes), SendTo(SID, true)) == Sent(bytes)
  {
    var s, c := Built(bytes).srv, Content(0, bytes);
    SidIsIssued(s);
    assert ContentOf(s.packets.contents, 0) == c && [] + [c] == [c] && [] + [0 as Pkt] == [0];
    assert Enqueue(s, 0, 0).slots[0] == IDLE.(queue := [0], log := Log([c], [], [], 0));
    Flushes(Enqueue(s, 0, 0), c);
  }

  lemma Fails(bytes: seq<byte>)
    ensures Enabled(Released(bytes), Failed(Op(0, 1, Send)))
    ensures Step(Released(bytes), Failed(Op(0, 1, Send))) == Lost(bytes)
  {
    FailsAt(Released(bytes).srv, Content(0, bytes));
  }

  lemma FailsAt(s: Srv, c: Content)
    requires s.slots == [Joined(true, [0], 3, Log([c], [c], [0], 0))] && s.contentQ == [Join(SID)]
    requires s.net == multiset{Op(0, 1, Recv), Op(0, 1, Send)} && s.abandoned == multiset{}
    ensures OpFailed(s, Op(0, 1, Send)) ==
              s.(slots := [Slot(1, SID, true, true, [], [0], 1, Log([c], [c], [], 0))],
                 contentQ := [Join(SID), Leave(SID)], net := multiset{Op(0, 1, Recv)}, abandoned := multiset{0})
  {
    var closed := CloseSession(Arrived(s, Op(0, 1, Send)), 0);
    assert closed.slots[0] == Slot(1, SID, true, true, [], [0], 2, Log([c], [c], [0], 0));
    assert closed.contentQ == [Join(SID), Leave(SID)] && closed.packets == s.packets;
  }

  lemma LostIsAtRest(bytes: seq<byte>)
    ensures AtRest(Lost(bytes)) && Lost(bytes).srv.packets.made == 1 && Lost(bytes).srv.packets.pool == []
  {
    assert [Join(SID), Leave(SID)] == [Join(SID)] + [Leave(SID)];
    QueuedRefsAppend([Join(SID)], Leave(SID));
  }

  /** The only packet ever made is held by nobody, and is not in the pool. */
  lemma LosesAPacket(bytes: seq<byte>) returns (acts: seq<Action>)
    ensures EnabledRun(Start(1), acts) && AtRest(Final(Start(1), acts))
    ensures var ps := Final(Start(1), acts).srv.packets; ps.made == 1 && ps.pool == []
  {
    Connects();
    Builds(bytes);
    Sends(bytes);
    Fails(bytes);
    LostIsAtRest(bytes);
    RunSnoc(Start(1), [], Connect(true, true));
    acts := [] + [Connect(true, true)];
    RunSnoc(Start(1), acts, Build(bytes));
    acts := acts + [Build(bytes)];
    RunSnoc(Start(1), acts, SendTo(SID, true));
    acts := acts + [SendTo(SID, true)];
    RunSnoc(Start(1), acts, Finish);
    acts := acts + [Finish];
    RunSnoc(Start(1), acts, Failed(Op(0, 1, Send)));
    acts := acts + [Failed(Op(0, 1, Send))];
  }
}

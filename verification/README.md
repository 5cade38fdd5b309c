# A verified model of the IOCP chat server

The server keeps a pool of session slots, a pool of reference-counted packets, and one
Update thread that runs the chat rooms. Worker threads take I/O completions, cut each
connection's byte stream into authenticated frames, and queue messages for the Update
thread, which answers by putting shared packets into the sessions' send queues. The
project models these parts and proves what they keep over whole runs.

`dafny verify dfyconfig.toml` checks everything.

## The five parts

**Lock-free stack** (`LockFreeStack`, `StackWindow`, `StackLeaks`). Every read, write,
compare-exchange and deletion is a step of its own (only `new` and the store of `data`
behind it are one, since the node is still private); reading a freed node yields anything,
and addresses are reused. For any number of threads and any interleaving the stack is
linearizable and no node is popped or freed twice, provided fewer than 2^17 successful
exchanges fall between one pop's read of the top word and its exchange. Pushes need no
such window. The bound is exact: a run with 2^17 exchanges in between is constructed, and
it leaves the top word pointing at a freed node.

**Send handshake** (`SendHandshake`, `EmptyBatches`, `PostedSubsequence`, `LateEnqueues`,
`SendOutcomes`). `sendPending`, `sqCount`, `sendLock` and `sendPkts` of one session, each
exchange, locked region and unlocked read a step of its own.

**Byte stream** (`Bytes`, `Ctr`, `Codec`, `Framing`, `RingBuffer`, `PacketBuffer`,
`Receiver`, `ClientReassembly`). The codec, the server's ring buffer and parse loop, and
the client's linear buffer, against one recursive frame parser that knows nothing of
receives. AES is an arbitrary function on blocks used in counter mode (section 6.5 of NIST
SP 800-38A); the MAC is an arbitrary function with 16-byte results.

**Session engine** (`PacketPool`, `SessionId`, `Engine`, `EngineRefs`, `EngineOwnership`,
`EnginePlayers`, `EngineOrder`, `EngineMessages`, `EngineRuns`, `EngineTheorems`,
`EngineLifetimes`, `EngineAccepted`, `EngineCloses`, `NewSessions`, `LostPacket`,
`DeliveredMessages`, `EngineStreams`, `SessionObject`, `LanServer`, `LanReceive`). Accept,
completions, `SendPacket`, `Disconnect` and the Update thread's packet handling as steps
on a value; one invariant per concern, each kept by every step; and the same operations
over mutable `Session` objects with circular arrays, each proved to do what the value
function does.

**Content layer** (`DbPipeline`, `DbWorker`, `ChatRooms`, `ChatServer`, `WholeServer`,
`Logins`, `MailDelivery`). Handlers, rooms and players; the database worker; engine,
content layer and worker together; from a login request to a player's name; and from a
handled event to what the client decodes.

## Assumptions

- The engine's calls are atomic: one completion, one `SendPacket`, one accepted connection
  at a time. `SendPacket` reads `generation` and `closeFlag` (myIOCP/CLanServer.cpp:106-110)
  before it takes `sendLock` (myIOCP/CLanServer.cpp:112) and holds no I/O reference, so the
  refusal of stale identifiers and the single return of a slot hold only if guard and body
  are one step. The stack and the send handshake do not share this assumption.
- Memory is sequentially consistent, and interlocked operations are atomic.
- Posting on a closed socket fails at once; every posted operation completes at most once.
- A connection carries the bytes posted to it, in order, in any pieces.
- A slot is reused fewer than 2^31 times, there are at most 0xFFFF slots, and `Disconnect`
  and `SendPacket` get identifiers that `InitSession` issued. For `SendPacket` the last is
  also proved of the handlers: `WholeServer.AddresseesAreIssued`.
- Runs end before `Stop`, which closes slots that were never used.

## What turned out to be false

- *Every payload a packet can hold arrives.* One of 4066 bytes passes the length test
  (myIOCP/CLanServer.cpp:356), but its frame needs 4096 bytes and the ring holds 4095: the
  session is closed. `Framing.EndToEnd` gives the exact condition, 4065 bytes.
- *The client takes what a frame can declare.* `DrainRecv` tests no length, but its buffer has
  8192 bytes (DummyClient/DummyClient.cpp:263-265): a payload of more than 8162 bytes fills
  it, the next `recv` has no room, returns 0, and reads as a closed connection.
  `ClientReassembly.ClientEndToEnd` gives the exact condition, `ClientStops` what arrives.
- *A posted batch is never empty.* The unlocked read of `sqCount`
  (myIOCP/CLanServer.cpp:430) can go stale; `EmptyBatches.CompletionCanPostNothing` is a
  run without any failure that posts an empty batch. On an open session a batch is empty
  if and only if everything accepted has already been taken
  (`EmptyBatches.EmptyWhenAllTaken`): never when `SendPacket` itself flushes, and after a
  completion only when other flushes took every packet the thread had read.
- *Packets come back.* A failed send completion does not call `OnSendComplete`
  (myIOCP/CLanServer.cpp:218-222); the references in `sendPkts` stay for good.
  `EngineLifetimes.PacketsComeBack`: at rest all packets are pooled if and only if no send
  completion of the run failed. `LostPacket.LosesAPacket` is a run that loses one.
- *A closed session keeps no packet.* `SendPacket` reads `closeFlag`
  (myIOCP/CLanServer.cpp:109) before it takes the lock, so it can enqueue after
  `CloseSession` has drained the queue (myIOCP/CLanServer.cpp:302-309).
  `LateEnqueues.CloseLeavesAPacket` is a run that ends silent, closed and with a packet in
  the queue, whose reference `InitSession` forgets. `QueueAfterClose` says exactly what is
  left: what was enqueued after the drain and no later flush took, one packet at most for
  each thread that was past the test then; `LeftBehindByFailure`, that a send of the session
  must have failed. With calls as single steps `EngineTheorems.CloseReleasesUnposted` holds.
- *Rooms and players agree.* A player already in a room that enters another is let in
  before its own check refuses (myIOCP/CChatServer.cpp:307-308), and a successful login
  overwrites the state of a player in a room (myIOCP/CPlayer.cpp:46-51). Either leaves a
  member that is never removed again; `ChatRooms.ExactRun` says that nothing else does.
- *Whoever counts as logged in has logged in.* `CPlayer::LeaveRoom` sets the state that only
  a login should (myIOCP/CPlayer.cpp:81-82), and entering a room asks for no login:
  `ChatRooms.LoggedInWithoutLogin` is a run. A number and a nickname, however, come only
  from the database's answer to a login of that session: `Logins.IdentityFromDatabase`.
- *A generation has 48 bits* (section 5.1 of ARCHITECTURE.md). The code keeps it in a
  32-bit `LONG`; `SessionId.SidDecodes` says exactly when an identifier leads back to its
  slot.
- *The header is `[Len][Type]`* (section 4.1 of ARCHITECTURE.md). The code's header is 30
  bytes of length, nonce and MAC (myIOCP/CPacket.h:9-15); the type is part of the payload.

## Model

| member | source | states |
|---|---|---|
| `LockFreeStack.CombineSplits` | myIOCP/CLockFreeStack.h:16-27 | packing a 17-bit stamp with a 47-bit pointer and taking them apart again gives the pointer and the stamp modulo 2^17 |
| `LockFreeStack.StepKeepsInv` | myIOCP/CLockFreeStack.h:33-62 | every shared-memory access of Push and Pop, by any thread, keeps the chain acyclic and live, nodes owned by one thread at most, and every snapshot of the top word sound |
| `LockFreeStack.Linearizable` | myIOCP/CLockFreeStack.h:33-62 | after any interleaving inside the window the nodes below the top hold what a sequential stack holds; each returned call took effect once, between call and return, with the result it returned, a push with the value it was called with; calls that do not overlap keep their order; nothing else took effect |
| `LockFreeStack.OwnedNodesAreSafe` | myIOCP/CLockFreeStack.h:35-62 | a node a thread writes, reads or deletes as its own is live, off the stack and held by no other thread: none is popped or freed twice |
| `StackWindow.WindowIsTight` | myIOCP/CLockFreeStack.h:20-27 | a run with exactly 2^17 successful exchanges during one pop exists in which that pop's exchange succeeds and leaves the top word pointing at a freed node |
| `StackLeaks.NothingLeaks` | myIOCP/CLockFreeStack.h:33-62 | inside the window, with no call under way, the nodes that exist are exactly those on the stack: every popped node has been deleted |
| `SendHandshake.StepKeepsInv` | myIOCP/CLanServer.cpp:112-126 | every exchange, locked region and unlocked read of the send path keeps token, lock, batch, order and no-stranding invariants together |
| `SendHandshake.OneSendAtATime` | myIOCP/CLanServer.cpp:384-431 | under any interleaving at most one thread owns sendPkts, none while a send is in flight, and at most one send is in flight |
| `SendHandshake.NothingStranded` | myIOCP/CLanServer.cpp:112-126 | while an open session's queue is not empty, a send is in flight, or a thread owns the next one, or a thread is still between its enqueue or clear and its check |
| `SendHandshake.QuietMeansPosted` | myIOCP/CLanServer.cpp:384-431 | when an open session falls silent its queue is empty, no WSASend has failed, and exactly what it accepted has been posted, in order |
| `SendHandshake.PostedInOrder` | myIOCP/CLanServer.cpp:388-401 | what an open session has posted is a prefix of what it accepted, at every moment of every interleaving without an immediate failure |
| `PostedSubsequence.PostedOnceInOrder` | myIOCP/CLanServer.cpp:294-431 | under every interleaving, failures and closes included, what has been posted is a subsequence of what was accepted: nothing twice, nothing out of order |
| `SendHandshake.SomeoneCanStep` | myIOCP/CLanServer.cpp:112-125 | sendLock and sendPending never deadlock: while any thread is inside the handshake some thread can step |
| `EmptyBatches.SendPacketPostsSomething` | myIOCP/CLanServer.cpp:112-124 | a batch flushed by SendPacket, which still holds the lock, is never empty |
| `EmptyBatches.EmptyWhenAllTaken` | myIOCP/CLanServer.cpp:388-401 | the batch that any flush of an open session takes is empty if and only if everything accepted so far has already been taken |
| `EmptyBatches.OthersTookThem` | myIOCP/CLanServer.cpp:421-431 | when a completion thread that read a non-empty queue posts an empty batch on an open session, other flushes have taken every packet it read |
| `EmptyBatches.CompletionCanPostNothing` | myIOCP/CLanServer.cpp:430-430 | a reachable state, with no failure and no close before, in which a completion thread posts an empty batch whose completion can only be taken for a failure |
| `LateEnqueues.QueueAfterClose` | myIOCP/CLanServer.cpp:106-122 | once a closed session's queue has been drained it holds exactly what was accepted since and not taken since, in order, not empty if and only if more was enqueued after the drain than later flushes took; and what was enqueued since comes from distinct threads that had passed the closeFlag test at the drain, one packet each |
| `LateEnqueues.ClosedSessionsRefuse` | myIOCP/CLanServer.cpp:109-122 | from a closed state on, whatever follows, only threads past the closeFlag test then add to what is accepted, each its one packet at most; a send called later accepts nothing |
| `LateEnqueues.LeftBehindByFailure` | myIOCP/CLanServer.cpp:384-431 | a silent session, open or closed, has an empty queue unless one of its sends failed, at once or in its completion |
| `LateEnqueues.CloseLeavesAPacket` | myIOCP/CLanServer.cpp:109-122 | a reachable state, with no WSASend refused, in which a closed and silent session still holds a queued packet |
| `SendOutcomes.EverySendCounts` | myIOCP/CLanServer.cpp:97-127 | under any interleaving every packet SendPacket was called with is accepted, or its send is under way, or it was refused, and none is refused by a session that is open and about to be closed by nobody |
| `SendOutcomes.SilentMeansSent` | myIOCP/CLanServer.cpp:97-127 | an open session that has fallen silent has posted exactly the packets SendPacket was called with |
| `SendOutcomes.BatchesAreReleased` | myIOCP/CLanServer.cpp:384-431 | no batch is moved into sendPkts over one that has not been released, and with sendPending clear there is none |
| `Bytes.XorBitwise` | myIOCP/CPacket.cpp:97-104 | the exclusive or of two bytes differs from 0 in exactly the bits in which they differ |
| `Ctr.CryptBytewise` | myIOCP/CPacket.cpp:97-104 | byte i of the cipher text is byte i of the data combined with byte i mod 16 of the enciphered block that holds the nonce and, in four big-endian bytes, i / 16 |
| `Ctr.CryptAsksOnly` | myIOCP/CPacket.cpp:97-104 | the block function is used on no other blocks |
| `Ctr.CounterLayout` | myIOCP/CPacket.cpp:97-104 | the counter block of block j < 2^32 is the nonce followed by j in four bytes |
| `Ctr.CountersDistinct` | myIOCP/CPacket.cpp:97-104 | two counter blocks are equal exactly when nonce and block number are |
| `Ctr.CounterCarriesIntoNonce` | myIOCP/CPacket.cpp:97-104 | at 2^32 blocks the counter does carry into the nonce |
| `Ctr.PayloadsUseDistinctBlocks` | myIOCP/CPacket.cpp:93-104 | of the cipher texts themselves: payloads a packet can hold take at most 255 blocks, and two bytes are enciphered with the same block if and only if they are under the same nonce and in the same 16 bytes |
| `Ctr.CryptTwice` | myIOCP/CPacket.cpp:139-147 | counter mode undoes itself, for any block function |
| `Codec.FrameParts` | myIOCP/CPacket.cpp:93-120 | where length, nonce, MAC and cipher of an encoded frame lie, whatever follows it |
| `Codec.DecodeEncode` | myIOCP/CPacket.cpp:93-150 | decoding an encoded frame returns the payload, for every payload a WORD can measure and whatever follows the frame |
| `Codec.EncodeAuthenticates` | myIOCP/CPacket.cpp:93-120 | a frame is the length low byte first, the nonce, the first 16 bytes of the digest of everything but the mac, and the cipher text |
| `Codec.DecodeAuthenticates` | myIOCP/CPacket.cpp:122-139 | Decode accepts if and only if the mac is the first 16 bytes of the digest of length, nonce and cipher text |
| `Codec.DecodeDeciphers` | myIOCP/CPacket.cpp:139-147 | what it yields is, byte for byte, the cipher text under the key stream of the frame's own nonce |
| `Codec.TamperingIsRefused` | myIOCP/CPacket.cpp:122-139 | a frame that keeps another's mac but changes length, nonce or cipher text is refused unless the digests collide |
| `Codec.DecodeAcceptsOnlyEncoded` | myIOCP/CPacket.cpp:122-150 | Decode returns a payload if and only if the frame is what Encode makes of it under the frame's own nonce |
| `Framing.FullOnlyAtMaxPayload` | myIOCP/CLanServer.cpp:351-379 | after the parse loop the ring is full exactly when it was full before and its head frame declares 4066 bytes |
| `Framing.OnRecvIsFrames` | myIOCP/CLanServer.cpp:340-382 | one completed receive does to the bytes in the ring what the reference parser does |
| `Framing.FramesAppend` | myIOCP/CLanServer.cpp:340-382 | parsing a stream in two parts is parsing it at once: an open parse resumes from its leftover bytes, a stopped one ignores what follows |
| `Framing.ChunkingIndependent` | myIOCP/CLanServer.cpp:340-382 | however the stream is cut into receives that fit, payloads, status and (while open) leftover bytes are the reference parser's on the whole stream |
| `Framing.StreamParses` | myIOCP/CPacket.cpp:93-150 | the reference parser takes a stream of frames of at most 4065 bytes back to the payloads |
| `Framing.StreamStops` | myIOCP/CLanServer.cpp:351-379 | a stream is delivered up to its first 4066-byte payload and stops there with a full ring |
| `Framing.BadFramesStop` | myIOCP/CLanServer.cpp:351-375 | behind complete frames a stream stops, with nothing more delivered, at a length over 4066 and at a frame whose mac is not the digest of its length, nonce and cipher text; a frame whose mac is goes through |
| `Framing.EndToEnd` | myIOCP/CLanServer.cpp:340-382 | any list of payloads, encoded and received in any pieces, is delivered exactly and in order on an open session if and only if none is longer than 4065 bytes |
| `RingBuffer.RingBuffer.UseSize` | myIOCP/CRingBuffer.cpp:7-10 | the number of queued bytes, always less than 4096, wherever the queue wraps |
| `RingBuffer.RingBuffer.FreeSize` | myIOCP/CRingBuffer.cpp:12-15 | queued and free bytes together are 4095 |
| `RingBuffer.RingBuffer.DirectEnqueueSize` | myIOCP/CRingBuffer.cpp:22-32 | all that is free, or everything up to the end of the array, whichever is less, and 0 exactly when nothing is free |
| `RingBuffer.RingBuffer.DirectDequeueSize` | myIOCP/CRingBuffer.cpp:44-47 | the queue is the direct part followed by the array's beginning |
| `RingBuffer.RingBuffer.KernelWrite` | myIOCP/CLanServer.cpp:323-330 | bytes written behind the write position do not disturb the queue |
| `RingBuffer.RingBuffer.MoveWritePos` | myIOCP/CRingBuffer.cpp:34-37 | appends the bytes behind the write position to the queue, across the wrap |
| `RingBuffer.RingBuffer.MoveReadPos` | myIOCP/CRingBuffer.cpp:49-52 | drops bytes from the front of the queue, across the wrap |
| `RingBuffer.RingBuffer.Clear` | myIOCP/CRingBuffer.cpp:54-58 | empties the queue |
| `RingBuffer.RingBuffer.Peek` | myIOCP/CRingBuffer.cpp:60-77 | copies the front of the queue, in one or two pieces, or nothing when there is too little; the queue stays |
| `RingBuffer.RingBuffer.Read` | myIOCP/CRingBuffer.cpp:79-86 | takes the front of the queue, or nothing when there is too little |
| `PacketBuffer.Packet.Clear` | myIOCP/CPacket.cpp:58-62 | an empty payload and an unread part that is empty |
| `PacketBuffer.Packet.WritePacket` | myIOCP/CPacket.cpp:36-43 | appends to the payload if there is room, else changes nothing |
| `PacketBuffer.Packet.ReadPacket` | myIOCP/CPacket.cpp:27-34 | takes the front of the unread part if it is long enough, else nothing |
| `PacketBuffer.Packet.PutWord` | myIOCP/CPacket.h:54-61 | appends a WORD if there is room, else changes nothing |
| `PacketBuffer.Packet.GetWord` | myIOCP/CPacket.h:63-70 | takes a WORD off the unread part, or leaves the variable as it was |
| `PacketBuffer.Packet.AttachRaw` | myIOCP/CPacket.cpp:79-85 | the payload becomes the decoded bytes, or stays if they do not fit |
| `PacketBuffer.Packet.SetHeader` | myIOCP/CPacket.cpp:87-120 | encoding in place makes the whole packet the frame of its former payload |
| `Receiver.Receiver.TakeFrame` | myIOCP/CLanServer.cpp:346-364 | classifies the head of the queue and takes exactly a complete frame off the ring |
| `Receiver.Receiver.ParseFrames` | myIOCP/CLanServer.cpp:344-377 | the loop over the ring delivers what the parser delivers, leaves its leftover bytes, and closes exactly when it stops |
| `Receiver.Receiver.OnRecvComplete` | myIOCP/CLanServer.cpp:340-382 | a completed receive delivers, leaves and closes as the framing functions say, and posts the next receive exactly on an open session |
| `Receiver.Receiver.TakeChunk` | myIOCP/CLanServer.cpp:340-382 | the mutable receiver follows the framing functions receive by receive |
| `Receiver.Receiver.TakeStream` | myIOCP/CLanServer.cpp:340-382 | a whole connection through the ring: however the network cuts the stream, wherever the ring stands, what is delivered, whether the session closes, and what is left are the one-pass parser's on the whole stream |
| `ClientReassembly.ReassemblyAgrees` | DummyClient/DummyClient.cpp:251-324 | for one stream of frames of at most 4065 bytes, the client's linear buffer and the server's ring deliver the same payloads under any two chunkings |
| `ClientReassembly.ClientStops` | DummyClient/DummyClient.cpp:251-324 | however the stream is cut into receives that fit, the client gets exactly the payloads in front of the first one longer than 8162 bytes; there its buffer is full and it takes the connection for closed |
| `ClientReassembly.ClientEndToEnd` | DummyClient/DummyClient.cpp:251-324 | any stream of encoded frames, cut in any way that fits, is delivered exactly and in order on an open connection if and only if no payload is longer than 8162 bytes |
| `ClientReassembly.ClientHasRoom` | DummyClient/DummyClient.cpp:263-265 | after every drain the 8192-byte buffer has room for the next recv, wherever the stream is cut, if and only if no payload is longer than 8162 bytes |
| `ClientReassembly.ClientBuffer.Shift` | DummyClient/DummyClient.cpp:318-320 | memmove drops the front of the buffer |
| `ClientReassembly.ClientBuffer.DrainRecv` | DummyClient/DummyClient.cpp:251-324 | the loop with memmove delivers and leaves what the reference function says, and reports a closed connection without touching anything |
| `ClientReassembly.ClientBuffer.TakeStream` | DummyClient/DummyClient.cpp:251-324 | call after call, with nothing received once the buffer is full, the buffer follows the reference functions over the whole stream |
| `PacketPool.AllocAccounts` | myIOCP/CPacket.cpp:10-25 | Alloc hands out a packet nobody holds, with one reference, and changes no held buffer |
| `PacketPool.AddRefAccounts` | myIOCP/CPacket.cpp:45-48 | AddRef by a holder keeps counts equal to holders |
| `PacketPool.ReleaseAccounts` | myIOCP/CPacket.cpp:50-56 | Release keeps counts equal to holders, and pools exactly the packets nobody holds, each once |
| `PacketPool.ReleaseAllAccounts` | myIOCP/CLanServer.cpp:302-309 | the same for a drain loop |
| `PacketPool.ReleaseAllCounts` | myIOCP/CLanServer.cpp:302-309 | a drain loop takes one reference off a packet for each time it occurs |
| `PacketPool.LastReleasedFirst` | myIOCP/CPacket.cpp:10-56 | the pool hands out the packet released last |
| `SessionId.SidDecodes` | myIOCP/CLanServer.cpp:276-277 | an identifier decodes to its slot and generation if and only if the generation has not wrapped negative |
| `SessionId.SidsDistinct` | myIOCP/CLanServer.cpp:276-277 | distinct incarnations have distinct identifiers |
| `EngineRefs.CloseKeeps` | myIOCP/CLanServer.cpp:294-316 | CloseSession drops the base reference exactly once and keeps every slot's count right |
| `EngineRefs.PostRecvKeeps` | myIOCP/CLanServer.cpp:323-338 | posting a receive, or failing to, keeps every slot's count right |
| `EngineRefs.FlushKeeps` | myIOCP/CLanServer.cpp:384-419 | flushing, or failing to, keeps every slot's count right and at most one send outstanding |
| `EngineRefs.AcceptKeeps` | myIOCP/CLanServer.cpp:156-203 | accepting keeps every slot's count right, also when the completion port or the first receive fails |
| `EngineOwnership.CloseOwned` | myIOCP/CLanServer.cpp:294-316 | CloseSession returns exactly the queue's packet references |
| `EngineOwnership.EnqueueOwned` | myIOCP/CLanServer.cpp:119-122 | SendPacket's AddRef is backed by the caller's reference and becomes the queue's |
| `EngineOwnership.FlushOwned` | myIOCP/CLanServer.cpp:384-419 | references move from queue to batch, and come back if WSASend fails at once |
| `EngineOwnership.DeliverOwned` | myIOCP/CLanServer.cpp:365-376 | a delivered packet ends with one reference, the content queue's |
| `EngineOwnership.DiscardOwned` | myIOCP/CLanServer.cpp:365-372 | a frame that fails to decode leaves no packet behind |
| `EnginePlayers.CloseAgrees` | myIOCP/CLanServer.cpp:294-316 | closing a session and announcing LEAVE keep replayed players and open sessions equal |
| `EnginePlayers.AcceptAgrees` | myIOCP/CLanServer.cpp:181-201 | so does accepting, on every failure path, including LEAVE without JOIN |
| `EngineOrder.TakeOrder` | myIOCP/CLanServer.cpp:388-401 | taking a batch keeps accepted = posted ++ batch ++ queued |
| `EngineOrder.AllocOrder` | myIOCP/CPacket.cpp:10-25 | Alloc changes no buffer that is queued or in flight |
| `EngineOrder.SendPacketTellsTheTruth` | myIOCP/CLanServer.cpp:97-127 | SendPacket returns true exactly when the packet joins the accepted sequence of the session addressed, and no other sequence changes |
| `EngineRuns.StepKeepsInv` | myIOCP/CLanServer.cpp:97-443 | every step of engine and Update thread keeps reference counts, packet ownership, player agreement and send order together |
| `EngineRuns.RunKeepsInv` | myIOCP/CLanServer.cpp:97-443 | so does every run |
| `EngineTheorems.SessionCounts` | myIOCP/CLanServer.cpp:205-443 | in every reachable state a slot's count is one for an open session plus its outstanding receives and sends, at most one each and at most 3; it is pooled exactly at 0 and has been returned once per finished incarnation |
| `EngineTheorems.PooledSlotsAreQuiet` | myIOCP/CLanServer.cpp:318-321 | the pool holds no slot twice, and none for which a completion of the old incarnation can still arrive |
| `EngineTheorems.PacketConservation` | myIOCP/CPacket.cpp:10-56 | every packet's count is the number of its holders (callers, queues, batches in flight, content queue, abandoned), and the pool is exactly the packets with count 0 |
| `EngineTheorems.PlayersAreOpenSessions` | myIOCP/CChatServer.cpp:101-129 | replaying the queued messages over the players gives exactly the open joined sessions; with an empty queue the two are equal |
| `EngineTheorems.AcceptedIsPostedPlusQueued` | myIOCP/CLanServer.cpp:112-126 | an open session's accepted packets are the posted ones followed by the queued ones, byte for byte; after closing, posted is a prefix; buffers in flight still hold what was posted |
| `EngineTheorems.CloseReleasesUnposted` | myIOCP/CLanServer.cpp:302-310 | closing takes one reference off a packet for each time it is queued, and what is queued is exactly what was accepted and not posted |
| `EngineCloses.SessionsCloseFor` | myIOCP/CLanServer.cpp:97-443 | in every reachable state a step closes an open session if and only if it is a failed completion, a receive that stops the parser or cannot be posted again, a send that cannot be posted, SendPacket to a full queue, or Disconnect |
| `EngineCloses.NothingWaits` | myIOCP/CLanServer.cpp:384-431 | after a completed send, or SendPacket with no send outstanding, whose WSASend succeeds, everything the open session accepted has been posted |
| `EngineTheorems.RoomWideOrder` | myIOCP/CChatServer.cpp:350-370 | two packets that reached two sessions reached both in the same order |
| `NewSessions.ConnectionsAreTaken` | myIOCP/CLanServer.cpp:181-201 | in every reachable state a connection is refused exactly when every slot is in use, and that changes nothing; otherwise the slot on top of the pool gets an identifier never issued before, and the session is open, has joined and has one receive outstanding, or, if port or first receive refuse, is closed, has left, and its slot is back in the pool |
| `NewSessions.NoIdentifierTwice` | myIOCP/CLanServer.cpp:271-276 | whatever happens between two accepted connections, their identifiers differ |
| `EngineLifetimes.StaleIdRefused` | myIOCP/CLanServer.cpp:97-149 | an identifier whose session is over is refused by SendPacket, and Disconnect changes nothing |
| `EngineLifetimes.StaleIdsNeverReach` | myIOCP/CLanServer.cpp:97-149 | this stays so over every later run, however often the slot is reused |
| `EngineLifetimes.ClosedSessionsDrain` | myIOCP/CLanServer.cpp:216-231 | a closed session has at most two operations outstanding; the slot is not pooled before each has completed, and the last completion pools it |
| `EngineLifetimes.StepAbandons` | myIOCP/CLanServer.cpp:218-222 | a step abandons exactly the batch of a send whose completion failed |
| `EngineLifetimes.AbandonedForGood` | myIOCP/CLanServer.cpp:218-222 | abandoned references are never taken back, and a run adds some if and only if a send completion fails in it |
| `EngineLifetimes.PacketsComeBack` | myIOCP/CLanServer.cpp:218-222 | at rest every packet ever made is back in the pool if and only if no send completion of the whole run failed |
| `EngineLifetimes.SendCarriesPackets` | myIOCP/CLanServer.cpp:388-406 | an outstanding send always has packets in flight |
| `LostPacket.LosesAPacket` | myIOCP/CLanServer.cpp:218-222 | a run of five steps at whose end the only packet is held by nobody and is not in the pool |
| `EngineLifetimes.AbandonedNeverPooled` | myIOCP/CLanServer.cpp:218-222 | an abandoned packet is never pooled again |
| `EngineMessages.StepIssues` | myIOCP/CLanServer.cpp:294-338 | every message the engine queues names an identifier that InitSession issued, and issued identifiers stay issued |
| `DeliveredMessages.RecvDoneQueues` | myIOCP/CLanServer.cpp:365-376 | a completed receive queues exactly the payloads its frames decode to, one message each, in order, under the session's identifier, then at most its LEAVE |
| `DeliveredMessages.RunIsTraced` | myIOCP/CLanServer.cpp:97-443 | every run is such a list of states as the next theorem is about |
| `DeliveredMessages.MessageArrivesIntact` | myIOCP/CPacket.cpp:10-25 | along every run a queued message moves up by one for each message taken, and its buffer holds what it held when it was queued |
| `DeliveredMessages.HandledIntact` | myIOCP/CChatServer.cpp:33-47 | the Update thread comes to message k after exactly k others, and its packet still holds what it was queued with |
| `EngineStreams.StepKeepsInv` | myIOCP/CLanServer.cpp:205-382 | every step of an engine fed with bytes keeps engine and parsers together: whoever still receives has a parser that still runs |
| `EngineStreams.StreamsAreHeard` | myIOCP/CLanServer.cpp:340-382 | in every reachable state, whatever other sessions do and however its stream is cut, what a session has queued for the Update thread is what the one-pass parser makes of all the bytes it has received |
| `EngineStreams.EncodedStreamsAreHeard` | myIOCP/CLanServer.cpp:340-382 | so an encoded list of payloads of at most 4065 bytes is queued exactly, in order |
| `EngineStreams.BadStreamsClose` | myIOCP/CLanServer.cpp:340-382 | a completed receive closes its session if and only if the bytes received so far make the parser stop, or the next receive cannot be posted |
| `SessionObject.PacketStore.Alloc` | myIOCP/CPacket.cpp:10-25 | pops the pool or makes a packet, as the value function says |
| `SessionObject.PacketStore.AddRef` | myIOCP/CPacket.cpp:45-48 | one reference more, as the value function says |
| `SessionObject.PacketStore.Release` | myIOCP/CPacket.cpp:50-56 | one reference less, and into the pool at 0 |
| `SessionObject.RingPush` | myIOCP/CLanServer.cpp:120-122 | writing at (head + count) mod 512 appends to the circular queue and disturbs no other entry |
| `SessionObject.Session.Push` | myIOCP/CLanServer.cpp:120-122 | an entry goes behind the youngest; sqTail stays (sqHead + sqCount) mod 512 |
| `SessionObject.Session.Pop` | myIOCP/CLanServer.cpp:391-393 | the oldest entry comes off |
| `SessionObject.Session.Drain` | myIOCP/CLanServer.cpp:302-309 | the drain loop empties the queue and releases exactly its packets, oldest first |
| `SessionObject.Session.ReleaseSent` | myIOCP/CLanServer.cpp:408-414 | the release loop releases exactly the batch |
| `SessionObject.Session.TakeBatch` | myIOCP/CLanServer.cpp:388-400 | the batch loop moves the whole queue, in order, into sendPkts |
| `SessionObject.Session.Init` | myIOCP/CLanServer.cpp:271-292 | the slot of a new incarnation, with the next generation and its identifier |
| `SessionObject.Session.Close` | myIOCP/CLanServer.cpp:294-309 | only the first caller closes, and drains the queue |
| `LanServer.LanServer.constructor` | myIOCP/CLanServer.cpp:3-58 | n fresh sessions and a pool of their numbers: the state the runs start from |
| `LanServer.LanServer.IORelease` | myIOCP/CLanServer.cpp:438-443 | the object does what the engine's value function does: the slot goes back exactly when the count reaches 0 |
| `LanServer.LanServer.IOAddRef` | myIOCP/CLanServer.cpp:433-436 | likewise for one reference more |
| `LanServer.LanServer.CloseSession` | myIOCP/CLanServer.cpp:294-316 | likewise for closing |
| `LanServer.LanServer.PostRecv` | myIOCP/CLanServer.cpp:323-338 | likewise for posting a receive, with its failure path |
| `LanServer.LanServer.FlushSend` | myIOCP/CLanServer.cpp:384-419 | likewise for flushing, with its failure path |
| `LanServer.LanServer.OnSendComplete` | myIOCP/CLanServer.cpp:421-431 | likewise for a completed send |
| `LanServer.LanServer.SendPacket` | myIOCP/CLanServer.cpp:97-127 | likewise for SendPacket, with its result, the refusals and the close on a full queue |
| `LanServer.LanServer.Disconnect` | myIOCP/CLanServer.cpp:129-149 | likewise for Disconnect, with its result |
| `LanServer.LanServer.InitSession` | myIOCP/CLanServer.cpp:271-292 | likewise for initialising a slot |
| `LanServer.LanServer.Accept` | myIOCP/CLanServer.cpp:181-201 | likewise for one accepted connection, with an empty pool and a refused association |
| `LanServer.LanServer.DeliverAll` | myIOCP/CLanServer.cpp:344-377 | likewise for everything one receive delivers |
| `LanServer.LanServer.RecvDone` | myIOCP/CLanServer.cpp:224-229 | likewise for a completed receive and the worker's release |
| `LanServer.LanServer.SendDone` | myIOCP/CLanServer.cpp:224-229 | likewise for a completed send and the worker's release |
| `LanServer.LanServer.OpFailed` | myIOCP/CLanServer.cpp:218-222 | likewise for a failed completion |
| `LanReceive.RecvDone` | myIOCP/CLanServer.cpp:340-382 | from bytes in the session's ring to the server's state: the frames in the ring decide what is delivered and whether the session goes on, and the engine's step is the one they decide |
| `DbPipeline.StepKeeps` | myIOCP/CDBWorker.cpp:58-152 | every step of either thread keeps pushed jobs = answered ++ in hand ++ queued |
| `DbPipeline.OneResultPerJob` | myIOCP/CDBWorker.cpp:58-207 | over any interleaving, results consumed ++ results queued ++ job in hand ++ jobs queued are the pushed jobs one for one, in order, and result k reports to the asker of job k what the database replied to it: result and number, the nickname of the reply for a login and of the job for a sign-up; 1, 0 and none if the call failed |
| `DbPipeline.ExitsEmpty` | myIOCP/CDBWorker.cpp:144-151 | with nobody pushing, the worker leaves only with the queue empty |
| `DbPipeline.NothingLostAtStop` | myIOCP/CDBWorker.cpp:123-152 | if pushing stops before Stop, a worker that has left has answered every job ever pushed |
| `DbPipeline.DrainEnds` | myIOCP/CDBWorker.cpp:144-151 | after Stop every turn of the worker brings it strictly closer to leaving |
| `DbWorker.DbWorker.PushJob` | myIOCP/CDBWorker.cpp:58-63 | appends a job: one step of the pipeline |
| `DbWorker.DbWorker.PopResult` | myIOCP/CDBWorker.cpp:65-77 | takes the oldest result, or nothing |
| `DbWorker.DbWorker.PopJob` | myIOCP/CDBWorker.cpp:102-114 | takes the oldest job into hand, or ends the loop it is in |
| `DbWorker.DbWorker.ProcessJob` | myIOCP/CDBWorker.cpp:154-207 | appends one result that reports the reply, field by field, to the asker of the job in hand, also when the database call fails |
| `DbWorker.DbWorker.ServeOne` | myIOCP/CDBWorker.cpp:126-142 | one iteration of the main loop is a run of pipeline steps |
| `DbWorker.DbWorker.Drain` | myIOCP/CDBWorker.cpp:144-151 | the drain loop is a run of pipeline steps that ends with the queue empty and one result more per job |
| `ChatRooms.HandleJoin` | myIOCP/CChatServer.cpp:166-173 | keeps rooms sound and adds exactly the newcomer to the players |
| `ChatRooms.HandleLeave` | myIOCP/CChatServer.cpp:175-192 | keeps rooms sound and removes exactly the leaver from the players |
| `ChatRooms.HandleRoomEnter` | myIOCP/CChatServer.cpp:299-308 | keeps rooms sound (a player in a room is a member of one that exists; at most 50), whichever check refuses |
| `ChatRooms.HandleRoomLeave` | myIOCP/CChatServer.cpp:332-339 | keeps rooms sound and the players' keys |
| `ChatRooms.HandleDbResult` | myIOCP/CChatServer.cpp:245-272 | keeps rooms sound and the players' keys, although it overwrites the state; what it sets is in PlayerAfter |
| `ChatRooms.Step` | myIOCP/CChatServer.cpp:26-56 | no event ever makes the rooms unsound, so leave and chat never look up a missing room |
| `ChatRooms.ExactStep` | myIOCP/CChatServer.cpp:245-348 | exact agreement of rooms and players survives an event if and only if the event is not an enter or a login by a player already in a room |
| `ChatRooms.InexactIsStale` | myIOCP/CRoom.cpp:13-37 | the only way rooms and players disagree is a member that does not say so itself |
| `ChatRooms.StaleForever` | myIOCP/CRoom.cpp:30-37 | such a member is never removed, whatever happens later |
| `ChatRooms.ExactRun` | myIOCP/CChatServer.cpp:166-370 | a run from exact agreement ends in exact agreement if and only if no event of it breaks the agreement |
| `ChatRooms.EnteringTwoRooms` | myIOCP/CChatServer.cpp:307-308 | a run that makes one player a member of two rooms |
| `ChatRooms.LoggingInInsideARoom` | myIOCP/CPlayer.cpp:46-51 | a run that leaves a member whose player no longer says it is there |
| `ChatRooms.ChatGoesToMembers` | myIOCP/CChatServer.cpp:350-370 | in any sound hall a chat message of at most 256 characters goes, with the speaker's nickname, to the members of the room the speaker says it is in, once each; a longer one to nobody |
| `ChatRooms.EnterGoesToMembers` | myIOCP/CChatServer.cpp:309-329 | an admission, and nothing else, is announced to whoever is then a member, the answer to the newcomer and the notice to the others |
| `ChatRooms.LeaveGoesToMembers` | myIOCP/CChatServer.cpp:332-348 | a departure is announced to whoever is still a member |
| `ChatRooms.ChatReachesTheRoom` | myIOCP/CChatServer.cpp:350-370 | under exact agreement a chat message of at most 256 characters reaches exactly the players recorded in the speaker's room, once each; a longer one nobody |
| `ChatRooms.EnterIsAnnounced` | myIOCP/CChatServer.cpp:309-329 | under exact agreement an admission is announced to exactly those then in the room, the answer to the newcomer and the notice to the others |
| `ChatRooms.LeaveIsAnnounced` | myIOCP/CChatServer.cpp:332-348 | under exact agreement a departure is announced to exactly those who stay |
| `ChatRooms.OnlyKnownIds` | myIOCP/CChatServer.cpp:166-370 | nothing is sent to, queued for the database about, or remembered of an identifier that never joined |
| `ChatRooms.ResultIsAnswered` | myIOCP/CChatServer.cpp:245-297 | the player named in a result, if there, and nobody else gets one answer of its kind, with the result's number (and nickname), code 0 for result 0 and the tabulated code for any other |
| `ChatRooms.SilentEvents` | myIOCP/CChatServer.cpp:166-243 | joining, leaving, database requests and unknown requests are answered to nobody |
| `ChatRooms.MembersAfter` | myIOCP/CRoom.cpp:13-37 | who is a member of each room after an event: one player comes, if the room it asks for has fewer than 50, or goes, from the room it says it is in; nobody else |
| `ChatRooms.PlayerAfter` | myIOCP/CPlayer.cpp:1-84 | what each player is after an event: a newcomer is nobody; a successful login sets number, nickname and state; entering and leaving set room and state; nothing else changes anybody |
| `ChatRooms.LoggedInWithoutLogin` | myIOCP/CPlayer.cpp:74-84 | a run that makes a player count as logged in that never asked to log in |
| `ChatRooms.ResultTouchesItsPlayer` | myIOCP/CChatServer.cpp:245-297 | a result changes no room and no player but the one that asked |
| `ChatServer.Player.EnterRoom` | myIOCP/CPlayer.cpp:63-72 | refused exactly to a player in a room |
| `ChatServer.Player.LeaveRoom` | myIOCP/CPlayer.cpp:74-84 | refused exactly to a player outside |
| `ChatServer.Player.SetNickname` | myIOCP/CPlayer.cpp:46-51 | sets the nickname and, whatever it was, the state |
| `ChatServer.Room.EnterRoom` | myIOCP/CRoom.cpp:13-28 | admits exactly a newcomer to a room of fewer than 50 |
| `ChatServer.Room.LeaveRoom` | myIOCP/CRoom.cpp:30-37 | removes the member and says whether there was one |
| `ChatServer.ContentQueue.Push` | myIOCP/CContentQueue.cpp:13-18 | appends a message |
| `ChatServer.ContentQueue.Pop` | myIOCP/CContentQueue.cpp:20-35 | takes the oldest message, or none |
| `ChatServer.ChatServer.constructor` | myIOCP/CRoomManager.cpp:3-9 | five distinct empty rooms and no players |
| `ChatServer.ChatServer.GetRoom` | myIOCP/CRoomManager.cpp:19-27 | finds a room exactly for 1 to 5 |
| `ChatServer.Network.Broadcast` | myIOCP/CChatServer.cpp:343-346 | whatever the order of visiting, every member is sent the packet once and nobody else is |
| `ChatServer.ChatServer.HandleJoin` | myIOCP/CChatServer.cpp:166-173 | the objects follow the value function |
| `ChatServer.ChatServer.HandleLeave` | myIOCP/CChatServer.cpp:175-192 | the objects follow the value function; the room looked up exists |
| `ChatServer.ChatServer.HandleRoomEnter` | myIOCP/CChatServer.cpp:299-330 | the objects follow the value function, and each session is sent what it should be, the newcomer's answer first |
| `ChatServer.ChatServer.HandleRoomLeave` | myIOCP/CChatServer.cpp:332-348 | the objects follow the value function; the notice goes to those who stay |
| `ChatServer.ChatServer.HandleChat` | myIOCP/CChatServer.cpp:350-370 | nothing changes; every member of the speaker's room is sent the text, unless it is too long |
| `ChatServer.ChatServer.HandleDbResult` | myIOCP/CChatServer.cpp:245-297 | the objects follow the value function; the answer goes to the player that asked, if still there |
| `ChatServer.ChatServer.HandleDbRequest` | myIOCP/CChatServer.cpp:208-243 | login and sign-up append one job with the asker's identifier and the request's fields if the player is there, else nothing, and change nothing else |
| `ChatServer.ChatServer.HandleRoomRequest` | myIOCP/CChatServer.cpp:194-206 | dispatch of the requests that concern a room |
| `ChatServer.ChatServer.HandleRecv` | myIOCP/CChatServer.cpp:194-206 | dispatch of every request, in state, mail and jobs |
| `ChatServer.ChatServer.HandleFront` | myIOCP/CChatServer.cpp:35-47 | the switch, in state, mail and jobs, and the release of a received packet behind it |
| `ChatServer.ChatServer.HandleResults` | myIOCP/CChatServer.cpp:49-53 | the inner loop handles every result there is, in order |
| `ChatServer.ChatServer.UpdateOnce` | myIOCP/CChatServer.cpp:33-64 | one iteration handles the message in front and releases its packet, then handles every result, in state, mail and jobs |
| `WholeServer.KeysFollow` | myIOCP/CChatServer.cpp:166-192 | the handlers change the players' keys as the engine's agreement needs |
| `WholeServer.StepKeeps` | myIOCP/CChatServer.cpp:26-67 | every step of engine, Update thread and database worker keeps the joint invariant |
| `WholeServer.PlayerMapAgrees` | myIOCP/CChatServer.cpp:101-129 | over whole runs of all three, the players' keys with the queued messages replayed are the open sessions, and the rooms are sound |
| `WholeServer.AddresseesAreIssued` | myIOCP/CChatServer.cpp:194-370 | whatever the next message or result, everything the handlers send goes to an identifier InitSession issued |
| `WholeServer.WorkIsIssued` | myIOCP/CDBWorker.cpp:58-121 | every job queued or in hand and every result is for an identifier InitSession issued |
| `WholeServer.MailReachesItsOwner` | myIOCP/CLanServer.cpp:97-110 | everyone the handlers are about to send to is, in every later state, the open session of that very identifier, or SendPacket refuses and changes nothing: stale room entries never reach a new occupant |
| `WholeServer.LateResultSparesTheOccupant` | myIOCP/CChatServer.cpp:245-297 | a result for a session that is over is refused by SendPacket, and handling it leaves the rooms and the slot's new occupant alone |
| `Logins.RequestsBecomeJobs` | myIOCP/CChatServer.cpp:208-243 | a login or sign-up request by a player that is there appends one job, with its identifier and the request's fields; no other step of the whole server appends any |
| `Logins.IdentityFromDatabase` | myIOCP/CChatServer.cpp:262-270 | over whole runs a player's number and nickname are nobody's or those of the database's successful reply to a login job of that very session |
| `EngineAccepted.StepAcceptsNothing` | myIOCP/CLanServer.cpp:129-443 | no call but SendPacket and the reissue of a slot changes what a session has accepted |
| `MailDelivery.StepKeeps` | myIOCP/CChatServer.cpp:245-370 | every step, of the Update thread between two sends or of anything else, keeps the sessions' accepted packets equal to the letters handed over for them |
| `MailDelivery.LettersExist` | myIOCP/CChatServer.cpp:245-370 | for every event there is an order of sends that says to each session what the event has to say to it, so handling is never blocked |
| `MailDelivery.MailIsAccepted` | myIOCP/CChatServer.cpp:245-370 | over whole runs an open session has accepted, packet for packet and in order, exactly what the handled events had to say to it, less what the current event still has to send; a closed one a prefix of that |
| `MailDelivery.ClientHearsItsMail` | myIOCP/CChatServer.cpp:245-370 | however the network cuts it, a client decodes what has been posted to it into exactly the mail of the handled events, in order, as far as posted; and all of it is posted when the open session's queue is empty and the current event has been sent |

## Left out

- `Start` and `Stop`, apart from the state `Start` builds.
- Winsock and completion-port calls: outcomes passed in. `OnConnectionRequest` always
  accepts; socket options and addresses are not part of this model.
- OpenSSL: block cipher and MAC are arbitrary functions, nonces arbitrary inputs.
- The database connector, ODBC and the SQL schema: an arbitrary reply.
- Statistics, console output, tick timing, `main.cpp`, and the client's bots and console.
- Account, password and nickname fields: strings, without the fixed widths, terminators
  and the conversion to multibyte characters.
- Reading request fields off a packet: the handlers get an arbitrary request, which covers
  packets too short for their fields, where the source reads uninitialised variables.
- Bytes written into replies: a reply is a value with its fields, and MailDelivery lets
  them be written as any bytes.
- The `WSABUF` arrays and null pointers left in `sendPkts`.
- Weak memory, and interleavings inside one engine call.
- LanServer.LanServer.DeliverAll: the payloads are an input; LanReceive.RecvDone is where
  they come from the bytes in a ring.
- LanServer.LanServer.RecvDone: the payloads and how the parse loop ended are inputs;
  LanReceive.RecvDone and EngineStreams supply them from bytes.
- WholeServer.Enabled: the worker's `Stop` is not among the steps; DbPipeline covers it.
- ChatServer.Network: at object level the sends are listed, not made, and ChatServer and
  LanServer each have a content queue of their own; on values WholeServer and MailDelivery
  join them.
- WholeServer.AddresseesAreIssued: the request in a received packet is arbitrary there;
  DeliveredMessages says what bytes the packet holds.
- LanServer: the two pools are a sequence with the top first; LockFreeStack is what
  justifies that.

/**
  A completed receive, from the bytes in the session's ring to the server's state
  (OnRecvComplete and WorkerThread in myIOCP/CLanServer.cpp).
*/
module LanReceive {
  import E = Engine
  import F = Framing
  import Rx = Receiver
  import S = LanServer
  import EngineStreams

  /** The ring and the parser share no storage with the sessions. */
  ghost predicate Apart(srv: S.LanServer, rx: Rx.Receiver) {
    rx !in srv.cells && rx.ring !in srv.cells && rx.frame !in srv.cells
  }

  /** `bytes` have arrived for `op`: the frames in the ring decide what is delivered and
      whether the session goes on, and the engine's step is the one they decide. */
  method RecvDone(srv: S.LanServer, rx: Rx.Receiver, op: E.Op, bytes: nat, ok: bool, ghost s: E.Srv)
    requires srv.Valid() && srv.Shows(s) && op.slot < |srv.sessions|
    requires rx.Valid() && bytes <= rx.ring.DirectEnqueueSize() && Apart(srv, rx)
    modifies srv, srv.store, srv.sessions[op.slot], rx, rx.ring, rx.frame
    ensures srv.Valid() && rx.Valid()
    ensures var p := F.OnRecv(rx.keys, old(rx.ring.Contents())
                                       + old(rx.ring.buffer[rx.ring.rear..rx.ring.rear + bytes]));
      && rx.ring.Contents() == p.rest
      && srv.Shows(E.RecvDone(s, op, p.delivered, EngineStreams.EndOf(p.status), ok))
  {
    var before := |rx.delivered|;
    var status := rx.OnRecvComplete(bytes);
    var payloads := rx.delivered[before..];
    srv.RecvDone(op, payloads, EngineStreams.EndOf(status), ok, s);
  }
}

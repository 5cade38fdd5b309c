/** The length of a session's send queue (Qsize in myIOCP/CLanServer.h). */
module SendQueue {
  const QSIZE: nat := 512
}

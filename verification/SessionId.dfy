/**
  Session identifiers (InitSession, SendPacket and Disconnect in
  myIOCP/CLanServer.cpp): slot index in the top 16 bits, generation below. The
  generation is a 32-bit LONG, and widening a negative one to 64 bits fills the index
  bits with ones.
*/
module SessionId {

  const SPAN48: nat := 0x1_0000_0000_0000
  const SPAN32: nat := 0x1_0000_0000
  const MAX_LONG: int := 0x7FFF_FFFF

  type SessionID = nat

  /** The LONG a 32-bit pattern stands for. */
  function ToLong(x: nat): int {
    var low := x % SPAN32;
    if low <= MAX_LONG then low else low - SPAN32
  }

  /** InterlockedIncrement. */
  function NextLong(g: int): int {
    if g == MAX_LONG then -MAX_LONG - 1 else g + 1
  }

  /** `((SessionID)idx << 48) | (SessionID)generation`. */
  function MakeSid(idx: nat, generation: int): SessionID
    requires idx < 0x1_0000 && -MAX_LONG - 1 <= generation <= MAX_LONG
  {
    if generation >= 0 then idx * SPAN48 + generation else 0xFFFF * SPAN48 + (SPAN48 + generation)
  }

  function SidIndex(sid: SessionID): nat { sid / SPAN48 }

  function SidGeneration(sid: SessionID): int { ToLong(sid % SPAN48) }

  /** An issued identifier leads back to its slot and generation exactly as long as the
      generation has not wrapped to a negative number. */
  lemma SidDecodes(idx: nat, generation: int)
    requires idx < 0xFFFF && -MAX_LONG - 1 <= generation <= MAX_LONG
    ensures SidIndex(MakeSid(idx, generation)) == idx && SidGeneration(MakeSid(idx, generation)) == generation
       <==> generation >= 0
  {
  }

  /** So distinct incarnations get distinct identifiers. */
  lemma SidsDistinct(i: nat, g: int, j: nat, h: int)
    requires i < 0xFFFF && j < 0xFFFF && 0 <= g <= MAX_LONG && 0 <= h <= MAX_LONG
    ensures MakeSid(i, g) == MakeSid(j, h) <==> i == j && g == h
  {
    SidDecodes(i, g);
    SidDecodes(j, h);
  }
}

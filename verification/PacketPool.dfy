/**
  Reference-counted packets and their shared pool (Alloc, AddRef and Release in
  myIOCP/CPacket.cpp). A packet is named by the order in which `new` made it; packets
  are never deleted, only returned to the pool.
*/
module PacketPool {
  import opened Bytes

  type Pkt = nat

  /** What a buffer holds. `serial` numbers the allocations; it is bookkeeping. */
  datatype Content = Content(serial: nat, bytes: seq<byte>)

  type Buffers = map<Pkt, Content>

  datatype Packets = Packets(
    refs: map<Pkt, int>,          // refCount
    contents: Buffers,            // m_pBuffer
    pool: seq<Pkt>,               // the free stack, top first
    made: nat,                    // packets `new` has made
    allocs: nat                   // allocations so far, from the pool or not
  )

  const NO_PACKETS := Packets(map[], map[], [], 0, 0)

  function RefCount(ps: Packets, p: Pkt): int {
    if p in ps.refs then ps.refs[p] else 0
  }

  function ContentOf(contents: Buffers, p: Pkt): Content {
    if p in contents then contents[p] else Content(0, [])
  }

  function Contents(contents: Buffers, pkts: seq<Pkt>): (r: seq<Content>)
    ensures |r| == |pkts|
    ensures forall i | 0 <= i < |pkts| :: r[i] == ContentOf(contents, pkts[i])
  {
    if pkts == [] then [] else [ContentOf(contents, pkts[0])] + Contents(contents, pkts[1..])
  }

  /** The packet the next `Alloc` hands out. */
  function NextPkt(ps: Packets): Pkt {
    if ps.pool != [] then ps.pool[0] else ps.made
  }

  /** `Alloc`, and the caller's writes into the buffer only it can see. */
  function AllocWith(ps: Packets, bytes: seq<byte>): Packets {
    var p := NextPkt(ps);
    var ps1 := ps.(refs := ps.refs[p := 1], contents := ps.contents[p := Content(ps.allocs, bytes)],
                   allocs := ps.allocs + 1);
    if ps.pool != [] then ps1.(pool := ps.pool[1..]) else ps1.(made := ps.made + 1)
  }

  function AddRef(ps: Packets, p: Pkt): Packets {
    ps.(refs := ps.refs[p := RefCount(ps, p) + 1])
  }

  function Release(ps: Packets, p: Pkt): Packets {
    var ps1 := ps.(refs := ps.refs[p := RefCount(ps, p) - 1]);
    if RefCount(ps, p) - 1 == 0 then ps1.(pool := [p] + ps1.pool) else ps1
  }

  function ReleaseAll(ps: Packets, pkts: seq<Pkt>): (r: Packets)
    ensures r.contents == ps.contents && r.allocs == ps.allocs
    decreases |pkts|
  {
    if pkts == [] then ps else ReleaseAll(Release(ps, pkts[0]), pkts[1..])
  }

  lemma {:induction false} ReleaseAllCounts(ps: Packets, pkts: seq<Pkt>, p: Pkt)
    ensures RefCount(ReleaseAll(ps, pkts), p) == RefCount(ps, p) - multiset(pkts)[p]
    decreases |pkts|
  {
    if pkts != [] {
      ReleaseAllCounts(Release(ps, pkts[0]), pkts[1..], p);
      assert pkts == [pkts[0]] + pkts[1..];
    }
  }

  /** The counts are exactly the references in `holders`, and the pool is exactly the
      packets nobody holds, each once. */
  ghost predicate Accounts(ps: Packets, holders: multiset<Pkt>) {
    && (forall p: Pkt | p in holders :: p < ps.made)
    && (forall p: Pkt :: RefCount(ps, p) == holders[p])
    && (forall p: Pkt :: p in ps.pool <==> p < ps.made && p !in holders)
    && (forall i, j | 0 <= i < j < |ps.pool| :: ps.pool[i] != ps.pool[j])
  }

  lemma NothingMade()
    ensures Accounts(NO_PACKETS, multiset{})
  {
  }

  lemma AllocAccounts(ps: Packets, holders: multiset<Pkt>, bytes: seq<byte>)
    requires Accounts(ps, holders)
    ensures NextPkt(ps) !in holders
    ensures Accounts(AllocWith(ps, bytes), holders + multiset{NextPkt(ps)})
    ensures ContentOf(AllocWith(ps, bytes).contents, NextPkt(ps)) == Content(ps.allocs, bytes)
    ensures forall q | q in holders :: ContentOf(AllocWith(ps, bytes).contents, q) == ContentOf(ps.contents, q)
  {
    if ps.pool != [] {
      assert ps.pool[0] in ps.pool;
      assert ps.pool == [ps.pool[0]] + ps.pool[1..];
    }
  }

  lemma AddRefAccounts(ps: Packets, holders: multiset<Pkt>, p: Pkt)
    requires Accounts(ps, holders) && p in holders
    ensures Accounts(AddRef(ps, p), holders + multiset{p})
  {
  }

  lemma ReleaseAccounts(ps: Packets, holders: multiset<Pkt>, p: Pkt)
    requires Accounts(ps, holders) && p in holders
    ensures Accounts(Release(ps, p), holders - multiset{p})
  {
  }

  /** Taking the head of a list of references off the holders. */
  lemma HeadHeld(holders: multiset<Pkt>, pkts: seq<Pkt>)
    requires pkts != [] && multiset(pkts) <= holders
    ensures pkts[0] in holders && multiset(pkts[1..]) <= holders - multiset{pkts[0]}
    ensures holders - multiset{pkts[0]} - multiset(pkts[1..]) == holders - multiset(pkts)
  {
    assert pkts == [pkts[0]] + pkts[1..];
    assert pkts[0] in multiset(pkts);
  }

  lemma {:induction false} ReleaseAllAccounts(ps: Packets, holders: multiset<Pkt>, pkts: seq<Pkt>)
    requires Accounts(ps, holders) && multiset(pkts) <= holders
    ensures Accounts(ReleaseAll(ps, pkts), holders - multiset(pkts))
    decreases |pkts|
  {
    if pkts == [] {
      assert holders - multiset(pkts) == holders;
    } else {
      HeadHeld(holders, pkts);
      ReleaseAccounts(ps, holders, pkts[0]);
      ReleaseAllAccounts(Release(ps, pkts[0]), holders - multiset{pkts[0]}, pkts[1..]);
    }
  }

  /** The pool is a stack: the packet released last is the next one handed out. */
  lemma LastReleasedFirst(ps: Packets, p: Pkt)
    requires RefCount(ps, p) == 1
    ensures NextPkt(Release(ps, p)) == p
  {
  }
}

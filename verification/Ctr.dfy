/**
  The AES-128-CTR keystream CPacket::Encode and Decode ask OpenSSL for
  (section 6.5 of NIST SP 800-38A): the 16-byte counter starts at the 12-byte nonce
  followed by four zero bytes and is incremented as a big-endian integer
  (Appendix B of NIST SP 800-38A). The block cipher itself is uninterpreted.
*/
module Ctr {
  import opened Bytes

  const NONCE_SIZE: nat := 12
  const BLOCK_SIZE: nat := 16

  type Nonce = s: seq<byte> | |s| == NONCE_SIZE witness [0,0,0,0, 0,0,0,0, 0,0,0,0]
  type Block = s: seq<byte> | |s| == BLOCK_SIZE witness [0,0,0,0, 0,0,0,0, 0,0,0,0, 0,0,0,0]

  const ZERO4: seq<byte> := [0, 0, 0, 0]

  /** Add one to a big-endian integer, dropping the carry out of the first byte. */
  function Increment(s: seq<byte>): (r: seq<byte>)
    ensures |r| == |s|
    decreases |s|
  {
    if s == [] then []
    else
      var init, last := s[..|s| - 1], s[|s| - 1];
      if last < 255 then init + [last + 1] else Increment(init) + [0]
  }

  /** The counter of block `j`. */
  function Counter(nonce: Nonce, j: nat): Block {
    if j == 0 then nonce + ZERO4 else Increment(Counter(nonce, j - 1))
  }

  /** Value of a big-endian byte string. */
  function BigEndian(s: seq<byte>): nat
    decreases |s|
  {
    if s == [] then 0 else BigEndian(s[..|s| - 1]) * 256 + s[|s| - 1] as nat
  }

  function Pow256(n: nat): nat { if n == 0 then 1 else 256 * Pow256(n - 1) }

  lemma {:induction false} BigEndianBound(s: seq<byte>)
    ensures BigEndian(s) < Pow256(|s|)
    decreases |s|
  {
    if s != [] { BigEndianBound(s[..|s| - 1]); }
  }

  /** Below the all-ones string, incrementing a suffix adds one and leaves the rest alone. */
  lemma {:induction false} IncrementSuffix(a: seq<byte>, b: seq<byte>)
    requires BigEndian(b) + 1 < Pow256(|b|)
    ensures Increment(a + b) == a + Increment(b)
    ensures BigEndian(Increment(b)) == BigEndian(b) + 1
    decreases |b|
  {
    var init, last := b[..|b| - 1], b[|b| - 1];
    assert (a + b)[..|a + b| - 1] == a + init;
    if last == 255 {
      IncrementSuffix(a, init);
      assert Increment(b) == Increment(init) + [0];
      assert Increment(b)[..|b| - 1] == Increment(init);
    } else {
      assert Increment(b)[..|b| - 1] == init;
    }
  }

  /** The all-ones suffix wraps to zeros and carries. */
  lemma {:induction false} IncrementCarries(a: seq<byte>, b: seq<byte>)
    requires BigEndian(b) + 1 == Pow256(|b|)
    ensures Increment(a + b) == Increment(a) + seq(|b|, _ => 0)
    decreases |b|
  {
    if b == [] {
      assert a + b == a;
    } else {
      var init := b[..|b| - 1];
      BigEndianBound(init);
      assert b[|b| - 1] == 255 && BigEndian(init) + 1 == Pow256(|init|);
      assert (a + b)[..|a + b| - 1] == a + init;
      IncrementCarries(a, init);
    }
  }

  /** Up to 2^32 blocks the nonce is untouched and the last four bytes count blocks. */
  lemma {:induction false} CounterLayout(nonce: Nonce, j: nat)
    requires j < 0x1_0000_0000
    ensures Counter(nonce, j)[..NONCE_SIZE] == nonce
    ensures BigEndian(Counter(nonce, j)[NONCE_SIZE..]) == j
    decreases j
  {
    if j == 0 {
      assert (nonce + ZERO4)[NONCE_SIZE..] == ZERO4;
      assert BigEndian(ZERO4) == 0 by {
        assert ZERO4[..3] == [0, 0, 0] && [0, 0, 0][..2] == [0, 0] && [0, 0][..1] == [0] && [0][..0] == [];
      }
    } else {
      CounterLayout(nonce, j - 1);
      var before := Counter(nonce, j - 1);
      assert Pow256(4) == 0x1_0000_0000;
      IncrementSuffix(nonce, before[NONCE_SIZE..]);
      assert before == nonce + before[NONCE_SIZE..];
    }
  }

  /** Keystream separation: no counter block is used twice, neither under one nonce
      nor under two. */
  lemma CountersDistinct(n1: Nonce, j1: nat, n2: Nonce, j2: nat)
    requires j1 < 0x1_0000_0000 && j2 < 0x1_0000_0000
    ensures Counter(n1, j1) == Counter(n2, j2) <==> n1 == n2 && j1 == j2
  {
    CounterLayout(n1, j1);
    CounterLayout(n2, j2);
  }

  /** 2^32 is where that ends: the next increment carries into the nonce. */
  lemma CounterCarriesIntoNonce(nonce: Nonce)
    ensures Counter(nonce, 0x1_0000_0000) == Increment(nonce) + ZERO4
  {
    var last := Counter(nonce, 0xFFFF_FFFF);
    CounterLayout(nonce, 0xFFFF_FFFF);
    assert Pow256(4) == 0x1_0000_0000;
    IncrementCarries(nonce, last[NONCE_SIZE..]);
    assert last == nonce + last[NONCE_SIZE..];
    assert seq(4, _ => 0 as byte) == ZERO4;
  }

  /** Byte `i` of the keystream. */
  function KeyByte(aes: Block -> Block, nonce: Nonce, i: nat): byte {
    aes(Counter(nonce, i / BLOCK_SIZE))[i % BLOCK_SIZE]
  }

  /** CTR encryption, which is also decryption. */
  function Crypt(aes: Block -> Block, nonce: Nonce, data: seq<byte>): (r: seq<byte>)
    ensures |r| == |data|
    ensures forall i | 0 <= i < |data| :: r[i] == Xor(data[i], KeyByte(aes, nonce, i))
  {
    seq(|data|, i requires 0 <= i < |data| => Xor(data[i], KeyByte(aes, nonce, i)))
  }

  lemma CryptTwice(aes: Block -> Block, nonce: Nonce, data: seq<byte>)
    ensures Crypt(aes, nonce, Crypt(aes, nonce, data)) == data
  {
    forall i | 0 <= i < |data| ensures Crypt(aes, nonce, Crypt(aes, nonce, data))[i] == data[i] {
      XorTwice(data[i], KeyByte(aes, nonce, i));
    }
  }

  // ------------------------------------------------ the blocks consumed

  /** Big-endian strings of one length are equal when their values are. */
  lemma {:induction false} BigEndianInjective(a: seq<byte>, b: seq<byte>)
    requires |a| == |b| && BigEndian(a) == BigEndian(b)
    ensures a == b
    decreases |a|
  {
    if a != [] {
      var n := |a| - 1;
      LastDigit(BigEndian(a[..n]), a[n], BigEndian(b[..n]), b[n]);
      BigEndianInjective(a[..n], b[..n]);
      assert a == a[..n] + [a[n]] && b == b[..n] + [b[n]];
    }
  }

  lemma LastDigit(x: nat, a: byte, y: nat, b: byte)
    requires x * 256 + a as nat == y * 256 + b as nat
    ensures x == y && a == b
  {
  }

  /** The block that enciphers byte `i`: the nonce, and `i / 16` in four bytes. */
  ghost predicate BlockFor(nonce: Nonce, i: nat, b: Block) {
    b[..12] == nonce && BigEndian(b[12..]) == i / 16
  }

  lemma BlockIsCounter(nonce: Nonce, i: nat, b: Block)
    requires i < 16 * 0x1_0000_0000 && BlockFor(nonce, i, b)
    ensures b == Counter(nonce, i / BLOCK_SIZE)
  {
    var c := Counter(nonce, i / BLOCK_SIZE);
    CounterLayout(nonce, i / BLOCK_SIZE);
    BigEndianInjective(b[12..], c[12..]);
    assert b == b[..12] + b[12..] && c == c[..12] + c[12..];
  }

  /** What counter mode is: byte `i` is combined with byte `i mod 16` of the enciphered block
      that holds the nonce and, big-endian, `i / 16`. */
  lemma CryptBytewise(aes: Block -> Block, nonce: Nonce, data: seq<byte>, i: nat, b: Block)
    requires i < |data| && i < 16 * 0x1_0000_0000 && BlockFor(nonce, i, b)
    ensures Crypt(aes, nonce, data)[i] == Xor(data[i], aes(b)[i % 16])
  {
    BlockIsCounter(nonce, i, b);
  }

  /** There is such a block. */
  lemma SomeBlockFor(nonce: Nonce, i: nat) returns (b: Block)
    requires i < 16 * 0x1_0000_0000
    ensures BlockFor(nonce, i, b)
  {
    b := Counter(nonce, i / BLOCK_SIZE);
    CounterLayout(nonce, i / BLOCK_SIZE);
  }

  /** The block function is asked for nothing else: two that agree on the blocks of these
      positions encipher the data alike. */
  lemma CryptAsksOnly(aes: Block -> Block, aes': Block -> Block, nonce: Nonce, data: seq<byte>)
    requires |data| <= 16 * 0x1_0000_0000
    requires forall b: Block | b[..12] == nonce && 16 * BigEndian(b[12..]) < |data| :: aes(b) == aes'(b)
    ensures Crypt(aes, nonce, data) == Crypt(aes', nonce, data)
  {
    forall i | 0 <= i < |data| ensures Crypt(aes, nonce, data)[i] == Crypt(aes', nonce, data)[i] {
      var b := SomeBlockFor(nonce, i);
      CryptBytewise(aes, nonce, data, i, b);
      CryptBytewise(aes', nonce, data, i, b);
    }
  }

  /** Keystream separation of payloads a packet can hold: at most 255 blocks are enciphered for
      one, and two bytes, of one payload or of two, use the same block if and only if they are
      under the same nonce and in the same 16 bytes. */
  lemma PayloadsUseDistinctBlocks(aes: Block -> Block, n1: Nonce, p1: seq<byte>, i1: nat,
                                  n2: Nonce, p2: seq<byte>, i2: nat)
    returns (b1: Block, b2: Block)
    requires i1 < |p1| <= 4066 && i2 < |p2| <= 4066
    ensures Crypt(aes, n1, p1)[i1] == Xor(p1[i1], aes(b1)[i1 % 16])
    ensures Crypt(aes, n2, p2)[i2] == Xor(p2[i2], aes(b2)[i2 % 16])
    ensures BigEndian(b1[12..]) < 255 && BigEndian(b2[12..]) < 255
    ensures b1 == b2 <==> n1 == n2 && i1 / 16 == i2 / 16
  {
    b1 := SomeBlockFor(n1, i1);
    b2 := SomeBlockFor(n2, i2);
    CryptBytewise(aes, n1, p1, i1, b1);
    CryptBytewise(aes, n2, p2, i2, b2);
    if n1 == n2 && i1 / 16 == i2 / 16 { BlockIsCounter(n1, i1, b1); BlockIsCounter(n2, i2, b2); }
  }
}

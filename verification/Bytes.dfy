/** Bytes, exclusive or, and the little-endian WORD at the head of a frame. */
module Bytes {

  newtype byte = x: int | 0 <= x < 256

  /** Bitwise exclusive or of the low `bits` bits. */
  function XorBits(a: nat, b: nat, bits: nat): (r: nat)
    ensures r < Pow2(bits)
    decreases bits
  {
    if bits == 0 then 0 else (if a % 2 == b % 2 then 0 else 1) + 2 * XorBits(a / 2, b / 2, bits - 1)
  }

  function Pow2(n: nat): nat { if n == 0 then 1 else 2 * Pow2(n - 1) }

  function Xor(a: byte, b: byte): byte {
    assert Pow2(8) == 256;
    XorBits(a as nat, b as nat, 8) as byte
  }

  lemma {:induction false} XorBitsTwice(a: nat, b: nat, bits: nat)
    requires a < Pow2(bits)
    ensures XorBits(XorBits(a, b, bits), b, bits) == a
    decreases bits
  {
    if bits > 0 {
      XorBitsTwice(a / 2, b / 2, bits - 1);
    }
  }

  /** Exclusive or with the same byte twice restores the first one. */
  lemma XorTwice(a: byte, b: byte)
    ensures Xor(Xor(a, b), b) == a
  {
    assert Pow2(8) == 256;
    XorBitsTwice(a as nat, b as nat, 8);
  }

  /** Bit `i` of a number. */
  function Bit(a: nat, i: nat): nat {
    if i == 0 then a % 2 else Bit(a / 2, i - 1)
  }

  lemma {:induction false} XorBitsBitwise(a: nat, b: nat, bits: nat, i: nat)
    requires i < bits
    ensures Bit(XorBits(a, b, bits), i) == if Bit(a, i) == Bit(b, i) then 0 else 1
    decreases bits
  {
    if i > 0 { XorBitsBitwise(a / 2, b / 2, bits - 1, i - 1); }
  }

  /** Exclusive or, bit for bit. */
  lemma XorBitwise(a: byte, b: byte, i: nat)
    requires i < 8
    ensures Bit(Xor(a, b) as nat, i) == if Bit(a as nat, i) == Bit(b as nat, i) then 0 else 1
  {
    assert Pow2(8) == 256;
    XorBitsBitwise(a as nat, b as nat, 8, i);
  }

  /** `*(WORD*)p` on the little-endian targets the server runs on. */
  function WordAt(s: seq<byte>): (w: nat)
    requires |s| >= 2
    ensures w < 0x10000
  {
    s[0] as nat + 256 * (s[1] as nat)
  }

  /** The two bytes `(WORD)n` is stored as: larger values lose their high bits. */
  function WordBytes(n: nat): (s: seq<byte>)
    ensures |s| == 2
    ensures WordAt(s) == n % 0x10000
  {
    var low, high, over := n % 256, n / 256 % 256, n / 256 / 256;
    assert n == 0x10000 * over + (low + 256 * high);
    ModUnique(n, over, low + 256 * high);
    [low as byte, high as byte]
  }

  lemma ModUnique(n: nat, quotient: nat, remainder: nat)
    requires n == 0x10000 * quotient + remainder && remainder < 0x10000
    ensures n % 0x10000 == remainder
  {
  }

  lemma WordBytesOfWordAt(s: seq<byte>)
    requires |s| == 2
    ensures WordBytes(WordAt(s)) == s
  {
  }

  lemma WordDigits(n: nat)
    ensures WordBytes(n)[0] as nat == n % 256 && WordBytes(n)[1] as nat == n / 256 % 256
  {
  }
}

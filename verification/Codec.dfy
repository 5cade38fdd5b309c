/**
  The frame codec (CPacket::Encode and Decode in myIOCP/CPacket.cpp, and the same
  pair in DummyClient/DummyClient.cpp). A frame is

      length (2, little-endian) | nonce (12) | mac (16) | cipher text (length)

  encrypted with AES-CTR and authenticated over everything but the mac itself. The
  block cipher and HMAC-SHA256 (section 5 of RFC 2104) are uninterpreted functions,
  and the random nonce is an arbitrary input.
*/
module Codec {
  import opened Options
  import opened Bytes
  import opened Ctr

  const PACKET_BUFFER_SIZE: nat := 4096
  const NONCE_OFFSET: nat := 2
  const MAC_OFFSET: nat := 14
  const MAC_SIZE: nat := 16
  const HEADER_SIZE: nat := 30
  /** The longest payload a packet buffer holds. */
  const MAX_PAYLOAD: nat := PACKET_BUFFER_SIZE - HEADER_SIZE

  type Digest = s: seq<byte> | |s| == 32
    witness [0,0,0,0,0,0,0,0, 0,0,0,0,0,0,0,0, 0,0,0,0,0,0,0,0, 0,0,0,0,0,0,0,0]

  datatype Keys = Keys(aes: Block -> Block, hmac: seq<byte> -> Digest)

  /** The first 16 bytes of the digest over length, nonce and cipher text. */
  function Mac(k: Keys, prefix: seq<byte>, cipher: seq<byte>): (m: seq<byte>)
    ensures |m| == MAC_SIZE
  {
    k.hmac(prefix + cipher)[..MAC_SIZE]
  }

  function Encode(k: Keys, nonce: Nonce, plain: seq<byte>): (frame: seq<byte>)
    ensures |frame| == HEADER_SIZE + |plain|
    ensures WordAt(frame) == |plain| % 0x10000
  {
    var cipher := Crypt(k.aes, nonce, plain);
    var prefix := WordBytes(|plain|) + nonce;
    prefix + Mac(k, prefix, cipher) + cipher
  }

  /** Decode the frame at the head of `input`; None when its mac does not match. */
  function Decode(k: Keys, input: seq<byte>): (r: Option<seq<byte>>)
    requires |input| >= HEADER_SIZE && |input| >= HEADER_SIZE + WordAt(input)
    ensures r.Some? ==> |r.value| == WordAt(input)
  {
    var cipher := input[HEADER_SIZE..HEADER_SIZE + WordAt(input)];
    if input[MAC_OFFSET..HEADER_SIZE] != Mac(k, input[..MAC_OFFSET], cipher) then None
    else Some(Crypt(k.aes, input[NONCE_OFFSET..MAC_OFFSET], cipher))
  }

  /** Where the parts of an encoded frame lie. */
  lemma FrameParts(k: Keys, nonce: Nonce, plain: seq<byte>, rest: seq<byte>)
    ensures var input := Encode(k, nonce, plain) + rest;
      var cipher := Crypt(k.aes, nonce, plain);
      && WordAt(input) == |plain| % 0x10000
      && input[..MAC_OFFSET] == WordBytes(|plain|) + nonce
      && input[NONCE_OFFSET..MAC_OFFSET] == nonce
      && input[MAC_OFFSET..HEADER_SIZE] == Mac(k, WordBytes(|plain|) + nonce, cipher)
      && input[HEADER_SIZE..HEADER_SIZE + |plain|] == cipher
      && input[HEADER_SIZE + |plain|..] == rest
  {
  }

  /** Round trip, whatever follows the frame, for every payload a WORD can measure. */
  lemma DecodeEncode(k: Keys, nonce: Nonce, plain: seq<byte>, rest: seq<byte>)
    requires |plain| < 0x10000
    ensures Decode(k, Encode(k, nonce, plain) + rest) == Some(plain)
  {
    var input := Encode(k, nonce, plain) + rest;
    FrameParts(k, nonce, plain, rest);
    DecodeParts(k, input, nonce, Crypt(k.aes, nonce, plain));
    CryptTwice(k.aes, nonce, plain);
  }

  /** Decoding an input whose parts are known. */
  lemma DecodeParts(k: Keys, input: seq<byte>, nonce: Nonce, cipher: seq<byte>)
    requires |input| >= HEADER_SIZE + |cipher| && WordAt(input) == |cipher|
    requires input[NONCE_OFFSET..MAC_OFFSET] == nonce
    requires input[MAC_OFFSET..HEADER_SIZE] == Mac(k, input[..MAC_OFFSET], cipher)
    requires input[HEADER_SIZE..HEADER_SIZE + |cipher|] == cipher
    ensures Decode(k, input) == Some(Crypt(k.aes, nonce, cipher))
  {
  }

  /** Decode accepts exactly what Encode produces under the frame's own nonce. */
  lemma DecodeAcceptsOnlyEncoded(k: Keys, frame: seq<byte>, plain: seq<byte>)
    requires |frame| >= HEADER_SIZE && |frame| == HEADER_SIZE + WordAt(frame)
    ensures Decode(k, frame) == Some(plain)
       <==> frame == Encode(k, frame[NONCE_OFFSET..MAC_OFFSET], plain)
  {
    var nonce: Nonce := frame[NONCE_OFFSET..MAC_OFFSET];
    var cipher := frame[HEADER_SIZE..];
    if Decode(k, frame) == Some(plain) {
      assert frame[HEADER_SIZE..HEADER_SIZE + WordAt(frame)] == cipher;
      CryptTwice(k.aes, nonce, cipher);
      WordBytesOfWordAt(frame[..2]);
      assert WordBytes(|plain|) + nonce == frame[..MAC_OFFSET];
      assert frame == frame[..MAC_OFFSET] + frame[MAC_OFFSET..HEADER_SIZE] + cipher;
    }
    if frame == Encode(k, nonce, plain) {
      DecodeEncode(k, nonce, plain, []);
      assert frame + [] == frame;
    }
  }

  /** What a frame begins with: the length in two bytes, low byte first, the nonce, and a mac of
      all of it but the mac itself. */
  lemma EncodeAuthenticates(k: Keys, nonce: Nonce, plain: seq<byte>)
    ensures var frame := Encode(k, nonce, plain);
      && |frame| == 30 + |plain|
      && frame[0] as nat == |plain| % 256 && frame[1] as nat == |plain| / 256 % 256
      && frame[2..14] == nonce
      && frame[14..30] == k.hmac(frame[..14] + frame[30..])[..16]
  {
    var frame := Encode(k, nonce, plain);
    FrameParts(k, nonce, plain, []);
    assert frame + [] == frame;
    assert frame[0] == frame[..14][0] && frame[1] == frame[..14][1];
    WordDigits(|plain|);
  }

  /** Decode accepts a frame if and only if the mac is that of its length, nonce and cipher
      text, so a changed byte of any of them is refused unless the digests collide. */
  lemma DecodeAuthenticates(k: Keys, input: seq<byte>)
    requires |input| >= 30 && |input| >= 30 + WordAt(input)
    ensures Decode(k, input).Some? <==>
              input[14..30] == k.hmac(input[..14] + input[30..30 + WordAt(input)])[..16]
  {
  }

  /** And what it yields is the cipher text under the key stream of the frame's own nonce. */
  lemma DecodeDeciphers(k: Keys, input: seq<byte>, i: nat, b: Block)
    requires |input| >= 30 && |input| >= 30 + WordAt(input) && Decode(k, input).Some?
    requires i < WordAt(input) && b[..12] == input[2..14] && BigEndian(b[12..]) == i / 16
    ensures Decode(k, input).value[i] == Xor(input[30 + i], k.aes(b)[i % 16])
  {
    CryptBytewise(k.aes, input[2..14], input[30..30 + WordAt(input)], i, b);
  }

  /** So a frame that keeps the mac of another but changes length, nonce or cipher text is
      refused unless the digests collide. */
  lemma TamperingIsRefused(k: Keys, nonce: Nonce, plain: seq<byte>, forged: seq<byte>)
    requires |forged| >= 30 && |forged| == 30 + WordAt(forged)
    requires forged[14..30] == Encode(k, nonce, plain)[14..30]
    ensures var frame := Encode(k, nonce, plain);
      Decode(k, forged).Some? <==>
        k.hmac(forged[..14] + forged[30..])[..16] == k.hmac(frame[..14] + frame[30..])[..16]
  {
    EncodeAuthenticates(k, nonce, plain);
    DecodeAuthenticates(k, forged);
    assert forged[30..30 + WordAt(forged)] == forged[30..];
  }
}

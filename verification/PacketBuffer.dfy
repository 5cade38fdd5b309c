/**
  The packet buffer and its cursors (myIOCP/CPacket.h, myIOCP/CPacket.cpp): 30 bytes
  of header room, then the payload. Reference counts are in PacketPool.
*/
module PacketBuffer {
  import opened Bytes
  import opened Ctr
  import opened Codec

  class Packet {
    const buffer: array<byte>
    var readPos: nat
    var writePos: nat

    ghost predicate Valid()
      reads this
    {
      buffer.Length == PACKET_BUFFER_SIZE && HEADER_SIZE <= readPos <= writePos <= PACKET_BUFFER_SIZE
    }

    ghost function Payload(): seq<byte>
      requires Valid()
      reads this, buffer
    {
      buffer[HEADER_SIZE..writePos]
    }

    /** The part of the payload `>>` has not consumed. */
    ghost function Unread(): seq<byte>
      requires Valid()
      reads this, buffer
    {
      buffer[readPos..writePos]
    }

    constructor ()
      ensures Valid() && fresh(buffer) && Payload() == [] && Unread() == []
    {
      buffer := new byte[PACKET_BUFFER_SIZE](_ => 0);
      readPos, writePos := HEADER_SIZE, HEADER_SIZE;
    }

    method Clear()
      requires Valid()
      modifies this
      ensures Valid() && Payload() == [] && Unread() == []
    {
      readPos, writePos := HEADER_SIZE, HEADER_SIZE;
    }

    /** Appends all of `src`, or silently nothing when it does not fit. */
    method WritePacket(src: seq<byte>)
      requires Valid()
      modifies this, buffer
      ensures Valid()
      ensures var fits := HEADER_SIZE + |old(Payload())| + |src| <= PACKET_BUFFER_SIZE;
        && Payload() == old(Payload()) + (if fits then src else [])
        && Unread() == old(Unread()) + (if fits then src else [])
    {
      if writePos + |src| <= PACKET_BUFFER_SIZE {
        forall i | 0 <= i < |src| { buffer[writePos + i] := src[i]; }
        writePos := writePos + |src|;
      }
    }

    /** Consumes `len` unread bytes, or nothing when fewer are left. */
    method ReadPacket(len: nat) returns (data: seq<byte>)
      requires Valid()
      modifies this`readPos
      ensures Valid() && Payload() == old(Payload())
      ensures if len <= |old(Unread())|
              then data == old(Unread())[..len] && Unread() == old(Unread())[len..]
              else data == [] && Unread() == old(Unread())
    {
      if readPos + len <= writePos {
        data := buffer[readPos..readPos + len];
        readPos := readPos + len;
      } else {
        data := [];
      }
    }

    /** `packet << (WORD)value`. */
    method PutWord(value: nat)
      requires Valid() && value < 0x10000
      modifies this, buffer
      ensures Valid()
      ensures |old(Payload())| + 2 <= MAX_PAYLOAD ==>
                Payload() == old(Payload()) + WordBytes(value) && Unread() == old(Unread()) + WordBytes(value)
      ensures |old(Payload())| + 2 > MAX_PAYLOAD ==> Payload() == old(Payload()) && Unread() == old(Unread())
    {
      WritePacket(WordBytes(value));
    }

    /** `packet >> value`: an exhausted packet leaves the variable as it was. */
    method GetWord(before: nat) returns (value: nat)
      requires Valid()
      modifies this`readPos
      ensures Valid() && Payload() == old(Payload())
      ensures if |old(Unread())| >= 2
              then value == WordAt(old(Unread())) && Unread() == old(Unread())[2..]
              else value == before && Unread() == old(Unread())
    {
      var data := ReadPacket(2);
      value := if |data| == 2 then WordAt(data) else before;
    }

    /** Takes over a decoded payload. */
    method AttachRaw(plain: seq<byte>)
      requires Valid()
      modifies this, buffer
      ensures Valid()
      ensures |plain| <= MAX_PAYLOAD ==> Payload() == plain && Unread() == plain
      ensures |plain| > MAX_PAYLOAD ==> Payload() == old(Payload()) && Unread() == old(Unread())
    {
      if |plain| > MAX_PAYLOAD { return; }
      forall i | 0 <= i < |plain| { buffer[HEADER_SIZE + i] := plain[i]; }
      readPos, writePos := HEADER_SIZE, HEADER_SIZE + |plain|;
    }

    /** memcpy into the buffer. */
    method Fill(at: nat, data: seq<byte>)
      requires Valid() && at + |data| <= PACKET_BUFFER_SIZE
      modifies buffer
      ensures buffer[at..at + |data|] == data
      ensures forall lo, hi | 0 <= lo <= hi <= PACKET_BUFFER_SIZE && (hi <= at || at + |data| <= lo) ::
                buffer[lo..hi] == old(buffer[lo..hi])
    {
      forall i | 0 <= i < |data| { buffer[at + i] := data[i]; }
    }

    /** Encodes in place: the whole packet becomes the frame of its former payload. */
    method SetHeader(k: Keys, nonce: Nonce)
      requires Valid()
      modifies buffer
      ensures Valid() && buffer[..writePos] == Encode(k, nonce, old(Payload()))
    {
      var plain := buffer[HEADER_SIZE..writePos];
      var len, cipher := WordBytes(|plain|), Crypt(k.aes, nonce, plain);
      Fill(NONCE_OFFSET, nonce);
      Fill(HEADER_SIZE, cipher);
      Fill(0, len);
      assert buffer[NONCE_OFFSET..MAC_OFFSET] == nonce && buffer[HEADER_SIZE..writePos] == cipher;
      assert buffer[0..MAC_OFFSET] == buffer[0..NONCE_OFFSET] + buffer[NONCE_OFFSET..MAC_OFFSET];
      var mac := Mac(k, buffer[0..MAC_OFFSET], buffer[HEADER_SIZE..writePos]);
      Fill(MAC_OFFSET, mac);
      assert buffer[0..MAC_OFFSET] == len + nonce;
      Join3(buffer[..], MAC_OFFSET, HEADER_SIZE, writePos);
    }
  }

  lemma Join3(s: seq<byte>, i: nat, j: nat, k: nat)
    requires i <= j <= k <= |s|
    ensures s[..k] == s[0..i] + s[i..j] + s[j..k]
  {
  }
}

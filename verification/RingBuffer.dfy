/** The receive ring (myIOCP/CRingBuffer.cpp): a circular array as a byte queue. */
module RingBuffer {
  import opened Bytes

  const RINGBUFFER_SIZE: nat := 4096

  lemma Glue(s: seq<byte>, i: nat, j: nat)
    requires i <= j <= |s|
    ensures s[..j] == s[..i] + s[i..j]
  {
  }

  class RingBuffer {
    var rear: nat
    var front: nat
    const buffer: array<byte>

    ghost predicate Valid()
      reads this
    {
      buffer.Length == RINGBUFFER_SIZE && rear < RINGBUFFER_SIZE && front < RINGBUFFER_SIZE
    }

    /** The queued bytes, oldest first. */
    ghost function Contents(): seq<byte>
      requires Valid()
      reads this, buffer
    {
      if front <= rear then buffer[front..rear] else buffer[front..] + buffer[..rear]
    }

    constructor ()
      ensures Valid() && Contents() == [] && fresh(buffer)
    {
      rear, front := 0, 0;
      buffer := new byte[RINGBUFFER_SIZE](_ => 0);
    }

    function UseSize(): (n: nat)
      requires Valid()
      reads this, buffer
      ensures n == |Contents()| < RINGBUFFER_SIZE
    {
      if front <= rear then rear - front else RINGBUFFER_SIZE - front + rear
    }

    function FreeSize(): (n: nat)
      requires Valid()
      reads this, buffer
      ensures n + |Contents()| == RINGBUFFER_SIZE - 1
    {
      RINGBUFFER_SIZE - 1 - UseSize()
    }

    /** Room for a write that does not wrap: all that is free, or up to the end of the array;
        none exactly when nothing is free. */
    function DirectEnqueueSize(): (n: nat)
      requires Valid()
      reads this, buffer
      ensures n <= FreeSize() && rear + n <= RINGBUFFER_SIZE
      ensures n == FreeSize() || rear + n == RINGBUFFER_SIZE
      ensures n == 0 <==> FreeSize() == 0
    {
      if front <= rear then
        if front == 0 then RINGBUFFER_SIZE - 1 - rear else RINGBUFFER_SIZE - rear
      else front - rear - 1
    }

    /** Bytes that can be read without wrapping. */
    function DirectDequeueSize(): (n: nat)
      requires Valid()
      reads this, buffer
      ensures n <= UseSize() && front + n <= RINGBUFFER_SIZE
      ensures buffer[front..front + n] == Contents()[..n]
      ensures Contents()[n..] == buffer[..UseSize() - n]
    {
      if front <= rear then rear - front else RINGBUFFER_SIZE - front
    }

    /** What the network does with a posted receive: it fills the array behind the
        queue, where no reader looks. */
    method KernelWrite(data: seq<byte>)
      requires Valid() && |data| <= DirectEnqueueSize()
      modifies buffer
      ensures Contents() == old(Contents())
      ensures buffer[rear..rear + |data|] == data
    {
      ghost var was := Contents();
      forall i | 0 <= i < |data| {
        buffer[rear + i] := data[i];
      }
      if front <= rear {
        assert buffer[front..rear] == was;
      } else {
        assert buffer[front..] == was[..RINGBUFFER_SIZE - front] && buffer[..rear] == was[RINGBUFFER_SIZE - front..];
      }
    }

    /** Appends what the network has written. */
    method MoveWritePos(size: nat)
      requires Valid() && size <= DirectEnqueueSize()
      modifies this
      ensures Valid()
      ensures Contents() == old(Contents()) + old(buffer[rear..rear + size])
    {
      ghost var was, at := Contents(), rear;
      rear := (rear + size) % RINGBUFFER_SIZE;
      assert Contents() == was + buffer[at..at + size] by {
        if front <= at && at + size == RINGBUFFER_SIZE {
          assert rear == 0 && buffer[..rear] == [];
        } else {
          assert rear == at + size;
        }
      }
    }

    method MoveReadPos(size: nat)
      requires Valid() && size <= UseSize()
      modifies this
      ensures Valid() && Contents() == old(Contents())[size..]
    {
      ghost var was, from := Contents(), front;
      front := (front + size) % RINGBUFFER_SIZE;
      assert Contents() == was[size..] by {
        if from <= rear {
          assert front == from + size;
        } else if from + size < RINGBUFFER_SIZE {
          assert front == from + size;
          assert buffer[front..] == buffer[from..][size..];
        } else {
          assert front == from + size - RINGBUFFER_SIZE;
          assert was[size..] == buffer[..rear][front..];
        }
      }
    }

    method Clear()
      requires Valid()
      modifies this
      ensures Valid() && Contents() == []
    {
      rear, front := 0, 0;
    }

    /** Copies the oldest `size` bytes into `dest` and returns `size`, or returns 0 and
        copies nothing when fewer are queued. */
    method Peek(dest: array<byte>, size: nat) returns (n: nat)
      requires Valid() && size <= dest.Length && dest != buffer
      modifies dest
      ensures n == if |Contents()| < size then 0 else size
      ensures n == size ==> dest[..size] == Contents()[..size] && dest[size..] == old(dest[size..])
      ensures |Contents()| < size ==> dest[..] == old(dest[..])
      ensures Contents() == old(Contents())
    {
      if UseSize() < size { return 0; }
      CopyFront(dest, size);
      return size;
    }

    /** In one piece or in two. */
    method CopyFront(dest: array<byte>, size: nat)
      requires Valid() && size <= UseSize() && size <= dest.Length && dest != buffer
      modifies dest
      ensures dest[..size] == Contents()[..size] && dest[size..] == old(dest[size..])
    {
      var direct := DirectDequeueSize();
      FrontOf(size);
      if direct >= size {
        Copy(dest, 0, front, size);
      } else {
        CopyBoth(dest, front, direct, size);
      }
    }

    /** The end of the array, then its beginning. */
    method CopyBoth(dest: array<byte>, from: nat, direct: nat, size: nat)
      requires buffer.Length == RINGBUFFER_SIZE && from + direct <= RINGBUFFER_SIZE && dest != buffer
      requires direct <= size <= dest.Length && size - direct <= RINGBUFFER_SIZE
      modifies dest
      ensures dest[..size] == buffer[from..from + direct] + buffer[..size - direct]
      ensures dest[size..] == old(dest[size..])
    {
      Copy(dest, 0, from, direct);
      Copy(dest, direct, 0, size - direct);
      Glue(dest[..], direct, size);
    }

    /** memcpy out of the array. */
    method Copy(dest: array<byte>, at: nat, from: nat, n: nat)
      requires buffer.Length == RINGBUFFER_SIZE && from + n <= RINGBUFFER_SIZE
      requires at + n <= dest.Length && dest != buffer
      modifies dest
      ensures dest[at..at + n] == buffer[from..from + n] && dest[..at] == old(dest[..at])
      ensures dest[at + n..] == old(dest[at + n..])
      ensures at == 0 ==> dest[..n] == buffer[from..from + n]
      ensures from == 0 ==> dest[at..at + n] == buffer[..n]
    {
      forall i | 0 <= i < n { dest[at + i] := buffer[from + i]; }
    }

    /** Where the oldest `size` bytes lie. */
    lemma FrontOf(size: nat)
      requires Valid() && size <= UseSize()
      ensures var direct := DirectDequeueSize();
        Contents()[..size] == if size <= direct then buffer[front..front + size]
                              else buffer[front..front + direct] + buffer[..size - direct]
    {
      var direct, all := DirectDequeueSize(), Contents();
      if size <= direct {
        assert all[..size] == all[..direct][..size];
      } else {
        assert all[..size] == all[..direct] + all[direct..][..size - direct];
      }
    }

    /** Peek, then drop what was copied. */
    method Read(dest: array<byte>, size: nat) returns (n: nat)
      requires Valid() && size <= dest.Length && dest != buffer
      modifies this, dest
      ensures Valid()
      ensures n == if |old(Contents())| < size then 0 else size
      ensures n == size ==> dest[..size] == old(Contents())[..size] && dest[size..] == old(dest[size..])
      ensures n == 0 ==> size == 0 || dest[..] == old(dest[..])
      ensures Contents() == old(Contents())[n..]
    {
      n := Peek(dest, size);
      if n > 0 {
        MoveReadPos(size);
      }
    }
  }
}

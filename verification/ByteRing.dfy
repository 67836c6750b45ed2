/** The byte ring of the copying (PIO) build: payloads are copied into the aperture at `phys_start`
    and released by moving `phys_end`. */
module ByteRing {
  import opened Constants
  import opened ModArith

  const A: Positive := APERTURE_SIZE_QUEUE

  type Position = p: nat | p < A

  /** A chunk never exceeds the aperture. */
  type Payload = d: seq<Byte> | |d| <= A

  /** A position at most one lap ahead, brought back into the aperture. */
  function Wrap(position: nat): Position
    requires position < 2 * A
  {
    if position >= A then position - A else position
  }

  lemma WrapIsMod(position: nat)
    requires position < 2 * A
    ensures Wrap(position) == position % A
  {
    if position < A { DivModUnique(position, A, 0, position); } else { DivModUnique(position, A, 1, position - A); }
  }

  /** The free space the sender computes from the two cursors. */
  function SpaceLeft(physStart: Position, physEnd: nat): nat {
    if physEnd > physStart then physEnd - physStart else (A - physStart) + physEnd
  }

  /** The aperture after `data` was copied in at `offset`, going round the end. */
  ghost predicate CopiedIn(before: seq<Byte>, after: seq<Byte>, offset: nat, data: seq<Byte>) {
    && |before| == |after| == A && offset < A && |data| <= A
    && (forall i :: 0 <= i < |data| ==> after[Wrap(offset + i)] == data[i])
    && (forall p :: 0 <= p < A && !Covered(offset, |data|, p) ==> after[p] == before[p])
  }

  /** Position p is among the `size` positions from `offset` on. */
  predicate Covered(offset: nat, size: nat, p: nat) {
    offset <= p < offset + size || offset <= p + A < offset + size
  }

  class Queue {
    var physStart: Position
    var physEnd: nat
    const aperture: array<Byte>

    ghost predicate Valid() {
      aperture.Length == A
    }

    constructor ()
      ensures Valid() && fresh(aperture) && physStart == physEnd == 0
    {
      physStart, physEnd := 0, 0;
      aperture := new Byte[A](_ => 0);
    }

    /** `copy_from_user` into the aperture. */
    method CopyFromUser(at: nat, data: seq<Byte>)
      requires at + |data| <= aperture.Length
      modifies aperture
      ensures forall p :: 0 <= p < aperture.Length ==>
                aperture[p] == if at <= p < at + |data| then data[p - at] else old(aperture[p])
    {
      forall p | at <= p < at + |data| {
        aperture[p] := data[p - at];
      }
    }

    /** The copying branch of `rdma_xmit`, once enough space is seen. A chunk never exceeds the
        aperture. */
    method SplitCopy(data: Payload) returns (offset: Position)
      requires Valid()
      modifies this`physStart, aperture
      ensures Valid() && offset == old(physStart) && physStart == Wrap(offset + |data|)
      ensures CopiedIn(old(aperture[..]), aperture[..], offset, data)
    {
      offset := physStart;
      var size := |data|;
      if offset + size >= A {
        physStart := offset + size - A;
        var tail := A - offset;
        CopyFromUser(offset, data[..tail]);
        CopyFromUser(0, data[tail..]);
      } else {
        physStart := offset + size;
        CopyFromUser(offset, data);
      }
    }
  }

  /** What a receive does to `phys_end` of the queue its node sends on. */
  function LapOff(physEnd: nat): nat {
    if physEnd >= A then physEnd - A else physEnd
  }

  // ---------------------------------------------------------------- the consumer, in place

  /** The two queues of one node: the one it sends on and the one it receives on. */
  class Connection {
    const sendQueue: Queue
    const recvQueue: Queue

    constructor (sendQueue: Queue, recvQueue: Queue)
      ensures this.sendQueue == sendQueue && this.recvQueue == recvQueue
    {
      this.sendQueue, this.recvQueue := sendQueue, recvQueue;
    }

    /** The copying branch of `local_tcp_recvmsg`: on the queue it receives from it is a `Release`, on the
        queue it sends on a `PeerWrap`. It reads without going round the end of the aperture; a read past
        the end leaves this model, shown as no result. */
    method ReceiveCopy(offset: nat, len: nat) returns (data: seq<Byte>, inside: bool)
      requires sendQueue != recvQueue && recvQueue.Valid()
      modifies sendQueue`physEnd, recvQueue`physEnd
      ensures inside <==> offset + len <= A
      ensures inside ==> |data| == len && forall i :: 0 <= i < len ==> data[i] == recvQueue.aperture[Wrap(offset + i)]
      ensures recvQueue.physEnd == old(recvQueue.physEnd) + len
      ensures old(recvQueue.physEnd) < A && len <= A ==>
                (recvQueue.physEnd == Wrap(old(recvQueue.physEnd) + len) <==> old(recvQueue.physEnd) + len < A)
      ensures sendQueue.physEnd == LapOff(old(sendQueue.physEnd))
    {
      inside := offset + len <= A;
      data := if inside then recvQueue.aperture[offset..offset + len] else [];
      recvQueue.physEnd := recvQueue.physEnd + len;
      if sendQueue.physEnd >= A {
        sendQueue.physEnd := sendQueue.physEnd - A;
      }
    }
  }
}

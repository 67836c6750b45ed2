/** The metadata ring shared by the sending and the receiving node.

    Cursors range over [0, N-1] where N is LTCP_MSG_QUEUE_SIZE.  Cursor N-1 is an alias of cursor 0,
    so slot N-1 is never used and the ring proper has N-1 slots. */
module MetaRing {
  import opened Constants
  import opened CallLog
  import opened ModArith

  /** The shared words of a `ltcp_ring_queue` that drive the metadata queue. */
  datatype Ring<T> = Ring(start: nat, end: nat, slots: seq<T>)

  ghost predicate WellFormed<T>(r: Ring<T>) {
    && |r.slots| == LTCP_MSG_QUEUE_SIZE
    && r.start <= USED_SLOTS
    && r.end <= USED_SLOTS
  }

  /** The messages the receiver would still find, oldest first. */
  ghost function Contents<T>(r: Ring<T>): seq<T>
    requires WellFormed(r)
  {
    if r.start <= r.end then r.slots[r.start..r.end]
    else r.slots[r.start..USED_SLOTS] + r.slots[..r.end]
  }

  /** The full test the code makes. */
  predicate SeenFull<T>(r: Ring<T>) { r.end + 1 == r.start }

  /** Fullness of a ring of N-1 slots that keeps one of them free. */
  predicate TrulyFull<T>(r: Ring<T>) { (r.end + 1) % USED_SLOTS == r.start % USED_SLOTS }

  /** The cursors at which one more send loses messages. */
  predicate CannotTake<T>(r: Ring<T>) {
    SeenFull(r) || (r.end == USED_SLOTS && r.start <= 1)
  }

  /** The ring after one whole send: slot search, fill, and the unconditional advance of `end`. */
  function AfterXmit<T>(r: Ring<T>, m: T): Ring<T>
    requires |r.slots| == LTCP_MSG_QUEUE_SIZE && r.end <= USED_SLOTS
  {
    var free := Unaliased(r.end);
    if SeenFull(r) then r.(end := Advanced(r.end))
    else r.(end := Advanced(free), slots := r.slots[free := m])
  }

  /** The slot a cursor stands for: the last cursor is an alias of 0. */
  function Unaliased(cursor: nat): nat { if cursor == USED_SLOTS then 0 else cursor }

  function Advanced(end: nat): nat { Unaliased(end) + 1 }

  /** A send appends its message exactly when the ring could take it. */
  lemma XmitAppendsIffRoom<T>(r: Ring<T>, m: T)
    requires WellFormed(r)
    ensures WellFormed(AfterXmit(r, m))
    ensures Contents(AfterXmit(r, m)) == Contents(r) + [m] <==> !CannotTake(r)
  {
    var r' := AfterXmit(r, m);
    if CannotTake(r) {
      assert |Contents(r')| <= 1 < |Contents(r)| + 1;
    } else {
      assert Contents(r') == Contents(r) + [m];
    }
  }

  /** What a send on a full ring costs: the whole queue, and the new message too unless the
      ring held a message in every slot. */
  lemma FullXmitEmptiesRing<T>(r: Ring<T>, m: T)
    requires WellFormed(r) && CannotTake(r)
    ensures |Contents(r)| >= USED_SLOTS - 1
    ensures Contents(AfterXmit(r, m)) == if |Contents(r)| == USED_SLOTS then [m] else []
  {
    assert |Contents(r)| == USED_SLOTS <==> r.end == USED_SLOTS && r.start == 0;
  }

  /** The code's full test is sound and misses fullness at exactly two cursor pairs. */
  lemma FullTestExactness<T>(r: Ring<T>)
    requires WellFormed(r)
    ensures SeenFull(r) ==> TrulyFull(r)
    ensures TrulyFull(r) && !SeenFull(r) <==>
            (r.end, r.start) in {(USED_SLOTS - 1, 0), (USED_SLOTS, 1)}
  {
    CursorMod(r.start);
    CursorMod(r.end);
    ModStep(r.end, USED_SLOTS);
  }

  /** The slot that holds message k. */
  function Slot(k: nat): (slot: nat)
    ensures slot < USED_SLOTS
  {
    k % USED_SLOTS
  }

  lemma CursorMod(c: nat)
    requires c <= USED_SLOTS
    ensures Slot(c) == Unaliased(c)
  {
    if c < USED_SLOTS { ModSmall(c, USED_SLOTS); } else { ModSelf(USED_SLOTS); }
  }

  /** Fullness missed at (N-2, 0) costs nothing: the message is queued and the ring then holds one
      message per slot.  Missed at (N-1, 1), the send leaves a ring that reads as empty. */
  lemma MissedFullness<T>(slots: seq<T>, m: T)
    requires |slots| == LTCP_MSG_QUEUE_SIZE
    ensures Contents(AfterXmit(Ring(0, USED_SLOTS - 1, slots), m)) == slots[..USED_SLOTS - 1] + [m]
    ensures |Contents(Ring(1, USED_SLOTS, slots))| == USED_SLOTS - 1
    ensures Contents(AfterXmit(Ring(1, USED_SLOTS, slots), m)) == []
  {
    XmitAppendsIffRoom(Ring(0, USED_SLOTS - 1, slots), m);
  }

  /** Moving `start` from its alias to slot 0 changes nothing the receiver will read. */
  lemma ReadFromWrapped<T>(r: Ring<T>)
    requires WellFormed(r) && r.start == USED_SLOTS && r.start != r.end
    ensures Contents(r.(start := 0)) == Contents(r) == r.slots[..r.end]
  {
  }

  /** Meeting cursors leave nothing to read, and so do cursors that meet once `start` has wrapped. */
  lemma NothingToRead<T>(r: Ring<T>)
    requires WellFormed(r) && r.start == r.end
    ensures Contents(r) == []
  {
  }

  lemma NothingBehindAlias<T>(r: Ring<T>)
    requires WellFormed(r) && r.start == USED_SLOTS && r.end == 0
    ensures Contents(r) == []
  {
  }

  /** Reading one slot takes the oldest message. */
  lemma ReadOne<T>(r: Ring<T>)
    requires WellFormed(r) && r.start < USED_SLOTS && r.start != r.end
    ensures Contents(r) != [] && Contents(r)[0] == r.slots[r.start]
    ensures Contents(r.(start := r.start + 1)) == Contents(r)[1..]
  {
  }

  class RingQueue<T> {
    var start: nat
    var end: nat
    const slots: array<T>

    ghost predicate Valid()
      reads this, slots
    {
      WellFormed(View())
    }

    ghost function View(): Ring<T>
      reads this, slots
    {
      Ring(start, end, slots[..])
    }

    constructor (empty: T)
      ensures Valid() && fresh(slots) && Contents(View()) == []
    {
      start, end := 0, 0;
      slots := new T[LTCP_MSG_QUEUE_SIZE](_ => empty);
    }

    /** The index of the slot to fill, or -1 when the ring is seen full.
        The wrapped `end` is published before the slot is filled. */
    method GetFreeMetamessage() returns (free: int)
      requires Valid()
      modifies this`end
      ensures Valid()
      ensures free == -1 <==> old(SeenFull(View()))
      ensures free == -1 ==> end == old(end)
      ensures free != -1 ==> free == end == Unaliased(old(end))
    {
      if end + 1 == start {
        return -1;
      }
      if end + 1 == LTCP_MSG_QUEUE_SIZE {
        end := 0;
      }
      return end;
    }

    /** The locked tail of `rdma_xmit`: `end` advances whether or not a slot was found. */
    method XmitMeta(m: T)
      requires Valid()
      modifies this`end, slots
      ensures Valid()
      ensures View() == AfterXmit(old(View()), m)
      ensures Contents(View()) == old(Contents(View())) + [m] <==> !old(CannotTake(View()))
    {
      hide Contents;
      ghost var was := View();
      XmitAppendsIffRoom(was, m);
      var free := GetFreeMetamessage();
      if free != -1 {
        slots[free] := m;
        assert slots[..] == was.slots[free := m];
      }
      end := Advanced(end);
      assert View() == AfterXmit(was, m);
    }

    /** The interrupt handler: hand queued messages to `local_tcp_rcv` until the ring is empty or
        one of them is rejected. */
    method RdmaRecv(localTcpRcv: Callee<T>) returns (err: bool)
      requires Valid()
      modifies this`start, localTcpRcv
      ensures Valid() && end == old(end)
      ensures localTcpRcv.calls + Contents(View()) == old(localTcpRcv.calls + Contents(View()))
      ensures PassedUntilFailure(localTcpRcv.fails, old(localTcpRcv.calls), old(Contents(View())),
                                 |localTcpRcv.calls| - |old(localTcpRcv.calls)|, err)
    {
      hide Contents, AllAccepted;
      ghost var before, queue, cells := localTcpRcv.calls, Contents(View()), slots[..];
      ghost var took: nat := 0;
      AcceptedNone(localTcpRcv.fails, before);
      assert queue[..0] == [];
      while start != end
        invariant slots[..] == cells && WellFormed(Ring(start, end, cells))
        invariant took <= |queue|
        invariant localTcpRcv.calls == before + queue[..took]
        invariant Contents(Ring(start, end, cells)) == queue[took..]
        invariant AllAccepted(localTcpRcv.fails, before, queue[..took])
        decreases |queue| - took
      {
        if start + 1 == LTCP_MSG_QUEUE_SIZE {
          ReadFromWrapped(Ring(start, end, cells));
          start := 0;
          if end == start {
            break;
          }
        }
        ReadOne(Ring(start, end, cells));
        PassOne(localTcpRcv.fails, before, queue, took);
        var m := slots[start];
        start := start + 1;
        var rejected := localTcpRcv.Call(m);
        took := took + 1;
        if rejected {
          return true;
        }
      }
      NothingToRead(Ring(start, end, cells));
      assert took == |queue| && queue[..took] == queue;
      return false;
    }
  }
}

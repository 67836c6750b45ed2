/** Every interleaving of one sending and one receiving node on the metadata ring.

    The send spinlock leaves one producer at a time and the receive spinlock one consumer, but
    nothing orders a producer step against a consumer step.  Each step below touches the shared
    ring once. */
module MetaRingRuns {
  import opened Constants
  import opened MetaRing
  import opened ModArith

  /** Where the sender stands between taking and releasing its lock. */
  datatype Sender<T> =
    | SendIdle
    | Searching(m: T)   // passed the full test, `end` not wrapped yet
    | Filling(m: T)     // holds a pointer to slot `end`, which may be half written
    | Filled(m: T)
    | Overrunning       // saw a full ring; about to advance `end` regardless

  /** Where the receiver stands in its drain loop. */
  datatype Receive =
    | RecvIdle
    | AtGuard
    | Wrapping
    | Rechecking
    | Reading
    | Handling(slot: nat)   // `start` is already past the slot whose message is being handled

  datatype State<T> = State(
    ring: Ring<T>, sender: Sender<T>, receive: Receive, sent: seq<T>, delivered: seq<T>)

  datatype Step<T> =
    | BeginSend(m: T) | WrapEnd | Scribble(half: T) | Fill | Publish | Overrun
    | Interrupt | Guard | WrapStart | Recheck | TakeSlot | Handle | Leave

  ghost predicate Init<T>(s: State<T>) {
    && |s.ring.slots| == LTCP_MSG_QUEUE_SIZE
    && s.ring.start == s.ring.end == 0
    && s.sender.SendIdle? && s.receive.RecvIdle?
    && s.sent == s.delivered == []
  }

  predicate Enabled<T>(s: State<T>, step: Step<T>) {
    match step
    case BeginSend(_) => s.sender.SendIdle?
    case WrapEnd => s.sender.Searching?
    case Scribble(_) => s.sender.Filling? && s.ring.end < |s.ring.slots|
    case Fill => s.sender.Filling? && s.ring.end < |s.ring.slots|
    case Publish => s.sender.Filled?
    case Overrun => s.sender.Overrunning?
    case Interrupt => s.receive.RecvIdle?
    case Guard => s.receive.AtGuard?
    case WrapStart => s.receive.Wrapping?
    case Recheck => s.receive.Rechecking?
    case TakeSlot => s.receive.Reading?
    case Handle => s.receive.Handling? && s.receive.slot < |s.ring.slots|
    case Leave => s.receive.AtGuard?   // the handler just rejected a message
  }

  function Next<T>(s: State<T>, step: Step<T>): State<T>
    requires Enabled(s, step)
  {
    var r := s.ring;
    match step
    case BeginSend(m) => s.(sender := if SeenFull(r) then Overrunning else Searching(m))
    case WrapEnd =>
      s.(sender := Filling(s.sender.m), ring := r.(end := Unaliased(r.end)))
    case Scribble(half) => s.(ring := r.(slots := r.slots[r.end := half]))
    case Fill => s.(sender := Filled(s.sender.m), ring := r.(slots := r.slots[r.end := s.sender.m]))
    case Publish => s.(sender := SendIdle, ring := r.(end := Advanced(r.end)), sent := s.sent + [s.sender.m])
    case Overrun => s.(sender := SendIdle, ring := r.(end := Advanced(r.end)))
    case Interrupt => s.(receive := AtGuard)
    case Guard => s.(receive := if r.start == r.end then RecvIdle else Wrapping)
    case WrapStart =>
      if r.start == USED_SLOTS then s.(receive := Rechecking, ring := r.(start := 0))
      else s.(receive := Reading)
    case Recheck => s.(receive := if r.end == r.start then RecvIdle else Reading)
    case TakeSlot => s.(receive := Handling(r.start), ring := r.(start := r.start + 1))
    case Handle => s.(receive := AtGuard, delivered := s.delivered + [r.slots[s.receive.slot]])
    case Leave => s.(receive := RecvIdle)
  }

  /** A send may start only while the ring can take a message. */
  ghost predicate Admissible<T>(s: State<T>, step: Step<T>) {
    Enabled(s, step) && (step.BeginSend? ==> !CannotTake(s.ring))
  }

  /** A run that never starts a send on a full ring. */
  ghost predicate IsRun<T>(states: seq<State<T>>, steps: seq<Step<T>>) {
    && |states| == |steps| + 1
    && Init(states[0])
    && forall i :: 0 <= i < |steps| ==> Admissible(states[i], steps[i]) && states[i + 1] == Next(states[i], steps[i])
  }

  // ---------------------------------------------------------------- what every run keeps

  /** Slots taken by the receiver: delivered, plus one while its message is being handled. */
  ghost function Taken<T>(s: State<T>): nat {
    |s.delivered| + if s.receive.Handling? then 1 else 0
  }

  ghost predicate Mid<T>(s: State<T>) { s.sender.Filling? || s.sender.Filled? }

  ghost predicate Sending<T>(s: State<T>) { Mid(s) || s.sender.Searching? }

  /** Each of the last N-1 messages sent sits in its own slot; the oldest gives way while its slot
      is being refilled. */
  ghost predicate InSlots<T>(slots: seq<T>, sent: seq<T>, refilling: bool) {
    && |slots| == LTCP_MSG_QUEUE_SIZE
    && forall k :: 0 <= k < |sent| && |sent| <= k + USED_SLOTS && !(refilling && |sent| == k + USED_SLOTS)
         ==> slots[Slot(k)] == sent[k]
  }

  ghost predicate CursorFacts<T>(s: State<T>) {
    var start, end, c, t := s.ring.start, s.ring.end, |s.sent|, Taken(s);
    && start <= USED_SLOTS && end <= USED_SLOTS
    && t <= c <= t + USED_SLOTS
    && Slot(start) == Slot(t)
    && Slot(end) == Slot(c)
    && (t == 0 ==> start == 0)
    && (if Mid(s) then end < USED_SLOTS else (end == 0 <==> c == 0))
    && (c == t + USED_SLOTS ==> start == 0 && !Sending(s))
    && (Sending(s) && c == t + USED_SLOTS - 1 ==> start == 0 && Slot(c) != 0)
    && (start == 0 && 0 < t == c ==> Mid(s))
  }

  ghost predicate ReceiverFacts<T>(s: State<T>) {
    var start, c, t := s.ring.start, |s.sent|, Taken(s);
    match s.receive
    case Wrapping => c == t ==> start == USED_SLOTS && Mid(s)
    case Rechecking => start == 0 && (c == t ==> Mid(s))
    case Reading => start < USED_SLOTS && t < c
    case Handling(slot) => slot == Slot(|s.delivered|) && 0 < start
    case _ => true
  }

  ghost predicate Inv<T>(s: State<T>) {
    && InSlots(s.ring.slots, s.sent, Mid(s))
    && (s.sender.Filled? ==> s.ring.slots[Slot(|s.sent|)] == s.sender.m)
    && CursorFacts(s)
    && ReceiverFacts(s)
    && !s.sender.Overrunning?
    && |s.delivered| <= |s.sent| && s.delivered == s.sent[..|s.delivered|]
  }

  lemma InitInv<T>(s: State<T>)
    requires Init(s)
    ensures Inv(s)
  {
  }

  lemma SlotStep(k: nat)
    ensures Slot(k + 1) == if Slot(k) + 1 == USED_SLOTS then 0 else Slot(k) + 1
  {
    ModStep(k, USED_SLOTS);
  }

  /** How far apart two indices at most N-1 apart are, read off their slots. */
  lemma SlotGap(low: nat, high: nat)
    requires low <= high <= low + USED_SLOTS
    ensures Slot(low) < Slot(high) ==> high - low == Slot(high) - Slot(low)
    ensures Slot(high) < Slot(low) ==> high - low == Slot(high) - Slot(low) + USED_SLOTS
    ensures Slot(low) == Slot(high) ==> high == low || high == low + USED_SLOTS
  {
    ModGap(low, high, USED_SLOTS);
  }

  lemma NextInv<T>(s: State<T>, step: Step<T>)
    requires Inv(s) && Admissible(s, step)
    ensures Inv(Next(s, step))
  {
    match step {
      case BeginSend(m) => BeginSendKeepsInvIff(s, m);
      case WrapEnd => KeepWrapEnd(s, step);
      case Scribble(_) => KeepFill(s, step);
      case Fill => KeepFill(s, step);
      case Publish => KeepPublish(s, step);
      case Overrun =>
      case Interrupt =>
      case Guard => KeepGuard(s, step);
      case WrapStart => KeepWrapStart(s, step);
      case Recheck => KeepRecheck(s, step);
      case TakeSlot => KeepTake(s, step);
      case Handle => KeepHandle(s, step);
      case Leave =>
    }
  }

  lemma CursorSlots<T>(s: State<T>)
    requires CursorFacts(s)
    ensures Slot(s.ring.start) == Unaliased(s.ring.start)
    ensures Slot(s.ring.end) == Unaliased(s.ring.end)
    ensures Slot(0) == 0
  {
    CursorMod(s.ring.start);
    CursorMod(s.ring.end);
    CursorMod(0);
  }

  /** A send may start exactly while the ring can take a message; otherwise it will advance `end` without
      a message, or into a slot not read yet. */
  lemma BeginSendKeepsInvIff<T>(s: State<T>, m: T)
    requires Inv(s) && Enabled(s, BeginSend(m))
    ensures Inv(Next(s, BeginSend(m))) <==> !CannotTake(s.ring)
  {
    hide Slot;
    CursorSlots(s);
    SlotGap(Taken(s), |s.sent|);
  }

  /** The harm of a send that starts in the second missed position is undone if the receiver takes a slot
      before the sender goes on. */
  lemma TakeInTime<T>(s: State<T>, m: T)
    requires Inv(s) && Enabled(s, BeginSend(m)) && s.receive.Reading?
    requires s.ring.start == 1 && s.ring.end == USED_SLOTS
    ensures CannotTake(s.ring) && Enabled(Next(s, BeginSend(m)), TakeSlot)
    ensures Inv(Next(Next(s, BeginSend(m)), TakeSlot))
  {
    hide Slot;
    CursorSlots(s);
    SlotGap(Taken(s), |s.sent|);
    SlotStep(Taken(s));
    CursorMod(2);
  }

  lemma KeepWrapEnd<T>(s: State<T>, step: Step<T>)
    requires Inv(s) && Admissible(s, step) && step.WrapEnd?
    ensures Inv(Next(s, step))
  {
    hide Slot;
    CursorSlots(s);
  }

  lemma KeepFill<T>(s: State<T>, step: Step<T>)
    requires Inv(s) && Admissible(s, step) && (step.Scribble? || step.Fill?)
    ensures Inv(Next(s, step))
  {
    hide Slot;
    CursorSlots(s);
    var c := |s.sent|;
    forall k | 0 <= k < c && c < k + USED_SLOTS
      ensures Slot(k) != s.ring.end
    {
      SlotGap(k, c);
    }
  }

  lemma KeepPublish<T>(s: State<T>, step: Step<T>)
    requires Inv(s) && Admissible(s, step) && step.Publish?
    ensures Inv(Next(s, step))
  {
    hide Slot;
    CursorSlots(s);
    SlotStep(|s.sent|);
    CursorMod(s.ring.end + 1);
  }

  lemma KeepGuard<T>(s: State<T>, step: Step<T>)
    requires Inv(s) && Admissible(s, step) && step.Guard?
    ensures Inv(Next(s, step))
  {
    hide Slot;
    CursorSlots(s);
    SlotGap(Taken(s), |s.sent|);
  }

  lemma KeepWrapStart<T>(s: State<T>, step: Step<T>)
    requires Inv(s) && Admissible(s, step) && step.WrapStart?
    ensures Inv(Next(s, step))
  {
    hide Slot;
    CursorSlots(s);
  }

  lemma KeepRecheck<T>(s: State<T>, step: Step<T>)
    requires Inv(s) && Admissible(s, step) && step.Recheck?
    ensures Inv(Next(s, step))
  {
    hide Slot;
    CursorSlots(s);
    SlotGap(Taken(s), |s.sent|);
  }

  lemma KeepTake<T>(s: State<T>, step: Step<T>)
    requires Inv(s) && Admissible(s, step) && step.TakeSlot?
    ensures Inv(Next(s, step))
  {
    hide Slot;
    CursorSlots(s);
    SlotStep(Taken(s));
    CursorMod(s.ring.start + 1);
  }

  lemma KeepHandle<T>(s: State<T>, step: Step<T>)
    requires Inv(s) && Admissible(s, step) && step.Handle?
    ensures Inv(Next(s, step))
  {
    hide Slot;
    var d := |s.delivered|;
    assert s.sent[..d + 1] == s.sent[..d] + [s.sent[d]];
  }

  lemma RunInv<T>(states: seq<State<T>>, steps: seq<Step<T>>, i: nat)
    requires IsRun(states, steps) && i < |states|
    ensures Inv(states[i])
  {
    if i == 0 {
      InitInv(states[0]);
    } else {
      RunInv(states, steps, i - 1);
      NextInv(states[i - 1], steps[i - 1]);
    }
  }

  // ---------------------------------------------------------------- what follows for every run

  /** Everything sent and not delivered yet, as the shared memory shows it. */
  ghost function InRing<T>(s: State<T>): seq<T>
    requires WellFormed(s.ring) && (s.receive.Handling? ==> s.receive.slot < |s.ring.slots|)
  {
    (if s.receive.Handling? then [s.ring.slots[s.receive.slot]] else []) + Contents(s.ring)
  }

  lemma ContentsAreUnread<T>(s: State<T>)
    requires Inv(s)
    ensures Contents(s.ring) == s.sent[Taken(s)..]
  {
    hide Slot;
    CursorSlots(s);
    var t, c := Taken(s), |s.sent|;
    SlotGap(t, c);
    assert |Contents(s.ring)| == c - t;
    forall i | 0 <= i < c - t
      ensures Contents(s.ring)[i] == s.sent[t + i]
    {
      SlotGap(t, t + i);
      SlotGap(t + i, c);
      assert Contents(s.ring)[i] == s.ring.slots[Slot(t + i)];
    }
  }

  lemma NothingLost<T>(s: State<T>)
    requires Inv(s)
    ensures s.delivered + InRing(s) == s.sent
  {
    hide Contents, Slot;
    ContentsAreUnread(s);
    var d := |s.delivered|;
    if s.receive.Handling? {
      assert s.ring.slots[s.receive.slot] == s.sent[d];
      RejoinAt(s.sent, d);
    } else {
      assert InRing(s) == s.sent[d..];
    }
  }

  lemma RejoinAt<T>(s: seq<T>, d: nat)
    requires d < |s|
    ensures s[..d] + ([s[d]] + s[d + 1..]) == s
  {
  }

  /** First in, first out: at every instant of every run the delivered messages, followed by what
      the ring holds, are exactly the messages sent. */
  lemma FifoInEveryRun<T>(states: seq<State<T>>, steps: seq<Step<T>>, i: nat)
    requires IsRun(states, steps) && i < |states|
    ensures Inv(states[i])
    ensures states[i].delivered + InRing(states[i]) == states[i].sent
  {
    RunInv(states, steps, i);
    NothingLost(states[i]);
  }

  /** The receiver stops by the guard or the re-check only when it has delivered everything sent;
      and with everything delivered it stops there, unless it still has to wrap onto the cursor of a
      half-finished send, where the re-check stops it. */
  lemma LoopEndsDrained<T>(states: seq<State<T>>, steps: seq<Step<T>>, i: nat)
    requires IsRun(states, steps) && i < |steps|
    requires steps[i].Guard? || steps[i].Recheck?
    ensures states[i + 1].receive.RecvIdle? ==> states[i].delivered == states[i].sent
    ensures states[i].delivered == states[i].sent && !states[i + 1].receive.RecvIdle?
            ==> steps[i].Guard? && states[i].ring.start == USED_SLOTS && Mid(states[i])
  {
    hide Slot;
    RunInv(states, steps, i);
    CursorSlots(states[i]);
    SlotGap(Taken(states[i]), |states[i].sent|);
  }

  /** Where `end` rests after c messages, between sends. */
  lemma EndAfterSends<T>(states: seq<State<T>>, steps: seq<Step<T>>, i: nat)
    requires IsRun(states, steps) && i < |states| && !Mid(states[i])
    ensures var c := |states[i].sent|;
            states[i].ring.end == if c == 0 then 0 else (c - 1) % USED_SLOTS + 1
  {
    var s := states[i];
    RunInv(states, steps, i);
    CursorSlots(s);
    if s.sent != [] {
      SlotStep(|s.sent| - 1);
    }
  }

  /** A pointer kept to the slot of message k reads message k until message k + N-1 starts to be
      filled in, and from the publication of message k + N-1 on it reads that one. */
  lemma PointerWindow<T>(states: seq<State<T>>, steps: seq<Step<T>>, i: nat, k: nat)
    requires IsRun(states, steps) && i < |states| && k < |states[i].sent|
    ensures var s, c := states[i], |states[i].sent|;
            && |s.ring.slots| == LTCP_MSG_QUEUE_SIZE
            && (c < k + USED_SLOTS || (c == k + USED_SLOTS && !Mid(s))
                ==> s.ring.slots[Slot(k)] == s.sent[k])
            && (k + USED_SLOTS < c < k + 2 * USED_SLOTS
                ==> s.ring.slots[Slot(k)] == s.sent[k + USED_SLOTS])
  {
    hide Slot, IsRun, CursorFacts, ReceiverFacts;
    RunInv(states, steps, i);
    SlotPeriod(k);
  }

  lemma SlotPeriod(k: nat)
    ensures Slot(k + USED_SLOTS) == Slot(k)
  {
    DivModUnique(k + USED_SLOTS, USED_SLOTS, k / USED_SLOTS + 1, k % USED_SLOTS);
  }

  lemma IsRunStep<T>(states: seq<State<T>>, steps: seq<Step<T>>, i: nat)
    requires IsRun(states, steps) && i < |states|
    ensures |states| == |steps| + 1 && Init(states[0])
    ensures i > 0 ==> Admissible(states[i - 1], steps[i - 1]) && states[i] == Next(states[i - 1], steps[i - 1])
  {
  }

  /** The last slot is never written. */
  lemma SpareSlotUntouched<T>(states: seq<State<T>>, steps: seq<Step<T>>, i: nat)
    requires IsRun(states, steps) && i < |states|
    ensures |states[i].ring.slots| == LTCP_MSG_QUEUE_SIZE
    ensures states[i].ring.slots[USED_SLOTS] == states[0].ring.slots[USED_SLOTS]
  {
    hide Slot, IsRun;
    IsRunStep(states, steps, i);
    if i > 0 {
      SpareSlotUntouched(states, steps, i - 1);
      RunInv(states, steps, i - 1);
    }
  }

  /** The sender's steps taken without interruption. */
  function SoloSend<T>(s: State<T>, m: T): State<T>
    requires s.sender.SendIdle? && |s.ring.slots| == LTCP_MSG_QUEUE_SIZE && s.ring.end <= USED_SLOTS
  {
    var tested := Next(s, BeginSend(m));
    if tested.sender.Overrunning? then Next(tested, Overrun)
    else Next(Next(Next(tested, WrapEnd), Fill), Publish)
  }

  /** A send that runs alone has the effect of `rdma_xmit`'s locked tail, and keeps the
      first-in-first-out account exactly when it found room. */
  lemma SoloSendIffRoom<T>(s: State<T>, m: T)
    requires Inv(s) && s.sender.SendIdle? && s.receive.RecvIdle?
    ensures SoloSend(s, m).ring == AfterXmit(s.ring, m)
    ensures var s' := SoloSend(s, m);
            s'.delivered + InRing(s') == s.sent + [m] <==> !CannotTake(s.ring)
  {
    hide Contents, Slot;
    NothingLost(s);
    XmitAppendsIffRoom(s.ring, m);
    var s' := SoloSend(s, m);
    assert s'.ring == AfterXmit(s.ring, m) && s'.delivered == s.delivered && s'.receive == s.receive;
    var kept, grown := Contents(s'.ring), Contents(s.ring) + [m];
    assert InRing(s') == kept && s.sent + [m] == s.delivered + grown;
    assert (s.delivered + kept)[|s.delivered|..] == kept && (s.delivered + grown)[|s.delivered|..] == grown;
  }

  /** The receiver's steps for one message taken without interruption. */
  function SoloReceive<T>(s: State<T>): State<T>
    requires s.receive.AtGuard? && s.ring.start != s.ring.end
    requires s.ring.start <= USED_SLOTS < |s.ring.slots| && !(s.ring.start == USED_SLOTS && s.ring.end == 0)
  {
    var wrapped := Next(Next(s, Guard), WrapStart);
    var reading := if wrapped.receive.Rechecking? then Next(wrapped, Recheck) else wrapped;
    Next(Next(reading, TakeSlot), Handle)
  }

  lemma SoloReceiveSteps<T>(s: State<T>)
    requires s.receive.AtGuard? && s.ring.start != s.ring.end
    requires s.ring.start <= USED_SLOTS < |s.ring.slots| && !(s.ring.start == USED_SLOTS && s.ring.end == 0)
    ensures var slot := Unaliased(s.ring.start);
            SoloReceive(s) == s.(ring := s.ring.(start := slot + 1), delivered := s.delivered + [s.ring.slots[slot]])
  {
  }

  /** A receive that runs alone delivers the oldest message, and is back at its guard, or stops there if the
      message was rejected. */
  lemma SoloReceiveTakesOldest<T>(s: State<T>)
    requires WellFormed(s.ring) && s.receive.AtGuard? && Contents(s.ring) != []
    ensures s.ring.start != s.ring.end && !(s.ring.start == USED_SLOTS && s.ring.end == 0)
    ensures var s' := SoloReceive(s);
            && s'.delivered == s.delivered + [Contents(s.ring)[0]] && s'.receive.AtGuard? && Enabled(s', Leave)
            && WellFormed(s'.ring) && Contents(s'.ring) == Contents(s.ring)[1..]
            && s'.ring.end == s.ring.end && s'.sent == s.sent && s'.sender == s.sender
  {
    hide Contents;
    var r := s.ring;
    if r.start == r.end { NothingToRead(r); }
    if r.start == USED_SLOTS {
      if r.end == 0 { NothingBehindAlias(r); } else { ReadFromWrapped(r); }
    }
    SoloReceiveSteps(s);
    hide SoloReceive;
    ReadOne(r.(start := Unaliased(r.start)));
  }

  /** The receiver's steps when it finds nothing to read. */
  ghost function SoloStop<T>(s: State<T>): State<T>
    requires WellFormed(s.ring) && s.receive.AtGuard? && Contents(s.ring) == []
  {
    var looked := Next(s, Guard);
    if looked.receive.RecvIdle? then looked else Next(Next(looked, WrapStart), Recheck)
  }

  lemma StopsIdle<T>(s: State<T>)
    requires WellFormed(s.ring) && s.receive.AtGuard? && Contents(s.ring) == []
    ensures var s' := SoloStop(s);
            s'.delivered == s.delivered && s'.receive.RecvIdle? && WellFormed(s'.ring) && Contents(s'.ring) == []
  {
  }

  /** The receiver's steps for all messages, until it stops. */
  ghost function SoloDrain<T>(s: State<T>): State<T>
    requires WellFormed(s.ring) && s.receive.AtGuard?
    decreases |Contents(s.ring)|
  {
    if Contents(s.ring) == [] then SoloStop(s) else
      SoloReceiveTakesOldest(s);
      SoloDrain(SoloReceive(s))
  }

  lemma {:induction false} DrainsAll<T>(s: State<T>)
    requires WellFormed(s.ring) && s.receive.AtGuard?
    ensures var s' := SoloDrain(s);
            && s'.delivered == s.delivered + Contents(s.ring) && s'.receive.RecvIdle?
            && WellFormed(s'.ring) && Contents(s'.ring) == []
    decreases |Contents(s.ring)|
  {
    hide Contents, SoloReceive, SoloStop, Next;
    if Contents(s.ring) == [] {
      StopsIdle(s);
    } else {
      SoloReceiveTakesOldest(s);
      DrainsAll(SoloReceive(s));
      var queue := Contents(s.ring);
      assert s.delivered + [queue[0]] + queue[1..] == s.delivered + queue;
    }
  }

  /** An interrupt handled alone delivers everything queued, in order, and the receiver is idle again. */
  lemma InterruptDrains<T>(s: State<T>)
    requires WellFormed(s.ring) && s.receive.RecvIdle?
    ensures Next(s, Interrupt).receive.AtGuard?
    ensures var s' := SoloDrain(Next(s, Interrupt));
            && s'.delivered == s.delivered + Contents(s.ring) && s'.receive.RecvIdle?
            && WellFormed(s'.ring) && Contents(s'.ring) == []
  {
    DrainsAll(Next(s, Interrupt));
  }

  /** A slot being filled may show anything, but it is not among those the receiver reads. */
  lemma ScribbleUnseen<T>(s: State<T>, half: T)
    requires Inv(s) && s.sender.Filling?
    ensures Enabled(s, Scribble(half)) && Next(s, Scribble(half)).ring.slots[s.ring.end] == half
    ensures InRing(Next(s, Scribble(half))) == InRing(s)
  {
    KeepFill(s, Scribble(half));
    var s' := Next(s, Scribble(half));
    hide Contents, Slot, InSlots;
    NothingLost(s);
    NothingLost(s');
    assert (s.delivered + InRing(s))[|s.delivered|..] == InRing(s);
    assert (s'.delivered + InRing(s'))[|s.delivered|..] == InRing(s');
  }

  /** After a rejected message nothing more is delivered until the next interrupt. */
  lemma {:induction false} LeaveStopsDelivery<T>(states: seq<State<T>>, steps: seq<Step<T>>, i: nat, j: nat)
    requires |states| == |steps| + 1 && i < j < |states|
    requires forall k :: 0 <= k < |steps| ==> Enabled(states[k], steps[k]) && states[k + 1] == Next(states[k], steps[k])
    requires steps[i].Leave? && forall k :: i < k < j ==> !steps[k].Interrupt?
    ensures states[j].delivered == states[i].delivered && states[j].ring.start == states[i].ring.start
    ensures states[j].receive.RecvIdle?
  {
    if i + 1 < j {
      LeaveStopsDelivery(states, steps, i, j - 1);
      assert states[j] == Next(states[j - 1], steps[j - 1]);
    }
  }
}

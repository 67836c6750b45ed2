/** The byte ring of the copying build over all runs: any number of sending threads on one node, the
    receives of the other node, and the receives of the sending node, which take laps off the
    cursor of the consumer.  Each step reads or writes the shared state once, but for the copy. */
module ByteRingRuns {
  import opened ByteRing
  import opened Constants
  import opened ModArith

  type Thread = nat

  /** Where a sending thread is: not sending; through the wait; holding the `phys_start` it read; with
      `phys_start` advanced, about to copy.  `from` is the history: the bytes reserved before its own. */
  datatype Phase = Idle | Checked(data: Payload) | Reading(data: Payload, offset: Position)
                 | Copying(data: Payload, offset: Position, from: nat)

  /** `stream`, `released` and `wraps` are the history: the bytes sent, in the order in which
      `phys_start` was advanced; the bytes received; and the laps taken off `phys_end`. */
  datatype Pio = Pio(
    physStart: Position, physEnd: nat, aperture: seq<Byte>, threads: map<Thread, Phase>,
    stream: seq<Byte>, released: nat, wraps: nat)

  function PhaseOf(s: Pio, t: Thread): Phase {
    if t in s.threads then s.threads[t] else Idle
  }

  datatype Step =
    | Check(t: Thread, data: Payload) | Read(t: Thread) | Advance(t: Thread) | Copy(t: Thread, aperture: seq<Byte>)
    | Release(n: nat)
    | PeerWrap   // the sending node, in a receive of its own

  ghost predicate Enabled(s: Pio, step: Step) {
    match step
    case Check(t, data) => PhaseOf(s, t).Idle? && |data| <= SpaceLeft(s.physStart, s.physEnd)
    case Read(t) => PhaseOf(s, t).Checked?
    case Advance(t) => PhaseOf(s, t).Reading?
    case Copy(t, aperture) =>
      PhaseOf(s, t).Copying? && CopiedIn(s.aperture, aperture, PhaseOf(s, t).offset, PhaseOf(s, t).data)
    case Release(n) => s.released + n <= |s.stream|
    case PeerWrap => true
  }

  ghost function Next(s: Pio, step: Step): Pio
    requires Enabled(s, step)
  {
    match step
    case Check(t, data) => s.(threads := s.threads[t := Checked(data)])
    case Read(t) => s.(threads := s.threads[t := Reading(PhaseOf(s, t).data, s.physStart)])
    case Advance(t) =>
      var data, offset := PhaseOf(s, t).data, PhaseOf(s, t).offset;
      s.(physStart := Wrap(offset + |data|), stream := s.stream + data,
         threads := s.threads[t := Copying(data, offset, |s.stream|)])
    case Copy(t, aperture) => s.(aperture := aperture, threads := s.threads[t := Idle])
    case Release(n) => s.(physEnd := s.physEnd + n, released := s.released + n)
    case PeerWrap => s.(physEnd := LapOff(s.physEnd), wraps := s.wraps + if s.physEnd >= A then 1 else 0)
  }

  // ---------------------------------------------------------------- places in the aperture

  /** The stream goes round the aperture: where its byte k lies. */
  function Place(k: nat): Position { k % A }

  lemma PlaceOfNext(k: nat, i: nat)
    requires i <= A
    ensures Place(k) + i < 2 * A && Wrap(Place(k) + i) == Place(k + i)
  {
    WrapIsMod(Place(k) + i);
    assert k + i == k / A * A + (Place(k) + i);
    var q, r := (Place(k) + i) / A, (Place(k) + i) % A;
    assert k + i == (k / A + q) * A + r;
    DivModUnique(k + i, A, k / A + q, r);
  }

  lemma PlacesDiffer(j: nat, k: nat)
    requires j < k < j + A
    ensures Place(j) != Place(k)
  {
    ModGap(j, k, A);
  }

  lemma OneLapOn(k: nat)
    ensures Place(k + A) == Place(k)
  {
    DivModUnique(k + A, A, k / A + 1, k % A);
  }

  /** A copy of `size` bytes behind stream byte `sent` reaches the place of byte k, of the last lap,
      exactly if k is less than a lap behind the last byte copied. */
  lemma CoversIff(sent: nat, size: nat, k: nat)
    requires size <= A && k < sent <= k + A
    ensures Covered(Place(sent), size, Place(k)) <==> k + A < sent + size
    ensures k + A < sent + size ==> Wrap(Place(sent) + (k + A - sent)) == Place(k)
  {
    PlaceOfNext(sent, k + A - sent);
    OneLapOn(k);
    if Covered(Place(sent), size, Place(k)) {
      var i := (if Place(sent) <= Place(k) < Place(sent) + size then Place(k) else Place(k) + A) - Place(sent);
      PlaceOfNext(sent, i);
      if sent + i < k + A { PlacesDiffer(sent + i, k + A); }
    }
  }

  // ---------------------------------------------------------------- the account of space

  ghost predicate InWindow(s: Pio, t: Thread) {
    PhaseOf(s, t).Checked? || PhaseOf(s, t).Reading?
  }

  function Unread(s: Pio): int { |s.stream| - s.released }

  function Laps(s: Pio): nat { |s.stream| / A }

  /** The cursors say where the stream and the consumer are. */
  ghost predicate Tracked(s: Pio) {
    && |s.aperture| == A && s.released <= |s.stream|
    && s.physStart == Place(|s.stream|) && s.physEnd == s.released - s.wraps * A
  }

  /** The laps taken off `phys_end` are at most one behind those of the sender. */
  predicate LapsAgree(s: Pio) { Laps(s) <= s.wraps + 1 }

  /** How far `phys_end` lies behind `phys_start`: the unread bytes, less the laps not taken off yet. */
  lemma LapGap(s: Pio) returns (gap: int)
    requires Tracked(s)
    ensures s.physEnd == s.physStart + gap - Unread(s)
    ensures var ahead := Laps(s) - s.wraps;
            ahead >= 0 && (ahead == 0 ==> gap == 0) && (ahead == 1 ==> gap == A) && (ahead >= 2 ==> gap >= 2 * A)
  {
    gap := (Laps(s) - s.wraps) * A;
    Multiples(Laps(s), s.wraps, A);
    assert |s.stream| == Laps(s) * A + s.physStart;
  }

  lemma Multiples(a: nat, b: nat, m: nat)
    ensures (a - b) * m == a * m - b * m
    ensures a < b ==> (a - b) * m + m <= 0
    ensures a - b >= 2 ==> (a - b) * m >= 2 * m
  {
    MultipleOrder(a - b, m);
  }

  lemma MultipleOrder(k: int, m: nat)
    ensures k <= -1 ==> k * m + m <= 0
    ensures k >= 2 ==> k * m >= 2 * m
  {
    assert k * m + m == (k + 1) * m;
    assert k * m - 2 * m == (k - 2) * m;
  }

  /** The space the sender sees and the unread bytes fill the aperture exactly while the laps agree and
      the unread bytes do not fill the ring; otherwise the sender sees too much, by whole apertures. */
  lemma AccountIff(s: Pio)
    requires Tracked(s)
    ensures SpaceLeft(s.physStart, s.physEnd) + Unread(s) == A <==> LapsAgree(s) && Unread(s) < A
    ensures !(LapsAgree(s) && Unread(s) < A) ==> SpaceLeft(s.physStart, s.physEnd) + Unread(s) >= 2 * A
  {
    var _ := LapGap(s);
  }

  /** With every lap of the consumer taken off at once, as the ring is meant to work, the laps agree. */
  lemma PromptWrapsAgree(s: Pio)
    requires Tracked(s) && Unread(s) < A && s.physEnd < A
    ensures LapsAgree(s)
  {
    var _ := LapGap(s);
  }

  /** What a receive of the sending node does for the account: the laps then agree if they were at most
      one more apart, and the cursor of the consumer had gone round. */
  lemma PeerWrapAgreesIff(s: Pio)
    requires Tracked(s)
    ensures Enabled(s, PeerWrap) && Tracked(Next(s, PeerWrap)) && Next(s, PeerWrap).stream == s.stream
    ensures LapsAgree(Next(s, PeerWrap)) <==> LapsAgree(s) || (Laps(s) == s.wraps + 2 && s.physEnd >= A)
  {
    Distribute(s.wraps);
  }

  /** With no lap ever taken off, they agree for less than two apertures' worth of bytes. */
  lemma UnwrappedAgreeIff(s: Pio)
    requires s.wraps == 0
    ensures LapsAgree(s) <==> |s.stream| < 2 * A
  {
    Multiples(Laps(s), 0, A);
    assert |s.stream| == Laps(s) * A + |s.stream| % A;
  }

  // ---------------------------------------------------------------- what the steps keep

  /** At most one thread is between the wait and the update of `phys_start`, and what it read of
      `phys_start` is current. */
  ghost predicate OneSender(s: Pio) {
    && (forall t, u :: InWindow(s, t) && InWindow(s, u) ==> t == u)
    && (forall t :: PhaseOf(s, t).Reading? ==> PhaseOf(s, t).offset == s.physStart)
  }

  /** No thread passes the wait while another is on its way from there to the update. */
  ghost predicate Alone(s: Pio, step: Step) {
    step.Check? ==> forall t :: !InWindow(s, t)
  }

  lemma NextTracked(s: Pio, step: Step)
    requires Tracked(s) && OneSender(s) && Enabled(s, step) && Alone(s, step)
    ensures Tracked(Next(s, step)) && OneSender(Next(s, step))
  {
    NextOneSender(s, step);
    if step.Advance? {
      AdvanceKeepsIff(s, step.t);
    } else if step.PeerWrap? {
      Distribute(s.wraps);
    }
  }

  lemma NextOneSender(s: Pio, step: Step)
    requires OneSender(s) && Enabled(s, step) && Alone(s, step)
    ensures OneSender(Next(s, step))
  {
    var s' := Next(s, step);
    if step.Release? || step.PeerWrap? {
      assert forall t :: PhaseOf(s', t) == PhaseOf(s, t) && InWindow(s', t) == InWindow(s, t);
    } else {
      assert forall t :: t != step.t ==> PhaseOf(s', t) == PhaseOf(s, t) && InWindow(s', t) == InWindow(s, t);
      assert step.Read? || step.Advance? ==> InWindow(s, step.t);
    }
  }

  lemma Distribute(k: nat)
    ensures (k + 1) * A == k * A + A
  {
  }

  /** An update of `phys_start` keeps the account exactly if the value read is still current: of two
      threads that read the same value, the second to write loses the bytes of the first. */
  lemma AdvanceKeepsIff(s: Pio, t: Thread)
    requires Tracked(s) && Enabled(s, Advance(t))
    ensures Tracked(Next(s, Advance(t))) <==> PhaseOf(s, t).offset == s.physStart
  {
    PlaceOfNext(|s.stream|, |PhaseOf(s, t).data|);
  }

  /** Byte k is reserved, and its thread has not copied it yet. */
  ghost predicate Pending(s: Pio, k: nat) {
    exists t :: Owns(PhaseOf(s, t), k)
  }

  predicate Owns(phase: Phase, k: nat) {
    phase.Copying? && phase.from <= k < phase.from + |phase.data|
  }

  /** What a thread about to copy knows of the stream. */
  ghost predicate OwnRange(s: Pio, phase: Phase) {
    phase.Copying? ==>
      && s.released <= phase.from && phase.from + |phase.data| <= |s.stream| && phase.offset == Place(phase.from)
      && forall k :: phase.from <= k < phase.from + |phase.data| ==> phase.data[k - phase.from] == s.stream[k]
  }

  ghost predicate InPlace(s: Pio, k: nat)
    requires |s.aperture| == A && k < |s.stream|
  {
    s.aperture[Place(k)] == s.stream[k]
  }

  /** The unread bytes do not fill the ring, and are in place once copied. */
  ghost predicate Sound(s: Pio) {
    && Tracked(s) && Unread(s) < A
    && (forall t :: OwnRange(s, PhaseOf(s, t)))
    && (forall k :: s.released <= k < |s.stream| && !Pending(s, k) ==> InPlace(s, k))
  }

  /** Messages are received in the order of their places, once copied. */
  ghost predicate Orderly(s: Pio, step: Step) {
    step.Release? ==> forall t :: PhaseOf(s, t).Copying? ==> s.released + step.n <= PhaseOf(s, t).from
  }

  /** The thread holds the current `phys_start`, and its bytes fit with one to spare. */
  ghost predicate Fits(s: Pio, t: Thread) {
    && (PhaseOf(s, t).Reading? ==> PhaseOf(s, t).offset == s.physStart)
    && (InWindow(s, t) ==> Unread(s) + |PhaseOf(s, t).data| < A)
  }

  /** Whatever the threads are doing, a step keeps the unread bytes safe exactly if it is not the update
      of a cursor read too early or for bytes that do not fit, nor a receive before a copy. */
  lemma StepKeepsSoundIff(s: Pio, step: Step)
    requires Sound(s) && Enabled(s, step)
    ensures Sound(Next(s, step)) <==> Orderly(s, step) && (step.Advance? ==> Fits(s, step.t))
  {
    match step {
      case Advance(t) =>
        AdvanceKeepsIff(s, t);
        if Fits(s, t) { KeepAdvance(s, t); }
      case Copy(_, _) => KeepCopy(s, step);
      case PeerWrap => Distribute(s.wraps); KeepOthers(s, step);
      case Release(n) =>
        if Orderly(s, step) {
          KeepOthers(s, step);
        } else {
          var t :| PhaseOf(s, t).Copying? && PhaseOf(s, t).from < s.released + n;
          assert !OwnRange(Next(s, step), PhaseOf(Next(s, step), t));
        }
      case _ => KeepOthers(s, step);
    }
  }

  /** Nothing but a copy changes the aperture, and nothing but an update the stream. */
  lemma KeepOthers(s: Pio, step: Step)
    requires Sound(s) && Enabled(s, step) && Orderly(s, step) && !step.Advance? && !step.Copy?
    requires Tracked(Next(s, step))
    ensures Sound(Next(s, step))
  {
    hide Place, CopiedIn, SpaceLeft;
    var s' := Next(s, step);
    assert forall t :: PhaseOf(s', t) == PhaseOf(s, t) || (!PhaseOf(s, t).Copying? && !PhaseOf(s', t).Copying?);
    assert forall t, k :: Owns(PhaseOf(s', t), k) <==> Owns(PhaseOf(s, t), k);
    assert forall k :: Pending(s', k) <==> Pending(s, k);
  }

  lemma KeepAdvance(s: Pio, t: Thread)
    requires Sound(s) && Enabled(s, Advance(t)) && Fits(s, t) && Tracked(Next(s, Advance(t)))
    ensures Sound(Next(s, Advance(t)))
  {
    hide Place, CopiedIn, SpaceLeft;
    var s' := Next(s, Advance(t));
    assert forall u :: u != t ==> PhaseOf(s', u) == PhaseOf(s, u);
    forall u
      ensures OwnRange(s', PhaseOf(s', u))
    {
      assert OwnRange(s, PhaseOf(s, u));
    }
    forall k | s'.released <= k < |s'.stream| && !Pending(s', k)
      ensures InPlace(s', k)
    {
      assert !Owns(PhaseOf(s', t), k);
      assert forall u :: u != t ==> !Owns(PhaseOf(s', u), k);
      assert !Pending(s, k);
    }
  }

  lemma KeepCopy(s: Pio, step: Step)
    requires Sound(s) && Enabled(s, step) && step.Copy?
    ensures Sound(Next(s, step))
  {
    hide Place, SpaceLeft;
    var s', own := Next(s, step), PhaseOf(s, step.t);
    assert OwnRange(s, own);
    assert forall u :: u != step.t ==> PhaseOf(s', u) == PhaseOf(s, u);
    forall k | s'.released <= k < |s'.stream| && !Pending(s', k)
      ensures InPlace(s', k)
    {
      if own.from <= k < own.from + |own.data| {
        PlaceOfNext(own.from, k - own.from);
      } else {
        assert forall u :: u != step.t ==> !Owns(PhaseOf(s', u), k);
        assert !Pending(s, k);
        NotCovered(own.from, |own.data|, k);
      }
    }
  }

  /** A range of the stream does not cover the place of a byte outside it, less than a lap away. */
  lemma NotCovered(from: nat, size: nat, k: nat)
    requires size <= A && if k < from then from + size <= k + A else from + size <= k < from + A
    ensures !Covered(Place(from), size, Place(k))
  {
    if Covered(Place(from), size, Place(k)) {
      var i := (if Place(from) <= Place(k) < Place(from) + size then Place(k) else Place(k) + A) - Place(from);
      PlaceOfNext(from, i);
      if from + i < k { PlacesDiffer(from + i, k); } else { PlacesDiffer(k, from + i); }
    }
  }

  /** With one thread at a time in the window, and its bytes measured there. */
  ghost predicate Inv(s: Pio) {
    Sound(s) && OneSender(s) && forall t :: Fits(s, t)
  }

  /** A send leaves at least one byte of the space it sees. */
  ghost predicate Sparing(s: Pio, step: Step) {
    step.Check? ==> |step.data| < SpaceLeft(s.physStart, s.physEnd)
  }

  /** What the callers and the two nodes can do for the bytes to be safe. */
  ghost predicate Careful(s: Pio, step: Step) {
    Alone(s, step) && Orderly(s, step) && Sparing(s, step) && (step.Check? ==> LapsAgree(s))
  }

  lemma NextInv(s: Pio, step: Step)
    requires Inv(s) && Enabled(s, step) && Careful(s, step)
    ensures Inv(Next(s, step))
  {
    StepKeepsSoundIff(s, step);
    NextOneSender(s, step);
    AccountIff(s);
    hide Place, CopiedIn, OwnRange, InPlace, Pending;
    var s' := Next(s, step);
    assert step.Advance? ==> InWindow(s, step.t);
    forall t
      ensures Fits(s', t)
    {
      assert Fits(s, t) && (InWindow(s', t) ==> InWindow(s, t) || step.Check?);
    }
  }

  // ---------------------------------------------------------------- all runs

  ghost predicate Init(s: Pio) {
    && |s.aperture| == A && s.threads == map[] && s.stream == []
    && s.physStart == s.physEnd == s.released == s.wraps == 0
  }

  /** Any steps of any number of threads. */
  ghost predicate IsRun(states: seq<Pio>, steps: seq<Step>) {
    && |states| == |steps| + 1
    && Init(states[0])
    && forall i :: 0 <= i < |steps| ==>
         Enabled(states[i], steps[i]) && states[i + 1] == Next(states[i], steps[i])
  }

  lemma InitInv(s: Pio)
    requires Init(s)
    ensures Inv(s) && LapsAgree(s)
  {
    assert forall t :: PhaseOf(s, t).Idle?;
  }

  /** With one thread at a time between the wait and the update, and nothing said about laps or sizes, at
      every instant the account of space is exact if and only if the laps of the sender and those
      taken off the consumer's cursor agree, and the unread bytes do not fill the ring. */
  lemma AccountInEveryRun(states: seq<Pio>, steps: seq<Step>, i: nat)
    requires IsRun(states, steps) && i < |states|
    requires forall j :: 0 <= j < i ==> Alone(states[j], steps[j])
    ensures Tracked(states[i]) && OneSender(states[i])
    ensures SpaceLeft(states[i].physStart, states[i].physEnd) + Unread(states[i]) == A
            <==> LapsAgree(states[i]) && Unread(states[i]) < A
  {
    hide Enabled, Next, Alone;
    if i == 0 {
      InitInv(states[0]);
    } else {
      AccountInEveryRun(states, steps, i - 1);
      NextTracked(states[i - 1], steps[i - 1]);
    }
    AccountIff(states[i]);
  }

  /** Over every run of careful steps each unread byte is in place from its copy to its receive. */
  lemma UnreadInEveryRun(states: seq<Pio>, steps: seq<Step>, i: nat)
    requires IsRun(states, steps) && i < |states|
    requires forall j :: 0 <= j < i ==> Careful(states[j], steps[j])
    ensures Inv(states[i])
    ensures forall k :: states[i].released <= k < |states[i].stream| && !Pending(states[i], k) ==> InPlace(states[i], k)
  {
    hide Enabled, Next, Careful, OneSender, Fits;
    if i == 0 {
      InitInv(states[0]);
    } else {
      UnreadInEveryRun(states, steps, i - 1);
      NextInv(states[i - 1], steps[i - 1]);
    }
  }

  /** So it is, with any number of threads anywhere, if each update is of a current cursor and for bytes
      that fit, and each receive in order. */
  lemma SoundInEveryRun(states: seq<Pio>, steps: seq<Step>, i: nat)
    requires IsRun(states, steps) && i < |states|
    requires forall j :: 0 <= j < i ==>
               Orderly(states[j], steps[j]) && (steps[j].Advance? ==> Fits(states[j], steps[j].t))
    ensures Sound(states[i])
  {
    hide Enabled, Next, Fits, Orderly;
    if i == 0 {
      InitInv(states[0]);
    } else {
      SoundInEveryRun(states, steps, i - 1);
      StepKeepsSoundIff(states[i - 1], steps[i - 1]);
    }
  }

  // ---------------------------------------------------------------- and when they are not safe

  ghost predicate AllIdle(s: Pio) {
    forall t :: PhaseOf(s, t).Idle?
  }

  /** A thread that sends all by itself: past the wait, the update and the copy. */
  ghost predicate CanSend(s: Pio, t: Thread, data: Payload, aperture: seq<Byte>) {
    && AllIdle(s) && |data| <= SpaceLeft(s.physStart, s.physEnd) && CopiedIn(s.aperture, aperture, s.physStart, data)
  }

  function SoloSteps(t: Thread, data: Payload, aperture: seq<Byte>): seq<Step> {
    [Check(t, data), Read(t), Advance(t), Copy(t, aperture)]
  }

  /** The steps lead from s to s', in an orderly way, and if asked each send spares some space. */
  ghost predicate Leads(s: Pio, steps: seq<Step>, s': Pio, sparing: bool)
    decreases |steps|
  {
    if steps == [] then s' == s else
      && Enabled(s, steps[0]) && Alone(s, steps[0]) && Orderly(s, steps[0]) && (sparing ==> Sparing(s, steps[0]))
      && Leads(Next(s, steps[0]), steps[1..], s', sparing)
  }

  ghost function AfterSend(s: Pio, t: Thread, data: Payload, aperture: seq<Byte>): Pio {
    s.(physStart := Wrap(s.physStart + |data|), aperture := aperture, stream := s.stream + data,
       threads := s.threads[t := Idle])
  }

  lemma SoloSend(s: Pio, t: Thread, data: Payload, aperture: seq<Byte>, sparing: bool)
    requires CanSend(s, t, data, aperture) && (sparing ==> Sparing(s, Check(t, data)))
    ensures Leads(s, SoloSteps(t, data, aperture), AfterSend(s, t, data, aperture), sparing)
  {
    var steps, s' := SoloSteps(t, data, aperture), AfterSend(s, t, data, aperture);
    var s1 := Next(s, Check(t, data));
    var s2 := Next(s1, Read(t));
    var s3 := Next(s2, Advance(t));
    assert Leads(Next(s3, Copy(t, aperture)), [], s', sparing);
    assert steps[3..] == [Copy(t, aperture)] && steps[2..] == [Advance(t)] + steps[3..];
    assert steps[1..] == [Read(t)] + steps[2..];
    assert Leads(s3, steps[3..], s', sparing);
    assert Leads(s2, steps[2..], s', sparing);
  }

  lemma AfterSendTracked(s: Pio, t: Thread, data: Payload, aperture: seq<Byte>)
    requires Tracked(s) && CanSend(s, t, data, aperture)
    ensures Tracked(AfterSend(s, t, data, aperture)) && AllIdle(AfterSend(s, t, data, aperture))
  {
    PlaceOfNext(|s.stream|, |data|);
    assert forall u :: PhaseOf(AfterSend(s, t, data, aperture), u) == PhaseOf(s, u);
  }

  /** A send that passes the wait writes over the place of byte k, of the last lap, exactly if with it
      the stream gets more than a lap ahead of that byte. */
  lemma SendOverwritesIff(s: Pio, t: Thread, data: Payload, aperture: seq<Byte>, k: nat)
    requires Tracked(s) && CanSend(s, t, data, aperture) && k < |s.stream| <= k + A
    ensures var s' := AfterSend(s, t, data, aperture);
            if k + A < |s'.stream| then s'.aperture[Place(k)] == data[k + A - |s.stream|]
            else s'.aperture[Place(k)] == s.aperture[Place(k)]
  {
    CoversIff(|s.stream|, |data|, k);
  }

  /** A send keeps the account exactly if it leaves some of the space it saw, and does not get a lap
      further ahead than the laps taken off allow: a filled ring reads as empty. */
  lemma SendKeepsAccountIff(s: Pio, t: Thread, data: Payload, aperture: seq<Byte>)
    requires Sound(s) && LapsAgree(s) && CanSend(s, t, data, aperture)
    ensures var s' := AfterSend(s, t, data, aperture);
            Tracked(s') &&
            (SpaceLeft(s'.physStart, s'.physEnd) + Unread(s') == A
             <==> |data| < SpaceLeft(s.physStart, s.physEnd) && LapsAgree(s'))
  {
    hide Place;
    AccountIff(s);
    PlaceOfNext(|s.stream|, |data|);
    var _ := LapGap(AfterSend(s, t, data, aperture));
  }

  /** And it costs data: the next send, of any size up to the aperture, passes the wait, and its first
      byte replaces the oldest unread byte. */
  lemma FilledRingIsOverwritten(s: Pio, t: Thread, data: Payload, aperture: seq<Byte>)
    requires Tracked(s) && Unread(s) == A && LapsAgree(s)
    requires data != [] && AllIdle(s) && CopiedIn(s.aperture, aperture, s.physStart, data)
    ensures CanSend(s, t, data, aperture)
    ensures AfterSend(s, t, data, aperture).aperture[Place(s.released)] == data[0]
  {
    var _ := LapGap(s);
    SendOverwritesIff(s, t, data, aperture, s.released);
  }

  /** Once the laps disagree, the wait lets through a send one byte too large, with space to spare, and
      its last byte replaces the oldest unread byte. */
  lemma LapsBehindOverwrites(s: Pio, t: Thread, data: Payload, aperture: seq<Byte>)
    requires Tracked(s) && 0 < Unread(s) < A && !LapsAgree(s)
    requires |data| == A - Unread(s) + 1
    requires AllIdle(s) && CopiedIn(s.aperture, aperture, s.physStart, data)
    ensures CanSend(s, t, data, aperture) && Sparing(s, Check(t, data))
    ensures AfterSend(s, t, data, aperture).aperture[Place(s.released)] == data[|data| - 1]
  {
    AccountIff(s);
    SendOverwritesIff(s, t, data, aperture, s.released);
  }

  /** A message of n bytes received before an older one releases the space of the older one: a send
      that passes the wait then replaces the oldest byte, still unread, exactly if it is larger than
      the space there was before. */
  lemma OutOfOrderOverwritesIff(s: Pio, n: nat, t: Thread, data: Payload, aperture: seq<Byte>)
    requires Sound(s) && LapsAgree(s) && 0 < n <= Unread(s)
    requires CanSend(Next(s, Release(n)), t, data, aperture)
    ensures var before, after := SpaceLeft(s.physStart, s.physEnd), AfterSend(Next(s, Release(n)), t, data, aperture);
            after.aperture[Place(s.released)] ==
            if |data| > before then data[before] else s.aperture[Place(s.released)]
  {
    AccountIff(s);
    SendOverwritesIff(Next(s, Release(n)), t, data, aperture, s.released);
  }

  /** Two threads that read `phys_start` before either advances it copy to the same place: the bytes of
      the first to copy are replaced, and `phys_start` counts the bytes of the second alone. */
  lemma TwoSendersCollide(s: Pio, t: Thread, u: Thread, first: seq<Byte>, second: seq<Byte>, i: nat)
    requires Tracked(s) && t != u && PhaseOf(s, t).Reading? && PhaseOf(s, u).Reading?
    requires PhaseOf(s, t).offset == PhaseOf(s, u).offset == s.physStart
    requires CopiedIn(s.aperture, first, s.physStart, PhaseOf(s, t).data)
    requires CopiedIn(first, second, s.physStart, PhaseOf(s, u).data)
    requires i < |PhaseOf(s, t).data| && i < |PhaseOf(s, u).data| && |PhaseOf(s, t).data| < A
    ensures Enabled(s, Advance(t)) && Enabled(Next(s, Advance(t)), Copy(t, first))
    ensures var s2 := Next(Next(s, Advance(t)), Copy(t, first));
            && Tracked(s2) && first[Place(|s.stream| + i)] == s2.stream[|s.stream| + i]
            && Enabled(s2, Advance(u)) && Enabled(Next(s2, Advance(u)), Copy(u, second))
            && var s4 := Next(Next(s2, Advance(u)), Copy(u, second));
               !Tracked(s4) && s4.aperture[Place(|s.stream| + i)] == PhaseOf(s, u).data[i]
  {
    hide Place;
    AdvanceKeepsIff(s, t);
    var s1 := Next(s, Advance(t));
    var s2 := Next(s1, Copy(t, first));
    assert PhaseOf(s2, u) == PhaseOf(s, u);
    AdvanceKeepsIff(s2, u);
    PlaceOfNext(|s.stream|, i);
  }

  lemma {:induction false} LeadsOn(s: Pio, steps: seq<Step>, s': Pio, more: seq<Step>, s'': Pio, sparing: bool)
    requires Leads(s, steps, s', sparing) && Leads(s', more, s'', sparing)
    ensures Leads(s, steps + more, s'', sparing)
    decreases |steps|
  {
    hide Enabled, Next, Alone, Orderly, Sparing;
    if steps == [] {
      assert steps + more == more;
    } else {
      LeadsOn(Next(s, steps[0]), steps[1..], s', more, s'', sparing);
      assert (steps + more)[1..] == steps[1..] + more;
    }
  }

  /** Every send in these steps is of one byte, and the sending node never receives. */
  predicate ByteSends(steps: seq<Step>) {
    forall step :: step in steps ==> !step.PeerWrap? && (step.Check? ==> |step.data| == 1)
  }

  /** `sent` bytes were sent and `released` received, by nodes of which the sending one never receives. */
  ghost predicate AtRest(s: Pio, sent: nat, released: nat) {
    Tracked(s) && AllIdle(s) && |s.stream| == sent && s.released == released && s.wraps == 0
  }

  /** One byte more, which the wait lets through as long as there seems to be room for two. */
  lemma SendByte(p: Pio, sent: nat, released: nat, b: Byte) returns (q: Pio)
    requires AtRest(p, sent, released) && 1 < SpaceLeft(p.physStart, p.physEnd)
    ensures Leads(p, SoloSteps(0, [b], q.aperture), q, true) && ByteSends(SoloSteps(0, [b], q.aperture))
    ensures AtRest(q, sent + 1, released) && q.stream == p.stream + [b]
    ensures CopiedIn(p.aperture, q.aperture, p.physStart, [b])
  {
    var aperture := p.aperture[p.physStart := b];
    hide Place, AllIdle;
    assert CopiedIn(p.aperture, aperture, p.physStart, [b]);
    SoloSend(p, 0, [b], aperture, true);
    AfterSendTracked(p, 0, [b], aperture);
    q := AfterSend(p, 0, [b], aperture);
  }

  lemma ReceiveByte(q: Pio, n: nat) returns (s: Pio)
    requires AtRest(q, n + 1, n)
    ensures Leads(q, [Release(1)], s, true) && AtRest(s, n + 1, n + 1)
  {
    s := Next(q, Release(1));
    assert forall t :: PhaseOf(s, t) == PhaseOf(q, t);
    assert [Release(1)][1..] == [];
    assert Leads(s, [Release(1)][1..], s, true);
  }

  /** n bytes, each received before the next is sent. */
  lemma {:induction false} ByteAfterByte(s0: Pio, n: nat) returns (steps: seq<Step>, s: Pio)
    requires Init(s0) && 2 <= A
    ensures Leads(s0, steps, s, true) && ByteSends(steps) && AtRest(s, n, n)
  {
    if n == 0 {
      InitInv(s0);
      return [], s0;
    }
    var before, p := ByteAfterByte(s0, n - 1);
    AccountIff(p);
    var q := SendByte(p, n - 1, n - 1, 0);
    s := ReceiveByte(q, n - 1);
    var solo := SoloSteps(0, [0], q.aperture);
    hide Leads, AtRest;
    LeadsOn(p, solo, q, [Release(1)], s, true);
    LeadsOn(s0, before, p, solo + [Release(1)], s, true);
    steps := before + (solo + [Release(1)]);
  }

  /** After two laps, n more bytes with no receive: up to a whole aperture full, and still there seems to
      be room. */
  lemma {:induction false} UnreadBytes(s0: Pio, n: nat) returns (steps: seq<Step>, s: Pio)
    requires Init(s0) && 2 <= A && n <= A
    ensures Leads(s0, steps, s, true) && ByteSends(steps) && AtRest(s, 2 * A + n, 2 * A)
    ensures 1 < SpaceLeft(s.physStart, s.physEnd) && forall k :: 2 * A <= k < 2 * A + n ==> s.stream[k] == 0
  {
    if n == 0 {
      steps, s := ByteAfterByte(s0, 2 * A);
    } else {
      var before, p := UnreadBytes(s0, n - 1);
      s := SendByte(p, 2 * A + n - 1, 2 * A, 0);
      var solo := SoloSteps(0, [0], s.aperture);
      LeadsOn(s0, before, p, solo, s, true);
      steps := before + solo;
    }
    hide Leads;
    AccountIff(s);
    UnwrappedAgreeIff(s);
  }

  /** Traffic in one direction only loses data, byte by byte, with one sender, receives in order, and
      space spared at each wait: one lap later the sender writes over the oldest unread byte. */
  lemma OneWayRunOverwrites(s0: Pio) returns (steps: seq<Step>, s: Pio)
    requires Init(s0) && 2 <= A
    ensures Leads(s0, steps, s, true) && ByteSends(steps)
    ensures AtRest(s, 3 * A + 1, 2 * A) && !InPlace(s, s.released)
  {
    var before, p := UnreadBytes(s0, A);
    s := SendByte(p, 3 * A, 2 * A, 1);
    SendOverwritesIff(p, 0, [1], s.aperture, 2 * A);
    var solo := SoloSteps(0, [1], s.aperture);
    hide Tracked, AllIdle;
    LeadsOn(s0, before, p, solo, s, true);
    steps := before + solo;
  }

  /** A read that does not go round the end finds every byte of a message where it lies exactly if the
      message does not lie across the end; and then it reads the bytes sent. */
  lemma StraightReadIff(s: Pio, k: nat, len: nat)
    requires Sound(s) && s.released <= k && k + len <= |s.stream|
    requires forall j :: k <= j < k + len ==> !Pending(s, j)
    ensures (forall j :: k <= j < k + len ==> Place(j) == Place(k) + (j - k)) <==> Place(k) + len <= A || len == 0
    ensures Place(k) + len <= A ==> s.aperture[Place(k)..Place(k) + len] == s.stream[k..k + len]
  {
    hide Place, OneSender, Pending;
    if Place(k) + len <= A {
      forall j | k <= j < k + len
        ensures Place(j) == Place(k) + (j - k)
      {
        PlaceOfNext(k, j - k);
      }
      var read, sent := s.aperture[Place(k)..Place(k) + len], s.stream[k..k + len];
      forall i | 0 <= i < len
        ensures read[i] == sent[i]
      {
        assert InPlace(s, k + i) && Place(k + i) == Place(k) + i;
      }
    } else if len > 0 {
      assert Place(k + len - 1) < A;
    }
  }
}

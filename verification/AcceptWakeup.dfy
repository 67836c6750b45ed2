/** A thread sleeping in accept, and the CONNECT handler that must wake it.

    One thread accepts on the port; CONNECT messages are handled one at a time, as the receive
    spinlock provides.  Each step reads or writes the shared state once. */
module AcceptWakeup {
  datatype Acceptor =
    | Entering      // about to look at the queue for the first time
    | Registering   // about to publish the listening socket
    | Preparing     // about to join the wait queue
    | Checking      // about to look at the queue again
    | Committed     // saw an empty queue; about to give up the processor
    | Asleep
    | Rechecking
    | Leaving(found: bool)
    | Taking

  datatype Handler = Idle | Adding | Waking

  /** `runnable` is false while the task state is TASK_INTERRUPTIBLE. */
  datatype State = State(
    acceptor: Acceptor, handler: Handler, queued: nat, listening: bool, onWaitQueue: bool, runnable: bool)

  datatype Step =
    | FirstLook | Register | Prepare | Look | Schedule | Resume | Timer | LookAfter(giveUp: bool) | Finish | Take
    | Connect(known: bool)   // a CONNECT arrives; `known` if its connection is in `conns` already
    | Add | WakeUp
    | TakenAway              // a CONNECT_SUCCESS takes an entry off the queue, if there is one
    | LocalConnect           // `connect` on this node to the same port number also adds to the queue

  ghost predicate Init(s: State) {
    s == State(Entering, Idle, 0, false, false, true)
  }

  predicate Enabled(s: State, step: Step) {
    match step
    case FirstLook => s.acceptor.Entering?
    case Register => s.acceptor.Registering?
    case Prepare => s.acceptor.Preparing?
    case Look => s.acceptor.Checking?
    case Schedule => s.acceptor.Committed?
    case Resume => s.acceptor.Asleep? && s.runnable
    case Timer => s.acceptor.Asleep?
    case LookAfter(_) => s.acceptor.Rechecking?
    case Finish => s.acceptor.Leaving?
    case Take => s.acceptor.Taking?
    case Connect(_) => s.handler.Idle?
    case Add => s.handler.Adding?
    case WakeUp => s.handler.Waking?
    case TakenAway => s.handler.Idle?
    case LocalConnect => true
  }

  function Next(s: State, step: Step): State
    requires Enabled(s, step)
  {
    match step
    case FirstLook => s.(acceptor := if s.queued == 0 then Registering else Taking)
    case Register => s.(acceptor := Preparing, listening := true)
    case Prepare => s.(acceptor := Checking, onWaitQueue := true, runnable := false)
    case Look => s.(acceptor := if s.queued == 0 then Committed else Rechecking)
    case Schedule => s.(acceptor := if s.runnable then Rechecking else Asleep)
    case Resume => s.(acceptor := Rechecking)
    case Timer => s.(runnable := true)
    case LookAfter(giveUp) =>
      s.(acceptor := if s.queued != 0 then Leaving(true) else if giveUp then Leaving(false) else Preparing)
    case Finish =>
      s.(acceptor := if s.acceptor.found then Taking else Entering, onWaitQueue := false, runnable := true)
    case Take => s.(acceptor := Entering, queued := Fewer(s.queued))
    case Connect(known) => s.(handler := if s.listening && !known then Adding else Idle)
    case Add => s.(handler := Waking, queued := s.queued + 1)
    case WakeUp =>
      s.(handler := Idle, runnable := s.runnable || (s.listening && s.onWaitQueue),
         onWaitQueue := s.onWaitQueue && !s.listening)
    case TakenAway => s.(queued := Fewer(s.queued))
    case LocalConnect => s.(queued := s.queued + 1)
  }

  function Fewer(queued: nat): nat { if queued == 0 then 0 else queued - 1 }

  /** The acceptor sleeps, or will as soon as it gives up the processor. */
  predicate BoundToSleep(s: State) {
    (s.acceptor.Committed? || s.acceptor.Asleep?) && !s.runnable
  }

  ghost predicate Inv(s: State) {
    && (s.acceptor.Checking? || BoundToSleep(s) ==> s.listening && (s.onWaitQueue || s.runnable))
    && (s.acceptor.Preparing? || s.acceptor.Rechecking? || s.acceptor.Asleep? || s.acceptor.Committed? ==> s.listening)
    && (!s.handler.Idle? ==> s.listening)
    && (BoundToSleep(s) && s.queued > 0 ==> s.handler.Waking?)
  }

  /** An entry that `connect` adds on the listening node itself wakes no one. It does no harm while the
      acceptor is not bound to sleep, or is about to be woken for another entry. */
  predicate Harmless(s: State, step: Step) {
    step.LocalConnect? ==> !BoundToSleep(s) || s.handler.Waking?
  }

  ghost predicate IsRun(states: seq<State>, steps: seq<Step>) {
    && |states| == |steps| + 1
    && Init(states[0])
    && forall i :: 0 <= i < |steps| ==>
         Enabled(states[i], steps[i]) && Harmless(states[i], steps[i]) && states[i + 1] == Next(states[i], steps[i])
  }

  /** A step keeps the invariant exactly if it is harmless; only a local connect can fail to be. */
  lemma StepKeepsInvIff(s: State, step: Step)
    requires Inv(s) && Enabled(s, step)
    ensures Inv(Next(s, step)) <==> Harmless(s, step)
  {
  }

  lemma RunInv(states: seq<State>, steps: seq<Step>, i: nat)
    requires IsRun(states, steps) && i < |states|
    ensures Inv(states[i])
  {
    hide Next, Enabled, Harmless;
    if i > 0 {
      RunInv(states, steps, i - 1);
      StepKeepsInvIff(states[i - 1], steps[i - 1]);
    }
  }

  /** No lost wake-up: a thread bound to sleep next to a waiting connection is about to be woken. */
  lemma NoLostWakeUp(states: seq<State>, steps: seq<Step>, i: nat)
    requires IsRun(states, steps) && i < |states|
    requires BoundToSleep(states[i]) && states[i].queued > 0
    ensures states[i].handler.Waking?
    ensures !BoundToSleep(Next(states[i], WakeUp))
  {
    RunInv(states, steps, i);
  }

  /** What accept does with the queue: it waits only if it found nothing; a wait ends with the taking of
      an entry exactly if there is one, whether or not the thread was about to give up; and the taking
      takes one. */
  lemma AcceptAnswers(s: State, step: Step)
    requires Enabled(s, step)
    ensures step.FirstLook? ==> (Next(s, step).acceptor.Taking? <==> s.queued > 0)
    ensures step.Look? ==> (Next(s, step).acceptor.Committed? <==> s.queued == 0)
    ensures step.Schedule? ==> (Next(s, step).acceptor.Asleep? <==> !s.runnable)
    ensures step.Timer? ==> Enabled(Next(s, step), Resume) && !BoundToSleep(Next(s, step))
    ensures step.LookAfter? && Next(s, step).acceptor.Leaving? ==>
              Enabled(Next(s, step), Finish) && (Next(Next(s, step), Finish).acceptor.Taking? <==> s.queued > 0)
    ensures step.LookAfter? ==> (Next(s, step).acceptor.Leaving? <==> s.queued > 0 || step.giveUp)
    ensures step.Finish? ==> Next(s, step).queued == s.queued && !Next(s, step).onWaitQueue && Next(s, step).runnable
    ensures step.Take? && s.queued > 0 ==> Next(s, step).queued == s.queued - 1
    ensures step.Take? ==> Next(s, step).acceptor.Entering?
  {
  }

  /** A wake-up takes the acceptor off the wait queue, and makes it run if it was there. */
  lemma WakeUpOnce(s: State)
    requires Inv(s) && Enabled(s, WakeUp)
    ensures var s' := Next(s, WakeUp);
            && !s'.onWaitQueue && s'.handler.Idle? && s'.queued == s.queued
            && (s'.runnable <==> s.runnable || s.onWaitQueue)
  {
  }

  /** A sleeping accept can give up when its time is over, and leaves the queue as it is. */
  lemma GivesUp(s: State)
    requires s.acceptor.Asleep? && s.queued == 0
    ensures Enabled(s, Timer) && Enabled(Next(s, Timer), Resume)
    ensures var s2 := Next(Next(s, Timer), Resume);
            && Enabled(s2, LookAfter(true)) && Enabled(Next(s2, LookAfter(true)), Finish)
            && var s4 := Next(Next(s2, LookAfter(true)), Finish);
               s4 == s.(acceptor := Entering, onWaitQueue := false, runnable := true)
  {
  }

  /** Entries added, less entries taken from a queue that was not empty. */
  function Balance(states: seq<State>, steps: seq<Step>): int
    requires |steps| <= |states|
  {
    if steps == [] then 0 else
      var last := |steps| - 1;
      Balance(states, steps[..last]) +
      match steps[last]
      case Add => 1
      case LocalConnect => 1
      case Take => if states[last].queued > 0 then -1 else 0
      case TakenAway => if states[last].queued > 0 then -1 else 0
      case _ => 0
  }

  /** No step of either thread makes an entry appear or vanish otherwise. */
  lemma {:induction false} QueueIsBalance(states: seq<State>, steps: seq<Step>, i: nat)
    requires IsRun(states, steps) && i < |states|
    ensures states[i].queued == Balance(states, steps[..i])
  {
    if i > 0 {
      QueueIsBalance(states, steps, i - 1);
      assert states[i] == Next(states[i - 1], steps[i - 1]);
      assert steps[..i][..i - 1] == steps[..i - 1];
    }
  }

  /** As long as no CONNECT_SUCCESS takes an entry away, an accept that has found one still finds it. */
  lemma {:induction false} FoundIsThere(states: seq<State>, steps: seq<Step>, i: nat)
    requires IsRun(states, steps) && i < |states|
    requires forall j :: 0 <= j < i ==> !steps[j].TakenAway?
    ensures states[i].acceptor.Taking? || states[i].acceptor == Leaving(true) ==> states[i].queued > 0
  {
    if i > 0 {
      FoundIsThere(states, steps, i - 1);
      assert states[i] == Next(states[i - 1], steps[i - 1]);
    }
  }

  /** A sleeping accept is woken by the CONNECT it waits for, and returns with that connection. */
  lemma WokenAndServed(s: State)
    requires Inv(s) && s.acceptor.Asleep? && !s.runnable && s.handler.Idle?
    ensures s.queued == 0 && Enabled(s, Connect(false))
    ensures var s1 := Next(s, Connect(false));
            && Enabled(s1, Add) && Enabled(Next(s1, Add), WakeUp)
            && var s2 := Next(Next(s1, Add), WakeUp);
               && s2.queued == 1 && Enabled(s2, Resume) && Enabled(Next(s2, Resume), LookAfter(false))
               && var s3 := Next(Next(s2, Resume), LookAfter(false));
                  && Enabled(s3, Finish) && Enabled(Next(s3, Finish), Take)
                  && var s4 := Next(Next(s3, Finish), Take); s4.acceptor.Entering? && s4.queued == 0
  {
  }

  /** After a harmful local connect the acceptor sleeps on beside its entry until a timer, the wake-up for
      a later CONNECT, or a CONNECT_SUCCESS that takes the entry away. */
  lemma {:induction false} HarmfulConnectSleepsOn(states: seq<State>, steps: seq<Step>, i: nat)
    requires |states| == |steps| + 1 && i < |steps|
    requires Inv(states[0]) && Enabled(states[0], LocalConnect) && !Harmless(states[0], LocalConnect)
    requires steps[0] == LocalConnect
    requires forall k :: 0 <= k < |steps| ==> Enabled(states[k], steps[k]) && states[k + 1] == Next(states[k], steps[k])
    requires forall k :: 0 <= k < |steps| ==> !steps[k].Timer? && !steps[k].WakeUp? && !steps[k].TakenAway?
    ensures BoundToSleep(states[i + 1]) && states[i + 1].queued > 0
  {
    if i > 0 {
      HarmfulConnectSleepsOn(states, steps, i - 1);
    }
  }

  /** A CONNECT_SUCCESS handled next takes that entry away, and leaves the state as it was before. */
  lemma SuccessMakesGood(s: State)
    requires Inv(s) && !Harmless(s, LocalConnect)
    ensures Enabled(Next(s, LocalConnect), TakenAway) <==> s.handler.Idle?
    ensures s.handler.Idle? ==> Next(Next(s, LocalConnect), TakenAway) == s
  {
  }

  /** And such a connect can occur: an acceptor that sleeps, and no CONNECT being handled. */
  lemma HarmfulConnectReachable()
    ensures var steps := [FirstLook, Register, Prepare, Look, Schedule];
            exists states: seq<State> ::
              IsRun(states, steps) && Enabled(states[5], LocalConnect) && !Harmless(states[5], LocalConnect)
  {
    var s0 := State(Entering, Idle, 0, false, false, true);
    var s1 := Next(s0, FirstLook);
    var s2 := Next(s1, Register);
    var s3 := Next(s2, Prepare);
    var s4 := Next(s3, Look);
    var states := [s0, s1, s2, s3, s4, Next(s4, Schedule)];
    assert IsRun(states, [FirstLook, Register, Prepare, Look, Schedule]);
  }

  /** The socket is registered exactly if an accept call has waited on the port. */
  lemma {:induction false} ListeningIffRegistered(states: seq<State>, steps: seq<Step>, i: nat)
    requires IsRun(states, steps) && i < |states|
    ensures states[i].listening <==> exists j :: 0 <= j < i && steps[j].Register?
  {
    if i > 0 {
      ListeningIffRegistered(states, steps, i - 1);
      assert !steps[i - 1].Register? ==> states[i].listening == states[i - 1].listening;
    }
  }

  /** A CONNECT is dropped exactly when no accept call has waited on the port yet, or its connection
      exists already. */
  lemma ConnectDroppedIff(states: seq<State>, steps: seq<Step>, i: nat)
    requires IsRun(states, steps) && i < |steps| && steps[i].Connect?
    ensures states[i + 1] == states[i] <==> steps[i].known || forall j :: 0 <= j < i ==> !steps[j].Register?
  {
    ListeningIffRegistered(states, steps, i);
  }
}

/** The one counting semaphore that serialises DMA transfers and also signals their completion,
    for any number of threads. */
module DmaSemaphore {
  type Thread = nat
  type Transfer = nat

  /** `holding`: past the first `down`, transfer not started.  `waiting`: in `down_timeout`, for the
      given transfer.  `past`: through `down_timeout`.  `failed`: transfers whose thread will read a
      non-zero `callback_error`, be it set by the callback or never initialised.  `leaked`: tokens
      that no one will give back. */
  datatype State = State(
    tokens: nat, holding: set<Thread>, waiting: map<Thread, Transfer>, past: map<Thread, Transfer>,
    inFlight: set<Transfer>, failed: set<Transfer>, started: nat, leaked: nat)

  datatype Step =
    | Down(t: Thread)
    | StartFails(t: Thread)
    | Start(t: Thread, uninitialised: bool)
    | Callback(d: Transfer, ok: bool)
    | DownAgain(t: Thread)
    | TimesOut(t: Thread)
    | ReportError(t: Thread)
    | Up(t: Thread)

  ghost predicate Init(s: State) {
    s == State(1, {}, map[], map[], {}, {}, 0, 0)
  }

  predicate Outside(s: State, t: Thread) { t !in s.holding && t !in s.waiting && t !in s.past }

  predicate Enabled(s: State, step: Step) {
    match step
    case Down(t) => Outside(s, t) && 0 < s.tokens
    case StartFails(t) => t in s.holding
    case Start(t, _) => t in s.holding
    case Callback(d, _) => d in s.inFlight
    case DownAgain(t) => t in s.waiting && 0 < s.tokens
    case TimesOut(t) => t in s.waiting
    case ReportError(t) => t in s.past && s.past[t] in s.failed
    case Up(t) => t in s.past && s.past[t] !in s.failed
  }

  function Next(s: State, step: Step): State
    requires Enabled(s, step)
  {
    match step
    case Down(t) => s.(tokens := s.tokens - 1, holding := s.holding + {t})
    case StartFails(t) => s.(holding := s.holding - {t}, leaked := s.leaked + 1)
    case Start(t, uninitialised) =>
      s.(holding := s.holding - {t}, waiting := s.waiting[t := s.started],
         inFlight := s.inFlight + {s.started}, started := s.started + 1,
         failed := if uninitialised then s.failed + {s.started} else s.failed)
    case Callback(d, ok) =>
      s.(inFlight := s.inFlight - {d}, tokens := s.tokens + 1, failed := if ok then s.failed else s.failed + {d})
    case DownAgain(t) =>
      s.(tokens := s.tokens - 1, waiting := s.waiting - {t}, past := s.past[t := s.waiting[t]])
    case TimesOut(t) => s.(waiting := s.waiting - {t})
    case ReportError(t) => s.(past := s.past - {t}, leaked := s.leaked + 1)
    case Up(t) => s.(past := s.past - {t}, tokens := s.tokens + 1)
  }

  /** The single token is free, held before a transfer, carried by a transfer in flight, held after
      `down_timeout`, or lost. */
  ghost predicate Inv(s: State) {
    && s.tokens + |s.holding| + |s.inFlight| + |s.past.Keys| + s.leaked == 1
    && s.holding !! s.waiting.Keys && s.holding !! s.past.Keys && s.waiting.Keys !! s.past.Keys
    && forall d :: d in s.inFlight ==> d < s.started
  }

  lemma NextInv(s: State, step: Step)
    requires Inv(s) && Enabled(s, step)
    ensures Inv(Next(s, step))
  {
    match step {
      case DownAgain(t) => KeysAfter(s.past, t, s.waiting[t]);
      case ReportError(t) => KeysAfter(s.past, t, s.past[t]);
      case Up(t) => KeysAfter(s.past, t, s.past[t]);
      case TimesOut(t) => KeysAfter(s.waiting, t, s.waiting[t]);
      case _ =>
    }
  }

  lemma KeysAfter(m: map<Thread, Transfer>, t: Thread, d: Transfer)
    ensures m[t := d].Keys == m.Keys + {t} && (m - {t}).Keys == m.Keys - {t}
  {
  }

  ghost predicate IsRun(states: seq<State>, steps: seq<Step>) {
    && |states| == |steps| + 1
    && Init(states[0])
    && forall i :: 0 <= i < |steps| ==> Enabled(states[i], steps[i]) && states[i + 1] == Next(states[i], steps[i])
  }

  lemma RunInv(states: seq<State>, steps: seq<Step>, i: nat)
    requires IsRun(states, steps) && i < |states|
    ensures Inv(states[i])
  {
    if i > 0 {
      RunInv(states, steps, i - 1);
      NextInv(states[i - 1], steps[i - 1]);
    }
  }

  /** A thread that gets through `down_timeout` does so with its own transfer's callback fired and
      no transfer in flight at all. */
  lemma PassesOnlyAfterOwnCallback(states: seq<State>, steps: seq<Step>, i: nat)
    requires IsRun(states, steps) && i < |steps| && steps[i].DownAgain?
    ensures states[i].waiting[steps[i].t] !in states[i].inFlight
    ensures states[i].inFlight == states[i + 1].inFlight == {}
  {
    RunInv(states, steps, i);
  }

  /** Thread t started transfer d. */
  ghost predicate StartedBy(states: seq<State>, steps: seq<Step>, t: Thread, d: Transfer)
    requires |steps| <= |states|
  {
    exists j :: 0 <= j < |steps| && StartsAt(states[j], steps[j], t, d)
  }

  predicate StartsAt(s: State, step: Step, t: Thread, d: Transfer) {
    step.Start? && step.t == t && s.started == d
  }

  /** The transfer a thread waits for, or is through with, is one that it started. */
  lemma {:induction false} OwnTransfer(states: seq<State>, steps: seq<Step>, i: nat, t: Thread)
    requires IsRun(states, steps) && i < |states|
    ensures t in states[i].waiting ==> StartedBy(states, steps[..i], t, states[i].waiting[t])
    ensures t in states[i].past ==> StartedBy(states, steps[..i], t, states[i].past[t])
  {
    if i > 0 {
      OwnTransfer(states, steps, i - 1, t);
      var s, s' := states[i - 1], states[i];
      assert s' == Next(s, steps[i - 1]);
      assert forall j :: 0 <= j < i - 1 ==> steps[..i][j] == steps[..i - 1][j];
      assert steps[..i][i - 1] == steps[i - 1];
      assert t in s'.waiting ==>
               (t in s.waiting && s'.waiting[t] == s.waiting[t]) || StartsAt(s, steps[i - 1], t, s'.waiting[t]);
      assert t in s'.past ==>
               (t in s.past && s'.past[t] == s.past[t]) || (t in s.waiting && s'.past[t] == s.waiting[t]);
    }
  }

  /** How a transfer ends for the thread that asked for it. */
  datatype Ending = Completed | NotStarted | TimedOut | Failed

  predicate Ends(step: Step, t: Thread, ending: Ending) {
    match step
    case Up(u) => u == t && ending.Completed?
    case StartFails(u) => u == t && ending.NotStarted?
    case TimesOut(u) => u == t && ending.TimedOut?
    case ReportError(u) => u == t && ending.Failed?
    case _ => false
  }

  /** The status of transfer d was an error, or its error word was never initialised. */
  ghost predicate WentWrong(states: seq<State>, steps: seq<Step>, d: Transfer)
    requires |steps| <= |states|
  {
    exists j :: 0 <= j < |steps| && FailsAt(states[j], steps[j], d)
  }

  predicate FailsAt(s: State, step: Step, d: Transfer) {
    step == Callback(d, false) || (step.Start? && step.uninitialised && s.started == d)
  }

  /** The thread of a transfer finds an error exactly if there was one, or the word was not initialised. */
  lemma {:induction false} FailedIff(states: seq<State>, steps: seq<Step>, i: nat, d: Transfer)
    requires IsRun(states, steps) && i < |states|
    ensures d in states[i].failed <==> WentWrong(states, steps[..i], d)
  {
    if i > 0 {
      FailedIff(states, steps, i - 1, d);
      assert states[i] == Next(states[i - 1], steps[i - 1]);
      assert d in states[i].failed <==> d in states[i - 1].failed || FailsAt(states[i - 1], steps[i - 1], d);
      assert forall j :: 0 <= j < i - 1 ==> steps[..i][j] == steps[..i - 1][j];
      assert steps[..i][i - 1] == steps[i - 1];
    }
  }

  /** A transfer that completes for its thread was started, is over, and nothing went wrong with it; one
      that is reported as failed was started, is over, and something did. */
  lemma CompletedMeansOver(states: seq<State>, steps: seq<Step>, i: nat, t: Thread, ending: Ending)
    requires IsRun(states, steps) && i < |steps| && Ends(steps[i], t, ending) && (ending.Completed? || ending.Failed?)
    ensures t in states[i].past
    ensures states[i].past[t] !in states[i].inFlight && states[i].past[t] < states[i].started
    ensures ending.Failed? <==> WentWrong(states, steps[..i], states[i].past[t])
  {
    RunInv(states, steps, i);
    assert t in states[i].past.Keys;
    PastStarted(states, steps, i);
    FailedIff(states, steps, i, states[i].past[t]);
  }

  /** Whichever way its transfer ends, a thread is done with the semaphore, and other threads are where
      they were. */
  lemma EndsOutside(s: State, step: Step, t: Thread, ending: Ending, u: Thread)
    requires Inv(s) && Enabled(s, step) && Ends(step, t, ending)
    ensures Outside(Next(s, step), t) && !Outside(s, t)
    ensures u != t ==> (u in Next(s, step).holding <==> u in s.holding)
    ensures u != t ==> (Outside(Next(s, step), u) <==> Outside(s, u))
    ensures Next(s, step).inFlight == s.inFlight && Next(s, step).failed == s.failed
  {
    assert t in s.waiting.Keys || t in s.past.Keys || t in s.holding;
  }

  /** With the token free, any thread can have a transfer, start to end, and the token is free again. */
  lemma UndisturbedTransfer(s: State, t: Thread)
    requires Inv(s) && Outside(s, t) && s.tokens == 1 && s.started !in s.failed
    ensures Enabled(s, Down(t))
    ensures var s1 := Next(s, Down(t));
            && Enabled(s1, Start(t, false))
            && var s2 := Next(s1, Start(t, false));
               && Enabled(s2, Callback(s.started, true))
               && var s3 := Next(s2, Callback(s.started, true));
                  && Enabled(s3, DownAgain(t))
                  && var s4 := Next(s3, DownAgain(t));
                     Enabled(s4, Up(t)) && Next(s4, Up(t)) == s.(started := s.started + 1)
  {
    NothingHeld(s);
    MapBack(s.waiting, t, s.started);
    hide Inv;
    var s2 := Next(Next(s, Down(t)), Start(t, false));
    assert s2.holding == {} && s2.inFlight == {s.started} && s2.waiting == s.waiting[t := s.started];
    var s4 := Next(Next(s2, Callback(s.started, true)), DownAgain(t));
    assert s4.inFlight == {} && s4.waiting == s.waiting && s4.past == map[t := s.started];
    assert map[t := s.started] - {t} == map[];
  }

  /** A transfer whose start is refused, or whose status is an error, is reported to its thread, and the
      token is gone. */
  lemma FailureLosesToken(s: State, t: Thread)
    requires Inv(s) && Outside(s, t) && s.tokens == 1
    ensures Enabled(s, Down(t))
    ensures var s1 := Next(s, Down(t));
            && Enabled(s1, StartFails(t)) && Next(s1, StartFails(t)).tokens == 0 && Outside(Next(s1, StartFails(t)), t)
            && Enabled(s1, Start(t, false))
            && var s2 := Next(s1, Start(t, false));
               && Enabled(s2, Callback(s.started, false))
               && var s3 := Next(s2, Callback(s.started, false));
                  && Enabled(s3, DownAgain(t))
                  && var s4 := Next(s3, DownAgain(t));
                     && !Enabled(s4, Up(t)) && Enabled(s4, ReportError(t))
                     && Next(s4, ReportError(t)).tokens == 0 && Next(s4, ReportError(t)).leaked == 1
  {
    NothingHeld(s);
    hide Inv;
  }

  /** A thread may time out at any moment of its wait, also with its transfer over; then the token is free
      for others. */
  lemma LateTimeoutFreesToken(s: State, t: Thread)
    requires Inv(s) && t in s.waiting
    ensures Enabled(s, TimesOut(t)) && Outside(Next(s, TimesOut(t)), t)
    ensures Next(s, TimesOut(t)).tokens == s.tokens
    ensures s.inFlight == s.holding == {} && s.past == map[] && s.leaked == 0 ==> s.tokens == 1
  {
    assert s.past == map[] ==> s.past.Keys == {};
  }

  lemma NothingHeld(s: State)
    requires Inv(s) && s.tokens == 1
    ensures s.holding == {} && s.inFlight == {} && s.past == map[]
  {
    assert |s.past.Keys| == 0;
  }

  lemma MapBack(m: map<Thread, Transfer>, t: Thread, d: Transfer)
    requires t !in m
    ensures m[t := d] - {t} == m
  {
  }

  lemma {:induction false} PastStarted(states: seq<State>, steps: seq<Step>, i: nat)
    requires IsRun(states, steps) && i < |states|
    ensures forall t :: t in states[i].waiting ==> states[i].waiting[t] < states[i].started
    ensures forall t :: t in states[i].past ==> states[i].past[t] < states[i].started
  {
    if i > 0 {
      PastStarted(states, steps, i - 1);
      assert states[i] == Next(states[i - 1], steps[i - 1]);
    }
  }

  /** Transfers never overlap: one starts only when none is in flight and no thread is through
      `down_timeout` without having released the semaphore. Another thread may still be waiting for its
      own transfer, which is over. */
  lemma TransfersNeverOverlap(states: seq<State>, steps: seq<Step>, i: nat)
    requires IsRun(states, steps) && i < |steps| && steps[i].Start?
    ensures states[i].inFlight == {} && states[i].past == map[] && states[i].holding == {steps[i].t}
    ensures states[i + 1].inFlight == {states[i].started}
  {
    RunInv(states, steps, i);
    OneHolder(states[i].holding, steps[i].t);
    assert |states[i].past.Keys| == 0;
  }

  lemma OneHolder(holding: set<Thread>, t: Thread)
    requires t in holding && |holding| <= 1
    ensures holding == {t}
  {
    assert |holding - {t}| == 0;
  }

  /** Tokens lost over a stretch of steps: one for each transfer that fails to start and one for
      each reported callback error, none for a timeout. */
  function Losses(steps: seq<Step>): nat {
    if steps == [] then 0 else
      var last := steps[|steps| - 1];
      Losses(steps[..|steps| - 1]) + if last.StartFails? || last.ReportError? then 1 else 0
  }

  lemma {:induction false} LeakedCountsLosses(states: seq<State>, steps: seq<Step>, i: nat)
    requires IsRun(states, steps) && i < |states|
    ensures states[i].leaked == Losses(steps[..i]) <= 1
  {
    RunInv(states, steps, i);
    if i > 0 {
      LeakedCountsLosses(states, steps, i - 1);
      assert steps[..i][..i - 1] == steps[..i - 1];
    }
  }

  /** The first loss is the last: from then on no thread gets through either `down`, and no
      transfer is in flight, for the rest of the run. */
  lemma {:induction false} OneLossStopsEverything(states: seq<State>, steps: seq<Step>, i: nat, j: nat)
    requires IsRun(states, steps) && i <= j < |states| && states[i].leaked > 0
    ensures states[j].tokens == 0 && states[j].inFlight == {} && states[j].leaked == 1
    ensures j < |steps| ==> steps[j].TimesOut?
  {
    RunInv(states, steps, j);
    if i < j {
      OneLossStopsEverything(states, steps, i, j - 1);
    }
    if j < |steps| {
      assert states[j].holding == {} && states[j].past.Keys == {};
    }
  }
}

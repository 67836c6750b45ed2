/** Which ways of using the two nodes make a run safe, and runs that reach an established connection,
    a crossing close, and a node that accepts its own entry. */
module HandshakeRuns {
  import opened Handshake
  import opened HandshakeEntries
  import opened HandshakeSafety
  import opened PortLists

  // ---------------------------------------------------------------- where entries and messages come from

  predicate Connected(s: State, p: Port) { (A, p) in s.connected || (B, p) in s.connected }

  ghost predicate ListsTraced(s: State) {
    forall slot :: ListAt(s, slot).chain != [] ==> Connected(s, slot.port)
  }

  ghost predicate ChannelTraced(channel: seq<Msg>, from: Side, connected: set<(Side, Port)>) {
    forall m :: m in channel && m.kind.Connect? ==> (from, m.srcPort) in connected
  }

  /** Every entry for a port goes back to a connect on it by one of the nodes, and so does every accept;
      a CONNECT on its way was sent by a connect of the other node. */
  ghost predicate Traced(s: State) {
    && ListsTraced(s)
    && (forall x, p :: (x, p) in s.accepted ==> Connected(s, p))
    && (forall x :: ChannelTraced(Channel(s, x), Peer(x), s.connected))
  }

  lemma MoveTraced(s: State, s': State, from: Slot, i: nat, to: Slot)
    requires ListsTraced(s) && MovedOne(s, s', from, i, to) && from.port == to.port && s.connected <= s'.connected
    ensures ListsTraced(s') && Connected(s', from.port)
  {
  }

  lemma AddTraced(s: State, s': State, slot: Slot)
    requires ListsTraced(s) && AddedOne(s, s', slot) && s.connected <= s'.connected && Connected(s', slot.port)
    ensures ListsTraced(s')
  {
  }

  lemma RetireTraced(s: State, s': State, slot: Slot)
    requires ListsTraced(s) && RetiredOne(s, s', slot) && s.connected <= s'.connected
    ensures ListsTraced(s')
  {
  }

  lemma HandlerTraced(s: State, x: Side, m: Msg, s': State)
    requires ListsTraced(s) && HandlerEffect(s, x, m, s') && s'.connected == s.connected
    requires m.kind.Connect? ==> Connected(s, m.srcPort)
    ensures ListsTraced(s')
  {
    hide ListsTraced, MovedOne, AddedOne, RetiredOne;
    var conns, incoming := Slot(x, Conns, m.srcPort), Slot(x, Incoming, m.srcPort);
    if Unmoved(s, s') {
      UnmovedTraced(s, s');
    } else {
      match m.kind {
        case Connect => AddTraced(s, s', incoming);
        case Close => RetireTraced(s, s', conns);
        case ConnectSuccess => MoveTraced(s, s', incoming, 0, Slot(x, Finishing, m.srcPort));
        case _ =>
      }
    }
  }

  lemma UnmovedTraced(s: State, s': State)
    requires ListsTraced(s) && Unmoved(s, s') && s.connected <= s'.connected
    ensures ListsTraced(s')
  {
  }

  lemma NextLists(s: State, step: Step)
    requires Inv(s) && Traced(s) && Enabled(s, step)
    ensures ListsTraced(Next(s, step)) && (step.AcceptTake? ==> Connected(Next(s, step), step.p))
  {
    var s' := Next(s, step);
    WhoCreatesWhoRetires(s, step);
    NextHistory(s, step);
    assert step.Deliver? && Channel(s, step.x)[0].kind.Connect? ==> Connected(s, Channel(s, step.x)[0].srcPort) by {
      if step.Deliver? { assert ChannelTraced(Channel(s, step.x), Peer(step.x), s.connected); }
    }
    hide ListsTraced, MovedOne, AddedOne, RetiredOne, Unmoved, HandlerEffect, Next, Inv, ChannelTraced;
    match step {
      case BeginConnect(x, p) => AddTraced(s, s', Slot(x, Pending, p));
      case FinishConnect(x, p, i) => MoveTraced(s, s', Slot(x, Pending, p), i, Slot(x, Incoming, p));
      case AcceptTake(x, p) => MoveTraced(s, s', Slot(x, Incoming, p), 0, Slot(x, Hand, p));
      case AcceptInstall(x, p, i) => MoveTraced(s, s', Slot(x, Hand, p), i, Slot(x, Conns, p));
      case FinishSuccess(x) =>
        MoveTraced(s, s', Slot(x, Finishing, s.finishing[x]), 0, Slot(x, Conns, s.finishing[x]));
      case CloseSocket(x, p) =>
        if Unmoved(s, s') { UnmovedTraced(s, s'); } else { RetireTraced(s, s', Slot(x, Conns, p)); }
      case Deliver(x) =>
        PoppedTraced(s, x);
        HandlerTraced(Popped(s, x), x, Channel(s, x)[0], s');
      case _ => UnmovedTraced(s, s');
    }
  }

  lemma PoppedTraced(s: State, x: Side)
    requires Channel(s, x) != [] && ListsTraced(s)
    ensures ListsTraced(Popped(s, x)) && Popped(s, x).connected == s.connected
  {
    assert forall slot :: ListAt(Popped(s, x), slot) == ListAt(s, slot);
  }

  /** The message a step other than a delivery sends, if any. */
  function Message(s: State, step: Step): seq<Msg> {
    match step
    case BeginConnect(x, p) => [Msg(Connect, p, p, x)]
    case AcceptNotify(x, p) => [Msg(ConnectSuccess, p, p, x)]
    case SendRegular(x, p) => [Msg(Regular, p, p, x)]
    case CloseSocket(x, p) => if Holds(s, Slot(x, Conns, p), p, Peer(x)) then [Msg(Close, p, p, x)] else []
    case _ => []
  }

  lemma OwnChannels(s: State, step: Step, x: Side)
    requires Enabled(s, step) && !step.Deliver?
    ensures Channel(Next(s, step), x) == Channel(s, x) + if x == Peer(step.x) then Message(s, step) else []
  {
    hide FirstMatch, ListAt, LocalTcpRcv;
  }

  lemma NextChannels(s: State, step: Step, x: Side)
    requires Traced(s) && Enabled(s, step)
    ensures ChannelTraced(Channel(Next(s, step), x), Peer(x), Next(s, step).connected)
  {
    NextHistory(s, step);
    assert ChannelTraced(Channel(s, x), Peer(x), s.connected);
    if step.Deliver? {
      HandlerHistory(Popped(s, step.x), step.x, Channel(s, step.x)[0]);
      PoppedChannels(s, step.x, x);
      hide FirstMatch, ListAt, LocalTcpRcv, Traced, ChannelTraced, Popped;
      assert Channel(Next(s, step), x) == Channel(Popped(s, step.x), x);
    } else {
      OwnChannels(s, step, x);
      hide Channel, Next, Traced, Enabled, Holds;
    }
  }

  lemma PoppedChannels(s: State, from: Side, x: Side)
    requires Channel(s, from) != [] && ChannelTraced(Channel(s, x), Peer(x), s.connected)
    ensures ChannelTraced(Channel(Popped(s, from), x), Peer(x), s.connected)
  {
    assert forall m :: m in Channel(Popped(s, from), x) ==> m in Channel(s, x);
  }

  lemma NextTraced(s: State, step: Step)
    requires Inv(s) && Traced(s) && Enabled(s, step)
    ensures Traced(Next(s, step))
  {
    NextLists(s, step);
    NextHistory(s, step);
    hide Inv, ListsTraced, ChannelTraced, Next, Channel;
    forall x
      ensures ChannelTraced(Channel(Next(s, step), x), Peer(x), Next(s, step).connected)
    {
      NextChannels(s, step, x);
    }
  }

  // ---------------------------------------------------------------- nodes that keep to their roles

  /** On no port does a node both connect and accept. */
  ghost predicate SeparateRoles(steps: seq<Step>) {
    forall x, p :: !(BeginConnect(x, p) in steps && AcceptTake(x, p) in steps)
  }

  /** No close; data only over an established connection; and a CONNECT_SUCCESS arrives once connect has
      inserted its entry. */
  ghost predicate Timely(s: State, step: Step)
    requires Enabled(s, step)
  {
    match step
    case CloseSocket(_, _) => false
    case SendRegular(x, p) => |ListAt(s, Slot(x, Conns, p)).chain| > s.owed[(x, p)]
    case Deliver(x) =>
      Channel(s, x)[0].kind.ConnectSuccess? ==> ListAt(s, Slot(x, Pending, Channel(s, x)[0].srcPort)).chain == []
    case _ => true
  }

  /** The history is that of the steps taken. */
  ghost predicate Recorded(s: State, steps: seq<Step>) {
    && (forall x, p :: (x, p) in s.connected ==> BeginConnect(x, p) in steps)
    && (forall x, p :: (x, p) in s.accepted ==> AcceptTake(x, p) in steps)
  }

  lemma AnnouncerAccepted(s: State, x: Side)
    requires SafeInv(s) && Enabled(s, Deliver(x)) && Channel(s, x)[0].kind.ConnectSuccess?
    ensures (Peer(x), Channel(s, x)[0].srcPort) in s.accepted
  {
    var p := Channel(s, x)[0].srcPort;
    hide Inv, Linked, EndOf, FirstMatch, ListAt, Delivery;
    assert PortOk(s, p);
    SafeDelivery(s, x, p);
    EndFacts(s, Peer(x), p);
  }

  /** Between nodes that keep to their roles a timely CONNECT_SUCCESS is answered. */
  lemma TimelyIsAnswered(s: State, x: Side, steps: seq<Step>)
    requires SafeInv(s) && Traced(s) && Recorded(s, steps) && SeparateRoles(steps)
    requires Enabled(s, Deliver(x)) && Timely(s, Deliver(x)) && Channel(s, x)[0].kind.ConnectSuccess?
    ensures Answered(s, x, Channel(s, x)[0].srcPort)
  {
    hide Inv, Answered, ListsTraced, ChannelTraced, PortOk, FirstMatch, ListAt, Delivery, Channel;
    var p := Channel(s, x)[0].srcPort;
    AnnouncerAccepted(s, x);
    assert Connected(s, p);
    assert (x, p) in s.connected && (x, p) !in s.accepted;
    EndFacts(s, x, p);
    SuccessCompletesIff(s, x);
  }

  /** So with separate roles the only thing left to chance is whether connect is quick enough. */
  lemma {:induction false} SeparateRolesUpTo(states: seq<State>, steps: seq<Step>, i: nat)
    requires IsRun(states, steps) && SeparateRoles(steps) && i < |states|
    requires forall j :: 0 <= j < |steps| ==> Timely(states[j], steps[j])
    ensures SafeInv(states[i]) && Traced(states[i]) && Recorded(states[i], steps)
    ensures forall j :: 0 <= j < i ==> Admissible(states[j], steps[j])
  {
    if i == 0 {
      InitSafe(states[0]);
      assert forall slot :: ListAt(states[0], slot).chain == [];
      assert forall x :: Channel(states[0], x) == [];
    } else {
      SeparateRolesUpTo(states, steps, i - 1);
      TimelyStep(states[i - 1], steps[i - 1], steps);
      assert states[i] == Next(states[i - 1], steps[i - 1]);
    }
  }

  lemma TimelyStep(s: State, step: Step, steps: seq<Step>)
    requires SafeInv(s) && Traced(s) && Recorded(s, steps) && SeparateRoles(steps)
    requires step in steps && Enabled(s, step) && Timely(s, step)
    ensures Admissible(s, step)
    ensures SafeInv(Next(s, step)) && Traced(Next(s, step)) && Recorded(Next(s, step), steps)
  {
    hide Inv, PortOk, Traced, Next, Answered;
    if step.Deliver? && Channel(s, step.x)[0].kind.ConnectSuccess? {
      TimelyIsAnswered(s, step.x, steps);
    }
    SafeStep(s, step);
    NextTraced(s, step);
    NextHistory(s, step);
  }

  lemma SeparateRolesAreSafe(states: seq<State>, steps: seq<Step>)
    requires IsRun(states, steps) && SeparateRoles(steps)
    requires forall j :: 0 <= j < |steps| ==> Timely(states[j], steps[j])
    ensures IsSafeRun(states, steps)
  {
    SeparateRolesUpTo(states, steps, |steps|);
    hide Enabled, Next, Admissible;
  }

  // ---------------------------------------------------------------- scenes of a run

  /** The lists of the state, in full; no list not mentioned has an entry. */
  ghost predicate OnLists(s: State, m: map<Slot, seq<Entry>>) {
    forall slot :: ListAt(s, slot) == if slot in m then List(m[slot], true) else Empty()
  }

  ghost predicate Scene(s: State, m: map<Slot, seq<Entry>>, x: Side, toX: seq<Msg>, toPeer: seq<Msg>) {
    OnLists(s, m) && Channel(s, x) == toX && Channel(s, Peer(x)) == toPeer && s.finishing == map[]
  }

  function Own(x: Side, p: Port): Entry { Entry(0, p, Peer(x)) }

  function Clone(x: Side, p: Port): Entry { Entry(1, p, x) }

  lemma AddOn(s: State, s': State, m: map<Slot, seq<Entry>>, slot: Slot, e: Entry)
    requires OnLists(s, m) && slot !in m && s'.lists == AddTo(s, slot, e).lists
    ensures OnLists(s', m[slot := [e]])
  {
    assert ListAt(s, slot) == Empty();
    assert Added(Empty(), e) == List([e], true);
    forall other
      ensures ListAt(s', other) == if other == slot then List([e], true) else ListAt(s, other)
    {
    }
  }

  lemma MoveOn(s: State, s': State, m: map<Slot, seq<Entry>>, from: Slot, to: Slot, e: Entry)
    requires OnLists(s, m) && from in m && m[from] == [e] && to !in m
    requires ListAt(s, from).chain != [] ==> s'.lists == Move(s, from, 0, to).lists
    ensures ListAt(s, from).chain == [e] && OnLists(s', (m - {from})[to := [e]])
  {
    assert ListAt(s, from) == List([e], true) && ListAt(s, to) == Empty();
    assert TakenOut(List([e], true), 0) == Empty() && Without([e], 0) == [];
    assert Added(Empty(), e) == List([e], true);
    forall other
      ensures ListAt(s', other) ==
              if other == to then List([e], true) else if other == from then Empty() else ListAt(s, other)
    {
    }
  }

  /** A connect on p, with nothing else about. */
  lemma Connects(s: State, x: Side, p: Port) returns (s1: State, s2: State)
    requires Scene(s, map[], x, [], []) && s.nextSk == 0
    ensures Enabled(s, BeginConnect(x, p)) && s1 == Next(s, BeginConnect(x, p))
    ensures Enabled(s1, FinishConnect(x, p, 0)) && s2 == Next(s1, FinishConnect(x, p, 0))
    ensures Scene(s2, map[Slot(x, Incoming, p) := [Own(x, p)]], x, [], [Msg(Connect, p, p, x)])
    ensures s2.nextSk == 1 && s2.owed == s.owed && s2.listening == s.listening
    ensures Channel(s2, Peer(x)) == [Msg(Connect, p, p, x)]
  {
    hide FirstMatch, AddTo, Move, OnLists, ListAt;
    var pending, incoming := Slot(x, Pending, p), Slot(x, Incoming, p);
    AddFields(s, pending, Own(x, p));
    s1 := Next(s, BeginConnect(x, p));
    AddOn(s, s1, map[], pending, Own(x, p));
    OneEntry(s1, map[pending := [Own(x, p)]], pending);
    MoveFields(s1, pending, 0, incoming);
    s2 := Next(s1, FinishConnect(x, p, 0));
    MoveOn(s1, s2, map[pending := [Own(x, p)]], pending, incoming, Own(x, p));
    assert (map[pending := [Own(x, p)]] - {pending})[incoming := [Own(x, p)]] == map[incoming := [Own(x, p)]];
  }

  lemma OneEntry(s: State, m: map<Slot, seq<Entry>>, slot: Slot)
    requires OnLists(s, m)
    ensures ListAt(s, slot).chain == if slot in m then m[slot] else []
  {
  }

  /** The CONNECT arrives, at a node that listens on the port or not. */
  lemma ConnectArrives(s: State, m: map<Slot, seq<Entry>>, x: Side, p: Port) returns (s': State)
    requires Scene(s, m, x, [], [Msg(Connect, p, p, x)]) && s.nextSk == 1
    requires Slot(Peer(x), Conns, p) !in m && Slot(Peer(x), Incoming, p) !in m
    ensures Enabled(s, Deliver(Peer(x))) && s' == Next(s, Deliver(Peer(x))) && s'.owed == s.owed
    ensures var heard := (Peer(x), p) in s.listening;
            Scene(s', if heard then m[Slot(Peer(x), Incoming, p) := [Clone(x, p)]] else m, x, [], [])
  {
    hide AddTo, OnLists, ListAt;
    var y := Peer(x);
    var popped, incoming := Popped(s, y), Slot(y, Incoming, p);
    SameOn(s, popped, m);
    OneEntry(popped, m, Slot(y, Conns, p));
    AddFields(popped, incoming, Clone(x, p));
    s' := Next(s, Deliver(y));
    if (y, p) in s.listening {
      AddOn(popped, s', m, incoming, Clone(x, p));
    }
  }

  lemma SameOn(s: State, s': State, m: map<Slot, seq<Entry>>)
    requires OnLists(s, m) && s'.lists == s.lists
    ensures OnLists(s', m)
  {
    assert forall slot :: ListAt(s', slot) == ListAt(s, slot);
  }

  /** Node z accepts the entry on its incoming list and announces it. */
  lemma Accepts(s: State, m: map<Slot, seq<Entry>>, z: Side, p: Port, e: Entry)
    returns (s1: State, s2: State, s3: State)
    requires Scene(s, m[Slot(z, Incoming, p) := [e]], z, [], []) && s.owed == multiset{}
    requires Slot(z, Incoming, p) !in m && Slot(z, Hand, p) !in m && Slot(z, Conns, p) !in m
    ensures Enabled(s, AcceptTake(z, p)) && s1 == Next(s, AcceptTake(z, p))
    ensures Enabled(s1, AcceptInstall(z, p, 0)) && s2 == Next(s1, AcceptInstall(z, p, 0))
    ensures Enabled(s2, AcceptNotify(z, p)) && s3 == Next(s2, AcceptNotify(z, p))
    ensures Scene(s3, m[Slot(z, Conns, p) := [e]], z, [], [Msg(ConnectSuccess, p, p, z)]) && s3.owed == multiset{}
  {
    hide FirstMatch, Move, OnLists, ListAt;
    var incoming, hand, conns := Slot(z, Incoming, p), Slot(z, Hand, p), Slot(z, Conns, p);
    OneEntry(s, m[incoming := [e]], incoming);
    MoveFields(s, incoming, 0, hand);
    s1 := Next(s, AcceptTake(z, p));
    MoveOn(s, s1, m[incoming := [e]], incoming, hand, e);
    assert (m[incoming := [e]] - {incoming})[hand := [e]] == m[hand := [e]];
    OneEntry(s1, m[hand := [e]], hand);
    MoveFields(s1, hand, 0, conns);
    s2 := Next(s1, AcceptInstall(z, p, 0));
    MoveOn(s1, s2, m[hand := [e]], hand, conns, e);
    assert (m[hand := [e]] - {hand})[conns := [e]] == m[conns := [e]];
    s3 := Next(s2, AcceptNotify(z, p));
    SameOn(s2, s3, m[conns := [e]]);
  }

  /** The first half of a CONNECT_SUCCESS, at a node whose incoming list holds one entry for it. */
  lemma SuccessArrives(s: State, m: map<Slot, seq<Entry>>, x: Side, p: Port) returns (s': State)
    requires Scene(s, m[Slot(x, Incoming, p) := [Own(x, p)]], x, [Msg(ConnectSuccess, p, p, Peer(x))], [])
    requires Slot(x, Incoming, p) !in m && Slot(x, Finishing, p) !in m
    ensures Enabled(s, Deliver(x)) && s' == Next(s, Deliver(x)) && s'.owed == s.owed && s'.finishing == map[x := p]
    ensures OnLists(s', m[Slot(x, Finishing, p) := [Own(x, p)]]) && Channel(s', x) == Channel(s', Peer(x)) == []
  {
    hide Move, OnLists, ListAt;
    var incoming, finishing := Slot(x, Incoming, p), Slot(x, Finishing, p);
    var e, popped := Own(x, p), Popped(s, x);
    SameOn(s, popped, m[incoming := [e]]);
    OneEntry(popped, m[incoming := [e]], incoming);
    MoveFields(popped, incoming, 0, finishing);
    s' := Next(s, Deliver(x));
    MoveOn(popped, s', m[incoming := [e]], incoming, finishing, e);
    assert (m[incoming := [e]] - {incoming})[finishing := [e]] == m[finishing := [e]];
  }

  /** The CONNECT_SUCCESS arrives where connect has inserted its entry. */
  lemma Completes(s: State, m: map<Slot, seq<Entry>>, x: Side, p: Port) returns (s1: State, s2: State)
    requires Scene(s, m[Slot(x, Incoming, p) := [Own(x, p)]], x, [Msg(ConnectSuccess, p, p, Peer(x))], [])
    requires Slot(x, Incoming, p) !in m && Slot(x, Finishing, p) !in m && Slot(x, Conns, p) !in m
    ensures Enabled(s, Deliver(x)) && s1 == Next(s, Deliver(x))
    ensures Enabled(s1, FinishSuccess(x)) && s2 == Next(s1, FinishSuccess(x))
    ensures Scene(s2, m[Slot(x, Conns, p) := [Own(x, p)]], x, [], []) && s2.owed == s.owed
  {
    s1 := SuccessArrives(s, m, x, p);
    hide Move, OnLists, ListAt, Delivery;
    var finishing, conns, e := Slot(x, Finishing, p), Slot(x, Conns, p), Own(x, p);
    OneEntry(s1, m[finishing := [e]], finishing);
    MoveFields(s1, finishing, 0, conns);
    s2 := Next(s1, FinishSuccess(x));
    MoveOn(s1, s2, m[finishing := [e]], finishing, conns, e);
    assert (m[finishing := [e]] - {finishing})[conns := [e]] == m[conns := [e]];
  }

  // ---------------------------------------------------------------- three runs

  lemma InitScene(s: State, x: Side)
    requires Init(s)
    ensures Scene(s, map[], x, [], []) && s.nextSk == 0 && s.owed == multiset{} && s.listening == {}
  {
  }

  /** One more step of a run. */
  lemma RunOn(states: seq<State>, steps: seq<Step>, step: Step)
    requires IsSafeRun(states, steps) && Admissible(states[|steps|], step)
    ensures IsSafeRun(states + [Next(states[|steps|], step)], steps + [step])
  {
    hide Admissible, Enabled, Next;
  }

  lemma RunOnTwice(states: seq<State>, steps: seq<Step>, s1: State, s2: State, step1: Step, step2: Step)
    requires IsSafeRun(states, steps)
    requires Admissible(states[|steps|], step1) && s1 == Next(states[|steps|], step1)
    requires Admissible(s1, step2) && s2 == Next(s1, step2)
    ensures IsSafeRun(states + [s1, s2], steps + [step1, step2])
  {
    hide Admissible, Enabled, Next;
    RunOn(states, steps, step1);
    RunOn(states + [s1], steps + [step1], step2);
    assert states + [s1] + [s2] == states + [s1, s2] && steps + [step1] + [step2] == steps + [step1, step2];
  }

  /** A connect on p by x, to a node that listens there or not, as a run from the start. */
  lemma ConnectRun(x: Side, p: Port, listen: bool) returns (states: seq<State>, steps: seq<Step>)
    ensures IsSafeRun(states, steps) && |steps| == 4 && steps[0] == Listen(if listen then Peer(x) else x, p)
    ensures var m := map[Slot(x, Incoming, p) := [Own(x, p)]];
            Scene(states[4], if listen then m[Slot(Peer(x), Incoming, p) := [Clone(x, p)]] else m, x, [], [])
    ensures states[4].owed == multiset{}
  {
    var first := Listen(if listen then Peer(x) else x, p);
    states := ListenRun(x, first);
    steps := [first];
    var s2, s3 := Connects(states[1], x, p);
    var s4 := ConnectArrives(s3, map[Slot(x, Incoming, p) := [Own(x, p)]], x, p);
    hide Next, Enabled, Scene, Answered;
    RunOnTwice(states, steps, s2, s3, BeginConnect(x, p), FinishConnect(x, p, 0));
    RunOn(states + [s2, s3], steps + [BeginConnect(x, p), FinishConnect(x, p, 0)], Deliver(Peer(x)));
    states := states + [s2, s3] + [s4];
    steps := steps + [BeginConnect(x, p), FinishConnect(x, p, 0)] + [Deliver(Peer(x))];
  }

  lemma ListenRun(x: Side, first: Step) returns (states: seq<State>)
    requires first.Listen?
    ensures IsSafeRun(states, [first])
    ensures var s := states[1];
            && Scene(s, map[], x, [], []) && s.nextSk == 0 && s.owed == multiset{}
            && s.listening == {(first.x, first.p)}
  {
    var s0 := State(map[], {}, multiset{}, map[], map[], 0, {}, {}, {});
    var s1 := Next(s0, first);
    InitScene(s0, x);
    SameOn(s0, s1, map[]);
    states := [s0, s1];
  }

  /** Node z accepts, and announces it, in such a run. */
  lemma AcceptRun(states: seq<State>, steps: seq<Step>, m: map<Slot, seq<Entry>>, z: Side, p: Port, e: Entry)
    returns (states': seq<State>, steps': seq<Step>)
    requires IsSafeRun(states, steps) && states[|steps|].owed == multiset{}
    requires Scene(states[|steps|], m[Slot(z, Incoming, p) := [e]], z, [], [])
    requires Slot(z, Incoming, p) !in m && Slot(z, Hand, p) !in m && Slot(z, Conns, p) !in m
    ensures IsSafeRun(states', steps') && |steps'| == |steps| + 3
    ensures var s := states'[|steps'|];
            Scene(s, m[Slot(z, Conns, p) := [e]], z, [], [Msg(ConnectSuccess, p, p, z)]) && s.owed == multiset{}
  {
    var s1, s2, s3 := Accepts(states[|steps|], m, z, p, e);
    hide Next, Enabled, OnLists, ListAt, Channel, Answered, Scene;
    RunOnTwice(states, steps, s1, s2, AcceptTake(z, p), AcceptInstall(z, p, 0));
    var more := steps + [AcceptTake(z, p), AcceptInstall(z, p, 0)];
    RunOn(states + [s1, s2], more, AcceptNotify(z, p));
    states', steps' := states + [s1, s2] + [s3], more + [AcceptNotify(z, p)];
  }

  /** An undisturbed connect and accept, on any port: both ends are established. */
  lemma EstablishedReachable(x: Side, p: Port) returns (states: seq<State>, steps: seq<Step>)
    ensures IsSafeRun(states, steps) && |steps| == 9
    ensures var m := map[Slot(Peer(x), Conns, p) := [Clone(x, p)], Slot(x, Conns, p) := [Own(x, p)]];
            Scene(states[9], m, x, [], [])
  {
    var y, own, clone := Peer(x), Own(x, p), Clone(x, p);
    var incoming := map[Slot(x, Incoming, p) := [own]];
    states, steps := ConnectRun(x, p, true);
    states, steps := AcceptRun(states, steps, incoming, y, p, clone);
    var conns := map[Slot(y, Conns, p) := [clone]];
    assert incoming[Slot(y, Conns, p) := [clone]] == conns[Slot(x, Incoming, p) := [own]];
    var s := states[7];
    var s1, s2 := Completes(s, conns, x, p);
    OneEntry(s, conns[Slot(x, Incoming, p) := [own]], Slot(x, Incoming, p));
    hide Next, Enabled, OnLists, ListAt, Channel;
    RunOnTwice(states, steps, s1, s2, Deliver(x), FinishSuccess(x));
    states, steps := states + [s1, s2], steps + [Deliver(x), FinishSuccess(x)];
  }

  /** From there both ends may close at once, and both nodes then follow a NULL pointer. */
  lemma CrossingClosesCrash(p: Port) returns (states: seq<State>, steps: seq<Step>)
    ensures IsSafeRun(states, steps)
    ensures Enabled(states[|steps|], CloseSocket(A, p))
    ensures Enabled(Next(states[|steps|], CloseSocket(A, p)), CloseSocket(B, p))
    ensures var s := Next(Next(states[|steps|], CloseSocket(A, p)), CloseSocket(B, p));
            && Channel(s, A) != [] && Delivery(s, A).verdict == Crashed
            && Channel(s, B) != [] && Delivery(s, B).verdict == Crashed
  {
    states, steps := EstablishedReachable(A, p);
    SafeInEveryRun(states, steps, 9);
    OneEntry(states[9], map[Slot(B, Conns, p) := [Clone(A, p)], Slot(A, Conns, p) := [Own(A, p)]], Slot(A, Conns, p));
    OneEntry(states[9], map[Slot(B, Conns, p) := [Clone(A, p)], Slot(A, Conns, p) := [Own(A, p)]], Slot(B, Conns, p));
    hide Next, Enabled, IsSafeRun, PortOk, Inv, OnLists, ListAt, Delivery;
    SimultaneousCloseCrashes(states[9], p);
  }

  /** Accepting one's own entry: a node that connects to a node that does not listen on the port, and then
      accepts on the same port, takes the entry its connect has inserted and announces it. The data it
      sends next is rejected, although its own `conns` holds the connection. */
  lemma OwnAcceptRejected(x: Side, p: Port) returns (states: seq<State>, steps: seq<Step>)
    ensures IsSafeRun(states, steps) && |steps| == 7
    ensures var s := states[7];
            && |ListAt(s, Slot(x, Conns, p)).chain| > s.owed[(x, p)] && Enabled(s, Deliver(Peer(x)))
            && Delivery(Next(Settled(s, Peer(x)), SendRegular(x, p)), Peer(x)).verdict == Rejected
  {
    states, steps := ConnectRun(x, p, false);
    assert map[Slot(x, Incoming, p) := [Own(x, p)]] == map[][Slot(x, Incoming, p) := [Own(x, p)]];
    states, steps := AcceptRun(states, steps, map[], x, p, Own(x, p));
    SafeInEveryRun(states, steps, 7);
    var m := map[][Slot(x, Conns, p) := [Own(x, p)]];
    OneEntry(states[7], m, Slot(x, Conns, p));
    OneEntry(states[7], m, Slot(Peer(x), Conns, p));
    OneEntry(states[7], m, Slot(Peer(x), Incoming, p));
    hide Next, Enabled, IsSafeRun, PortOk, Inv, OnLists, ListAt, Delivery, Settled;
    AnnouncedDataAcceptedIff(states[7], x, p);
  }

  /** A close takes the entry off one end, and its CLOSE, on arrival, off the other; then the port can be
      used again. */
  lemma CloseTearsDown(s: State, x: Side, p: Port)
    requires Inv(s) && Channel(s, Peer(x)) == [] && Peer(x) !in s.finishing
    requires |ListAt(s, Slot(x, Conns, p)).chain| == |ListAt(s, Slot(Peer(x), Conns, p)).chain| == 1
    ensures Enabled(s, CloseSocket(x, p))
    ensures var s1 := Next(s, CloseSocket(x, p));
            && Channel(s1, Peer(x)) == [Msg(Close, p, p, x)] && Enabled(s1, Deliver(Peer(x)))
            && var s2 := Next(s1, Deliver(Peer(x)));
               && ListAt(s2, Slot(x, Conns, p)).chain == ListAt(s2, Slot(Peer(x), Conns, p)).chain == []
               && Channel(s2, Peer(x)) == [] && s2.listening == s.listening
               && Enabled(s2, Listen(Peer(x), p)) && Enabled(s2, BeginConnect(x, p))
  {
    var y := Peer(x);
    hide Accounted, Keyed, Addressed, FirstMatch, LocalTcpRcv;
    MatchIsHead(s, Slot(x, Conns, p), p, y);
    var s1 := Next(s, CloseSocket(x, p));
    WhoCreatesWhoRetires(s, CloseSocket(x, p));
    NextInv(s, CloseSocket(x, p));
    NextHistory(s, CloseSocket(x, p));
    CrashIffCloseUnknown(s1, y);
    WhoCreatesWhoRetires(s1, Deliver(y));
    NextHistory(s1, Deliver(y));
    HandlerHistory(Popped(s1, y), y, Channel(s1, y)[0]);
  }
}

/** No connection entry is ever lost, duplicated, or in two tables at once: over every run of the
    two nodes, with any number of connects and closes on any ports. */
module HandshakeEntries {
  import opened Handshake
  import opened PortLists

  /** Entry i of the list at `slot` stands for socket sk. */
  ghost predicate On(s: State, slot: Slot, i: nat, sk: nat) {
    i < |ListAt(s, slot).chain| && ListAt(s, slot).chain[i].sk == sk
  }

  /** The sockets in `live` are on the lists, each exactly once, and no others are. */
  ghost predicate Accounted(s: State, live: set<nat>) {
    && (forall slot, i, sk :: On(s, slot, i, sk) ==> sk in live)
    && (forall sk :: sk in live ==> exists slot, i :: On(s, slot, i, sk))
    && (forall slot, i, slot', j, sk :: On(s, slot, i, sk) && On(s, slot', j, sk) ==> slot == slot' && i == j)
  }

  /** The sockets created and not closed yet. */
  ghost function Live(s: State): set<nat> {
    set sk | 0 <= sk < s.nextSk && sk !in s.closed
  }

  /** The tail pointer is right, and every entry has the port of the list and the other node as its
      key: with both ports of a connection equal, two nodes cannot have any other key. */
  ghost predicate KeyedList(l: List<Entry>, p: Port, rip: Side) {
    l.tailOk && forall e :: e in l.chain ==> e.rport == p && e.rip == rip
  }

  ghost predicate Keyed(s: State) {
    forall slot :: KeyedList(ListAt(s, slot), slot.port, Peer(slot.side))
  }

  /** Messages on their way to x come from the other node and carry the same port twice. */
  ghost predicate AddressedTo(channel: seq<Msg>, x: Side) {
    forall m :: m in channel ==> m.srcPort == m.destPort && m.src == Peer(x)
  }

  ghost predicate Addressed(s: State) {
    forall x :: AddressedTo(Channel(s, x), x)
  }

  ghost predicate Inv(s: State) {
    Keyed(s) && Addressed(s) && Accounted(s, Live(s)) && forall sk :: sk in s.closed ==> sk < s.nextSk
  }

  lemma AddAccounted(s: State, slot: Slot, e: Entry, live: set<nat>)
    requires Accounted(s, live) && e.sk !in live && ListAt(s, slot).tailOk
    ensures Accounted(AddTo(s, slot, e), live + {e.sk})
  {
    var s' := AddTo(s, slot, e);
    var n := |ListAt(s, slot).chain|;
    forall other, i, sk
      ensures On(s', other, i, sk) <==> On(s, other, i, sk) || (other == slot && i == n && sk == e.sk)
    {
    }
    assert On(s', slot, n, e.sk);
    forall sk | sk in live
      ensures exists other, i :: On(s', other, i, sk)
    {
      var other, i :| On(s, other, i, sk);
      assert On(s', other, i, sk);
    }
  }

  lemma TakeAccounted(s: State, slot: Slot, i: nat, live: set<nat>)
    requires Accounted(s, live) && i < |ListAt(s, slot).chain|
    ensures Accounted(TakeFrom(s, slot, i), live - {ListAt(s, slot).chain[i].sk})
  {
    var s' := TakeFrom(s, slot, i);
    var taken := ListAt(s, slot).chain[i].sk;
    forall other, j: nat, sk: nat
      ensures On(s', other, j, sk) <==> On(s, other, if other == slot && i <= j then j + 1 else j, sk)
    {
    }
    assert On(s, slot, i, taken);
    forall sk | sk in live && sk != taken
      ensures exists other, j :: On(s', other, j, sk)
    {
      var other, j: nat :| On(s, other, j, sk);
      assert On(s', other, if other == slot && i < j then j - 1 else j, sk);
    }
  }

  lemma AddKeyed(s: State, slot: Slot, e: Entry)
    requires Keyed(s) && Key(slot.port, Peer(slot.side))(e)
    ensures Keyed(AddTo(s, slot, e))
  {
    hide KeyedList;
    var s' := AddTo(s, slot, e);
    forall other
      ensures KeyedList(ListAt(s', other), other.port, Peer(other.side))
    {
      assert KeyedList(ListAt(s, other), other.port, Peer(other.side));
      if other == slot {
        KeyedListSteps(ListAt(s, slot), slot.port, Peer(slot.side), e);
      }
    }
  }

  /** Taking the head of a linked list, or any entry a thread holds. */
  predicate Takes(s: State, slot: Slot, i: nat) {
    i < |ListAt(s, slot).chain| && (IsLinked(slot.table) ==> i == 0)
  }

  lemma TakeKeyed(s: State, slot: Slot, i: nat)
    requires Keyed(s) && Takes(s, slot, i)
    ensures Keyed(TakeFrom(s, slot, i))
    ensures Key(slot.port, Peer(slot.side))(ListAt(s, slot).chain[i])
  {
    hide KeyedList;
    var s' := TakeFrom(s, slot, i);
    assert KeyedList(ListAt(s, slot), slot.port, Peer(slot.side));
    KeyedListSteps(ListAt(s, slot), slot.port, Peer(slot.side), ListAt(s, slot).chain[i]);
    KeyedListTakes(ListAt(s, slot), slot.port, Peer(slot.side), i);
    forall other
      ensures KeyedList(ListAt(s', other), other.port, Peer(other.side))
    {
      assert KeyedList(ListAt(s, other), other.port, Peer(other.side));
    }
  }

  lemma KeyedListSteps(l: List<Entry>, p: Port, rip: Side, e: Entry)
    requires KeyedList(l, p, rip)
    ensures Key(p, rip)(e) ==> KeyedList(Added(l, e), p, rip)
  {
  }

  lemma KeyedListTakes(l: List<Entry>, p: Port, rip: Side, i: nat)
    requires KeyedList(l, p, rip) && i < |l.chain|
    ensures KeyedList(l.(chain := Without(l.chain, i)), p, rip) && Key(p, rip)(l.chain[i])
    ensures i == 0 ==> KeyedList(TakenOut(l, i), p, rip)
  {
    assert forall x :: x in Without(l.chain, i) ==> x in l.chain;
    assert l.chain[i] in l.chain;
  }

  /** With every entry on a list matching, the match is the head, whose removal never leaves the
      tail pointer behind nor follows a NULL pointer. */
  lemma MatchIsHead(s: State, slot: Slot, rport: Port, rip: Side)
    requires Keyed(s) && slot.port == rport && Peer(slot.side) == rip
    ensures FoundAt(s, slot, rport, rip) == 0
    ensures Holds(s, slot, rport, rip) <==> ListAt(s, slot).chain != []
    ensures !RemoveCrashes(ListAt(s, slot), Key(rport, rip))
  {
    var chain := ListAt(s, slot).chain;
    assert KeyedList(ListAt(s, slot), rport, rip);
    assert chain != [] ==> chain[0] in chain;
  }

  /** An entry is found under the port of its list and the other node, and under no other key. */
  lemma HeldUnderItsKeyIff(s: State, slot: Slot, rport: Port, rip: Side)
    requires Keyed(s)
    ensures Holds(s, slot, rport, rip) <==>
            ListAt(s, slot).chain != [] && rport == slot.port && rip == Peer(slot.side)
  {
    var chain := ListAt(s, slot).chain;
    assert KeyedList(ListAt(s, slot), slot.port, Peer(slot.side));
    assert forall i :: 0 <= i < |chain| ==> chain[i] in chain;
  }

  /** Two states with the same lists. */
  lemma SameLists(s: State, s': State, live: set<nat>)
    requires s.lists == s'.lists && Accounted(s, live) && Keyed(s)
    ensures Accounted(s', live) && Keyed(s')
  {
    hide KeyedList;
    assert forall slot :: ListAt(s, slot) == ListAt(s', slot);
    assert forall slot, i, sk :: On(s, slot, i, sk) <==> On(s', slot, i, sk);
  }

  lemma AddressedChannels(s: State, s': State)
    requires Addressed(s) && s'.channels == s.channels
    ensures Addressed(s')
  {
    assert forall x :: Channel(s', x) == Channel(s, x);
  }

  lemma AddressedAppend(s: State, s': State, from: Side, m: Msg)
    requires Addressed(s) && m.srcPort == m.destPort && m.src == from
    requires s'.channels == s.channels[Peer(from) := Channel(s, Peer(from)) + [m]]
    ensures Addressed(s')
  {
    forall x
      ensures AddressedTo(Channel(s', x), x)
    {
      assert AddressedTo(Channel(s, x), x);
      assert Channel(s', x) == if x == Peer(from) then Channel(s, x) + [m] else Channel(s, x);
    }
  }

  lemma AddressedPop(s: State, s': State, x: Side)
    requires Addressed(s) && Channel(s, x) != [] && s'.channels == s.channels[x := Channel(s, x)[1..]]
    ensures Addressed(s') && AddressedTo([Channel(s, x)[0]], x)
  {
    assert AddressedTo(Channel(s, x), x);
    assert Channel(s, x)[0] in Channel(s, x);
    forall y
      ensures AddressedTo(Channel(s', y), y)
    {
      assert AddressedTo(Channel(s, y), y);
      assert Channel(s', y) == if y == x then Channel(s, x)[1..] else Channel(s, y);
    }
  }

  // ---------------------------------------------------------------- what every step keeps

  lemma MoveEntry(s: State, from: Slot, i: nat, to: Slot, live: set<nat>)
    requires Accounted(s, live) && Keyed(s) && Takes(s, from, i)
    requires from.side == to.side && from.port == to.port && from != to
    ensures Accounted(Move(s, from, i, to), live) && Keyed(Move(s, from, i, to))
  {
    var e := ListAt(s, from).chain[i];
    assert On(s, from, i, e.sk);
    assert live - {e.sk} + {e.sk} == live;
    TakeAccounted(s, from, i, live);
    TakeKeyed(s, from, i);
    var taken := TakeFrom(s, from, i);
    assert KeyedList(ListAt(taken, to), to.port, Peer(to.side));
    hide Accounted, Keyed;
    AddAccounted(taken, to, e, live - {e.sk});
    AddKeyed(taken, to, e);
  }

  lemma Create(s: State, slot: Slot, live: set<nat>)
    requires Accounted(s, live) && Keyed(s) && s.nextSk !in live
    ensures var s' := AddTo(s, slot, Entry(s.nextSk, slot.port, Peer(slot.side)));
            Accounted(s', live + {s.nextSk}) && Keyed(s')
  {
    assert KeyedList(ListAt(s, slot), slot.port, Peer(slot.side));
    hide Accounted, Keyed;
    AddAccounted(s, slot, Entry(s.nextSk, slot.port, Peer(slot.side)), live);
    AddKeyed(s, slot, Entry(s.nextSk, slot.port, Peer(slot.side)));
  }

  lemma RetireHead(s: State, slot: Slot)
    requires Inv(s) && ListAt(s, slot).chain != []
    ensures Inv(Retire(s, slot, 0)) && Retire(s, slot, 0).channels == s.channels
  {
    var s', sk := Retire(s, slot, 0), ListAt(s, slot).chain[0].sk;
    assert On(s, slot, 0, sk);
    assert Live(s') == Live(s) - {sk};
    TakeAccounted(s, slot, 0, Live(s));
    TakeKeyed(s, slot, 0);
    AddressedChannels(s, s');
    SameLists(TakeFrom(s, slot, 0), s', Live(s'));
  }

  lemma NextInv(s: State, step: Step)
    requires Inv(s) && Enabled(s, step)
    ensures Inv(Next(s, step))
  {
    hide Accounted, Keyed, Addressed;
    var s' := Next(s, step);
    match step {
      case Deliver(x) => KeepDeliver(s, x);
      case CloseSocket(x, p) => KeepClose(s, x, p);
      case BeginConnect(x, p) =>
        var slot := Slot(x, Pending, p);
        Create(s, slot, Live(s));
        assert Live(s') == Live(s) + {s.nextSk};
        SameLists(AddTo(s, slot, Entry(s.nextSk, p, Peer(x))), s', Live(s'));
        AddressedAppend(s, s', x, Msg(Connect, p, p, x));
      case FinishSuccess(x) =>
        var from, to := Slot(x, Finishing, s.finishing[x]), Slot(x, Conns, s.finishing[x]);
        MoveEntry(s, from, 0, to, Live(s));
        assert Live(s') == Live(s);
        SameLists(Move(s, from, 0, to), s', Live(s));
        AddressedChannels(s, s');
      case _ => KeepOwnSteps(s, step);
    }
  }

  /** The steps that neither create nor retire an entry. */
  lemma KeepOwnSteps(s: State, step: Step)
    requires Inv(s) && Enabled(s, step)
    requires !step.Deliver? && !step.CloseSocket? && !step.BeginConnect? && !step.FinishSuccess?
    ensures Inv(Next(s, step))
  {
    hide Accounted, Keyed, Addressed;
    var s', x, p := Next(s, step), step.x, step.p;
    assert Live(s') == Live(s);
    match step {
      case FinishConnect(_, _, i) => MoveEntry(s, Slot(x, Pending, p), i, Slot(x, Incoming, p), Live(s));
      case AcceptTake(_, _) =>
        MoveEntry(s, Slot(x, Incoming, p), 0, Slot(x, Hand, p), Live(s));
        SameLists(Move(s, Slot(x, Incoming, p), 0, Slot(x, Hand, p)), s', Live(s));
      case AcceptInstall(_, _, i) =>
        MoveEntry(s, Slot(x, Hand, p), i, Slot(x, Conns, p), Live(s));
        SameLists(Move(s, Slot(x, Hand, p), i, Slot(x, Conns, p)), s', Live(s));
      case _ => SameLists(s, s', Live(s));
    }
    match step {
      case AcceptNotify(_, _) => AddressedAppend(s, s', x, Msg(ConnectSuccess, p, p, x));
      case SendRegular(_, _) => AddressedAppend(s, s', x, Msg(Regular, p, p, x));
      case _ => AddressedChannels(s, s');
    }
  }

  lemma KeepClose(s: State, x: Side, p: Port)
    requires Inv(s) && Enabled(s, CloseSocket(x, p))
    ensures Inv(Next(s, CloseSocket(x, p)))
  {
    hide Accounted, Keyed, Addressed;
    var slot := Slot(x, Conns, p);
    MatchIsHead(s, slot, p, Peer(x));
    if ListAt(s, slot).chain != [] {
      RetireHead(s, slot);
      var retired, s' := Retire(s, slot, 0), Next(s, CloseSocket(x, p));
      assert Live(s') == Live(retired);
      AddressedAppend(retired, s', x, Msg(Close, p, p, x));
      SameLists(retired, s', Live(retired));
    }
  }

  lemma PopInv(s: State, x: Side)
    requires Inv(s) && Channel(s, x) != []
    ensures Inv(Popped(s, x))
    ensures Channel(s, x)[0].srcPort == Channel(s, x)[0].destPort && Channel(s, x)[0].src == Peer(x)
  {
    hide Accounted, Keyed, Addressed;
    var popped := Popped(s, x);
    assert Live(popped) == Live(s);
    AddressedPop(s, popped, x);
    assert Channel(s, x)[0] in [Channel(s, x)[0]];
    SameLists(s, popped, Live(s));
  }

  lemma KeepDeliver(s: State, x: Side)
    requires Inv(s) && Enabled(s, Deliver(x))
    ensures Inv(Next(s, Deliver(x)))
  {
    PopInv(s, x);
    var popped := Popped(s, x);
    hide Accounted, Keyed, Addressed, Channel;
    HandlerInv(popped, x, Channel(s, x)[0]);
  }

  lemma HandlerInv(s: State, x: Side, m: Msg)
    requires Inv(s) && m.srcPort == m.destPort && m.src == Peer(x)
    ensures Inv(LocalTcpRcv(s, x, m).state)
  {
    hide Accounted, Keyed, Addressed;
    var s', p := LocalTcpRcv(s, x, m).state, m.srcPort;
    var conns, incoming := Slot(x, Conns, p), Slot(x, Incoming, p);
    MatchIsHead(s, conns, p, m.src);
    MatchIsHead(s, incoming, p, m.src);
    match m.kind {
      case Connect =>
        if s' != s {
          Create(s, incoming, Live(s));
          assert Live(s') == Live(s) + {s.nextSk};
          SameLists(AddTo(s, incoming, Entry(s.nextSk, p, m.src)), s', Live(s'));
          AddressedChannels(s, s');
        }
      case Close => if s' != s { RetireHead(s, conns); }
      case ConnectSuccess =>
        if s' != s {
          MoveEntry(s, incoming, 0, Slot(x, Finishing, p), Live(s));
          assert Live(s') == Live(s);
          SameLists(Move(s, incoming, 0, Slot(x, Finishing, p)), s', Live(s));
          AddressedChannels(s, s');
        }
      case Regular =>
      case Unknown =>
    }
  }

  // ---------------------------------------------------------------- what follows for every run

  /** In every run of the two nodes each socket created and not closed is on exactly one list, once;
      no other entry is on any list; and no tail pointer is ever left behind. */
  lemma EntriesConservedInEveryRun(states: seq<State>, steps: seq<Step>, i: nat)
    requires IsRun(states, steps) && i < |states|
    ensures Inv(states[i])
    ensures Accounted(states[i], Live(states[i]))
    ensures forall slot :: ListAt(states[i], slot).tailOk
  {
    hide Accounted, Next, Enabled;
    if i == 0 {
      InitInv(states[0]);
    } else {
      EntriesConservedInEveryRun(states, steps, i - 1);
      NextInv(states[i - 1], steps[i - 1]);
    }
    assert forall slot :: KeyedList(ListAt(states[i], slot), slot.port, Peer(slot.side));
  }

  lemma InitInv(s: State)
    requires Init(s)
    ensures Inv(s)
  {
    assert forall slot :: ListAt(s, slot) == Empty();
    assert forall x :: Channel(s, x) == [];
  }

  /** Kind of the message a step delivers. */
  ghost predicate Delivers(s: State, step: Step, kind: Kind) {
    step.Deliver? && Channel(s, step.x) != [] && Channel(s, step.x)[0].kind == kind
  }

  /** The lists that differ, and how. */
  ghost predicate Unmoved(s: State, s': State) {
    Live(s') == Live(s) && forall slot :: ListAt(s', slot) == ListAt(s, slot)
  }

  ghost predicate MovedOne(s: State, s': State, from: Slot, i: nat, to: Slot) {
    && i < |ListAt(s, from).chain|
    && ListAt(s', from).chain == Without(ListAt(s, from).chain, i)
    && ListAt(s', to).chain == ListAt(s, to).chain + [ListAt(s, from).chain[i]]
    && Live(s') == Live(s)
    && forall slot :: slot != from && slot != to ==> ListAt(s', slot) == ListAt(s, slot)
  }

  ghost predicate AddedOne(s: State, s': State, slot: Slot) {
    && ListAt(s', slot).chain == ListAt(s, slot).chain + [Entry(s.nextSk, slot.port, Peer(slot.side))]
    && Live(s') == Live(s) + {s.nextSk}
    && forall other :: other != slot ==> ListAt(s', other) == ListAt(s, other)
  }

  ghost predicate RetiredOne(s: State, s': State, slot: Slot) {
    && ListAt(s, slot).chain != []
    && ListAt(s', slot).chain == ListAt(s, slot).chain[1..]
    && Live(s') == Live(s) - {ListAt(s, slot).chain[0].sk}
    && forall other :: other != slot ==> ListAt(s', other) == ListAt(s, other)
  }

  /** What a step does to the lists: connect and an arriving CONNECT create one entry; close and an
      arriving CLOSE retire one; accept and CONNECT_SUCCESS take exactly one entry, in two halves each,
      from the incoming list to the established one. Any number of threads may be inside accept. */
  ghost predicate Effect(s: State, step: Step, s': State)
    requires Enabled(s, step)
  {
    match step
    case BeginConnect(x, p) => AddedOne(s, s', Slot(x, Pending, p))
    case FinishConnect(x, p, i) => MovedOne(s, s', Slot(x, Pending, p), i, Slot(x, Incoming, p))
    case AcceptTake(x, p) => MovedOne(s, s', Slot(x, Incoming, p), 0, Slot(x, Hand, p))
    case AcceptInstall(x, p, i) => MovedOne(s, s', Slot(x, Hand, p), i, Slot(x, Conns, p))
    case FinishSuccess(x) => MovedOne(s, s', Slot(x, Finishing, s.finishing[x]), 0, Slot(x, Conns, s.finishing[x]))
    case CloseSocket(x, p) =>
      if ListAt(s, Slot(x, Conns, p)).chain == [] then Unmoved(s, s') else RetiredOne(s, s', Slot(x, Conns, p))
    case Deliver(x) => HandlerEffect(Popped(s, x), x, Channel(s, x)[0], s')
    case _ => Unmoved(s, s')
  }

  ghost predicate HandlerEffect(s: State, x: Side, m: Msg, s': State) {
    var conns, incoming := Slot(x, Conns, m.srcPort), Slot(x, Incoming, m.srcPort);
    match m.kind
    case Connect =>
      if (x, m.srcPort) in s.listening && ListAt(s, conns).chain == [] then AddedOne(s, s', incoming)
      else Unmoved(s, s')
    case Close => RetiredOne(s, s', conns)
    case ConnectSuccess =>
      if ListAt(s, incoming).chain == [] then Unmoved(s, s')
      else MovedOne(s, s', incoming, 0, Slot(x, Finishing, m.srcPort))
    case _ => Unmoved(s, s')
  }

  lemma MoveEffect(s: State, s': State, from: Slot, i: nat, to: Slot)
    requires Keyed(s) && i < |ListAt(s, from).chain| && from != to && s'.lists == Move(s, from, i, to).lists
    requires s'.nextSk == s.nextSk && s'.closed == s.closed
    ensures MovedOne(s, s', from, i, to)
  {
    assert KeyedList(ListAt(s, to), to.port, Peer(to.side));
  }

  lemma AddEffect(s: State, s': State, slot: Slot)
    requires Keyed(s) && s'.lists == AddTo(s, slot, Entry(s.nextSk, slot.port, Peer(slot.side))).lists
    requires s'.nextSk == s.nextSk + 1 && s'.closed == s.closed && forall sk :: sk in s.closed ==> sk < s.nextSk
    ensures AddedOne(s, s', slot)
  {
    assert KeyedList(ListAt(s, slot), slot.port, Peer(slot.side));
  }

  lemma RetireEffect(s: State, s': State, slot: Slot)
    requires ListAt(s, slot).chain != [] && s'.lists == TakeFrom(s, slot, 0).lists
    requires s'.nextSk == s.nextSk && s'.closed == s.closed + {ListAt(s, slot).chain[0].sk}
    ensures RetiredOne(s, s', slot)
  {
  }

  lemma WhoCreatesWhoRetires(s: State, step: Step)
    requires Inv(s) && Enabled(s, step)
    ensures Effect(s, step, Next(s, step))
  {
    hide Accounted, Addressed, FirstMatch, Keyed, HandlerEffect;
    var s' := Next(s, step);
    match step {
      case FinishConnect(x, p, i) => MoveEffect(s, s', Slot(x, Pending, p), i, Slot(x, Incoming, p));
      case AcceptTake(x, p) => MoveEffect(s, s', Slot(x, Incoming, p), 0, Slot(x, Hand, p));
      case AcceptInstall(x, p, i) => MoveEffect(s, s', Slot(x, Hand, p), i, Slot(x, Conns, p));
      case FinishSuccess(x) =>
        MoveEffect(s, s', Slot(x, Finishing, s.finishing[x]), 0, Slot(x, Conns, s.finishing[x]));
      case BeginConnect(x, p) => AddEffect(s, s', Slot(x, Pending, p));
      case CloseSocket(x, p) =>
        MatchIsHead(s, Slot(x, Conns, p), p, Peer(x));
        if ListAt(s, Slot(x, Conns, p)).chain != [] { RetireEffect(s, s', Slot(x, Conns, p)); }
      case Deliver(x) =>
        PopInv(s, x);
        HandlerHasEffect(Popped(s, x), x, Channel(s, x)[0]);
      case _ =>
    }
  }

  lemma HandlerHasEffect(s: State, x: Side, m: Msg)
    requires Inv(s) && m.srcPort == m.destPort && m.src == Peer(x) && LocalTcpRcv(s, x, m).verdict != Crashed
    ensures HandlerEffect(s, x, m, LocalTcpRcv(s, x, m).state)
  {
    hide Accounted, Addressed, FirstMatch, Keyed, MovedOne, AddedOne, RetiredOne;
    var s', conns, incoming := LocalTcpRcv(s, x, m).state, Slot(x, Conns, m.srcPort), Slot(x, Incoming, m.srcPort);
    MatchIsHead(s, conns, m.srcPort, m.src);
    MatchIsHead(s, incoming, m.srcPort, m.src);
    match m.kind {
      case Connect => if s' != s { AddEffect(s, s', incoming); }
      case Close => RetireEffect(s, s', conns);
      case ConnectSuccess => if s' != s { MoveEffect(s, s', incoming, 0, Slot(x, Finishing, m.srcPort)); }
      case _ =>
    }
  }

  /** An arriving message crashes the handler exactly if it is a CLOSE for a port with no entry. */
  lemma CrashIffCloseUnknown(s: State, x: Side)
    requires Inv(s) && Channel(s, x) != []
    ensures Delivery(s, x).verdict == Crashed <==>
            var m := Channel(s, x)[0]; m.kind == Close && ListAt(s, Slot(x, Conns, m.srcPort)).chain == []
  {
    PopInv(s, x);
    var popped, m := Popped(s, x), Channel(s, x)[0];
    hide Accounted, Addressed, FirstMatch;
    MatchIsHead(popped, Slot(x, Conns, m.srcPort), m.srcPort, m.src);
    MatchIsHead(popped, Slot(x, Incoming, m.srcPort), m.srcPort, m.src);
  }

  /** The handler answers -1 exactly to a message of an unknown kind, and to data for a port with no
      entry; a CONNECT that is dropped, or a CONNECT_SUCCESS that finds nothing, it takes as handled. */
  lemma RejectedIff(s: State, x: Side)
    requires Inv(s) && Channel(s, x) != []
    ensures var m := Channel(s, x)[0];
            Delivery(s, x).verdict == Rejected <==>
            m.kind.Unknown? || (m.kind.Regular? && ListAt(s, Slot(x, Conns, m.srcPort)).chain == [])
  {
    PopInv(s, x);
    var popped, m := Popped(s, x), Channel(s, x)[0];
    hide Accounted, Addressed, FirstMatch;
    MatchIsHead(popped, Slot(x, Conns, m.srcPort), m.srcPort, m.src);
    MatchIsHead(popped, Slot(x, Incoming, m.srcPort), m.srcPort, m.src);
  }

  /** When both ends close at the same time, each CLOSE finds no entry and crashes its receiver. */
  lemma SimultaneousCloseCrashes(s: State, p: Port)
    requires Inv(s) && Channel(s, A) == Channel(s, B) == []
    requires |ListAt(s, Slot(A, Conns, p)).chain| == |ListAt(s, Slot(B, Conns, p)).chain| == 1
    ensures Enabled(s, CloseSocket(A, p)) && Enabled(Next(s, CloseSocket(A, p)), CloseSocket(B, p))
    ensures var s' := Next(Next(s, CloseSocket(A, p)), CloseSocket(B, p));
            && Channel(s', A) != [] && Delivery(s', A).verdict == Crashed
            && Channel(s', B) != [] && Delivery(s', B).verdict == Crashed
  {
    hide Accounted, Addressed;
    MatchIsHead(s, Slot(A, Conns, p), p, B);
    var s1 := Next(s, CloseSocket(A, p));
    NextInv(s, CloseSocket(A, p));
    MatchIsHead(s1, Slot(B, Conns, p), p, A);
    var s2 := Next(s1, CloseSocket(B, p));
    NextInv(s1, CloseSocket(B, p));
    CrashIffCloseUnknown(s2, A);
    CrashIffCloseUnknown(s2, B);
  }
}

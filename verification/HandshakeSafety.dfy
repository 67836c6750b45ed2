/** While connections are being set up and used, no data message arrives before the connection
    entry that is to receive it: over all runs without a close, with any number of connects and
    accepts by either node on any port. */
module HandshakeSafety {
  import opened Handshake
  import opened HandshakeEntries
  import opened PortLists

  // ---------------------------------------------------------------- one port, seen from one node

  function Count(channel: seq<Msg>, kind: Kind, p: Port): nat {
    if channel == [] then 0 else
      (if channel[0].kind == kind && channel[0].srcPort == p then 1 else 0) + Count(channel[1..], kind, p)
  }

  /** A data message for port p is on its way with no CONNECT_SUCCESS for p before it. */
  predicate DataFirst(channel: seq<Msg>, p: Port) {
    if channel == [] then false
    else if channel[0].srcPort == p && channel[0].kind.Regular? then true
    else if channel[0].srcPort == p && channel[0].kind.ConnectSuccess? then false
    else DataFirst(channel[1..], p)
  }

  /** What node x does and has done on port p, apart from its lists and the messages sent to it. */
  datatype Doing = Doing(owed: nat, finishing: bool, connected: bool, accepted: bool)

  /** The entries of port p on node x by table, and the messages for p on their way to x. */
  datatype End = End(
    pending: nat, incoming: nat, hand: nat, finishing: nat, conns: nat, doing: Doing,
    successes: nat, closes: nat, dataFirst: bool)

  function Size(s: State, slot: Slot): nat { |ListAt(s, slot).chain| }

  function DoingOf(s: State, x: Side, p: Port): Doing {
    Doing(s.owed[(x, p)], x in s.finishing && s.finishing[x] == p, (x, p) in s.connected, (x, p) in s.accepted)
  }

  function EndOf(s: State, x: Side, p: Port): End {
    var ch := Channel(s, x);
    End(Size(s, Slot(x, Pending, p)), Size(s, Slot(x, Incoming, p)), Size(s, Slot(x, Hand, p)),
        Size(s, Slot(x, Finishing, p)), Size(s, Slot(x, Conns, p)), DoingOf(s, x, p),
        Count(ch, ConnectSuccess, p), Count(ch, Close, p), DataFirst(ch, p))
  }

  /** Some entry in `conns` is established at both ends: accept has announced it, or an arriving
      CONNECT_SUCCESS has completed it. */
  predicate Established(x: End) { x.conns > x.doing.owed }

  predicate Accepted(x: End) { Established(x) && x.doing.accepted }

  /** What is known of one end. */
  ghost predicate EndOk(x: End) {
    && x.closes == 0
    && x.finishing == (if x.doing.finishing then 1 else 0)
    && (x.hand > 0 ==> x.doing.accepted)
    && x.doing.owed <= x.conns && (x.doing.owed > 0 ==> x.doing.accepted)
    && (x.doing.connected && !x.doing.accepted ==> x.pending + x.incoming + x.finishing + x.conns > 0)
  }

  /** What node x may rely on at the other end, y. */
  ghost predicate Backed(x: End, y: End) {
    // an end that may send data has its entry at the other end, or its CONNECT_SUCCESS on the way there
    && (Established(x) ==> y.conns + y.finishing + y.successes > 0)
    // what was announced to y, x has accepted
    && (y.successes + y.finishing > 0 || (y.conns > 0 && !y.doing.accepted) ==> Accepted(x))
    // data does not overtake the announcement
    && (y.dataFirst ==> y.conns + y.finishing > 0)
  }

  ghost predicate Linked(a: End, b: End) {
    EndOk(a) && EndOk(b) && Backed(a, b) && Backed(b, a)
  }

  ghost predicate PortOk(s: State, p: Port) {
    Linked(EndOf(s, A, p), EndOf(s, B, p))
  }

  ghost predicate SafeInv(s: State) {
    Inv(s) && forall p :: PortOk(s, p)
  }

  /** An arriving CONNECT_SUCCESS finds an entry to complete, or one that is complete already. */
  predicate Answered(s: State, x: Side, p: Port) {
    ListAt(s, Slot(x, Incoming, p)).chain != [] || ListAt(s, Slot(x, Conns, p)).chain != []
  }

  /** Set-up and use without tear-down: no close; data is sent once an entry in `conns` is established,
      though others may not be; and no CONNECT_SUCCESS arrives unanswered. */
  ghost predicate Admissible(s: State, step: Step) {
    && Enabled(s, step)
    && match step
       case CloseSocket(_, _) => false
       case SendRegular(x, p) => |ListAt(s, Slot(x, Conns, p)).chain| > s.owed[(x, p)]
       case Deliver(x) => Channel(s, x)[0].kind.ConnectSuccess? ==> Answered(s, x, Channel(s, x)[0].srcPort)
       case _ => true
  }

  // ---------------------------------------------------------------- how the parts change an end

  lemma {:induction false} CountAppend(ch: seq<Msg>, m: Msg, kind: Kind, p: Port)
    ensures Count(ch + [m], kind, p) == Count(ch, kind, p) + if m.kind == kind && m.srcPort == p then 1 else 0
  {
    if ch == [] {
      assert ch + [m] == [m];
    } else {
      CountAppend(ch[1..], m, kind, p);
      assert (ch + [m])[1..] == ch[1..] + [m];
    }
  }

  lemma {:induction false} DataFirstAppend(ch: seq<Msg>, m: Msg, p: Port)
    ensures DataFirst(ch + [m], p) <==>
            DataFirst(ch, p) || (m.kind.Regular? && m.srcPort == p && Count(ch, ConnectSuccess, p) == 0)
  {
    if ch == [] {
      assert ch + [m] == [m];
    } else {
      DataFirstAppend(ch[1..], m, p);
      assert (ch + [m])[1..] == ch[1..] + [m];
    }
  }

  /** An end after message m for its port joins the channel towards it. */
  function Arriving(e: End, kind: Kind): End {
    match kind
    case ConnectSuccess => e.(successes := e.successes + 1)
    case Regular => e.(dataFirst := e.dataFirst || e.successes == 0)
    case Close => e.(closes := e.closes + 1)
    case _ => e
  }

  lemma SendEnd(s: State, from: Side, kind: Kind, p: Port, x: Side, q: Port)
    ensures EndOf(Send(s, from, kind, p), x, q) ==
            if x == Peer(from) && q == p then Arriving(EndOf(s, x, q), kind) else EndOf(s, x, q)
  {
    var ch, m := Channel(s, Peer(from)), Msg(kind, p, p, from);
    CountAppend(ch, m, ConnectSuccess, q);
    CountAppend(ch, m, Close, q);
    DataFirstAppend(ch, m, q);
  }

  /** `before` is `after` with a message of the given kind at the front of its channel. */
  ghost predicate PoppedEnd(before: End, after: End, kind: Kind) {
    && before.(dataFirst := after.dataFirst, successes := after.successes, closes := after.closes) == after
    && before.successes == after.successes + (if kind.ConnectSuccess? then 1 else 0)
    && before.closes == after.closes + (if kind.Close? then 1 else 0)
    && before.dataFirst == (kind.Regular? || (!kind.ConnectSuccess? && after.dataFirst))
  }

  lemma PopEnd(s: State, x: Side, y: Side, q: Port)
    requires Channel(s, x) != []
    ensures var m := Channel(s, x)[0];
            if y == x && q == m.srcPort then PoppedEnd(EndOf(s, y, q), EndOf(Popped(s, x), y, q), m.kind)
            else EndOf(Popped(s, x), y, q) == EndOf(s, y, q)
  {
  }

  /** An end after its list in table t gained or lost entries. */
  function Resized(e: End, t: Table, delta: int): End
    requires match t case Pending => e.pending + delta >= 0 case Incoming => e.incoming + delta >= 0
                     case Hand => e.hand + delta >= 0 case Finishing => e.finishing + delta >= 0
                     case Conns => e.conns + delta >= 0
  {
    match t
    case Pending => e.(pending := e.pending + delta)
    case Incoming => e.(incoming := e.incoming + delta)
    case Hand => e.(hand := e.hand + delta)
    case Finishing => e.(finishing := e.finishing + delta)
    case Conns => e.(conns := e.conns + delta)
  }

  lemma AddSize(s: State, slot: Slot, e: Entry, other: Slot)
    requires ListAt(s, slot).tailOk
    ensures Size(AddTo(s, slot, e), other) == Size(s, other) + if other == slot then 1 else 0
  {
  }

  lemma AddEnd(s: State, slot: Slot, e: Entry, x: Side, q: Port)
    requires ListAt(s, slot).tailOk
    ensures EndOf(AddTo(s, slot, e), x, q) ==
            if x == slot.side && q == slot.port then Resized(EndOf(s, x, q), slot.table, 1) else EndOf(s, x, q)
  {
    AddSize(s, slot, e, Slot(x, Pending, q));
    AddSize(s, slot, e, Slot(x, Incoming, q));
    AddSize(s, slot, e, Slot(x, Hand, q));
    AddSize(s, slot, e, Slot(x, Finishing, q));
    AddSize(s, slot, e, Slot(x, Conns, q));
    hide Size, Count, DataFirst;
  }

  lemma TakeSize(s: State, slot: Slot, i: nat, other: Slot)
    requires i < |ListAt(s, slot).chain|
    ensures Size(TakeFrom(s, slot, i), other) == Size(s, other) - if other == slot then 1 else 0
  {
  }

  lemma TakeEnd(s: State, slot: Slot, i: nat, x: Side, q: Port)
    requires i < |ListAt(s, slot).chain|
    ensures EndOf(TakeFrom(s, slot, i), x, q) ==
            if x == slot.side && q == slot.port then Resized(EndOf(s, x, q), slot.table, -1) else EndOf(s, x, q)
  {
    TakeSize(s, slot, i, Slot(x, Pending, q));
    TakeSize(s, slot, i, Slot(x, Incoming, q));
    TakeSize(s, slot, i, Slot(x, Hand, q));
    TakeSize(s, slot, i, Slot(x, Finishing, q));
    TakeSize(s, slot, i, Slot(x, Conns, q));
    hide Size, Count, DataFirst;
  }

  /** Moving an entry of one list to another list of the same port and node. */
  lemma MoveEnd(s: State, from: Slot, i: nat, to: Slot, x: Side, q: Port)
    requires Keyed(s) && i < |ListAt(s, from).chain|
    requires from.side == to.side && from.port == to.port && from != to
    ensures EndOf(Move(s, from, i, to), x, q) ==
            if x == from.side && q == from.port then Resized(Resized(EndOf(s, x, q), from.table, -1), to.table, 1)
            else EndOf(s, x, q)
  {
    assert KeyedList(ListAt(s, to), to.port, Peer(to.side));
    hide EndOf;
    TakeEnd(s, from, i, x, q);
    AddEnd(TakeFrom(s, from, i), to, ListAt(s, from).chain[i], x, q);
  }

  /** Apart from its lists and messages only what the node is doing matters to an end. */
  lemma EndDepends(s: State, s': State, x: Side, q: Port)
    requires s'.lists == s.lists && s'.channels == s.channels
    ensures EndOf(s', x, q) == EndOf(s, x, q).(doing := DoingOf(s', x, q))
  {
  }

  lemma EndFacts(s: State, x: Side, q: Port)
    ensures EndOf(s, x, q).doing == DoingOf(s, x, q)
    ensures EndOf(s, x, q).pending == |ListAt(s, Slot(x, Pending, q)).chain|
    ensures EndOf(s, x, q).incoming == |ListAt(s, Slot(x, Incoming, q)).chain|
    ensures EndOf(s, x, q).hand == |ListAt(s, Slot(x, Hand, q)).chain|
    ensures EndOf(s, x, q).finishing == |ListAt(s, Slot(x, Finishing, q)).chain|
    ensures EndOf(s, x, q).conns == |ListAt(s, Slot(x, Conns, q)).chain|
  {
  }

  /** The coupling does not depend on which end is named first. */
  lemma LinkedAt(s: State, x: Side, p: Port)
    ensures PortOk(s, p) <==> Linked(EndOf(s, x, p), EndOf(s, Peer(x), p))
  {
    hide EndOf, EndOk, Backed;
  }

  // ---------------------------------------------------------------- what keeps two ends linked

  /** Where a step of the node itself moves an entry to, and what the node does from then on. */
  function Onward(from: Table): Table {
    match from case Pending => Incoming case Incoming => Hand case _ => Conns
  }

  function DoingAfter(from: Table, d: Doing): Doing {
    match from
    case Incoming => d.(accepted := true)
    case Hand => d.(owed := d.owed + 1)
    case Finishing => d.(finishing := false)
    case _ => d
  }

  predicate CanMove(e: End, from: Table) {
    match from
    case Pending => e.pending > 0
    case Incoming => e.incoming > 0
    case Hand => e.hand > 0
    case Finishing => e.finishing > 0
    case Conns => false
  }

  function MovedEnd(e: End, from: Table): End
    requires CanMove(e, from)
  {
    Resized(Resized(e, from, -1), Onward(from), 1).(doing := DoingAfter(from, e.doing))
  }

  lemma LinkedMoves(x: End, y: End, from: Table)
    requires Linked(x, y) && CanMove(x, from)
    ensures Linked(MovedEnd(x, from), y)
  {
  }

  lemma LinkedSends(x: End, y: End)
    requires Linked(x, y)
    ensures x.doing.owed > 0 ==> Linked(x.(doing := x.doing.(owed := x.doing.owed - 1)), Arriving(y, ConnectSuccess))
    ensures Established(x) ==> Linked(x, Arriving(y, Regular))
    ensures Linked(Resized(x, Pending, 1).(doing := x.doing.(connected := true)), y)
  {
  }

  /** The end a message was taken off the channel to, after the handler. */
  ghost predicate HandledEnd(before: End, after: End, kind: Kind) {
    match kind
    case Connect => after == before || after == Resized(before, Incoming, 1)
    case ConnectSuccess =>
      after == if before.incoming == 0 then before
               else Resized(Resized(before, Incoming, -1), Finishing, 1).(doing := before.doing.(finishing := true))
    case Close => before.conns == 0 ==> after == before
    case _ => after == before
  }

  /** What has to hold for a CONNECT_SUCCESS: it is answered; or another one is on its way, with no data
      before it. */
  predicate Bearable(popped: End) {
    popped.incoming > 0 || popped.conns > 0 || (popped.successes > 0 && !popped.dataFirst)
  }

  /** Delivery at end y keeps the ends linked, for a CONNECT_SUCCESS exactly if it is bearable. */
  lemma LinkedDelivers(x: End, y: End, popped: End, after: End, kind: Kind)
    requires Linked(x, y) && PoppedEnd(y, popped, kind) && HandledEnd(popped, after, kind) && !y.doing.finishing
    ensures !kind.Close?
    ensures kind.Regular? ==> popped.conns > 0
    ensures kind.ConnectSuccess? ==> Accepted(x)
    ensures Linked(x, after) <==> (kind.ConnectSuccess? ==> Bearable(popped))
  {
  }

  // ---------------------------------------------------------------- what every step keeps

  lemma InitSafe(s: State)
    requires Init(s)
    ensures SafeInv(s)
  {
    InitInv(s);
  }

  /** A step of node x that moves an entry of one of its lists on, and changes nothing else but what x
      is doing. */
  lemma SafeMove(s: State, s': State, from: Slot, i: nat, q: Port)
    requires Keyed(s) && PortOk(s, q) && i < |ListAt(s, from).chain| && !from.table.Conns?
    requires s'.lists == Move(s, from, i, from.(table := Onward(from.table))).lists && s'.channels == s.channels
    requires forall y, r :: DoingOf(s', y, r) ==
               if y == from.side && r == from.port then DoingAfter(from.table, DoingOf(s, y, r)) else DoingOf(s, y, r)
    ensures PortOk(s', q)
  {
    hide EndOf, Keyed, Move, ListAt, EndOk, Backed, DoingOf;
    var x, to := from.side, from.(table := Onward(from.table));
    forall y
      ensures y == x && q == from.port ==> CanMove(EndOf(s, y, q), from.table)
      ensures EndOf(s', y, q) ==
              if y == x && q == from.port then MovedEnd(EndOf(s, y, q), from.table) else EndOf(s, y, q)
    {
      EndFacts(s, y, q);
      MoveEnd(s, from, i, to, y, q);
      MoveDepends(s, s', from, i, to, y, q);
    }
    LinkedAt(s, x, q);
    LinkedAt(s', x, q);
    if q == from.port {
      LinkedMoves(EndOf(s, x, q), EndOf(s, Peer(x), q), from.table);
    }
  }

  lemma MoveDepends(s: State, s': State, from: Slot, i: nat, to: Slot, y: Side, q: Port)
    requires i < |ListAt(s, from).chain|
    requires s'.lists == Move(s, from, i, to).lists && s'.channels == s.channels
    ensures EndOf(s', y, q) == EndOf(Move(s, from, i, to), y, q).(doing := DoingOf(s', y, q))
  {
    hide ListAt, Size, DataFirst, Count;
    var moved := Move(s, from, i, to);
    assert moved.lists == s'.lists && moved.channels == s'.channels;
    EndDepends(moved, s', y, q);
  }

  lemma SafeSend(s: State, s': State, x: Side, kind: Kind, p: Port, q: Port)
    requires PortOk(s, q) && kind in {Regular, ConnectSuccess}
    requires kind.Regular? ==> |ListAt(s, Slot(x, Conns, p)).chain| > s.owed[(x, p)]
    requires kind.ConnectSuccess? ==> (x, p) in s.owed
    requires var sent := Send(s, x, kind, p);
             s' == if kind.Regular? then sent else sent.(owed := s.owed - multiset{(x, p)})
    ensures PortOk(s', q)
  {
    hide EndOf, ListAt, EndOk, Backed;
    EndFacts(s, x, p);
    forall y
      ensures EndOf(s', y, q) ==
              if q != p then EndOf(s, y, q)
              else if y == Peer(x) then Arriving(EndOf(s, y, q), kind)
              else if kind.Regular? then EndOf(s, y, q)
              else EndOf(s, y, q).(doing := EndOf(s, y, q).doing.(owed := s.owed[(x, p)] - 1))
    {
      EndFacts(s, y, q);
      SendEnd(s, x, kind, p, y, q);
      EndDepends(Send(s, x, kind, p), s', y, q);
    }
    LinkedAt(s, x, q);
    LinkedAt(s', x, q);
    LinkedSends(EndOf(s, x, q), EndOf(s, Peer(x), q));
  }

  lemma SafeConnect(s: State, s': State, x: Side, p: Port, q: Port)
    requires Keyed(s) && PortOk(s, q)
    requires var slot := Slot(x, Pending, p);
             s' == Send(AddTo(s, slot, Entry(s.nextSk, p, Peer(x))), x, Connect, p)
                   .(nextSk := s.nextSk + 1, connected := s.connected + {(x, p)})
    ensures PortOk(s', q)
  {
    hide EndOf, Keyed, ListAt, AddTo, EndOk, Backed;
    var slot, e := Slot(x, Pending, p), Entry(s.nextSk, p, Peer(x));
    var added := AddTo(s, slot, e);
    TailOkAt(s, slot);
    AddFields(s, slot, e);
    forall y
      ensures EndOf(s', y, q) ==
              if y != x || q != p then EndOf(s, y, q)
              else Resized(EndOf(s, y, q), Pending, 1).(doing := EndOf(s, y, q).doing.(connected := true))
    {
      EndFacts(s, y, q);
      AddEnd(s, slot, e, y, q);
      SendEnd(added, x, Connect, p, y, q);
      EndDepends(Send(added, x, Connect, p), s', y, q);
    }
    LinkedAt(s, x, q);
    LinkedAt(s', x, q);
    LinkedSends(EndOf(s, x, q), EndOf(s, Peer(x), q));
  }

  lemma TailOkAt(s: State, slot: Slot)
    requires Keyed(s)
    ensures ListAt(s, slot).tailOk
  {
    assert KeyedList(ListAt(s, slot), slot.port, Peer(slot.side));
  }

  lemma AddFields(s: State, slot: Slot, e: Entry)
    ensures AddTo(s, slot, e) == s.(lists := AddTo(s, slot, e).lists)
  {
  }

  lemma TakeFields(s: State, slot: Slot)
    requires ListAt(s, slot).chain != []
    ensures TakeFrom(s, slot, 0) == s.(lists := TakeFrom(s, slot, 0).lists)
  {
  }

  lemma MoveFields(s: State, from: Slot, i: nat, to: Slot)
    requires i < |ListAt(s, from).chain|
    ensures Move(s, from, i, to) == s.(lists := Move(s, from, i, to).lists)
  {
  }

  lemma HandlerEnd(s: State, x: Side, m: Msg, y: Side, q: Port)
    requires Keyed(s) && m.srcPort == m.destPort && m.src == Peer(x) && x !in s.finishing
    ensures var before, s' := EndOf(s, y, q), LocalTcpRcv(s, x, m).state;
            if y == x && q == m.srcPort then HandledEnd(before, EndOf(s', y, q), m.kind) else EndOf(s', y, q) == before
  {
    var p := m.srcPort;
    var conns, incoming, finishing := Slot(x, Conns, p), Slot(x, Incoming, p), Slot(x, Finishing, p);
    hide EndOf, Keyed, ListAt, Move, AddTo, TakeFrom, Holds, FoundAt, RemoveCrashes;
    TailOkAt(s, incoming);
    MatchIsHead(s, conns, p, m.src);
    MatchIsHead(s, incoming, p, m.src);
    EndFacts(s, x, p);
    EndFacts(s, y, q);
    var s' := LocalTcpRcv(s, x, m).state;
    match m.kind {
      case Connect =>
        if s' != s {
          var e := Entry(s.nextSk, p, m.src);
          AddEnd(s, incoming, e, y, q);
          AddFields(s, incoming, e);
          EndDepends(AddTo(s, incoming, e), s', y, q);
        }
      case ConnectSuccess =>
        if EndOf(s, x, p).incoming > 0 {
          MoveEnd(s, incoming, 0, finishing, y, q);
          MoveFields(s, incoming, 0, finishing);
          EndDepends(Move(s, incoming, 0, finishing), s', y, q);
        }
      case Close =>
        if s' != s {
          TakeEnd(s, conns, 0, y, q);
          TakeFields(s, conns);
          EndDepends(TakeFrom(s, conns, 0), s', y, q);
        }
      case _ =>
    }
  }

  /** A delivery, end by end: the message leaves the channel, then the handler runs. */
  lemma DeliveryEnds(s: State, x: Side, y: Side, q: Port)
    requires Inv(s) && Channel(s, x) != [] && x !in s.finishing
    ensures var m, popped, after := Channel(s, x)[0], EndOf(Popped(s, x), y, q), EndOf(Delivery(s, x).state, y, q);
            if y == x && q == m.srcPort then
              PoppedEnd(EndOf(s, y, q), popped, m.kind) && HandledEnd(popped, after, m.kind)
            else after == EndOf(s, y, q)
  {
    hide EndOf, Accounted, Keyed, Addressed, Channel, PoppedEnd, HandledEnd;
    PopInv(s, x);
    PopEnd(s, x, y, q);
    HandlerEnd(Popped(s, x), x, Channel(s, x)[0], y, q);
  }

  /** The two ends of port q around a delivery to x. */
  lemma SafeDelivery(s: State, x: Side, q: Port)
    requires Inv(s) && PortOk(s, q) && Channel(s, x) != [] && x !in s.finishing
    ensures var m, popped := Channel(s, x)[0], EndOf(Popped(s, x), x, q);
            if q == m.srcPort then
              && !m.kind.Close? && (m.kind.Regular? ==> popped.conns > 0)
              && (m.kind.ConnectSuccess? ==> Accepted(EndOf(s, Peer(x), q)))
              && (PortOk(Delivery(s, x).state, q) <==> (m.kind.ConnectSuccess? ==> Bearable(popped)))
            else
              PortOk(Delivery(s, x).state, q)
  {
    hide EndOf, Inv, Channel, Linked, PoppedEnd, HandledEnd, Delivery, Popped, Bearable, Accepted;
    var m, s', y := Channel(s, x)[0], Delivery(s, x).state, Peer(x);
    DeliveryEnds(s, x, x, q);
    DeliveryEnds(s, x, y, q);
    LinkedAt(s, y, q);
    LinkedAt(s', y, q);
    EndFacts(s, x, q);
    if q == m.srcPort {
      LinkedDelivers(EndOf(s, y, q), EndOf(s, x, q), EndOf(Popped(s, x), x, q), EndOf(s', x, q), m.kind);
    }
  }

  /** The entry that a step of the node itself moves on. */
  predicate Moves(s: State, step: Step, from: Slot, i: nat) {
    match step
    case FinishConnect(x, p, k) => from == Slot(x, Pending, p) && i == k
    case AcceptTake(x, p) => from == Slot(x, Incoming, p) && i == 0
    case AcceptInstall(x, p, k) => from == Slot(x, Hand, p) && i == k
    case FinishSuccess(x) => x in s.finishing && from == Slot(x, Finishing, s.finishing[x]) && i == 0
    case _ => false
  }

  lemma NextMove(s: State, step: Step, from: Slot, i: nat, q: Port)
    requires Keyed(s) && PortOk(s, q) && Enabled(s, step) && Moves(s, step, from, i)
    ensures PortOk(Next(s, step), q)
  {
    hide EndOf, Keyed, Linked, Move, ListAt;
    MoveFields(s, from, i, from.(table := Onward(from.table)));
    SafeMove(s, Next(s, step), from, i, q);
  }

  lemma NextPortOk(s: State, step: Step, q: Port)
    requires SafeInv(s) && Admissible(s, step)
    ensures PortOk(Next(s, step), q)
  {
    hide EndOf, Accounted, Keyed, Addressed, Linked, Move, Send, AddTo, Delivery, Channel;
    assert PortOk(s, q);
    var s' := Next(s, step);
    match step {
      case Listen(_, _) =>
        EndDepends(s, s', A, q); EndDepends(s, s', B, q); EndFacts(s, A, q); EndFacts(s, B, q);
      case BeginConnect(x, p) => SafeConnect(s, s', x, p, q);
      case AcceptNotify(x, p) => SafeSend(s, s', x, ConnectSuccess, p, q);
      case SendRegular(x, p) => SafeSend(s, s', x, Regular, p, q);
      case Deliver(x) => SafeDeliver(s, x, q);
      case FinishConnect(x, p, i) => NextMove(s, step, Slot(x, Pending, p), i, q);
      case AcceptTake(x, p) => NextMove(s, step, Slot(x, Incoming, p), 0, q);
      case AcceptInstall(x, p, i) => NextMove(s, step, Slot(x, Hand, p), i, q);
      case FinishSuccess(x) => NextMove(s, step, Slot(x, Finishing, s.finishing[x]), 0, q);
    }
  }

  lemma SafeDeliver(s: State, x: Side, q: Port)
    requires Inv(s) && PortOk(s, q) && Channel(s, x) != [] && x !in s.finishing
    requires Channel(s, x)[0].kind.ConnectSuccess? ==> Answered(s, x, Channel(s, x)[0].srcPort)
    ensures PortOk(Delivery(s, x).state, q)
  {
    hide Inv, Linked;
    SafeDelivery(s, x, q);
    EndFacts(Popped(s, x), x, q);
  }

  ghost predicate IsSafeRun(states: seq<State>, steps: seq<Step>) {
    && |states| == |steps| + 1
    && Init(states[0])
    && forall i :: 0 <= i < |steps| ==> Admissible(states[i], steps[i]) && states[i + 1] == Next(states[i], steps[i])
  }

  lemma SafeInEveryRun(states: seq<State>, steps: seq<Step>, i: nat)
    requires IsSafeRun(states, steps) && i < |states|
    ensures SafeInv(states[i])
  {
    hide PortOk, Inv, Next, Admissible;
    if i == 0 {
      InitSafe(states[0]);
    } else {
      SafeInEveryRun(states, steps, i - 1);
      SafeStep(states[i - 1], steps[i - 1]);
    }
  }

  /** Every step of the discipline keeps the two ends of each port linked. */
  lemma SafeStep(s: State, step: Step)
    requires SafeInv(s) && Admissible(s, step)
    ensures SafeInv(Next(s, step))
  {
    hide PortOk, Inv, Next;
    NextInv(s, step);
    forall q
      ensures PortOk(Next(s, step), q)
    {
      NextPortOk(s, step, q);
    }
  }

  /** An arriving CONNECT_SUCCESS keeps a safe state safe exactly if it is answered, or another one for
      the port is on its way, with no data before it. */
  lemma AnnouncementKeepsSafeIff(s: State, x: Side)
    requires SafeInv(s) && Enabled(s, Deliver(x)) && Channel(s, x)[0].kind.ConnectSuccess?
    ensures var p := Channel(s, x)[0].srcPort;
            SafeInv(Next(s, Deliver(x))) <==> Bearable(EndOf(Popped(s, x), x, p))
  {
    NextInv(s, Deliver(x));
    hide Inv, PortOk, Bearable, EndOf;
    forall q
      ensures var m := Channel(s, x)[0];
              PortOk(Next(s, Deliver(x)), q) <==>
              (q == m.srcPort ==> Bearable(EndOf(Popped(s, x), x, q)))
    {
      assert PortOk(s, q);
      SafeDelivery(s, x, q);
    }
  }

  // ---------------------------------------------------------------- what follows for every run

  /** Every data message sent by an endpoint that holds its connection finds the receiver's entry
      when it arrives, in every interleaving of connects, accepts, sends and deliveries. */
  lemma DataFindsItsConnection(states: seq<State>, steps: seq<Step>, i: nat)
    requires IsSafeRun(states, steps) && i < |steps| && Delivers(states[i], steps[i], Regular)
    ensures Delivery(states[i], steps[i].x).verdict == Done
    ensures ListAt(states[i], Slot(steps[i].x, Conns, Channel(states[i], steps[i].x)[0].srcPort)).chain != []
  {
    var s, x := states[i], steps[i].x;
    SafeInEveryRun(states, steps, i);
    DataAccepted(s, x);
  }

  lemma DataAccepted(s: State, x: Side)
    requires SafeInv(s) && Channel(s, x) != [] && Channel(s, x)[0].kind.Regular? && x !in s.finishing
    ensures Delivery(s, x).verdict == Done
    ensures ListAt(s, Slot(x, Conns, Channel(s, x)[0].srcPort)).chain != []
  {
    hide Accounted, Keyed, Addressed, EndOf, Linked;
    var m := Channel(s, x)[0];
    PopInv(s, x);
    assert PortOk(s, m.srcPort);
    SafeDelivery(s, x, m.srcPort);
    MatchIsHead(Popped(s, x), Slot(x, Conns, m.srcPort), m.srcPort, m.src);
    EndFacts(Popped(s, x), x, m.srcPort);
  }

  /** An established entry on a node that has not accepted on the port, or a CONNECT_SUCCESS on its way
      to a node, means that the other node has accepted and holds its entry. */
  lemma AnnouncedMeansAccepted(states: seq<State>, steps: seq<Step>, i: nat, x: Side, p: Port)
    requires IsSafeRun(states, steps) && i < |states|
    requires || (ListAt(states[i], Slot(x, Conns, p)).chain != [] && (x, p) !in states[i].accepted)
             || Count(Channel(states[i], x), ConnectSuccess, p) > 0
    ensures exists j :: 0 <= j < i && steps[j] == AcceptTake(Peer(x), p)
    ensures ListAt(states[i], Slot(Peer(x), Conns, p)).chain != []
  {
    SafeInEveryRun(states, steps, i);
    hide Inv;
    assert PortOk(states[i], p);
    hide Next, Enabled, PortOk;
    LinkedAt(states[i], x, p);
    AcceptedIffTook(states, steps, i, Peer(x), p);
  }

  lemma {:induction false} AcceptedIffTook(states: seq<State>, steps: seq<Step>, i: nat, x: Side, p: Port)
    requires IsRun(states, steps) && i < |states|
    ensures (x, p) in states[i].accepted <==> exists j :: 0 <= j < i && steps[j] == AcceptTake(x, p)
  {
    hide Next, Enabled;
    if i > 0 {
      AcceptedIffTook(states, steps, i - 1, x, p);
      NextHistory(states[i - 1], steps[i - 1]);
    }
  }

  lemma HandlerHistory(s: State, x: Side, m: Msg)
    ensures var s' := LocalTcpRcv(s, x, m).state;
            && s'.channels == s.channels && s'.listening == s.listening && s'.owed == s.owed
            && s'.connected == s.connected && s'.accepted == s.accepted
  {
    hide FirstMatch, ListAt;
  }

  /** A port once listened on stays so, through a close as well; only connect and accept make the other
      history. */
  lemma NextHistory(s: State, step: Step)
    requires Enabled(s, step)
    ensures Next(s, step).listening == s.listening + if step.Listen? then {(step.x, step.p)} else {}
    ensures Next(s, step).connected == s.connected + if step.BeginConnect? then {(step.x, step.p)} else {}
    ensures Next(s, step).accepted == s.accepted + if step.AcceptTake? then {(step.x, step.p)} else {}
  {
    if step.Deliver? {
      hide FirstMatch, ListAt, Channel, LocalTcpRcv, Popped;
      HandlerHistory(Popped(s, step.x), step.x, Channel(s, step.x)[0]);
      PoppedHistory(s, step.x);
    } else {
      OwnHistory(s, step);
    }
  }

  lemma OwnHistory(s: State, step: Step)
    requires Enabled(s, step) && !step.Deliver?
    ensures Next(s, step).listening == s.listening + if step.Listen? then {(step.x, step.p)} else {}
    ensures Next(s, step).connected == s.connected + if step.BeginConnect? then {(step.x, step.p)} else {}
    ensures Next(s, step).accepted == s.accepted + if step.AcceptTake? then {(step.x, step.p)} else {}
  {
    hide FirstMatch, ListAt, Channel, Delivery, Move, AddTo, Retire, Holds, FoundAt, RemoveCrashes;
    var s' := Next(s, step);
    match step {
      case BeginConnect(x, p) => AddFields(s, Slot(x, Pending, p), Entry(s.nextSk, p, Peer(x)));
      case FinishConnect(x, p, i) => MoveFields(s, Slot(x, Pending, p), i, Slot(x, Incoming, p));
      case AcceptTake(x, p) => MoveFields(s, Slot(x, Incoming, p), 0, Slot(x, Hand, p));
      case AcceptInstall(x, p, i) => MoveFields(s, Slot(x, Hand, p), i, Slot(x, Conns, p));
      case FinishSuccess(x) => MoveFields(s, Slot(x, Finishing, s.finishing[x]), 0, Slot(x, Conns, s.finishing[x]));
      case CloseSocket(x, p) => CloseHistory(s, x, p);
      case _ =>
    }
  }

  lemma CloseHistory(s: State, x: Side, p: Port)
    requires Enabled(s, CloseSocket(x, p))
    ensures var s' := Next(s, CloseSocket(x, p));
            s'.listening == s.listening && s'.connected == s.connected && s'.accepted == s.accepted
  {
    hide FirstMatch, ListAt, Channel, Delivery, Retire, RemoveCrashes;
    if Holds(s, Slot(x, Conns, p), p, Peer(x)) {
      RetireFields(s, Slot(x, Conns, p), FoundAt(s, Slot(x, Conns, p), p, Peer(x)));
    }
  }

  lemma RetireFields(s: State, slot: Slot, i: nat)
    requires i < |ListAt(s, slot).chain|
    ensures Retire(s, slot, i) == s.(lists := Retire(s, slot, i).lists, closed := Retire(s, slot, i).closed)
  {
  }

  lemma PoppedHistory(s: State, x: Side)
    requires Channel(s, x) != []
    ensures Popped(s, x).connected == s.connected && Popped(s, x).accepted == s.accepted
    ensures Popped(s, x).listening == s.listening
  {
  }

  // ---------------------------------------------------------------- when data is too early

  /** With nothing on its way before it, data is accepted exactly if the other node holds an entry in
      `conns`. Nothing in the code holds the sender back until then. */
  lemma DataAcceptedIff(s: State, x: Side, p: Port)
    requires Inv(s) && Channel(s, Peer(x)) == [] && Peer(x) !in s.finishing
    ensures Enabled(s, SendRegular(x, p)) && Enabled(Next(s, SendRegular(x, p)), Deliver(Peer(x)))
    ensures Delivery(Next(s, SendRegular(x, p)), Peer(x)).verdict ==
            if ListAt(s, Slot(Peer(x), Conns, p)).chain != [] then Done else Rejected
  {
    hide Accounted, Keyed, Addressed;
    var s' := Next(s, SendRegular(x, p));
    NextInv(s, SendRegular(x, p));
    PopInv(s', Peer(x));
    MatchIsHead(Popped(s', Peer(x)), Slot(Peer(x), Conns, p), p, x);
  }

  /** A node whose connect has inserted its entry, and that has not accepted on the port itself, answers
      every CONNECT_SUCCESS; with a single entry that is exactly when it does. */
  lemma SuccessCompletesIff(s: State, x: Side)
    requires SafeInv(s) && Channel(s, x) != [] && Channel(s, x)[0].kind.ConnectSuccess? && x !in s.finishing
    requires (x, Channel(s, x)[0].srcPort) in s.connected && (x, Channel(s, x)[0].srcPort) !in s.accepted
    ensures var p := Channel(s, x)[0].srcPort;
            var e := EndOf(s, x, p);
            && (e.pending == 0 ==> Answered(s, x, p))
            && (e.pending + e.incoming + e.conns == 1 ==> (Answered(s, x, p) <==> e.pending == 0))
  {
    hide Inv, Channel;
    var p := Channel(s, x)[0].srcPort;
    assert PortOk(s, p);
    EndFacts(s, x, p);
  }

  /** The state once node x has handled the message before it, and finished. */
  function Settled(s: State, x: Side): State
    requires Enabled(s, Deliver(x))
  {
    var s' := Next(s, Deliver(x));
    if Enabled(s', FinishSuccess(x)) then Next(s', FinishSuccess(x)) else s'
  }

  /** Data sent after a CONNECT_SUCCESS is accepted exactly if that was answered. */
  lemma AnnouncedDataAcceptedIff(s: State, x: Side, p: Port)
    requires Inv(s) && Channel(s, Peer(x)) == [Msg(ConnectSuccess, p, p, x)] && Peer(x) !in s.finishing
    ensures Enabled(s, Deliver(Peer(x)))
    ensures Delivery(Next(Settled(s, Peer(x)), SendRegular(x, p)), Peer(x)).verdict ==
            if Answered(s, Peer(x), p) then Done else Rejected
  {
    hide Accounted, Addressed, FirstMatch;
    var y := Peer(x);
    PopInv(s, y);
    MatchIsHead(Popped(s, y), Slot(y, Incoming, p), p, x);
    WhoCreatesWhoRetires(s, Deliver(y));
    NextInv(s, Deliver(y));
    var s' := Next(s, Deliver(y));
    hide Keyed;
    if Enabled(s', FinishSuccess(y)) {
      WhoCreatesWhoRetires(s', FinishSuccess(y));
      NextInv(s', FinishSuccess(y));
    }
    DataAcceptedIff(Settled(s, y), x, p);
  }

  /** No thread of a safe run is ever stuck between two of its steps, whichever comes first: entries that
      are held can be inserted, announcements sent, and messages handled. */
  lemma ThreadsNeverStuck(s: State, x: Side, p: Port, i: nat)
    requires SafeInv(s)
    ensures i < |ListAt(s, Slot(x, Pending, p)).chain| ==> Enabled(s, FinishConnect(x, p, i))
    ensures i < |ListAt(s, Slot(x, Hand, p)).chain| ==> Enabled(s, AcceptInstall(x, p, i))
    ensures s.owed[(x, p)] > 0 ==> Enabled(s, AcceptNotify(x, p))
    ensures x in s.finishing ==> Enabled(s, FinishSuccess(x))
    ensures x !in s.finishing && Channel(s, x) != [] ==> Enabled(s, Deliver(x))
  {
    hide Inv, FirstMatch, Linked, EndOf, Delivery, ListAt;
    if x in s.finishing {
      LinkedAt(s, x, s.finishing[x]);
      assert PortOk(s, s.finishing[x]);
      FinishingHeld(s, x);
    } else if Channel(s, x) != [] {
      NeverCrashes(s, x);
    }
  }

  lemma NeverCrashes(s: State, x: Side)
    requires SafeInv(s) && Channel(s, x) != [] && x !in s.finishing
    ensures Delivery(s, x).verdict != Crashed
  {
    hide Inv, FirstMatch, Linked, EndOf, Delivery, ListAt;
    CrashIffCloseUnknown(s, x);
    assert PortOk(s, Channel(s, x)[0].srcPort);
    SafeDelivery(s, x, Channel(s, x)[0].srcPort);
  }

  lemma FinishingHeld(s: State, x: Side)
    requires x in s.finishing && Linked(EndOf(s, x, s.finishing[x]), EndOf(s, Peer(x), s.finishing[x]))
    ensures |ListAt(s, Slot(x, Finishing, s.finishing[x])).chain| == 1
  {
    EndFacts(s, x, s.finishing[x]);
    hide EndOf;
  }

  /** A close can be called at any time, follows no NULL pointer, and changes nothing exactly if there is no
      entry. */
  lemma CloseChangesIff(s: State, x: Side, p: Port)
    requires Inv(s)
    ensures Enabled(s, CloseSocket(x, p))
    ensures Next(s, CloseSocket(x, p)) == s <==> ListAt(s, Slot(x, Conns, p)).chain == []
  {
    hide Accounted, Addressed, FirstMatch;
    MatchIsHead(s, Slot(x, Conns, p), p, Peer(x));
    WhoCreatesWhoRetires(s, CloseSocket(x, p));
  }
}

/** Connection set-up and tear-down between two nodes over in-order channels. */
module Handshake {
  import opened PortLists

  datatype Side = A | B

  function Peer(x: Side): Side { if x.A? then B else A }

  type Port = nat

  /** A `port_sk`: the socket it stands for and the remote port and address it is found by. */
  datatype Entry = Entry(sk: nat, rport: Port, rip: Side)

  function Key(rport: Port, rip: Side): Entry -> bool {
    (e: Entry) => e.rport == rport && e.rip == rip
  }

  datatype Kind = Regular | Connect | Close | ConnectSuccess | Unknown

  /** A queued message; its source address is the sending node's. */
  datatype Msg = Msg(kind: Kind, srcPort: Port, destPort: Port, src: Side)

  /** `Incoming` and `Conns` are the connection tables. The others are entries held by threads: `Pending`
      between the sending of CONNECT and their insertion, `Hand` between their removal by accept and
      their insertion, `Finishing` between their removal for a CONNECT_SUCCESS and their insertion. */
  datatype Table = Pending | Incoming | Hand | Finishing | Conns

  predicate IsLinked(t: Table) { t.Incoming? || t.Conns? }

  datatype Slot = Slot(side: Side, table: Table, port: Port)

  /** `owed`: the CONNECT_SUCCESS messages accept has yet to send for inserted entries.  `finishing`: the
      receive handler of a node is between the two halves of a CONNECT_SUCCESS for this port.
      `closed`, `nextSk`, `connected` and `accepted` are the history: the sockets taken off the tables
      for good, how many there have been, and who called connect and accept on which port. */
  datatype State = State(
    lists: map<Slot, List<Entry>>, listening: set<(Side, Port)>, owed: multiset<(Side, Port)>,
    finishing: map<Side, Port>, channels: map<Side, seq<Msg>>, nextSk: nat, closed: set<nat>,
    connected: set<(Side, Port)>, accepted: set<(Side, Port)>)

  function ListAt(s: State, slot: Slot): List<Entry> {
    if slot in s.lists then s.lists[slot] else Empty()
  }

  /** The messages on their way to node x, in order. */
  function Channel(s: State, x: Side): seq<Msg> {
    if x in s.channels then s.channels[x] else []
  }

  function Send(s: State, from: Side, kind: Kind, p: Port): State {
    s.(channels := s.channels[Peer(from) := Channel(s, Peer(from)) + [Msg(kind, p, p, from)]])
  }

  function AddTo(s: State, slot: Slot, e: Entry): State {
    s.(lists := s.lists[slot := Added(ListAt(s, slot), e)])
  }

  function TakeFrom(s: State, slot: Slot, i: nat): State
    requires i < |ListAt(s, slot).chain|
  {
    var l := ListAt(s, slot);
    s.(lists := s.lists[slot := if IsLinked(slot.table) then TakenOut(l, i) else l.(chain := Without(l.chain, i))])
  }

  /** Entry i of one list becomes the last entry of another. */
  function Move(s: State, from: Slot, i: nat, to: Slot): State
    requires i < |ListAt(s, from).chain|
  {
    AddTo(TakeFrom(s, from, i), to, ListAt(s, from).chain[i])
  }

  function Retire(s: State, from: Slot, i: nat): State
    requires i < |ListAt(s, from).chain|
  {
    TakeFrom(s, from, i).(closed := s.closed + {ListAt(s, from).chain[i].sk})
  }

  function FoundAt(s: State, slot: Slot, rport: Port, rip: Side): nat {
    FirstMatch(ListAt(s, slot).chain, Key(rport, rip))
  }

  predicate Holds(s: State, slot: Slot, rport: Port, rip: Side) {
    Present(ListAt(s, slot), Key(rport, rip))
  }

  // ---------------------------------------------------------------- the receive handler

  datatype Verdict = Done | Rejected | Crashed

  datatype Outcome = Outcome(state: State, verdict: Verdict)

  /** `local_tcp_rcv` on node x. It looks for its local port in the source port of the message. */
  function LocalTcpRcv(s: State, x: Side, m: Msg): Outcome {
    var lport, rport, rip := m.srcPort, m.destPort, m.src;
    var conns, incoming := Slot(x, Conns, lport), Slot(x, Incoming, lport);
    match m.kind
    case Regular =>
      Outcome(s, if Holds(s, conns, rport, rip) then Done else Rejected)
    case Connect =>
      if (x, lport) !in s.listening || Holds(s, conns, rport, rip) then Outcome(s, Done)
      else Outcome(AddTo(s, incoming, Entry(s.nextSk, rport, rip)).(nextSk := s.nextSk + 1), Done)
    case Close =>
      if !Holds(s, conns, rport, rip) || RemoveCrashes(ListAt(s, conns), Key(rport, rip)) then Outcome(s, Crashed)
      else Outcome(Retire(s, conns, FoundAt(s, conns, rport, rip)), Done)
    case ConnectSuccess =>
      if !Holds(s, incoming, rport, rip) then Outcome(s, Done)
      else if RemoveCrashes(ListAt(s, incoming), Key(rport, rip)) then Outcome(s, Crashed)
      else Outcome(Move(s, incoming, FoundAt(s, incoming, rport, rip), Slot(x, Finishing, lport))
                   .(finishing := s.finishing[x := lport]), Done)
    case Unknown => Outcome(s, Rejected)
  }

  // ---------------------------------------------------------------- steps

  datatype Step =
    | Listen(x: Side, p: Port)
    | BeginConnect(x: Side, p: Port) | FinishConnect(x: Side, p: Port, i: nat)
    | AcceptTake(x: Side, p: Port) | AcceptInstall(x: Side, p: Port, i: nat) | AcceptNotify(x: Side, p: Port)
    | SendRegular(x: Side, p: Port)
    | CloseSocket(x: Side, p: Port)
    | Deliver(x: Side)
    | FinishSuccess(x: Side)

  /** The oldest message on its way to x is taken off the ring. */
  function Popped(s: State, x: Side): State
    requires Channel(s, x) != []
  {
    s.(channels := s.channels[x := Channel(s, x)[1..]])
  }

  function Delivery(s: State, x: Side): Outcome
    requires Channel(s, x) != []
  {
    LocalTcpRcv(Popped(s, x), x, Channel(s, x)[0])
  }

  predicate Enabled(s: State, step: Step) {
    match step
    case Listen(_, _) => true
    case BeginConnect(_, _) => true
    case FinishConnect(x, p, i) => i < |ListAt(s, Slot(x, Pending, p)).chain|
    case AcceptTake(x, p) => ListAt(s, Slot(x, Incoming, p)).chain != []
    case AcceptInstall(x, p, i) => i < |ListAt(s, Slot(x, Hand, p)).chain|
    case AcceptNotify(x, p) => (x, p) in s.owed
    case SendRegular(_, _) => true
    case CloseSocket(x, p) => !RemoveCrashes(ListAt(s, Slot(x, Conns, p)), Key(p, Peer(x)))
    case Deliver(x) => Channel(s, x) != [] && x !in s.finishing && Delivery(s, x).verdict != Crashed
    case FinishSuccess(x) => x in s.finishing && ListAt(s, Slot(x, Finishing, s.finishing[x])).chain != []
  }

  function Next(s: State, step: Step): State
    requires Enabled(s, step)
  {
    match step
    case Listen(x, p) => s.(listening := s.listening + {(x, p)})
    case BeginConnect(x, p) =>
      Send(AddTo(s, Slot(x, Pending, p), Entry(s.nextSk, p, Peer(x))), x, Connect, p)
      .(nextSk := s.nextSk + 1, connected := s.connected + {(x, p)})
    case FinishConnect(x, p, i) => Move(s, Slot(x, Pending, p), i, Slot(x, Incoming, p))
    case AcceptTake(x, p) =>
      Move(s, Slot(x, Incoming, p), 0, Slot(x, Hand, p)).(accepted := s.accepted + {(x, p)})
    case AcceptInstall(x, p, i) =>
      Move(s, Slot(x, Hand, p), i, Slot(x, Conns, p)).(owed := s.owed + multiset{(x, p)})
    case AcceptNotify(x, p) => Send(s, x, ConnectSuccess, p).(owed := s.owed - multiset{(x, p)})
    case SendRegular(x, p) => Send(s, x, Regular, p)
    case CloseSocket(x, p) =>
      if Holds(s, Slot(x, Conns, p), p, Peer(x)) then
        Send(Retire(s, Slot(x, Conns, p), FoundAt(s, Slot(x, Conns, p), p, Peer(x))), x, Close, p)
      else s
    case Deliver(x) => Delivery(s, x).state
    case FinishSuccess(x) =>
      Move(s, Slot(x, Finishing, s.finishing[x]), 0, Slot(x, Conns, s.finishing[x])).(finishing := s.finishing - {x})
  }

  ghost predicate Init(s: State) {
    s == State(map[], {}, multiset{}, map[], map[], 0, {}, {}, {})
  }

  ghost predicate IsRun(states: seq<State>, steps: seq<Step>) {
    && |states| == |steps| + 1
    && Init(states[0])
    && forall i :: 0 <= i < |steps| ==> Enabled(states[i], steps[i]) && states[i + 1] == Next(states[i], steps[i])
  }
}

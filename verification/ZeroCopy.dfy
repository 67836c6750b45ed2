/** The zero-copy payload path: a send maps the sender's own pages and announces them, chunk after
    chunk; a receive maps its buffer and pulls the bytes over by DMA.  Either may fail.  Announcements
    travel in order, which is what the metadata ring provides. */
module ZeroCopy {
  import opened Constants
  import opened Dma
  import DmaSemaphore
  import opened Iommu
  import opened ModArith
  import opened Paging

  /** `offset_from_aperture` and `size` of a queued message. */
  datatype Announcement = Announcement(offset: int, size: nat)

  /** The loop of `ltcp_direct_copy`, between two calls of `rdma_xmit`: the send it serves, and how many
      chunks have been passed. */
  datatype Sending = Resting | Serving(start: nat, len: U64, passed: nat)

  datatype State = State(
    sender: Node, receiver: Node, aperture: nat, sending: Sending,
    queue: seq<Announcement>, sent: seq<Byte>, pulled: seq<Byte>)

  /** How `rdma_xmit` returns: with 0; with -1 and nothing mapped, because pages were missing or a
      mapping was refused; or with -1 after the message was announced, because no interrupt was sent. */
  datatype XmitResult = Announced | Refused | Unsignalled

  datatype Step =
    | Send(start: nat, len: U64)                    // a program sends [start, start + len)
    | Xmit(block: nat, result: XmitResult)          // `rdma_xmit` of the next chunk, its pages mapped at `block`
      // `local_tcp_recvmsg` into [start, start + room): what mapping the buffer returns, missing pages being
      // one way to refuse, and how the transfer ends
    | Receive(start: nat, room: nat, block: nat, mapped: MapStatus, ending: DmaSemaphore.Ending)
    | SenderStores(mem: Memory)
    | ReceiverStores(mem: Memory)

  predicate Succeeds(step: Step) {
    step.Receive? && step.mapped.Mapped? && step.ending.Completed?
  }

  // ---------------------------------------------------------------- messages in flight

  /** The announced bytes can still be fetched through the sender's IOMMU. */
  ghost predicate Fetchable(node: Node, aperture: nat, a: Announcement) {
    aperture + a.offset >= 0 && OnBusPages(node.table, aperture + a.offset, a.size)
  }

  ghost function Fetch(node: Node, aperture: nat, a: Announcement): (bytes: seq<Byte>)
    requires Fetchable(node, aperture, a)
    ensures |bytes| == a.size
  {
    DmaRead(node, aperture + a.offset, a.size)
  }

  ghost predicate AllFetchable(node: Node, aperture: nat, queue: seq<Announcement>) {
    forall i :: 0 <= i < |queue| ==> Fetchable(node, aperture, queue[i])
  }

  /** What fetching the queued messages now, in order, would yield. */
  ghost function InFlight(node: Node, aperture: nat, queue: seq<Announcement>): seq<Byte>
    requires AllFetchable(node, aperture, queue)
  {
    if queue == [] then [] else Fetch(node, aperture, queue[0]) + InFlight(node, aperture, queue[1..])
  }

  lemma {:induction false} InFlightAppend(node: Node, aperture: nat, queue: seq<Announcement>, a: Announcement)
    requires AllFetchable(node, aperture, queue) && Fetchable(node, aperture, a)
    ensures AllFetchable(node, aperture, queue + [a])
    ensures InFlight(node, aperture, queue + [a]) == InFlight(node, aperture, queue) + Fetch(node, aperture, a)
  {
    hide Fetchable, Fetch;
    if queue == [] {
      assert (queue + [a])[1..] == [];
    } else {
      InFlightAppend(node, aperture, queue[1..], a);
      assert (queue + [a])[1..] == queue[1..] + [a];
    }
  }

  /** `after` still maps what `before` maps, and holds the same byte wherever message a lies. */
  ghost predicate PreservesOne(before: Node, after: Node, aperture: nat, a: Announcement) {
    && (forall p :: p in before.table ==> p in after.table && after.table[p] == before.table[p])
    && forall bus: nat :: aperture + a.offset <= bus < aperture + a.offset + a.size && OnBusPage(before.table, bus)
         ==> after.mem(BusPhys(before.table, bus)) == before.mem(BusPhys(before.table, bus))
  }

  lemma FetchPreserved(before: Node, after: Node, aperture: nat, a: Announcement)
    requires Fetchable(before, aperture, a) && PreservesOne(before, after, aperture, a)
    ensures Fetchable(after, aperture, a) && Fetch(after, aperture, a) == Fetch(before, aperture, a)
  {
    assert forall bus: nat :: OnBusPage(before.table, bus) ==>
             OnBusPage(after.table, bus) && BusPhys(after.table, bus) == BusPhys(before.table, bus);
  }

  ghost predicate Preserves(before: Node, after: Node, aperture: nat, queue: seq<Announcement>) {
    forall i :: 0 <= i < |queue| ==> PreservesOne(before, after, aperture, queue[i])
  }

  lemma {:induction false} InFlightPreserved(before: Node, after: Node, aperture: nat, queue: seq<Announcement>)
    requires AllFetchable(before, aperture, queue) && Preserves(before, after, aperture, queue)
    ensures AllFetchable(after, aperture, queue)
    ensures InFlight(after, aperture, queue) == InFlight(before, aperture, queue)
  {
    hide Fetchable, Fetch, PreservesOne;
    if queue != [] {
      InFlightPreserved(before, after, aperture, queue[1..]);
      FetchPreserved(before, after, aperture, queue[0]);
      assert queue == [queue[0]] + queue[1..];
    }
  }

  // ---------------------------------------------------------------- steps

  /** The node once `n` user pages from the page of `start` on are mapped at `block`. */
  ghost function WithBlock(node: Node, start: nat, n: nat, block: nat): Node
    requires PagesPresent(node.pages, start, n)
  {
    node.(table := node.table + Mapping(block, UserPages(node.pages, start, n)))
  }

  /** The allocator's promise: an aligned block of unmapped pages. */
  ghost predicate FreshBlock(node: Node, block: nat, n: nat) {
    block % PAGE_SIZE == 0 && node.table.Keys !! PageAddrs(block, n)
  }

  /** How many bytes a receive into a buffer of `room` bytes takes from the oldest message. */
  function Taken(queue: seq<Announcement>, room: nat): nat
    requires queue != []
  {
    if queue[0].size < room then queue[0].size else room
  }

  function CurrentChunk(s: State): Chunk
    requires s.sending.Serving? && s.sending.passed < |Chunks(s.sending.start, s.sending.len)|
  {
    Chunks(s.sending.start, s.sending.len)[s.sending.passed]
  }

  ghost predicate Enabled(s: State, step: Step) {
    match step
    case Send(_, _) => s.sending.Resting?
    case Xmit(block, result) =>
      && s.sending.Serving? && s.sending.passed < |Chunks(s.sending.start, s.sending.len)|
      && (!result.Refused? ==>
            var c := CurrentChunk(s);
            && OnUserPages(s.sender.pages, c.start, c.size)
            && PagesPresent(s.sender.pages, c.start, c.nrPages)
            && FreshBlock(s.sender, block, c.nrPages))
    case Receive(start, room, block, mapped, _) =>
      && s.queue != []
      && Fetchable(s.sender, s.aperture, s.queue[0])
      && (mapped.Mapped? ==>
            var n := CalcNrPages(start, Taken(s.queue, room));
            PagesPresent(s.receiver.pages, start, n) && FreshBlock(s.receiver, block, n))
    case SenderStores(_) => true
    case ReceiverStores(_) => true
  }

  /** The receiver after pulling `data` into the mapped buffer at `start`. */
  ghost function AfterPull(node: Node, start: nat, block: nat, data: seq<Byte>): Node
    requires PagesPresent(node.pages, start, CalcNrPages(start, |data|)) && block % PAGE_SIZE == 0
  {
    var mapped := WithBlock(node, start, CalcNrPages(start, |data|), block);
    PullFits(node, start, block, |data|);
    mapped.(mem := DmaWrite(mapped, block + start % PAGE_SIZE, data))
  }

  lemma PullFits(node: Node, start: nat, block: nat, len: nat)
    requires PagesPresent(node.pages, start, CalcNrPages(start, len)) && block % PAGE_SIZE == 0
    ensures var mapped := WithBlock(node, start, CalcNrPages(start, len), block);
            && MapsBlock(mapped.pages, mapped.table, block, start, CalcNrPages(start, len))
            && start % PAGE_SIZE + len <= CalcNrPages(start, len) * PAGE_SIZE
            && OnUserPages(mapped.pages, start, len)
            && OnBusPages(mapped.table, block + start % PAGE_SIZE, len)
  {
    hide CalcNrPages;
    var n := CalcNrPages(start, len);
    RangeFitsIff(start, len, n);
    MappingMapsBlock(node.pages, node.table, block, start, n);
    var mapped := WithBlock(node, start, n, block);
    BlockCoversRange(mapped.pages, mapped.table, block, start, n, len);
  }

  ghost function Next(s: State, step: Step): State
    requires Enabled(s, step)
  {
    match step
    case Send(start, len) => s.(sending := Serving(start, len, 0))
    case Xmit(block, result) =>
      if result.Refused? then s.(sending := Resting)
      else Announce(s, CurrentChunk(s), block).(sending := if result.Announced? then Passed(s.sending) else Resting)
    case Receive(start, room, block, mapped, ending) =>
      if !mapped.Mapped? then s.(queue := s.queue[1..])
      else if !ending.Completed? then
        var n := CalcNrPages(start, Taken(s.queue, room));
        s.(receiver := WithBlock(s.receiver, start, n, block), queue := s.queue[1..])
      else Pull(s, start, room, block)
    case SenderStores(mem) => s.(sender := s.sender.(mem := mem))
    case ReceiverStores(mem) => s.(receiver := s.receiver.(mem := mem))
  }

  /** The loop after a call that returned 0: at the next chunk, or done. */
  function Passed(sending: Sending): Sending
    requires sending.Serving?
  {
    if sending.passed + 1 < |Chunks(sending.start, sending.len)| then sending.(passed := sending.passed + 1)
    else Resting
  }

  ghost function Announce(s: State, c: Chunk, block: nat): State
    requires OnUserPages(s.sender.pages, c.start, c.size) && PagesPresent(s.sender.pages, c.start, c.nrPages)
  {
    s.(sender := WithBlock(s.sender, c.start, c.nrPages, block),
       queue := s.queue + [Announcement(block - s.aperture + c.offsetFirstPage, c.size)],
       sent := s.sent + UserBytes(s.sender, c.start, c.size))
  }

  ghost function Pull(s: State, start: nat, room: nat, block: nat): State
    requires s.queue != [] && Fetchable(s.sender, s.aperture, s.queue[0])
    requires PagesPresent(s.receiver.pages, start, CalcNrPages(start, Taken(s.queue, room))) && block % PAGE_SIZE == 0
  {
    var data := Fetch(s.sender, s.aperture, s.queue[0])[..Taken(s.queue, room)];
    var receiver := AfterPull(s.receiver, start, block, data);
    PullFits(s.receiver, start, block, |data|);
    s.(receiver := receiver, queue := s.queue[1..], pulled := s.pulled + UserBytes(receiver, start, |data|))
  }

  /** A send that maps, chunk by chunk, the pages its bytes lie on (`PagesMatchIff`). */
  predicate WholePages(start: nat, len: U64) {
    start % PAGE_SIZE == 0 || CalcNrPages(start, len) <= MAX_PAGES_SEND
  }

  /** The bytes of the send being served are as they were. */
  ghost predicate KeepsSend(s: State, mem: Memory) {
    s.sending.Serving? ==>
      forall va :: s.sending.start <= va < s.sending.start + s.sending.len && OnUserPage(s.sender.pages, va)
        ==> mem(UserPhys(s.sender.pages, va)) == s.sender.mem(UserPhys(s.sender.pages, va))
  }

  /** The discipline the stream relies on: sends are page aligned or fit one chunk; a receive that has
      something to pull has a buffer no smaller than the message, and succeeds; and the sender leaves
      alone what it is sending or has announced. */
  ghost predicate Admissible(s: State, step: Step) {
    && Enabled(s, step)
    && match step
       case Send(start, len) => WholePages(start, len)
       case Receive(_, room, _, _, _) => s.queue[0].size == 0 || (s.queue[0].size <= room && Succeeds(step))
       case SenderStores(mem) => KeepsSend(s, mem) && Preserves(s.sender, s.sender.(mem := mem), s.aperture, s.queue)
       case _ => true
  }

  /** The bytes pulled so far, followed by those still to be fetched, are the bytes sent. */
  ghost predicate Conserved(s: State) {
    AllFetchable(s.sender, s.aperture, s.queue) && s.pulled + InFlight(s.sender, s.aperture, s.queue) == s.sent
  }

  ghost predicate Inv(s: State) {
    && PagesDistinct(s.receiver.pages) && Conserved(s)
    && (s.sending.Serving? ==> WholePages(s.sending.start, s.sending.len))
  }

  lemma MappingMorePreserves(node: Node, start: nat, n: nat, block: nat, aperture: nat, queue: seq<Announcement>)
    requires PagesPresent(node.pages, start, n) && FreshBlock(node, block, n)
    ensures Preserves(node, WithBlock(node, start, n, block), aperture, queue)
  {
  }

  /** The message announced for a chunk fetches exactly the user's bytes. */
  lemma AnnouncedIsUserRange(node: Node, c: Chunk, block: nat, aperture: nat)
    requires PagesPresent(node.pages, c.start, c.nrPages) && block % PAGE_SIZE == 0
    requires c.offsetFirstPage == c.start % PAGE_SIZE && c.nrPages == CalcNrPages(c.start, c.size)
    ensures OnUserPages(node.pages, c.start, c.size)
    ensures var a := Announcement(block - aperture + c.offsetFirstPage, c.size);
            var after := WithBlock(node, c.start, c.nrPages, block);
            Fetchable(after, aperture, a) && Fetch(after, aperture, a) == UserBytes(node, c.start, c.size)
  {
    hide CalcNrPages;
    PullFits(node, c.start, block, c.size);
    var after := WithBlock(node, c.start, c.nrPages, block);
    DmaReadsUserRange(after, block, c.start, c.nrPages, c.size);
  }

  /** Every chunk of a send of whole pages is given its own pages and its own page offset. */
  lemma ChunkMatches(start: nat, len: U64, j: nat)
    requires WholePages(start, len) && j < |Chunks(start, len)|
    ensures var c := Chunks(start, len)[j];
            c.offsetFirstPage == c.start % PAGE_SIZE && c.nrPages == CalcNrPages(c.start, c.size)
  {
    PagesMatchIff(start, len);
    hide CalcNrPages;
    assert Chunks(start, len)[j] in Chunks(start, len);
    AddMultiple(start, j * MAX_PAGES_SEND, PAGE_SIZE);
  }

  lemma KeepXmit(s: State, step: Step)
    requires Inv(s) && Enabled(s, step) && step.Xmit?
    ensures Inv(Next(s, step))
  {
    hide Fetch, Fetchable, CalcNrPages, Preserves, OnUserPages, Chunks, WholePages;
    if !step.result.Refused? {
      var c, block := CurrentChunk(s), step.block;
      ChunkMatches(s.sending.start, s.sending.len, s.sending.passed);
      var after := WithBlock(s.sender, c.start, c.nrPages, block);
      var a := Announcement(block - s.aperture + c.offsetFirstPage, c.size);
      MappingMorePreserves(s.sender, c.start, c.nrPages, block, s.aperture, s.queue);
      InFlightPreserved(s.sender, after, s.aperture, s.queue);
      AnnouncedIsUserRange(s.sender, c, block, s.aperture);
      InFlightAppend(after, s.aperture, s.queue, a);
    }
  }

  /** The first chunk of any other send is announced one page longer than it is mapped: it can be fetched
      only if the page behind its block happens to be mapped for something else. */
  lemma MisalignedFetchableIff(node: Node, start: nat, len: U64, block: nat, aperture: nat)
    requires !WholePages(start, len)
    requires PagesPresent(node.pages, start, MAX_PAGES_SEND) && FreshBlock(node, block, MAX_PAGES_SEND)
    ensures Chunks(start, len)[0] == Chunk(start, MAX_PAGES_SEND, start % PAGE_SIZE, MAX_PAGES_SEND * PAGE_SIZE)
    ensures var after := WithBlock(node, start, MAX_PAGES_SEND, block);
            var a := Announcement(block - aperture + start % PAGE_SIZE, MAX_PAGES_SEND * PAGE_SIZE);
            Fetchable(after, aperture, a) <==> PageAt(block, MAX_PAGES_SEND) in node.table
  {
    ChunkRound(start, len, 0, 0, len);
    hide CalcNrPages, Chunks, WholePages, OnBusPages, PageAt, PageAddrs;
    var after := WithBlock(node, start, MAX_PAGES_SEND, block);
    OffsetRangeOnBusIff(after.table, node.table, block, MAX_PAGES_SEND, start % PAGE_SIZE);
    assert aperture + (block - aperture + start % PAGE_SIZE) == block + start % PAGE_SIZE;
  }

  /** A range as long as a block, but at an offset, is mapped exactly if the page behind the block is. */
  lemma OffsetRangeOnBusIff(table: map<nat, nat>, before: map<nat, nat>, block: nat, n: nat, offset: nat)
    requires block % PAGE_SIZE == 0 && 0 < offset < PAGE_SIZE && table.Keys == before.Keys + PageAddrs(block, n)
    ensures OnBusPages(table, block + offset, n * PAGE_SIZE) <==> n == 0 || PageAt(block, n) in before
  {
    var size := n * PAGE_SIZE;
    hide OnBusPage, PageAt, PageAddrs;
    forall bus | block + offset <= bus < block + offset + size
      ensures OnBusPage(table, bus) <==> bus < block + size || PageAt(block, n) in before
    {
      OnBlockOrBehind(table, before, block, n, bus - block);
    }
    if n > 0 {
      MulOrder(1, n, PAGE_SIZE);
      assert block + offset <= block + size < block + offset + size;
      assert OnBusPage(table, block + size) <==> PageAt(block, n) in before;
    }
  }

  /** Which page of a block, or the one behind it, holds the byte `reach` bytes into it. */
  lemma OnBlockOrBehind(table: map<nat, nat>, before: map<nat, nat>, block: nat, n: nat, reach: nat)
    requires block % PAGE_SIZE == 0 && reach < n * PAGE_SIZE + PAGE_SIZE
    requires table.Keys == before.Keys + PageAddrs(block, n)
    ensures OnBusPage(table, block + reach) <==> reach < n * PAGE_SIZE || PageAt(block, n) in before
  {
    hide PageAt, PageAddrs;
    var i := reach / PAGE_SIZE;
    PageIndex(reach, n);
    SplitAddress(block, reach, i, reach % PAGE_SIZE);
    PageAddrsBelow(block, n, i);
  }

  lemma PageIndex(reach: nat, n: nat)
    requires reach < n * PAGE_SIZE + PAGE_SIZE
    ensures if reach < n * PAGE_SIZE then reach / PAGE_SIZE < n else reach / PAGE_SIZE == n
  {
    if reach < n * PAGE_SIZE {
      QuotientBelow(reach, n);
    } else {
      DivModUnique(reach, PAGE_SIZE, n, reach - n * PAGE_SIZE);
    }
  }

  /** So what such a send announces first cannot be fetched, unless that page is mapped. */
  lemma MisalignedXmitFetchableIff(s: State, block: nat, result: XmitResult)
    requires s.sending.Serving? && s.sending.passed == 0 && !WholePages(s.sending.start, s.sending.len)
    requires Enabled(s, Xmit(block, result)) && !result.Refused?
    ensures var s' := Next(s, Xmit(block, result));
            && |s'.queue| == |s.queue| + 1 && s'.queue[..|s.queue|] == s.queue
            && (Fetchable(s'.sender, s'.aperture, s'.queue[|s.queue|]) <==>
                PageAt(block, MAX_PAGES_SEND) in s.sender.table)
  {
    FirstOfSeveral(s.sending.start, s.sending.len);
    hide CalcNrPages, Chunks, Fetchable, WholePages, WithBlock;
    MisalignedFetchableIff(s.sender, s.sending.start, s.sending.len, block, s.aperture);
  }

  /** A pull puts the fetched bytes into the user's buffer and disturbs no other user byte. */
  lemma PullLands(node: Node, start: nat, block: nat, data: seq<Byte>, va: nat)
    requires PagesDistinct(node.pages) && OnUserPage(node.pages, va)
    requires PagesPresent(node.pages, start, CalcNrPages(start, |data|)) && block % PAGE_SIZE == 0
    ensures AfterPull(node, start, block, data).mem(UserPhys(node.pages, va)) ==
            if start <= va < start + |data| then data[va - start] else node.mem(UserPhys(node.pages, va))
  {
    hide CalcNrPages;
    var n := CalcNrPages(start, |data|);
    PullFits(node, start, block, |data|);
    DmaLandsInUserRange(WithBlock(node, start, n, block), block, start, n, data, va);
  }

  lemma PullReadsBack(node: Node, start: nat, block: nat, data: seq<Byte>)
    requires PagesDistinct(node.pages)
    requires PagesPresent(node.pages, start, CalcNrPages(start, |data|)) && block % PAGE_SIZE == 0
    ensures OnUserPages(node.pages, start, |data|)
    ensures UserBytes(AfterPull(node, start, block, data), start, |data|) == data
  {
    hide CalcNrPages;
    PullFits(node, start, block, |data|);
    hide WithBlock, MapsBlock, OnBusPages, PagesPresent, OnUserPages, UserPhys;
    var after := AfterPull(node, start, block, data);
    forall va | start <= va < start + |data| && OnUserPage(node.pages, va)
      ensures after.mem(UserPhys(node.pages, va)) == data[va - start]
    {
      PullLands(node, start, block, data, va);
    }
    ReadsAs(after, start, data);
  }

  lemma ReadsAs(node: Node, start: nat, data: seq<Byte>)
    requires OnUserPages(node.pages, start, |data|)
    requires forall va :: start <= va < start + |data| && OnUserPage(node.pages, va)
               ==> node.mem(UserPhys(node.pages, va)) == data[va - start]
    ensures UserBytes(node, start, |data|) == data
  {
  }

  /** What a receive delivers: if it succeeds, the first bytes of the message, as many as fit the buffer;
      if not, nothing. In either case the message is gone, and what was behind it is next. */
  lemma ReceiveDelivers(s: State, step: Step)
    requires Inv(s) && Enabled(s, step) && step.Receive?
    ensures var n := if s.queue[0].size <= step.room then s.queue[0].size else step.room;
            var message := Fetch(s.sender, s.aperture, s.queue[0]);
            Next(s, step).pulled == s.pulled + if Succeeds(step) then message[..n] else []
    ensures Next(s, step).queue == s.queue[1..]
  {
    hide CalcNrPages, Fetchable, AfterPull, WithBlock, Chunks;
    if Succeeds(step) {
      var data := Fetch(s.sender, s.aperture, s.queue[0])[..Taken(s.queue, step.room)];
      PullReadsBack(s.receiver, step.start, step.block, data);
    }
  }

  /** A receive keeps the account exactly if the message is empty, or the buffer is large enough for it
      and both the mapping and the transfer succeed: every failing receive consumes its message. */
  lemma ReceiveConservesIff(s: State, step: Step)
    requires Inv(s) && Enabled(s, step) && step.Receive?
    ensures Conserved(Next(s, step)) <==> s.queue[0].size == 0 || (s.queue[0].size <= step.room && Succeeds(step))
  {
    hide CalcNrPages, Fetchable, AfterPull, WithBlock, Chunks;
    var first := Fetch(s.sender, s.aperture, s.queue[0]);
    var rest := InFlight(s.sender, s.aperture, s.queue[1..]);
    assert s.sent == s.pulled + (first + rest);
    if Succeeds(step) {
      PullConservesIff(s, step.start, step.room, step.block);
    } else {
      assert first == [] ==> first + rest == rest;
    }
  }

  lemma PullConservesIff(s: State, start: nat, room: nat, block: nat)
    requires Inv(s) && s.queue != [] && Fetchable(s.sender, s.aperture, s.queue[0])
    requires PagesPresent(s.receiver.pages, start, CalcNrPages(start, Taken(s.queue, room))) && block % PAGE_SIZE == 0
    ensures Conserved(Pull(s, start, room, block)) <==> s.queue[0].size <= room
  {
    hide CalcNrPages, Fetchable, AfterPull;
    var first := Fetch(s.sender, s.aperture, s.queue[0]);
    var data := first[..Taken(s.queue, room)];
    PullReadsBack(s.receiver, start, block, data);
    assert Pull(s, start, room, block).pulled == s.pulled + data;
    var rest := InFlight(s.sender, s.aperture, s.queue[1..]);
    assert s.sent == s.pulled + (first + rest);
    if s.queue[0].size <= room {
      assert data == first;
      assert s.pulled + (first + rest) == s.pulled + first + rest;
    }
  }

  /** A store by the sender keeps the stream complete exactly if the queued messages fetch what they did
      before; one by the receiver always does. */
  lemma StoreConservesIff(s: State, mem: Memory)
    requires Inv(s)
    ensures AllFetchable(s.sender.(mem := mem), s.aperture, s.queue)
    ensures Conserved(Next(s, SenderStores(mem))) <==>
            InFlight(s.sender.(mem := mem), s.aperture, s.queue) == InFlight(s.sender, s.aperture, s.queue)
    ensures Conserved(Next(s, ReceiverStores(mem))) && Next(s, ReceiverStores(mem)).receiver.mem == mem
  {
    var was := InFlight(s.sender, s.aperture, s.queue);
    assert forall a :: Fetchable(s.sender, s.aperture, a) <==> Fetchable(s.sender.(mem := mem), s.aperture, a);
    var now := InFlight(s.sender.(mem := mem), s.aperture, s.queue);
    assert (s.pulled + was)[|s.pulled|..] == was && (s.pulled + now)[|s.pulled|..] == now;
  }

  lemma NextInv(s: State, step: Step)
    requires Inv(s) && Admissible(s, step)
    ensures Inv(Next(s, step))
  {
    hide CalcNrPages, Fetchable, Preserves, Chunks, WithBlock, AfterPull, WholePages, KeepsSend;
    match step {
      case Send(_, _) =>
      case Xmit(_, _) => KeepXmit(s, step);
      case Receive(_, _, _, _, _) => ReceiveConservesIff(s, step); ReceiveKeepsPages(s, step);
      case SenderStores(mem) => InFlightPreserved(s.sender, s.sender.(mem := mem), s.aperture, s.queue);
      case ReceiverStores(_) =>
    }
  }

  lemma ReceiveKeepsPages(s: State, step: Step)
    requires Enabled(s, step) && step.Receive?
    ensures Next(s, step).receiver.pages == s.receiver.pages && Next(s, step).sending == s.sending
  {
    hide CalcNrPages, Fetchable, Chunks;
  }

  ghost predicate Init(s: State) {
    PagesDistinct(s.receiver.pages) && s.sending.Resting? && s.queue == [] && s.sent == s.pulled == []
  }

  ghost predicate IsRun(states: seq<State>, steps: seq<Step>) {
    && |states| == |steps| + 1
    && Init(states[0])
    && forall i :: 0 <= i < |steps| ==> Admissible(states[i], steps[i]) && states[i + 1] == Next(states[i], steps[i])
  }

  /** At every instant of every admissible run nothing is lost, altered or reordered; and once no
      message is queued, what successive receives pulled is exactly the sender's bytes. */
  lemma StreamInEveryRun(states: seq<State>, steps: seq<Step>, i: nat)
    requires IsRun(states, steps) && i < |states|
    ensures Inv(states[i])
    ensures states[i].queue == [] ==> states[i].pulled == states[i].sent
  {
    hide Admissible, Next, WholePages;
    if i > 0 {
      StreamInEveryRun(states, steps, i - 1);
      NextInv(states[i - 1], steps[i - 1]);
    }
  }

  // ---------------------------------------------------------------- one send, from its call to its return

  lemma UserBytesSplit(node: Node, start: nat, len: nat, more: nat)
    requires OnUserPages(node.pages, start, len + more)
    ensures OnUserPages(node.pages, start, len) && OnUserPages(node.pages, start + len, more)
    ensures UserBytes(node, start, len + more) == UserBytes(node, start, len) + UserBytes(node, start + len, more)
  {
  }

  /** The sums grow with every chunk, to the length of the send. */
  lemma {:induction false} PrefixSum(chunks: seq<Chunk>, n: nat)
    requires n <= |chunks|
    ensures SumSizes(chunks[..n]) <= SumSizes(chunks)
    decreases |chunks|
  {
    if n < |chunks| {
      PrefixSum(chunks[..|chunks| - 1], n);
      assert chunks[..|chunks| - 1][..n] == chunks[..n];
    } else {
      assert chunks[..n] == chunks;
    }
  }

  lemma SentUpTo(start: nat, len: U64, n: nat)
    requires WholePages(start, len) && n < |Chunks(start, len)|
    ensures var chunks := Chunks(start, len);
            && SumSizes(chunks[..n + 1]) == SumSizes(chunks[..n]) + chunks[n].size <= len
            && chunks[n].start == start + SumSizes(chunks[..n])
  {
    AlignedOrSingleAddsUp(start, len);
    ChunkStartsAfterSum(start, len, n);
    hide Chunks, CalcNrPages;
    var chunks := Chunks(start, len);
    PrefixSum(chunks, n + 1);
    assert chunks[..n + 1][..n] == chunks[..n];
  }

  /** State `s` is `first` with the first `count` bytes of [start, start + len) sent, and these len bytes
      as they were. */
  ghost predicate SentMore(first: State, s: State, start: nat, len: nat, count: nat) {
    && OnUserPages(first.sender.pages, start, count)
    && s.sent == first.sent + UserBytes(first.sender, start, count)
    && s.sender.pages == first.sender.pages
    && forall va :: start <= va < start + len && OnUserPage(first.sender.pages, va) ==>
         s.sender.mem(UserPhys(first.sender.pages, va)) == first.sender.mem(UserPhys(first.sender.pages, va))
  }

  lemma SendOne(first: State, s: State, start: nat, len: nat, count: nat, c: Chunk, block: nat)
    requires SentMore(first, s, start, len, count) && c.start == start + count && count + c.size <= len
    requires OnUserPages(s.sender.pages, c.start, c.size) && PagesPresent(s.sender.pages, c.start, c.nrPages)
    ensures SentMore(first, Announce(s, c, block), start, len, count + c.size)
  {
    hide Mapping, UserPages, OnUserPage, UserPhys, PagesPresent;
    assert OnUserPages(first.sender.pages, start, count + c.size);
    UserBytesSplit(first.sender, start, count, c.size);
    SameBytes(first.sender, s.sender, start, len, c.start, c.size);
    hide OnUserPages, UserBytes;
    var sent, more := UserBytes(first.sender, start, count), UserBytes(first.sender, c.start, c.size);
    assert first.sent + sent + more == first.sent + (sent + more);
  }

  lemma SameBytes(before: Node, after: Node, start: nat, len: nat, from: nat, size: nat)
    requires start <= from && from + size <= start + len && OnUserPages(before.pages, from, size)
    requires after.pages == before.pages
    requires forall va :: start <= va < start + len && OnUserPage(before.pages, va) ==>
               after.mem(UserPhys(before.pages, va)) == before.mem(UserPhys(before.pages, va))
    ensures UserBytes(after, from, size) == UserBytes(before, from, size)
  {
    hide UserPhys;
    var was, now := UserBytes(before, from, size), UserBytes(after, from, size);
    forall k | 0 <= k < size
      ensures now[k] == was[k]
    {
      assert OnUserPage(before.pages, from + k);
    }
  }

  /** The send called at step i has not returned before state j. */
  ghost predicate Underway(states: seq<State>, i: nat, j: nat) {
    i < j < |states| && forall k :: i < k <= j ==> states[k].sending.Serving?
  }

  lemma {:induction false} SendSoFar(states: seq<State>, steps: seq<Step>, i: nat, j: nat, start: nat, len: U64)
    requires IsRun(states, steps) && i < |steps| && steps[i] == Send(start, len) && Underway(states, i, j)
    ensures states[j].sending == Serving(start, len, states[j].sending.passed)
    ensures states[j].sending.passed < |Chunks(start, len)|
    ensures SentMore(states[i], states[j], start, len, SumSizes(Chunks(start, len)[..states[j].sending.passed]))
  {
    hide Next, SentMore, Chunks, WholePages;
    assert Admissible(states[i], steps[i]);
    if j == i + 1 {
      SendBegins(states[i], start, len);
    } else {
      SendSoFar(states, steps, i, j - 1, start, len);
      assert Admissible(states[j - 1], steps[j - 1]) && states[j] == Next(states[j - 1], steps[j - 1]);
      assert states[j].sending.Serving?;
      SendGoesOn(states[i], states[j - 1], steps[j - 1], start, len);
    }
  }

  lemma SendBegins(s: State, start: nat, len: U64)
    requires Enabled(s, Send(start, len))
    ensures Next(s, Send(start, len)).sending == Serving(start, len, 0) && 0 < |Chunks(start, len)|
    ensures SentMore(s, Next(s, Send(start, len)), start, len, SumSizes(Chunks(start, len)[..0]))
  {
    hide CalcNrPages;
  }

  /** A step while the send is served: one more chunk is announced, or the rest of the system moves. */
  lemma SendGoesOn(first: State, s: State, step: Step, start: nat, len: U64)
    requires s.sending.Serving? && s.sending == Serving(start, len, s.sending.passed)
    requires s.sending.passed < |Chunks(start, len)| && WholePages(start, len) && Admissible(s, step)
    requires SentMore(first, s, start, len, SumSizes(Chunks(start, len)[..s.sending.passed]))
    ensures var s', n := Next(s, step), s.sending.passed;
            match step
            case Xmit(_, result) =>
              && s'.sending == (if result.Announced? then Passed(s.sending) else Resting)
              && SentMore(first, s', start, len, SumSizes(Chunks(start, len)[..if result.Refused? then n else n + 1]))
            case _ => s'.sending == s.sending && SentMore(first, s', start, len, SumSizes(Chunks(start, len)[..n]))
  {
    hide Chunks, CalcNrPages, WholePages, Preserves, Fetchable;
    var n := s.sending.passed;
    SentUpTo(start, len, n);
    match step {
      case Xmit(block, result) =>
        if !result.Refused? {
          SendOne(first, s, start, len, SumSizes(Chunks(start, len)[..n]), CurrentChunk(s), block);
        }
      case _ =>
    }
  }

  /** A whole send: when it returns 0 it has added exactly the bytes [start, start + len), as they were
      at the call, to the stream; when it returns -1, the bytes of the chunks announced until then. */
  lemma WholeSendInRun(states: seq<State>, steps: seq<Step>, i: nat, j: nat, start: nat, len: U64)
    requires IsRun(states, steps) && i < j < |steps| && steps[i] == Send(start, len)
    requires Underway(states, i, j) && states[j + 1].sending.Resting?
    ensures steps[j].Xmit?
    ensures steps[j].result.Announced? ==>
              && OnUserPages(states[i].sender.pages, start, len)
              && states[j + 1].sent == states[i].sent + UserBytes(states[i].sender, start, len)
    ensures !steps[j].result.Announced? ==>
              var n := states[j].sending.passed + if steps[j].result.Refused? then 0 else 1;
              && n <= |Chunks(start, len)|
              && var count := SumSizes(Chunks(start, len)[..n]);
                 && OnUserPages(states[i].sender.pages, start, count)
                 && states[j + 1].sent == states[i].sent + UserBytes(states[i].sender, start, count)
  {
    hide Chunks, CalcNrPages, Next;
    assert Admissible(states[i], steps[i]);
    SendSoFar(states, steps, i, j, start, len);
    assert Admissible(states[j], steps[j]) && states[j + 1] == Next(states[j], steps[j]);
    SendGoesOn(states[i], states[j], steps[j], start, len);
    AlignedOrSingleAddsUp(start, len);
    assert Chunks(start, len)[..|Chunks(start, len)|] == Chunks(start, len);
  }

  // ---------------------------------------------------------------- and why receives come to fail

  /** All steps, failing ones included. */
  ghost predicate Follows(states: seq<State>, steps: seq<Step>) {
    && |states| == |steps| + 1
    && forall i :: 0 <= i < |steps| ==> Enabled(states[i], steps[i]) && states[i + 1] == Next(states[i], steps[i])
  }

  function BuffersMapped(steps: seq<Step>): nat {
    if steps == [] then 0 else
      var last := steps[|steps| - 1];
      BuffersMapped(steps[..|steps| - 1]) + if last.Receive? && last.mapped.Mapped? then 1 else 0
  }

  lemma BlockAddsPages(node: Node, start: nat, n: nat, block: nat)
    requires PagesPresent(node.pages, start, n) && FreshBlock(node, block, n) && 1 <= n
    ensures |WithBlock(node, start, n, block).table.Keys| >= |node.table.Keys| + 1
  {
    var after := WithBlock(node, start, n, block);
    assert after.table.Keys == node.table.Keys + PageAddrs(block, n);
    assert PageAt(block, n - 1) in PageAddrs(block, n);
    CardinalityGrows(node.table.Keys, after.table.Keys, PageAt(block, n - 1));
  }

  lemma {:induction false} SubsetCardinality<T>(a: set<T>, b: set<T>)
    requires a <= b
    ensures |a| <= |b|
  {
    if x :| x in a {
      SubsetCardinality(a - {x}, b - {x});
    }
  }

  lemma CardinalityGrows<T>(a: set<T>, b: set<T>, x: T)
    requires a <= b && x in b && x !in a
    ensures |a| + 1 <= |b|
  {
    SubsetCardinality(a + {x}, b);
  }

  /** No receive gives its block back: each one that maps its buffer takes pages of the range for good. */
  lemma {:induction false} BlocksAreKept(states: seq<State>, steps: seq<Step>, i: nat)
    requires Follows(states, steps) && i < |states|
    ensures |states[0].receiver.table.Keys| + BuffersMapped(steps[..i]) <= |states[i].receiver.table.Keys|
  {
    if i > 0 {
      BlocksAreKept(states, steps, i - 1);
      assert steps[..i][..i - 1] == steps[..i - 1];
      TableGrows(states[i - 1], steps[i - 1]);
    }
  }

  lemma TableGrows(s: State, step: Step)
    requires Enabled(s, step)
    ensures var more := if step.Receive? && step.mapped.Mapped? then 1 else 0;
            |s.receiver.table.Keys| + more <= |Next(s, step).receiver.table.Keys|
  {
    hide CalcNrPages, Fetchable, Chunks, WithBlock;
    if step.Receive? && step.mapped.Mapped? {
      BlockAddsPages(s.receiver, step.start, CalcNrPages(step.start, Taken(s.queue, step.room)), step.block);
    }
  }

  /** So a range of I/O pages serves at most as many receives as it has pages; from then on every
      mapping is refused, and by `ReceiveConservesIff` every message that is not empty is lost. */
  lemma RangeRunsOut(states: seq<State>, steps: seq<Step>, i: nat, range: set<nat>)
    requires Follows(states, steps) && i < |states| && states[i].receiver.table.Keys <= range
    ensures BuffersMapped(steps[..i]) <= |range|
  {
    BlocksAreKept(states, steps, i);
    SubsetCardinality(states[i].receiver.table.Keys, range);
  }

  // ---------------------------------------------------------------- one message, there and back

  /** With its pages present, and a block for them, a send of one chunk can be done, and announces exactly
      the program's bytes. */
  lemma SendAnnounces(s: State, start: nat, len: U64, block: nat) returns (s1: State, s2: State)
    requires s.sending.Resting? && s.queue == [] && CalcNrPages(start, len) <= MAX_PAGES_SEND
    requires PagesPresent(s.sender.pages, start, CalcNrPages(start, len))
    requires FreshBlock(s.sender, block, CalcNrPages(start, len))
    ensures OnUserPages(s.sender.pages, start, len)
    ensures Enabled(s, Send(start, len)) && s1 == Next(s, Send(start, len))
    ensures Enabled(s1, Xmit(block, Announced)) && s2 == Next(s1, Xmit(block, Announced))
    ensures s2.sending.Resting? && s2.receiver == s.receiver && s2.pulled == s.pulled && s2.aperture == s.aperture
    ensures |s2.queue| == 1 && s2.queue[0].size == len && Fetchable(s2.sender, s2.aperture, s2.queue[0])
    ensures Fetch(s2.sender, s2.aperture, s2.queue[0]) == UserBytes(s.sender, start, len)
  {
    OneChunk(start, len);
    PullFits(s.sender, start, block, len);
    s1 := Next(s, Send(start, len));
    AnnouncedIsUserRange(s.sender, CurrentChunk(s1), block, s.aperture);
    hide CalcNrPages, Fetchable, Chunks, WithBlock, FreshBlock, PagesPresent, OnUserPages;
    s2 := Next(s1, Xmit(block, Announced));
  }

  /** With its pages present, and a block for them, a receive puts the message at the start of its buffer. */
  lemma ReceiveStores(s: State, to: nat, room: nat, at: nat) returns (s': State)
    requires PagesDistinct(s.receiver.pages) && |s.queue| == 1 && Fetchable(s.sender, s.aperture, s.queue[0])
    requires PagesPresent(s.receiver.pages, to, CalcNrPages(to, s.queue[0].size)) && s.queue[0].size <= room
    requires FreshBlock(s.receiver, at, CalcNrPages(to, s.queue[0].size))
    ensures var bytes := Fetch(s.sender, s.aperture, s.queue[0]);
            var step := Receive(to, room, at, Mapped, DmaSemaphore.Completed);
            && Enabled(s, step) && s' == Next(s, step) && s'.queue == [] && s'.receiver.pages == s.receiver.pages
            && OnUserPages(s.receiver.pages, to, |bytes|) && UserBytes(s'.receiver, to, |bytes|) == bytes
            && s'.pulled == s.pulled + bytes
  {
    hide CalcNrPages, Fetchable, Fetch, PagesPresent, OnUserPages, WithBlock, AfterPull, Chunks;
    var bytes := Fetch(s.sender, s.aperture, s.queue[0]);
    var step := Receive(to, room, at, Mapped, DmaSemaphore.Completed);
    PullReadsBack(s.receiver, to, at, bytes);
    ReceiveKeepsPages(s, step);
    s' := Next(s, step);
    assert bytes[..|bytes|] == bytes;
  }

  /** A send of one chunk, and a receive of it into a buffer that is large enough, with nothing else on its
      way: both can be done, and they copy the program's bytes from one node to the other. */
  lemma SendThenReceive(s: State, start: nat, len: U64, block: nat, to: nat, room: nat, at: nat)
    returns (s1: State, s2: State, s3: State)
    requires Inv(s) && s.sending.Resting? && s.queue == [] && CalcNrPages(start, len) <= MAX_PAGES_SEND
    requires PagesPresent(s.sender.pages, start, CalcNrPages(start, len))
    requires FreshBlock(s.sender, block, CalcNrPages(start, len))
    requires PagesPresent(s.receiver.pages, to, CalcNrPages(to, len)) && len <= room
    requires FreshBlock(s.receiver, at, CalcNrPages(to, len))
    ensures Admissible(s, Send(start, len)) && s1 == Next(s, Send(start, len))
    ensures Admissible(s1, Xmit(block, Announced)) && s2 == Next(s1, Xmit(block, Announced))
    ensures var step := Receive(to, room, at, Mapped, DmaSemaphore.Completed);
            Admissible(s2, step) && s3 == Next(s2, step)
    ensures OnUserPages(s.sender.pages, start, len)
    ensures s3.receiver.pages == s.receiver.pages && OnUserPages(s3.receiver.pages, to, len)
    ensures UserBytes(s3.receiver, to, len) == UserBytes(s.sender, start, len)
    ensures s3.pulled == s.pulled + UserBytes(s.sender, start, len) && s3.queue == [] && s3.sending.Resting?
  {
    s1, s2 := SendAnnounces(s, start, len, block);
    s3 := ReceiveStores(s2, to, room, at);
    hide CalcNrPages, Fetchable, FreshBlock, PagesPresent, OnUserPages, Enabled, Chunks;
    ReceiveKeepsPages(s2, Receive(to, room, at, Mapped, DmaSemaphore.Completed));
  }
}

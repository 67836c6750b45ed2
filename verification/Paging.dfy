/** Counting the pages under a byte range, and cutting a send into chunks of whole pages. */
module Paging {
  import opened CallLog
  import opened Constants
  import opened ModArith

  /** The number of pages the driver maps for the bytes [start, start + len). */
  function CalcNrPages(start: nat, len: nat): (nrPages: nat)
    ensures 1 <= nrPages
  {
    var offsetFirstPage := start % PAGE_SIZE;
    var offsetLastPage := (start + len) % PAGE_SIZE;
    if offsetFirstPage + len > PAGE_SIZE then
      1 + (len - (PAGE_SIZE - offsetFirstPage)) / PAGE_SIZE + (if offsetLastPage != 0 then 1 else 0)
    else 1
  }

  /** The pages that hold a byte of [start, start + len). */
  function PagesTouched(start: nat, len: nat): set<nat> {
    set a | start <= a < start + len :: a / PAGE_SIZE
  }

  lemma AddMultiple(x: nat, q: nat, m: nat)
    requires 0 < m
    ensures (q * m + x) / m == q + x / m && (q * m + x) % m == x % m
  {
    assert q * m + x == (q + x / m) * m + x % m;
    DivModUnique(q * m + x, m, q + x / m, x % m);
  }

  lemma DivRoundUp(x: nat, m: nat)
    requires 0 < x && 0 < m
    ensures (x - 1) / m + 1 == x / m + if x % m != 0 then 1 else 0
  {
    if x % m != 0 {
      DivModUnique(x - 1, m, x / m, x % m - 1);
    } else {
      assert x - 1 == (x / m - 1) * m + (m - 1);
      DivModUnique(x - 1, m, x / m - 1, m - 1);
    }
  }

  /** The count in closed form: from the page of the first byte to the page of the last. */
  lemma NrPagesIsSpan(start: nat, len: nat)
    requires 1 <= len
    ensures CalcNrPages(start, len) == (start + len - 1) / PAGE_SIZE - start / PAGE_SIZE + 1
    ensures CalcNrPages(start, len) == (start % PAGE_SIZE + len - 1) / PAGE_SIZE + 1
  {
    var q, offset := start / PAGE_SIZE, start % PAGE_SIZE;
    AddMultiple(offset + len, q, PAGE_SIZE);
    AddMultiple(offset + len - 1, q, PAGE_SIZE);
    assert q * PAGE_SIZE + (offset + len - 1) == start + len - 1;
    if offset + len > PAGE_SIZE {
      var beyond := offset + len - PAGE_SIZE;
      AddMultiple(beyond, 1, PAGE_SIZE);
      AddMultiple(beyond - 1, 1, PAGE_SIZE);
      DivRoundUp(beyond, PAGE_SIZE);
    } else {
      ModSmall(offset + len - 1, PAGE_SIZE);
    }
  }

  ghost function Interval(low: nat, high: nat): (pages: set<nat>)
    requires low <= high
    ensures forall p: nat :: p in pages <==> low <= p < high
    ensures |pages| == high - low
    decreases high
  {
    if low == high then {} else Interval(low, high - 1) + {high - 1}
  }

  lemma PageTouchedIff(start: nat, len: nat, p: nat)
    requires 1 <= len
    ensures p in PagesTouched(start, len) <==> start / PAGE_SIZE <= p <= (start + len - 1) / PAGE_SIZE
  {
    if p in PagesTouched(start, len) {
      var a :| start <= a < start + len && a / PAGE_SIZE == p;
      DivOrder(start, a);
      DivOrder(a, start + len - 1);
    }
    if start / PAGE_SIZE <= p <= (start + len - 1) / PAGE_SIZE {
      var a := if p == start / PAGE_SIZE then start else p * PAGE_SIZE;
      PageStartWithin(start, len, p);
      assert start <= a < start + len && a / PAGE_SIZE == p;
    }
  }

  lemma PageStartWithin(start: nat, len: nat, p: nat)
    requires 1 <= len && start / PAGE_SIZE <= p <= (start + len - 1) / PAGE_SIZE
    ensures p * PAGE_SIZE <= start + len - 1 && p * PAGE_SIZE / PAGE_SIZE == p
    ensures start / PAGE_SIZE < p ==> start <= p * PAGE_SIZE
  {
    DivModUnique(p * PAGE_SIZE, PAGE_SIZE, p, 0);
    if start + len - 1 < p * PAGE_SIZE {
      DivOrder(start + len - 1, p * PAGE_SIZE - 1);
      DivModUnique(p * PAGE_SIZE - 1, PAGE_SIZE, p - 1, PAGE_SIZE - 1);
    }
    if p * PAGE_SIZE < start {
      DivOrder(p * PAGE_SIZE, start);
    }
  }

  /** The driver's count is the number of pages that hold a byte of the range. */
  lemma NrPagesCountsPagesTouched(start: nat, len: nat)
    requires 1 <= len
    ensures |PagesTouched(start, len)| == CalcNrPages(start, len)
  {
    hide PagesTouched, CalcNrPages;
    var first, last := start / PAGE_SIZE, (start + len - 1) / PAGE_SIZE;
    NrPagesIsSpan(start, len);
    DivOrder(start, start + len - 1);
    forall p: nat
      ensures p in PagesTouched(start, len) <==> first <= p <= last
    {
      PageTouchedIff(start, len, p);
    }
    assert PagesTouched(start, len) == Interval(first, last + 1);
  }

  lemma DivOrder(a: nat, b: nat)
    requires a <= b
    ensures a / PAGE_SIZE <= b / PAGE_SIZE
  {
    AddMultiple(a % PAGE_SIZE + (b - a), a / PAGE_SIZE, PAGE_SIZE);
  }

  /** The page arrays are allocated with len / PAGE_SIZE + 2 entries, which is always enough. */
  lemma NrPagesFitsPageArray(start: nat, len: nat)
    ensures CalcNrPages(start, len) <= len / PAGE_SIZE + 2
  {
    if 1 <= len {
      NrPagesIsSpan(start, len);
      AddMultiple(len, 1, PAGE_SIZE);
      DivOrder(start % PAGE_SIZE + len - 1, PAGE_SIZE + len);
    }
  }

  /** Shortening a receive to the size of the message never needs more pages. */
  lemma NrPagesMonotone(start: nat, len: nat, longer: nat)
    requires len <= longer
    ensures CalcNrPages(start, len) <= CalcNrPages(start, longer)
  {
    if 1 <= len {
      NrPagesIsSpan(start, len);
      NrPagesIsSpan(start, longer);
      DivOrder(start % PAGE_SIZE + len - 1, start % PAGE_SIZE + longer - 1);
    }
  }

  /** The page array of a receive is allocated for the length asked for; shortened to the size of the
      message, the receive still fits it. */
  lemma ReceiveFitsPageArray(start: nat, len: nat, size: nat)
    ensures CalcNrPages(start, if size < len then size else len) <= len / PAGE_SIZE + 2
  {
    NrPagesMonotone(start, if size < len then size else len, len);
    NrPagesFitsPageArray(start, len);
  }

  /** An empty range is counted as one page, like a range that stays on one page. */
  lemma OnePageIff(start: nat, len: nat)
    ensures CalcNrPages(start, len) == 1 <==> len == 0 || start / PAGE_SIZE == (start + len - 1) / PAGE_SIZE
  {
    if 1 <= len { NrPagesIsSpan(start, len); }
  }

  /** A block of n pages holds the whole range exactly when n is at least the driver's count. */
  lemma RangeFitsIff(start: nat, len: nat, n: nat)
    requires 1 <= n
    ensures start % PAGE_SIZE + len <= n * PAGE_SIZE <==> CalcNrPages(start, len) <= n
  {
    MulOrder(1, n, PAGE_SIZE);
    if 1 <= len {
      NrPagesIsSpan(start, len);
      var q := (start % PAGE_SIZE + len - 1) / PAGE_SIZE;
      if n <= q { MulOrder(n, q, PAGE_SIZE); } else { MulOrder(q + 1, n, PAGE_SIZE); }
    }
  }

  // ---------------------------------------------------------------- the chunk loop of a send

  const TWO_64: nat := 0x1_0000_0000_0000_0000

  type U64 = x: nat | x < TWO_64

  /** The arguments of one `rdma_xmit` call. */
  datatype Chunk = Chunk(start: nat, nrPages: nat, offsetFirstPage: nat, size: nat)

  function ChunkCount(start: nat, len: U64): (count: nat)
    ensures 1 <= count
  {
    (CalcNrPages(start, len) - 1) / MAX_PAGES_SEND + 1
  }

  /** Chunk j; `left_to_send` of the last one is computed modulo 2^64. */
  function ChunkAt(start: nat, len: U64, j: nat): Chunk
    requires j < ChunkCount(start, len)
  {
    var i := j * MAX_PAGES_SEND;
    if j + 1 == ChunkCount(start, len) then
      Chunk(start + i * PAGE_SIZE, CalcNrPages(start, len) - i, start % PAGE_SIZE, (len - i * PAGE_SIZE) % TWO_64)
    else
      Chunk(start + i * PAGE_SIZE, MAX_PAGES_SEND, start % PAGE_SIZE, MAX_PAGES_SEND * PAGE_SIZE)
  }

  function Chunks(start: nat, len: U64): seq<Chunk> {
    seq(ChunkCount(start, len), j requires 0 <= j < ChunkCount(start, len) => ChunkAt(start, len, j))
  }

  /** The index of chunk j's first page lies below the page count exactly for j below the chunk
      count, and only the last chunk has at most MAX_PAGES_SEND pages left. */
  lemma ChunkIndex(nrPages: nat, j: nat)
    requires 1 <= nrPages
    ensures j * MAX_PAGES_SEND < nrPages <==> j < (nrPages - 1) / MAX_PAGES_SEND + 1
    ensures j * MAX_PAGES_SEND < nrPages <= j * MAX_PAGES_SEND + MAX_PAGES_SEND
            <==> j == (nrPages - 1) / MAX_PAGES_SEND
  {
    var q, r := (nrPages - 1) / MAX_PAGES_SEND, (nrPages - 1) % MAX_PAGES_SEND;
    assert nrPages - 1 == q * MAX_PAGES_SEND + r;
    if j < q {
      MulOrder(j + 1, q, MAX_PAGES_SEND);
    } else if q < j {
      MulOrder(q + 1, j, MAX_PAGES_SEND);
    }
  }

  lemma MulOrder(a: nat, b: nat, m: nat)
    requires a <= b
    ensures a * m <= b * m
  {
  }

  lemma ModSubtract(x: int, a: int, m: nat)
    requires 0 < m
    ensures (x % m - a) % m == (x - a) % m
  {
    assert x % m - a == (x - a) - x / m * m;
    var q, r := (x - a) / m, (x - a) % m;
    assert x % m - a == (q - x / m) * m + r;
    DivModUnique(x % m - a, m, q - x / m, r);
  }

  /** The arguments of the next call when i of nrPages pages are passed and `left` bytes are left. */
  function NextChunk(start: nat, nrPages: nat, i: nat, left: nat): Chunk
    requires i < nrPages
  {
    var more := MAX_PAGES_SEND < nrPages - i;
    Chunk(start + i * PAGE_SIZE, if more then MAX_PAGES_SEND else nrPages - i, start % PAGE_SIZE,
          if more then MAX_PAGES_SEND * PAGE_SIZE else left)
  }

  /** The loop invariant of a send at the head of round j. */
  lemma ChunkRound(start: nat, len: U64, j: nat, i: nat, left: U64)
    requires i == j * MAX_PAGES_SEND && left == (len - i * PAGE_SIZE) % TWO_64
    ensures var nrPages, chunks := CalcNrPages(start, len), Chunks(start, len);
            && (i < nrPages <==> j < |chunks|)
            && (i < nrPages ==> chunks[j] == NextChunk(start, nrPages, i, left))
            && (i < nrPages ==> (MAX_PAGES_SEND < nrPages - i <==> j + 1 < |chunks|))
    ensures i + MAX_PAGES_SEND == (j + 1) * MAX_PAGES_SEND
    ensures (left - MAX_PAGES_SEND * PAGE_SIZE) % TWO_64 == (len - (i + MAX_PAGES_SEND) * PAGE_SIZE) % TWO_64
  {
    hide CalcNrPages;
    ChunkIndex(CalcNrPages(start, len), j);
    ModSubtract(len - i * PAGE_SIZE, MAX_PAGES_SEND * PAGE_SIZE, TWO_64);
    assert (i + MAX_PAGES_SEND) * PAGE_SIZE == i * PAGE_SIZE + MAX_PAGES_SEND * PAGE_SIZE;
  }

  /** The send loop: pass the chunks to `rdma_xmit` in order, and stop at the first failure. */
  method LtcpDirectCopy(start: nat, len: U64, rdmaXmit: Callee<Chunk>) returns (err: bool)
    modifies rdmaXmit
    ensures var count := |rdmaXmit.calls| - |old(rdmaXmit.calls)|;
            && PassedUntilFailure(rdmaXmit.fails, old(rdmaXmit.calls), Chunks(start, len), count, err)
            && rdmaXmit.calls == old(rdmaXmit.calls) + Chunks(start, len)[..count]
  {
    hide AllAccepted, CalcNrPages, ChunkCount, Chunks;
    var offsetFirstPage := start % PAGE_SIZE;
    var nrPages := CalcNrPages(start, len);
    var leftToSend: U64 := len;
    var i := 0;
    ghost var j, chunks, before := 0, Chunks(start, len), rdmaXmit.calls;
    AcceptedNone(rdmaXmit.fails, before);
    assert chunks[..0] == [];
    while i < nrPages
      invariant j <= |chunks| && i == j * MAX_PAGES_SEND
      invariant leftToSend == (len - i * PAGE_SIZE) % TWO_64
      invariant rdmaXmit.calls == before + chunks[..j]
      invariant AllAccepted(rdmaXmit.fails, before, chunks[..j])
      decreases |chunks| - j
    {
      ChunkRound(start, len, j, i, leftToSend);
      PassOne(rdmaXmit.fails, before, chunks, j);
      var pagesToSend := if MAX_PAGES_SEND < nrPages - i then MAX_PAGES_SEND else nrPages - i;
      if pagesToSend == nrPages - i {
        err := rdmaXmit.Call(Chunk(start + i * PAGE_SIZE, pagesToSend, offsetFirstPage, leftToSend));
        assert j + 1 == |chunks| && chunks[..j + 1] == chunks;
        return;
      } else {
        err := rdmaXmit.Call(Chunk(start + i * PAGE_SIZE, pagesToSend, offsetFirstPage, pagesToSend * PAGE_SIZE));
        if err {
          return;
        }
        leftToSend := (leftToSend - pagesToSend * PAGE_SIZE) % TWO_64;
      }
      i := i + MAX_PAGES_SEND;
      j := j + 1;
    }
    ChunkRound(start, len, j, i, leftToSend);
    assert chunks[..j] == chunks;
    return false;
  }

  // ---------------------------------------------------------------- what a chunked send carries

  function SumPages(chunks: seq<Chunk>): nat {
    if chunks == [] then 0 else SumPages(chunks[..|chunks| - 1]) + chunks[|chunks| - 1].nrPages
  }

  /** The pages of a send are shared out in order, MAX_PAGES_SEND to a chunk but for the last, which has
      the rest; and every chunk, not only the first, is given the page offset of the whole send. */
  lemma ChunksShareOut(start: nat, len: U64)
    ensures var chunks := Chunks(start, len);
            && SumPages(chunks) == CalcNrPages(start, len) && chunks != []
            && (forall c :: c in chunks ==> c.offsetFirstPage == start % PAGE_SIZE)
            && (forall j :: 0 <= j < |chunks| - 1 ==> chunks[j].nrPages == MAX_PAGES_SEND)
            && 1 <= chunks[|chunks| - 1].nrPages <= MAX_PAGES_SEND
  {
    hide CalcNrPages;
    var chunks := Chunks(start, len);
    var last := |chunks| - 1;
    SumOfFullPages(chunks[..last]);
    ChunkIndex(CalcNrPages(start, len), last);
  }

  lemma {:induction false} SumOfFullPages(chunks: seq<Chunk>)
    requires forall c :: c in chunks ==> c.nrPages == MAX_PAGES_SEND
    ensures SumPages(chunks) == |chunks| * MAX_PAGES_SEND
  {
    if chunks != [] {
      SumOfFullPages(chunks[..|chunks| - 1]);
    }
  }

  function SumSizes(chunks: seq<Chunk>): nat {
    if chunks == [] then 0 else SumSizes(chunks[..|chunks| - 1]) + chunks[|chunks| - 1].size
  }

  /** Bytes the loop assigns to the chunks before the last one. */
  function BeforeLast(start: nat, len: U64): int {
    (ChunkCount(start, len) - 1) * MAX_PAGES_SEND * PAGE_SIZE
  }

  /** Each chunk starts where the one before it ends. */
  ghost predicate Consecutive(chunks: seq<Chunk>, start: nat) {
    && (chunks != [] ==> chunks[0].start == start)
    && forall j :: 0 < j < |chunks| ==> chunks[j].start == chunks[j - 1].start + chunks[j - 1].size
  }

  /** Each chunk maps exactly the pages its own bytes lie on. */
  ghost predicate PagesMatch(chunks: seq<Chunk>) {
    forall c :: c in chunks ==> c.nrPages == CalcNrPages(c.start, c.size)
  }

  lemma BytesOfChunks(j: nat)
    requires 0 < j
    ensures j * MAX_PAGES_SEND * PAGE_SIZE == (j - 1) * MAX_PAGES_SEND * PAGE_SIZE + MAX_PAGES_SEND * PAGE_SIZE
  {
    assert j * MAX_PAGES_SEND == (j - 1) * MAX_PAGES_SEND + MAX_PAGES_SEND;
  }

  lemma SumOfFullChunks(chunks: seq<Chunk>)
    requires forall c :: c in chunks ==> c.size == MAX_PAGES_SEND * PAGE_SIZE
    ensures SumSizes(chunks) == |chunks| * MAX_PAGES_SEND * PAGE_SIZE
  {
    if chunks != [] {
      var front := chunks[..|chunks| - 1];
      SumOfFullChunks(front);
      BytesOfChunks(|chunks|);
    }
  }

  /** The sizes handed to `rdma_xmit` add up to the length of the send exactly when the chunks
      before the last one do not already overshoot it; otherwise the last size has wrapped. */
  lemma SizesAddUpIff(start: nat, len: U64)
    ensures SumSizes(Chunks(start, len)) == len <==> BeforeLast(start, len) <= len
  {
    hide CalcNrPages;
    var chunks := Chunks(start, len);
    var front := chunks[..|chunks| - 1];
    SumOfFullChunks(front);
    var rest := len - BeforeLast(start, len);
    assert chunks[|chunks| - 1].size == rest % TWO_64;
    assert SumSizes(chunks) == BeforeLast(start, len) + rest % TWO_64;
    if 0 <= rest { ModSmall(rest, TWO_64); }
  }

  /** Chunk j starts where the sizes of the chunks before it end. */
  lemma ChunkStartsAfterSum(start: nat, len: U64, j: nat)
    requires j < |Chunks(start, len)|
    ensures Chunks(start, len)[j].start == start + SumSizes(Chunks(start, len)[..j])
  {
    hide CalcNrPages;
    SumOfFullChunks(Chunks(start, len)[..j]);
  }

  /** The chunks are consecutive ranges from the start of the send. */
  lemma ChunksConsecutive(start: nat, len: U64)
    ensures Consecutive(Chunks(start, len), start)
  {
    hide CalcNrPages, ChunkCount;
    var chunks := Chunks(start, len);
    forall j | 0 < j < |chunks|
      ensures chunks[j].start == chunks[j - 1].start + chunks[j - 1].size
    {
      BytesOfChunks(j);
    }
  }

  /** Whole pages: n pages' worth of bytes lie on n pages if the range is aligned, else on n + 1. */
  lemma NrPagesOfWholePages(start: nat, n: nat)
    requires 1 <= n
    ensures CalcNrPages(start, n * PAGE_SIZE) == if start % PAGE_SIZE == 0 then n else n + 1
  {
    var offset := start % PAGE_SIZE;
    MulOrder(1, n, PAGE_SIZE);
    NrPagesIsSpan(start, n * PAGE_SIZE);
    if offset == 0 {
      assert n * PAGE_SIZE - 1 == (n - 1) * PAGE_SIZE + (PAGE_SIZE - 1);
      DivModUnique(n * PAGE_SIZE - 1, PAGE_SIZE, n - 1, PAGE_SIZE - 1);
    } else {
      DivModUnique(n * PAGE_SIZE + (offset - 1), PAGE_SIZE, n, offset - 1);
    }
  }

  /** Dropping i whole pages from an aligned range drops i from its page count. */
  lemma NrPagesDrop(start: nat, len: nat, i: nat)
    requires start % PAGE_SIZE == 0 && 1 <= len && i < CalcNrPages(start, len)
    ensures i * PAGE_SIZE < len
    ensures (start + i * PAGE_SIZE) % PAGE_SIZE == 0
    ensures CalcNrPages(start + i * PAGE_SIZE, len - i * PAGE_SIZE) == CalcNrPages(start, len) - i
  {
    hide CalcNrPages;
    var dropped := i * PAGE_SIZE;
    NrPagesIsSpan(start, len);
    MultipleWithin(i, len - 1);
    AddMultiple(start, i, PAGE_SIZE);
    NrPagesIsSpan(start + dropped, len - dropped);
    AddMultiple(len - 1 - dropped, i, PAGE_SIZE);
  }

  lemma MultipleWithin(i: nat, x: nat)
    requires i <= x / PAGE_SIZE
    ensures i * PAGE_SIZE <= x
  {
    MulOrder(i, x / PAGE_SIZE, PAGE_SIZE);
  }

  /** A misaligned send of several chunks maps too few pages for its first chunk; every other send
      maps, chunk by chunk, exactly the pages its bytes lie on. */
  lemma PagesMatchIff(start: nat, len: U64)
    ensures PagesMatch(Chunks(start, len)) <==>
            start % PAGE_SIZE == 0 || CalcNrPages(start, len) <= MAX_PAGES_SEND
  {
    OnePageIff(start, len);
    hide CalcNrPages;
    var chunks, nrPages := Chunks(start, len), CalcNrPages(start, len);
    if nrPages <= MAX_PAGES_SEND {
      OneChunk(start, len);
    } else if start % PAGE_SIZE != 0 {
      FirstOfSeveral(start, len);
      NrPagesOfWholePages(start, MAX_PAGES_SEND);
      hide Chunks;
      assert chunks[0] in chunks;
    } else {
      forall j | 0 <= j < |chunks|
        ensures chunks[j].nrPages == CalcNrPages(chunks[j].start, chunks[j].size)
      {
        AlignedChunkMatches(start, len, j);
      }
      hide Chunks;
    }
  }

  lemma OneChunk(start: nat, len: U64)
    requires CalcNrPages(start, len) <= MAX_PAGES_SEND
    ensures Chunks(start, len) == [Chunk(start, CalcNrPages(start, len), start % PAGE_SIZE, len)]
  {
    hide CalcNrPages;
    ChunkIndex(CalcNrPages(start, len), 0);
    ChunkRound(start, len, 0, 0, len);
  }

  lemma FirstOfSeveral(start: nat, len: U64)
    requires MAX_PAGES_SEND < CalcNrPages(start, len)
    ensures Chunks(start, len) != []
    ensures Chunks(start, len)[0] == Chunk(start, MAX_PAGES_SEND, start % PAGE_SIZE, MAX_PAGES_SEND * PAGE_SIZE)
  {
    hide CalcNrPages;
    ChunkRound(start, len, 0, 0, len);
  }

  lemma AlignedChunkMatches(start: nat, len: U64, j: nat)
    requires start % PAGE_SIZE == 0 && 1 <= len && j < ChunkCount(start, len)
    ensures var c := ChunkAt(start, len, j); c.nrPages == CalcNrPages(c.start, c.size)
  {
    hide CalcNrPages;
    var i := j * MAX_PAGES_SEND;
    ChunkIndex(CalcNrPages(start, len), j);
    NrPagesDrop(start, len, i);
    ModSmall(len - i * PAGE_SIZE, TWO_64);
    NrPagesOfWholePages(start + i * PAGE_SIZE, MAX_PAGES_SEND);
  }

  /** Aligned sends and sends of one chunk carry exactly the bytes they were given. */
  lemma AlignedOrSingleAddsUp(start: nat, len: U64)
    requires start % PAGE_SIZE == 0 || CalcNrPages(start, len) <= MAX_PAGES_SEND
    ensures SumSizes(Chunks(start, len)) == len
  {
    SizesAddUpIff(start, len);
    var last := ChunkCount(start, len) - 1;
    ChunkIndex(CalcNrPages(start, len), 0);
    ChunkIndex(CalcNrPages(start, len), last);
    if last != 0 {
      NrPagesDrop(start, len, last * MAX_PAGES_SEND);
    }
  }

  /** A send that starts two or more bytes into a page and is one byte short of a whole chunk takes two
      calls, and the second announces 2^64 - 1 bytes. */
  lemma MisalignedSendWraps(start: nat, len: U64)
    requires 2 <= start % PAGE_SIZE && len == MAX_PAGES_SEND * PAGE_SIZE - 1
    ensures Chunks(start, len) ==
            [Chunk(start, MAX_PAGES_SEND, start % PAGE_SIZE, MAX_PAGES_SEND * PAGE_SIZE),
             Chunk(start + MAX_PAGES_SEND * PAGE_SIZE, 1, start % PAGE_SIZE, TWO_64 - 1)]
  {
    var offset := start % PAGE_SIZE;
    NrPagesIsSpan(start, len);
    DivModUnique(offset + len - 1, PAGE_SIZE, MAX_PAGES_SEND, offset - 2);
    assert CalcNrPages(start, len) == MAX_PAGES_SEND + 1;
    hide CalcNrPages;
    DivModUnique(MAX_PAGES_SEND, MAX_PAGES_SEND, 1, 0);
    assert ChunkCount(start, len) == 2;
  }
}

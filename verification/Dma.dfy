/** What a DMA engine sees through the IOMMU, and what a process sees through its own pages. */
module Dma {
  import opened Constants
  import opened Iommu
  import opened ModArith
  import opened Paging

  type Memory = nat -> Byte

  /** One machine: the user pages of the communicating process (virtual page number to physical
      page address), its IOMMU table (bus page address to physical page address), its memory. */
  datatype Node = Node(pages: map<nat, nat>, table: map<nat, nat>, mem: Memory)

  /** Physical pages are page aligned and no two virtual pages share one. */
  ghost predicate PagesDistinct(pages: map<nat, nat>) {
    && (forall p :: p in pages ==> pages[p] % PAGE_SIZE == 0)
    && (forall p, q :: p in pages && q in pages && pages[p] == pages[q] ==> p == q)
  }

  /** The number of the page i pages after the one that holds `start`. */
  function PageNo(start: nat, i: nat): nat { start / PAGE_SIZE + i }

  ghost predicate PagesPresent(pages: map<nat, nat>, start: nat, n: nat) {
    forall i :: 0 <= i < n ==> PageNo(start, i) in pages
  }

  /** The page list of a user range, as `get_user_pages` fills it in. */
  ghost function UserPages(pages: map<nat, nat>, start: nat, n: nat): (list: seq<nat>)
    requires PagesPresent(pages, start, n)
    ensures |list| == n && forall i :: 0 <= i < n ==> list[i] == pages[PageNo(start, i)]
  {
    if n == 0 then [] else UserPages(pages, start, n - 1) + [pages[PageNo(start, n - 1)]]
  }

  ghost predicate OnUserPage(pages: map<nat, nat>, va: nat) { va / PAGE_SIZE in pages }

  ghost function UserPhys(pages: map<nat, nat>, va: nat): nat
    requires OnUserPage(pages, va)
  {
    pages[va / PAGE_SIZE] + va % PAGE_SIZE
  }

  ghost predicate OnBusPage(table: map<nat, nat>, bus: nat) { PageAt(0, bus / PAGE_SIZE) in table }

  ghost function BusPhys(table: map<nat, nat>, bus: nat): nat
    requires OnBusPage(table, bus)
  {
    table[PageAt(0, bus / PAGE_SIZE)] + bus % PAGE_SIZE
  }

  /** The entry for a bus address is that of the page boundary below it, and the offset is added. */
  lemma BusLookup(table: map<nat, nat>, bus: nat)
    ensures OnBusPage(table, bus) <==> bus - bus % PAGE_SIZE in table
    ensures OnBusPage(table, bus) ==> BusPhys(table, bus) == table[bus - bus % PAGE_SIZE] + bus % PAGE_SIZE
  {
    assert bus == bus / PAGE_SIZE * PAGE_SIZE + bus % PAGE_SIZE;
  }

  /** `table` maps the block at `block` to the n user pages from the page of `start` on. */
  ghost predicate MapsBlock(pages: map<nat, nat>, table: map<nat, nat>, block: nat, start: nat, n: nat) {
    && block % PAGE_SIZE == 0
    && PagesPresent(pages, start, n)
    && forall i :: 0 <= i < n ==> PageAt(block, i) in table && table[PageAt(block, i)] == pages[PageNo(start, i)]
  }

  /** What `MapUserPages` leaves in the table on success maps the block. */
  lemma MappingMapsBlock(pages: map<nat, nat>, before: map<nat, nat>, block: nat, start: nat, n: nat)
    requires block % PAGE_SIZE == 0 && PagesPresent(pages, start, n)
    ensures MapsBlock(pages, before + Mapping(block, UserPages(pages, start, n)), block, start, n)
  {
    forall i | 0 <= i < n
      ensures PageAt(block, i) in Mapping(block, UserPages(pages, start, n))
           && Mapping(block, UserPages(pages, start, n))[PageAt(block, i)] == pages[PageNo(start, i)]
    {
      MappingAt(block, UserPages(pages, start, n), i);
    }
  }

  /** Byte k of a mapped user range is the same physical byte on the bus and for the process. */
  lemma BusSeesUser(pages: map<nat, nat>, table: map<nat, nat>, block: nat, start: nat, n: nat, k: nat)
    requires MapsBlock(pages, table, block, start, n) && start % PAGE_SIZE + k < n * PAGE_SIZE
    ensures OnUserPage(pages, start + k) && OnBusPage(table, block + start % PAGE_SIZE + k)
    ensures BusPhys(table, block + start % PAGE_SIZE + k) == UserPhys(pages, start + k)
  {
    var reach := start % PAGE_SIZE + k;
    var i, r := reach / PAGE_SIZE, reach % PAGE_SIZE;
    QuotientBelow(reach, n);
    SplitAddress(block, reach, i, r);
    SplitAddress(AlignedDown(start), reach, i, r);
    hide PageAt;
    assert table[PageAt(block, i)] == pages[PageNo(start, i)];
  }

  function AlignedDown(start: nat): (base: nat)
    ensures base % PAGE_SIZE == 0 && base / PAGE_SIZE == start / PAGE_SIZE && base + start % PAGE_SIZE == start
  {
    DivModUnique(start / PAGE_SIZE * PAGE_SIZE, PAGE_SIZE, start / PAGE_SIZE, 0);
    start / PAGE_SIZE * PAGE_SIZE
  }

  lemma QuotientBelow(x: nat, n: nat)
    requires x < n * PAGE_SIZE
    ensures x / PAGE_SIZE < n
  {
    if n <= x / PAGE_SIZE {
      MulOrder(n, x / PAGE_SIZE, PAGE_SIZE);
    }
  }

  /** Page and offset of the address `reach` bytes into a page-aligned block. */
  lemma SplitAddress(block: nat, reach: nat, i: nat, r: nat)
    requires block % PAGE_SIZE == 0 && i == reach / PAGE_SIZE && r == reach % PAGE_SIZE
    ensures (block + reach) / PAGE_SIZE == block / PAGE_SIZE + i && (block + reach) % PAGE_SIZE == r
    ensures PageAt(0, block / PAGE_SIZE + i) == PageAt(block, i)
  {
    assert block + reach == (block / PAGE_SIZE + i) * PAGE_SIZE + r;
    DivModUnique(block + reach, PAGE_SIZE, block / PAGE_SIZE + i, r);
  }

  lemma UserPhysInjective(pages: map<nat, nat>, a: nat, b: nat)
    requires PagesDistinct(pages) && OnUserPage(pages, a) && OnUserPage(pages, b)
    requires UserPhys(pages, a) == UserPhys(pages, b)
    ensures a == b
  {
    PhysPageAndOffset(pages[a / PAGE_SIZE], a % PAGE_SIZE);
    PhysPageAndOffset(pages[b / PAGE_SIZE], b % PAGE_SIZE);
    assert a == a / PAGE_SIZE * PAGE_SIZE + a % PAGE_SIZE;
    assert b == b / PAGE_SIZE * PAGE_SIZE + b % PAGE_SIZE;
  }

  lemma PhysPageAndOffset(page: nat, offset: nat)
    requires page % PAGE_SIZE == 0 && offset < PAGE_SIZE
    ensures (page + offset) / PAGE_SIZE * PAGE_SIZE == page && (page + offset) % PAGE_SIZE == offset
  {
    DivModUnique(page + offset, PAGE_SIZE, page / PAGE_SIZE, offset);
  }

  // ---------------------------------------------------------------- reading and writing ranges

  ghost predicate OnUserPages(pages: map<nat, nat>, start: nat, len: nat) {
    forall va :: start <= va < start + len ==> OnUserPage(pages, va)
  }

  ghost predicate OnBusPages(table: map<nat, nat>, bus: nat, len: nat) {
    forall a :: bus <= a < bus + len ==> OnBusPage(table, a)
  }

  ghost function UserBytes(node: Node, start: nat, len: nat): (bytes: seq<Byte>)
    requires OnUserPages(node.pages, start, len)
    ensures |bytes| == len && forall k :: 0 <= k < len ==> bytes[k] == node.mem(UserPhys(node.pages, start + k))
  {
    if len == 0 then [] else UserBytes(node, start, len - 1) + [node.mem(UserPhys(node.pages, start + len - 1))]
  }

  /** The bytes a DMA pull fetches from bus address `bus` on. */
  ghost function DmaRead(node: Node, bus: nat, len: nat): (bytes: seq<Byte>)
    requires OnBusPages(node.table, bus, len)
    ensures |bytes| == len && forall k :: 0 <= k < len ==> bytes[k] == node.mem(BusPhys(node.table, bus + k))
  {
    if len == 0 then [] else DmaRead(node, bus, len - 1) + [node.mem(BusPhys(node.table, bus + len - 1))]
  }

  /** Memory after a DMA engine stored `data` from bus address `bus` on, byte after byte. */
  ghost function DmaWrite(node: Node, bus: nat, data: seq<Byte>): Memory
    requires OnBusPages(node.table, bus, |data|)
  {
    if data == [] then node.mem else
      var k := |data| - 1;
      var before := DmaWrite(node, bus, data[..k]);
      var at := BusPhys(node.table, bus + k);
      (a: nat) => if a == at then data[k] else before(a)
  }

  lemma {:induction false} DmaWriteElsewhere(node: Node, bus: nat, data: seq<Byte>, a: nat)
    requires OnBusPages(node.table, bus, |data|)
    requires forall b :: bus <= b < bus + |data| ==> BusPhys(node.table, b) != a
    ensures DmaWrite(node, bus, data)(a) == node.mem(a)
  {
    if data != [] {
      DmaWriteElsewhere(node, bus, data[..|data| - 1], a);
    }
  }

  lemma {:induction false} DmaWriteAt(node: Node, bus: nat, data: seq<Byte>, k: nat)
    requires OnBusPages(node.table, bus, |data|) && k < |data|
    requires forall b :: bus + k < b < bus + |data| ==> BusPhys(node.table, b) != BusPhys(node.table, bus + k)
    ensures DmaWrite(node, bus, data)(BusPhys(node.table, bus + k)) == data[k]
  {
    if k < |data| - 1 {
      DmaWriteAt(node, bus, data[..|data| - 1], k);
    }
  }

  lemma BlockCoversRange(pages: map<nat, nat>, table: map<nat, nat>, block: nat, start: nat, n: nat, len: nat)
    requires MapsBlock(pages, table, block, start, n) && start % PAGE_SIZE + len <= n * PAGE_SIZE
    ensures OnUserPages(pages, start, len) && OnBusPages(table, block + start % PAGE_SIZE, len)
    ensures var bus := block + start % PAGE_SIZE;
            forall a :: bus <= a < bus + len ==> BusPhys(table, a) == UserPhys(pages, start + (a - bus))
  {
    hide BusPhys, UserPhys, OnBusPage, OnUserPage;
    var bus := block + start % PAGE_SIZE;
    forall a | bus <= a < bus + len
      ensures OnUserPage(pages, start + (a - bus)) && OnBusPage(table, a)
      ensures BusPhys(table, a) == UserPhys(pages, start + (a - bus))
    {
      BusSeesUser(pages, table, block, start, n, a - bus);
    }
    forall va | start <= va < start + len
      ensures OnUserPage(pages, va)
    {
      BusSeesUser(pages, table, block, start, n, va - start);
    }
  }

  /** A pull from the mapped block reads the user range. */
  lemma DmaReadsUserRange(node: Node, block: nat, start: nat, n: nat, len: nat)
    requires MapsBlock(node.pages, node.table, block, start, n) && start % PAGE_SIZE + len <= n * PAGE_SIZE
    ensures OnUserPages(node.pages, start, len) && OnBusPages(node.table, block + start % PAGE_SIZE, len)
    ensures DmaRead(node, block + start % PAGE_SIZE, len) == UserBytes(node, start, len)
  {
    BlockCoversRange(node.pages, node.table, block, start, n, len);
  }

  /** A store through the mapped block lands in the user range, in order, and nowhere else. */
  lemma DmaLandsInUserRange(node: Node, block: nat, start: nat, n: nat, data: seq<Byte>, va: nat)
    requires PagesDistinct(node.pages) && OnUserPage(node.pages, va)
    requires MapsBlock(node.pages, node.table, block, start, n) && start % PAGE_SIZE + |data| <= n * PAGE_SIZE
    ensures OnBusPages(node.table, block + start % PAGE_SIZE, |data|)
    ensures DmaWrite(node, block + start % PAGE_SIZE, data)(UserPhys(node.pages, va)) ==
            if start <= va < start + |data| then data[va - start] else node.mem(UserPhys(node.pages, va))
  {
    hide BusPhys, UserPhys;
    var bus := block + start % PAGE_SIZE;
    BlockCoversRange(node.pages, node.table, block, start, n, |data|);
    forall b | bus <= b < bus + |data| && start + (b - bus) != va
      ensures BusPhys(node.table, b) != UserPhys(node.pages, va)
    {
      if BusPhys(node.table, b) == UserPhys(node.pages, va) {
        UserPhysInjective(node.pages, start + (b - bus), va);
      }
    }
    if start <= va < start + |data| {
      DmaWriteAt(node, bus, data, va - start);
    } else {
      DmaWriteElsewhere(node, bus, data, UserPhys(node.pages, va));
    }
  }

  /** A store through the mapped block changes no physical byte outside the user range. */
  lemma DmaTouchesNothingElse(node: Node, block: nat, start: nat, n: nat, data: seq<Byte>, a: nat)
    requires MapsBlock(node.pages, node.table, block, start, n) && start % PAGE_SIZE + |data| <= n * PAGE_SIZE
    requires forall va :: start <= va < start + |data| && OnUserPage(node.pages, va) ==> UserPhys(node.pages, va) != a
    ensures OnBusPages(node.table, block + start % PAGE_SIZE, |data|)
    ensures DmaWrite(node, block + start % PAGE_SIZE, data)(a) == node.mem(a)
  {
    hide BusPhys, UserPhys, MapsBlock;
    BlockCoversRange(node.pages, node.table, block, start, n, |data|);
    DmaWriteElsewhere(node, block + start % PAGE_SIZE, data, a);
  }
}

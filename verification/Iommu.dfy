/** Mapping user pages into the IOMMU, page by page, with rollback. */
module Iommu {
  import opened Constants

  datatype Option<+T> = None | Some(value: T)

  /** A run of I/O virtual pages handed out by the range allocator. */
  datatype Block = Block(addr: nat, nrPages: nat)

  datatype MapStatus = Mapped | InvalidArgument | NoSpace | NoMemory

  /** The address of page i of a block. */
  function PageAt(addr: nat, i: nat): nat { addr + i * PAGE_SIZE }

  /** The page addresses of a block of n pages. */
  function PageAddrs(addr: nat, n: nat): set<nat> {
    if n == 0 then {} else PageAddrs(addr, n - 1) + {PageAt(addr, n - 1)}
  }

  lemma PageAtOrder(addr: nat, i: nat, j: nat)
    requires i < j
    ensures PageAt(addr, i) < PageAt(addr, j)
  {
    assert (j - i) * PAGE_SIZE > 0;
  }

  lemma {:induction false} PageAddrsBelow(addr: nat, n: nat, i: nat)
    ensures PageAt(addr, i) in PageAddrs(addr, n) <==> i < n
    decreases n
  {
    hide PageAt;
    if 0 < n {
      PageAddrsBelow(addr, n - 1, i);
      if i < n - 1 {
        PageAtOrder(addr, i, n - 1);
      } else if n - 1 < i {
        PageAtOrder(addr, n - 1, i);
      }
    }
  }

  /** The entries that map a block to a list of physical pages, in order. */
  ghost function Mapping(addr: nat, pages: seq<nat>): (entries: map<nat, nat>)
    ensures entries.Keys == PageAddrs(addr, |pages|)
  {
    if pages == [] then map[] else
      var last := |pages| - 1;
      Mapping(addr, pages[..last])[PageAt(addr, last) := pages[last]]
  }

  /** Entry i of a block, i pages of PAGE_SIZE bytes behind its start, leads to page i of the list. */
  lemma {:induction false} MappingAt(addr: nat, pages: seq<nat>, i: nat)
    requires i < |pages|
    ensures PageAt(addr, i) == addr + i * PAGE_SIZE
    ensures PageAt(addr, i) in Mapping(addr, pages) && Mapping(addr, pages)[PageAt(addr, i)] == pages[i]
  {
    var last := |pages| - 1;
    if i < last {
      MappingAt(addr, pages[..last], i);
      hide PageAt;
      PageAddrsBelow(addr, last, last);
    }
  }

  /** The IOMMU domain: an external component that may refuse to add an entry. */
  class Domain {
    const refuses: (map<nat, nat>, nat, nat) -> bool
    var table: map<nat, nat>

    constructor (refuses: (map<nat, nat>, nat, nat) -> bool)
      ensures this.refuses == refuses && table == map[]
    {
      this.refuses := refuses;
      table := map[];
    }

    method Map(iova: nat, paddr: nat) returns (err: bool)
      modifies this
      ensures err == refuses(old(table), iova, paddr)
      ensures table == if err then old(table) else old(table)[iova := paddr]
    {
      err := refuses(table, iova, paddr);
      if !err {
        table := table[iova := paddr];
      }
    }

    method Unmap(iova: nat)
      modifies this
      ensures table == old(table) - {iova}
    {
      table := table - {iova};
    }
  }

  /** The range allocator: an external component that reserves a page-aligned block of pages none
      of which is reserved yet, at a place of its choice, or reports that it has no room. */
  class Allocator {
    const pick: (set<nat>, nat) -> Option<nat>
    var reserved: set<nat>

    constructor (pick: (set<nat>, nat) -> Option<nat>)
      ensures this.pick == pick && reserved == {}
    {
      this.pick := pick;
      reserved := {};
    }

    /** Whether the allocator finds a block of n pages while `reserved` is taken. */
    predicate HasRoom(reserved: set<nat>, n: nat) {
      var at := pick(reserved, n);
      at.Some? && at.value % PAGE_SIZE == 0 && PageAddrs(at.value, n) !! reserved
    }

    method Alloc(n: nat) returns (block: Option<Block>)
      modifies this
      ensures block == if HasRoom(old(reserved), n) then Some(Block(pick(old(reserved), n).value, n)) else None
      ensures block.Some? ==> block.value.addr % PAGE_SIZE == 0
      ensures reserved == old(reserved) + if block.Some? then PageAddrs(block.value.addr, n) else {}
    {
      if !HasRoom(reserved, n) {
        return None;
      }
      block := Some(Block(pick(reserved, n).value, n));
      reserved := reserved + PageAddrs(block.value.addr, n);
    }

    method Free(block: Block)
      modifies this
      ensures reserved == old(reserved) - PageAddrs(block.addr, block.nrPages)
    {
      reserved := reserved - PageAddrs(block.addr, block.nrPages);
    }
  }

  class IovaRange {
    const domain: Domain
    const allocator: Allocator

    /** Only reserved pages are mapped. */
    ghost predicate Valid()
      reads this, domain, allocator
    {
      domain.table.Keys <= allocator.reserved
    }

    constructor (domain: Domain, allocator: Allocator)
      requires domain.table.Keys <= allocator.reserved
      ensures Valid() && this.domain == domain && this.allocator == allocator
    {
      this.domain, this.allocator := domain, allocator;
    }

    /** Undo the first n entries of a block, last one first. */
    method UnmapFirst(addr: nat, n: nat, ghost pages: seq<nat>, ghost before: map<nat, nat>)
      requires n <= |pages| && before.Keys !! PageAddrs(addr, |pages|)
      requires domain.table == before + Mapping(addr, pages[..n])
      modifies domain
      ensures domain.table == before
    {
      hide PageAt, PageAddrs, Mapping;
      var i: nat := n;
      while i > 0
        invariant i <= n
        invariant domain.table == before + Mapping(addr, pages[..i])
      {
        RollBackOne(before, addr, pages, i);
        domain.Unmap(PageAt(addr, i - 1));
        i := i - 1;
      }
      MappingNone(addr, pages);
      assert pages[..0] == [];
    }
  }

  /** The domain accepts every page of the list, each offered after the ones before it. */
  ghost predicate AcceptsAll(
    refuses: (map<nat, nat>, nat, nat) -> bool, before: map<nat, nat>, addr: nat, pages: seq<nat>)
  {
    forall i :: 0 <= i < |pages| ==> !refuses(before + Mapping(addr, pages[..i]), PageAt(addr, i), pages[i])
  }

  /** Map `pages` into a fresh block and publish the block in `handle`. On failure nothing is mapped
      or reserved any more; `handle` is cleared if a block had been reserved, else left alone. */
  method MapUserPages(range: IovaRange?, pages: seq<nat>, handle: Option<Block>)
    returns (rc: MapStatus, handle': Option<Block>)
    requires range != null ==> range.Valid()
    modifies if range == null then {} else {range.domain, range.allocator}
    ensures rc == InvalidArgument <==> range == null || pages == []
    ensures range != null ==> range.Valid()
    ensures rc == InvalidArgument || rc == NoSpace ==> handle' == handle
    ensures range != null && rc != Mapped ==>
              range.domain.table == old(range.domain.table) && range.allocator.reserved == old(range.allocator.reserved)
    ensures range != null && pages != [] ==>
              var room := range.allocator.HasRoom(old(range.allocator.reserved), |pages|);
              && (rc == NoSpace <==> !room)
              && (room ==>
                  var addr := range.allocator.pick(old(range.allocator.reserved), |pages|).value;
                  if AcceptsAll(range.domain.refuses, old(range.domain.table), addr, pages) then
                    && rc == Mapped && handle' == Some(Block(addr, |pages|)) && addr % PAGE_SIZE == 0
                    && old(range.domain.table).Keys !! PageAddrs(addr, |pages|)
                    && range.domain.table == old(range.domain.table) + Mapping(addr, pages)
                    && range.allocator.reserved == old(range.allocator.reserved) + PageAddrs(addr, |pages|)
                  else
                    rc == NoMemory && handle' == None)
  {
    hide PageAt, PageAddrs, Mapping;
    if range == null {
      return InvalidArgument, handle;
    }
    if |pages| == 0 {
      return InvalidArgument, handle;
    }
    var block := range.allocator.Alloc(|pages|);
    if block.None? {
      return NoSpace, handle;
    }
    var addr := block.value.addr;
    ghost var before := range.domain.table;
    MappingNone(addr, pages);
    for i := 0 to |pages|
      invariant range.domain.table == before + Mapping(addr, pages[..i])
      invariant range.allocator.reserved == old(range.allocator.reserved) + PageAddrs(addr, |pages|)
      invariant forall k :: 0 <= k < i ==>
                  !range.domain.refuses(before + Mapping(addr, pages[..k]), PageAt(addr, k), pages[k])
    {
      MappingOneMore(addr, pages, i);
      var err := range.domain.Map(PageAt(addr, i), pages[i]);
      if err {
        range.UnmapFirst(addr, i, pages, before);
        range.allocator.Free(block.value);
        return NoMemory, None;
      }
    }
    assert pages[..|pages|] == pages;
    return Mapped, block;
  }

  lemma MappingNone(addr: nat, pages: seq<nat>)
    ensures forall before: map<nat, nat> :: before + Mapping(addr, pages[..0]) == before
  {
    assert pages[..0] == [];
  }

  lemma MappingOneMore(addr: nat, pages: seq<nat>, i: nat)
    requires i < |pages|
    ensures Mapping(addr, pages[..i + 1]) == Mapping(addr, pages[..i])[PageAt(addr, i) := pages[i]]
  {
    assert pages[..i + 1][..i] == pages[..i];
  }

  /** Removing the newest entry of a block leaves the entries before it. */
  lemma RollBackOne(before: map<nat, nat>, addr: nat, pages: seq<nat>, i: nat)
    requires 0 < i <= |pages| && before.Keys !! PageAddrs(addr, |pages|)
    ensures before + Mapping(addr, pages[..i]) - {PageAt(addr, i - 1)} == before + Mapping(addr, pages[..i - 1])
  {
    hide PageAt;
    PageAddrsBelow(addr, |pages|, i - 1);
    PageAddrsBelow(addr, i - 1, i - 1);
    assert pages[..i][..i - 1] == pages[..i - 1];
    RemoveAdded(before, Mapping(addr, pages[..i - 1]), PageAt(addr, i - 1), pages[i - 1]);
  }

  lemma RemoveAdded<K, V>(before: map<K, V>, entries: map<K, V>, key: K, value: V)
    requires key !in before && key !in entries
    ensures before + entries[key := value] - {key} == before + entries
  {
  }
}

// The slab allocator from rt_system_heap_init on: runs of calls, the byte count, alignment.
module SlabRuns {
  import opened Options
  import opened Lists
  import opened PageModel
  import opened PageHeap
  import opened SlabSizes
  import opened SlabZone
  import opened SlabHeap
  import opened SlabLists
  import opened SlabBlocks
  import opened SlabSafety
  import opened SlabProperties
  import opened MapSum

  // ----- used_mem -----

  function Busy(z: Zone): nat { if z.nfree <= z.max then (z.max - z.nfree) * z.chunk else 0 }

  function Spent(h: Heap, p: nat): nat
    requires p in h.pages.held
  {
    if p in h.zones then Busy(h.zones[p]) else PageAddr(h.pages.held[p])
  }

  function Bytes(h: Heap): map<nat, nat> { map p | p in h.pages.held && p != h.table :: Spent(h, p) }

  // used_mem counts the bytes of all live blocks.
  ghost predicate UsedOk(h: Heap) { h.used == Total(Bytes(h)) }

  // The chunks of a zone that are not free are the live ones.
  lemma LiveCount(size: nat, s: nat, z: Zone)
    requires ZoneOk(size, s, z)
    ensures
      var live := SlotSet(s, z, z.top + 1) - Elements(z.free);
      |live| == z.max - z.nfree && forall a :: a in live <==> LiveChunk(s, z, a)
  {
    var all, f := SlotSet(s, z, z.top + 1), Elements(z.free);
    forall a ensures a in all <==> IsSlot(s, z, a) {
      if a in all { var k: nat :| k < z.top + 1 && a == Slot(s, z, k); assert k <= z.top; }
    }
    DistinctSize(z.free);
    SubsetSize(f, all);
    assert all == f + (all - f);
    assert |all| == |f| + |all - f|;
  }

  // The bytes of one page block change.
  lemma SpentChanges(h: Heap, e: Heap, s: nat)
    requires UsedOk(h) && e.table == h.table && s != h.table && s in e.pages.held
    requires e.pages.held.Keys == h.pages.held.Keys + {s}
    requires forall p | p in h.pages.held && p != s :: Spent(e, p) == Spent(h, p)
    requires e.used == h.used + Spent(e, s) - (if s in h.pages.held then Spent(h, s) else 0)
    ensures UsedOk(e)
  {
    assert Bytes(e) == Bytes(h)[s := Spent(e, s)];
    PutIn(Bytes(h), s, Spent(e, s));
  }

  lemma SpentGone(h: Heap, e: Heap, s: nat)
    requires UsedOk(h) && e.table == h.table && s != h.table && s in h.pages.held
    requires e.pages.held.Keys == h.pages.held.Keys - {s}
    requires forall p | p in e.pages.held :: Spent(e, p) == Spent(h, p)
    requires e.used == h.used - Spent(h, s)
    ensures UsedOk(e)
  {
    assert Bytes(e) == Bytes(h) - {s};
    TakeOut(Bytes(h), s);
  }

  lemma BusyMore(z: Zone, e: Zone)
    requires e.max == z.max && e.chunk == z.chunk && e.nfree + 1 == z.nfree <= z.max
    ensures Busy(e) == Busy(z) + z.chunk
  {
    assert (z.max - e.nfree) * z.chunk == (z.max - z.nfree) * z.chunk + z.chunk;
  }

  lemma TakeListedUsed(h: Heap, i: nat)
    requires Ok(h) && UsedOk(h) && i < CLASSES && h.lists[i] != []
    ensures h.lists[i][0] in h.zones && CanTake(h.zones[h.lists[i][0]])
    ensures UsedOk(TakeListed(h, i).heap)
  {
    hide PagesOk, UsageOk, UsedOk, ListsFull, OneWhole, SparesOk;
    TakeListedSafe(h, i);
    var s, e := h.lists[i][0], TakeListed(h, i).heap;
    NotOverfull(h.size, s, h.zones[s]);
    BusyMore(h.zones[s], e.zones[s]);
    SpentChanges(h, e, s);
  }

  lemma OpenZoneUsed(h: Heap, g: Heap, s: nat, i: nat, chunk: nat)
    requires UsedOk(h) && g.used == h.used && g.table == h.table && g.size == h.size && g.zones == h.zones
    requires CanOpen(g.size, chunk) && i < |g.lists| && s != h.table && g.pages.held == h.pages.held[s := ZonePages(h)]
    requires if s in h.zones then s in h.pages.held && Whole(h.zones[s]) else s !in h.pages.held
    ensures UsedOk(OpenZone(g, s, i, chunk).heap)
  {
    var e := OpenZone(g, s, i, chunk).heap;
    assert Busy(e.zones[s]) == chunk;
    assert s in h.zones ==> Busy(h.zones[s]) == 0;
    hide Busy, UsedOk, CanOpen, NewZone;
    SpentChanges(h, e, s);
  }

  lemma MallocUsed(h: Heap, size: nat)
    requires Ok(h) && UsedOk(h)
    ensures Ready(h) && UsedOk(Malloc(h, size).heap)
    ensures Malloc(h, size).ptr.Some? ==> Malloc(h, size).heap.used == h.used + Granted(h, size)
  {
    hide MemoryOk, ListsSound, ListsFull, OneWhole, SparesOk, UsedOk, Refused, Gains, PagesFor, Grab, Rounded,
      ZoneIndex;
    MallocSafe(h, size);
    if size >= h.limit {
      LargeUsed(h, size);
    } else if size > 0 {
      SmallUsed(h, size);
    }
  }

  lemma LargeUsed(h: Heap, size: nat)
    requires Ok(h) && UsedOk(h)
    ensures UsedOk(MallocLarge(h, size).heap)
  {
    hide ZonesOk, UsageOk, PagesOk, ListsOk, UsedOk, PagesFor, Grab;
    var n := PagesFor(size);
    var (g, page) := Grab(h.pages, n);
    if page.Some? {
      GrabShape(h.pages, n);
      SpentChanges(h, MallocLarge(h, size).heap, page.value);
    }
  }

  lemma SmallUsed(h: Heap, size: nat)
    requires Ok(h) && UsedOk(h) && Ready(h) && 0 < size < h.limit
    ensures 0 <= ZoneIndex(size) < CLASSES && CanOpen(h.size, Rounded(size))
    ensures UsedOk(MallocSmall(h, size).heap)
    ensures MallocSmall(h, size).ptr.Some? ==> MallocSmall(h, size).heap.used == h.used + Rounded(size)
  {
    hide ZonesOk, UsageOk, PagesOk, ListsFull, OneWhole, UsedOk, Rounded, ZoneIndex, Grab, CanOpen, ClassSize, Busy;
    TightestClass(size);
    ReadyFor(h, size);
    var i, chunk := ZoneIndex(size), Rounded(size);
    if h.lists[i] != [] {
      TakeListedUsed(h, i);
      ClassOfHead(h, i);
    } else if h.spare != [] {
      var g := h.(spare := h.spare[1..], spares := h.spares - 1);
      assert h.spare[0] in h.spare;
      EntriesAgain(h, h.spare[0]);
      OpenZoneUsed(h, g, h.spare[0], i, chunk);
    } else {
      var (g, page) := Grab(h.pages, ZonePages(h));
      if page.Some? {
        GrabShape(h.pages, ZonePages(h));
        OpenZoneUsed(h, h.(pages := g, usage := Fill(h.usage, page.value, ZonePages(h), true)), page.value, i, chunk);
      }
    }
  }

  lemma ClassOfHead(h: Heap, i: nat)
    requires Ok(h) && i < CLASSES && h.lists[i] != []
    ensures h.lists[i][0] in h.zones && h.zones[h.lists[i][0]].chunk == ClassSize(i)
  {
    assert h.lists[i][0] in h.lists[i];
  }

  lemma FreeUsed(h: Heap, a: nat, n: nat)
    requires Ok(h) && UsedOk(h) && Block(h, a, n)
    ensures Known(h, a) && UsedOk(FreePtr(h, a)) && FreePtr(h, a).used == h.used - n
  {
    hide MemoryOk, ListsOk, UsedOk, Block, ChunkBlock, PageBlock, FreeChunk, FreeLarge;
    OkReady(h);
    Recovers(h, a, n);
    var q := PageOf(a);
    match h.usage[q]
    case Small(off) => FreeChunkUsed(h, q - off, a, n);
    case Large(count) => FreeLargeUsed(h, q, a, n, count);
  }

  lemma FreeLargeUsed(h: Heap, p: nat, a: nat, n: nat, count: nat)
    requires Ok(h) && UsedOk(h) && PageBlock(h, p, a, n) && n == PageAddr(count)
    ensures UsedOk(FreeLarge(h, p, count)) && FreeLarge(h, p, count).used == h.used - n
  {
    hide ZonesOk, UsageOk, PagesOk, ListsOk, UsedOk;
    SpentGone(h, FreeLarge(h, p, count), p);
  }

  lemma FreeChunkUsed(h: Heap, s: nat, a: nat, n: nat)
    requires Ok(h) && UsedOk(h) && ChunkBlock(h, s, a, n)
    ensures h.zones[s].cls < |h.lists|
    ensures UsedOk(FreeChunk(h, s, a)) && FreeChunk(h, s, a).used == h.used - n
  {
    hide ZonesOk, UsageOk, PagesOk, ListsSound, ListsFull, OneWhole, UsedOk, Loses, Block, Busy;
    OkReady(h);
    PutBackSafe(h, s, a, n);
    PutBackUsed(h, s, a, n);
    var g := PutBack(h, s, a);
    if Dispensable(g, s) {
      RetireSafe(g, s);
      var e := Retire(g, s);
      KeepsUsed(g, e);
      if e.spares > 2 { ReleaseUsed(e); }
    }
  }

  lemma PutBackUsed(h: Heap, s: nat, a: nat, n: nat)
    requires Ok(h) && UsedOk(h) && ChunkBlock(h, s, a, n) && h.zones[s].cls < |h.lists|
    ensures UsedOk(PutBack(h, s, a))
  {
    hide UsageOk, PagesOk, ListsOk, UsedOk, Busy, LiveChunk, Shaped;
    var e := PutBack(h, s, a);
    GiveChunkSafe(h.size, s, h.zones[s], a, a);
    BusyMore(e.zones[s], h.zones[s]);
    SpentChanges(h, e, s);
  }

  lemma KeepsUsed(h: Heap, e: Heap)
    requires UsedOk(h) && e.zones == h.zones && e.pages == h.pages && e.table == h.table && e.used == h.used
    ensures UsedOk(e)
  {
    assert Bytes(e) == Bytes(h);
  }

  lemma ReleaseUsed(h: Heap)
    requires MemoryOk(h) && SparesOk(h) && UsedOk(h) && h.spare != []
    ensures UsedOk(Release(h))
  {
    hide ZonesOk, UsageOk, PagesOk, UsedOk;
    assert h.spare[0] in h.spare;
    SpentGone(h, Release(h), h.spare[0]);
  }

  // ----- Start and runs -----

  ghost predicate Sound(h: Heap) { Ok(h) && UsedOk(h) }

  // The page table has four bytes for each page.
  function TablePages(total: nat): nat { (total * 4 + 4095) / 4096 }

  // rt_system_heap_init; `usage` is whatever the memory of the page table held before.
  function Init(total: nat, usage: map<nat, Usage>): Heap {
    var size := GrowZone(32768, total * 4096);
    var (g, page) := Grab(Pages(total, Free([], 0, total), map[]), TablePages(total));
    Heap(size, if size / 4 > 16384 then 16384 else size / 4, g, if page.Some? then page.value else 0, usage, map[],
         seq(CLASSES, i => []), [], 0, 0)
  }

  lemma InitSafe(total: nat, usage: map<nat, Usage>)
    requires total > 0
    ensures Sound(Init(total, usage)) && forall a, n :: !Block(Init(total, usage), a, n)
  {
    var h := Init(total, usage);
    var g := Pages(total, Free([], 0, total), map[]);
    ZoneSizesOk(total * 4096);
    FreshOk(total);
    assert g.runs == [Run(0, total)];
    assert TablePages(total) <= total;
    GrabShape(g, TablePages(total));
    hide PagesOk, GrowZone, Grab;
    assert Bytes(h) == map[];
  }

  datatype Call = ToMalloc(size: nat) | ToFree(ptr: nat) | ToRealloc(ptr: nat, size: nat)

  // Callers pass pointers to live blocks and 32-bit sizes.
  ghost predicate Legal(h: Heap, c: Call) {
    match c
    case ToMalloc(size) => size < 0x1_0000_0000
    case ToFree(a) => exists n :: Block(h, a, n)
    case ToRealloc(a, size) => size < 0x1_0000_0000 && exists n :: Block(h, a, n)
  }

  ghost function Step(h: Heap, c: Call): Heap
    requires Ready(h)
  {
    match c
    case ToMalloc(size) => Malloc(h, size).heap
    case ToFree(a) => if Known(h, a) then FreePtr(h, a) else h
    case ToRealloc(a, size) => Realloc(h, Some(a), size).heap
  }

  ghost predicate LegalRun(h: Heap, calls: seq<Call>)
    decreases calls
  {
    calls == [] || (Ready(h) && Legal(h, calls[0]) && LegalRun(Step(h, calls[0]), calls[1..]))
  }

  ghost function After(h: Heap, calls: seq<Call>): Heap
    requires LegalRun(h, calls)
    decreases calls
  {
    if calls == [] then h else After(Step(h, calls[0]), calls[1..])
  }

  lemma StepSafe(h: Heap, c: Call)
    requires Sound(h) && Legal(h, c)
    ensures Ready(h) && Sound(Step(h, c))
  {
    hide Ok, UsedOk, Ready, Block, Malloc, FreePtr, Known, Realloc, Gains, Loses, Refused, Granted;
    OkReady(h);
    match c
    case ToMalloc(size) =>
      MallocSafe(h, size);
      MallocUsed(h, size);
    case ToFree(a) =>
      var n :| Block(h, a, n);
      FreeSafe(h, a, n);
      FreeUsed(h, a, n);
    case ToRealloc(a, size) =>
      var n :| Block(h, a, n);
      ReallocSound(h, a, n, size);
  }

  lemma ReallocSound(h: Heap, a: nat, n: nat, size: nat)
    requires Sound(h) && Block(h, a, n)
    ensures Ready(h) && Sound(Realloc(h, Some(a), size).heap)
  {
    hide Ok, UsedOk, Ready, Block, Malloc, FreePtr, Known, Realloc, Move, Gains, Loses, Refused, Granted, Rounded;
    OkReady(h);
    if size == 0 {
      FreeSafe(h, a, n);
      FreeUsed(h, a, n);
      ReallocZero(h, a);
    } else {
      ReallocShape(h, a, n, size);
      MoveSound(h, a, n, size);
      RoundedEnough(size);
      MoveSound(h, a, n, Rounded(size));
    }
  }

  lemma ReallocZero(h: Heap, a: nat)
    requires Ready(h) && Known(h, a)
    ensures Realloc(h, Some(a), 0).heap == FreePtr(h, a)
  {}

  lemma MoveSound(h: Heap, a: nat, n: nat, size: nat)
    requires Sound(h) && Block(h, a, n) && size > 0
    ensures Ready(h) && Sound(Move(h, a, n, size).heap)
  {
    hide MemoryOk, ListsOk, UsedOk, Block, Malloc, FreePtr, Known, Refused, Granted;
    MallocSafe(h, size);
    MallocUsed(h, size);
    var r := Malloc(h, size);
    if r.ptr.Some? {
      assert Block(r.heap, a, n);
      FreeSafe(r.heap, a, n);
      FreeUsed(r.heap, a, n);
    }
  }

  // Over every run of calls the invariant holds and used_mem counts the live bytes.
  lemma {:induction false} RunSafe(h: Heap, calls: seq<Call>)
    requires Sound(h) && LegalRun(h, calls)
    ensures Sound(After(h, calls))
    decreases calls
  {
    hide Ok, UsedOk, Ready, Legal, Step;
    if calls != [] {
      StepSafe(h, calls[0]);
      RunSafe(Step(h, calls[0]), calls[1..]);
    }
  }

  // What is allocated and freed again leaves the byte count and the live blocks as they were.
  lemma MallocThenFree(h: Heap, size: nat, b: nat, m: nat)
    requires Sound(h) && Ready(h) && Malloc(h, size).ptr.Some?
    ensures
      var r := Malloc(h, size);
      && Known(r.heap, r.ptr.value)
      && FreePtr(r.heap, r.ptr.value).used == h.used
      && (Block(FreePtr(r.heap, r.ptr.value), b, m) <==> Block(h, b, m))
  {
    hide MemoryOk, ListsOk, UsedOk, Block, Malloc, FreePtr, Known, Refused, Granted, Ready;
    MallocSafe(h, size);
    MallocUsed(h, size);
    var r := Malloc(h, size);
    assert Block(r.heap, r.ptr.value, Granted(h, size));
    FreeSafe(r.heap, r.ptr.value, Granted(h, size));
    FreeUsed(r.heap, r.ptr.value, Granted(h, size));
  }
}

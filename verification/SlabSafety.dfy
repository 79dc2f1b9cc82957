// rt_malloc, rt_free and rt_realloc of the slab allocator: the invariant they keep and what each
// call does to the live blocks.
module SlabSafety {
  import opened Options
  import opened Lists
  import opened PageModel
  import opened PageHeap
  import opened SlabSizes
  import opened SlabZone
  import opened SlabHeap
  import opened SlabLists
  import opened SlabBlocks

  ghost predicate Ok(h: Heap) { MemoryOk(h) && ListsOk(h) && h.spares <= 2 }

  lemma OkReady(h: Heap)
    requires Ok(h)
    ensures |h.lists| == CLASSES && Ready(h) && forall s | s in h.zones :: h.zones[s].cls < |h.lists|
  {
    forall i | 0 <= i < CLASSES && h.lists[i] != []
      ensures h.lists[i][0] in h.zones && CanTake(h.zones[h.lists[i][0]]) {
      assert h.lists[i][0] in h.lists[i];
    }
  }

  // ----- rt_malloc -----

  ghost predicate NoRow(h: Heap, n: nat) { forall p: nat :: !AllFree(h.pages.runs, p, n) }

  // No zone of the class that rt_malloc may use has a free chunk.
  ghost predicate NoChunk(h: Heap, i: nat) {
    forall s | s in h.zones && h.zones[s].cls == i :: s in h.spare || h.zones[s].nfree == 0
  }

  ghost predicate Refused(h: Heap, size: nat) {
    if size == 0 then true
    else if size >= h.limit then PagesFor(size) == 0 || NoRow(h, PagesFor(size))
    else ZoneIndex(size) >= 0 && NoChunk(h, ZoneIndex(size)) && h.spare == [] && NoRow(h, ZonePages(h))
  }

  function Granted(h: Heap, size: nat): nat {
    if size >= h.limit then PageAddr(PagesFor(size)) else Rounded(size)
  }

  lemma PagesEnough(size: nat)
    requires size < 0x1_0000_0000
    ensures PageAddr(PagesFor(size)) >= size || PagesFor(size) == 0
  {
    if size + 4095 < 0x1_0000_0000 {
      assert PagesFor(size) == (size + 4095) / 4096;
    } else {
      assert PagesFor(size) == (size + 4095 - 0x1_0000_0000) / 4096;
    }
  }

  // The caller gets at least what it asked for, unless the size wraps around and nothing is granted.
  lemma GrantedEnough(h: Heap, size: nat)
    requires size < 0x1_0000_0000 && ZoneSizes(h.size, h.limit)
    ensures Granted(h, size) >= size || (size >= h.limit && PagesFor(size) == 0)
  {
    if size >= h.limit {
      PagesEnough(size);
    } else if size > 0 {
      TightestClass(size);
    }
  }

  lemma ListMeans(h: Heap, i: nat)
    requires ListsOk(h) && i < CLASSES
    ensures h.lists[i] == [] <==> NoChunk(h, i)
  {
    if h.lists[i] != [] {
      var s := h.lists[i][0];
      assert s in h.lists[i];
      assert s in h.zones && h.zones[s].cls == i;
    } else {
      assert forall s :: s !in h.lists[i];
    }
  }

  lemma TakeListedSafe(h: Heap, i: nat)
    requires Ok(h) && i < CLASSES && h.lists[i] != []
    ensures h.lists[i][0] in h.zones && CanTake(h.zones[h.lists[i][0]])
    ensures
      var r := TakeListed(h, i);
      Ok(r.heap) && Gains(h, r.heap, r.ptr.value, ClassSize(i))
  {
    var s := h.lists[i][0];
    assert s in h.lists[i] && ZoneOk(h.size, s, h.zones[s]) && h.zones[s].cls == i;
    assert h.zones[s].nfree <= h.zones[s].max by { NotOverfull(h.size, s, h.zones[s]); }
    hide MemoryOk, ListsOk, Gains, ClassSize;
    TakeListedLists(h, i);
    TakeListedBlocks(h, i);
  }

  lemma NotOverfull(size: nat, s: nat, z: Zone)
    requires ZoneOk(size, s, z)
    ensures z.nfree <= z.max
  {
    if z.nfree > z.max { WholeIsFree(size, s, z, 0); }
  }

  // A spare zone is used again.
  lemma ReuseSafe(h: Heap, size: nat)
    requires Ok(h) && 0 < size < h.limit && h.spare != [] && ZoneIndex(size) >= 0 && CanOpen(h.size, Rounded(size))
    requires ZoneIndex(size) < CLASSES && Rounded(size) == ClassSize(ZoneIndex(size))
    ensures
      var g := h.(spare := h.spare[1..], spares := h.spares - 1);
      var r := OpenZone(g, h.spare[0], ZoneIndex(size), Rounded(size));
      Ok(r.heap) && Gains(h, r.heap, r.ptr.value, Rounded(size))
  {
    hide PagesOk, ZonesOk, ZoneSizes, ClassSize, Rounded, ZoneIndex, CanOpen, NewZone, Gains, Block, ListsSound,
      ListsFull, OneWhole;
    var s, i, chunk := h.spare[0], ZoneIndex(size), Rounded(size);
    OkReady(h);
    var g := h.(spare := h.spare[1..], spares := h.spares - 1);
    var e := OpenZone(g, s, i, chunk).heap;
    PopSpareLists(h);
    OpenZoneLists(g, s, i, chunk);
    EntriesAgain(h, s);
    assert Opened(h, e, s, i, chunk);
    OpenedBlocks(h, e, s, i, chunk);
  }

  lemma EntriesAgain(h: Heap, s: nat)
    requires Ok(h) && s in h.spare
    ensures s in h.zones && Whole(h.zones[s]) && ZoneEntries(h.usage, s, ZonePages(h))
    ensures SameElsewhere(h.usage, h.usage, s, ZonePages(h)) && PagesOk(h.pages)
    ensures h.pages.held == h.pages.held[s := ZonePages(h)]
  {
    hide PagesOk, ZonesOk, ZoneSizes, ListsSound, ListsFull, OneWhole;
  }

  // A new zone is taken from the page allocator.
  lemma NewZoneSafe(h: Heap, size: nat, s: nat)
    requires Ok(h) && 0 < size < h.limit && ZoneIndex(size) >= 0 && CanOpen(h.size, Rounded(size))
    requires ZoneIndex(size) < CLASSES && Rounded(size) == ClassSize(ZoneIndex(size))
    requires Grab(h.pages, ZonePages(h)).1 == Some(s)
    ensures
      var g := h.(pages := Grab(h.pages, ZonePages(h)).0, usage := Fill(h.usage, s, ZonePages(h), true));
      var r := OpenZone(g, s, ZoneIndex(size), Rounded(size));
      Ok(r.heap) && Gains(h, r.heap, r.ptr.value, Rounded(size))
  {
    hide PagesOk, ZonesOk, ZoneSizes, ClassSize, Rounded, ZoneIndex, CanOpen, NewZone, Gains, Block, Grab,
      ListsSound, ListsFull, OneWhole, SparesOk;
    var i, chunk := ZoneIndex(size), Rounded(size);
    OkReady(h);
    var g := h.(pages := Grab(h.pages, ZonePages(h)).0, usage := Fill(h.usage, s, ZonePages(h), true));
    var e := OpenZone(g, s, i, chunk).heap;
    GrabShape(h.pages, ZonePages(h));
    NowhereListed(h, g, s);
    OpenZoneLists(g, s, i, chunk);
    FillEntries(h.usage, s, ZonePages(h));
    assert Opened(h, e, s, i, chunk);
    OpenedBlocks(h, e, s, i, chunk);
  }

  lemma GrabShape(g: Pages, n: nat)
    requires PagesOk(g) && Grab(g, n).1.Some?
    ensures
      var (e, page) := Grab(g, n);
      PagesOk(e) && page.value !in g.held && e.held == g.held[page.value := n] && e.total == g.total
  {
    GrabSafe(g, n);
  }

  lemma FillEntries(usage: map<nat, Usage>, s: nat, n: nat)
    ensures ZoneEntries(Fill(usage, s, n, true), s, n) && SameElsewhere(usage, Fill(usage, s, n, true), s, n)
  {}

  // A page that starts no zone is in no zone list.
  lemma NowhereListed(h: Heap, g: Heap, s: nat)
    requires ListsOk(h) && g.zones == h.zones && g.lists == h.lists && g.spare == h.spare && g.spares == h.spares
    requires HeldOk(h) && s !in h.pages.held
    ensures ListsSound(g) && ListsFull(g, Some(s)) && OneWhole(g, Some(s)) && SparesOk(g)
    ensures s !in g.spare && forall j | 0 <= j < CLASSES :: s !in g.lists[j]
  {
    hide PagesOk;
  }

  lemma MallocSafe(h: Heap, size: nat)
    requires Ok(h)
    ensures Ready(h) && Ok(Malloc(h, size).heap)
    ensures
      var r := Malloc(h, size);
      if r.ptr == None then r.heap == h else Gains(h, r.heap, r.ptr.value, Granted(h, size))
    ensures Malloc(h, size).ptr == None <==> Refused(h, size)
  {
    OkReady(h);
    if size >= h.limit {
      LargeSafe(h, size);
    } else if size > 0 {
      ReadyFor(h, size);
      TightestClass(size);
      SmallSafe(h, size);
    }
  }

  lemma LargeSafe(h: Heap, size: nat)
    requires Ok(h)
    ensures
      var r := MallocLarge(h, size);
      && Ok(r.heap) && (r.ptr == None <==> PagesFor(size) == 0 || NoRow(h, PagesFor(size)))
      && (if r.ptr == None then r.heap == h else Gains(h, r.heap, r.ptr.value, PageAddr(PagesFor(size))))
  {
    hide MemoryOk, Gains, PagesFor, Grab;
    TakeLargeBlocks(h, size);
  }

  lemma SmallSafe(h: Heap, size: nat)
    requires Ok(h) && Ready(h) && 0 < size < h.limit && 0 <= ZoneIndex(size) < CLASSES && CanOpen(h.size, Rounded(size))
    requires Rounded(size) == ClassSize(ZoneIndex(size))
    ensures
      var r := MallocSmall(h, size);
      && Ok(r.heap)
      && (if r.ptr == None then r.heap == h else Gains(h, r.heap, r.ptr.value, Rounded(size)))
      && (r.ptr == None <==> NoChunk(h, ZoneIndex(size)) && h.spare == [] && NoRow(h, ZonePages(h)))
  {
    hide MemoryOk, Gains, ListsOk, Rounded, ZoneIndex, CanOpen, Grab, ClassSize, NoChunk, NoRow;
    var i := ZoneIndex(size);
    ListMeans(h, i);
    if h.lists[i] != [] {
      TakeListedSafe(h, i);
    } else if h.spare != [] {
      ReuseSafe(h, size);
    } else {
      RowMeans(h);
      var (g, page) := Grab(h.pages, ZonePages(h));
      if page.Some? { NewZoneSafe(h, size, page.value); }
    }
  }

  lemma RowMeans(h: Heap)
    requires MemoryOk(h)
    ensures Grab(h.pages, ZonePages(h)).1 == None <==> NoRow(h, ZonePages(h))
  {
    GrabSafe(h.pages, ZonePages(h));
  }

  // ----- rt_free -----

  lemma FreeChunkSafe(h: Heap, s: nat, a: nat, n: nat)
    requires Ok(h) && ChunkBlock(h, s, a, n) && h.zones[s].cls < |h.lists|
    ensures Ok(FreeChunk(h, s, a)) && Loses(h, FreeChunk(h, s, a), a, n)
  {
    hide MemoryOk, ListsOk, Block, LiveChunk;
    var g := PutBack(h, s, a);
    PutBackSafe(h, s, a, n);
    if Dispensable(g, s) {
      RetireSafe(g, s);
      var e := Retire(g, s);
      if e.spares > 2 {
        ReleaseSafe(e);
      }
    }
  }

  lemma PutBackSafe(h: Heap, s: nat, a: nat, n: nat)
    requires Ok(h) && ChunkBlock(h, s, a, n) && h.zones[s].cls < |h.lists|
    ensures
      var g := PutBack(h, s, a);
      && MemoryOk(g) && Loses(h, g, a, n) && g.spares <= 2 && s in g.zones && g.zones[s].cls < |g.lists|
      && (if Dispensable(g, s) then Retirable(g, s) else ListsOk(g))
  {
    hide Loses, HeldOk, UsageOk, ZoneSizes, Shaped, ListsSound, ListsFull, OneWhole;
    var g := PutBack(h, s, a);
    GiveChunkSafe(h.size, s, h.zones[s], a, a);
    NotSpare(h, s, a);
    ListsClass(h, s);
    PutBackLists(h, s, a);
    PutBackBlocks(h, s, a, n);
    if !Dispensable(g, s) {
      Capacities(g);
      NotDispensable(g, s);
    }
  }

  // What PutBack leaves behind when the zone has become wholly free and another one is listed
  ghost predicate Retirable(h: Heap, s: nat) {
    && ListsSound(h) && ListsFull(h, None) && OneWhole(h, Some(s)) && SparesOk(h)
    && s in h.zones && h.zones[s].cls < |h.lists| && Whole(h.zones[s]) && s in h.lists[h.zones[s].cls]
  }

  lemma ListsClass(h: Heap, s: nat)
    requires ListsOk(h) && s in h.zones && h.zones[s].cls < |h.lists|
    ensures h.zones[s].cls < CLASSES
  {}

  lemma NotSpare(h: Heap, s: nat, a: nat)
    requires Ok(h) && s in h.zones && LiveChunk(s, h.zones[s], a)
    ensures s !in h.spare
  {
    if s in h.spare { WholeIsFree(h.size, s, h.zones[s], a); }
  }

  lemma Capacities(h: Heap)
    requires ZonesOk(h)
    ensures forall t | t in h.zones :: h.zones[t].max > 0
  {}

  lemma RetireSafe(h: Heap, s: nat)
    requires MemoryOk(h) && Retirable(h, s)
    ensures MemoryOk(Retire(h, s)) && ListsOk(Retire(h, s)) && SameBlocks(h, Retire(h, s))
  {
    hide MemoryOk, SameBlocks, ListsOk, ListsFull, OneWhole;
    RetireLists(h, s);
    RetireBlocks(h, s);
  }

  lemma ReleaseSafe(h: Heap)
    requires MemoryOk(h) && ListsOk(h) && h.spare != []
    ensures MemoryOk(Release(h)) && ListsOk(Release(h)) && SameBlocks(h, Release(h))
  {
    hide MemoryOk, SameBlocks, ListsSound, ListsFull, OneWhole;
    assert h.spare[0] in h.spare;
    ReleaseLists(h);
    ReleaseMemory(h);
    ReleaseBlocks(h);
  }

  // rt_free of a live block takes away that block and no other.
  lemma FreeSafe(h: Heap, a: nat, n: nat)
    requires Ok(h) && Block(h, a, n)
    ensures Known(h, a) && Ok(FreePtr(h, a)) && Loses(h, FreePtr(h, a), a, n)
  {
    hide MemoryOk, ListsOk, Loses, Block, ChunkBlock, FreeChunk, FreeLarge;
    OkReady(h);
    Recovers(h, a, n);
    var q := PageOf(a);
    match h.usage[q]
    case Small(off) => FreeKnownChunk(h, q - off, a, n);
    case Large(count) => FreeKnownPages(h, q, a, n, count);
  }

  lemma FreeKnownChunk(h: Heap, s: nat, a: nat, n: nat)
    requires Ok(h) && ChunkBlock(h, s, a, n)
    ensures h.zones[s].cls < |h.lists| && Ok(FreeChunk(h, s, a)) && Loses(h, FreeChunk(h, s, a), a, n)
  {
    OkReady(h);
    FreeChunkSafe(h, s, a, n);
  }

  lemma FreeKnownPages(h: Heap, p: nat, a: nat, n: nat, count: nat)
    requires Ok(h) && PageBlock(h, p, a, n) && n == PageAddr(count)
    ensures Ok(FreeLarge(h, p, count)) && Loses(h, FreeLarge(h, p, count), a, n)
  {
    hide MemoryOk, ListsSound, ListsFull, OneWhole, SparesOk, Loses;
    FreeLargeMemory(h, p);
    FreeLargeBlocks(h, p);
    var e := FreeLarge(h, p, count);
    SameLists(h, e);
  }

  lemma SameLists(h: Heap, e: Heap)
    requires ListsOk(h) && e.zones == h.zones && e.lists == h.lists && e.spare == h.spare && e.spares == h.spares
    ensures ListsOk(e)
  {}
}

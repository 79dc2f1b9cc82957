// Where the slab allocator (src/slab.c) takes a block from, and when zones and pages come and go.
module SlabPlacement {
  import opened Options
  import opened Lists
  import opened PageModel
  import opened PageHeap
  import opened SlabSizes
  import opened SlabZone
  import opened SlabHeap
  import opened SlabLists
  import opened SlabBlocks
  import opened SlabSafety
  import opened SlabProperties

  // A large block has the least number of pages that is enough.
  lemma PagesLeast(size: nat, n: nat)
    requires size + 4095 < 0x1_0000_0000
    ensures PageAddr(PagesFor(size)) >= size
    ensures PageAddr(n) >= size ==> n >= PagesFor(size)
  {
    assert PagesFor(size) == (size + 4095) / 4096;
  }

  // ----- rt_malloc -----

  // rt_malloc of a small block goes to the page allocator only if its class has no zone with a free
  // chunk and no zone is spare; a spare zone is used only if its class has none either.
  lemma MallocThrifty(h: Heap, size: nat)
    requires Ok(h) && 0 < size < h.limit
    ensures Ready(h) && 0 <= ZoneIndex(size) < CLASSES
    ensures
      var e, none := Malloc(h, size).heap, NoChunk(h, ZoneIndex(size));
      && (e.pages != h.pages <==> none && h.spare == [] && !NoRow(h, ZonePages(h)))
      && e.spare == (if none && h.spare != [] then h.spare[1..] else h.spare)
      && (e.zones.Keys != h.zones.Keys <==> e.pages != h.pages)
  {
    hide MemoryOk, Gains, ListsSound, ListsFull, OneWhole, Rounded, ZoneIndex, CanOpen, Grab, ClassSize, NoRow;
    OkReady(h);
    ReadyFor(h, size);
    TightestClass(size);
    SparesKnown(h);
    ListMeans(h, ZoneIndex(size));
    RowMeans(h);
    GrabbedPages(h);
  }

  lemma SparesKnown(h: Heap)
    requires Ok(h)
    ensures h.spare != [] ==> h.spare[0] in h.zones
  {
    assert h.spare != [] ==> h.spare[0] in h.spare;
  }

  lemma GrabbedPages(h: Heap)
    requires MemoryOk(h)
    ensures
      var (g, page) := Grab(h.pages, ZonePages(h));
      page.Some? ==> g != h.pages && page.value !in h.zones
  {
    if Grab(h.pages, ZonePages(h)).1.Some? { GrabShape(h.pages, ZonePages(h)); }
  }

  // ----- rt_free, and what is allocated next -----

  // Another zone of the class has a free chunk that rt_malloc may use.
  ghost predicate OtherZone(h: Heap, s: nat)
    requires s in h.zones
  {
    exists t :: t in h.zones && t != s && h.zones[t].cls == h.zones[s].cls && h.zones[t].nfree > 0 && t !in h.spare
  }

  // The free makes its zone wholly free, and the class can do without it.
  ghost predicate Empties(h: Heap, s: nat)
    requires s in h.zones
  {
    h.zones[s].nfree + 1 == h.zones[s].max && OtherZone(h, s)
  }

  lemma DispensableMeans(h: Heap, s: nat, a: nat, n: nat)
    requires Ok(h) && ChunkBlock(h, s, a, n)
    ensures h.zones[s].cls < |h.lists|
    ensures
      var g := PutBack(h, s, a);
      s in g.zones && g.zones[s].cls < |g.lists| && (Dispensable(g, s) <==> Empties(h, s))
  {
    hide MemoryOk, OneWhole;
    OkReady(h);
    NotSpare(h, s, a);
    var g, i := PutBack(h, s, a), h.zones[s].cls;
    var list := g.lists[i];
    assert s in list;
    if OtherZone(h, s) {
      var t :| t in h.zones && t != s && h.zones[t].cls == i && h.zones[t].nfree > 0 && t !in h.spare;
      assert t in h.lists[i] && t in list;
    }
    forall t | t in list && t != s ensures OtherZone(h, s) {
      assert t in h.lists[i];
      assert t in h.zones && h.zones[t].cls == i && h.zones[t].nfree > 0 && t !in h.spare;
    }
    if list != [s] {
      ListDistinct(h, s, a);
      var t := AnotherIn(list, s);
    }
  }

  lemma ListDistinct(h: Heap, s: nat, a: nat)
    requires ListsOk(h) && s in h.zones && s !in h.spare && h.zones[s].cls < CLASSES
    ensures Distinct(PutBack(h, s, a).lists[h.zones[s].cls])
  {
    var i := h.zones[s].cls;
    if h.zones[s].nfree == 0 { DistinctConcat([s], h.lists[i]); }
  }

  lemma AnotherIn(list: seq<nat>, s: nat) returns (t: nat)
    requires Distinct(list) && s in list && list != [s]
    ensures t in list && t != s
  {
    OneOnly(list);
    t := if list[0] != s then list[0] else list[1];
  }

  lemma OneOnly(list: seq<nat>)
    ensures |list| == 1 ==> list == [list[0]]
  {}

  // What rt_free of a chunk does to zones and pages: the zone is given up exactly if it has become
  // wholly free and its class can do without it; then it is kept as a spare one, unless there are
  // two already: then its pages go back.
  lemma FreeThrifty(h: Heap, s: nat, a: nat, n: nat)
    requires Ok(h) && ChunkBlock(h, s, a, n)
    ensures h.zones[s].cls < |h.lists|
    ensures
      var g := FreeChunk(h, s, a);
      && (g.pages == h.pages <==> !(Empties(h, s) && h.spares == 2))
      && (Empties(h, s) && h.spares < 2 ==> g.spare == [s] + h.spare && g.zones.Keys == h.zones.Keys)
      && (Empties(h, s) && h.spares == 2 ==> g.spare == h.spare && g.zones.Keys == h.zones.Keys - {s})
      && (!Empties(h, s) ==> g.spare == h.spare && g.zones.Keys == h.zones.Keys && s in g.lists[h.zones[s].cls])
  {
    hide ZonesOk, UsageOk, ListsFull, OneWhole, Empties, LiveChunk;
    OkReady(h);
    NotSpare(h, s, a);
    DispensableMeans(h, s, a, n);
    var g := PutBack(h, s, a);
    ReturnedPages(h, s);
    ListedAfter(h, s, a, n);
  }

  lemma ReturnedPages(h: Heap, s: nat)
    requires HeldOk(h) && s in h.zones
    ensures Return(h.pages, s, ZonePages(h)) != h.pages
  {}

  lemma ListedAfter(h: Heap, s: nat, a: nat, n: nat)
    requires Ok(h) && ChunkBlock(h, s, a, n) && s !in h.spare && h.zones[s].cls < |h.lists|
    ensures s in PutBack(h, s, a).lists[h.zones[s].cls]
  {}

  // rt_malloc of a class that has a zone listed takes a chunk of the first one.
  lemma FromHead(g: Heap, size: nat, i: nat)
    requires Ok(g) && 0 < size < g.limit && ZoneIndex(size) == i && i < |g.lists| && g.lists[i] != []
    ensures Ready(g) && g.lists[i][0] in g.zones && CanTake(g.zones[g.lists[i][0]])
    ensures
      var t := g.lists[i][0];
      var p := TakeChunk(t, g.zones[t]).1;
      Malloc(g, size).ptr == Some(p) && t <= PageOf(p) < t + ZonePages(g)
  {
    hide UsageOk, ListsFull, OneWhole, Rounded, ZoneIndex, CanOpen, Grab, PagesOk, Shaped;
    OkReady(g);
    ReadyFor(g, size);
    var t := g.lists[i][0];
    assert t in g.lists[i];
    TakenPage(g, t);
  }

  lemma TakenPage(g: Heap, t: nat)
    requires MemoryOk(g) && t in g.zones && g.zones[t].nfree > 0 && CanTake(g.zones[t])
    ensures
      var p := TakeChunk(t, g.zones[t]).1;
      t <= PageOf(p) < t + ZonePages(g)
  {
    hide UsageOk, HeldOk, Shaped, Offset, Capacity;
    var e, p := TakeChunk(t, g.zones[t]).0, TakeChunk(t, g.zones[t]).1;
    TakeChunkSafe(g.size, t, g.zones[t], p);
    WholePages(g);
    SlotPage(g.size, ZonePages(g), t, e, p);
  }

  // A chunk of another zone is another chunk.
  lemma ElsewhereDiffers(h: Heap, s: nat, a: nat, n: nat, t: nat, p: nat)
    requires Ok(h) && ChunkBlock(h, s, a, n) && t in h.zones && t != s && t <= PageOf(p) < t + ZonePages(h)
    ensures p != a
  {
    hide PagesOk, ListsOk, UsageOk, Shaped;
    ChunkPage(h, s, a);
    if p == a { OneHolderHere(h, s, t, PageOf(a)); }
  }

  lemma OneHolderHere(h: Heap, s: nat, t: nat, x: nat)
    requires HeldOk(h) && s in h.zones && t in h.zones && Within(h.pages, s, x) && t <= x < t + ZonePages(h)
    ensures s == t
  {
    OneHolder(h.pages, s, t, x);
  }

  // The zone has been kept: the request is served from it, or from the one in front of it.
  lemma NextOfClass(h: Heap, s: nat, a: nat, n: nat, size: nat)
    requires Ok(h) && ChunkBlock(h, s, a, n) && 0 < size < h.limit && ZoneIndex(size) == h.zones[s].cls < |h.lists|
    requires Ok(PutBack(h, s, a)) && Ready(PutBack(h, s, a)) && s !in h.spare
    ensures
      var z := h.zones[s];
      Malloc(PutBack(h, s, a), size).ptr == Some(a) <==>
        z.top + 1 == z.max && (z.nfree == 0 || (h.lists[z.cls] != [] && h.lists[z.cls][0] == s))
  {
    hide MemoryOk, ListsOk, Rounded, ZoneIndex, LiveChunk, Malloc;
    var g, z := PutBack(h, s, a), h.zones[s];
    ListedAfter(h, s, a, n);
    assert g.lists[z.cls] != [];
    FromHead(g, size, z.cls);
    var t := g.lists[z.cls][0];
    if t == s {
      ChunkPositive(h, s);
      OwnZone(h, s, a, n);
    } else {
      HeadOfClass(h, s, a);
      ElsewhereDiffers(h, s, a, n, t, TakeChunk(t, g.zones[t]).1);
    }
  }

  lemma ChunkPositive(h: Heap, s: nat)
    requires MemoryOk(h) && s in h.zones
    ensures h.zones[s].chunk > 0
  {}

  lemma HeadOfClass(h: Heap, s: nat, a: nat)
    requires ListsOk(h) && s in h.zones && h.zones[s].cls < |h.lists|
    requires var list := PutBack(h, s, a).lists[h.zones[s].cls]; list != [] && list[0] != s
    ensures h.lists[h.zones[s].cls] != [] && h.lists[h.zones[s].cls][0] in h.zones && h.zones[s].nfree > 0
    ensures PutBack(h, s, a).lists[h.zones[s].cls] == h.lists[h.zones[s].cls]
  {
    hide ListsFull, OneWhole, SparesOk;
    var list := PutBack(h, s, a).lists[h.zones[s].cls];
    assert h.zones[s].nfree > 0;
    assert list[0] in h.lists[h.zones[s].cls];
  }

  lemma OwnZone(h: Heap, s: nat, a: nat, n: nat)
    requires ChunkBlock(h, s, a, n) && CanTake(GiveChunk(h.zones[s], a)) && h.zones[s].chunk > 0
    ensures TakeChunk(s, GiveChunk(h.zones[s], a)).1 == a <==> h.zones[s].top + 1 == h.zones[s].max
  {
    var z := h.zones[s];
    if z.top + 1 != z.max {
      var k: nat :| k <= z.top && a == Slot(s, z, k);
      SlotLess(s, z, k, z.top + 1);
      assert Slot(s, GiveChunk(z, a), z.top + 1) == Slot(s, z, z.top + 1);
    }
  }

  lemma SlotLess(s: nat, z: Zone, i: nat, j: nat)
    requires i < j
    ensures z.chunk > 0 ==> Slot(s, z, i) != Slot(s, z, j)
  {
    SlotsApart(s, z, i, j);
  }

  // The zone has been given up: the request is served from another one of the class.
  lemma GivenUp(h: Heap, s: nat, a: nat, n: nat, size: nat)
    requires Ok(h) && ChunkBlock(h, s, a, n) && 0 < size < h.limit && ZoneIndex(size) == h.zones[s].cls < |h.lists|
    requires Empties(h, s) && s !in h.spare && Dispensable(PutBack(h, s, a), s)
    requires Ok(FreeChunk(h, s, a)) && Ready(FreeChunk(h, s, a))
    ensures Malloc(FreeChunk(h, s, a), size).ptr != Some(a)
  {
    hide MemoryOk, ListsOk, Rounded, ZoneIndex, LiveChunk, Malloc;
    var g, i := FreeChunk(h, s, a), h.zones[s].cls;
    RestListed(h, s, a);
    FromHead(g, size, i);
    var t := g.lists[i][0];
    ElsewhereDiffers(h, s, a, n, t, TakeChunk(t, g.zones[t]).1);
  }

  lemma RestListed(h: Heap, s: nat, a: nat)
    requires ListsOk(h) && s in h.zones && h.zones[s].cls < |h.lists|
    requires Empties(h, s) && s !in h.spare && Dispensable(PutBack(h, s, a), s)
    ensures
      var g, i := FreeChunk(h, s, a), h.zones[s].cls;
      i < |g.lists| && g.lists[i] != [] && g.lists[i][0] in h.zones && g.lists[i][0] != s
      && g.size == h.size && g.limit == h.limit
  {
    hide OneWhole, SparesOk, Distinct, FreeChunk;
    var b, i := PutBack(h, s, a), h.zones[s].cls;
    GivenUpLists(h, s, a);
    var t :| t in h.zones && t != s && h.zones[t].cls == i && h.zones[t].nfree > 0 && t !in h.spare;
    assert t in h.lists[i] && t in b.lists[i];
    var rest := Without(b.lists[i], s);
    assert t in rest && rest[0] in rest;
    assert rest[0] in h.lists[i];
  }

  lemma GivenUpLists(h: Heap, s: nat, a: nat)
    requires s in h.zones && h.zones[s].cls < |h.lists| && Dispensable(PutBack(h, s, a), s)
    ensures
      var b, g, i := PutBack(h, s, a), FreeChunk(h, s, a), h.zones[s].cls;
      g.size == h.size && g.limit == h.limit && i < |g.lists| && g.lists[i] == Without(b.lists[i], s)
  {}

  // The chunk freed last is allocated again: by the next request of its class exactly if all chunks
  // of its zone have been used before, the zone is the one its class allocates from, or was full, and
  // it has not been given up.
  lemma FreeThenMalloc(h: Heap, s: nat, a: nat, n: nat, size: nat)
    requires Ok(h) && ChunkBlock(h, s, a, n) && 0 < size < h.limit && ZoneIndex(size) == h.zones[s].cls
    ensures h.zones[s].cls < |h.lists|
    ensures
      var z, g := h.zones[s], FreeChunk(h, s, a);
      && Ok(g) && Ready(g)
      && (Malloc(g, size).ptr == Some(a) <==>
           && z.top + 1 == z.max && !Empties(h, s)
           && (z.nfree == 0 || (h.lists[z.cls] != [] && h.lists[z.cls][0] == s)))
  {
    hide Ok, Empties, Rounded, ZoneIndex, LiveChunk, Malloc, Loses;
    OkReady(h);
    FreeChunkSafe(h, s, a, n);
    DispensableMeans(h, s, a, n);
    var g := FreeChunk(h, s, a);
    OkReady(g);
    NotSpare(h, s, a);
    if !Empties(h, s) { NextOfClass(h, s, a, n, size); } else { GivenUp(h, s, a, n, size); }
  }

  // ----- rt_realloc -----

  // A block stays where it is exactly if it is a chunk of the class that the new size belongs to.
  lemma ReallocStays(h: Heap, a: nat, n: nat, size: nat)
    requires Ok(h) && Block(h, a, n) && 0 < size < 0x1_0000_0000
    ensures Ready(h)
    ensures
      Realloc(h, Some(a), size).ptr == Some(a) <==>
        PageOf(a) in h.usage && !h.usage[PageOf(a)].Large? && n == Rounded(size)
  {
    hide Ok, Block, Malloc, FreePtr, Rounded, Move, Granted;
    HasEntry(h, a, n);
    ReallocShape(h, a, n, size);
    RoundedEnough(size);
    MoveSafe(h, a, n, size, a, n);
    MoveSafe(h, a, n, Rounded(size), a, n);
  }

  lemma HasEntry(h: Heap, a: nat, n: nat)
    requires Ok(h) && Block(h, a, n)
    ensures PageOf(a) in h.usage
  {
    OkReady(h);
    Recovers(h, a, n);
  }
}

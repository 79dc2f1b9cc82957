// What holds of the slab allocator over whole runs: live blocks apart, bytes accounted for,
// reallocation, alignment.
module SlabProperties {
  import opened Options
  import opened Lists
  import opened PageModel
  import opened PageHeap
  import opened SlabSizes
  import opened SlabZone
  import opened SlabHeap
  import opened SlabLists
  import opened SlabBlocks
  import opened SlabSafety
  import opened MapSum

  // ----- Where live blocks lie -----

  // The pages a block lies in were handed out by the page allocator and are not the page table;
  // in a zone the block lies behind the header.
  ghost predicate LiesIn(h: Heap, p: nat, a: nat, n: nat) {
    && p in h.pages.held && p != h.table
    && PageAddr(p) + (if p in h.zones then HEADER else 0) <= a && a + n <= PageAddr(p + h.pages.held[p])
  }

  lemma ChunkLies(h: Heap, s: nat, a: nat, n: nat)
    requires Ok(h) && ChunkBlock(h, s, a, n)
    ensures LiesIn(h, s, a, n)
  {
    hide PagesOk, UsageOk, ListsOk, Shaped;
    var z := h.zones[s];
    var k: nat :| k <= z.top && a == Slot(s, z, k);
    SlotInside(h.size, s, z, k);
    WholePages(h);
  }

  lemma WholePages(h: Heap)
    requires MemoryOk(h)
    ensures h.size == PageAddr(ZonePages(h))
  {}

  lemma BlockLies(h: Heap, a: nat, n: nat) returns (p: nat)
    requires Ok(h) && Block(h, a, n)
    ensures LiesIn(h, p, a, n) && (if p in h.zones then ChunkBlock(h, p, a, n) else PageBlock(h, p, a, n))
  {
    hide MemoryOk, ListsOk, LiveChunk, PageAddr;
    if s :| ChunkBlock(h, s, a, n) {
      ChunkLies(h, s, a, n);
      p := s;
    } else {
      p :| PageBlock(h, p, a, n);
      PagesLie(h, p);
    }
  }

  lemma PagesLie(h: Heap, p: nat)
    requires LivePages(h, p)
    ensures LiesIn(h, p, PageAddr(p), PageAddr(h.pages.held[p]))
  {}

  lemma HoldersApartBytes(h: Heap, p: nat, q: nat)
    requires Ok(h) && p in h.pages.held && q in h.pages.held && p != q
    ensures PageAddr(p + h.pages.held[p]) <= PageAddr(q) || PageAddr(q + h.pages.held[q]) <= PageAddr(p)
  {
    hide PagesOk;
    HoldersApart(h.pages, p, q);
  }

  // Two live blocks have no byte in common.
  lemma BlocksApart(h: Heap, a: nat, n: nat, b: nat, m: nat)
    requires Ok(h) && Block(h, a, n) && Block(h, b, m) && a != b
    ensures a + n <= b || b + m <= a
  {
    hide MemoryOk, ListsOk, Block;
    var p := BlockLies(h, a, n);
    var q := BlockLies(h, b, m);
    if p != q {
      HoldersApartBytes(h, p, q);
    } else if p in h.zones {
      var z := h.zones[p];
      var i: nat :| i <= z.top && a == Slot(p, z, i);
      var j: nat :| j <= z.top && b == Slot(p, z, j);
      if i < j { SlotsApart(p, z, i, j); } else if j < i { SlotsApart(p, z, j, i); }
    }
  }

  // Nor with a zone header, the page table or a free page, and all lie in the heap.
  lemma BlocksClear(h: Heap, a: nat, n: nat)
    requires Ok(h) && Block(h, a, n)
    ensures n > 0 && a + n <= PageAddr(h.pages.total)
    ensures forall s | s in h.zones :: a + n <= PageAddr(s) || PageAddr(s) + HEADER <= a
    ensures h.table in h.pages.held &&
            (a + n <= PageAddr(h.table) || PageAddr(h.table + h.pages.held[h.table]) <= a)
    ensures forall q: nat | FreePage(h.pages.runs, q) :: a + n <= PageAddr(q) || PageAddr(q + 1) <= a
  {
    hide Ok, Block, LiesIn, PageAddr;
    var p := BlockLies(h, a, n);
    LiesInHeap(h, p, a, n);
    LiesOffTable(h, p, a, n);
    forall s | s in h.zones ensures a + n <= PageAddr(s) || PageAddr(s) + HEADER <= a { LiesOffHeader(h, p, a, n, s); }
    forall q: nat | FreePage(h.pages.runs, q) ensures a + n <= PageAddr(q) || PageAddr(q + 1) <= a {
      LiesOffFree(h, p, a, n, q);
    }
  }

  lemma LiesInHeap(h: Heap, p: nat, a: nat, n: nat)
    requires Ok(h) && Block(h, a, n) && LiesIn(h, p, a, n)
    requires if p in h.zones then ChunkBlock(h, p, a, n) else PageBlock(h, p, a, n)
    ensures n > 0 && a + n <= PageAddr(h.pages.total)
  {}

  lemma LiesOffTable(h: Heap, p: nat, a: nat, n: nat)
    requires Ok(h) && LiesIn(h, p, a, n)
    ensures h.table in h.pages.held &&
            (a + n <= PageAddr(h.table) || PageAddr(h.table + h.pages.held[h.table]) <= a)
  {
    TableHeld(h);
    HoldersApartBytes(h, p, h.table);
  }

  lemma TableHeld(h: Heap)
    requires Ok(h)
    ensures h.table in h.pages.held && forall s | s in h.zones :: s in h.pages.held && h.pages.held[s] > 0
  {}

  lemma LiesOffHeader(h: Heap, p: nat, a: nat, n: nat, s: nat)
    requires Ok(h) && LiesIn(h, p, a, n) && s in h.zones
    ensures a + n <= PageAddr(s) || PageAddr(s) + HEADER <= a
  {
    hide Ok;
    TableHeld(h);
    if s != p { HoldersApartBytes(h, p, s); }
  }

  lemma LiesOffFree(h: Heap, p: nat, a: nat, n: nat, q: nat)
    requires Ok(h) && LiesIn(h, p, a, n) && FreePage(h.pages.runs, q)
    ensures a + n <= PageAddr(q) || PageAddr(q + 1) <= a
  {
    assert !Within(h.pages, p, q);
  }

  // A block's length is determined by its address.
  lemma OneLength(h: Heap, a: nat, n: nat, m: nat)
    requires Ok(h) && Block(h, a, n) && Block(h, a, m)
    ensures n == m
  {
    OkReady(h);
    Recovers(h, a, n);
    Recovers(h, a, m);
  }

  // ----- rt_realloc -----

  datatype Copied = Copied(from: nat, to: nat, count: nat)

  datatype Moved = Moved(heap: Heap, ptr: Option<nat>, copy: Option<Copied>)

  function Min(a: nat, b: nat): nat { if a < b then a else b }

  // New block, copy, old block freed
  ghost function Move(h: Heap, a: nat, length: nat, size: nat): Moved
    requires Ready(h)
  {
    var r := Malloc(h, size);
    if r.ptr == None then Moved(h, None, None)
    else
      var copy := Some(Copied(a, r.ptr.value, Min(length, size)));
      if Known(r.heap, a) then Moved(FreePtr(r.heap, a), r.ptr, copy) else Moved(r.heap, r.ptr, copy)
  }

  ghost function Realloc(h: Heap, ptr: Option<nat>, size: nat): Moved
    requires Ready(h)
  {
    if ptr == None then var r := Malloc(h, size); Moved(r.heap, r.ptr, None)
    else if !Known(h, ptr.value) then Moved(h, None, None)
    else if size == 0 then Moved(FreePtr(h, ptr.value), None, None)
    else
      var q := PageOf(ptr.value);
      match h.usage[q]
      case Large(count) => Move(h, ptr.value, PageAddr(count), size)
      case Small(off) =>
        var chunk := h.zones[q - off].chunk;
        if chunk == Rounded(size) then Moved(h, ptr, None) else Move(h, ptr.value, chunk, Rounded(size))
  }

  lemma RoundedEnough(size: nat)
    requires size > 0
    ensures Rounded(size) >= size && (size < 0x1_0000_0000 ==> Rounded(size) < 0x1_0000_0000)
  {
    if size < 16384 { TightestClass(size); }
  }

  lemma MoveSafe(h: Heap, a: nat, n: nat, size: nat, b: nat, m: nat)
    requires Ok(h) && Block(h, a, n) && size > 0
    ensures Ready(h) && Ok(Move(h, a, n, size).heap)
    ensures
      var r := Move(h, a, n, size);
      if r.ptr == None then r.heap == h
      else
        var e, p := r.heap, r.ptr.value;
        && r.copy == Some(Copied(a, p, Min(n, size))) && p != a
        && (Block(e, b, m) <==> (Block(h, b, m) && b != a) || (b == p && m == Granted(h, size)))
  {
    hide MemoryOk, ListsOk, Block, Malloc, FreePtr, Known, Granted;
    MallocSafe(h, size);
    var r := Malloc(h, size);
    if r.ptr.Some? {
      assert Block(r.heap, a, n) && r.ptr.value != a;
      FreeSafe(r.heap, a, n);
    }
  }

  // rt_realloc of a live block: NULL leaves everything as it was; otherwise the result has at
  // least the requested size, the first min(old, new) bytes are to be copied to it unless the block
  // stays where it is, and every other block stays.
  lemma ReallocSafe(h: Heap, a: nat, n: nat, size: nat, b: nat, m: nat)
    requires Ok(h) && Block(h, a, n) && 0 < size < 0x1_0000_0000
    ensures Ready(h) && Ok(Realloc(h, Some(a), size).heap)
    ensures
      var r := Realloc(h, Some(a), size);
      if r.ptr == None then r.heap == h
      else if r.ptr == Some(a) then r.heap == h && n >= size
      else
        var e, p := r.heap, r.ptr.value;
        && r.copy.Some? && r.copy.value.from == a && r.copy.value.to == p && Min(n, size) <= r.copy.value.count <= n
        && (exists k :: k >= size && k >= r.copy.value.count && Block(e, p, k))
        && (b != p ==> (Block(e, b, m) <==> Block(h, b, m) && b != a))
  {
    hide MemoryOk, ListsOk, Block, Malloc, FreePtr, PagesFor, Rounded, Loses, Gains;
    ReallocShape(h, a, n, size);
    RoundedEnough(size);
    var want := if PageOf(a) in h.usage && h.usage[PageOf(a)].Large? then size else Rounded(size);
    if Realloc(h, Some(a), size) == Move(h, a, n, want) {
      MoveSafe(h, a, n, want, b, m);
      var r := Move(h, a, n, want);
      if r.ptr.Some? {
        MoveSafe(h, a, n, want, r.ptr.value, Granted(h, want));
        GrantedHere(h, want);
      }
    }
  }

  lemma GrantedHere(h: Heap, size: nat)
    requires Ok(h) && Ready(h) && size < 0x1_0000_0000 && Malloc(h, size).ptr.Some?
    ensures Granted(h, size) >= size
  {
    hide MemoryOk, ListsOk, Malloc;
    MallocSafe(h, size);
    SizesKnown(h);
    GrantedEnough(h, size);
  }

  lemma SizesKnown(h: Heap)
    requires Ok(h)
    ensures ZoneSizes(h.size, h.limit)
  {}

  lemma ReallocShape(h: Heap, a: nat, n: nat, size: nat)
    requires Ok(h) && Block(h, a, n) && size > 0
    ensures Ready(h)
    ensures
      var r, large := Realloc(h, Some(a), size), PageOf(a) in h.usage && h.usage[PageOf(a)].Large?;
      if !large && n == Rounded(size) then r == Moved(h, Some(a), None)
      else r == Move(h, a, n, if large then size else Rounded(size))
  {
    hide MemoryOk, ListsOk, Block, Malloc, FreePtr, Rounded, Move;
    OkReady(h);
    Recovers(h, a, n);
  }
}

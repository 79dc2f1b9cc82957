// What the slab allocator owes its callers: the live blocks, each an address with a length.
module SlabBlocks {
  import opened Options
  import opened Lists
  import opened PageModel
  import opened PageHeap
  import opened SlabSizes
  import opened SlabZone
  import opened SlabHeap
  import opened SlabLists

  // A page block that is neither a zone nor the page table is a large block.
  predicate LivePages(h: Heap, p: nat) { p in h.pages.held && p !in h.zones && p != h.table }

  // The page table has four bytes for each page.
  ghost predicate HeldOk(h: Heap) {
    && PagesOk(h.pages) && h.table in h.pages.held && h.table !in h.zones
    && 4 * h.pages.total <= PageAddr(h.pages.held[h.table])
    && forall s | s in h.zones :: s in h.pages.held && h.pages.held[s] == ZonePages(h)
  }

  ghost predicate ZonesOk(h: Heap) { forall s | s in h.zones :: ZoneOk(h.size, s, h.zones[s]) }

  ghost predicate ZoneEntries(usage: map<nat, Usage>, s: nat, n: nat) {
    forall q | s <= q < s + n :: q in usage && usage[q] == Small(q - s)
  }

  // The page table tells zones and large blocks apart. It says nothing of other pages.
  ghost predicate UsageOk(h: Heap) {
    && (forall s | s in h.zones :: ZoneEntries(h.usage, s, ZonePages(h)))
    && (forall p | LivePages(h, p) :: p in h.usage && h.usage[p] == Large(h.pages.held[p]))
  }

  ghost predicate MemoryOk(h: Heap) { ZoneSizes(h.size, h.limit) && HeldOk(h) && ZonesOk(h) && UsageOk(h) }

  ghost predicate ChunkBlock(h: Heap, s: nat, a: nat, n: nat) {
    s in h.zones && LiveChunk(s, h.zones[s], a) && n == h.zones[s].chunk
  }

  ghost predicate PageBlock(h: Heap, p: nat, a: nat, n: nat) {
    LivePages(h, p) && a == PageAddr(p) && n == PageAddr(h.pages.held[p])
  }

  // The block at address a is live and has n bytes.
  ghost predicate Block(h: Heap, a: nat, n: nat) {
    (exists s :: ChunkBlock(h, s, a, n)) || (exists p :: PageBlock(h, p, a, n))
  }

  lemma OneHolder(g: Pages, p: nat, q: nat, x: nat)
    requires PagesOk(g) && p in g.held && q in g.held && Within(g, p, x) && Within(g, q, x)
    ensures p == q
  {}

  // A chunk lies in the pages of its zone, and the page table leads from there to the header.
  lemma ChunkPage(h: Heap, s: nat, a: nat)
    requires ZoneSizes(h.size, h.limit) && HeldOk(h) && ZonesOk(h) && s in h.zones && IsSlot(s, h.zones[s], a)
    ensures Within(h.pages, s, PageOf(a))
    ensures UsageOk(h) ==> PageOf(a) in h.usage && h.usage[PageOf(a)] == Small(PageOf(a) - s)
  {
    SlotPage(h.size, ZonePages(h), s, h.zones[s], a);
    hide PagesOk, ZoneOk;
  }

  lemma PageOfStart(p: nat)
    ensures PageOf(PageAddr(p)) == p
  {}

  // The memusage entry of a live block's page recovers the zone or the number of pages.
  lemma Recovers(h: Heap, a: nat, n: nat)
    requires MemoryOk(h) && Block(h, a, n) && forall s | s in h.zones :: h.zones[s].cls < |h.lists|
    ensures Known(h, a)
    ensures
      var q := PageOf(a);
      match h.usage[q]
      case Small(off) => ChunkBlock(h, q - off, a, n)
      case Large(count) => PageBlock(h, q, a, n) && n == PageAddr(count)
      case Unused => false
  {
    if s :| ChunkBlock(h, s, a, n) {
      ChunkPage(h, s, a);
    } else {
      var p :| PageBlock(h, p, a, n);
      PageOfStart(p);
    }
  }

  // A chunk address belongs to no other block.
  lemma ChunkOnly(h: Heap, s: nat, a: nat)
    requires ZoneSizes(h.size, h.limit) && HeldOk(h) && ZonesOk(h) && s in h.zones && IsSlot(s, h.zones[s], a)
    ensures forall t | t in h.zones && IsSlot(t, h.zones[t], a) :: t == s
    ensures forall p, n :: !PageBlock(h, p, a, n)
  {
    ChunkPage(h, s, a);
    forall t | t in h.zones && IsSlot(t, h.zones[t], a) ensures t == s {
      ChunkPage(h, t, a);
      OneHolder(h.pages, s, t, PageOf(a));
    }
    forall p, n ensures !PageBlock(h, p, a, n) {
      if PageBlock(h, p, a, n) {
        PageOfStart(p);
        OneHolder(h.pages, s, p, p);
      }
    }
  }

  // A page address that starts a page block belongs to no other block.
  lemma PageOnly(h: Heap, p: nat)
    requires ZoneSizes(h.size, h.limit) && HeldOk(h) && ZonesOk(h) && LivePages(h, p)
    ensures forall t | t in h.zones :: !IsSlot(t, h.zones[t], PageAddr(p))
    ensures forall q, n | PageBlock(h, q, PageAddr(p), n) :: q == p
  {
    PageOfStart(p);
    forall t | t in h.zones ensures !IsSlot(t, h.zones[t], PageAddr(p)) {
      if IsSlot(t, h.zones[t], PageAddr(p)) {
        ChunkPage(h, t, PageAddr(p));
        OneHolder(h.pages, t, p, p);
      }
    }
  }

  // One call's effect on the live blocks: the block (a, n) comes up or goes away, none else changes.
  ghost predicate Gains(h: Heap, e: Heap, a: nat, n: nat) {
    && (forall m :: !Block(h, a, m))
    && forall b, m :: Block(e, b, m) <==> Block(h, b, m) || (b == a && m == n)
  }

  ghost predicate Loses(h: Heap, e: Heap, a: nat, n: nat) {
    && Block(h, a, n)
    && forall b, m :: Block(e, b, m) <==> Block(h, b, m) && b != a
  }

  ghost predicate SameBlocks(h: Heap, e: Heap) { forall b, m :: Block(e, b, m) <==> Block(h, b, m) }

  // Two heaps that differ in one zone have the same blocks elsewhere.
  ghost predicate ZoneDiffers(h: Heap, e: Heap, s: nat) {
    && e.pages == h.pages && e.table == h.table && e.usage == h.usage && e.size == h.size && e.limit == h.limit
    && e.zones.Keys == h.zones.Keys && s in h.zones
    && forall t | t in h.zones && t != s :: e.zones[t] == h.zones[t]
  }

  lemma ZoneDiffersOk(h: Heap, e: Heap, s: nat)
    requires MemoryOk(h) && ZoneDiffers(h, e, s) && ZoneOk(h.size, s, e.zones[s])
    ensures MemoryOk(e)
  {
    hide ZoneSizes, ZoneOk, PagesOk;
  }

  lemma OtherBlocks(h: Heap, e: Heap, s: nat, b: nat, m: nat)
    requires ZoneDiffers(h, e, s)
    ensures Block(e, b, m) && !ChunkBlock(e, s, b, m) ==> Block(h, b, m)
    ensures Block(h, b, m) && !ChunkBlock(h, s, b, m) ==> Block(e, b, m)
  {
    forall t | t != s ensures ChunkBlock(e, t, b, m) <==> ChunkBlock(h, t, b, m) {}
    forall p ensures PageBlock(e, p, b, m) <==> PageBlock(h, p, b, m) {}
  }

  lemma TakeListedBlocks(h: Heap, i: nat)
    requires MemoryOk(h) && i < |h.lists| && h.lists[i] != [] && h.lists[i][0] in h.zones
    requires CanTake(h.zones[h.lists[i][0]])
    ensures
      var r := TakeListed(h, i);
      MemoryOk(r.heap) && Gains(h, r.heap, r.ptr.value, h.zones[h.lists[i][0]].chunk)
  {
    var s, r := h.lists[i][0], TakeListed(h, i);
    var e, a, z := r.heap, r.ptr.value, h.zones[s];
    TakeChunkSafe(h.size, s, z, a);
    ZoneDiffersOk(h, e, s);
    ChunkOnly(e, s, a);
    forall m ensures !Block(h, a, m) {
      OtherBlocks(h, e, s, a, m);
      assert forall t :: ChunkBlock(e, t, a, m) ==> t == s;
      if Block(h, a, m) && !ChunkBlock(h, s, a, m) {
        OnlyHere(h, e, s, a, m);
      }
    }
    forall b, m ensures Block(e, b, m) <==> Block(h, b, m) || (b == a && m == z.chunk) {
      TakeChunkSafe(h.size, s, z, b);
      OtherBlocks(h, e, s, b, m);
      assert ChunkBlock(e, s, b, m) <==> ChunkBlock(h, s, b, m) || (b == a && m == z.chunk);
    }
  }

  lemma OnlyHere(h: Heap, e: Heap, s: nat, a: nat, m: nat)
    requires ZoneDiffers(h, e, s) && Block(h, a, m)
    requires forall t | t in e.zones && IsSlot(t, e.zones[t], a) :: t == s
    requires forall p, n :: !PageBlock(e, p, a, n)
    ensures ChunkBlock(h, s, a, m)
  {
    forall p, n ensures !PageBlock(h, p, a, n) { assert !PageBlock(e, p, a, n); }
    forall t | t != s ensures !ChunkBlock(h, t, a, m) {
      assert t in h.zones ==> e.zones[t] == h.zones[t];
    }
  }

  lemma PutBackBlocks(h: Heap, s: nat, a: nat, n: nat)
    requires MemoryOk(h) && ChunkBlock(h, s, a, n) && h.zones[s].cls < |h.lists|
    ensures MemoryOk(PutBack(h, s, a)) && Loses(h, PutBack(h, s, a), a, n)
  {
    var e, z := PutBack(h, s, a), h.zones[s];
    GiveChunkSafe(h.size, s, z, a, a);
    ZoneDiffersOk(h, e, s);
    ChunkOnly(h, s, a);
    forall b, m ensures Block(e, b, m) <==> Block(h, b, m) && b != a {
      GiveChunkSafe(h.size, s, z, a, b);
      OtherBlocks(h, e, s, b, m);
      assert ChunkBlock(e, s, b, m) <==> ChunkBlock(h, s, b, m) && b != a;
      if b == a && Block(e, b, m) { assert !ChunkBlock(e, s, b, m); NotLeft(h, e, s, a, m); }
    }
  }

  lemma NotLeft(h: Heap, e: Heap, s: nat, a: nat, m: nat)
    requires ZoneDiffers(h, e, s) && !ChunkBlock(e, s, a, m)
    requires forall t | t in h.zones && IsSlot(t, h.zones[t], a) :: t == s
    requires forall p, n :: !PageBlock(h, p, a, n)
    ensures !Block(e, a, m)
  {
    forall p ensures !PageBlock(e, p, a, m) { assert !PageBlock(h, p, a, m); }
    forall t ensures !ChunkBlock(e, t, a, m) { assert t != s ==> (ChunkBlock(e, t, a, m) ==> ChunkBlock(h, t, a, m)); }
  }

  // ----- Page blocks that come and go -----

  ghost predicate SameElsewhere(usage: map<nat, Usage>, usage': map<nat, Usage>, s: nat, n: nat) {
    forall q | q in usage && !(s <= q < s + n) :: q in usage' && usage'[q] == usage[q]
  }

  // Entries outside the pages that change hands stay as they are.
  lemma UsageCarries(h: Heap, e: Heap, s: nat, n: nat)
    requires UsageOk(h) && e.size == h.size
    requires SameElsewhere(h.usage, e.usage, s, n)
    requires forall t | t in e.zones :: ZoneEntries(e.usage, t, ZonePages(e)) ||
                                        (t in h.zones && (s + n <= t || t + ZonePages(h) <= s))
    requires forall p: nat | LivePages(e, p) :: (p in e.usage && e.usage[p] == Large(e.pages.held[p])) ||
                                                (LivePages(h, p) && e.pages.held[p] == h.pages.held[p] &&
                                                    !(s <= p < s + n))
    ensures UsageOk(e)
  {}

  // A block of pages has been handed out, and the zones are as before.
  ghost predicate Grabbed(h: Heap, e: Heap, p: nat) {
    && e.zones == h.zones && e.table == h.table && e.size == h.size && e.limit == h.limit
    && e.pages.total == h.pages.total && PagesOk(e.pages) && p !in h.pages.held && p in e.pages.held
    && e.pages.held == h.pages.held[p := e.pages.held[p]]
  }

  // Its first page has been entered in the page table.
  ghost predicate Entered(h: Heap, e: Heap, p: nat) {
    && p in e.pages.held && p in e.usage && e.usage[p] == Large(e.pages.held[p])
    && SameElsewhere(h.usage, e.usage, p, 1)
  }

  lemma NewHolder(h: Heap, e: Heap, p: nat)
    requires MemoryOk(h) && Grabbed(h, e, p)
    ensures HeldOk(e) && ZonesOk(e) && LivePages(e, p)
  {
    hide ZoneSizes, ZoneOk, PagesOk;
  }

  lemma NewHolderUsage(h: Heap, e: Heap, p: nat)
    requires MemoryOk(h) && Grabbed(h, e, p) && Entered(h, e, p)
    ensures UsageOk(e)
  {
    hide ZoneSizes, ZonesOk, PagesOk, ZoneEntries, SameElsewhere;
    NewHolder(h, e, p);
    forall s | s in e.zones ensures p + 1 <= s || s + ZonePages(h) <= p { ZoneHasNot(e, s, p); }
    UsageCarries(h, e, p, 1);
  }

  lemma ZoneHasNot(e: Heap, s: nat, p: nat)
    requires HeldOk(e) && s in e.zones && LivePages(e, p)
    ensures !(s <= p < s + ZonePages(e))
  {
    if s <= p < s + ZonePages(e) { OneHolder(e.pages, s, p, p); }
  }

  lemma GrabbedBlocks(h: Heap, e: Heap, p: nat)
    requires MemoryOk(h) && Grabbed(h, e, p)
    ensures Gains(h, e, PageAddr(p), PageAddr(e.pages.held[p]))
  {
    NewHolder(h, e, p);
    PageOnly(e, p);
    assert p != h.table && h.zones == e.zones && h.table == e.table &&
        e.pages.held == h.pages.held[p := e.pages.held[p]];
    hide MemoryOk, HeldOk, ZonesOk, PagesOk, PageAddr;
    forall b, m ensures Block(e, b, m) <==> Block(h, b, m) || PageBlock(e, p, b, m) {
      forall t ensures ChunkBlock(e, t, b, m) <==> ChunkBlock(h, t, b, m) {}
      forall q ensures PageBlock(e, q, b, m) <==> PageBlock(h, q, b, m) || (q == p && PageBlock(e, p, b, m)) {}
    }
    forall m ensures !Block(h, PageAddr(p), m) {
      forall t ensures !ChunkBlock(h, t, PageAddr(p), m) { assert !ChunkBlock(e, t, PageAddr(p), m); }
      forall q ensures !PageBlock(h, q, PageAddr(p), m) {
        assert PageBlock(h, q, PageAddr(p), m) ==> PageBlock(e, q, PageAddr(p), m);
      }
    }
  }

  lemma TakeLargeBlocks(h: Heap, size: nat)
    requires MemoryOk(h)
    ensures
      var r := MallocLarge(h, size);
      && MemoryOk(r.heap)
      && (r.ptr == None <==> PagesFor(size) == 0 || forall p: nat :: !AllFree(h.pages.runs, p, PagesFor(size)))
      && (r.ptr.Some? ==> Gains(h, r.heap, r.ptr.value, PageAddr(PagesFor(size))))
  {
    var n := PagesFor(size);
    var (g, page) := Grab(h.pages, n);
    GrabSafe(h.pages, n);
    if page.Some? {
      var p, e := page.value, MallocLarge(h, size).heap;
      hide PagesOk, PagesFor, Alloc, AllFree;
      NewHolder(h, e, p);
      NewHolderUsage(h, e, p);
      GrabbedBlocks(h, e, p);
    }
  }

  lemma FreeLargeBlocks(h: Heap, p: nat)
    requires MemoryOk(h) && LivePages(h, p)
    ensures Loses(h, FreeLarge(h, p, h.pages.held[p]), PageAddr(p), PageAddr(h.pages.held[p]))
  {
    var e := FreeLarge(h, p, h.pages.held[p]);
    PageOnly(h, p);
    PageOfStart(p);
    hide MemoryOk;
    assert PageBlock(h, p, PageAddr(p), PageAddr(h.pages.held[p]));
    forall b, m ensures Block(e, b, m) <==> Block(h, b, m) && b != PageAddr(p) {
      forall t ensures ChunkBlock(e, t, b, m) <==> ChunkBlock(h, t, b, m) {}
      forall q ensures PageBlock(e, q, b, m) <==> PageBlock(h, q, b, m) && q != p {}
    }
  }

  // ----- Zones that come and go -----

  // Zone s is new, or was wholly free; its header is written afresh.
  ghost predicate Opened(h: Heap, e: Heap, s: nat, i: nat, chunk: nat) {
    && CanOpen(h.size, chunk) && e.zones == h.zones[s := NewZone(h.size, i, chunk)]
    && i < CLASSES && chunk == ClassSize(i)
    && e.table == h.table && e.size == h.size && e.limit == h.limit && e.pages.total == h.pages.total
    && PagesOk(e.pages) && e.pages.held == h.pages.held[s := ZonePages(h)]
    && (if s in h.zones then Whole(h.zones[s]) else s !in h.pages.held)
    && ZoneEntries(e.usage, s, ZonePages(h)) && SameElsewhere(h.usage, e.usage, s, ZonePages(h))
  }

  lemma NewZoneOk(size: nat, s: nat, i: nat, chunk: nat, a: nat)
    requires CanOpen(size, chunk) && i < CLASSES && chunk == ClassSize(i)
    ensures
      var z := NewZone(size, i, chunk);
      ZoneOk(size, s, z) && (LiveChunk(s, z, a) <==> a == Slot(s, z, 0))
  {
    var z := NewZone(size, i, chunk);
    assert IsSlot(s, z, Slot(s, z, 0));
    assert IsSlot(s, z, a) ==> exists k: nat :: k <= 0 && a == Slot(s, z, k);
  }

  lemma OpenedHeld(h: Heap, e: Heap, s: nat, i: nat, chunk: nat)
    requires MemoryOk(h) && Opened(h, e, s, i, chunk)
    ensures HeldOk(e) && ZonesOk(e)
  {
    hide ZoneSizes, ZoneOk, PagesOk, NewZone, CanOpen, ZoneEntries, UsageOk, SameElsewhere;
    NewZoneOk(h.size, s, i, chunk, 0);
  }

  lemma OpenedMemory(h: Heap, e: Heap, s: nat, i: nat, chunk: nat)
    requires MemoryOk(h) && Opened(h, e, s, i, chunk)
    ensures MemoryOk(e)
  {
    hide ZoneSizes, ZonesOk, PagesOk, NewZone, CanOpen, ZoneEntries, SameElsewhere;
    OpenedHeld(h, e, s, i, chunk);
    forall t | t in e.zones && t != s ensures s + ZonePages(e) <= t || t + ZonePages(e) <= s { ZoneApart(e, s, t); }
    forall p: nat | LivePages(e, p) ensures !(s <= p < s + ZonePages(e)) { ZoneHasNot(e, s, p); }
    UsageCarries(h, e, s, ZonePages(e));
  }

  lemma ZoneApart(e: Heap, s: nat, t: nat)
    requires HeldOk(e) && s in e.zones && t in e.zones && s != t
    ensures s + ZonePages(e) <= t || t + ZonePages(e) <= s
  {
    hide Ordered, InUse, Covered;
    assert s < t || t < s;
  }

  lemma OpenedBlocks(h: Heap, e: Heap, s: nat, i: nat, chunk: nat)
    requires MemoryOk(h) && Opened(h, e, s, i, chunk)
    ensures MemoryOk(e) && Gains(h, e, Slot(s, e.zones[s], 0), chunk)
  {
    OpenedMemory(h, e, s, i, chunk);
    var a := Slot(s, e.zones[s], 0);
    NewZoneOk(h.size, s, i, chunk, a);
    ChunkOnly(e, s, a);
    forall b, m ensures !ChunkBlock(h, s, b, m) {
      if s in h.zones { WholeIsFree(h.size, s, h.zones[s], b); }
    }
    forall b, m ensures Block(e, b, m) <==> Block(h, b, m) || (b == a && m == chunk) {
      NewZoneOk(h.size, s, i, chunk, b);
      OpenedElsewhere(h, e, s, i, chunk, b, m);
    }
    forall m ensures !Block(h, a, m) {
      OpenedElsewhere(h, e, s, i, chunk, a, m);
      forall t ensures !ChunkBlock(h, t, a, m) { assert ChunkBlock(h, t, a, m) && t != s ==> ChunkBlock(e, t, a, m); }
      forall q ensures !PageBlock(h, q, a, m) { assert PageBlock(h, q, a, m) ==> PageBlock(e, q, a, m); }
    }
  }

  lemma OpenedElsewhere(h: Heap, e: Heap, s: nat, i: nat, chunk: nat, b: nat, m: nat)
    requires MemoryOk(h) && Opened(h, e, s, i, chunk) && !ChunkBlock(h, s, b, m)
    ensures forall t | t != s :: ChunkBlock(e, t, b, m) <==> ChunkBlock(h, t, b, m)
    ensures forall q :: PageBlock(e, q, b, m) <==> PageBlock(h, q, b, m)
    ensures Block(e, b, m) <==> Block(h, b, m) || ChunkBlock(e, s, b, m)
  {
    hide ZoneSizes, ZonesOk, PagesOk, ZoneEntries, UsageOk, NewZone, CanOpen;
    assert s in h.zones || s !in h.pages.held;
    forall t | t != s ensures ChunkBlock(e, t, b, m) <==> ChunkBlock(h, t, b, m) {}
    forall q ensures PageBlock(e, q, b, m) <==> PageBlock(h, q, b, m) {}
  }

  // Page block p goes back, and with it zone p if it is one.
  ghost predicate Returned(h: Heap, e: Heap, p: nat, n: nat) {
    && e.zones == h.zones - {p} && e.table == h.table && e.size == h.size && e.limit == h.limit
    && e.pages.total == h.pages.total
    && p in h.pages.held && p != h.table && n <= h.pages.held[p]
    && PagesOk(e.pages) && e.pages.held == h.pages.held - {p} && SameElsewhere(h.usage, e.usage, p, n)
  }

  lemma ReturnedMemory(h: Heap, e: Heap, p: nat, n: nat)
    requires MemoryOk(h) && Returned(h, e, p, n)
    ensures MemoryOk(e)
  {
    hide ZoneSizes, ZoneOk, PagesOk, ZoneEntries, SameElsewhere;
    forall t | t in h.pages.held && t != p
      ensures (p + n <= t || t + h.pages.held[t] <= p) && !(p <= t < p + n) {
      HoldersApart(h.pages, p, t);
    }
    UsageCarries(h, e, p, n);
  }

  lemma HoldersApart(g: Pages, p: nat, t: nat)
    requires PagesOk(g) && p in g.held && t in g.held && p != t
    ensures (p + g.held[p] <= t || t + g.held[t] <= p) && g.held[p] > 0 && g.held[t] > 0
  {
    hide Ordered, Covered;
    assert p < t || t < p;
  }

  lemma LargeReturned(h: Heap, p: nat)
    requires MemoryOk(h) && LivePages(h, p)
    ensures Returned(h, FreeLarge(h, p, h.pages.held[p]), p, 1)
  {
    hide ZonesOk, UsageOk, ZoneSizes, PagesOk;
    LiveHeld(h, p);
    ReturnSafe(h.pages, p);
    assert h.zones - {p} == h.zones;
  }

  lemma LiveHeld(h: Heap, p: nat)
    requires HeldOk(h) && p in h.pages.held
    ensures h.pages.held[p] > 0
  {}

  lemma FreeLargeMemory(h: Heap, p: nat)
    requires MemoryOk(h) && LivePages(h, p)
    ensures MemoryOk(FreeLarge(h, p, h.pages.held[p]))
  {
    hide MemoryOk, Returned, FreeLarge;
    LargeReturned(h, p);
    ReturnedMemory(h, FreeLarge(h, p, h.pages.held[p]), p, 1);
  }

  lemma ReleaseMemory(h: Heap)
    requires MemoryOk(h) && h.spare != [] && h.spare[0] in h.zones
    ensures MemoryOk(Release(h))
  {
    var s := h.spare[0];
    ReturnSafe(h.pages, s);
    assert Returned(h, Release(h), s, ZonePages(h)) by { hide PagesOk, ZonesOk, UsageOk, ZoneSizes; }
    hide *;
    ReturnedMemory(h, Release(h), s, ZonePages(h));
  }

  // Releasing a zone that is wholly free takes no live block away.
  lemma ReleaseBlocks(h: Heap)
    requires MemoryOk(h) && h.spare != [] && h.spare[0] in h.zones && Whole(h.zones[h.spare[0]])
    ensures SameBlocks(h, Release(h))
  {
    var s, e := h.spare[0], Release(h);
    forall b, m ensures Block(e, b, m) <==> Block(h, b, m) {
      WholeIsFree(h.size, s, h.zones[s], b);
      ReleasedElsewhere(h, e, s, b, m);
    }
  }

  lemma ReleasedElsewhere(h: Heap, e: Heap, s: nat, b: nat, m: nat)
    requires e.zones == h.zones - {s} && e.pages.held == h.pages.held - {s} && e.table == h.table && s in h.zones
    requires !ChunkBlock(h, s, b, m)
    ensures Block(e, b, m) <==> Block(h, b, m)
  {
    forall t ensures ChunkBlock(e, t, b, m) <==> ChunkBlock(h, t, b, m) {}
    forall q ensures PageBlock(e, q, b, m) <==> PageBlock(h, q, b, m) {}
  }

  lemma RetireBlocks(h: Heap, s: nat)
    requires MemoryOk(h) && s in h.zones && h.zones[s].cls < |h.lists|
    ensures MemoryOk(Retire(h, s)) && SameBlocks(h, Retire(h, s))
  {
    var e := Retire(h, s);
    forall b, m ensures Block(e, b, m) <==> Block(h, b, m) {
      forall t ensures ChunkBlock(e, t, b, m) <==> ChunkBlock(h, t, b, m) {}
      forall q ensures PageBlock(e, q, b, m) <==> PageBlock(h, q, b, m) {}
    }
    hide ZoneSizes, ZoneOk, PagesOk, ZoneEntries, Block;
  }
}

// rt_malloc, rt_realloc and rt_free of the slab allocator as they run: headers, zone lists, the
// page table and the page allocator are updated step by step.
module SlabAllocator {
  import opened Options
  import opened Lists
  import opened Bytes
  import PageModel
  import opened PageHeap
  import opened PageLinks
  import opened SlabSizes
  import opened SlabZone
  import opened SlabHeap
  import opened SlabLists
  import opened SlabBlocks
  import opened SlabSafety
  import opened SlabProperties
  import opened SlabRuns
  import opened SlabMemory

  function Code(u: Usage): nat {
    match u
    case Unused => 0
    case Small(off) => 4 * off + 1
    case Large(n) => 4 * n + 2
  }

  // The words of a zone header up to its link
  function ZoneImage(s: nat, z: Zone): (r: seq<Byte>)
    ensures |r| == 12
  {
    Little(0x51ab_51ab, 4) + Little(z.nfree, 4) + Little(z.max, 4)
  }

  // ... and behind it
  function ZoneRest(s: nat, z: Zone): (r: seq<Byte>)
    ensures |r| == 20
  {
    Little(PageAddr(s) + z.base, 4) + Little(z.top, 4) + Little(z.chunk, 4) + Little(z.cls, 4) +
    Little(if z.free == [] then 0 else z.free[0], 4)
  }

  ghost predicate InTotal(runs: seq<PageModel.Run>, total: nat) {
    PageModel.Ordered(runs) && forall q: nat :: PageModel.FreePage(runs, q) ==> q < total
  }

  class Slab {
    const total: nat
    const size: nat
    const limit: nat
    const table: nat
    const mem: Memory
    const pages: PageList
    ghost var held: map<nat, nat>
    // During an operation: the heap whose live blocks keep their bytes, except block `but`, and the
    // memory it began with
    ghost var guard: Heap
    ghost var but: Option<nat>
    ghost var before: seq<Byte>
    var usage: map<nat, Usage>
    var zones: map<nat, Zone>
    var zoneArray: seq<seq<nat>>
    var zoneFree: seq<nat>
    var zoneFreeCount: int
    var usedMem: int

    ghost function State(): Heap
      reads this, pages
    {
      Heap(size, limit, Pages(total, pages.runs, held), table, usage, zones, zoneArray, zoneFree, zoneFreeCount,
          usedMem)
    }

    ghost predicate Valid()
      reads this, pages, mem
    {
      PagesReady() && Sound(State())
    }

    ghost predicate PagesReady()
      reads pages, mem
    {
      pages.mem == mem && pages.Valid() && |mem.bytes| == PageAddr(total)
    }

    ghost predicate Guarded()
      reads this, mem
    {
      |mem.bytes| == PageAddr(total) && Kept(guard, but, before, mem.bytes)
    }

    // rt_system_heap_init
    constructor (total: nat, memory: map<nat, Usage>)
      requires total > 0
      ensures Valid() && State() == Init(total, memory) && fresh(pages) && fresh(mem)
    {
      var store := new Memory(PageAddr(total));
      var list := new PageList(store);
      FreeShape(total);
      list.PageFree(0, total);
      var zone := 32768;
      while zone < 131072 && zone * 2 < total * 4096 / 1024
        invariant 32768 <= zone && GrowZone(zone, total * 4096) == GrowZone(32768, total * 4096)
        invariant list.Valid() && fresh(list) && list.mem == store && fresh(store)
        invariant list.runs == PageModel.Free([], 0, total) && |store.bytes| == PageAddr(total)
        decreases 131072 - zone
      {
        zone := zone * 2;
      }
      var page := list.PageAlloc(TablePages(total));
      InitSafe(total, memory);
      this.total, size, limit := total, zone, if zone / 4 > 16384 then 16384 else zone / 4;
      table, pages, mem, usage, zones := if page.Some? then page.value else 0, list, store, memory, map[];
      zoneArray, zoneFree, zoneFreeCount, usedMem := seq(CLASSES, i => []), [], 0, 0;
      held := Init(total, memory).pages.held;
      guard, but, before := Init(total, memory), None, [];
    }

    // Bytes written to the heap
    method Store(p: nat, data: seq<Byte>)
      requires Guarded() && Avoids(guard, but, p, |data|) && p + |data| <= PageAddr(total)
      modifies mem
      ensures Guarded() && |mem.bytes| == |old(mem.bytes)|
    {
      WriteKept(guard, but, before, mem.bytes, p, data);
      mem.Write(p, data);
    }

    // An entry of the page table: two bits for the type, the rest for the size
    method SetEntry(q: nat, u: Usage)
      requires Guarded() && q < total && TableClear(guard, but, table, total)
      requires PageAddr(table) + 4 * total <= PageAddr(total)
      modifies `usage, mem
      ensures Guarded() && |mem.bytes| == |old(mem.bytes)| && usage == old(usage)[q := u]
    {
      Store(PageAddr(table) + 4 * q, Little(Code(u), 4));
      usage := usage[q := u];
    }

    // A zone header: magic, nfree, nmax; then, behind the link, baseptr, uindex, chunksize,
    // zoneindex and freechunk
    method SetZone(s: nat, z: Zone)
      requires Guarded() && Avoids(guard, but, PageAddr(s), HEADER) && s < total
      modifies `zones, mem
      ensures Guarded() && |mem.bytes| == |old(mem.bytes)| && zones == old(zones)[s := z]
    {
      Inside(guard, but, PageAddr(s), HEADER, 0, 12);
      Inside(guard, but, PageAddr(s), HEADER, 16, 20);
      Store(PageAddr(s), ZoneImage(s, z));
      Store(PageAddr(s) + 16, ZoneRest(s, z));
      zones := zones[s := z];
    }

    lemma HeaderAt(s: nat)
      requires Places() && s in zones
      ensures Avoids(guard, but, PageAddr(s), HEADER) && s < total
    {}

    // z_next of the zone at page s
    method SetZoneLink(s: nat, list: seq<nat>)
      requires Guarded() && Avoids(guard, but, PageAddr(s), HEADER) && s < total
      modifies mem
      ensures Guarded() && |mem.bytes| == |old(mem.bytes)|
    {
      Inside(guard, but, PageAddr(s), HEADER, 12, 4);
      Store(PageAddr(s) + 12, Little(if list == [] then 0 else PageAddr(list[0]), 4));
    }

    // Every page of the zone gets its table entry.
    method FillTable(s: nat, n: nat, small: bool)
      requires Guarded() && s + n <= total
      requires TableClear(guard, but, table, total) && PageAddr(table) + 4 * total <= PageAddr(total)
      modifies `usage, mem
      ensures Guarded() && |mem.bytes| == |old(mem.bytes)| && usage == Fill(old(usage), s, n, small)
    {
      var off := 0;
      while off < n
        invariant off <= n && usage == Fill(old(usage), s, off, small)
        invariant Guarded() && |mem.bytes| == |old(mem.bytes)|
      {
        SetEntry(s + off, Mark(small, off));
        off := off + 1;
      }
    }

    method AllocPages(n: nat) returns (page: Option<nat>)
      requires PagesReady() && Guarded() && PagesAvoid(guard, but, pages.runs)
      modifies pages, `held, mem
      ensures PagesReady() && Guarded() && PagesAvoid(guard, but, pages.runs)
      ensures n > 0 && page.Some? ==> Avoids(guard, but, PageAddr(page.value), 4096)
      ensures (Pages(total, pages.runs, held), page) == Grab(Pages(total, old(pages.runs), old(held)), n)
    {
      AllocAvoids(guard, but, pages.runs, n);
      ghost var m := mem.bytes;
      page := pages.PageAlloc(n);
      FreeKept(guard, but, pages.runs, before, m, mem.bytes);
      if page.Some? { held := held[page.value := n]; } else { NothingTaken(old(pages.runs), n); }
    }

    method FreePages(s: nat, n: nat)
      requires PagesReady() && n > 0 && PageModel.NoneFree(pages.runs, s, n) && s + n <= total
      requires Guarded() && PagesAvoid(guard, but, PageModel.Free(pages.runs, s, n))
      modifies pages, `held, mem
      ensures PagesReady() && Guarded()
      ensures Pages(total, pages.runs, held) == Return(Pages(total, old(pages.runs), old(held)), s, n)
    {
      ghost var m := mem.bytes;
      pages.PageFree(s, n);
      FreeKept(guard, but, pages.runs, before, m, mem.bytes);
      held := held - {s};
    }

    // What the writes of an operation must keep clear of
    ghost predicate Places()
      reads this, pages
    {
      && HeadersClear(guard, but, zones) && (forall s | s in zones :: s < total)
      && TableClear(guard, but, table, total) && PageAddr(table) + 4 * total <= PageAddr(total)
    }

    method MallocLarge(n: nat) returns (ptr: Option<nat>)
      requires PagesReady() && Guarded() && Places() && PagesAvoid(guard, but, pages.runs) && InTotal(pages.runs, total)
      modifies pages, `held, `usage, `usedMem, mem
      ensures PagesReady() && Guarded() && Outcome(State(), ptr) == SlabHeap.MallocLarge(old(State()), n)
    {
      var count := PagesFor(n);
      PageWithin(pages.runs, count, total);
      var chunk := AllocPages(count);
      if chunk == None { return None; }
      SetEntry(chunk.value, Large(count));
      usedMem := usedMem + PageAddr(count);
      ptr := Some(PageAddr(chunk.value));
    }

    method TakeListed(i: nat) returns (ptr: Option<nat>)
      requires i < |zoneArray| && zoneArray[i] != [] && zoneArray[i][0] in zones && CanTake(zones[zoneArray[i][0]])
      requires Guarded() && Places()
      modifies `zones, `zoneArray, `usedMem, mem
      ensures Guarded() && |mem.bytes| == |old(mem.bytes)|
      ensures Outcome(State(), ptr) == SlabHeap.TakeListed(old(State()), i)
    {
      var s := zoneArray[i][0];
      var z := zones[s].(nfree := zones[s].nfree - 1);
      if z.nfree == 0 {
        zoneArray := zoneArray[i := zoneArray[i][1..]];
        SetZoneLink(s, []);
      }
      if z.top + 1 != z.max {
        z := z.(top := z.top + 1);
        ptr := Some(Slot(s, z, z.top));
      } else {
        ptr := Some(z.free[0]);
        z := z.(free := z.free[1..]);
      }
      SetZone(s, z);
      usedMem := usedMem + z.chunk;
    }

    method OpenZone(s: nat, i: nat, chunk: nat) returns (ptr: Option<nat>)
      requires i < |zoneArray| && CanOpen(size, chunk)
      requires Guarded() && s < total && Avoids(guard, but, PageAddr(s), HEADER)
      modifies `zones, `zoneArray, `usedMem, mem
      ensures Guarded() && |mem.bytes| == |old(mem.bytes)|
      ensures Outcome(State(), ptr) == SlabHeap.OpenZone(old(State()), s, i, chunk)
    {
      var z := NewZone(size, i, chunk);
      ptr := Some(Slot(s, z, 0));
      SetZone(s, z);
      SetZoneLink(s, zoneArray[i]);
      zoneArray := zoneArray[i := [s] + zoneArray[i]];
      usedMem := usedMem + chunk;
    }

    method MallocSmall(n: nat) returns (ptr: Option<nat>)
      requires PagesReady() && Guarded() && Places() && PagesAvoid(guard, but, pages.runs) && InTotal(pages.runs, total)
      requires (forall s | s in zoneFree :: s in zones) && size >= 4096
      requires 0 <= ZoneIndex(n) < |zoneArray| && CanOpen(size, Rounded(n))
      requires var list := zoneArray[ZoneIndex(n)]; list != [] ==> list[0] in zones && CanTake(zones[list[0]])
      modifies `held, `usage, `zones, `zoneArray, `zoneFree, `zoneFreeCount, `usedMem, pages, mem
      ensures PagesReady() && Guarded() && Outcome(State(), ptr) == SlabHeap.MallocSmall(old(State()), n)
    {
      var i := ZoneIndex(n);
      if zoneArray[i] != [] {
        ptr := TakeListed(i);
        return;
      }
      var s: nat;
      if zoneFree != [] {
        assert zoneFree[0] in zoneFree;
        s, zoneFree, zoneFreeCount := zoneFree[0], zoneFree[1..], zoneFreeCount - 1;
      } else {
        PageWithin(pages.runs, size / 4096, total);
        var page := AllocPages(size / 4096);
        if page == None { return None; }
        s := page.value;
        LessAvoids(guard, but, PageAddr(s), 4096, HEADER);
        FillTable(s, size / 4096, true);
      }
      ptr := OpenZone(s, i, Rounded(n));
    }

    method Malloc(n: nat) returns (ptr: Option<nat>)
      requires Valid()
      modifies this, pages, mem
      ensures Valid()
      ensures Ready(old(State())) && Outcome(State(), ptr) == SlabHeap.Malloc(old(State()), n)
      ensures Kept(old(State()), None, old(mem.bytes), mem.bytes)
    {
      hide Sound, Ready, Refused, Gains, Kept, Avoids, HeadersClear, TableClear, PagesAvoid, PageModel.Ordered,
        Linked, Backed;
      ghost var h := State();
      MallocReady(h, n);
      guard, but, before := h, None, mem.bytes;
      KeptSelf(h, None, mem.bytes);
      Ready4Writes(h, None);
      if n == 0 {
        ptr := None;
      } else if n >= limit {
        ptr := MallocLarge(n);
      } else {
        ptr := MallocSmall(n);
      }
    }

    method FreeLarge(p: nat)
      requires PagesReady() && p in usage && usage[p].Large? && usage[p].count > 0
      requires PageModel.NoneFree(pages.runs, p, usage[p].count) && p + usage[p].count <= total
      requires Guarded() && Places() && PagesAvoid(guard, but, PageModel.Free(pages.runs, p, usage[p].count))
      modifies pages, `held, `usage, `usedMem, mem
      ensures PagesReady() && Guarded() && State() == SlabHeap.FreeLarge(old(State()), p, old(usage[p].count))
    {
      var n := usage[p].count;
      SetEntry(p, Large(0));
      usedMem := usedMem - PageAddr(n);
      FreePages(p, n);
    }

    method PutBack(s: nat, a: nat)
      requires s in zones && zones[s].cls < |zoneArray|
      requires Guarded() && Places() && Avoids(guard, but, a, 4) && a + 4 <= PageAddr(total)
      modifies `zones, `zoneArray, `usedMem, mem
      ensures Guarded() && Places() && |mem.bytes| == |old(mem.bytes)|
      ensures State() == SlabHeap.PutBack(old(State()), s, a)
    {
      var z := zones[s];
      Store(a, Little(if z.free == [] then 0 else z.free[0], 4));
      z := z.(free := [a] + z.free);
      usedMem := usedMem - z.chunk;
      if z.nfree == 0 {
        SetZoneLink(s, zoneArray[z.cls]);
        zoneArray := zoneArray[z.cls := [s] + zoneArray[z.cls]];
      }
      SetZone(s, z.(nfree := z.nfree + 1));
    }

    // The place of zone s in the list of its class
    method FindZone(i: nat, s: nat) returns (k: nat)
      requires i < |zoneArray| && s in zoneArray[i]
      ensures k < |zoneArray[i]| && zoneArray[i][k] == s
    {
      k := 0;
      while zoneArray[i][k] != s
        invariant k < |zoneArray[i]| && s in zoneArray[i][k..]
        decreases |zoneArray[i]| - k
      {
        assert zoneArray[i][k..] == [zoneArray[i][k]] + zoneArray[i][k + 1..];
        k := k + 1;
      }
    }

    method Retire(s: nat)
      requires s in zones && zones[s].cls < |zoneArray|
      requires s in zoneArray[zones[s].cls] && Distinct(zoneArray[zones[s].cls])
      requires Guarded() && Places() && forall t | t in zoneArray[zones[s].cls] :: t in zones
      modifies `zoneArray, `zoneFree, `zoneFreeCount, mem
      ensures Guarded() && Places() && |mem.bytes| == |old(mem.bytes)| && State() == SlabHeap.Retire(old(State()), s)
    {
      hide HeadersClear, TableClear, Kept, Avoids, Without, Distinct;
      var i := zones[s].cls;
      var k := FindZone(i, s);
      WithoutAt(zoneArray[i], k);
      HeaderAt(s);
      if k > 0 {
        HeaderAt(zoneArray[i][k - 1]);
        SetZoneLink(zoneArray[i][k - 1], zoneArray[i][k + 1..]);
      }
      SetZoneLink(s, zoneFree);
      zoneArray := zoneArray[i := zoneArray[i][..k] + zoneArray[i][k + 1..]];
      zoneFree := [s] + zoneFree;
      zoneFreeCount := zoneFreeCount + 1;
    }

    method Release()
      requires PagesReady() && zoneFree != [] && size / 4096 > 0
      requires PageModel.NoneFree(pages.runs, zoneFree[0], size / 4096) && zoneFree[0] + size / 4096 <= total
      requires Guarded() && Places() && PagesAvoid(guard, but, PageModel.Free(pages.runs, zoneFree[0], size / 4096))
      modifies `held, `usage, `zones, `zoneFree, `zoneFreeCount, pages, mem
      ensures PagesReady() && Guarded() && State() == SlabHeap.Release(old(State()))
    {
      hide Fill, Return, Kept, TableClear, HeadersClear, PagesAvoid, PageModel.NoneFree, PageModel.Free;
      var s := zoneFree[0];
      zoneFree := zoneFree[1..];
      zoneFreeCount := zoneFreeCount - 1;
      FillTable(s, size / 4096, false);
      zones := zones - {s};
      FreePages(s, size / 4096);
    }

    method FreeChunk(s: nat, a: nat, ghost n: nat)
      requires PagesReady() && Sound(State()) && ChunkBlock(State(), s, a, n) && s in zones
      requires zones[s].cls < |zoneArray|
      requires Guarded() && guard == State() && but == Some(a)
      requires PagesAvoid(guard, but, SlabHeap.FreeChunk(State(), s, a).pages.runs)
      modifies `held, `usage, `zones, `zoneArray, `zoneFree, `zoneFreeCount, `usedMem, pages, mem
      ensures PagesReady() && Guarded() && State() == SlabHeap.FreeChunk(old(State()), s, a)
    {
      hide Sound, ChunkBlock, Kept, Avoids, HeadersClear, TableClear, PagesAvoid, PageModel.NoneFree, PageModel.Ordered,
        Linked, Backed;
      ghost var h := State();
      FreeSteps(h, s, a, n);
      Ready4Writes(h, but);
      ChunkPlace(h, s, a, n);
      PutBack(s, a);
      var z := zones[s];
      if z.nfree == z.max && zoneArray[z.cls] != [s] {
        Retire(s);
        if zoneFreeCount > 2 { Release(); }
      }
    }

    method Free(a: nat, ghost n: nat)
      requires Valid() && Block(State(), a, n)
      modifies this, pages, mem
      ensures Valid() && Known(old(State()), a) && State() == FreePtr(old(State()), a)
      ensures Kept(old(State()), Some(a), old(mem.bytes), mem.bytes)
    {
      hide Sound, Block, ChunkBlock, SlabHeap.FreeChunk, SlabHeap.FreeLarge, FreePtr, Linked, PageModel.Ordered,
        PageModel.NoneFree, PageModel.FreePage, Kept, Avoids, HeadersClear, TableClear, PagesAvoid, Backed;
      ghost var h := State();
      FreeKnown(h, a, n);
      FreeIs(h, a);
      FreedPages(h, a, n);
      guard, but, before := h, Some(a), mem.bytes;
      KeptSelf(h, but, mem.bytes);
      Ready4Writes(h, but);
      var q := PageOf(a);
      match usage[q]
      case Large(count) => FreeLarge(q);
      case Small(off) => FreeChunk(q - off, a, n);
    }

    // rt_memcpy between two blocks that do not overlap
    method Copy(to: nat, from: nat, n: nat)
      requires to + n <= |mem.bytes| && from + n <= |mem.bytes| && (to + n <= from || from + n <= to)
      modifies mem
      ensures OnlyCopied(old(mem.bytes), mem.bytes, from, to, n)
    {
      for k := 0 to n
        invariant OnlyCopied(old(mem.bytes), mem.bytes, from, to, k)
      {
        mem.bytes := mem.bytes[to + k := mem.bytes[from + k]];
      }
    }

    method Move(a: nat, ghost n: nat, length: nat, want: nat, ghost asked: nat)
      returns (ptr: Option<nat>, copy: Option<Copied>)
      requires Valid() && Block(State(), a, n) && want > 0 && length == n && asked <= want < 0x1_0000_0000
      modifies this, pages, mem
      ensures Valid() && Ready(old(State()))
      ensures Moved(State(), ptr, copy) == SlabProperties.Move(old(State()), a, length, want)
      ensures Preserved(old(State()), a, n, asked, ptr, old(mem.bytes), mem.bytes)
    {
      hide Sound, Ready, Block, SlabHeap.Malloc, FreePtr, Known, Linked, PageModel.Ordered, Backed, Kept, OnlyCopied,
        Carried, Gains;
      copy := None;
      ghost var h := State();
      BlockStays(h, a, n, want);
      ptr := Malloc(want);
      if ptr.Some? {
        ghost var g, m, x1 := State(), Granted(h, want), mem.bytes;
        var count := Min(length, want);
        copy := Some(Copied(a, ptr.value, count));
        MoveRoom(h, g, a, n, want, ptr.value);
        Copy(ptr.value, a, count);
        ghost var x2 := mem.bytes;
        Free(a, n);
        MoveKeeps(h, g, a, n, asked, want, ptr.value, old(mem.bytes), x1, x2, mem.bytes);
      }
    }

    method Realloc(ptr: Option<nat>, ghost n: nat, newSize: nat) returns (r: Option<nat>, copy: Option<Copied>)
      requires Valid() && (ptr.Some? ==> Block(State(), ptr.value, n)) && newSize < 0x1_0000_0000
      modifies this, pages, mem
      ensures Valid() && Ready(old(State()))
      ensures Moved(State(), r, copy) == SlabProperties.Realloc(old(State()), ptr, newSize)
      ensures ptr.Some? && newSize > 0 ==> Preserved(old(State()), ptr.value, n, newSize, r, old(mem.bytes), mem.bytes)
    {
      hide Sound, Ready, Block, SlabHeap.Malloc, FreePtr, SlabProperties.Move, Linked, PageModel.Ordered, Rounded,
        Backed, Preserved, Kept;
      r, copy := None, None;
      if ptr == None {
        r := Malloc(newSize);
        return;
      }
      ghost var h := State();
      BlockStays(h, ptr.value, n, 1);
      FreeKnown(h, ptr.value, n);
      if newSize == 0 {
        Free(ptr.value, n);
        return;
      }
      RoundedEnough(newSize);
      LengthIs(h, ptr.value, n);
      var q := PageOf(ptr.value);
      match usage[q]
      case Large(count) => r, copy := Move(ptr.value, n, PageAddr(count), newSize, newSize);
      case Small(off) =>
        var chunk := zones[q - off].chunk;
        if chunk == Rounded(newSize) {
          StaysHere(h, ptr.value, n, newSize, mem.bytes);
          return ptr, None;
        }
        r, copy := Move(ptr.value, n, chunk, Rounded(newSize), newSize);
    }
  }

  lemma MallocReady(h: Heap, n: nat)
    requires Sound(h)
    ensures Ready(h) && Sound(SlabHeap.Malloc(h, n).heap)
    ensures
      0 < n < h.limit ==>
        && 0 <= ZoneIndex(n) < |h.lists| && CanOpen(h.size, Rounded(n))
        && var list := h.lists[ZoneIndex(n)];
           list != [] ==> list[0] in h.zones && CanTake(h.zones[list[0]])
  {
    hide Ok, UsedOk, SlabHeap.Malloc, Refused, Gains;
    OkReady(h);
    MallocSafe(h, n);
    MallocUsed(h, n);
    if 0 < n < h.limit { ReadyFor(h, n); }
  }

  lemma NothingTaken(runs: seq<PageModel.Run>, n: nat)
    ensures PageModel.Alloc(runs, n).page == None ==> PageModel.Alloc(runs, n).runs == runs
  {
    if n > 0 && runs != [] {
      NothingTaken(runs[1..], n);
      assert [runs[0]] + runs[1..] == runs;
    }
  }

  lemma FreeShape(total: nat)
    ensures PageModel.NoneFree([], 0, total)
  {}

  // The conditions under which the steps of rt_free call the page allocator
  lemma FreeSteps(h: Heap, s: nat, a: nat, n: nat)
    requires Sound(h) && ChunkBlock(h, s, a, n) && h.zones[s].cls < |h.lists|
    ensures
      var g := SlabHeap.PutBack(h, s, a);
      && s in g.zones && g.zones[s].cls < |g.lists| && g.zones[s].cls == h.zones[s].cls
      && (Dispensable(g, s) ==>
            s in g.lists[g.zones[s].cls] && Distinct(g.lists[g.zones[s].cls]) &&
            ZonePages(g) > 0 && PageModel.NoneFree(g.pages.runs, s, ZonePages(g)) &&
            s + ZonePages(g) <= g.pages.total &&
            forall t | t in g.lists[g.zones[s].cls] :: t in g.zones)
  {
    hide UsedOk, UsageOk, Block, ZoneOk, ListsFull, OneWhole, Covered, Loses;
    PutBackSafe(h, s, a, n);
  }

  // A freed chunk is free to be written.
  lemma ChunkPlace(h: Heap, s: nat, a: nat, n: nat)
    requires Sound(h) && ChunkBlock(h, s, a, n)
    ensures Avoids(h, Some(a), a, 4) && a + 4 <= PageAddr(h.pages.total)
  {
    hide UsedOk, Block, MemoryOk, ListsOk, LiveChunk, Avoids;
    assert Block(h, a, n) by { BlockHere(h, s, a, n); }
    OwnChunk(h, a, n);
    BlocksClear(h, a, n);
    ChunkRoom(h, s);
    LessAvoids(h, Some(a), a, n, 4);
  }

  lemma BlockHere(h: Heap, s: nat, a: nat, n: nat)
    requires ChunkBlock(h, s, a, n)
    ensures Block(h, a, n)
  {}

  lemma ChunkRoom(h: Heap, s: nat)
    requires Ok(h) && s in h.zones
    ensures h.zones[s].chunk >= 8
  {
    assert ZoneOk(h.size, s, h.zones[s]);
  }

  // The pages that are free after rt_free hold no other block.
  lemma FreedPages(h: Heap, a: nat, n: nat)
    requires Sound(h) && Block(h, a, n)
    ensures Known(h, a) && PagesAvoid(h, Some(a), FreePtr(h, a).pages.runs)
  {
    hide Ok, UsedOk, Block, Known, FreePtr, Loses;
    FreeSafe(h, a, n);
    var e := FreePtr(h, a);
    PlacesClear(e, None);
    OthersAvoid(h, e, a, n, e.pages.runs);
  }

  lemma OthersAvoid(h: Heap, e: Heap, a: nat, n: nat, runs: seq<PageModel.Run>)
    requires Loses(h, e, a, n) && PagesAvoid(e, None, runs)
    ensures PagesAvoid(h, Some(a), runs)
  {
    forall x: nat, q: nat, m: nat | PageModel.FreePage(runs, x) && Block(h, q, m)
      ensures q == a || q + m <= PageAddr(x) || PageAddr(x) + 4096 <= q {
      if q != a { assert Block(e, q, m); assert Avoids(e, None, PageAddr(x), 4096); }
    }
  }

  lemma FreeIs(h: Heap, a: nat)
    requires Known(h, a)
    ensures
      var q := PageOf(a);
      match h.usage[q]
      case Large(count) =>
        && FreePtr(h, a) == SlabHeap.FreeLarge(h, q, count)
        && FreePtr(h, a).pages.runs == PageModel.Free(h.pages.runs, q, count)
      case Small(off) => FreePtr(h, a) == SlabHeap.FreeChunk(h, q - off, a)
  {}

  lemma FreeKnown(h: Heap, a: nat, n: nat)
    requires Sound(h) && Block(h, a, n)
    ensures Known(h, a) && Sound(FreePtr(h, a))
    ensures
      var q := PageOf(a);
      match h.usage[q]
      case Large(count) => count > 0 && PageModel.NoneFree(h.pages.runs, q, count) && q + count <= h.pages.total
      case Small(off) => ChunkBlock(h, q - off, a, n)
      case Unused => false
  {
    hide Ok, UsedOk, Block, ChunkBlock, Loses, SlabHeap.FreeChunk, SlabHeap.FreeLarge;
    OkReady(h);
    FreeSafe(h, a, n);
    FreeUsed(h, a, n);
    RecoversHere(h, a, n);
  }

  lemma RecoversHere(h: Heap, a: nat, n: nat)
    requires Ok(h) && Block(h, a, n) && Known(h, a)
    ensures
      var q := PageOf(a);
      match h.usage[q]
      case Large(count) => count > 0 && PageModel.NoneFree(h.pages.runs, q, count) && q + count <= h.pages.total
      case Small(off) => ChunkBlock(h, q - off, a, n)
      case Unused => false
  {
    hide ZonesOk, UsageOk, Block, ChunkBlock, ListsOk, Covered;
    OkReady(h);
    Recovers(h, a, n);
  }

  lemma BlockStays(h: Heap, a: nat, n: nat, size: nat)
    requires Sound(h) && Block(h, a, n)
    ensures Ready(h) && Known(h, a)
    ensures
      var r := SlabHeap.Malloc(h, size);
      if r.ptr.Some? then Block(r.heap, a, n) && Known(r.heap, a) else r.heap == h
  {
    hide Ok, UsedOk, Block, SlabHeap.Malloc, Known, Refused;
    OkReady(h);
    MallocSafe(h, size);
    FreeSafe(h, a, n);
    var r := SlabHeap.Malloc(h, size);
    if r.ptr.Some? {
      assert Block(r.heap, a, n);
      FreeSafe(r.heap, a, n);
    }
  }

  lemma Inside(h: Heap, but: Option<nat>, p: nat, len: nat, off: nat, less: nat)
    requires Avoids(h, but, p, len) && off + less <= len
    ensures Avoids(h, but, p + off, less)
  {}

  lemma PageWithin(runs: seq<PageModel.Run>, n: nat, total: nat)
    requires InTotal(runs, total)
    ensures n > 0 && PageModel.Alloc(runs, n).page.Some? ==> PageModel.Alloc(runs, n).page.value + n <= total
    ensures PageModel.Alloc(runs, n).page.Some? ==> n > 0
  {
    if n > 0 && PageModel.Alloc(runs, n).page.Some? {
      PageModel.AllocRow(runs, n, PageModel.Alloc(runs, n).page.value + n - 1);
    }
  }

  // The facts that the writes of an operation on h rely on
  lemma Ready4Writes(h: Heap, but: Option<nat>)
    requires Sound(h)
    ensures HeadersClear(h, but, h.zones) && TableClear(h, but, h.table, h.pages.total)
    ensures PagesAvoid(h, but, h.pages.runs) && InTotal(h.pages.runs, h.pages.total)
    ensures (forall s | s in h.zones :: s < h.pages.total)
    ensures PageAddr(h.table) + 4 * h.pages.total <= PageAddr(h.pages.total)
    ensures (forall s | s in h.spare :: s in h.zones) && h.size >= 4096
  {
    hide UsedOk, HeadersClear, TableClear, PagesAvoid, ZoneOk;
    PlacesClear(h, but);
    TableRoom(h);
  }

  lemma LengthIs(h: Heap, a: nat, n: nat)
    requires Sound(h) && Block(h, a, n) && Known(h, a)
    ensures
      var q := PageOf(a);
      && q in h.usage
      && match h.usage[q]
         case Large(count) => n == PageAddr(count)
         case Small(off) => off <= q && q - off in h.zones && n == h.zones[q - off].chunk
         case Unused => false
  {
    hide UsedOk, Block, HeldOk, ZonesOk, UsageOk, ZoneSizes, ListsOk;
    OkReady(h);
    Recovers(h, a, n);
  }

  // A block that stays where it is
  lemma StaysHere(h: Heap, a: nat, n: nat, size: nat, x: seq<Byte>)
    requires Sound(h) && Block(h, a, n) && |x| == PageAddr(h.pages.total)
    ensures Preserved(h, a, n, size, Some(a), x, x)
  {
    StayPreserved(h, a, n, size, x);
  }

  // The new block has room for what is copied, apart from the old one.
  lemma MoveRoom(h: Heap, g: Heap, a: nat, n: nat, want: nat, p: nat)
    requires Sound(h) && Block(h, a, n) && Ready(h) && want < 0x1_0000_0000
    requires SlabHeap.Malloc(h, want) == Outcome(g, Some(p))
    ensures p + Min(n, want) <= PageAddr(g.pages.total) && a + Min(n, want) <= PageAddr(g.pages.total)
    ensures p + Min(n, want) <= a || a + Min(n, want) <= p
    ensures Block(g, a, n) && Sound(g)
  {
    hide Ok, UsedOk, Block, SlabHeap.Malloc, Refused, Granted;
    MallocSafe(h, want);
    MallocUsed(h, want);
    GrantedHere(h, want);
    BlocksClear(g, p, Granted(h, want));
    BlocksClear(g, a, n);
    BlocksApart(g, p, Granted(h, want), a, n);
  }

  lemma MoveKeeps(h: Heap, g: Heap, a: nat, n: nat, asked: nat, want: nat, p: nat,
      x0: seq<Byte>, x1: seq<Byte>, x2: seq<Byte>, x3: seq<Byte>)
    requires Sound(h) && Block(h, a, n) && Ready(h) && asked <= want < 0x1_0000_0000
    requires SlabHeap.Malloc(h, want) == Outcome(g, Some(p))
    requires Kept(h, None, x0, x1) && OnlyCopied(x1, x2, a, p, Min(n, want)) && Kept(g, Some(a), x2, x3)
    ensures Preserved(h, a, n, asked, Some(p), x0, x3)
  {
    hide Ok, UsedOk, Block, SlabHeap.Malloc, Refused, Granted, Kept, OnlyCopied, Preserved;
    MallocSafe(h, want);
    GrantedHere(h, want);
    MovePreserved(h, g, a, n, asked, p, Granted(h, want), Min(n, want), x0, x1, x2, x3);
  }
}

// The slab allocator (src/slab.c): zones of equal chunks, large blocks of whole pages, and the
// page table that tells from an address which of the two it belongs to.
module SlabHeap {
  import opened Options
  import opened Lists
  import opened PageHeap
  import opened SlabSizes
  import opened SlabZone

  // An entry of the memusage table. An entry that no live block uses may hold anything.
  datatype Usage = Unused | Small(offset: nat) | Large(count: nat)

  datatype Heap = Heap(size: nat, limit: nat, pages: Pages, table: nat, usage: map<nat, Usage>, zones: map<nat, Zone>,
                       lists: seq<seq<nat>>, spare: seq<nat>, spares: int, used: int)

  datatype Outcome = Outcome(heap: Heap, ptr: Option<nat>)

  function ZonePages(h: Heap): nat { h.size / 4096 }

  // ----- rt_malloc -----

  // RT_ALIGN on 32 bits, in pages
  function PagesFor(size: nat): nat { (size + 4095) % 0x1_0000_0000 / 4096 }

  function MallocLarge(h: Heap, size: nat): Outcome {
    var n := PagesFor(size);
    var (g, page) := Grab(h.pages, n);
    if page == None then Outcome(h, None)
    else Outcome(h.(pages := g, usage := h.usage[page.value := Large(n)], used := h.used + PageAddr(n)),
                 Some(PageAddr(page.value)))
  }

  // The first zone of the class's list has a free chunk.
  function TakeListed(h: Heap, i: nat): Outcome
    requires i < |h.lists| && h.lists[i] != [] && h.lists[i][0] in h.zones && CanTake(h.zones[h.lists[i][0]])
  {
    var s := h.lists[i][0];
    var (z, a) := TakeChunk(s, h.zones[s]);
    Outcome(h.(zones := h.zones[s := z], lists := if z.nfree == 0 then h.lists[i := h.lists[i][1..]] else h.lists,
               used := h.used + z.chunk),
            Some(a))
  }

  // The zone at page s becomes a zone of class i, and its first chunk is taken.
  function OpenZone(h: Heap, s: nat, i: nat, chunk: nat): Outcome
    requires i < |h.lists| && CanOpen(h.size, chunk)
  {
    var z := NewZone(h.size, i, chunk);
    Outcome(h.(zones := h.zones[s := z], lists := h.lists[i := [s] + h.lists[i]], used := h.used + chunk),
            Some(Slot(s, z, 0)))
  }

  function Mark(small: bool, offset: nat): Usage { if small then Small(offset) else Unused }

  // The table entries of the n pages from s on, written one after the other
  function Fill(usage: map<nat, Usage>, s: nat, n: nat, small: bool): (r: map<nat, Usage>)
    ensures forall q :: q in r <==> q in usage || s <= q < s + n
    ensures forall q | q in r :: r[q] == if s <= q < s + n then Mark(small, q - s) else usage[q]
  {
    if n == 0 then usage else Fill(usage, s, n - 1, small)[s + n - 1 := Mark(small, n - 1)]
  }

  function MallocSmall(h: Heap, size: nat): Outcome
    requires ZoneIndex(size) >= 0 && ZoneIndex(size) < |h.lists| && CanOpen(h.size, Rounded(size))
    requires
      var list := h.lists[ZoneIndex(size)];
      list != [] ==> list[0] in h.zones && CanTake(h.zones[list[0]])
  {
    var i, chunk := ZoneIndex(size), Rounded(size);
    if h.lists[i] != [] then TakeListed(h, i)
    else if h.spare != [] then
      OpenZone(h.(spare := h.spare[1..], spares := h.spares - 1), h.spare[0], i, chunk)
    else
      var (g, page) := Grab(h.pages, ZonePages(h));
      if page == None then Outcome(h, None)
      else OpenZone(h.(pages := g, usage := Fill(h.usage, page.value, ZonePages(h), true)), page.value, i, chunk)
  }

  ghost predicate Ready(h: Heap) {
    && ZoneSizes(h.size, h.limit) && |h.lists| == CLASSES
    && forall i | 0 <= i < CLASSES :: h.lists[i] != [] ==> h.lists[i][0] in h.zones && CanTake(h.zones[h.lists[i][0]])
  }

  lemma ReadyFor(h: Heap, size: nat)
    requires Ready(h) && 0 < size < h.limit
    ensures 0 <= ZoneIndex(size) < CLASSES && CanOpen(h.size, Rounded(size))
  {
    TightestClass(size);
    RoomForThree(h.size, h.limit, size);
    BelowLimit(h.limit, size);
  }

  ghost function Malloc(h: Heap, size: nat): Outcome
    requires Ready(h)
  {
    if size == 0 then Outcome(h, None)
    else if size >= h.limit then MallocLarge(h, size)
    else
      ReadyFor(h, size);
      MallocSmall(h, size)
  }

  // ----- rt_free -----

  function FreeLarge(h: Heap, p: nat, n: nat): Heap {
    h.(usage := h.usage[p := Large(0)], pages := Return(h.pages, p, n), used := h.used - PageAddr(n))
  }

  function PutBack(h: Heap, s: nat, a: nat): Heap
    requires s in h.zones && h.zones[s].cls < |h.lists|
  {
    var z := h.zones[s];
    h.(zones := h.zones[s := GiveChunk(z, a)],
       lists := if z.nfree == 0 then h.lists[z.cls := [s] + h.lists[z.cls]] else h.lists,
       used := h.used - z.chunk)
  }

  // A wholly free zone goes to the spare zones if its class has another zone to allocate from.
  predicate Dispensable(h: Heap, s: nat)
    requires s in h.zones && h.zones[s].cls < |h.lists|
  {
    Whole(h.zones[s]) && h.lists[h.zones[s].cls] != [s]
  }

  function Retire(h: Heap, s: nat): Heap
    requires s in h.zones && h.zones[s].cls < |h.lists|
  {
    var i := h.zones[s].cls;
    h.(lists := h.lists[i := Without(h.lists[i], s)], spare := [s] + h.spare, spares := h.spares + 1)
  }

  // More than two spare zones: the one that came last goes back to the page allocator.
  function Release(h: Heap): Heap
    requires h.spare != []
  {
    var s := h.spare[0];
    h.(spare := h.spare[1..], spares := h.spares - 1, usage := Fill(h.usage, s, ZonePages(h), false),
       zones := h.zones - {s}, pages := Return(h.pages, s, ZonePages(h)))
  }

  function FreeChunk(h: Heap, s: nat, a: nat): Heap
    requires s in h.zones && h.zones[s].cls < |h.lists|
  {
    var g := PutBack(h, s, a);
    if !Dispensable(g, s) then g
    else
      var e := Retire(g, s);
      if e.spares > 2 then Release(e) else e
  }

  // The table entry of the address's page leads to the zone or tells the number of pages.
  predicate Known(h: Heap, a: nat) {
    var q := PageOf(a);
    q in h.usage &&
    match h.usage[q]
    case Large(n) => true
    case Small(off) => off <= q && q - off in h.zones && h.zones[q - off].cls < |h.lists|
    case Unused => false
  }

  function FreePtr(h: Heap, a: nat): Heap
    requires Known(h, a)
  {
    var q := PageOf(a);
    match h.usage[q]
    case Large(n) => FreeLarge(h, q, n)
    case Small(off) => FreeChunk(h, q - off, a)
  }
}

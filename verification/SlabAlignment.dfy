// The slab allocator's promise that power-of-two sizes come back aligned to their size
// (src/slab.c, "API REQUIREMENTS"): kept up to the page size, and not beyond.
module SlabAlignment {
  import opened Options
  import opened PageModel
  import opened PageHeap
  import opened SlabSizes
  import opened SlabZone
  import opened SlabHeap
  import opened SlabSafety
  import opened SlabRuns

  lemma ModStep(x: nat, c: nat)
    requires c > 0
    ensures (x + c) % c == x % c
  {
    Division(x + c, c);
    Division(x, c);
    SameRest((x + c) / c, x / c, c, (x + c) % c, x % c);
  }

  lemma SameRest(a: nat, b: nat, c: nat, r: nat, t: nat)
    requires r < c && t < c && a * c + r == b * c + t + c
    ensures r == t
  {
    assert (b + 1) * c == b * c + c;
    if a < b + 1 { Times(a, b + 1, c); } else if b + 1 < a { Times(b + 1, a, c); }
  }

  lemma {:induction false} ModTimes(x: nat, m: nat, c: nat)
    requires c > 0
    ensures (x + m * c) % c == x % c
  {
    if m > 0 {
      ModTimes(x, m - 1, c);
      ModStep(x + (m - 1) * c, c);
      assert (m - 1) * c + c == m * c;
    }
  }

  lemma {:induction false} SmallPower(c: nat)
    requires PowerOfTwo(c) && c <= 4096
    ensures c in {1, 2, 4, 8, 16, 32, 64, 128, 256, 512, 1024, 2048, 4096}
  {
    if c > 1 { SmallPower(c / 2); }
  }

  lemma PageAligned(p: nat, c: nat)
    requires PowerOfTwo(c) && c <= 4096
    ensures PageAddr(p) % c == 0
  {
    hide PowerOfTwo;
    SmallPower(c);
    var q := DividesPage(c);
    assert p * (q * c) == p * q * c;
    ModTimes(0, p * q, c);
  }

  lemma DividesPage(c: nat) returns (q: nat)
    requires c in {1, 2, 4, 8, 16, 32, 64, 128, 256, 512, 1024, 2048, 4096}
    ensures q * c == 4096
  {
    q := 4096 / c;
  }

  lemma BaseMultiple(size: nat, z: Zone) returns (q: nat)
    requires Shaped(size, z) && PowerOfTwo(z.chunk)
    ensures z.chunk > 0 && z.base == q * z.chunk
  {
    q := (HEADER + z.chunk - 1) / z.chunk;
  }

  lemma Together(start: nat, s: nat, z: Zone, k: nat, q: nat)
    requires z.base == q * z.chunk
    ensures PageAddr(start) + Slot(s, z, k) == PageAddr(start + s) + (q + k) * z.chunk
  {}

  // The heap starts at page `start` of the address space and the zone at page s of the heap. A
  // chunk of a power-of-two size is aligned to its size exactly if its zone is, and it is whenever
  // the size is at most a page.
  lemma PowerAligned(start: nat, size: nat, s: nat, z: Zone, k: nat)
    requires Shaped(size, z) && PowerOfTwo(z.chunk)
    ensures (PageAddr(start) + Slot(s, z, k)) % z.chunk == 0 <==> PageAddr(start + s) % z.chunk == 0
    ensures z.chunk <= 4096 ==> PageAddr(start + s) % z.chunk == 0
  {
    hide Shaped, Offset, PowerOfTwo, RoundUp, PageAddr;
    var c := z.chunk;
    var q := BaseMultiple(size, z);
    Together(start, s, z, k, q);
    ModTimes(PageAddr(start + s), q + k, c);
    if c <= 4096 { PageAligned(start + s, c); }
  }

  // Wherever the heap and the zone lie, every chunk of the zone is aligned to n.
  ghost predicate AlwaysAligned(n: nat, z: Zone)
    requires n > 0
  {
    forall start: nat, s: nat, k: nat :: (PageAddr(start) + Slot(s, z, k)) % n == 0
  }

  lemma {:induction false} SmallRequest(n: nat)
    requires PowerOfTwo(n) && n < 16384
    ensures n in {1, 2, 4} || n in {8, 16, 32, 64, 128, 256, 512, 1024, 2048, 4096, 8192}
  {
    if n > 1 { SmallRequest(n / 2); }
  }

  lemma ExactClass(n: nat, j: nat)
    requires 0 < n < 16384 && j < CLASSES && ClassSize(j) == n
    ensures Rounded(n) == n
  {
    hide Rounded, ZoneIndex;
    TightestClass(n);
    ClassesRise(ZoneIndex(n), j);
  }

  lemma FirstClass(n: nat)
    requires 0 < n <= 8
    ensures Rounded(n) == 8
  {
    hide Rounded, ZoneIndex;
    TightestClass(n);
    assert ClassSize(0) == 8;
  }

  // The class of a power of two
  function PowerClass(n: nat): nat {
    if n == 8 then 0 else if n == 16 then 1 else if n == 32 then 3 else if n == 64 then 7 else if n == 128 then 15
    else if n == 256 then 23 else if n == 512 then 31 else if n == 1024 then 39 else if n == 2048 then 47
    else if n == 4096 then 55 else 63
  }

  // A power of two is its own chunk size, from 8 on.
  lemma RoundedPower(n: nat)
    requires PowerOfTwo(n) && n < 16384
    ensures n > 0 && Rounded(n) == if n < 8 then 8 else n
    ensures PowerOfTwo(Rounded(n))
  {
    hide PowerOfTwo, Rounded;
    SmallRequest(n);
    if n <= 8 { FirstClass(n); } else { ExactClass(n, PowerClass(n)); }
    EightIsPower();
  }

  lemma EightIsPower()
    ensures PowerOfTwo(8)
  {
    assert PowerOfTwo(4);
  }

  lemma Coarser(x: nat, n: nat)
    requires n in {1, 2, 4} && x % 8 == 0
    ensures x % n == 0
  {
    var q := x / 8;
    if n == 1 { ModTimes(0, 8 * q, 1); } else if n == 2 { ModTimes(0, 4 * q, 2); } else { ModTimes(0, 2 * q, 4); }
  }

  // A request for a power of two below the limit of the zones comes back aligned to its size in
  // every heap, exactly if it is for no more than a page.
  lemma RequestAligned(n: nat, size: nat, z: Zone)
    requires PowerOfTwo(n) && n < 16384 && Shaped(size, z) && z.chunk == Rounded(n)
    ensures n > 0 && (AlwaysAligned(n, z) <==> n <= 4096)
  {
    hide PowerOfTwo, Shaped, Rounded, Slot, PageAddr;
    RoundedPower(n);
    if n <= 4096 {
      forall start: nat, s: nat, k: nat ensures (PageAddr(start) + Slot(s, z, k)) % n == 0 {
        PowerAligned(start, size, s, z, k);
        if n < 8 { SmallRequest(n); Coarser(PageAddr(start) + Slot(s, z, k), n); }
      }
    } else {
      PowerAligned(1, size, 0, z, 0);
      PageOne();
      assert (PageAddr(1) + Slot(0, z, 0)) % n != 0;
    }
  }

  lemma PageOne()
    ensures PageAddr(1 + 0) == 4096
  {}

  // A heap of 64 pages, at an address that is a multiple of 64 KiB say: its first 8192-byte chunk
  // lies at offset 12288.
  lemma FirstBigChunk(usage: map<nat, Usage>)
    ensures Ready(Init(64, usage))
    ensures
      var r := Malloc(Init(64, usage), 8000);
      r.ptr == Some(12288) && Rounded(8000) == 8192 && PowerOfTwo(8192) && 12288 % 8192 != 0
  {
    hide Init, PowerOfTwo, RoundUp, Offset, Ready;
    var h := Init(64, usage);
    InitReady(64, usage);
    FirstHeap(h, usage);
    ReadyFor(h, 8000);
    EightClass();
    EightK();
    EightPages();
  }

  lemma FirstHeap(h: Heap, usage: map<nat, Usage>)
    requires h == Init(64, usage)
    ensures h.size == 32768 && h.limit == 8192 && h.pages.runs == [Run(1, 63)]
    ensures h.lists == seq(CLASSES, i => []) && h.spare == []
  {
    assert GrowZone(32768, 262144) == 32768;
    FirstRun();
  }

  lemma EightClass()
    ensures ZoneIndex(8000) == 63 && Rounded(8000) == 8192
  {}

  lemma EightPages()
    ensures Alloc([Run(1, 63)], 8) == Result([Run(9, 55)], Some(1))
  {
    assert [Run(9, 55)] + [] == [Run(9, 55)];
  }

  lemma InitReady(total: nat, usage: map<nat, Usage>)
    requires total > 0
    ensures Ready(Init(total, usage))
  {
    InitSafe(total, usage);
    OkReady(Init(total, usage));
  }

  lemma FirstRun()
    ensures Grab(Pages(64, Free([], 0, 64), map[]), 1) == (Pages(64, [Run(1, 63)], map[0 := 1]), Some(0))
  {
    assert Free([], 0, 64) == [Run(0, 64)];
    assert Alloc([Run(0, 64)], 1) == Result([Run(1, 63)] + [], Some(0));
    assert [Run(1, 63)] + [] == [Run(1, 63)];
  }

  lemma EightK()
    ensures PowerOfTwo(8192) && Offset(8192) == 8192
  {
    assert PowerOfTwo(1024) by { assert PowerOfTwo(32) by { assert PowerOfTwo(4); } }
    assert PowerOfTwo(8192) by { assert PowerOfTwo(4096) by { assert PowerOfTwo(2048); } }
  }
}

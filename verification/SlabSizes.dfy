// Size classes of the slab allocator (src/slab.c, zoneindex) and the layout of a zone.
module SlabSizes {
  const CLASSES: nat := 72
  // sizeof(slab_zone): nine words of four bytes
  const HEADER: nat := 36

  // Pages have 4096 bytes.
  function PageAddr(p: nat): nat { p * 4096 }

  function PageOf(a: nat): nat { a / 4096 }

  function RoundUp(n: nat, g: nat): (r: nat)
    requires g > 0
    ensures n <= r < n + g
  {
    var q := (n + g - 1) / g;
    assert q * g <= n + g - 1 < q * g + g;
    q * g
  }

  function Grain(n: nat): (g: nat)
    ensures g > 0
  {
    if n < 128 then 8 else if n < 256 then 16 else if n < 512 then 32 else if n < 1024 then 64
    else if n < 2048 then 128 else if n < 4096 then 256 else if n < 8192 then 512 else 1024
  }

  function Shift(n: nat): int {
    if n < 128 then -1 else if n < 256 then 7 else if n < 512 then 15 else if n < 1024 then 23
    else if n < 2048 then 31 else if n < 4096 then 39 else if n < 8192 then 47 else 55
  }

  // The size the request is rounded to; sizes of 16384 and more are left as they are.
  function Rounded(n: nat): nat { if n < 16384 then RoundUp(n, Grain(n)) else n }

  function ZoneIndex(n: nat): int { if n < 16384 then Rounded(n) / Grain(n) + Shift(n) else 0 }

  // The chunk size of class i, by the table at the head of the file
  function ClassSize(i: nat): nat {
    if i < 16 then 8 * (i + 1) else if i < 24 then 16 * (i - 7) else if i < 32 then 32 * (i - 15)
    else if i < 40 then 64 * (i - 23) else if i < 48 then 128 * (i - 31) else if i < 56 then 256 * (i - 39)
    else if i < 64 then 512 * (i - 47) else if i < 72 then 1024 * (i - 55) else 0
  }

  lemma Divided(q: nat, g: nat)
    requires g == 8 || g == 16 || g == 32 || g == 64 || g == 128 || g == 256 || g == 512 || g == 1024
    ensures q * g / g == q
  {}

  // Index and rounded size agree with the table, and the class is the tightest one that fits.
  lemma TightestClass(n: nat)
    requires 0 < n < 16384
    ensures 0 <= ZoneIndex(n) < CLASSES && Rounded(n) == ClassSize(ZoneIndex(n)) >= n
    ensures forall j: nat :: j < CLASSES && ClassSize(j) >= n ==> ZoneIndex(n) <= j
  {
    var g := Grain(n);
    var q := (n + g - 1) / g;
    Divided(q, g);
    assert Rounded(n) == q * g && ZoneIndex(n) == q + Shift(n);
    QuotientRange(n);
    assert ClassSize(ZoneIndex(n)) == Rounded(n) by { IndexInverts(n, q); }
    if ZoneIndex(n) > 0 {
      LowerClass(n, q);
      forall j: nat | j < CLASSES && ClassSize(j) >= n ensures ZoneIndex(n) <= j {
        if j < ZoneIndex(n) { ClassesRise(j, ZoneIndex(n) - 1); }
      }
    }
  }

  lemma QuotientRange(n: nat)
    requires 0 < n < 16384
    ensures
      var q := (n + Grain(n) - 1) / Grain(n);
      if n < 128 then 1 <= q <= 16 else 8 <= q <= 16
  {}

  lemma IndexInverts(n: nat, q: nat)
    requires 0 < n < 16384 && (if n < 128 then 1 <= q <= 16 else 8 <= q <= 16)
    ensures 0 <= q + Shift(n) < CLASSES && ClassSize(q + Shift(n)) == q * Grain(n)
  {}

  lemma LowerClass(n: nat, q: nat)
    requires 0 < n < 16384 && q == (n + Grain(n) - 1) / Grain(n) && q + Shift(n) > 0
    ensures ClassSize(q + Shift(n) - 1) < n
  {
    QuotientRange(n);
    assert (q - 1) * Grain(n) < n;
  }

  lemma ClassesRise(i: nat, j: nat)
    requires i <= j < CLASSES
    ensures ClassSize(i) <= ClassSize(j) && (i < j ==> ClassSize(i) < ClassSize(j))
  {}

  // Rounding wastes less than an eighth of the request, or less than 8 bytes.
  lemma SmallWaste(n: nat)
    requires 0 < n < 16384
    ensures Rounded(n) - n < 8 || 8 * (Rounded(n) - n) < n
  {}

  // ----- Zone layout -----

  predicate PowerOfTwo(n: nat) { n == 1 || (n > 1 && n % 2 == 0 && PowerOfTwo(n / 2)) }

  // Where the chunks begin in a zone
  function Offset(chunk: nat): (r: nat)
    requires chunk > 0
    ensures r >= HEADER
  {
    if PowerOfTwo(chunk) then RoundUp(HEADER, chunk) else RoundUp(HEADER, 8)
  }

  lemma Division(a: nat, b: nat)
    requires b > 0
    ensures a / b * b <= a < a / b * b + b
  {
    assert a == b * (a / b) + a % b;
  }

  // z_nmax: the chunks that fit in `room` bytes
  function Capacity(room: nat, chunk: nat): (n: nat)
    requires chunk > 0
    ensures n * chunk <= room < n * chunk + chunk
  {
    Division(room, chunk);
    room / chunk
  }

  // zone_size and zone_limit as rt_system_heap_init leaves them
  predicate ZoneSizes(zone: nat, limit: nat) {
    (zone == 32768 || zone == 65536 || zone == 131072) && limit == (if zone / 4 > 16384 then 16384 else zone / 4)
  }

  function GrowZone(zone: nat, heap: nat): nat
    requires zone > 0
    decreases 131072 - zone
  {
    if zone < 131072 && zone * 2 < heap / 1024 then GrowZone(zone * 2, heap) else zone
  }

  lemma ZoneSizesOk(heap: nat)
    ensures
      var zone := GrowZone(32768, heap);
      ZoneSizes(zone, if zone / 4 > 16384 then 16384 else zone / 4)
  {
    assert GrowZone(131072, heap) == 131072;
    assert GrowZone(65536, heap) == 65536 || GrowZone(65536, heap) == 131072;
  }

  // A zone is the smallest of the three sizes that, doubled, is a thousandth of the heap or more, and
  // the largest if none is.
  lemma ZoneExact(heap: nat)
    ensures
      var zone := GrowZone(32768, heap);
      && (zone == 32768 || zone == 65536 || zone == 131072)
      && (zone < 131072 ==> 2 * zone >= heap / 1024) && (zone > 32768 ==> zone < heap / 1024)
  {
    assert GrowZone(131072, heap) == 131072;
    assert GrowZone(65536, heap) == if 131072 < heap / 1024 then 131072 else 65536;
  }

  // Every zone holds at least three chunks, so a new zone still has free ones behind its first.
  lemma RoomForThree(zone: nat, limit: nat, n: nat)
    requires ZoneSizes(zone, limit) && 0 < n < limit
    ensures zone >= Offset(Rounded(n)) && Capacity(zone - Offset(Rounded(n)), Rounded(n)) >= 3
  {
    BelowLimit(limit, n);
    var c := Rounded(n);
    OffsetSmall(c, limit);
    AtLeast(zone - Offset(c), c, 3);
  }

  lemma OffsetSmall(c: nat, limit: nat)
    requires 8 <= c <= limit && (limit == 8192 || limit == 16384)
    ensures Offset(c) <= limit
  {
    if c >= HEADER { OneStep(HEADER, c); }
  }

  lemma OneStep(n: nat, c: nat)
    requires 0 < n <= c
    ensures RoundUp(n, c) == c
  {
    var q := (n + c - 1) / c;
    Division(n + c - 1, c);
    Product(q, c);
  }

  lemma Product(q: nat, c: nat)
    requires c > 0
    ensures (q == 0 ==> q * c == 0) && (q >= 2 ==> q * c >= 2 * c)
  {}

  lemma AtLeast(room: nat, chunk: nat, k: nat)
    requires chunk > 0 && k * chunk <= room
    ensures Capacity(room, chunk) >= k
  {
    var m := Capacity(room, chunk);
    assert m < k ==> (m + 1) * chunk <= k * chunk;
  }

  lemma BelowLimit(limit: nat, n: nat)
    requires (limit == 8192 || limit == 16384) && 0 < n < limit
    ensures 8 <= Rounded(n) <= limit
  {}
}

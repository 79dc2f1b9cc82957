// One zone of the slab allocator (src/slab.c): equal chunks behind a header. Addresses count from
// the heap start.
module SlabZone {
  import opened Lists
  import opened SlabSizes

  // A zone header: its chunks from the first up to number `top` have been used before.
  datatype Zone = Zone(cls: nat, chunk: nat, max: nat, base: nat, top: nat, free: seq<nat>, nfree: nat)

  // ----- One zone, whose header is at the start of page s -----

  function Slot(s: nat, z: Zone, k: nat): nat { PageAddr(s) + z.base + k * z.chunk }

  ghost predicate IsSlot(s: nat, z: Zone, a: nat) { exists k: nat :: k <= z.top && a == Slot(s, z, k) }

  ghost predicate LiveChunk(s: nat, z: Zone, a: nat) { IsSlot(s, z, a) && a !in z.free }

  predicate Whole(z: Zone) { z.nfree == z.max }

  ghost predicate Shaped(size: nat, z: Zone) {
    && z.cls < CLASSES && z.chunk == ClassSize(z.cls) > 0
    && z.base == Offset(z.chunk) <= size && z.max == Capacity(size - z.base, z.chunk) >= 2
  }

  ghost predicate ZoneOk(size: nat, s: nat, z: Zone) {
    && Shaped(size, z) && z.top < z.max
    && z.nfree == z.max - 1 - z.top + |z.free|
    && Distinct(z.free) && forall a | a in z.free :: IsSlot(s, z, a)
  }

  predicate CanOpen(size: nat, chunk: nat) {
    chunk > 0 && size >= Offset(chunk) && Capacity(size - Offset(chunk), chunk) >= 2
  }

  function NewZone(size: nat, cls: nat, chunk: nat): Zone
    requires CanOpen(size, chunk)
  {
    var max := Capacity(size - Offset(chunk), chunk);
    Zone(cls, chunk, max, Offset(chunk), 0, [], max - 1)
  }

  predicate CanTake(z: Zone) { z.nfree > 0 && (z.top + 1 == z.max ==> z.free != []) }

  // Space never used before goes first, then the chunk that was freed last.
  function TakeChunk(s: nat, z: Zone): (Zone, nat)
    requires CanTake(z)
  {
    if z.top + 1 != z.max then (z.(nfree := z.nfree - 1, top := z.top + 1), Slot(s, z, z.top + 1))
    else (z.(nfree := z.nfree - 1, free := z.free[1..]), z.free[0])
  }

  function GiveChunk(z: Zone, a: nat): Zone { z.(free := [a] + z.free, nfree := z.nfree + 1) }

  lemma SlotsApart(s: nat, z: Zone, i: nat, j: nat)
    requires i < j
    ensures Slot(s, z, i) + z.chunk <= Slot(s, z, j)
  {
    Times(i, j, z.chunk);
  }

  // Chunks lie in their zone, behind its header.
  lemma SlotInside(size: nat, s: nat, z: Zone, k: nat)
    requires Shaped(size, z) && k < z.max
    ensures PageAddr(s) + HEADER <= Slot(s, z, k) && Slot(s, z, k) + z.chunk <= PageAddr(s) + size
  {
    assert z.base + z.max * z.chunk <= size && z.base >= HEADER;
    hide *;
    SlotBounds(size, s, z, k);
  }

  lemma SlotBounds(size: nat, s: nat, z: Zone, k: nat)
    requires k < z.max && z.base + z.max * z.chunk <= size && z.base >= HEADER
    ensures PageAddr(s) + HEADER <= Slot(s, z, k) && Slot(s, z, k) + z.chunk <= PageAddr(s) + size
  {
    Times(k, z.max, z.chunk);
  }

  lemma Times(i: nat, j: nat, c: nat)
    requires i < j
    ensures i * c + c <= j * c
  {
    assert (i + 1) * c <= j * c;
  }

  lemma SlotPage(size: nat, n: nat, s: nat, z: Zone, a: nat)
    requires Shaped(size, z) && z.top < z.max && IsSlot(s, z, a) && size == PageAddr(n)
    ensures s <= PageOf(a) < s + n
  {
    var k: nat :| k <= z.top && a == Slot(s, z, k);
    SlotInside(size, s, z, k);
  }

  lemma TakeChunkSafe(size: nat, s: nat, z: Zone, a: nat)
    requires ZoneOk(size, s, z) && z.nfree > 0
    ensures CanTake(z)
    ensures ZoneOk(size, s, TakeChunk(s, z).0) && !LiveChunk(s, z, TakeChunk(s, z).1)
    ensures LiveChunk(s, TakeChunk(s, z).0, a) <==> LiveChunk(s, z, a) || a == TakeChunk(s, z).1
  {
    var (e, p) := TakeChunk(s, z);
    if z.top + 1 != z.max {
      forall b ensures IsSlot(s, e, b) <==> IsSlot(s, z, b) || b == p { SlotsGrow(s, z, e, b); }
      forall k: nat | k <= z.top ensures Slot(s, z, k) < p { SlotsApart(s, z, k, z.top + 1); }
    } else {
      DistinctTail(z.free);
      assert forall b :: b in z.free <==> b == p || b in e.free;
      forall b ensures IsSlot(s, e, b) <==> IsSlot(s, z, b) { SameSlots(s, z, e, b); }
    }
  }

  lemma SameSlots(s: nat, z: Zone, e: Zone, a: nat)
    requires e.base == z.base && e.chunk == z.chunk && e.top == z.top
    ensures IsSlot(s, e, a) <==> IsSlot(s, z, a)
  {
    forall k: nat ensures Slot(s, e, k) == Slot(s, z, k) {}
  }

  lemma SlotsGrow(s: nat, z: Zone, e: Zone, a: nat)
    requires e.base == z.base && e.chunk == z.chunk && e.top == z.top + 1
    ensures IsSlot(s, e, a) <==> IsSlot(s, z, a) || a == Slot(s, z, z.top + 1)
  {
    forall k: nat ensures Slot(s, e, k) == Slot(s, z, k) {}
    if IsSlot(s, e, a) { var k: nat :| k <= e.top && a == Slot(s, e, k); assert k <= z.top ==> a == Slot(s, z, k); }
    if IsSlot(s, z, a) { var k: nat :| k <= z.top && a == Slot(s, z, k); assert a == Slot(s, e, k); }
    assert Slot(s, e, z.top + 1) == Slot(s, z, z.top + 1);
  }

  lemma GiveChunkSafe(size: nat, s: nat, z: Zone, p: nat, a: nat)
    requires ZoneOk(size, s, z) && LiveChunk(s, z, p)
    ensures ZoneOk(size, s, GiveChunk(z, p)) && z.nfree < z.max
    ensures LiveChunk(s, GiveChunk(z, p), a) <==> LiveChunk(s, z, a) && a != p
  {
    var e := GiveChunk(z, p);
    DistinctConcat([p], z.free);
    forall b ensures IsSlot(s, e, b) <==> IsSlot(s, z, b) { SameSlots(s, z, e, b); }
    if z.nfree >= z.max { WholeIsFree(size, s, z, p); }
  }

  // The addresses of the first n chunks
  ghost function SlotSet(s: nat, z: Zone, n: nat): (r: set<nat>)
    requires z.chunk > 0
    ensures |r| == n
    ensures forall a :: a in r <==> exists k: nat :: k < n && a == Slot(s, z, k)
  {
    if n == 0 then {}
    else
      var rest := SlotSet(s, z, n - 1);
      var a := Slot(s, z, n - 1);
      assert a !in rest by { forall k: nat | k < n - 1 ensures Slot(s, z, k) < a { SlotsApart(s, z, k, n - 1); } }
      rest + {a}
  }

  // When the counter says that a zone is wholly free, no chunk of it is live.
  lemma WholeIsFree(size: nat, s: nat, z: Zone, a: nat)
    requires ZoneOk(size, s, z) && z.nfree >= z.max
    ensures !LiveChunk(s, z, a) && Whole(z)
  {
    var all := SlotSet(s, z, z.top + 1);
    var f := Elements(z.free);
    forall b | b in f ensures b in all { assert IsSlot(s, z, b); }
    DistinctSize(z.free);
    SubsetSize(f, all);
    if IsSlot(s, z, a) { assert a in all; }
  }
}

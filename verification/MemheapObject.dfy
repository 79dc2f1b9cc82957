// The ring heap object (src/memheap.c): headers, rings, counters and the bytes of the pool.
module MemheapObject {
  import opened Options
  import opened Lists
  import opened Blocks
  import opened BlockLinks
  import opened Bytes
  import opened MemheapModel
  import opened MemheapProperties
  import opened MemheapRings
  import opened MemheapBytes

  class Memheap {
    const pool: nat
    var hdr: map<nat, Header>
    var nf: map<nat, nat>
    var pf: map<nat, nat>
    var available: nat
    var maxUsed: nat
    var bytes: seq<Byte>
    ghost var s: State
    // During an operation: the blocks whose contents it must leave alone, and the bytes it began with
    ghost var guard: set<Block>
    ghost var before: seq<Byte>

    // The list header is no offset of the pool; 'pool' stands for it.
    ghost predicate Valid() reads this {
      && Inv(s) && |bytes| == pool && s.pool == pool && s.available == available && s.maxUsed == maxUsed
      && BlockRing(hdr, s.blocks, pool - HEAD) && Hooked(nf, pf, Closed(s.free, pool))
    }

    // rt_memheap_init
    constructor (pool: nat)
      requires 2 * HEAD + LEAST <= pool < RANGE
      ensures Valid() && s == Init(pool)
    {
      this.pool := pool;
      hdr := map[0 := Header(pool - HEAD, pool - HEAD, false), pool - HEAD := Header(0, 0, true)];
      nf, pf := map[pool := 0, 0 := pool], map[pool := 0, 0 := pool];
      available, maxUsed := pool - 2 * HEAD, 2 * HEAD;
      bytes := seq(pool, _ => 0);
      s, guard, before := Init(pool), {}, [];
      new;
      InitSafe(pool);
    }

    ghost predicate Guarded() reads this`bytes, this`guard, this`before {
      |bytes| == pool && Intact(guard, before, bytes)
    }

    // One word of the header at p; the list header lies outside the pool.
    method PutWord(p: nat, off: nat, v: nat)
      requires Guarded() && Clear(guard, p) && off + 4 <= HEAD
      modifies this`bytes
      ensures Guarded()
    {
      if p + off + 4 <= |bytes| {
        WriteIntact(guard, before, bytes, p, off, Little(v, 4));
        bytes := Written(bytes, p + off, Little(v, 4));
      }
    }

    // magic, which tells used from free, next and prev
    method SetHeader(p: nat, h: Header)
      requires Guarded() && Clear(guard, p)
      modifies this`hdr, this`bytes
      ensures Guarded() && hdr == old(hdr)[p := h]
    {
      PutWord(p, 0, if h.used then 0x1ea0_1ea1 else 0x1ea0_1ea0);
      PutWord(p, 8, h.next);
      PutWord(p, 12, h.prev);
      hdr := hdr[p := h];
    }

    method SetNextFree(p: nat, q: nat)
      requires Guarded() && Clear(guard, p)
      modifies this`nf, this`bytes
      ensures Guarded() && nf == old(nf)[p := q]
    {
      PutWord(p, 16, q);
      nf := nf[p := q];
    }

    method SetPrevFree(p: nat, q: nat)
      requires Guarded() && Clear(guard, p)
      modifies this`pf, this`bytes
      ensures Guarded() && pf == old(pf)[p := q]
    {
      PutWord(p, 20, q);
      pf := pf[p := q];
    }

    // Out of the free ring
    method RingRemove(x: nat, ghost free: seq<nat>)
      requires Hooked(nf, pf, Closed(free, pool)) && Distinct(free) && pool !in free && x in free
      requires Guarded() && RingClear(guard, free, pool)
      modifies this`nf, this`pf, this`bytes
      ensures Guarded() && Hooked(nf, pf, Closed(Without(free, x), pool))
    {
      Unhook(nf, pf, free, pool, x);
      InRing(nf, pf, free, pool, x);
      var next, prev := nf[x], pf[x];
      SetPrevFree(next, prev);
      SetNextFree(prev, next);
    }

    // To the front of the free ring
    method RingInsert(x: nat, ghost free: seq<nat>)
      requires Hooked(nf, pf, Closed(free, pool)) && Distinct(free) && pool !in free && x !in free && x != pool
      requires Guarded() && RingClear(guard, free, pool) && Clear(guard, x)
      modifies this`nf, this`pf, this`bytes
      ensures Guarded() && Hooked(nf, pf, Closed([x] + free, pool))
    {
      HookFirst(nf, pf, free, pool, x);
      FirstInRing(nf, pf, free, pool);
      SetNextFree(x, nf[pool]);
      SetPrevFree(x, pool);
      SetPrevFree(nf[pool], x);
      SetNextFree(pool, x);
    }

    // A free block is cut off block i at 'at'.
    method CarveLinks(ptr: nat, at: nat, ghost i: nat, ghost bs: seq<Block>)
      requires pool >= HEAD && BlockRing(hdr, bs, pool - HEAD) && Tiles(bs, pool - HEAD)
      requires i < |bs| && ptr == bs[i].start && ptr < at < bs[i].next
      requires Guarded() && Clear(guard, ptr) && Clear(guard, at) && Clear(guard, bs[i].next)
      modifies this`hdr, this`bytes
      ensures Guarded() && BlockRing(hdr, Replace(bs, i, 1, Halves(bs[i], at)), pool - HEAD)
    {
      ghost var hdr0 := hdr;
      Neighbours(hdr, bs, pool - HEAD, i);
      var next := hdr[ptr].next;
      SetHeader(at, Header(next, ptr, false));
      SetHeader(next, hdr[next].(prev := at));
      SetHeader(ptr, hdr[ptr].(next := at));
      CarveRing(hdr0, hdr, bs, pool - HEAD, i, at);
    }

    // Block i takes in its successor.
    method MergeLinks(ptr: nat, ghost i: nat, ghost bs: seq<Block>)
      requires pool >= HEAD && BlockRing(hdr, bs, pool - HEAD) && Tiles(bs, pool - HEAD)
      requires i + 1 < |bs| && ptr == bs[i].start
      requires Guarded() && Clear(guard, ptr) && Clear(guard, bs[i + 1].next)
      modifies this`hdr, this`bytes
      ensures Guarded()
      ensures BlockRing(hdr, Replace(bs, i, 2, [Block(bs[i].start, bs[i + 1].next, bs[i].used)]), pool - HEAD)
    {
      ghost var hdr0 := hdr;
      Neighbours(hdr, bs, pool - HEAD, i);
      Neighbours(hdr, bs, pool - HEAD, i + 1);
      assert bs[i].next == bs[i + 1].start;
      var next := hdr[hdr[ptr].next].next;
      SetHeader(next, hdr[next].(prev := ptr));
      SetHeader(ptr, hdr[ptr].(next := next));
      JoinRing(hdr0, hdr, bs, pool - HEAD, i);
    }

    method MarkLinks(ptr: nat, used: bool, ghost i: nat, ghost bs: seq<Block>)
      requires pool >= HEAD && BlockRing(hdr, bs, pool - HEAD) && Tiles(bs, pool - HEAD)
      requires i < |bs| && ptr == bs[i].start && Guarded() && Clear(guard, ptr)
      modifies this`hdr, this`bytes
      ensures Guarded() && BlockRing(hdr, Replace(bs, i, 1, [bs[i].(used := used)]), pool - HEAD)
    {
      Neighbours(hdr, bs, pool - HEAD, i);
      ghost var hdr0 := hdr;
      SetHeader(ptr, hdr[ptr].(used := used));
      MarkRing(hdr0, hdr, bs, pool - HEAD, i, used);
    }

    // The counters when bytes are taken
    method Charge(less: nat)
      requires less <= available <= pool
      modifies this`available, this`maxUsed
      ensures available == old(available) - less
      ensures maxUsed == if pool > old(maxUsed) + available then pool - available else old(maxUsed)
    {
      available := available - less;
      if pool - available > maxUsed { maxUsed := pool - available; }
    }

    // The links when free block i is taken
    method TakeLinks(ptr: nat, want: nat, have: nat, ghost i: nat, ghost bs: seq<Block>)
      requires pool >= HEAD && BlockRing(hdr, bs, pool - HEAD) && Tiles(bs, pool - HEAD)
      requires i < |bs| && ptr == bs[i].start && Fits(bs[i], want) && have == Payload(bs[i])
      requires Guarded() && EndsClear(guard, bs) && (have >= want + HEAD + LEAST ==> Clear(guard, ptr + HEAD + want))
      modifies this`hdr, this`bytes
      ensures Guarded() && BlockRing(hdr, Replace(bs, i, 1, Carved(bs[i], want)), pool - HEAD)
    {
      hide Intact, Clear;
      if have >= want + HEAD + LEAST {
        var at := ptr + HEAD + want;
        CarveThenMark(bs, i, at);
        HalvesTile(bs, pool - HEAD, i, at);
        CarveLinks(ptr, at, i, bs);
        MarkLinks(ptr, true, i, Replace(bs, i, 1, Halves(bs[i], at)));
      } else {
        MarkLinks(ptr, true, i, bs);
      }
    }

    // The free ring when a block is taken, and its tail inserted if it is split
    method TakeRing(ptr: nat, at: nat, split: bool, ghost free: seq<nat>)
      requires Hooked(nf, pf, Closed(free, pool)) && Distinct(free) && pool !in free && ptr in free
      requires split ==> at !in free && at != pool && Clear(guard, at)
      requires Guarded() && RingClear(guard, free, pool)
      modifies this`nf, this`pf, this`bytes
      ensures Guarded() && Hooked(nf, pf, Closed(Ringed(free, Some(ptr), if split then Some(at) else None), pool))
    {
      RingRemove(ptr, free);
      if split { RingInsert(at, Without(free, ptr)); }
    }

    // rt_memheap_alloc once a block is found
    method TakeBlock(ptr: nat, want: nat, ghost i: nat)
      requires Valid() && i < |s.blocks| && ptr == s.blocks[i].start && Fits(s.blocks[i], want)
      modifies this
      ensures Valid() && s == TakeAt(old(s), i, want) && Intact(UsedBlocks(old(s).blocks), old(bytes), bytes)
    {
      hide Inv, BlockRing, Hooked, Intact, Clear, EndsClear, RingClear, TakeAt, UsedBlocks, TakePlan;
      ghost var e := TakeAt(s, i, want);
      guard, before := UsedBlocks(s.blocks), bytes;
      IntactSelf(guard, bytes);
      TakeClear(s, i, ptr + HEAD + want);
      var have := Span(ptr, i);
      var split := have >= want + HEAD + LEAST;
      var less := if split then want + HEAD else have;
      TakeSafe(s, i, want);
      PlanTake(s, i, want, less, split, e);
      TakeCommit(ptr, want, have, less, split, i, e);
    }

    // MEMITEM_SIZE of block i
    method Span(ptr: nat, ghost i: nat) returns (have: nat)
      requires Valid() && i < |s.blocks| && ptr == s.blocks[i].start
      ensures have == Payload(s.blocks[i]) && ptr + HEAD + have == s.blocks[i].next
    {
      Neighbours(hdr, s.blocks, pool - HEAD, i);
      Bounds(s.blocks, pool - HEAD, i);
      have := hdr[ptr].next - ptr - HEAD;
    }

    method Successor(ptr: nat, ghost i: nat) returns (next: nat)
      requires Valid() && i < |s.blocks| && ptr == s.blocks[i].start
      ensures RightFree(s.blocks, i) ==> next == s.blocks[i + 1].start
    {
      Neighbours(hdr, s.blocks, pool - HEAD, i);
      next := hdr[ptr].next;
    }

    // The writes of the taking branch
    method TakeCommit(ptr: nat, want: nat, have: nat, less: nat, split: bool, ghost i: nat, ghost e: State)
      requires Valid() && i < |s.blocks| && ptr == s.blocks[i].start && Fits(s.blocks[i], want)
      requires have == Payload(s.blocks[i]) && TakePlan(s, i, want, less, split, e)
      requires Guarded() && EndsClear(guard, s.blocks) && RingClear(guard, s.free, pool)
      requires split ==> Clear(guard, ptr + HEAD + want)
      modifies this`hdr, this`nf, this`pf, this`bytes, this`available, this`maxUsed, this`s
      ensures Guarded() && s == e && e.available == available && e.maxUsed == maxUsed
      ensures BlockRing(hdr, e.blocks, pool - HEAD) && Hooked(nf, pf, Closed(e.free, pool))
    {
      hide Coalesced, BlockRing, Hooked, FreeSum, Roomy, Carved, Replace, Ringed, Intact, Clear, EndsClear, RingClear;
      TakeLinks(ptr, want, have, i, s.blocks);
      TakeRing(ptr, ptr + HEAD + want, split, s.free);
      Charge(less);
      s := e;
    }

    // The search loop of rt_memheap_alloc along the free ring
    method Search(want: nat) returns (freeSize: nat, ptr: nat, ghost fit: Option<nat>)
      requires Valid() && want >= LEAST
      ensures fit == RingFit(s.blocks, s.free, want) && (freeSize >= want <==> fit.Some?)
      ensures fit.Some? ==> fit.value < |s.blocks| && ptr == s.blocks[fit.value].start
    {
      hide Inv, BlockRing, Hooked, Hook;
      ghost var bs, free, k: nat, i: nat := s.blocks, s.free, 0, 0;
      FirstInRing(nf, pf, free, pool);
      fit := RingFit(bs, free, want);
      ptr, freeSize := nf[pool], 0;
      while ptr != pool && freeSize < want
        invariant k <= |free| && ptr == RingAt(free, pool, k)
        invariant freeSize < want ==> fit == RingFit(bs, free[k..], want)
        invariant freeSize >= want ==> k < |free| && fit == Some(i) && i < |bs| && bs[i].start == ptr
        decreases |free| - k, want - freeSize
      {
        i := IndexOf(bs, ptr);
        FreeHeader(s, hdr, nf, pf, k, i);
        RingFitStep(bs, free, k, want, i);
        freeSize := hdr[ptr].next - ptr - HEAD;
        if freeSize < want {
          ptr := nf[ptr];
          k := k + 1;
        }
      }
      if freeSize < want { NotTheList(s, k); }
    }

    // rt_memheap_alloc
    method AllocMem(size: nat) returns (p: Option<nat>)
      requires Valid() && size < RANGE
      modifies this
      ensures Valid() && s == Alloc(old(s), size).state && p == Alloc(old(s), size).ptr
      ensures Intact(UsedBlocks(old(s).blocks), old(bytes), bytes)
    {
      var want := if Align(size) < LEAST then LEAST else Align(size);
      if want >= available { return None; }
      var freeSize, ptr, fit := Search(want);
      AllocIs(s, size, fit, Alloc(s, size));
      if freeSize < want { return None; }
      TakeBlock(ptr, want, fit.value);
      p := Some(ptr + HEAD);
    }

    // The links of rt_memheap_free: the merge to the left, after the block is marked free
    method FreeLeft(ptr: nat, ghost i: nat, ghost bs: seq<Block>) returns (left: bool, header: nat)
      requires pool >= HEAD && i < |bs| && ptr == bs[i].start
      requires BlockRing(hdr, SetFree(bs, i), pool - HEAD) && Tiles(SetFree(bs, i), pool - HEAD)
      requires Guarded() && EndsClear(guard, bs)
      modifies this`hdr, this`bytes
      ensures Guarded() && BlockRing(hdr, LeftJoined(bs, i), pool - HEAD)
      ensures left == LeftFree(bs, i) && header == bs[Lo(bs, i)].start
    {
      ghost var f := SetFree(bs, i);
      FreedSteps(bs, i, f);
      Neighbours(hdr, f, pool - HEAD, i);
      header := ptr;
      left := !hdr[hdr[ptr].prev].used;
      if left {
        header := hdr[ptr].prev;
        MergeLinks(header, i - 1, f);
      }
    }

    // The merge to the right
    method FreeRight(header: nat, ghost i: nat, ghost bs: seq<Block>) returns (right: bool, gone: nat)
      requires pool >= HEAD && i < |bs| && header == bs[Lo(bs, i)].start
      requires BlockRing(hdr, LeftJoined(bs, i), pool - HEAD) && Tiles(LeftJoined(bs, i), pool - HEAD)
      requires Guarded() && EndsClear(guard, bs)
      modifies this`hdr, this`bytes
      ensures Guarded() && BlockRing(hdr, Merge(bs, i), pool - HEAD)
      ensures right == RightFree(bs, i) && (right ==> gone == bs[i + 1].start)
    {
      ghost var g, lo := LeftJoined(bs, i), Lo(bs, i);
      JoinedSteps(bs, i, g, lo);
      Neighbours(hdr, g, pool - HEAD, lo);
      gone := hdr[header].next;
      right := !hdr[gone].used;
      if right { MergeLinks(header, lo, g); }
    }

    // All links of rt_memheap_free
    method FreeLinks(ptr: nat, ghost i: nat, ghost bs: seq<Block>) returns (left: bool, right: bool, gone: nat)
      requires pool >= HEAD && BlockRing(hdr, bs, pool - HEAD) && Tiles(bs, pool - HEAD)
      requires i < |bs| && ptr == bs[i].start && Guarded() && EndsClear(guard, bs)
      modifies this`hdr, this`bytes
      ensures Guarded() && BlockRing(hdr, Merge(bs, i), pool - HEAD)
      ensures left == LeftFree(bs, i) && right == RightFree(bs, i) && (right ==> gone == bs[i + 1].start)
    {
      StepsTile(bs, pool - HEAD, i);
      MarkLinks(ptr, false, i, bs);
      hide Tiles, BlockRing, LeftJoined, Merge, Replace;
      var header;
      left, header := FreeLeft(ptr, i, bs);
      right, gone := FreeRight(header, i, bs);
    }

    // The free ring after rt_memheap_free of a used block
    method FreeRing(ptr: nat, left: bool, right: bool, gone: nat, ghost free: seq<nat>)
      requires Hooked(nf, pf, Closed(free, pool)) && Distinct(free) && pool !in free && ptr !in free && ptr != pool
      requires right ==> gone in free
      requires Guarded() && RingClear(guard, free, pool) && Clear(guard, ptr)
      modifies this`nf, this`pf, this`bytes
      ensures Guarded()
      ensures var rest := if right then Without(free, gone) else free;
              Hooked(nf, pf, Closed(if left then rest else [ptr] + rest, pool))
    {
      if right { RingRemove(gone, free); }
      if !left { RingInsert(ptr, if right then Without(free, gone) else free); }
    }

    // rt_memheap_free of live block i
    method FreeBlock(ptr: nat, ghost i: nat)
      requires Valid() && i < |s.blocks| && ptr == s.blocks[i].start && s.blocks[i].used
      modifies this
      ensures Valid() && s == FreeAll(old(s), i) && Intact(UsedBlocks(old(s).blocks), old(bytes), bytes)
    {
      hide Inv, BlockRing, Hooked, Intact, Clear, EndsClear, RingClear, FreeAll, UsedBlocks, FreePlan;
      ghost var e := FreeAll(s, i);
      guard, before := UsedBlocks(s.blocks), bytes;
      IntactSelf(guard, bytes);
      FreeSpots(s);
      FreeReady(s, i, e);
      FreeCommit(ptr, i, e);
    }

    method FreeCommit(ptr: nat, ghost i: nat, ghost e: State)
      requires Valid() && i < |s.blocks| && ptr == s.blocks[i].start && s.blocks[i].used && FreePlan(s, i, e)
      requires Guarded() && EndsClear(guard, s.blocks) && RingClear(guard, s.free, pool)
      modifies this`hdr, this`nf, this`pf, this`bytes, this`available, this`maxUsed, this`s
      ensures Guarded() && s == e && e.available == available && e.maxUsed == maxUsed
      ensures BlockRing(hdr, e.blocks, pool - HEAD) && Hooked(nf, pf, Closed(e.free, pool))
    {
      hide BlockRing, Hooked, Merge, Coalesced, FreeSum, Tiles, Roomy, Intact, Clear, RingClear;
      var have := Span(ptr, i);
      var left, right, gone := FreeLinks(ptr, i, s.blocks);
      available := available + have;
      if left { available := available + HEAD; }
      if right { available := available + HEAD; }
      FreeRing(ptr, left, right, gone, s.free);
      s := e;
    }

    // The free ring after a change in place: a merged neighbour leaves, the remainder comes first.
    method RecutRing(at: nat, right: bool, gone: nat, ghost free: seq<nat>, ghost after: seq<nat>)
      requires Hooked(nf, pf, Closed(free, pool)) && Distinct(free) && pool !in free && at != pool
      requires (right ==> gone in free) && at !in (if right then Without(free, gone) else free)
      requires after == Ringed(free, if right then Some(gone) else None, Some(at))
      requires Guarded() && RingClear(guard, free, pool) && Clear(guard, at)
      modifies this`nf, this`pf, this`bytes
      ensures Guarded() && Hooked(nf, pf, Closed(after, pool))
    {
      if right { RingRemove(gone, free); }
      RingInsert(at, if right then Without(free, gone) else free);
    }

    // The links when block i grows into its free successor
    method GrowLinks(ptr: nat, at: nat, ghost i: nat, ghost bs: seq<Block>, ghost after: seq<Block>)
      requires pool >= HEAD && BlockRing(hdr, bs, pool - HEAD) && Layout(bs, pool - HEAD)
      requires Recuttable(bs, i, at) && RightFree(bs, i) && ptr == bs[i].start && after == Recut(bs, i, at)
      requires Guarded() && EndsClear(guard, bs) && Clear(guard, at)
      modifies this`hdr, this`bytes
      ensures Guarded() && BlockRing(hdr, after, pool - HEAD)
    {
      ghost var g := Replace(bs, i, 2, [Block(bs[i].start, bs[i + 1].next, true)]);
      GrowSteps(bs, pool - HEAD, i, at, g);
      MergeLinks(ptr, i, bs);
      CarveLinks(ptr, at, i, g);
    }

    // rt_memheap_realloc into the free successor
    method GrowBlock(ptr: nat, want: nat, have: nat, ghost i: nat, ghost e: State)
      requires Valid() && Recuttable(s.blocks, i, ptr + HEAD + want) && RightFree(s.blocks, i)
      requires ptr == s.blocks[i].start && want > have && GrowPlan(s, i, ptr + HEAD + want, want - have, e)
      requires Guarded() && EndsClear(guard, s.blocks) && RingClear(guard, s.free, pool)
      requires Clear(guard, ptr + HEAD + want)
      modifies this`hdr, this`nf, this`pf, this`bytes, this`available, this`maxUsed, this`s
      ensures Guarded() && s == e && e.available == available && e.maxUsed == maxUsed
      ensures BlockRing(hdr, e.blocks, pool - HEAD) && Hooked(nf, pf, Closed(e.free, pool))
    {
      hide Coalesced, FreeSum, Recut, Ringed, Payload, Tiles, Roomy, BlockRing, Hooked, Intact, Clear, EndsClear,
        RingClear;
      var at := ptr + HEAD + want;
      var next := Successor(ptr, i);
      Charge(want - have);
      GrowLinks(ptr, at, i, s.blocks, e.blocks);
      RecutRing(at, true, next, s.free, e.free);
      s := e;
    }

    // The links when block i shrinks: the free remainder is cut off ...
    method ShrinkLinks(ptr: nat, at: nat, ghost i: nat, ghost bs: seq<Block>, ghost after: seq<Block>)
      returns (right: bool, gone: nat, size: nat)
      requires pool >= HEAD && BlockRing(hdr, bs, pool - HEAD) && Layout(bs, pool - HEAD)
      requires Recuttable(bs, i, at) && at + SPAN <= bs[i].next && ptr == bs[i].start && after == Recut(bs, i, at)
      requires Guarded() && EndsClear(guard, bs) && Clear(guard, at)
      modifies this`hdr, this`bytes
      ensures Guarded() && BlockRing(hdr, after, pool - HEAD) && at in hdr && hdr[at].next == Rest(bs, i, at).next
      ensures right == RightFree(bs, i)
      ensures right ==> gone == bs[i + 1].start && size == Payload(bs[i + 1])
    {
      ghost var g := Replace(bs, i, 1, Halves(bs[i], at));
      HalvesTile(bs, pool - HEAD, i, at);
      CarveLinks(ptr, at, i, bs);
      right, gone, size := ShrinkRight(at, i, bs, g, after);
      RecutHeader(hdr, bs, pool - HEAD, i, at);
    }

    // ... and takes in a free successor.
    method ShrinkRight(at: nat, ghost i: nat, ghost bs: seq<Block>, ghost g: seq<Block>, ghost after: seq<Block>)
      returns (right: bool, gone: nat, size: nat)
      requires pool >= HEAD && Tiles(bs, pool - HEAD) && Roomy(bs) && Recuttable(bs, i, at) && at + SPAN <= bs[i].next
      requires BlockRing(hdr, g, pool - HEAD) && g == Replace(bs, i, 1, Halves(bs[i], at)) && after == Recut(bs, i, at)
      requires Guarded() && EndsClear(guard, bs) && Clear(guard, at)
      modifies this`hdr, this`bytes
      ensures Guarded() && BlockRing(hdr, after, pool - HEAD)
      ensures right == RightFree(bs, i)
      ensures right ==> gone == bs[i + 1].start && size == Payload(bs[i + 1])
    {
      hide Intact, Clear;
      ShrinkSteps(bs, pool - HEAD, i, at, g);
      Neighbours(hdr, g, pool - HEAD, i + 1);
      gone, size := hdr[at].next, 0;
      right := !hdr[gone].used;
      if right {
        size := hdr[gone].next - gone - HEAD;
        MergeLinks(at, i + 1, g);
      }
    }

    // rt_memheap_realloc to a smaller size
    method ShrinkBlock(ptr: nat, want: nat, ghost i: nat, ghost e: State)
      requires Valid() && i < |s.blocks| && ptr == s.blocks[i].start && RecutPlan(s, i, ptr + HEAD + want, e)
      requires Recuttable(s.blocks, i, ptr + HEAD + want) && ptr + HEAD + want + SPAN <= s.blocks[i].next
      requires var rest := Rest(s.blocks, i, ptr + HEAD + want);
               rest.next == ptr + HEAD + want + HEAD + Payload(rest)
      requires e.available >= available
      requires Guarded() && EndsClear(guard, s.blocks) && RingClear(guard, s.free, pool)
      requires Clear(guard, ptr + HEAD + want)
      modifies this`hdr, this`nf, this`pf, this`bytes, this`available, this`maxUsed, this`s
      ensures Guarded() && s == e && e.available == available && e.maxUsed == maxUsed
      ensures BlockRing(hdr, e.blocks, pool - HEAD) && Hooked(nf, pf, Closed(e.free, pool))
    {
      hide Coalesced, FreeSum, Recut, Rest, Payload, Ringed, Roomy, Intact, Clear, EndsClear, RingClear;
      var at := ptr + HEAD + want;
      var right, gone, size := ShrinkLinks(ptr, at, i, s.blocks, e.blocks);
      if right { available := available - size; }
      RecutRing(at, right, gone, s.free, e.free);
      available := available + (hdr[at].next - at - HEAD);
      s := e;
    }

    method GrowMem(ptr: nat, want: nat, have: nat, ghost i: nat, ghost e: State)
      requires Valid() && i < |s.blocks| && ptr == s.blocks[i].start && s.blocks[i].used && Sane(want)
      requires want > have == Payload(s.blocks[i]) && GrowsInPlace(s.blocks, i, want)
      requires e == RecutAt(s, i, ptr + HEAD + want)
      modifies this
      ensures Valid() && s == e && Intact(UsedBlocks(old(s).blocks), old(bytes), bytes)
    {
      hide Inv, BlockRing, Hooked, GrowPlan, RecutAt, Intact, Clear;
      guard, before := UsedBlocks(s.blocks), bytes;
      IntactSelf(guard, bytes);
      GrowReady(s, i, want, ptr + HEAD + want, e);
      GrowClear(s, i, want, ptr + HEAD + want);
      GrowBlock(ptr, want, have, i, e);
    }

    method ShrinkMem(ptr: nat, want: nat, ghost i: nat, ghost e: State)
      requires Valid() && i < |s.blocks| && ptr == s.blocks[i].start && s.blocks[i].used && Sane(want)
      requires want + HEAD + LEAST < Payload(s.blocks[i]) && e == RecutAt(s, i, ptr + HEAD + want)
      modifies this
      ensures Valid() && s == e
      ensures Intact(UsedBlocks(old(s).blocks) - {old(s).blocks[i]} + {Block(ptr, ptr + HEAD + want, true)},
          old(bytes), bytes)
    {
      hide Inv, BlockRing, Hooked, RecutPlan, RecutAt, Intact, Clear;
      guard, before := UsedBlocks(s.blocks) - {s.blocks[i]} + {Block(ptr, ptr + HEAD + want, true)}, bytes;
      IntactSelf(guard, bytes);
      ShrinkReady(s, i, want, ptr + HEAD + want, e);
      ShrinkClear(s, i, ptr + HEAD + want);
      ShrinkBlock(ptr, want, i, e);
    }

    // rt_memcpy between two payloads that do not overlap
    method Copy(to: nat, from: nat, n: nat)
      requires Valid() && to + n <= |bytes| && from + n <= |bytes| && (to + n <= from || from + n <= to)
      modifies this`bytes
      ensures Valid() && OnlyCopied(old(bytes), bytes, from, to, n)
    {
      hide Inv, BlockRing, Hooked;
      for k := 0 to n
        invariant OnlyCopied(old(bytes), bytes, from, to, k)
      {
        bytes := bytes[to + k := bytes[from + k]];
      }
    }

    // A new block, the old contents, and the old block freed
    method MoveMem(ptr: nat, want: nat, have: nat, ghost i: nat, ghost m: Result) returns (q: Option<nat>)
      requires Valid() && i < |s.blocks| && ptr == s.blocks[i].start && s.blocks[i].used && LEAST <= want < RANGE
      requires want % 4 == 0 && have == Payload(s.blocks[i]) && m == Moved(s, i, want)
      modifies this
      ensures Valid() && s == m.state && q == m.ptr
      ensures Preserved(UsedBlocks(old(s).blocks), old(s).blocks[i], want, q, old(bytes), bytes)
    {
      hide Inv, BlockRing, Hooked, UsedBlocks, Intact, Carried, OnlyCopied, Moved, Alloc, FreeAll;
      ghost var live, b, m1 := UsedBlocks(s.blocks), s.blocks[i], Alloc(s, want);
      ghost var k, c := IndexOf(m1.state.blocks, ptr), b;
      MovedIs(s, i, want, m, m1, k);
      if m1.ptr.Some? { k, c := MoveReady(s, i, want, m1); }
      q := AllocMem(want);
      if q.Some? {
        ghost var a1 := bytes;
        Copy(q.value, ptr + HEAD, if have < want then have else want);
        ghost var a2 := bytes;
        FreeBlock(ptr, k);
        IntactLess(live + {c}, live - {b} + {c}, a2, bytes);
        MovePreserved(live, b, c, want, Common(b, want), old(bytes), a1, a2, bytes);
      }
    }

    // The sizes of block i and of a free successor
    method Measure(ptr: nat, ghost i: nat) returns (have: nat, right: bool, nextSize: nat)
      requires Valid() && i < |s.blocks| && ptr == s.blocks[i].start
      ensures have == Payload(s.blocks[i]) && right == RightFree(s.blocks, i)
      ensures right ==> nextSize == Payload(s.blocks[i + 1])
    {
      Neighbours(hdr, s.blocks, pool - HEAD, i);
      PayloadsFit(s.blocks, i);
      var next := hdr[ptr].next;
      have, nextSize := next - ptr - HEAD, 0;
      right := !hdr[next].used;
      if right { nextSize := hdr[next].next - next - HEAD; }
    }

    // rt_memheap_realloc of live block i to an aligned size
    method ResizeMem(ptr: nat, want: nat, ghost i: nat, ghost m: Result) returns (q: Option<nat>)
      requires Valid() && i < |s.blocks| && ptr == s.blocks[i].start && s.blocks[i].used
      requires Harmless(s.blocks, i, want) && want % 4 == 0 && m == Resize(s, i, want)
      modifies this
      ensures Valid() && s == m.state && q == m.ptr
      ensures Preserved(UsedBlocks(old(s).blocks), old(s).blocks[i], want, q, old(bytes), bytes)
    {
      hide Inv, BlockRing, Hooked, RecutAt, Moved, RightFree, Payload, Harmless, Sane, Here, UsedBlocks, Intact,
        Preserved;
      var have, right, nextSize := Measure(ptr, i);
      ResizeCases(s, i, want);
      ghost var live, b := UsedBlocks(s.blocks), s.blocks[i];
      LiveBounds(s, i);
      if want > have {
        if right && (nextSize + have) % RANGE > (want + LEAST) % RANGE {
          GrowMem(ptr, want, have, i, m.state);
          KeepsPreserved(live, b, want, old(bytes), bytes);
          q := Some(ptr + HEAD);
        } else {
          q := MoveMem(ptr, want, have, i, m);
        }
      } else {
        if want + HEAD + LEAST < have {
          ShrinkMem(ptr, want, i, m.state);
          StaysPreserved(live, b, Block(ptr, ptr + HEAD + want, true), want, old(bytes), bytes);
        } else {
          KeepsPreserved(live, b, want, old(bytes), bytes);
        }
        q := Some(ptr + HEAD);
      }
    }

    // rt_memheap_free
    method FreeMem(p: Option<nat>)
      requires Valid() && Known(s, p)
      modifies this
      ensures Valid() && s == FreePtr(old(s), p) && Intact(UsedBlocks(old(s).blocks), old(bytes), bytes)
    {
      hide Inv, BlockRing, Hooked, FreeAll;
      if p.Some? { FreeBlock(p.value - HEAD, IndexOf(s.blocks, p.value - HEAD)); }
    }

    // rt_memheap_realloc
    method ReallocMem(p: Option<nat>, size: nat) returns (q: Option<nat>)
      requires Valid() && Known(s, p) && size < RANGE && Served(s, p, size)
      modifies this
      ensures Valid() && s == Realloc(old(s), p, size).state && q == Realloc(old(s), p, size).ptr
      ensures size > 0 && p.Some? ==>
        Preserved(UsedBlocks(old(s).blocks), old(s).blocks[IndexOf(old(s).blocks, p.value - HEAD)], Want(size), q,
            old(bytes), bytes)
      ensures size == 0 || p.None? ==> Intact(UsedBlocks(old(s).blocks), old(bytes), bytes)
    {
      hide Inv, BlockRing, Hooked, Resize, Intact, Preserved, UsedBlocks, Harmless;
      WantAligned(size);
      if size == 0 {
        FreeMem(p);
        return None;
      }
      var want := if Align(size) < LEAST then LEAST else Align(size);
      if p.None? {
        q := AllocMem(want);
      } else {
        ghost var i := IndexOf(s.blocks, p.value - HEAD);
        q := ResizeMem(p.value - HEAD, want, i, Resize(s, i, want));
      }
    }
  }
}

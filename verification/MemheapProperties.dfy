// What callers of the ring heap (src/memheap.c) can rely on.
module MemheapProperties {
  import opened Options
  import opened Lists
  import opened Blocks
  import opened MemheapModel

  // ----- rt_memheap_realloc -----

  // The test for growing in place, in 32-bit arithmetic
  predicate RoomTest(next: nat, have: nat, want: nat) { (next + have) % RANGE > (want + LEAST) % RANGE }

  // It decides whether there is room, except for sizes so large that the sum wraps: then it says
  // yes although there is none.
  lemma RoomTestExact(next: nat, have: nat, want: nat)
    requires next + have < RANGE && LEAST <= have < want < RANGE
    ensures (RoomTest(next, have, want) <==> next + have > want + LEAST) <==> want + LEAST < RANGE
  {
    if want + LEAST >= RANGE { assert (want + LEAST) % RANGE == want + LEAST - RANGE; }
  }

  lemma LiveIndex(bs: seq<Block>, end: nat, b: Block) returns (k: nat)
    requires Tiles(bs, end) && b in UsedBlocks(bs)
    ensures k == IndexOf(bs, b.start) && k < |bs| && bs[k] == b
  {
    k :| 0 <= k < |bs| && bs[k] == b;
    RingIndex(bs, end, k);
  }

  // The old block is still live after the allocation of the new one.
  lemma MoveLive(s: State, b: Block, want: nat, m: State, q: nat) returns (k: nat, c: Block)
    requires Inv(s) && b in UsedBlocks(s.blocks) && 0 < want < RANGE && Alloc(s, want) == Result(m, Some(q))
    ensures Inv(m) && k == IndexOf(m.blocks, b.start) && k < |m.blocks| && m.blocks[k] == b
    ensures UsedBlocks(m.blocks) == UsedBlocks(s.blocks) + {c} && c !in UsedBlocks(s.blocks)
    ensures c.used && q == c.start + HEAD && Want(want) <= Payload(c)
    ensures UsedBlocks(Merge(m.blocks, k)) == UsedBlocks(s.blocks) - {b} + {c}
  {
    hide Tiles, Coalesced, Merge, Alloc;
    c := AllocServes(s, want, m, q);
    k := LiveIndex(m.blocks, m.pool - HEAD, b);
    FreeUsed(m.blocks, m.pool - HEAD, k);
  }

  function Moved(s: State, i: nat, want: nat): Result
    requires i < |s.blocks|
  {
    var m := Alloc(s, want);
    var k := IndexOf(m.state.blocks, s.blocks[i].start);
    if m.ptr.Some? && k < |m.state.blocks| then Result(FreeAll(m.state, k), m.ptr) else m
  }

  // Whether rt_memheap_realloc grows block i into its successor
  predicate GrowsInPlace(bs: seq<Block>, i: nat, want: nat)
    requires i < |bs|
  {
    RightFree(bs, i) && RoomTest(Payload(bs[i + 1]), Payload(bs[i]), want)
  }

  // An address computed on 32 bits
  function Here(at: nat): nat { if at < RANGE then at else at - RANGE }

  // rt_memheap_realloc of live block i to the aligned size 'want'
  function Resize(s: State, i: nat, want: nat): Result
    requires i < |s.blocks|
  {
    var b, have := s.blocks[i], Payload(s.blocks[i]);
    if want > have && !GrowsInPlace(s.blocks, i, want) then Moved(s, i, want)
    else if want > have || want + HEAD + LEAST < have then
      Result(RecutAt(s, i, Here(b.start + HEAD + want)), Some(b.start + HEAD))
    else Result(s, Some(b.start + HEAD))
  }

  // Sizes for which the test for growing in place is right
  predicate Sane(want: nat) { LEAST <= want && want + LEAST < RANGE }

  // Requests that rt_memheap_realloc of block i serves or refuses as it should
  predicate Harmless(bs: seq<Block>, i: nat, want: nat)
    requires i < |bs|
  {
    LEAST <= want < RANGE && (Sane(want) || !RightFree(bs, i))
  }

  lemma ResizeRecuts(bs: seq<Block>, end: nat, i: nat, want: nat)
    requires Layout(bs, end) && end < RANGE && i < |bs| && bs[i].used && Sane(want)
    requires if want > Payload(bs[i]) then GrowsInPlace(bs, i, want) else want + HEAD + LEAST < Payload(bs[i])
    ensures Recuttable(bs, i, bs[i].start + HEAD + want)
  {
    Bounds(bs, end, i);
    if RightFree(bs, i) {
      assert bs[i].next == bs[i + 1].start;
      Bounds(bs, end, i + 1);
      if want > Payload(bs[i]) { RoomTestExact(Payload(bs[i + 1]), Payload(bs[i]), want); }
    }
  }

  lemma MovedSafe(s: State, i: nat, want: nat, e: Result)
    requires Inv(s) && i < |s.blocks| && s.blocks[i].used && LEAST <= want < RANGE && e == Moved(s, i, want)
    ensures Inv(e.state) && (e.ptr == None ==> e.state == s)
  {
    var m := Alloc(s, want);
    if m.ptr.Some? {
      var k, c := MoveLive(s, s.blocks[i], want, m.state, m.ptr.value);
      FreeSafe(m.state, k, e.state);
    }
  }

  // Whether rt_memheap_realloc changes block i in place
  predicate InPlace(bs: seq<Block>, i: nat, want: nat)
    requires i < |bs|
  {
    if want > Payload(bs[i]) then GrowsInPlace(bs, i, want) else want + HEAD + LEAST < Payload(bs[i])
  }

  lemma InPlaceSane(bs: seq<Block>, end: nat, i: nat, want: nat)
    requires Layout(bs, end) && end < RANGE && i < |bs| && bs[i].used && Harmless(bs, i, want) && InPlace(bs, i, want)
    ensures Sane(want) && Recuttable(bs, i, bs[i].start + HEAD + want) && bs[i].start + HEAD + want < RANGE
  {
    Bounds(bs, end, i);
    ResizeRecuts(bs, end, i, want);
    Bounds(bs, end, Hi(bs, i) - 1);
  }

  lemma InPlaceSafe(s: State, i: nat, want: nat, e: State)
    requires Inv(s) && i < |s.blocks| && s.blocks[i].used && Harmless(s.blocks, i, want) && InPlace(s.blocks, i, want)
    requires e == RecutAt(s, i, Here(s.blocks[i].start + HEAD + want))
    ensures Inv(e) && Sane(want) && Here(s.blocks[i].start + HEAD + want) == s.blocks[i].start + HEAD + want
  {
    hide Coalesced, FreeSum, RecutAt;
    InPlaceSane(s.blocks, s.pool - HEAD, i, want);
    RecutSafe(s, i, s.blocks[i].start + HEAD + want, e);
  }

  lemma ResizeSafe(s: State, i: nat, want: nat, e: Result)
    requires Inv(s) && i < |s.blocks| && s.blocks[i].used && Harmless(s.blocks, i, want) && e == Resize(s, i, want)
    ensures Inv(e.state)
    ensures e.ptr == None ==> e.state == s
  {
    hide Inv, RecutAt, Moved, GrowsInPlace;
    if InPlace(s.blocks, i, want) {
      InPlaceSafe(s, i, want, e.state);
    } else if want > Payload(s.blocks[i]) {
      MovedSafe(s, i, want, e);
    }
  }

  lemma MoveMoves(s: State, i: nat, want: nat, e: State, q: nat) returns (c: Block)
    requires Inv(s) && i < |s.blocks| && s.blocks[i].used && LEAST <= want < RANGE
    requires Moved(s, i, want) == Result(e, Some(q))
    ensures q == c.start + HEAD && c.used && Want(want) <= Payload(c) && c !in UsedBlocks(s.blocks)
    ensures UsedBlocks(e.blocks) == UsedBlocks(s.blocks) - {s.blocks[i]} + {c}
  {
    var k;
    assert s.blocks[i] in UsedBlocks(s.blocks);
    k, c := MoveLive(s, s.blocks[i], want, Alloc(s, want).state, q);
  }

  lemma GrownMoves(s: State, i: nat, want: nat, e: State) returns (c: Block)
    requires Inv(s) && i < |s.blocks| && s.blocks[i].used && Harmless(s.blocks, i, want) && InPlace(s.blocks, i, want)
    requires e == RecutAt(s, i, Here(s.blocks[i].start + HEAD + want))
    ensures c == Block(s.blocks[i].start, s.blocks[i].start + HEAD + want, true)
    ensures UsedBlocks(e.blocks) == UsedBlocks(s.blocks) - {s.blocks[i]} + {c}
  {
    hide Inv, RecutAt, InPlace, UsedBlocks;
    InPlaceSafe(s, i, want, e);
    c := Block(s.blocks[i].start, s.blocks[i].start + HEAD + want, true);
    RecutMoves(s, i, c, e);
  }

  // A successful rt_memheap_realloc puts one live block, large enough, in place of the old one; all
  // others stay where they are.
  lemma ResizeMoves(s: State, i: nat, want: nat, e: State, q: nat) returns (c: Block)
    requires Inv(s) && i < |s.blocks| && s.blocks[i].used && Harmless(s.blocks, i, want)
    requires Resize(s, i, want) == Result(e, Some(q))
    ensures q == c.start + HEAD && c.used && (want % 4 == 0 ==> want <= Payload(c))
    ensures UsedBlocks(e.blocks) == UsedBlocks(s.blocks) - {s.blocks[i]} + {c}
    ensures c.start == s.blocks[i].start || c !in UsedBlocks(s.blocks)
  {
    hide Inv, RecutAt, Moved, GrowsInPlace, Sane, RightFree;
    var b := s.blocks[i];
    assert b in UsedBlocks(s.blocks);
    if InPlace(s.blocks, i, want) {
      c := GrownMoves(s, i, want, e);
    } else if want > Payload(b) {
      c := MoveMoves(s, i, want, e, q);
    } else {
      c := b;
    }
  }

  lemma RecutMoves(s: State, i: nat, c: Block, e: State)
    requires Inv(s) && i < |s.blocks| && s.blocks[i].used && c == Block(s.blocks[i].start, c.next, true)
    requires e == RecutAt(s, i, c.next)
    ensures UsedBlocks(e.blocks) == UsedBlocks(s.blocks) - {s.blocks[i]} + {c}
  {
    RecutUsed(s.blocks, s.pool - HEAD, i, c.next, c);
  }

  // ----- where rt_memheap_realloc breaks the heap -----

  lemma PayloadSmall(bs: seq<Block>, end: nat, i: nat)
    requires Layout(bs, end) && i < |bs|
    ensures Payload(bs[i]) + HEAD <= end
  {
    Bounds(bs, end, i);
  }

  lemma LittleAvailable(s: State)
    requires Inv(s)
    ensures s.available + HEAD <= s.pool
  {
    SpansAddUp(s.blocks, s.pool - HEAD);
  }

  // A request that the room test gets wrong exceeds all free memory.
  lemma HugeRefused(s: State, want: nat)
    requires Inv(s) && LEAST <= want < RANGE && want % 4 == 0 && !Sane(want)
    ensures Alloc(s, want) == Result(s, None)
  {
    LittleAvailable(s);
    hide Inv, RingFit, TakeAt;
    assert s.pool < RANGE ==> Want(want) >= s.available;
    PoolBelow(s);
  }

  lemma PoolBelow(s: State)
    requires Inv(s)
    ensures s.pool < RANGE
  {}

  // A block that ends inside its own header
  lemma CutShort(s: State, i: nat, want: nat)
    requires Inv(s) && i < |s.blocks| && LEAST <= want < RANGE && !Sane(want)
    ensures !Inv(RecutAt(s, i, Here(s.blocks[i].start + HEAD + want)))
  {
    var at := Here(s.blocks[i].start + HEAD + want);
    var w := [Block(s.blocks[i].start, at, true), Rest(s.blocks, i, at)];
    ReplaceAt(s.blocks, i, Hi(s.blocks, i) - i, w);
    assert Recut(s.blocks, i, at)[i] == w[0];
  }

  // With a free successor, a size within LEAST bytes of 2^32 passes the room test: the result is
  // not NULL and the block list is broken. In all other cases the heap stays as it should be.
  lemma ResizeExact(s: State, i: nat, want: nat)
    requires Inv(s) && i < |s.blocks| && s.blocks[i].used && LEAST <= want < RANGE && want % 4 == 0
    ensures Inv(Resize(s, i, want).state) <==> Sane(want) || !RightFree(s.blocks, i)
    ensures !Sane(want) ==> (Resize(s, i, want).ptr == None <==> !RightFree(s.blocks, i))
  {
    hide Inv, RightFree, Sane, Moved, RecutAt;
    if Sane(want) || !RightFree(s.blocks, i) {
      ResizeSafe(s, i, want, Resize(s, i, want));
    }
    if !Sane(want) { HugeResize(s, i, want); }
  }

  lemma HugeResize(s: State, i: nat, want: nat)
    requires Inv(s) && i < |s.blocks| && s.blocks[i].used && LEAST <= want < RANGE && want % 4 == 0 && !Sane(want)
    ensures RightFree(s.blocks, i) ==> Resize(s, i, want).ptr.Some? && !Inv(Resize(s, i, want).state)
    ensures !RightFree(s.blocks, i) ==> Resize(s, i, want).ptr == None
  {
    hide Inv, RecutAt, RoomTest;
    PoolBelow(s);
    PayloadBelow(s, i);
    if RightFree(s.blocks, i) {
      RoomWraps(s, i, want);
      CutShort(s, i, want);
    } else {
      HugeRefused(s, want);
    }
  }

  lemma PayloadBelow(s: State, i: nat)
    requires Inv(s) && i < |s.blocks|
    ensures Payload(s.blocks[i]) + 2 * HEAD <= s.pool
  {
    PayloadSmall(s.blocks, s.pool - HEAD, i);
  }

  lemma RoomWraps(s: State, i: nat, want: nat)
    requires Inv(s) && i + 1 < |s.blocks| && LEAST <= want < RANGE && !Sane(want)
    ensures RoomTest(Payload(s.blocks[i + 1]), Payload(s.blocks[i]), want)
  {
    Bounds(s.blocks, s.pool - HEAD, i);
    Bounds(s.blocks, s.pool - HEAD, i + 1);
    assert s.blocks[i].next == s.blocks[i + 1].start;
  }

  // The requests served are exactly those after which the heap is still in order.
  lemma ReallocExact(s: State, p: Option<nat>, size: nat)
    requires Inv(s) && Known(s, p) && size < RANGE
    ensures Inv(Realloc(s, p, size).state) <==> Served(s, p, size)
  {
    hide Inv, Resize, RightFree, Want, Sane;
    WantAligned(size);
    if size > 0 && p.Some? {
      ResizeExact(s, IndexOf(s.blocks, p.value - HEAD), Want(size));
    } else {
      ReallocSafe(s, p, size, Realloc(s, p, size));
    }
  }

  lemma WantAligned(size: nat)
    requires size < RANGE
    ensures LEAST <= Want(size) < RANGE && Want(size) % 4 == 0
  {}

  // Two calls break a new heap: 12 bytes are allocated and then resized to 2^32 - 8.
  lemma TwoCallsBreak(pool: nat)
    requires 3 * HEAD + 2 * LEAST < pool < RANGE
    ensures
      var s := Alloc(Init(pool), 12);
      && s.ptr == Some(HEAD) && Inv(s.state) && Known(s.state, s.ptr)
      && var r := Realloc(s.state, s.ptr, 0xffff_fff8);
         r.ptr == Some(HEAD) && !Inv(r.state)
  {
    InitSafe(pool);
    var h := Init(pool);
    assert RingFit(h.blocks, h.free, 12) == Some(0);
    var s := Alloc(h, 12);
    assert s.state.blocks == [Block(0, HEAD + 12, true), Block(HEAD + 12, pool - HEAD, false)];
    AllocSafe(h, 12, s.state);
    ReallocExact(s.state, s.ptr, 0xffff_fff8);
    ResizeExact(s.state, 0, Want(0xffff_fff8));
  }

  // ----- conservation -----

  function UsedSpan(bs: seq<Block>): nat {
    if bs == [] then 0
    else (if bs[0].used && bs[0].start <= bs[0].next then bs[0].next - bs[0].start else 0) + UsedSpan(bs[1..])
  }

  function FreeCount(bs: seq<Block>): nat {
    if bs == [] then 0 else (if bs[0].used then 0 else 1) + FreeCount(bs[1..])
  }

  lemma {:induction false} SpansAddUp(bs: seq<Block>, end: nat)
    requires Layout(bs, end)
    ensures UsedSpan(bs) + FreeSum(bs) + HEAD * FreeCount(bs) == end
  {
    SuffixAddsUp(bs, end, 0);
    assert bs[0..] == bs;
  }

  lemma {:induction false} SuffixAddsUp(bs: seq<Block>, end: nat, i: nat)
    requires Layout(bs, end) && i < |bs|
    ensures UsedSpan(bs[i..]) + FreeSum(bs[i..]) + HEAD * FreeCount(bs[i..]) == end - bs[i].start
    decreases |bs| - i
  {
    assert bs[i..][1..] == bs[i + 1..];
    if i + 1 < |bs| {
      SuffixAddsUp(bs, end, i + 1);
      assert bs[i].next == bs[i + 1].start;
    }
  }

  // What is not available is what live blocks occupy, a header for each free block, and the tail.
  lemma Conservation(s: State)
    requires Inv(s)
    ensures s.pool - s.available == UsedSpan(s.blocks) + HEAD * FreeCount(s.blocks) + HEAD
    ensures s.pool - s.available <= s.maxUsed
  {
    SpansAddUp(s.blocks, s.pool - HEAD);
  }

  // ----- runs -----

  ghost predicate LiveAt(s: State, start: nat) {
    IndexOf(s.blocks, start) < |s.blocks| && s.blocks[IndexOf(s.blocks, start)].used
  }

  datatype Op = DoAlloc(size: nat) | DoFree(p: Option<nat>) | DoRealloc(p: Option<nat>, size: nat)

  // NULL or the pointer of a live block
  ghost predicate Known(s: State, p: Option<nat>) { p.Some? ==> p.value >= HEAD && LiveAt(s, p.value - HEAD) }

  // The requests of rt_memheap_realloc that leave the heap as it should be
  ghost predicate Served(s: State, p: Option<nat>, size: nat)
    requires Known(s, p)
  {
    size > 0 && p.Some? ==> Harmless(s.blocks, IndexOf(s.blocks, p.value - HEAD), Want(size))
  }

  ghost predicate Enabled(s: State, op: Op) {
    match op
    case DoAlloc(size) => size < RANGE
    case DoFree(p) => Known(s, p)
    case DoRealloc(p, size) => Known(s, p) && size < RANGE && Served(s, p, size)
  }

  function FreePtr(s: State, p: Option<nat>): State {
    if p.Some? && p.value >= HEAD && IndexOf(s.blocks, p.value - HEAD) < |s.blocks| then
      FreeAll(s, IndexOf(s.blocks, p.value - HEAD))
    else s
  }

  function Realloc(s: State, p: Option<nat>, size: nat): Result {
    if size == 0 then Result(FreePtr(s, p), None)
    else if p.Some? && p.value >= HEAD && IndexOf(s.blocks, p.value - HEAD) < |s.blocks| then
      Resize(s, IndexOf(s.blocks, p.value - HEAD), Want(size))
    else Alloc(s, Want(size))
  }

  function Step(s: State, op: Op): State {
    match op
    case DoAlloc(size) => Alloc(s, size).state
    case DoFree(p) => FreePtr(s, p)
    case DoRealloc(p, size) => Realloc(s, p, size).state
  }

  lemma AllocSafe(s: State, size: nat, e: State)
    requires Inv(s) && size < RANGE && e == Alloc(s, size).state
    ensures Inv(e)
  {
    if Alloc(s, size).ptr.Some? {
      var i := AllocTakes(s, size, e, Alloc(s, size).ptr.value);
      TakeSafe(s, i, Want(size));
    }
  }

  lemma FreePtrSafe(s: State, p: Option<nat>, e: State)
    requires Inv(s) && Known(s, p) && e == FreePtr(s, p)
    ensures Inv(e)
  {
    if p.Some? { FreeSafe(s, IndexOf(s.blocks, p.value - HEAD), e); }
  }

  lemma ReallocSafe(s: State, p: Option<nat>, size: nat, e: Result)
    requires Inv(s) && Known(s, p) && size < RANGE && Served(s, p, size) && e == Realloc(s, p, size)
    ensures Inv(e.state)
    ensures size > 0 && e.ptr == None ==> e.state == s
  {
    if size == 0 {
      FreePtrSafe(s, p, e.state);
    } else if p.Some? {
      ResizeSafe(s, IndexOf(s.blocks, p.value - HEAD), Want(size), e);
    } else {
      AllocSafe(s, Want(size), e.state);
    }
  }

  lemma StepSafe(s: State, op: Op, e: State)
    requires Inv(s) && Enabled(s, op) && e == Step(s, op)
    ensures Inv(e)
  {
    match op
    case DoAlloc(size) => AllocSafe(s, size, e);
    case DoFree(p) => FreePtrSafe(s, p, e);
    case DoRealloc(p, size) => ReallocSafe(s, p, size, Realloc(s, p, size));
  }

  // rt_memheap_init of a pool with room for one block
  function Init(pool: nat): State
    requires pool >= 2 * HEAD + LEAST
  {
    State(pool, [Block(0, pool - HEAD, false)], [0], pool - 2 * HEAD, 2 * HEAD)
  }

  lemma InitSafe(pool: nat)
    requires 2 * HEAD + LEAST <= pool < RANGE
    ensures Inv(Init(pool))
  {
    FreeSumOne(Init(pool).blocks[0]);
    OneFree(Init(pool).blocks[0]);
  }

  ghost predicate Runs(s: State, ops: seq<Op>, last: State)
    decreases |ops|
  {
    if ops == [] then last == s else Enabled(s, ops[0]) && Runs(Step(s, ops[0]), ops[1..], last)
  }

  // After any run the blocks tile the pool, no two free ones touch, the ring holds exactly the
  // free blocks, and the counters are right.
  lemma {:induction false} RunSafe(s: State, ops: seq<Op>, last: State)
    requires Inv(s) && Runs(s, ops, last)
    ensures Inv(last)
    decreases |ops|
  {
    if ops != [] {
      StepSafe(s, ops[0], Step(s, ops[0]));
      RunSafe(Step(s, ops[0]), ops[1..], last);
    }
  }
}

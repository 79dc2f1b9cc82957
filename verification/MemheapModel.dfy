// The memory heap with a block ring and a separate free ring (src/memheap.c).
module MemheapModel {
  import opened Options
  import opened Lists
  import opened Blocks

  // RT_MEMHEAP_SIZE for 32-bit pointers, and RT_MEMHEAP_MINIALLOC
  const HEAD: nat := 24
  const LEAST: nat := 12

  // 'free' is the ring from its header on: the block freed last comes first. The tail block at
  // pool - HEAD is always used and not among the blocks.
  datatype State = State(pool: nat, blocks: seq<Block>, free: seq<nat>, available: nat, maxUsed: nat)

  // Every block has room for its header and the least allocation.
  ghost predicate Roomy(bs: seq<Block>) { forall i :: 0 <= i < |bs| ==> bs[i].start + HEAD + LEAST <= bs[i].next }

  // MEMITEM_SIZE
  function Payload(b: Block): nat { if b.start + HEAD <= b.next then b.next - b.start - HEAD else 0 }

  function FreeSum(bs: seq<Block>): nat {
    if bs == [] then 0 else (if bs[0].used then 0 else Payload(bs[0])) + FreeSum(bs[1..])
  }

  ghost predicate Ring(free: seq<nat>, bs: seq<Block>) {
    Distinct(free) && forall p: nat :: p in free <==> FreeAt(bs, p)
  }

  ghost predicate Layout(bs: seq<Block>, end: nat) { Tiles(bs, end) && Roomy(bs) }

  ghost predicate Inv(s: State) {
    && s.pool >= HEAD && s.pool < RANGE && Layout(s.blocks, s.pool - HEAD) && Coalesced(s.blocks)
    && Ring(s.free, s.blocks)
    && s.available == FreeSum(s.blocks)
    && s.pool <= s.maxUsed + s.available
  }

  // ----- sums -----

  lemma {:induction false} FreeSumConcat(a: seq<Block>, b: seq<Block>)
    ensures FreeSum(a + b) == FreeSum(a) + FreeSum(b)
    decreases |a|
  {
    if a == [] {
      assert a + b == b;
    } else {
      assert (a + b)[1..] == a[1..] + b;
      FreeSumConcat(a[1..], b);
    }
  }

  lemma FreeSumOfParts(bs: seq<Block>, i: nat, n: nat, w: seq<Block>)
    requires i + n <= |bs|
    ensures FreeSum(bs[i..i + n]) <= FreeSum(bs)
    ensures FreeSum(Replace(bs, i, n, w)) == FreeSum(bs) - FreeSum(bs[i..i + n]) + FreeSum(w)
  {
    var a, m, z := bs[..i], bs[i..i + n], bs[i + n..];
    assert bs == a + (m + z) && Replace(bs, i, n, w) == (a + w) + z;
    FreeSumConcat(m, z);
    FreeSumConcat(a, m + z);
    FreeSumConcat(a, w);
    FreeSumConcat(a + w, z);
  }

  lemma FreeSumOne(b: Block)
    ensures FreeSum([b]) == if b.used then 0 else Payload(b)
  {
    assert [b][1..] == [];
  }

  lemma FreeSumTwo(a: Block, b: Block)
    ensures FreeSum([a, b]) == FreeSum([a]) + FreeSum([b])
  {
    assert [a, b][1..] == [b];
    FreeSumOne(a);
  }

  // ----- the free ring when blocks are replaced -----

  lemma FreeAtConcat(a: seq<Block>, b: seq<Block>, p: nat)
    ensures FreeAt(a + b, p) <==> FreeAt(a, p) || FreeAt(b, p)
  {
    if FreeAt(a, p) {
      var k :| 0 <= k < |a| && a[k].start == p && !a[k].used;
      assert (a + b)[k] == a[k];
    }
    if FreeAt(b, p) {
      var k :| 0 <= k < |b| && b[k].start == p && !b[k].used;
      assert (a + b)[|a| + k] == b[k];
    }
  }

  lemma FreeParts(bs: seq<Block>, end: nat, i: nat, j: nat, p: nat)
    requires Tiles(bs, end) && i <= j <= |bs| && FreeAt(bs[i..j], p)
    ensures !FreeAt(bs[..i], p) && !FreeAt(bs[j..], p)
  {
    var k :| 0 <= k < j - i && bs[i..j][k].start == p;
    if FreeAt(bs[..i], p) {
      var l :| 0 <= l < i && bs[..i][l].start == p;
      SameStart(bs, end, l, i + k);
    }
    if FreeAt(bs[j..], p) {
      var l :| 0 <= l < |bs| - j && bs[j..][l].start == p;
      SameStart(bs, end, j + l, i + k);
    }
  }

  lemma FreeAfter(bs: seq<Block>, end: nat, i: nat, n: nat, w: seq<Block>, p: nat)
    requires Tiles(bs, end) && i + n <= |bs|
    ensures FreeAt(Replace(bs, i, n, w), p) <==> FreeAt(w, p) || (FreeAt(bs, p) && !FreeAt(bs[i..i + n], p))
  {
    FreeInParts(bs, i, n, bs[i..i + n], p);
    FreeInParts(bs, i, n, w, p);
    assert Replace(bs, i, n, bs[i..i + n]) == bs;
    if FreeAt(bs[i..i + n], p) { FreeParts(bs, end, i, i + n, p); }
  }

  lemma FreeInParts(bs: seq<Block>, i: nat, n: nat, w: seq<Block>, p: nat)
    requires i + n <= |bs|
    ensures FreeAt(Replace(bs, i, n, w), p) <==> FreeAt(bs[..i], p) || FreeAt(w, p) || FreeAt(bs[i + n..], p)
  {
    FreeAtConcat(bs[..i], w, p);
    FreeAtConcat(bs[..i] + w, bs[i + n..], p);
  }

  // Taking out one free block and putting in at most one
  lemma RingReplaced(
      bs: seq<Block>, end: nat, i: nat, n: nat, w: seq<Block>, free: seq<nat>, out: Option<nat>, into: Option<nat>)
    requires Tiles(bs, end) && i + n <= |bs| && Ring(free, bs)
    requires forall p: nat :: FreeAt(bs[i..i + n], p) <==> out == Some(p)
    requires forall p: nat :: FreeAt(w, p) <==> into == Some(p)
    requires into.Some? && into != out ==> !FreeAt(bs, into.value)
    ensures Ring(Ringed(free, out, into), Replace(bs, i, n, w))
  {
    var r := Ringed(free, out, into);
    forall p: nat ensures p in r <==> FreeAt(Replace(bs, i, n, w), p) { FreeAfter(bs, end, i, n, w, p); }
    if into.Some? {
      var rest := if out.Some? then Without(free, out.value) else free;
      DistinctConcat([into.value], rest);
    }
  }

  function Ringed(free: seq<nat>, out: Option<nat>, into: Option<nat>): seq<nat> {
    var rest := if out.Some? then Without(free, out.value) else free;
    if into.Some? then [into.value] + rest else rest
  }

  // ----- the operations -----

  function Max(a: int, b: int): int { if a >= b then a else b }

  // A used block, and its tail as a free one if there is room
  function Carved(b: Block, want: nat): (w: seq<Block>)
    ensures w != []
  {
    var at := b.start + HEAD + want;
    if at + HEAD + LEAST <= b.next then [Block(b.start, at, true), Block(at, b.next, false)] else [b.(used := true)]
  }

  // rt_memheap_alloc once free block i is found
  function TakeAt(s: State, i: nat, want: nat): State
    requires i < |s.blocks|
  {
    var b, w := s.blocks[i], Carved(s.blocks[i], want);
    var less := if |w| == 2 then want + HEAD else Payload(b);
    var available := if less <= s.available then s.available - less else 0;
    State(s.pool, Replace(s.blocks, i, 1, w),
          Ringed(s.free, Some(b.start), if |w| == 2 then Some(w[1].start) else None),
          available, if s.pool > s.maxUsed + available then s.pool - available else s.maxUsed)
  }

  // The search along the free ring: the first block that is large enough, or None
  function RingFit(bs: seq<Block>, free: seq<nat>, want: nat): Option<nat> {
    if free == [] then None
    else
      var i := IndexOf(bs, free[0]);
      if i < |bs| && Payload(bs[i]) >= want then Some(i) else RingFit(bs, free[1..], want)
  }

  datatype Result = Result(state: State, ptr: Option<nat>)

  function Want(size: nat): nat { if Align(size) < LEAST then LEAST else Align(size) }

  function Alloc(s: State, size: nat): Result {
    var want := Want(size);
    var fit := RingFit(s.blocks, s.free, want);
    if want < s.available && fit.Some? && fit.value < |s.blocks| then
      Result(TakeAt(s, fit.value, want), Some(s.blocks[fit.value].start + HEAD))
    else Result(s, None)
  }

  // Whether the free neighbours of block i are merged with it
  predicate LeftFree(bs: seq<Block>, i: nat) { 0 < i < |bs| && !bs[i - 1].used }

  predicate RightFree(bs: seq<Block>, i: nat) { i + 1 < |bs| && !bs[i + 1].used }

  // The stretch of blocks that a free merges: [Lo, Hi)
  function Lo(bs: seq<Block>, i: nat): nat { if LeftFree(bs, i) then i - 1 else i }

  function Hi(bs: seq<Block>, i: nat): nat { if RightFree(bs, i) then i + 2 else i + 1 }

  function MergedBlock(bs: seq<Block>, i: nat): Block
    requires i < |bs|
  {
    Block(bs[Lo(bs, i)].start, bs[Hi(bs, i) - 1].next, false)
  }

  function Merge(bs: seq<Block>, i: nat): seq<Block>
    requires i < |bs|
  {
    Replace(bs, Lo(bs, i), Hi(bs, i) - Lo(bs, i), [MergedBlock(bs, i)])
  }

  // The free ring after that: a right neighbour leaves; without a left one the block comes first.
  function MergedFree(free: seq<nat>, bs: seq<Block>, i: nat): seq<nat>
    requires i < |bs|
  {
    var rest := if RightFree(bs, i) then Without(free, bs[i + 1].start) else free;
    if LeftFree(bs, i) then rest else [bs[i].start] + rest
  }

  // The headers that disappear become available.
  function Gained(bs: seq<Block>, i: nat): nat {
    (if LeftFree(bs, i) then HEAD else 0) + (if RightFree(bs, i) then HEAD else 0)
  }

  // rt_memheap_free of block i
  function FreeAll(s: State, i: nat): State
    requires i < |s.blocks|
  {
    State(s.pool, Merge(s.blocks, i), MergedFree(s.free, s.blocks, i),
          s.available + Payload(s.blocks[i]) + Gained(s.blocks, i), s.maxUsed)
  }

  // rt_memheap_realloc in place: block i ends at 'at', and what is left up to the next used block
  // becomes one free block.
  function Recut(bs: seq<Block>, i: nat, at: nat): seq<Block>
    requires i < |bs|
  {
    Replace(bs, i, Hi(bs, i) - i, [Block(bs[i].start, at, true), Rest(bs, i, at)])
  }

  function Rest(bs: seq<Block>, i: nat, at: nat): Block
    requires i < |bs|
  {
    Block(at, bs[Hi(bs, i) - 1].next, false)
  }

  function RecutFree(free: seq<nat>, bs: seq<Block>, i: nat, at: nat): seq<nat>
    requires i < |bs|
  {
    Ringed(free, if RightFree(bs, i) then Some(bs[i + 1].start) else None, Some(at))
  }

  function RecutAt(s: State, i: nat, at: nat): State
    requires i < |s.blocks|
  {
    var less := if RightFree(s.blocks, i) then Payload(s.blocks[i + 1]) else 0;
    var available := Payload(Rest(s.blocks, i, at)) + if less <= s.available then s.available - less else 0;
    State(s.pool, Recut(s.blocks, i, at), RecutFree(s.free, s.blocks, i, at), available,
          if s.pool > s.maxUsed + available then s.pool - available else s.maxUsed)
  }

  // ----- every operation keeps the heap -----

  lemma ReplaceLayout(bs: seq<Block>, end: nat, i: nat, n: nat, w: seq<Block>)
    requires Layout(bs, end) && 0 < n && i + n <= |bs| && w != [] && Roomy(w)
    requires w[0].start == bs[i].start && w[|w| - 1].next == bs[i + n - 1].next
    requires forall k, l :: 0 <= k < |w| && l == k + 1 && l < |w| ==> w[k].next == w[l].start
    ensures Layout(Replace(bs, i, n, w), end)
  {
    ReplaceTiles(bs, end, i, n, w);
    ReplaceAt(bs, i, n, w);
  }

  lemma ReplaceCoalesced(bs: seq<Block>, i: nat, n: nat, w: seq<Block>)
    requires Coalesced(bs) && Coalesced(w) && i + n <= |bs| && w != []
    requires i > 0 ==> bs[i - 1].used || w[0].used
    requires i + n < |bs| ==> w[|w| - 1].used || bs[i + n].used
    ensures Coalesced(Replace(bs, i, n, w))
  {
    ReplaceAt(bs, i, n, w);
    var r := Replace(bs, i, n, w);
    forall k, l | 0 <= k < |r| && l == k + 1 && l < |r| ensures r[k].used || r[l].used {
      if l < i {
        assert bs[k].used || bs[l].used;
      } else if l == i {
        assert r[l] == w[0];
      } else if k < i + |w| - 1 {
        assert w[k - i].used || w[l - i].used;
      } else if k >= i + |w| {
        assert bs[k - |w| + n].used || bs[l - |w| + n].used;
      }
    }
  }

  lemma OneFree(b: Block)
    ensures forall p: nat :: FreeAt([b], p) <==> !b.used && p == b.start
  {
    assert [b][0] == b;
  }

  lemma TwoFree(a: Block, b: Block, p: nat)
    ensures FreeAt([a, b], p) <==> (!a.used && p == a.start) || (!b.used && p == b.start)
  {
    assert [a, b][0] == a && [a, b][1] == b;
  }

  // A free block that fits
  ghost predicate Fits(b: Block, want: nat) { !b.used && LEAST <= want <= Payload(b) && b.start + HEAD <= b.next }

  lemma CarvedSum(b: Block, want: nat)
    requires Fits(b, want)
    ensures FreeSum(Carved(b, want)) == Payload(b) - (if |Carved(b, want)| == 2 then want + HEAD else Payload(b))
  {
    var w := Carved(b, want);
    FreeSumOne(w[0]);
    if |w| == 2 {
      assert w == [w[0], w[1]];
      FreeSumOne(w[1]);
      FreeSumTwo(w[0], w[1]);
    } else {
      assert w == [w[0]];
    }
  }

  // A position inside a block is not the start of another.
  lemma InsideFresh(bs: seq<Block>, end: nat, i: nat, p: nat)
    requires Tiles(bs, end) && i < |bs| && bs[i].start < p < bs[i].next
    ensures !FreeAt(bs, p)
  {
    if FreeAt(bs, p) {
      var k :| 0 <= k < |bs| && bs[k].start == p;
      if k < i { Increasing(bs, end, k, i); } else if i < k { Increasing(bs, end, i, k); }
    }
  }

  lemma CarvedRing(bs: seq<Block>, end: nat, i: nat, want: nat, free: seq<nat>)
    requires Tiles(bs, end) && i < |bs| && Fits(bs[i], want) && Ring(free, bs)
    ensures var w := Carved(bs[i], want);
            Ring(Ringed(free, Some(bs[i].start), if |w| == 2 then Some(w[1].start) else None), Replace(bs, i, 1, w))
  {
    var b, w := bs[i], Carved(bs[i], want);
    assert bs[i..i + 1] == [b];
    OneFree(b);
    if |w| == 2 {
      assert w == [w[0], w[1]];
      forall p: nat ensures FreeAt(w, p) <==> Some(w[1].start) == Some(p) { TwoFree(w[0], w[1], p); }
      InsideFresh(bs, end, i, w[1].start);
      RingReplaced(bs, end, i, 1, w, free, Some(b.start), Some(w[1].start));
    } else {
      assert w == [w[0]];
      OneFree(w[0]);
      RingReplaced(bs, end, i, 1, w, free, Some(b.start), None);
    }
  }

  lemma CarvedLayout(bs: seq<Block>, end: nat, i: nat, want: nat)
    requires Layout(bs, end) && Coalesced(bs) && i < |bs| && Fits(bs[i], want)
    ensures Layout(Replace(bs, i, 1, Carved(bs[i], want)), end) && Coalesced(Replace(bs, i, 1, Carved(bs[i], want)))
  {
    assert i > 0 ==> bs[i - 1].used;
    assert i + 1 < |bs| ==> bs[i + 1].used;
    ReplaceLayout(bs, end, i, 1, Carved(bs[i], want));
    ReplaceCoalesced(bs, i, 1, Carved(bs[i], want));
  }

  lemma CarvedTotal(bs: seq<Block>, i: nat, want: nat)
    requires i < |bs| && Fits(bs[i], want)
    ensures var w := Carved(bs[i], want);
            var less := if |w| == 2 then want + HEAD else Payload(bs[i]);
            less <= FreeSum(bs) && FreeSum(Replace(bs, i, 1, w)) == FreeSum(bs) - less
  {
    FreeSumOfParts(bs, i, 1, Carved(bs[i], want));
    assert bs[i..i + 1] == [bs[i]];
    FreeSumOne(bs[i]);
    CarvedSum(bs[i], want);
  }

  // Taking a free block keeps the tiling, the ring and the byte count.
  lemma TakeSafe(s: State, i: nat, want: nat)
    requires Inv(s) && i < |s.blocks| && Fits(s.blocks[i], want)
    ensures Inv(TakeAt(s, i, want))
  {
    CarvedLayout(s.blocks, s.pool - HEAD, i, want);
    CarvedRing(s.blocks, s.pool - HEAD, i, want, s.free);
    CarvedTotal(s.blocks, i, want);
    hide Replace, Carved, Ringed, FreeSum, FreeAt;
  }

  // ----- rt_memheap_alloc -----

  lemma {:induction false} RingFitIs(bs: seq<Block>, free: seq<nat>, want: nat)
    requires forall p: nat :: p in free ==> FreeAt(bs, p)
    ensures RingFit(bs, free, want).Some? ==>
              var i := RingFit(bs, free, want).value;
              i < |bs| && Payload(bs[i]) >= want && bs[i].start in free && IndexOf(bs, bs[i].start) == i
    ensures RingFit(bs, free, want) == None ==>
              forall p: nat :: p in free ==> IndexOf(bs, p) < |bs| && Payload(bs[IndexOf(bs, p)]) < want
    decreases |free|
  {
    if free != [] {
      assert free[0] in free;
      var k :| 0 <= k < |bs| && bs[k].start == free[0];
      RingFitIs(bs, free[1..], want);
      assert forall p :: p in free ==> p == free[0] || p in free[1..];
    }
  }

  lemma RingIndex(bs: seq<Block>, end: nat, i: nat)
    requires Tiles(bs, end) && i < |bs|
    ensures IndexOf(bs, bs[i].start) == i
  {
    SameStart(bs, end, i, IndexOf(bs, bs[i].start));
  }

  // NULL exactly if the request is not below the available size or no free block is large enough
  lemma AllocFails(s: State, size: nat)
    requires Inv(s) && size < RANGE
    ensures Alloc(s, size).ptr == None <==>
            Want(size) >= s.available || NoneFits(s.blocks, Want(size))
  {
    hide TakeAt, Want, NoneFits, Tiles, FreeSum, Coalesced;
    RingFails(s.blocks, s.pool - HEAD, s.free, Want(size));
  }

  ghost predicate NoneFits(bs: seq<Block>, want: nat) {
    forall i :: 0 <= i < |bs| && !bs[i].used ==> Payload(bs[i]) < want
  }

  // The ring holds all free blocks, so its search misses none.
  lemma RingFails(bs: seq<Block>, end: nat, free: seq<nat>, want: nat)
    requires Tiles(bs, end) && Ring(free, bs)
    ensures RingFit(bs, free, want) == None <==> NoneFits(bs, want)
    ensures RingFit(bs, free, want).Some? ==> RingFit(bs, free, want).value < |bs|
  {
    hide Tiles, RingFit;
    RingFitIs(bs, free, want);
    if RingFit(bs, free, want) == None {
      forall i | 0 <= i < |bs| && !bs[i].used ensures Payload(bs[i]) < want {
        assert FreeAt(bs, bs[i].start);
        RingIndex(bs, end, i);
      }
    } else {
      var i := RingFit(bs, free, want).value;
      assert FreeAt(bs, bs[i].start);
      var j :| 0 <= j < |bs| && bs[j].start == bs[i].start && !bs[j].used;
      SameStart(bs, end, i, j);
    }
  }

  lemma AllocTakes(s: State, size: nat, e: State, p: nat) returns (i: nat)
    requires Inv(s) && size < RANGE && Alloc(s, size) == Result(e, Some(p))
    ensures i < |s.blocks| && Fits(s.blocks[i], Want(size)) && e == TakeAt(s, i, Want(size))
    ensures p == s.blocks[i].start + HEAD && RingFit(s.blocks, s.free, Want(size)) == Some(i)
  {
    var bs := s.blocks;
    RingFitIs(bs, s.free, Want(size));
    i := RingFit(bs, s.free, Want(size)).value;
    assert FreeAt(bs, bs[i].start);
    var j :| 0 <= j < |bs| && bs[j].start == bs[i].start && !bs[j].used;
    SameStart(bs, s.pool - HEAD, i, j);
  }

  lemma TakeUsed(s: State, i: nat, want: nat)
    requires Inv(s) && i < |s.blocks| && Fits(s.blocks[i], want)
    ensures var c := Carved(s.blocks[i], want)[0];
            && UsedBlocks(TakeAt(s, i, want).blocks) == UsedBlocks(s.blocks) + {c} && c !in UsedBlocks(s.blocks)
            && c.used && c.start == s.blocks[i].start && want <= Payload(c)
  {
    hide Tiles, Coalesced;
    var bs, w := s.blocks, Carved(s.blocks[i], want);
    ReplaceUsed(bs, s.pool - HEAD, i, 1, w);
    assert bs[i..i + 1] == [bs[i]];
    assert UsedBlocks([bs[i]]) == {};
    if w[0] in bs {
      var j :| 0 <= j < |bs| && bs[j] == w[0];
      SameStart(bs, s.pool - HEAD, i, j);
    }
  }

  // A successful allocation adds one live block, large enough exactly if RT_ALIGN did not wrap.
  lemma AllocServes(s: State, size: nat, e: State, p: nat) returns (c: Block)
    requires Inv(s) && 0 < size < RANGE && Alloc(s, size) == Result(e, Some(p))
    ensures Inv(e) && UsedBlocks(e.blocks) == UsedBlocks(s.blocks) + {c} && c !in UsedBlocks(s.blocks)
    ensures c.used && p == c.start + HEAD && Want(size) <= Payload(c)
    ensures size <= Payload(c) <==> size <= RANGE - 4
  {
    var i := AllocTakes(s, size, e, p);
    TakeSafe(s, i, Want(size));
    TakeUsed(s, i, Want(size));
    Bounds(s.blocks, s.pool - HEAD, i);
    c := Carved(s.blocks[i], Want(size))[0];
  }

  // ----- rt_memheap_free -----

  lemma MergeLayout(bs: seq<Block>, end: nat, i: nat)
    requires Layout(bs, end) && i < |bs|
    ensures Layout(Merge(bs, i), end)
  {
    var lo, hi := Lo(bs, i), Hi(bs, i);
    if lo < hi - 1 { Increasing(bs, end, lo, hi - 1); }
    ReplaceLayout(bs, end, lo, hi - lo, [MergedBlock(bs, i)]);
  }

  lemma MergeCoalesced(bs: seq<Block>, i: nat)
    requires Coalesced(bs) && i < |bs|
    ensures Coalesced(Merge(bs, i))
  {
    var lo, hi := Lo(bs, i), Hi(bs, i);
    assert 0 < lo < i ==> bs[lo - 1].used;
    assert i + 1 < hi < |bs| ==> bs[hi].used;
    ReplaceCoalesced(bs, lo, hi - lo, [MergedBlock(bs, i)]);
  }

  lemma StretchSum(bs: seq<Block>, i: nat)
    requires i < |bs| && bs[i].used
    ensures FreeSum(bs[Lo(bs, i)..Hi(bs, i)]) ==
            (if LeftFree(bs, i) then Payload(bs[i - 1]) else 0) + (if RightFree(bs, i) then Payload(bs[i + 1]) else 0)
  {
    var l, r := bs[Lo(bs, i)..i], bs[i + 1..Hi(bs, i)];
    assert bs[Lo(bs, i)..Hi(bs, i)] == l + ([bs[i]] + r);
    FreeSumConcat(l, [bs[i]] + r);
    FreeSumConcat([bs[i]], r);
    FreeSumOne(bs[i]);
    if LeftFree(bs, i) {
      assert l == [bs[i - 1]];
      FreeSumOne(bs[i - 1]);
    }
    if RightFree(bs, i) {
      assert r == [bs[i + 1]];
      FreeSumOne(bs[i + 1]);
    }
  }

  lemma MergedPayload(bs: seq<Block>, end: nat, i: nat)
    requires Layout(bs, end) && i < |bs|
    ensures Payload(MergedBlock(bs, i)) ==
            Payload(bs[i]) + Gained(bs, i) + (if LeftFree(bs, i) then Payload(bs[i - 1]) else 0)
            + (if RightFree(bs, i) then Payload(bs[i + 1]) else 0)
  {
    assert LeftFree(bs, i) ==> bs[i - 1].next == bs[i].start;
    assert RightFree(bs, i) ==> bs[i].next == bs[i + 1].start;
  }

  lemma MergeTotal(bs: seq<Block>, end: nat, i: nat)
    requires Layout(bs, end) && i < |bs| && bs[i].used
    ensures FreeSum(Merge(bs, i)) == FreeSum(bs) + Payload(bs[i]) + Gained(bs, i)
  {
    FreeSumOfParts(bs, Lo(bs, i), Hi(bs, i) - Lo(bs, i), [MergedBlock(bs, i)]);
    FreeSumOne(MergedBlock(bs, i));
    StretchSum(bs, i);
    MergedPayload(bs, end, i);
  }

  lemma StretchFree(bs: seq<Block>, i: nat, p: nat)
    requires i < |bs| && bs[i].used
    ensures FreeAt(bs[Lo(bs, i)..Hi(bs, i)], p) <==>
            (LeftFree(bs, i) && p == bs[i - 1].start) || (RightFree(bs, i) && p == bs[i + 1].start)
  {
    var m, lo := bs[Lo(bs, i)..Hi(bs, i)], Lo(bs, i);
    if LeftFree(bs, i) { assert m[0] == bs[i - 1]; }
    if RightFree(bs, i) { assert m[i + 1 - lo] == bs[i + 1]; }
    if FreeAt(m, p) {
      var k :| 0 <= k < |m| && m[k].start == p && !m[k].used;
      assert m[k] == bs[lo + k];
    }
  }

  lemma UsedNotFree(bs: seq<Block>, end: nat, i: nat)
    requires Tiles(bs, end) && i < |bs| && bs[i].used
    ensures !FreeAt(bs, bs[i].start)
  {
    if FreeAt(bs, bs[i].start) {
      var k :| 0 <= k < |bs| && bs[k].start == bs[i].start && !bs[k].used;
      SameStart(bs, end, i, k);
    }
  }

  // The free starts after a merge
  lemma MergeFrees(bs: seq<Block>, end: nat, i: nat, p: nat)
    requires Tiles(bs, end) && i < |bs| && bs[i].used
    ensures FreeAt(Merge(bs, i), p) <==>
            (if RightFree(bs, i) && p == bs[i + 1].start then false else FreeAt(bs, p))
            || (!LeftFree(bs, i) && p == bs[i].start)
  {
    var lo, hi := Lo(bs, i), Hi(bs, i);
    FreeAfter(bs, end, lo, hi - lo, [MergedBlock(bs, i)], p);
    OneFree(MergedBlock(bs, i));
    StretchFree(bs, i, p);
    if LeftFree(bs, i) {
      assert FreeAt(bs, bs[i - 1].start);
      if RightFree(bs, i) { Increasing(bs, end, i - 1, i + 1); }
    }
  }

  lemma MergeRing(bs: seq<Block>, end: nat, i: nat, free: seq<nat>)
    requires Tiles(bs, end) && i < |bs| && bs[i].used && Ring(free, bs)
    ensures Ring(MergedFree(free, bs, i), Merge(bs, i))
  {
    var after := MergedFree(free, bs, i);
    UsedNotFree(bs, end, i);
    forall p: nat ensures p in after <==> FreeAt(Merge(bs, i), p) { MergeFrees(bs, end, i, p); }
    if !LeftFree(bs, i) {
      DistinctConcat([bs[i].start], if RightFree(bs, i) then Without(free, bs[i + 1].start) else free);
    }
  }

  // Freeing keeps the tiling, merges neighbours, and returns exactly the bytes of the block and
  // of the headers that disappear.
  lemma FreeSafe(s: State, i: nat, e: State)
    requires Inv(s) && i < |s.blocks| && s.blocks[i].used && e == FreeAll(s, i)
    ensures Inv(e)
  {
    MergeLayout(s.blocks, s.pool - HEAD, i);
    MergeCoalesced(s.blocks, i);
    MergeTotal(s.blocks, s.pool - HEAD, i);
    MergeRing(s.blocks, s.pool - HEAD, i, s.free);
    hide Merge, MergedFree, FreeSum, Gained, FreeAt;
  }

  // Around block i only free blocks are merged.
  lemma StretchUsed(bs: seq<Block>, i: nat, lo: nat, hi: nat)
    requires i < |bs| && bs[i].used && hi == Hi(bs, i) && (lo == i || lo == Lo(bs, i))
    ensures UsedBlocks(bs[lo..hi]) == {bs[i]}
  {
    var m := bs[lo..hi];
    assert m[i - lo] == bs[i];
    forall b | b in UsedBlocks(m) ensures b == bs[i] {
      var k :| 0 <= k < |m| && m[k] == b;
      assert m[k] == bs[lo + k];
    }
  }

  // Freeing removes exactly the freed block from the live ones.
  lemma FreeUsed(bs: seq<Block>, end: nat, i: nat)
    requires Tiles(bs, end) && i < |bs| && bs[i].used
    ensures UsedBlocks(Merge(bs, i)) == UsedBlocks(bs) - {bs[i]}
  {
    var lo, hi := Lo(bs, i), Hi(bs, i);
    ReplaceUsed(bs, end, lo, hi - lo, [MergedBlock(bs, i)]);
    StretchUsed(bs, i, lo, hi);
    assert UsedBlocks([MergedBlock(bs, i)]) == {};
  }

  // ----- rt_memheap_realloc -----

  // Block i can end at 'at' with room for a free block behind it.
  ghost predicate Recuttable(bs: seq<Block>, i: nat, at: nat) {
    i < |bs| && bs[i].used && bs[i].start + HEAD + LEAST <= at && at + HEAD + LEAST <= bs[Hi(bs, i) - 1].next
  }

  lemma RecutLayout(bs: seq<Block>, end: nat, i: nat, at: nat)
    requires Layout(bs, end) && Recuttable(bs, i, at)
    ensures Layout(Recut(bs, i, at), end)
  {
    ReplaceLayout(bs, end, i, Hi(bs, i) - i, [Block(bs[i].start, at, true), Rest(bs, i, at)]);
  }

  lemma RecutCoalesced(bs: seq<Block>, i: nat, at: nat)
    requires Coalesced(bs) && i < |bs|
    ensures Coalesced(Recut(bs, i, at))
  {
    var hi := Hi(bs, i);
    assert i + 1 < hi < |bs| ==> bs[hi].used;
    ReplaceCoalesced(bs, i, hi - i, [Block(bs[i].start, at, true), Rest(bs, i, at)]);
  }

  lemma RecutStretch(bs: seq<Block>, i: nat, p: nat)
    requires i < |bs| && bs[i].used
    ensures FreeAt(bs[i..Hi(bs, i)], p) <==> RightFree(bs, i) && p == bs[i + 1].start
    ensures FreeSum(bs[i..Hi(bs, i)]) == if RightFree(bs, i) then Payload(bs[i + 1]) else 0
  {
    FreeSumOne(bs[i]);
    if RightFree(bs, i) {
      assert bs[i..i + 2] == [bs[i], bs[i + 1]];
      TwoFree(bs[i], bs[i + 1], p);
      FreeSumOne(bs[i + 1]);
      FreeSumTwo(bs[i], bs[i + 1]);
    } else {
      assert bs[i..i + 1] == [bs[i]];
      OneFree(bs[i]);
    }
  }

  lemma RecutRing(bs: seq<Block>, end: nat, i: nat, at: nat, free: seq<nat>)
    requires Tiles(bs, end) && Recuttable(bs, i, at) && Ring(free, bs)
    ensures Ring(RecutFree(free, bs, i, at), Recut(bs, i, at))
  {
    var w := [Block(bs[i].start, at, true), Rest(bs, i, at)];
    var out: Option<nat> := if RightFree(bs, i) then Some(bs[i + 1].start) else None;
    forall p: nat
      ensures FreeAt(bs[i..Hi(bs, i)], p) <==> out == Some(p)
      ensures FreeAt(w, p) <==> Some(at) == Some(p) {
      RecutStretch(bs, i, p);
      TwoFree(w[0], w[1], p);
    }
    if at < bs[i].next {
      InsideFresh(bs, end, i, at);
    } else if out != Some(at) {
      assert bs[i].next == bs[i + 1].start;
      InsideFresh(bs, end, i + 1, at);
    }
    RingReplaced(bs, end, i, Hi(bs, i) - i, w, free, out, Some(at));
  }

  lemma RecutTotal(bs: seq<Block>, i: nat, at: nat)
    requires i < |bs| && bs[i].used
    ensures var less := if RightFree(bs, i) then Payload(bs[i + 1]) else 0;
            less <= FreeSum(bs) && FreeSum(Recut(bs, i, at)) == FreeSum(bs) - less + Payload(Rest(bs, i, at))
  {
    var a, z := Block(bs[i].start, at, true), Rest(bs, i, at);
    FreeSumOfParts(bs, i, Hi(bs, i) - i, [a, z]);
    RecutStretch(bs, i, 0);
    FreeSumOne(a);
    FreeSumOne(z);
    FreeSumTwo(a, z);
  }

  // Growing into the free successor, and shrinking, keep the heap.
  lemma RecutSafe(s: State, i: nat, at: nat, e: State)
    requires Inv(s) && Recuttable(s.blocks, i, at) && e == RecutAt(s, i, at)
    ensures Inv(e)
  {
    RecutLayout(s.blocks, s.pool - HEAD, i, at);
    RecutCoalesced(s.blocks, i, at);
    RecutRing(s.blocks, s.pool - HEAD, i, at, s.free);
    RecutTotal(s.blocks, i, at);
    hide Recut, RecutFree, Rest, FreeSum, FreeAt;
  }

  // The block keeps its address with a new length; nothing else moves.
  lemma RecutUsed(bs: seq<Block>, end: nat, i: nat, at: nat, c: Block)
    requires Tiles(bs, end) && i < |bs| && bs[i].used && c == Block(bs[i].start, at, true)
    ensures UsedBlocks(Recut(bs, i, at)) == UsedBlocks(bs) - {bs[i]} + {c}
  {
    var w := [c, Rest(bs, i, at)];
    ReplaceUsed(bs, end, i, Hi(bs, i) - i, w);
    StretchUsed(bs, i, i, Hi(bs, i));
    assert w[0] == c && UsedBlocks(w) == {c};
  }
}

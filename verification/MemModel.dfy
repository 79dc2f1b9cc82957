// The small-memory heap (src/mem.c) as a sequence of blocks. Offsets are from the heap start.
module MemModel {
  import opened Options
  import opened Blocks

  // SIZEOF_STRUCT_MEM and MIN_SIZE_ALIGNED with four-byte alignment and 32-bit sizes
  const HDR: nat := 12
  const MIN: nat := 12

  // 'size' is mem_size_aligned; the end marker is at size + HDR.
  datatype State = State(size: nat, blocks: seq<Block>, lfree: nat, usedMem: nat)

  function End(s: State): nat { s.size + HDR }

  // ----- the layout -----

  function UsedSum(bs: seq<Block>): nat
    requires forall i :: 0 <= i < |bs| ==> bs[i].start <= bs[i].next
  {
    if bs == [] then 0 else (if bs[0].used then bs[0].next - bs[0].start else 0) + UsedSum(bs[1..])
  }

  ghost predicate LfreeOk(bs: seq<Block>, end: nat, p: nat) { p == end || FreeAt(bs, p) }

  // A heap of at least one minimal block
  ghost predicate Inv(s: State) {
    && s.size >= MIN && End(s) + HDR < RANGE
    && Tiles(s.blocks, End(s)) && Coalesced(s.blocks)
    && s.usedMem == UsedSum(s.blocks)
    && LfreeOk(s.blocks, End(s), s.lfree)
  }

  // The lowest-free pointer deserves its name: kept by allocating and freeing, not by shrinking.
  ghost predicate Lowest(s: State) {
    forall i :: 0 <= i < |s.blocks| && !s.blocks[i].used ==> s.lfree <= s.blocks[i].start
  }

  lemma {:induction false} UsedSumConcat(a: seq<Block>, b: seq<Block>)
    requires forall i :: 0 <= i < |a| ==> a[i].start <= a[i].next
    requires forall i :: 0 <= i < |b| ==> b[i].start <= b[i].next
    ensures forall i :: 0 <= i < |a + b| ==> (a + b)[i].start <= (a + b)[i].next
    ensures UsedSum(a + b) == UsedSum(a) + UsedSum(b)
    decreases |a|
  {
    if a == [] {
      assert a + b == b;
    } else {
      assert (a + b)[1..] == a[1..] + b;
      UsedSumConcat(a[1..], b);
    }
  }

  // ----- edits of the block sequence -----

  lemma ReplaceSum(bs: seq<Block>, end: nat, i: nat, n: nat, w: seq<Block>)
    requires Tiles(bs, end) && i + n <= |bs|
    requires forall k :: 0 <= k < |w| ==> w[k].start <= w[k].next
    ensures forall k :: 0 <= k < |Replace(bs, i, n, w)| ==>
        Replace(bs, i, n, w)[k].start <= Replace(bs, i, n, w)[k].next
    ensures UsedSum(bs[i..i + n]) <= UsedSum(bs)
    ensures UsedSum(Replace(bs, i, n, w)) == UsedSum(bs) - UsedSum(bs[i..i + n]) + UsedSum(w)
  {
    TilesOrdered(bs, end);
    SumOfParts(bs, i, n, w);
  }

  lemma SumOfParts(bs: seq<Block>, i: nat, n: nat, w: seq<Block>)
    requires i + n <= |bs| && forall k :: 0 <= k < |bs| ==> bs[k].start <= bs[k].next
    requires forall k :: 0 <= k < |w| ==> w[k].start <= w[k].next
    ensures forall k :: 0 <= k < |Replace(bs, i, n, w)| ==>
        Replace(bs, i, n, w)[k].start <= Replace(bs, i, n, w)[k].next
    ensures UsedSum(bs[i..i + n]) <= UsedSum(bs)
    ensures UsedSum(Replace(bs, i, n, w)) == UsedSum(bs) - UsedSum(bs[i..i + n]) + UsedSum(w)
  {
    var a, m, z := bs[..i], bs[i..i + n], bs[i + n..];
    assert bs == a + (m + z) && Replace(bs, i, n, w) == (a + w) + z;
    UsedSumConcat(m, z);
    UsedSumConcat(a, m + z);
    UsedSumConcat(a, w);
    UsedSumConcat(a + w, z);
  }

  // ----- the operations on blocks -----

  // The header search of rt_malloc, from block i on
  function FirstFit(bs: seq<Block>, i: nat, limit: nat, want: nat): (k: nat)
    requires i <= |bs|
    ensures i <= k <= |bs|
    ensures k < |bs| ==> !bs[k].used && bs[k].start + HDR + want <= bs[k].next && bs[k].start < limit
    decreases |bs| - i
  {
    if i == |bs| || bs[i].start >= limit then |bs|
    else if !bs[i].used && bs[i].start + HDR + want <= bs[i].next then i
    else FirstFit(bs, i + 1, limit, want)
  }

  // The first free block from i on, or the end marker
  function NextFree(bs: seq<Block>, i: nat, end: nat): nat
    requires i <= |bs|
    decreases |bs| - i
  {
    if i == |bs| then end else if !bs[i].used then bs[i].start else NextFree(bs, i + 1, end)
  }

  // A block becomes used, its tail a free block if that is large enough.
  function Taken(b: Block, want: nat): (w: seq<Block>)
    ensures w != []
  {
    var at := b.start + HDR + want;
    if at + HDR + MIN <= b.next then [Block(b.start, at, true), Block(at, b.next, false)] else [b.(used := true)]
  }

  function TakeBlocks(bs: seq<Block>, i: nat, want: nat): seq<Block>
    requires i < |bs|
  {
    Replace(bs, i, 1, Taken(bs[i], want))
  }

  function Take(s: State, i: nat, want: nat): State
    requires i < |s.blocks| && s.blocks[i].start <= s.blocks[i].next
  {
    var bs := TakeBlocks(s.blocks, i, want);
    s.(blocks := bs, lfree := if s.lfree == s.blocks[i].start then NextFree(bs, i, End(s)) else s.lfree,
       usedMem := s.usedMem + if |bs| > |s.blocks| then want + HDR else s.blocks[i].next - s.blocks[i].start)
  }

  datatype Result = Result(state: State, ptr: Option<nat>)

  // A request as the search of rt_malloc sees it
  function Want(size: nat): nat { if Align(size) < MIN then MIN else Align(size) }

  // The search and what follows it; its limit is a 32-bit difference.
  function Allocate(s: State, want: nat): Result
    requires want <= RANGE
    requires forall i :: 0 <= i < |s.blocks| ==> s.blocks[i].start <= s.blocks[i].next
  {
    var limit := if want <= s.size then s.size - want else RANGE + s.size - want;
    var i := FirstFit(s.blocks, IndexOf(s.blocks, s.lfree), limit, want);
    if i == |s.blocks| then Result(s, None) else Result(Take(s, i, want), Some(s.blocks[i].start + HDR))
  }

  // rt_malloc
  function Malloc(s: State, size: nat): Result
    requires forall i :: 0 <= i < |s.blocks| ==> s.blocks[i].start <= s.blocks[i].next
  {
    if size == 0 || Align(size) > s.size then Result(s, None) else Allocate(s, Want(size))
  }

  // Block i takes in its successor; the lowest-free pointer follows.
  function Joined(s: State, i: nat): State
    requires i + 1 < |s.blocks|
  {
    s.(blocks := Join(s.blocks, i),
       lfree := if s.lfree == s.blocks[i + 1].start then s.blocks[i].start else s.lfree)
  }

  // plug_holes: join block i with a free successor, then with a free predecessor.
  function PlugForward(s: State, i: nat): State
    requires i < |s.blocks|
  {
    if i + 1 < |s.blocks| && !s.blocks[i + 1].used then Joined(s, i) else s
  }

  function PlugBackward(s: State, i: nat): State
    requires i < |s.blocks|
  {
    if i > 0 && !s.blocks[i - 1].used then Joined(s, i - 1) else s
  }

  function Plug(s: State, i: nat): State
    requires i < |s.blocks|
  {
    PlugBackward(PlugForward(s, i), i)
  }

  // rt_free of block i, before plug_holes
  function Release(s: State, i: nat): State
    requires i < |s.blocks| && s.blocks[i].start <= s.blocks[i].next
  {
    var b := s.blocks[i];
    s.(blocks := SetFree(s.blocks, i), lfree := if b.start < s.lfree then b.start else s.lfree,
       usedMem := if b.next - b.start <= s.usedMem then s.usedMem - (b.next - b.start) else 0)
  }

  function Free(s: State, i: nat): State
    requires i < |s.blocks| && s.blocks[i].start <= s.blocks[i].next
  {
    Plug(Release(s, i), i)
  }

  // The splitting branch of rt_realloc, before plug_holes
  function Cut(s: State, i: nat, want: nat): State
    requires i < |s.blocks| && s.blocks[i].start + HDR + want <= s.blocks[i].next
  {
    var b := s.blocks[i];
    var less := b.next - b.start - HDR - want;
    s.(blocks := Split(s.blocks, i, b.start + HDR + want),
       usedMem := if less <= s.usedMem then s.usedMem - less else 0)
  }

  function Shrink(s: State, i: nat, want: nat): State
    requires i < |s.blocks| && s.blocks[i].start + HDR + want <= s.blocks[i].next
  {
    Plug(Cut(s, i, want), i + 1)
  }

  // ----- what the operations keep -----

  // Everything but the absence of neighbouring free blocks
  ghost predicate Sound(s: State) {
    && s.size >= MIN && End(s) + HDR < RANGE
    && Tiles(s.blocks, End(s)) && s.usedMem == UsedSum(s.blocks)
    && LfreeOk(s.blocks, End(s), s.lfree)
  }

  lemma SumOne(b: Block)
    requires b.start <= b.next
    ensures UsedSum([b]) == if b.used then b.next - b.start else 0
  {
    assert [b][1..] == [];
  }

  lemma SumTwo(a: Block, b: Block)
    requires a.start <= a.next && b.start <= b.next
    ensures UsedSum([a, b]) == UsedSum([a]) + UsedSum([b])
  {
    assert [a, b][1..] == [b];
    SumOne(a);
  }

  lemma {:induction false} NextFreeIs(bs: seq<Block>, i: nat, end: nat)
    requires i <= |bs|
    ensures NextFree(bs, i, end) == end || FreeAt(bs, NextFree(bs, i, end))
    decreases |bs| - i
  {
    if i < |bs| {
      if bs[i].used { NextFreeIs(bs, i + 1, end); } else { assert FreeAt(bs, bs[i].start); }
    }
  }

  lemma {:induction false} NextFreeLowest(bs: seq<Block>, i: nat, end: nat)
    requires Tiles(bs, end) && i <= |bs|
    ensures forall k :: i <= k < |bs| && !bs[k].used ==> NextFree(bs, i, end) <= bs[k].start
    decreases |bs| - i
  {
    if i < |bs| {
      if bs[i].used {
        NextFreeLowest(bs, i + 1, end);
      } else {
        forall k | i < k < |bs| ensures bs[i].start <= bs[k].start { Increasing(bs, end, i, k); }
      }
    }
  }

  // A block that a caller may take
  ghost predicate Fits(b: Block, want: nat) {
    !b.used && want >= MIN && b.start + HDR + want <= b.next
  }

  lemma TakeTiles(bs: seq<Block>, end: nat, i: nat, want: nat)
    requires Tiles(bs, end) && i < |bs| && Fits(bs[i], want)
    ensures Tiles(TakeBlocks(bs, i, want), end)
  {
    ReplaceTiles(bs, end, i, 1, Taken(bs[i], want));
  }

  lemma TakeSum(bs: seq<Block>, end: nat, i: nat, want: nat)
    requires Tiles(bs, end) && i < |bs| && Fits(bs[i], want) && Tiles(TakeBlocks(bs, i, want), end)
    ensures UsedSum(TakeBlocks(bs, i, want)) ==
            UsedSum(bs) + if |TakeBlocks(bs, i, want)| > |bs| then want + HDR else bs[i].next - bs[i].start
  {
    var b, w := bs[i], Taken(bs[i], want);
    ReplaceSum(bs, end, i, 1, w);
    assert bs[i..i + 1] == [b];
    SumOne(b);
    SumOne(w[0]);
    if |w| == 2 {
      SumOne(w[1]);
      SumTwo(w[0], w[1]);
      assert w == [w[0], w[1]];
    } else {
      assert w == [w[0]];
    }
  }

  lemma TakeCoalesced(bs: seq<Block>, i: nat, want: nat)
    requires Coalesced(bs) && i < |bs| && Fits(bs[i], want)
    ensures Coalesced(TakeBlocks(bs, i, want))
  {
    var w := Taken(bs[i], want);
    ReplaceAt(bs, i, 1, w);
    var r := Replace(bs, i, 1, w);
    forall k, l | 0 <= k < |r| && l == k + 1 && l < |r| ensures r[k].used || r[l].used {
      if l < i {
        assert bs[k].used || bs[l].used;
      } else if k == i + |w| - 1 {
        assert bs[i].used || bs[i + 1].used;
      } else if k >= i + |w| {
        assert bs[k - |w| + 1].used || bs[l - |w| + 1].used;
      }
    }
  }

  lemma TakeLfree(s: State, i: nat, want: nat)
    requires Inv(s) && i < |s.blocks| && s.blocks[i].start <= s.blocks[i].next
    ensures Take(s, i, want).lfree == End(s) || FreeAt(Take(s, i, want).blocks, Take(s, i, want).lfree)
  {
    var bs := s.blocks;
    if s.lfree == bs[i].start {
      NextFreeIs(TakeBlocks(bs, i, want), i, End(s));
    } else if s.lfree != End(s) {
      var j :| 0 <= j < |bs| && bs[j].start == s.lfree && !bs[j].used;
      StillFree(bs, i, 1, Taken(bs[i], want), s.lfree, j);
    }
  }

  // Taking a free block that fits keeps the heap.
  lemma TakeSafe(s: State, i: nat, want: nat)
    requires Inv(s) && i < |s.blocks| && Fits(s.blocks[i], want)
    ensures Inv(Take(s, i, want))
  {
    TakeTiles(s.blocks, End(s), i, want);
    TakeSum(s.blocks, End(s), i, want);
    TakeCoalesced(s.blocks, i, want);
    TakeLfree(s, i, want);
  }

  // Free blocks after a take are old ones or the tail of the taken one.
  lemma TakeFrees(bs: seq<Block>, end: nat, i: nat, want: nat, k: nat) returns (j: nat)
    requires Tiles(bs, end) && i < |bs| && Fits(bs[i], want)
    requires k < |TakeBlocks(bs, i, want)| && !TakeBlocks(bs, i, want)[k].used
    ensures j < |bs| && !bs[j].used && bs[j].start <= TakeBlocks(bs, i, want)[k].start && (k < i <==> j < i)
  {
    ReplaceAt(bs, i, 1, Taken(bs[i], want));
    j := if k < i then k else if k >= i + |Taken(bs[i], want)| then k - |Taken(bs[i], want)| + 1 else i;
  }

  // ... and the lowest-free pointer lowest.
  lemma TakeLowest(s: State, i: nat, want: nat)
    requires Inv(s) && Lowest(s) && i < |s.blocks| && Fits(s.blocks[i], want)
    ensures Lowest(Take(s, i, want))
  {
    var bs, r := s.blocks, TakeBlocks(s.blocks, i, want);
    TakeTiles(bs, End(s), i, want);
    NextFreeLowest(r, i, End(s));
    forall k | 0 <= k < |r| && !r[k].used ensures Take(s, i, want).lfree <= r[k].start {
      var j := TakeFrees(bs, End(s), i, want, k);
      assert s.lfree <= bs[j].start;
      if j < i { Increasing(bs, End(s), j, i); }
    }
  }

  // ----- joining -----

  lemma JoinSum(bs: seq<Block>, end: nat, i: nat)
    requires Tiles(bs, end) && i + 1 < |bs| && !bs[i].used && !bs[i + 1].used && Tiles(Join(bs, i), end)
    ensures UsedSum(Join(bs, i)) == UsedSum(bs)
  {
    var w := [Block(bs[i].start, bs[i + 1].next, false)];
    assert bs[i].next == bs[i + 1].start;
    ReplaceSum(bs, end, i, 2, w);
    assert bs[i..i + 2] == [bs[i], bs[i + 1]];
    SumTwo(bs[i], bs[i + 1]);
    SumOne(bs[i]);
    SumOne(bs[i + 1]);
    SumOne(w[0]);
  }

  lemma JoinLfree(bs: seq<Block>, end: nat, i: nat, p: nat)
    requires Tiles(bs, end) && i + 1 < |bs| && LfreeOk(bs, end, p)
    ensures LfreeOk(Join(bs, i), end, if p == bs[i + 1].start then bs[i].start else p)
  {
    var w := [Block(bs[i].start, bs[i + 1].next, false)];
    NewFree(bs, i, 2, w, 0);
    if p == end {
      Bounds(bs, end, i + 1);
    } else if p != bs[i].start && p != bs[i + 1].start {
      var j :| 0 <= j < |bs| && bs[j].start == p && !bs[j].used;
      StillFree(bs, i, 2, w, p, j);
    }
  }

  lemma JoinSound(s: State, i: nat)
    requires Sound(s) && i + 1 < |s.blocks| && !s.blocks[i].used && !s.blocks[i + 1].used
    ensures Sound(Joined(s, i))
  {
    JoinTiles(s.blocks, End(s), i);
    JoinSum(s.blocks, End(s), i);
    JoinLfree(s.blocks, End(s), i, s.lfree);
  }

  lemma JoinLowest(s: State, i: nat)
    requires Tiles(s.blocks, End(s)) && Lowest(s) && i + 1 < |s.blocks| && !s.blocks[i].used && !s.blocks[i + 1].used
    ensures Lowest(Joined(s, i))
  {
    var bs := s.blocks;
    ReplaceAt(bs, i, 2, [Block(bs[i].start, bs[i + 1].next, false)]);
    var r := Join(bs, i);
    assert s.lfree <= bs[i].start < bs[i + 1].start;
    forall k | 0 <= k < |r| && !r[k].used ensures s.lfree <= r[k].start {
      assert k > i ==> r[k] == bs[k + 1];
    }
  }

  lemma PlugForwardSafe(s: State, i: nat)
    requires Sound(s) && i < |s.blocks| && !s.blocks[i].used && CoalescedBut(s.blocks, i - 1, i)
    ensures var f := PlugForward(s, i);
            && Sound(f) && f.size == s.size && i < |f.blocks| && !f.blocks[i].used
            && CoalescedBut(f.blocks, i - 1, i - 1)
            && (Lowest(s) ==> Lowest(f))
  {
    if i + 1 < |s.blocks| && !s.blocks[i + 1].used {
      JoinSound(s, i);
      JoinCoalesced(s.blocks, i, i - 1);
      if Lowest(s) { JoinLowest(s, i); }
      ReplaceAt(s.blocks, i, 2, [Block(s.blocks[i].start, s.blocks[i + 1].next, false)]);
    }
  }

  lemma PlugBackwardSafe(s: State, i: nat)
    requires Sound(s) && i < |s.blocks| && !s.blocks[i].used && CoalescedBut(s.blocks, i - 1, i - 1)
    ensures Inv(PlugBackward(s, i))
  {
    if i > 0 && !s.blocks[i - 1].used {
      JoinSound(s, i - 1);
      JoinCoalesced(s.blocks, i - 1, -1);
    }
  }

  lemma PlugBackwardLowest(s: State, i: nat)
    requires Tiles(s.blocks, End(s)) && i < |s.blocks| && !s.blocks[i].used && Lowest(s)
    ensures Lowest(PlugBackward(s, i))
  {
    if i > 0 && !s.blocks[i - 1].used { JoinLowest(s, i - 1); }
  }

  // plug_holes restores a heap in which only block i may have free neighbours.
  lemma PlugSafe(s: State, i: nat)
    requires Sound(s) && i < |s.blocks| && !s.blocks[i].used && CoalescedBut(s.blocks, i - 1, i)
    ensures Inv(Plug(s, i))
    ensures Lowest(s) ==> Lowest(Plug(s, i))
  {
    PlugForwardSafe(s, i);
    PlugBackwardSafe(PlugForward(s, i), i);
    if Lowest(s) { PlugBackwardLowest(PlugForward(s, i), i); }
  }

  // ----- freeing and shrinking -----

  lemma TilesAt(bs: seq<Block>, end: nat, i: nat)
    requires Tiles(bs, end) && i < |bs|
    ensures bs[i].start + SPAN <= bs[i].next
  {}

  lemma SetFreeSum(bs: seq<Block>, end: nat, i: nat)
    requires Tiles(bs, end) && i < |bs| && bs[i].used
    ensures Tiles(SetFree(bs, i), end)
    ensures bs[i].next - bs[i].start <= UsedSum(bs)
    ensures UsedSum(SetFree(bs, i)) == UsedSum(bs) - (bs[i].next - bs[i].start)
  {
    hide Tiles, UsedSum, Replace;
    TilesOrdered(bs, end);
    var b, w := bs[i], [bs[i].(used := false)];
    TilesAt(bs, end, i);
    ReplaceTiles(bs, end, i, 1, w);
    ReplaceSum(bs, end, i, 1, w);
    assert bs[i..i + 1] == [b];
    SumOne(b);
    SumOne(w[0]);
  }

  lemma SetFreeLfree(bs: seq<Block>, end: nat, i: nat, p: nat)
    requires i < |bs| && LfreeOk(bs, end, p) && bs[i].used
    ensures LfreeOk(SetFree(bs, i), end, p) && FreeAt(SetFree(bs, i), bs[i].start)
  {
    var w := [bs[i].(used := false)];
    NewFree(bs, i, 1, w, 0);
    if p != end {
      var j :| 0 <= j < |bs| && bs[j].start == p && !bs[j].used;
      StillFree(bs, i, 1, w, p, j);
    }
  }

  lemma ReleaseSafe(s: State, i: nat)
    requires Inv(s) && i < |s.blocks| && s.blocks[i].used
    ensures Sound(Release(s, i)) && !Release(s, i).blocks[i].used && CoalescedBut(Release(s, i).blocks, i - 1, i)
  {
    SetFreeSum(s.blocks, End(s), i);
    SetFreeCoalesced(s.blocks, i);
    SetFreeLfree(s.blocks, End(s), i, s.lfree);
  }

  lemma ReleaseLowest(s: State, i: nat)
    requires Inv(s) && i < |s.blocks| && Lowest(s)
    ensures Lowest(Release(s, i))
  {
    ReplaceAt(s.blocks, i, 1, [s.blocks[i].(used := false)]);
  }

  lemma FreeSafe(s: State, i: nat)
    requires Inv(s) && i < |s.blocks| && s.blocks[i].used
    ensures Inv(Free(s, i))
    ensures Lowest(s) ==> Lowest(Free(s, i))
  {
    ReleaseSafe(s, i);
    if Lowest(s) { ReleaseLowest(s, i); }
    PlugSafe(Release(s, i), i);
  }

  // A used block that rt_realloc splits at 'at'
  ghost predicate Cuttable(b: Block, at: nat) {
    b.used && b.start + HDR + 4 <= at && at + HDR + MIN < b.next
  }

  lemma SplitTiles(bs: seq<Block>, end: nat, i: nat, at: nat)
    requires Tiles(bs, end) && i < |bs| && Cuttable(bs[i], at)
    ensures Tiles(Split(bs, i, at), end)
  {
    ReplaceTiles(bs, end, i, 1, [Block(bs[i].start, at, true), Block(at, bs[i].next, false)]);
  }

  lemma SplitSum(bs: seq<Block>, end: nat, i: nat, at: nat)
    requires Tiles(bs, end) && i < |bs| && Cuttable(bs[i], at) && Tiles(Split(bs, i, at), end)
    ensures bs[i].next - at <= UsedSum(bs) && UsedSum(Split(bs, i, at)) == UsedSum(bs) - (bs[i].next - at)
  {
    var b := bs[i];
    var x, y := Block(b.start, at, true), Block(at, b.next, false);
    ReplaceSum(bs, end, i, 1, [x, y]);
    assert bs[i..i + 1] == [b];
    SumOne(b);
    SumOne(x);
    SumOne(y);
    SumTwo(x, y);
  }

  lemma SplitLfree(bs: seq<Block>, end: nat, i: nat, at: nat, p: nat)
    requires i < |bs| && bs[i].used && LfreeOk(bs, end, p)
    ensures LfreeOk(Split(bs, i, at), end, p)
  {
    if p != end {
      var j :| 0 <= j < |bs| && bs[j].start == p && !bs[j].used;
      StillFree(bs, i, 1, [Block(bs[i].start, at, true), Block(at, bs[i].next, false)], p, j);
    }
  }

  lemma CutSafe(s: State, i: nat, want: nat)
    requires Inv(s) && i < |s.blocks| && Cuttable(s.blocks[i], s.blocks[i].start + HDR + want)
    ensures Sound(Cut(s, i, want))
  {
    hide Split, UsedSum, LfreeOk, Coalesced;
    var bs, at := s.blocks, s.blocks[i].start + HDR + want;
    assert Tiles(Split(bs, i, at), End(s)) by { SplitTiles(bs, End(s), i, at); }
    assert UsedSum(Split(bs, i, at)) == Cut(s, i, want).usedMem by { SplitSum(bs, End(s), i, at); }
    assert LfreeOk(Split(bs, i, at), End(s), s.lfree) by { SplitLfree(bs, End(s), i, at, s.lfree); }
  }

  lemma ShrinkSafe(s: State, i: nat, want: nat)
    requires Inv(s) && i < |s.blocks| && Cuttable(s.blocks[i], s.blocks[i].start + HDR + want)
    ensures Inv(Shrink(s, i, want))
  {
    CutSafe(s, i, want);
    SplitCoalesced(s.blocks, i, s.blocks[i].start + HDR + want);
    PlugSafe(Cut(s, i, want), i + 1);
  }
}


// What callers of the small-memory heap (src/mem.c) can rely on.
module MemProperties {
  import opened Options
  import opened Blocks
  import opened MemModel

  // ----- when rt_malloc fails -----

  // A block that the search accepts; an exact fit at the very end is refused by its strict bound.
  ghost predicate Serves(s: State, b: Block, want: nat) {
    && !b.used && b.start + HDR + want <= b.next
    && !(b.next == End(s) && b.start + HDR + want == b.next)
  }

  lemma {:induction false} FirstFitNone(bs: seq<Block>, end: nat, i: nat, limit: nat, want: nat)
    requires Tiles(bs, end) && i <= |bs|
    ensures FirstFit(bs, i, limit, want) == |bs| <==>
            forall k :: i <= k < |bs| && !bs[k].used && bs[k].start + HDR + want <= bs[k].next ==> bs[k].start >= limit
    decreases |bs| - i
  {
    if i < |bs| {
      if bs[i].start >= limit {
        forall k | i < k < |bs| ensures bs[k].start >= limit { Increasing(bs, end, i, k); }
      } else {
        FirstFitNone(bs, end, i + 1, limit, want);
      }
    }
  }

  lemma FromLfree(s: State, k: nat)
    requires Inv(s) && k < |s.blocks|
    ensures k >= IndexOf(s.blocks, s.lfree) <==> s.blocks[k].start >= s.lfree
  {
    var bs, i := s.blocks, IndexOf(s.blocks, s.lfree);
    if s.lfree == End(s) {
      Bounds(bs, End(s), k);
      if i < |bs| { Bounds(bs, End(s), i); }
    } else {
      var j :| 0 <= j < |bs| && bs[j].start == s.lfree && !bs[j].used;
      if i < j { SameStart(bs, End(s), i, j); }
      if k < i { Increasing(bs, End(s), k, i); } else if i < k { Increasing(bs, End(s), i, k); }
    }
  }

  lemma ServesMeans(s: State, k: nat, want: nat)
    requires Inv(s) && k < |s.blocks| && want <= s.size
    ensures k >= IndexOf(s.blocks, s.lfree) <==> s.blocks[k].start >= s.lfree
    ensures Serves(s, s.blocks[k], want) <==>
            (!s.blocks[k].used && s.blocks[k].start + HDR + want <= s.blocks[k].next
             && s.blocks[k].start < s.size - want)
  {
    FromLfree(s, k);
    Bounds(s.blocks, End(s), k);
  }

  lemma NoneServes(s: State, want: nat, k: nat)
    requires Inv(s) && want <= s.size && k < |s.blocks| && s.blocks[k].start >= s.lfree
    requires FirstFit(s.blocks, IndexOf(s.blocks, s.lfree), s.size - want, want) == |s.blocks|
    ensures !Serves(s, s.blocks[k], want)
  {
    ServesMeans(s, k, want);
    FirstFitNone(s.blocks, End(s), IndexOf(s.blocks, s.lfree), s.size - want, want);
  }

  lemma AllocateFails(s: State, want: nat)
    requires Inv(s) && MIN <= want <= s.size
    ensures Allocate(s, want).ptr == None <==>
            forall k :: 0 <= k < |s.blocks| && s.blocks[k].start >= s.lfree ==> !Serves(s, s.blocks[k], want)
  {
    hide Take, Serves, UsedSum, CoalescedBut, FirstFit;
    var bs := s.blocks;
    var k := FirstFit(bs, IndexOf(bs, s.lfree), s.size - want, want);
    if k == |bs| {
      forall j | 0 <= j < |bs| && bs[j].start >= s.lfree ensures !Serves(s, bs[j], want) { NoneServes(s, want, j); }
    } else {
      ServesMeans(s, k, want);
    }
  }

  // rt_malloc returns NULL exactly if no free block from the lowest-free pointer on serves.
  lemma MallocFails(s: State, size: nat)
    requires Inv(s) && 0 < size < RANGE && Align(size) <= s.size
    ensures Malloc(s, size).ptr == None <==>
            forall k :: 0 <= k < |s.blocks| && s.blocks[k].start >= s.lfree ==> !Serves(s, s.blocks[k], Want(size))
  {
    AllocateFails(s, Want(size));
  }

  // ... and while that pointer is the lowest, exactly if no free block at all serves.
  lemma MallocFailsLowest(s: State, size: nat)
    requires Inv(s) && Lowest(s) && 0 < size < RANGE && Align(size) <= s.size
    ensures Malloc(s, size).ptr == None <==> forall k :: 0 <= k < |s.blocks| ==> !Serves(s, s.blocks[k], Want(size))
  {
    MallocFails(s, size);
  }

  // ----- the live blocks -----

  lemma PlugForwardUsed(s: State, i: nat)
    requires Tiles(s.blocks, End(s)) && i < |s.blocks| && !s.blocks[i].used
    ensures UsedBlocks(PlugForward(s, i).blocks) == UsedBlocks(s.blocks)
    ensures Tiles(PlugForward(s, i).blocks, End(s)) && i < |PlugForward(s, i).blocks|
    ensures !PlugForward(s, i).blocks[i].used
  {
    if i + 1 < |s.blocks| && !s.blocks[i + 1].used {
      JoinUsed(s.blocks, End(s), i);
      JoinTiles(s.blocks, End(s), i);
    }
  }

  lemma PlugUsed(s: State, i: nat)
    requires Tiles(s.blocks, End(s)) && i < |s.blocks| && !s.blocks[i].used
    ensures UsedBlocks(Plug(s, i).blocks) == UsedBlocks(s.blocks)
  {
    PlugForwardUsed(s, i);
    var f := PlugForward(s, i);
    if i > 0 && !f.blocks[i - 1].used { JoinUsed(f.blocks, End(f), i - 1); }
  }

  // Freeing removes exactly the freed block from the live ones.
  lemma FreeUsed(s: State, i: nat)
    requires Inv(s) && i < |s.blocks| && s.blocks[i].used
    ensures UsedBlocks(Free(s, i).blocks) == UsedBlocks(s.blocks) - {s.blocks[i]}
  {
    SetFreeSum(s.blocks, End(s), i);
    assert !SetFree(s.blocks, i)[i].used;
    PlugUsed(Release(s, i), i);
    SetFreeUsed(s.blocks, End(s), i);
  }

  lemma CutTiles(s: State, i: nat, want: nat)
    requires Tiles(s.blocks, End(s)) && i < |s.blocks| && Cuttable(s.blocks[i], s.blocks[i].start + HDR + want)
    ensures var e := Cut(s, i, want);
            Tiles(e.blocks, End(e)) && i + 1 < |e.blocks| && !e.blocks[i + 1].used
  {
    SplitTiles(s.blocks, End(s), i, s.blocks[i].start + HDR + want);
  }

  lemma CutUsed(s: State, i: nat, want: nat)
    requires Tiles(s.blocks, End(s)) && i < |s.blocks| && Cuttable(s.blocks[i], s.blocks[i].start + HDR + want)
    ensures UsedBlocks(Shrink(s, i, want).blocks) == UsedBlocks(Split(s.blocks, i, s.blocks[i].start + HDR + want))
  {
    CutTiles(s, i, want);
    PlugUsed(Cut(s, i, want), i + 1);
  }

  // Shrinking in place leaves the block at its address with the new length; nothing else moves.
  lemma ShrinkUsed(s: State, i: nat, want: nat, b: Block, c: Block)
    requires Tiles(s.blocks, End(s)) && i < |s.blocks| && b == s.blocks[i]
    requires c == Block(b.start, b.start + HDR + want, true) && Cuttable(b, c.next)
    ensures UsedBlocks(Shrink(s, i, want).blocks) == UsedBlocks(s.blocks) - {b} + {c}
  {
    CutUsed(s, i, want);
    SplitUsed(s.blocks, End(s), i, c.next);
  }

  lemma TakeUsed(s: State, i: nat, want: nat)
    requires Inv(s) && i < |s.blocks| && Fits(s.blocks[i], want)
    ensures var b := Taken(s.blocks[i], want)[0];
            && UsedBlocks(Take(s, i, want).blocks) == UsedBlocks(s.blocks) + {b} && b !in UsedBlocks(s.blocks)
            && b.used && b.start == s.blocks[i].start && b.start + HDR + want <= b.next <= s.blocks[i].next
  {
    var w := Taken(s.blocks[i], want);
    ReplaceUsed(s.blocks, End(s), i, 1, w);
    assert s.blocks[i..i + 1] == [s.blocks[i]];
    if w[0] in s.blocks {
      var j :| 0 <= j < |s.blocks| && s.blocks[j] == w[0];
      SameStart(s.blocks, End(s), i, j);
    }
  }

  lemma WantCovers(size: nat)
    requires 0 < size < RANGE
    ensures Want(size) >= MIN && (Want(size) >= size <==> size <= RANGE - 4)
  {
  }

  lemma AllocateTakes(s: State, want: nat) returns (i: nat)
    requires Inv(s) && MIN <= want <= s.size && Allocate(s, want).ptr.Some?
    ensures i < |s.blocks| && Fits(s.blocks[i], want) && i >= IndexOf(s.blocks, s.lfree)
    ensures Allocate(s, want) == Result(Take(s, i, want), Some(s.blocks[i].start + HDR))
  {
    i := FirstFit(s.blocks, IndexOf(s.blocks, s.lfree), s.size - want, want);
  }

  // A successful rt_malloc takes a block that fits.
  lemma MallocTakes(s: State, size: nat) returns (i: nat)
    requires Inv(s) && 0 < size < RANGE && Malloc(s, size).ptr.Some?
    ensures i < |s.blocks| && Fits(s.blocks[i], Want(size)) && i >= IndexOf(s.blocks, s.lfree)
    ensures Malloc(s, size) == Result(Take(s, i, Want(size)), Some(s.blocks[i].start + HDR))
  {
    WantCovers(size);
    i := AllocateTakes(s, Want(size));
  }

  lemma MallocSafe(s: State, size: nat)
    requires Inv(s) && size < RANGE
    ensures Inv(Malloc(s, size).state) && (Lowest(s) ==> Lowest(Malloc(s, size).state))
    ensures Malloc(s, size).ptr == None ==> Malloc(s, size).state == s
  {
    if Malloc(s, size).ptr.Some? {
      var i := MallocTakes(s, size);
      TakeSafe(s, i, Want(size));
      if Lowest(s) { TakeLowest(s, i, Want(size)); }
    }
  }

  // A successful rt_malloc adds one live block, large enough exactly if RT_ALIGN did not wrap.
  lemma MallocServes(s: State, size: nat) returns (b: Block)
    requires Inv(s) && 0 < size < RANGE && Malloc(s, size).ptr.Some?
    ensures UsedBlocks(Malloc(s, size).state.blocks) == UsedBlocks(s.blocks) + {b} && b !in UsedBlocks(s.blocks)
    ensures b.used && Malloc(s, size).ptr == Some(b.start + HDR)
    ensures b.next >= b.start + HDR + size <==> size <= RANGE - 4
  {
    var i := MallocTakes(s, size);
    WantCovers(size);
    TakeUsed(s, i, Want(size));
    Bounds(s.blocks, End(s), i);
    b := Taken(s.blocks[i], Want(size))[0];
  }

  // Live blocks are disjoint and lie between the heap's ends.
  lemma LiveDisjoint(s: State, a: Block, b: Block)
    requires Inv(s) && a in UsedBlocks(s.blocks) && b in UsedBlocks(s.blocks) && a != b
    ensures a.next <= b.start || b.next <= a.start
    ensures a.start + HDR < a.next <= End(s)
  {
    var i :| 0 <= i < |s.blocks| && s.blocks[i] == a;
    var j :| 0 <= j < |s.blocks| && s.blocks[j] == b;
    Bounds(s.blocks, End(s), i);
    if i < j { Increasing(s.blocks, End(s), i, j); } else { Increasing(s.blocks, End(s), j, i); }
  }

  // ----- freeing what was just allocated -----

  lemma FreeTakenBlocks(bs: seq<Block>, i: nat, want: nat)
    requires i < |bs| && !bs[i].used
    ensures var w, r := Taken(bs[i], want), TakeBlocks(bs, i, want);
            && i < |r| && r[i] == w[0] && r[..i] == bs[..i]
            && (|w| == 1 ==> SetFree(r, i) == bs && (i + 1 < |bs| ==> r[i + 1] == bs[i + 1]))
            && (|w| == 2 ==> i + 1 < |r| && !r[i + 1].used && r[i + 1].start == w[0].next
                             && Join(SetFree(r, i), i) == bs)
  {
    var w, r := Taken(bs[i], want), TakeBlocks(bs, i, want);
    ReplaceAt(bs, i, 1, w);
    ReplaceAt(r, i, 1, [r[i].(used := false)]);
    var f := SetFree(r, i);
    assert r[..i] == bs[..i];
    if |w| == 2 {
      ReplaceAt(f, i, 2, [Block(f[i].start, f[i + 1].next, false)]);
      assert f[i + 1] == r[i + 1] == w[1];
      assert Join(f, i) == bs;
    } else {
      assert f == bs;
    }
  }

  lemma NextFreeAbove(bs: seq<Block>, i: nat, end: nat)
    requires Tiles(bs, end) && i < |bs| && bs[i].used
    ensures NextFree(bs, i, end) > bs[i].start
  {
    NextFreeIs(bs, i + 1, end);
    NextFreeLater(bs, i, i + 1, end);
    Bounds(bs, end, i);
  }

  lemma {:induction false} NextFreeLater(bs: seq<Block>, i: nat, k: nat, end: nat)
    requires Tiles(bs, end) && i < k <= |bs|
    ensures NextFree(bs, k, end) > bs[i].start
    decreases |bs| - k
  {
    if k == |bs| {
      Bounds(bs, end, i);
    } else {
      Increasing(bs, end, i, k);
      if bs[k].used { NextFreeLater(bs, i, k + 1, end); }
    }
  }

  lemma ReleaseTaken(s: State, i: nat, want: nat)
    requires Inv(s) && i < |s.blocks| && Fits(s.blocks[i], want) && s.lfree <= s.blocks[i].start
    requires var r := TakeBlocks(s.blocks, i, want); i < |r| && r[i] == Taken(s.blocks[i], want)[0]
    ensures var f := Release(Take(s, i, want), i); f.usedMem == s.usedMem && f.lfree == s.lfree && f.size == s.size
  {
    TakeTiles(s.blocks, End(s), i, want);
    NextFreeAbove(TakeBlocks(s.blocks, i, want), i, End(s));
  }

  // Block i of s is free; f has in its place the two halves that a take made of it, both free now.
  lemma PlugTaken(s: State, f: State, i: nat, want: nat)
    requires Coalesced(s.blocks) && i < |s.blocks| && !s.blocks[i].used && s.lfree <= s.blocks[i].start
    requires i < |f.blocks| && f == s.(blocks := f.blocks) && f.blocks[..i] == s.blocks[..i]
    requires f.blocks == s.blocks
             || (i + 1 < |f.blocks| && !f.blocks[i + 1].used && s.blocks[i].start < f.blocks[i + 1].start
                 && Join(f.blocks, i) == s.blocks)
    ensures Plug(f, i) == s
  {
    assert i > 0 ==> s.blocks[i - 1].used;
    assert i > 0 ==> f.blocks[..i][i - 1] == s.blocks[..i][i - 1];
    assert i + 1 < |s.blocks| ==> s.blocks[i + 1].used;
    assert PlugForward(f, i) == s;
  }

  lemma FreeTaken(s: State, i: nat, want: nat)
    requires Inv(s) && i < |s.blocks| && Fits(s.blocks[i], want) && i >= IndexOf(s.blocks, s.lfree)
    ensures var e := Take(s, i, want);
            && i < |e.blocks| && e.blocks[i].used && e.blocks[i].start == s.blocks[i].start
            && e.blocks[i].start <= e.blocks[i].next && Free(e, i) == s
  {
    hide Tiles, Coalesced, LfreeOk, UsedSum, PlugForward;
    var bs, r := s.blocks, TakeBlocks(s.blocks, i, want);
    FreeTakenBlocks(bs, i, want);
    FromLfree(s, i);
    ReleaseTaken(s, i, want);
    var f := Release(Take(s, i, want), i);
    ReplaceAt(r, i, 1, [r[i].(used := false)]);
    assert f.blocks == SetFree(r, i) && f.blocks[..i] == r[..i];
    PlugTaken(s, f, i, want);
  }

  // rt_free undoes rt_malloc completely: blocks, lowest-free pointer and statistics.
  lemma MallocThenFree(s: State, size: nat, e: State, p: nat) returns (i: nat)
    requires Inv(s) && 0 < size < RANGE && Malloc(s, size) == Result(e, Some(p))
    ensures i < |e.blocks| && e.blocks[i].used && p == e.blocks[i].start + HDR
    ensures e.blocks[i].start <= e.blocks[i].next && Free(e, i) == s
  {
    i := MallocTakes(s, size);
    FreeTaken(s, i, Want(size));
  }

  // ----- rt_realloc -----

  ghost predicate LiveAt(s: State, start: nat) {
    IndexOf(s.blocks, start) < |s.blocks| && s.blocks[IndexOf(s.blocks, start)].used
  }

  lemma LiveIndex(s: State, b: Block)
    requires Inv(s) && b in UsedBlocks(s.blocks)
    ensures LiveAt(s, b.start) && s.blocks[IndexOf(s.blocks, b.start)] == b
  {
    var j :| 0 <= j < |s.blocks| && s.blocks[j] == b;
    SameStart(s.blocks, End(s), IndexOf(s.blocks, b.start), j);
  }

  // The old block is still live after the allocation of the new one.
  lemma MoveLive(s: State, i: nat, want: nat)
    requires Inv(s) && i < |s.blocks| && s.blocks[i].used && 0 < want < RANGE && Malloc(s, want).ptr.Some?
    ensures Inv(Malloc(s, want).state) && LiveAt(Malloc(s, want).state, s.blocks[i].start)
    ensures s.blocks[i] == Malloc(s, want).state.blocks[IndexOf(Malloc(s, want).state.blocks, s.blocks[i].start)]
  {
    MallocSafe(s, want);
    var _ := MallocServes(s, want);
    assert s.blocks[i] in UsedBlocks(s.blocks);
    LiveIndex(Malloc(s, want).state, s.blocks[i]);
  }

  // A new block takes the place of live block i.
  ghost function Moved(s: State, i: nat, want: nat): Result
    requires Inv(s) && i < |s.blocks| && s.blocks[i].used && 0 < want < RANGE
  {
    var m := Malloc(s, want);
    if m.ptr.None? then m
    else
      MoveLive(s, i, want);
      Result(Free(m.state, IndexOf(m.state.blocks, s.blocks[i].start)), m.ptr)
  }

  // rt_realloc of live block i to the aligned size 'want': nothing, a split, or a move
  ghost function Resize(s: State, i: nat, want: nat): Result
    requires Inv(s) && i < |s.blocks| && s.blocks[i].used && 0 < want < RANGE
  {
    var b := s.blocks[i];
    if b.next == b.start + HDR + want then Result(s, Some(b.start + HDR))
    else if b.start + HDR + want + HDR + MIN < b.next then Result(Shrink(s, i, want), Some(b.start + HDR))
    else Moved(s, i, want)
  }

  lemma ResizeSafe(s: State, i: nat, want: nat)
    requires Inv(s) && i < |s.blocks| && s.blocks[i].used && 4 <= want < RANGE
    ensures Inv(Resize(s, i, want).state)
    ensures Resize(s, i, want).ptr == None ==> Resize(s, i, want).state == s
  {
    var b := s.blocks[i];
    if b.next != b.start + HDR + want {
      if b.start + HDR + want + HDR + MIN < b.next {
        ShrinkSafe(s, i, want);
      } else if Malloc(s, want).ptr.Some? {
        MoveLive(s, i, want);
        FreeSafe(Malloc(s, want).state, IndexOf(Malloc(s, want).state.blocks, b.start));
      } else {
        MallocSafe(s, want);
      }
    }
  }

  lemma MoveUsed(s: State, i: nat, want: nat, m: State, k: nat) returns (c: Block)
    requires Inv(s) && i < |s.blocks| && s.blocks[i].used && 4 <= want <= RANGE - 4 && Malloc(s, want).ptr.Some?
    requires m == Malloc(s, want).state && Inv(m) && k < |m.blocks| && m.blocks[k] == s.blocks[i]
    ensures Malloc(s, want).ptr == Some(c.start + HDR) && c.used && c.start + HDR + want <= c.next
    ensures UsedBlocks(Free(m, k).blocks) == UsedBlocks(s.blocks) - {s.blocks[i]} + {c}
    ensures c !in UsedBlocks(s.blocks) && UsedBlocks(m.blocks) == UsedBlocks(s.blocks) + {c}
  {
    c := MallocServes(s, want);
    FreeUsed(m, k);
    assert s.blocks[i] in UsedBlocks(s.blocks);
  }

  lemma UsedIsLive(bs: seq<Block>, i: nat)
    requires i < |bs| && bs[i].used
    ensures bs[i] in UsedBlocks(bs)
  {}

  // A successful rt_realloc puts one live block, large enough, in place of the old one; all
  // others stay where they are.
  lemma ResizeMoves(s: State, i: nat, want: nat, e: State, p: nat) returns (c: Block)
    requires Inv(s) && i < |s.blocks| && s.blocks[i].used && 4 <= want <= RANGE - 4
    requires Resize(s, i, want) == Result(e, Some(p))
    ensures p == c.start + HDR && c.used && p + want <= c.next
    ensures UsedBlocks(e.blocks) == UsedBlocks(s.blocks) - {s.blocks[i]} + {c}
    ensures c.start == s.blocks[i].start || c !in UsedBlocks(s.blocks)
  {
    hide Coalesced, LfreeOk, UsedSum, Shrink, UsedBlocks;
    assert s.blocks[i] in UsedBlocks(s.blocks) by { UsedIsLive(s.blocks, i); }
    var b := s.blocks[i];
    if b.next == b.start + HDR + want {
      c := b;
      assert e == s && b in UsedBlocks(s.blocks);
    } else if b.start + HDR + want + HDR + MIN < b.next {
      c := Block(b.start, b.start + HDR + want, true);
      assert e == Shrink(s, i, want);
      ShrinkUsed(s, i, want, b, c);
    } else {
      MoveLive(s, i, want);
      var m := Malloc(s, want).state;
      c := MoveUsed(s, i, want, m, IndexOf(m.blocks, b.start));
    }
  }

  // A pointer from the caller: none, one outside the heap, or that of a live block
  ghost predicate Known(s: State, p: Option<nat>) {
    p.None? || p.value >= End(s) || (p.value >= HDR && LiveAt(s, p.value - HDR))
  }

  // rt_free of a pointer
  ghost function FreePtr(s: State, p: Option<nat>): State
    requires Inv(s) && Known(s, p)
  {
    if p.None? || p.value >= End(s) then s else Free(s, IndexOf(s.blocks, p.value - HDR))
  }

  ghost function Realloc(s: State, p: Option<nat>, size: nat): Result
    requires Inv(s) && Known(s, p) && size < RANGE
  {
    var want := Align(size);
    if want > s.size then Result(s, None)
    else if want == 0 then Result(FreePtr(s, p), None)
    else if p.None? then Malloc(s, want)
    else if p.value >= End(s) then Result(s, p)
    else Resize(s, IndexOf(s.blocks, p.value - HDR), want)
  }

  lemma AlignAtLeast(size: nat)
    requires size < RANGE
    ensures Align(size) == 0 <==> size == 0 || size > RANGE - 4
    ensures Align(size) != 0 ==> size <= Align(size) <= RANGE - 4 && Align(size) >= 4
  {
  }

  lemma FreePtrSafe(s: State, p: Option<nat>, e: State)
    requires Inv(s) && Known(s, p) && e == FreePtr(s, p)
    ensures Inv(e) && (Lowest(s) ==> Lowest(e))
  {
    if p.Some? && p.value < End(s) { FreeSafe(s, IndexOf(s.blocks, p.value - HDR)); }
  }

  lemma ReallocSafe(s: State, p: Option<nat>, size: nat, e: State)
    requires Inv(s) && Known(s, p) && size < RANGE && e == Realloc(s, p, size).state
    ensures Inv(e)
  {
    var want := Align(size);
    AlignAtLeast(size);
    if want > s.size {
    } else if want == 0 {
      FreePtrSafe(s, p, e);
    } else if p.None? {
      MallocSafe(s, want);
    } else if p.value < End(s) {
      ResizeSafe(s, IndexOf(s.blocks, p.value - HDR), want);
    }
  }

  // When rt_realloc of a live block returns NULL the block is still live and the heap unchanged,
  // unless the size counts as zero: then the block has been freed. Sizes that RT_ALIGN wraps do.
  lemma ReallocNull(s: State, b: Block, size: nat, e: State)
    requires Inv(s) && b in UsedBlocks(s.blocks) && size < RANGE && Known(s, Some(b.start + HDR))
    requires b.start + HDR < End(s) && Realloc(s, Some(b.start + HDR), size) == Result(e, None)
    ensures e == s <==> 0 < size <= RANGE - 4
    ensures b in UsedBlocks(e.blocks) <==> 0 < size <= RANGE - 4
  {
    hide Coalesced, LfreeOk, UsedSum, Resize;
    AlignAtLeast(size);
    LiveIndex(s, b);
    var i := IndexOf(s.blocks, b.start);
    if Align(size) == 0 {
      FreeUsed(s, i);
    } else if Align(size) <= s.size {
      ResizeSafe(s, i, Align(size));
    }
  }

  // ----- runs -----

  datatype Op = DoMalloc(size: nat) | DoFree(p: Option<nat>) | DoRealloc(p: Option<nat>, size: nat)

  ghost predicate Enabled(s: State, op: Op) {
    match op
    case DoMalloc(size) => size < RANGE
    case DoFree(p) => Known(s, p)
    case DoRealloc(p, size) => Known(s, p) && size < RANGE
  }

  ghost function Step(s: State, op: Op): State
    requires Inv(s) && Enabled(s, op)
  {
    match op
    case DoMalloc(size) => Malloc(s, size).state
    case DoFree(p) => FreePtr(s, p)
    case DoRealloc(p, size) => Realloc(s, p, size).state
  }

  // rt_system_heap_init for a heap of 'size' bytes between its two markers
  function Init(size: nat): State { State(size, [Block(0, size + HDR, false)], 0, 0) }

  lemma InitSafe(size: nat)
    requires MIN <= size && size + 2 * HDR < RANGE
    ensures Inv(Init(size)) && Lowest(Init(size))
  {
    var bs := Init(size).blocks;
    SumOne(bs[0]);
    assert FreeAt(bs, bs[0].start);
  }

  lemma StepSafe(s: State, op: Op)
    requires Inv(s) && Enabled(s, op)
    ensures Inv(Step(s, op))
    ensures Lowest(s) && !op.DoRealloc? ==> Lowest(Step(s, op))
  {
    match op
    case DoMalloc(size) => MallocSafe(s, size);
    case DoFree(p) => FreePtrSafe(s, p, Step(s, op));
    case DoRealloc(p, size) => ReallocSafe(s, p, size, Step(s, op));
  }

  ghost predicate Runs(s: State, ops: seq<Op>, last: State)
    requires Inv(s)
    decreases |ops|
  {
    if ops == [] then last == s
    else Enabled(s, ops[0]) && (StepSafe(s, ops[0]); Runs(Step(s, ops[0]), ops[1..], last))
  }

  // After any run the blocks tile the heap, no two free ones touch, and used_mem is their sum;
  // the lowest-free pointer is the lowest if nothing was reallocated.
  lemma {:induction false} RunSafe(s: State, ops: seq<Op>, last: State)
    requires Inv(s) && Runs(s, ops, last)
    ensures Inv(last)
    ensures Lowest(s) && (forall i :: 0 <= i < |ops| ==> !ops[i].DoRealloc?) ==> Lowest(last)
    decreases |ops|
  {
    if ops != [] {
      StepSafe(s, ops[0]);
      RunSafe(Step(s, ops[0]), ops[1..], last);
      assert forall i :: 0 <= i < |ops[1..]| ==> ops[1..][i] == ops[i + 1];
    }
  }

  // Under rt_malloc and rt_free alone, NULL means that no free block fits, except for an exact
  // fit at the very end of the heap.
  lemma NullMeansFull(size: nat, ops: seq<Op>, s: State, request: nat)
    requires MIN <= size && size + 2 * HDR < RANGE && 0 < request < RANGE
    requires Inv(Init(size)) && Runs(Init(size), ops, s) && forall i :: 0 <= i < |ops| ==> !ops[i].DoRealloc?
    ensures Inv(s)
    ensures Malloc(s, request).ptr == None <==>
            Align(request) > s.size || forall k :: 0 <= k < |s.blocks| ==> !Serves(s, s.blocks[k], Want(request))
  {
    InitSafe(size);
    RunSafe(Init(size), ops, s);
    if Align(request) <= s.size { MallocFailsLowest(s, request); }
  }

  // ----- alignment -----

  lemma TakeAligned(bs: seq<Block>, i: nat, want: nat)
    requires i < |bs| && Aligned(bs) && want % 4 == 0
    ensures Aligned(TakeBlocks(bs, i, want))
  {
    hide Aligned, Replace, Taken;
    StartAligned(bs, i);
    PiecesAligned(bs[i], want);
    ReplaceAligned(bs, i, 1, Taken(bs[i], want));
  }

  lemma StartAligned(bs: seq<Block>, i: nat)
    requires i < |bs| && Aligned(bs)
    ensures bs[i].start % 4 == 0
  {}

  lemma PiecesAligned(b: Block, want: nat)
    requires b.start % 4 == 0 && want % 4 == 0
    ensures Aligned(Taken(b, want))
  {
    SumAligned(b.start, want);
  }

  lemma SumAligned(a: nat, b: nat)
    requires a % 4 == 0 && b % 4 == 0
    ensures (a + HDR + b) % 4 == 0
  {
    assert a == a / 4 * 4 && b == b / 4 * 4;
  }

  lemma PlugAligned(s: State, i: nat)
    requires i < |s.blocks| && Aligned(s.blocks)
    ensures Aligned(Plug(s, i).blocks)
  {
    var f := PlugForward(s, i);
    if i + 1 < |s.blocks| && !s.blocks[i + 1].used {
      ReplaceAligned(s.blocks, i, 2, [Block(s.blocks[i].start, s.blocks[i + 1].next, false)]);
    }
    assert Aligned(f.blocks);
    if i > 0 && !f.blocks[i - 1].used {
      ReplaceAligned(f.blocks, i - 1, 2, [Block(f.blocks[i - 1].start, f.blocks[i].next, false)]);
    }
  }

  lemma FreeAligned(s: State, i: nat)
    requires i < |s.blocks| && Aligned(s.blocks) && s.blocks[i].start <= s.blocks[i].next
    ensures Aligned(Free(s, i).blocks)
  {
    ReplaceAligned(s.blocks, i, 1, [s.blocks[i].(used := false)]);
    PlugAligned(Release(s, i), i);
  }

  lemma MallocAligned(s: State, size: nat)
    requires Inv(s) && size < RANGE && Aligned(s.blocks)
    ensures Aligned(Malloc(s, size).state.blocks)
    ensures Malloc(s, size).ptr.Some? ==> Malloc(s, size).ptr.value % 4 == 0
  {
    hide TakeBlocks, Take, Want, Align, Aligned, Malloc;
    MallocSafe(s, size);
    if Malloc(s, size).ptr.Some? {
      SomeSize(s, size);
      var i := MallocTakes(s, size);
      TakenAligned(s, i, size);
    }
  }

  lemma SomeSize(s: State, size: nat)
    requires Inv(s) && Malloc(s, size).ptr.Some?
    ensures size > 0
  {}

  lemma TakenAligned(s: State, i: nat, size: nat)
    requires Inv(s) && i < |s.blocks| && Fits(s.blocks[i], Want(size)) && Aligned(s.blocks)
    ensures Aligned(Take(s, i, Want(size)).blocks) && (s.blocks[i].start + HDR) % 4 == 0
  {
    TakeAligned(s.blocks, i, Want(size));
  }

  lemma ShrinkAligned(s: State, i: nat, want: nat)
    requires i < |s.blocks| && s.blocks[i].start + HDR + want <= s.blocks[i].next && Aligned(s.blocks) && want % 4 == 0
    ensures Aligned(Shrink(s, i, want).blocks)
  {
    var b := s.blocks[i];
    var at := b.start + HDR + want;
    var w := [Block(b.start, at, b.used), Block(at, b.next, false)];
    SumAligned(b.start, want);
    ReplaceAligned(s.blocks, i, 1, w);
    ReplaceAt(s.blocks, i, 1, w);
    PlugAligned(Cut(s, i, want), i + 1);
  }

  lemma ResizeAligned(s: State, i: nat, want: nat)
    requires Inv(s) && i < |s.blocks| && s.blocks[i].used && 4 <= want < RANGE && want % 4 == 0 && Aligned(s.blocks)
    ensures Aligned(Resize(s, i, want).state.blocks)
  {
    hide Aligned, Shrink, Malloc, Free;
    var b := s.blocks[i];
    if b.next != b.start + HDR + want {
      if b.start + HDR + want + HDR + MIN < b.next {
        ShrinkAligned(s, i, want);
      } else {
        MallocAligned(s, want);
        if Malloc(s, want).ptr.Some? {
          MoveLive(s, i, want);
          FreeAligned(Malloc(s, want).state, IndexOf(Malloc(s, want).state.blocks, b.start));
        }
      }
    }
  }

  lemma StepAligned(s: State, op: Op)
    requires Inv(s) && Enabled(s, op) && Aligned(s.blocks)
    ensures Aligned(Step(s, op).blocks)
  {
    hide Aligned, Resize, Malloc, Free;
    match op
    case DoMalloc(size) => MallocAligned(s, size);
    case DoFree(p) => FreePtrAligned(s, p);
    case DoRealloc(p, size) =>
      var want := Align(size);
      AlignAtLeast(size);
      AlignIsAligned(size);
      if want > s.size {
      } else if want == 0 {
        FreePtrAligned(s, p);
      } else if p.None? {
        MallocAligned(s, want);
      } else if p.value < End(s) {
        ResizeAligned(s, IndexOf(s.blocks, p.value - HDR), want);
      }
  }

  lemma AlignIsAligned(size: nat)
    ensures Align(size) % 4 == 0
  {}

  lemma FreePtrAligned(s: State, p: Option<nat>)
    requires Inv(s) && Known(s, p) && Aligned(s.blocks)
    ensures Aligned(FreePtr(s, p).blocks)
  {
    if p.Some? && p.value < End(s) { FreeAligned(s, IndexOf(s.blocks, p.value - HDR)); }
  }

  lemma {:induction false} StaysAligned(s: State, ops: seq<Op>, last: State)
    requires Inv(s) && Aligned(s.blocks) && Runs(s, ops, last)
    ensures Aligned(last.blocks)
    decreases |ops|
  {
    if ops != [] {
      StepSafe(s, ops[0]);
      StepAligned(s, ops[0]);
      StaysAligned(Step(s, ops[0]), ops[1..], last);
    }
  }

  // In every run, reallocations included, all blocks handed out lie at multiples of 4.
  lemma RunAligned(size: nat, ops: seq<Op>, last: State)
    requires Inv(Init(size)) && Runs(Init(size), ops, last)
    ensures Aligned(last.blocks)
    ensures forall b | b in UsedBlocks(last.blocks) :: (b.start + HDR) % 4 == 0
  {
    hide Inv, Runs, Init, UsedBlocks;
    InitAligned(size);
    StaysAligned(Init(size), ops, last);
    PayloadAligned(last.blocks);
  }

  lemma InitAligned(size: nat)
    ensures Aligned(Init(size).blocks)
  {}

  lemma PayloadAligned(bs: seq<Block>)
    requires Aligned(bs)
    ensures forall b | b in UsedBlocks(bs) :: (b.start + HDR) % 4 == 0
  {
    forall b | b in UsedBlocks(bs) ensures (b.start + HDR) % 4 == 0 {
      var i :| 0 <= i < |bs| && bs[i] == b;
      HeaderMultiple(b.start);
    }
  }

  lemma HeaderMultiple(n: nat)
    requires n % 4 == 0
    ensures (n + HDR) % 4 == 0
  {}

  // ----- shrinking hides free memory -----

  // What a split by rt_realloc leaves: the new free block, and otherwise old ones
  lemma ShrinkShape(s: State, i: nat, want: nat, at: nat, f: State)
    requires Inv(s) && i < |s.blocks| && at == s.blocks[i].start + HDR + want && Cuttable(s.blocks[i], at)
    requires f == Shrink(s, i, want)
    ensures i + 1 < |f.blocks| && f.blocks[i + 1].start == at && !f.blocks[i + 1].used && f.blocks[i].used
    ensures forall k :: 0 <= k < |f.blocks| && k != i && k != i + 1 ==> f.blocks[k] in s.blocks
    ensures f.lfree == if i + 1 < |s.blocks| && !s.blocks[i + 1].used && s.lfree == s.blocks[i + 1].start then at
                       else s.lfree
  {
    var bs, c := s.blocks, Cut(s, i, want);
    ReplaceAt(bs, i, 1, [Block(bs[i].start, at, true), Block(at, bs[i].next, false)]);
    assert c.blocks[i].used && c.blocks[i + 1] == Block(at, bs[i].next, false);
    if i + 1 < |bs| && !bs[i + 1].used {
      assert c.blocks[i + 2] == bs[i + 1];
      ReplaceAt(c.blocks, i + 1, 2, [Block(at, bs[i + 1].next, false)]);
      assert f == Joined(c, i + 1);
    } else {
      assert i + 1 < |bs| ==> c.blocks[i + 2] == bs[i + 1];
      assert f == c;
    }
  }

  // After a split by rt_realloc the pointer is still the lowest exactly if it lies below the new
  // free block, or was moved down with the free block that this one swallowed.
  lemma ShrinkLowest(s: State, i: nat, want: nat, at: nat)
    requires Inv(s) && Lowest(s) && i < |s.blocks| && at == s.blocks[i].start + HDR + want && Cuttable(s.blocks[i], at)
    ensures Lowest(Shrink(s, i, want)) <==>
            s.lfree <= at || (i + 1 < |s.blocks| && !s.blocks[i + 1].used && s.lfree == s.blocks[i + 1].start)
  {
    var f := Shrink(s, i, want);
    ShrinkShape(s, i, want, at, f);
    if f.lfree <= at {
      forall k | 0 <= k < |f.blocks| && !f.blocks[k].used ensures f.lfree <= f.blocks[k].start {
        if k != i + 1 { assert f.blocks[k] in s.blocks; }
      }
    } else {
      assert f.lfree > f.blocks[i + 1].start;
    }
    assert i + 1 < |s.blocks| ==> s.blocks[i].next == s.blocks[i + 1].start;
  }

  // A heap of 60 bytes that is one used block, and the same after shrinking that block to 4 bytes
  const FULL := State(60, [Block(0, 72, true)], 72, 72)
  const SHRUNK := State(60, [Block(0, 16, true), Block(16, 72, false)], 72, 16)

  lemma FullSafe()
    ensures Inv(FULL) && Lowest(FULL)
  {
    SumOne(FULL.blocks[0]);
  }

  lemma FullReached()
    ensures Malloc(Init(60), 56) == Result(FULL, Some(HDR))
  {
    var s := Init(60);
    assert IndexOf(s.blocks, 0) == 0 && FirstFit(s.blocks, 0, 4, 56) == 0;
    assert TakeBlocks(s.blocks, 0, 56) == FULL.blocks;
    assert NextFree(FULL.blocks, 0, 72) == 72;
  }

  lemma ShrunkReached()
    ensures Inv(FULL) && Known(FULL, Some(HDR)) && Realloc(FULL, Some(HDR), 4) == Result(SHRUNK, Some(HDR))
  {
    FullSafe();
    var c := Cut(FULL, 0, 4);
    assert c.blocks == SHRUNK.blocks;
    assert PlugForward(c, 1) == c;
  }

  // The 44 free bytes behind the header cannot be allocated, although they would do.
  lemma ShrinkHides()
    ensures Malloc(Init(60), 56) == Result(FULL, Some(HDR))
    ensures Realloc(FULL, Some(HDR), 4) == Result(SHRUNK, Some(HDR))
    ensures Inv(SHRUNK) && Malloc(SHRUNK, 4).ptr == None && Serves(SHRUNK, SHRUNK.blocks[1], Want(4))
  {
    FullReached();
    ShrunkReached();
    ReallocSafe(FULL, Some(HDR), 4, SHRUNK);
    assert IndexOf(SHRUNK.blocks[1..], 72) == 1;
  }
}


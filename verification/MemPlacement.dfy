// Where the small-memory heap (src/mem.c) puts a block, and how much of a free block it takes.
module MemPlacement {
  import opened Options
  import opened Blocks
  import opened MemModel
  import opened MemProperties

  // A block c with room for 'want' bytes, cut from what lay between c.start and 'end': exactly that
  // room if the rest can be a block of its own, else all of it.
  ghost predicate CutFrom(c: Block, end: nat, want: nat) {
    if c.start + HDR + want + HDR + MIN <= end then c.next == c.start + HDR + want else c.next == end
  }

  // The room that rt_malloc looks for: the least multiple of 4 that is enough and no less than MIN
  lemma WantLeast(size: nat, n: nat)
    requires 0 < size <= RANGE - 4
    ensures Want(size) % 4 == 0 && Want(size) >= size && Want(size) >= MIN
    ensures n % 4 == 0 && n >= size && n >= MIN ==> n >= Want(size)
  {
    assert n % 4 == 0 ==> n == n / 4 * 4;
  }

  lemma {:induction false} FirstFitFirst(bs: seq<Block>, i: nat, limit: nat, want: nat, j: nat)
    requires i <= |bs| && i <= j < FirstFit(bs, i, limit, want) && FirstFit(bs, i, limit, want) < |bs|
    ensures bs[j].used || bs[j].start + HDR + want > bs[j].next
    decreases |bs| - i
  {
    if j > i { FirstFitFirst(bs, i + 1, limit, want, j); }
  }

  lemma Tiled(s: State)
    requires Inv(s)
    ensures Tiles(s.blocks, End(s)) && forall k :: 0 <= k < |s.blocks| ==> s.blocks[k].start <= s.blocks[k].next
  {}

  lemma Earlier(s: State, want: nat, i: nat, j: nat)
    requires Inv(s) && MIN <= want <= s.size && i < |s.blocks| && j < |s.blocks|
    requires i == FirstFit(s.blocks, IndexOf(s.blocks, s.lfree), s.size - want, want)
    requires s.blocks[j].start >= s.lfree && Serves(s, s.blocks[j], want)
    ensures s.blocks[i].start <= s.blocks[j].start
  {
    hide Inv, FirstFit, UsedSum;
    Tiled(s);
    FromLfree(s, j);
    if j < i {
      FirstFitFirst(s.blocks, IndexOf(s.blocks, s.lfree), s.size - want, want, j);
    } else if i < j {
      Increasing(s.blocks, End(s), i, j);
    }
  }

  // rt_malloc takes, of the free blocks from the lowest-free pointer on that serve, the lowest, and
  // no more of it than it needs, unless the rest is too small for a block.
  lemma MallocPlaces(s: State, size: nat) returns (f: Block, c: Block)
    requires Inv(s) && 0 < size < RANGE && Malloc(s, size).ptr.Some?
    ensures f in s.blocks && Serves(s, f, Want(size)) && s.lfree <= f.start
    ensures forall j :: 0 <= j < |s.blocks| && s.blocks[j].start >= s.lfree && Serves(s, s.blocks[j], Want(size)) ==>
        f.start <= s.blocks[j].start
    ensures UsedBlocks(Malloc(s, size).state.blocks) == UsedBlocks(s.blocks) + {c} && c.used
    ensures c.start == f.start && CutFrom(c, f.next, Want(size)) && Malloc(s, size).ptr == Some(f.start + HDR)
  {
    hide UsedSum, Serves, FirstFit;
    var want := Want(size);
    WantCovers(size);
    var i := MallocTakes(s, size);
    MallocFits(s, size, i);
    TakeUsed(s, i, want);
    f := s.blocks[i];
    c := Taken(f, want)[0];
    ServesMeans(s, i, want);
    forall j | 0 <= j < |s.blocks| && s.blocks[j].start >= s.lfree && Serves(s, s.blocks[j], want)
      ensures f.start <= s.blocks[j].start
    {
      Earlier(s, want, i, j);
    }
  }

  lemma MallocFits(s: State, size: nat, i: nat)
    requires Inv(s) && 0 < size < RANGE && Malloc(s, size).ptr.Some? && i < |s.blocks|
    requires Malloc(s, size).ptr == Some(s.blocks[i].start + HDR)
    ensures Want(size) <= s.size
    ensures i == FirstFit(s.blocks, IndexOf(s.blocks, s.lfree), s.size - Want(size), Want(size))
    ensures s.blocks[i].start < s.size - Want(size)
  {
    hide UsedSum, Take, CoalescedBut, Tiles, FirstFit;
    var k := FirstFit(s.blocks, IndexOf(s.blocks, s.lfree), s.size - Want(size), Want(size));
    SameStart(s.blocks, End(s), i, k);
  }

  // rt_realloc keeps a block of the right size, cuts one that is larger by more than a minimal
  // block to exactly the size, and otherwise moves it to a place that rt_malloc finds.
  lemma ResizePlaces(s: State, i: nat, want: nat, e: State, p: nat) returns (c: Block)
    requires Inv(s) && i < |s.blocks| && s.blocks[i].used && 4 <= want <= RANGE - 4 && want % 4 == 0
    requires Resize(s, i, want) == Result(e, Some(p))
    ensures p == c.start + HDR && UsedBlocks(e.blocks) == UsedBlocks(s.blocks) - {s.blocks[i]} + {c} && c.used
    ensures
      var b := s.blocks[i];
      if b.next == b.start + HDR + want then c == b
      else if b.next - b.start - HDR > want + HDR + MIN then c.start == b.start && c.next == b.start + HDR + want
      else exists f :: f in s.blocks && !f.used && c.start == f.start && CutFrom(c, f.next, Want(want))
  {
    hide UsedSum, Serves, Moved, Shrink;
    var b := s.blocks[i];
    UsedIsLive(s.blocks, i);
    if b.next == b.start + HDR + want {
      c := b;
    } else if b.start + HDR + want + HDR + MIN < b.next {
      c := Block(b.start, b.start + HDR + want, true);
      ShrinkUsed(s, i, want, b, c);
    } else {
      c := MovePlaces(s, i, want);
    }
  }

  lemma MovePlaces(s: State, i: nat, want: nat) returns (c: Block)
    requires Inv(s) && i < |s.blocks| && s.blocks[i].used && 4 <= want <= RANGE - 4 && Moved(s, i, want).ptr.Some?
    ensures var r := Moved(s, i, want);
            r.ptr == Some(c.start + HDR) && c.used
            && UsedBlocks(r.state.blocks) == UsedBlocks(s.blocks) - {s.blocks[i]} + {c}
    ensures exists f :: f in s.blocks && !f.used && c.start == f.start && CutFrom(c, f.next, Want(want))
  {
    hide UsedSum, Tiles, Coalesced, FirstFit;
    Tiled(s);
    MoveLive(s, i, want);
    var m := Malloc(s, want).state;
    var f, c2 := MallocPlaces(s, want);
    c := MoveUsed(s, i, want, m, IndexOf(m.blocks, s.blocks[i].start));
    SameNew(s, m, c, c2);
  }

  lemma SameNew(s: State, m: State, c: Block, d: Block)
    requires UsedBlocks(m.blocks) == UsedBlocks(s.blocks) + {c} && c !in UsedBlocks(s.blocks)
    requires UsedBlocks(m.blocks) == UsedBlocks(s.blocks) + {d}
    ensures c == d
  {
    assert c in UsedBlocks(m.blocks);
  }
}

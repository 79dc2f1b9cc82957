// Where the ring heap (src/memheap.c) puts a block, how much of a free block it takes, and in which
// order it searches.
module MemheapPlacement {
  import opened Options
  import opened Lists
  import opened Blocks
  import opened MemheapModel
  import opened MemheapProperties

  // A block c with room for 'want' bytes, cut from what lay between c.start and 'end': exactly that
  // room if the rest can be a block of its own, else all of it.
  ghost predicate CutFrom(c: Block, end: nat, want: nat) {
    if c.start + HEAD + want + HEAD + LEAST <= end then c.next == c.start + HEAD + want else c.next == end
  }

  // The room that rt_memheap_alloc looks for: the least multiple of 4 that is enough and no less than
  // LEAST
  lemma WantLeast(size: nat, n: nat)
    requires size <= RANGE - 4
    ensures Want(size) % 4 == 0 && Want(size) >= size && Want(size) >= LEAST
    ensures n % 4 == 0 && n >= size && n >= LEAST ==> n >= Want(size)
  {
    assert n % 4 == 0 ==> n == n / 4 * 4;
  }

  // k is the first place of the ring whose block has room.
  ghost predicate FirstRoom(bs: seq<Block>, free: seq<nat>, want: nat, k: nat, f: Block) {
    && k < |free| && f in bs && f.start == free[k] && !f.used && Payload(f) >= want
    && forall j, g :: 0 <= j < k && g in bs && g.start == free[j] ==> Payload(g) < want
  }

  lemma {:induction false} RingFitFirst(bs: seq<Block>, end: nat, free: seq<nat>, want: nat) returns (k: nat)
    requires Tiles(bs, end) && (forall p :: p in free ==> FreeAt(bs, p)) && RingFit(bs, free, want).Some?
    ensures RingFit(bs, free, want).value < |bs|
    ensures FirstRoom(bs, free, want, k, bs[RingFit(bs, free, want).value])
    decreases |free|
  {
    hide Tiles;
    assert free[0] in free;
    var i := IndexOf(bs, free[0]);
    OneAt(bs, end, free[0]);
    if Payload(bs[i]) >= want {
      k := 0;
    } else {
      k := RingFitFirst(bs, end, free[1..], want);
      k := k + 1;
    }
  }

  // The one block at the start of a free block
  lemma OneAt(bs: seq<Block>, end: nat, p: nat)
    requires Tiles(bs, end) && FreeAt(bs, p)
    ensures IndexOf(bs, p) < |bs| && !bs[IndexOf(bs, p)].used && bs[IndexOf(bs, p)].start == p
    ensures forall g :: g in bs && g.start == p ==> g == bs[IndexOf(bs, p)]
  {
    var j :| 0 <= j < |bs| && bs[j].start == p && !bs[j].used;
    RingIndex(bs, end, j);
    forall g | g in bs && g.start == p ensures g == bs[IndexOf(bs, p)] {
      var x :| 0 <= x < |bs| && bs[x] == g;
      RingIndex(bs, end, x);
    }
  }

  // rt_memheap_alloc takes the first block of the free ring that has room, and no more of it than it
  // needs, unless the rest is too small for a block.
  lemma AllocPlaces(s: State, size: nat, e: State, p: nat) returns (k: nat, f: Block, c: Block)
    requires Inv(s) && 0 < size < RANGE && Alloc(s, size) == Result(e, Some(p))
    ensures FirstRoom(s.blocks, s.free, Want(size), k, f)
    ensures UsedBlocks(e.blocks) == UsedBlocks(s.blocks) + {c} && c.used
    ensures p == c.start + HEAD && c.start == f.start && CutFrom(c, f.next, Want(size))
  {
    hide FreeSum, CoalescedBut, RingFit;
    var i := AllocTakes(s, size, e, p);
    TakeUsed(s, i, Want(size));
    k := RingFitFirst(s.blocks, s.pool - HEAD, s.free, Want(size));
    f, c := s.blocks[i], Carved(s.blocks[i], Want(size))[0];
  }

  // ----- the order of the ring -----

  ghost predicate Ahead(list: seq<nat>, a: nat, b: nat) {
    exists x, y :: 0 <= x < y < |list| && list[x] == a && list[y] == b
  }

  // In the ring after an operation, what has come in stands before what was there, and that is in
  // the order of before.
  ghost predicate Youngest(before: seq<nat>, after: seq<nat>) {
    forall i, j :: 0 <= i < j < |after| && after[i] in before ==> Ahead(before, after[i], after[j])
  }

  lemma RestInOrder(free: seq<nat>, t: nat, i: nat, j: nat)
    requires i < j < |Without(free, t)|
    ensures Ahead(free, Without(free, t)[i], Without(free, t)[j])
  {
    var x, y := WithoutOrder(free, t, i, j);
  }

  ghost predicate AllAhead(list: seq<nat>, rest: seq<nat>) {
    forall i, j :: 0 <= i < j < |rest| ==> Ahead(list, rest[i], rest[j])
  }

  lemma RestAhead(free: seq<nat>, out: Option<nat>)
    ensures AllAhead(free, if out.Some? then Without(free, out.value) else free)
  {
    hide Without, Ahead;
    var rest := if out.Some? then Without(free, out.value) else free;
    forall i, j | 0 <= i < j < |rest| ensures Ahead(free, rest[i], rest[j]) {
      if out.Some? { RestInOrder(free, out.value, i, j); } else { InOrder(free, i, j); }
    }
  }

  lemma RingedYoungest(free: seq<nat>, out: Option<nat>, into: Option<nat>)
    requires into.Some? ==> into.value !in free
    ensures Youngest(free, Ringed(free, out, into))
  {
    hide Without, Ahead;
    RestAhead(free, out);
    var rest := if out.Some? then Without(free, out.value) else free;
    InFront(free, rest, into);
  }

  lemma InFront(free: seq<nat>, rest: seq<nat>, into: Option<nat>)
    requires AllAhead(free, rest) && (into.Some? ==> into.value !in free)
    ensures Youngest(free, if into.Some? then [into.value] + rest else rest)
  {
    hide Ahead;
    if into.Some? {
      var r := [into.value] + rest;
      forall i, j | 0 <= i < j < |r| && r[i] in free ensures Ahead(free, r[i], r[j]) {
        assert r[i] == rest[i - 1] && r[j] == rest[j - 1];
      }
    }
  }

  lemma InOrder(list: seq<nat>, i: nat, j: nat)
    requires i < j < |list|
    ensures Ahead(list, list[i], list[j])
  {}

  lemma MergedIsRinged(free: seq<nat>, bs: seq<Block>, i: nat)
    requires i < |bs|
    ensures MergedFree(free, bs, i) ==
      Ringed(free, if RightFree(bs, i) then Some(bs[i + 1].start) else None,
             if LeftFree(bs, i) then None else Some(bs[i].start))
  {}

  // A rest that is cut off comes first.
  lemma AllocYoungest(s: State, size: nat, e: State)
    requires Inv(s) && 0 < size < RANGE && e == Alloc(s, size).state
    ensures Youngest(s.free, e.free)
  {
    hide FreeSum, CoalescedBut, RingFit, Youngest;
    var end := s.pool - HEAD;
    if Alloc(s, size).ptr.Some? {
      var i := AllocTakes(s, size, e, Alloc(s, size).ptr.value);
      var w := Carved(s.blocks[i], Want(size));
      if |w| == 2 { InsideFresh(s.blocks, end, i, w[1].start); }
      RingedYoungest(s.free, Some(s.blocks[i].start), if |w| == 2 then Some(w[1].start) else None);
    } else {
      RingedYoungest(s.free, None, None);
    }
  }

  // A block freed comes first, unless it goes into the block on its left, which keeps its place.
  lemma FreeYoungest(s: State, i: nat)
    requires Inv(s) && i < |s.blocks| && s.blocks[i].used
    ensures Youngest(s.free, FreeAll(s, i).free)
    ensures LeftFree(s.blocks, i) ==> s.blocks[i - 1].start in FreeAll(s, i).free
    ensures !LeftFree(s.blocks, i) ==> FreeAll(s, i).free[..1] == [s.blocks[i].start]
  {
    hide FreeSum, CoalescedBut, Youngest;
    UsedNotFree(s.blocks, s.pool - HEAD, i);
    MergedIsRinged(s.free, s.blocks, i);
    RingedYoungest(s.free, if RightFree(s.blocks, i) then Some(s.blocks[i + 1].start) else None,
                   if LeftFree(s.blocks, i) then None else Some(s.blocks[i].start));
    if LeftFree(s.blocks, i) { LeftStays(s, i); }
  }

  lemma LeftStays(s: State, i: nat)
    requires Inv(s) && 0 < i < |s.blocks| && LeftFree(s.blocks, i)
    ensures s.blocks[i - 1].start in MergedFree(s.free, s.blocks, i)
  {
    assert FreeAt(s.blocks, s.blocks[i - 1].start);
    if RightFree(s.blocks, i) { Increasing(s.blocks, s.pool - HEAD, i - 1, i + 1); }
  }

  lemma RecutFresh(bs: seq<Block>, end: nat, i: nat, at: nat)
    requires Tiles(bs, end) && Recuttable(bs, i, at) && at != bs[i].next
    ensures !FreeAt(bs, at)
  {
    if at < bs[i].next {
      InsideFresh(bs, end, i, at);
    } else {
      assert bs[i].next == bs[i + 1].start;
      InsideFresh(bs, end, i + 1, at);
    }
  }

  // What a resize in place leaves over comes first.
  lemma RecutYoungest(s: State, i: nat, at: nat)
    requires Inv(s) && Recuttable(s.blocks, i, at) && at != s.blocks[i].next
    ensures Youngest(s.free, RecutAt(s, i, at).free) && RecutAt(s, i, at).free[..1] == [at]
  {
    hide FreeSum, CoalescedBut, Youngest;
    RecutFresh(s.blocks, s.pool - HEAD, i, at);
    RingedYoungest(s.free, if RightFree(s.blocks, i) then Some(s.blocks[i + 1].start) else None, Some(at));
  }

  // ----- rt_memheap_realloc -----

  // A resize that grows into the block's free successor, or shrinks it by more than a minimal block,
  // gives exactly the size; one that asks for less than that much less changes nothing; any other
  // moves the block to a place that rt_memheap_alloc finds.
  lemma ResizePlaces(s: State, i: nat, want: nat, e: State, q: nat) returns (c: Block)
    requires Inv(s) && i < |s.blocks| && s.blocks[i].used && Harmless(s.blocks, i, want)
    requires Resize(s, i, want) == Result(e, Some(q))
    ensures q == c.start + HEAD && UsedBlocks(e.blocks) == UsedBlocks(s.blocks) - {s.blocks[i]} + {c} && c.used
    ensures
      var b, have := s.blocks[i], Payload(s.blocks[i]);
      if want > have && !GrowsInPlace(s.blocks, i, want) then
        exists f :: f in s.blocks && !f.used && c.start == f.start && CutFrom(c, f.next, Want(want))
      else if want > have || want + HEAD + LEAST < have then c.start == b.start && c.next == b.start + HEAD + want
      else c == b
  {
    hide Inv, RecutAt, Moved, GrowsInPlace, Sane, RightFree;
    var b := s.blocks[i];
    assert b in UsedBlocks(s.blocks);
    if InPlace(s.blocks, i, want) {
      c := GrownMoves(s, i, want, e);
    } else if want > Payload(b) {
      c := MovePlaces(s, i, want, e, q);
    } else {
      c := b;
    }
  }

  lemma MovePlaces(s: State, i: nat, want: nat, e: State, q: nat) returns (c: Block)
    requires Inv(s) && i < |s.blocks| && s.blocks[i].used && LEAST <= want < RANGE
    requires Moved(s, i, want) == Result(e, Some(q))
    ensures q == c.start + HEAD && c.used
    ensures UsedBlocks(e.blocks) == UsedBlocks(s.blocks) - {s.blocks[i]} + {c}
    ensures exists f :: f in s.blocks && !f.used && c.start == f.start && CutFrom(c, f.next, Want(want))
  {
    hide FreeSum, CoalescedBut, Tiles, Merge, RingFit;
    c := MoveMoves(s, i, want, e, q);
    var m := Alloc(s, want).state;
    var k, f, d := AllocPlaces(s, want, m, q);
    var j, c2 := MoveLive(s, s.blocks[i], want, m, q);
    MoveNew(s, e, s.blocks[i], c, d, c2, m);
  }

  // The block that comes in is one and the same.
  lemma MoveNew(s: State, e: State, b: Block, c: Block, d: Block, c2: Block, m: State)
    requires c !in UsedBlocks(s.blocks) && c2 !in UsedBlocks(s.blocks) && b in UsedBlocks(s.blocks)
    requires UsedBlocks(m.blocks) == UsedBlocks(s.blocks) + {d} == UsedBlocks(s.blocks) + {c2}
    requires UsedBlocks(e.blocks) == UsedBlocks(s.blocks) - {b} + {c} == UsedBlocks(s.blocks) - {b} + {c2}
    ensures c == d
  {
    assert c2 in UsedBlocks(m.blocks) && c in UsedBlocks(e.blocks);
  }

  // ----- the most that was ever in use -----

  function InUse(s: State): int { s.pool - s.available }

  // What an operation has in use at its peak: a move has both blocks for a while.
  function Peak(s: State, op: Op): int {
    if op.DoRealloc? && op.size > 0 && op.p.Some? && op.p.value >= HEAD
       && IndexOf(s.blocks, op.p.value - HEAD) < |s.blocks|
    then
      var i, want := IndexOf(s.blocks, op.p.value - HEAD), Want(op.size);
      if want > Payload(s.blocks[i]) && !GrowsInPlace(s.blocks, i, want) then InUse(Alloc(s, want).state)
      else InUse(Step(s, op))
    else InUse(Step(s, op))
  }

  function Highest(s: State, ops: seq<Op>, top: int): int
    decreases |ops|
  {
    if ops == [] then top else Highest(Step(s, ops[0]), ops[1..], Max(top, Peak(s, ops[0])))
  }

  lemma AllocPeak(s: State, size: nat)
    requires Inv(s)
    ensures Alloc(s, size).state.maxUsed == Max(s.maxUsed, InUse(Alloc(s, size).state))
    ensures Alloc(s, size).state.pool == s.pool
  {}

  lemma FreePeak(s: State, i: nat)
    requires i < |s.blocks|
    ensures FreeAll(s, i).maxUsed == s.maxUsed && InUse(FreeAll(s, i)) <= InUse(s) && FreeAll(s, i).pool == s.pool
  {}

  lemma RecutPeak(s: State, i: nat, at: nat)
    requires Inv(s) && i < |s.blocks|
    ensures RecutAt(s, i, at).maxUsed == Max(s.maxUsed, InUse(RecutAt(s, i, at)))
  {}

  lemma StepPeak(s: State, op: Op)
    requires Inv(s) && Enabled(s, op)
    ensures Step(s, op).maxUsed == Max(s.maxUsed, Peak(s, op))
  {
    hide FreeSum, Layout, CoalescedBut, Ring, RecutAt, FreeAll, Alloc, GrowsInPlace, Harmless, Resize;
    if op.DoAlloc? {
      AllocPeak(s, op.size);
    } else {
      hide Inv;
      if op.p.Some? { FreePeak(s, IndexOf(s.blocks, op.p.value - HEAD)); }
      if op.DoRealloc? {
        if op.p.Some? { ResizePeak(s, IndexOf(s.blocks, op.p.value - HEAD), Want(op.size)); }
        else { AllocPeak(s, Want(op.size)); }
      }
      InUseBelow(s);
    }
  }

  lemma InUseBelow(s: State)
    requires Inv(s)
    ensures InUse(s) <= s.maxUsed
  {}

  lemma ResizePeak(s: State, i: nat, want: nat)
    requires Inv(s) && i < |s.blocks|
    ensures
      var moves := want > Payload(s.blocks[i]) && !GrowsInPlace(s.blocks, i, want);
      Resize(s, i, want).state.maxUsed ==
        Max(s.maxUsed, InUse(if moves then Alloc(s, want).state else Resize(s, i, want).state))
  {
    hide FreeSum, Layout, CoalescedBut, Ring, RecutAt, FreeAll, Alloc, GrowsInPlace;
    RecutPeak(s, i, Here(s.blocks[i].start + HEAD + want));
    AllocPeak(s, want);
    var m := Alloc(s, want).state;
    var k := IndexOf(m.blocks, s.blocks[i].start);
    if k < |m.blocks| { FreePeak(m, k); }
  }

  // In every run max_used_size is the most that has been in use at any time.
  lemma {:induction false} RunPeak(s: State, ops: seq<Op>, last: State)
    requires Inv(s) && Runs(s, ops, last)
    ensures last.maxUsed == Highest(s, ops, s.maxUsed)
    decreases |ops|
  {
    hide Inv, Step, Peak, Enabled;
    if ops != [] {
      StepSafe(s, ops[0], Step(s, ops[0]));
      StepPeak(s, ops[0]);
      RunPeak(Step(s, ops[0]), ops[1..], last);
    }
  }
}

// The small-memory heap object (src/mem.c): headers linked by offsets, and the bytes between them.
module MemHeap {
  import opened Options
  import opened Blocks
  import opened BlockLinks
  import opened Bytes
  import opened MemModel
  import opened MemProperties

  // struct heap_mem in memory: magic, used, next, prev
  function Image(h: Header): (r: seq<Byte>)
    ensures |r| == HDR
  {
    Little(0x1ea0, 2) + Little(if h.used then 1 else 0, 2) + Little(h.next, 4) + Little(h.prev, 4)
  }

  // ----- headers and blocks -----

  // next links the blocks in order up to the end marker, and prev inverts it; the end marker's
  // own prev is not kept up to date.
  ghost predicate Linked(hdr: map<nat, Header>, bs: seq<Block>, end: nat) {
    && (forall i :: 0 <= i < |bs| ==> HeaderOk(hdr, bs, 0, i))
    && end in hdr && hdr[end].used && hdr[end].next == end
  }

  // Blocks are replaced by w, whose headers are in place; the successor points back to w.
  lemma ReplaceLinked(after: map<nat, Header>, bs: seq<Block>, end: nat, i: nat, n: nat, w: seq<Block>)
    requires i + n <= |bs| && w != [] && n > 0
    requires forall k :: 0 <= k < |w| ==> HeaderOk(after, w, PrevOf(bs, 0, i), k)
    requires forall k :: 0 <= k < |bs| && (k < i || k > i + n) ==> HeaderOk(after, bs, 0, k)
    requires i + n < |bs| ==>
               (bs[i + n].start in after &&
                after[bs[i + n].start] == Header(bs[i + n].next, w[|w| - 1].start, bs[i + n].used))
    requires end in after && after[end].used && after[end].next == end
    ensures Linked(after, Replace(bs, i, n, w), end)
  {
    ReplaceAt(bs, i, n, w);
    var r := Replace(bs, i, n, w);
    forall k | 0 <= k < |r| ensures HeaderOk(after, r, 0, k) {
      if k < i {
        assert HeaderOk(after, bs, 0, k) && r[k] == bs[k] && (k > 0 ==> r[k - 1] == bs[k - 1]);
      } else if k < i + |w| {
        var l := k - i;
        assert HeaderOk(after, w, PrevOf(bs, 0, i), l) && r[k] == w[l];
        assert if l > 0 then r[k - 1] == w[l - 1] else k > 0 ==> r[k - 1] == bs[i - 1];
      } else if k == i + |w| {
        assert r[k] == bs[i + n] && r[k - 1] == w[|w| - 1];
      } else {
        var l := k - |w| + n;
        assert HeaderOk(after, bs, 0, l) && r[k] == bs[l] && r[k - 1] == bs[l - 1];
      }
    }
  }

  // Writing headers inside a span, or of the block behind it, leaves those of the others in place.
  lemma OtherHeaders(hdr: map<nat, Header>, after: map<nat, Header>, bs: seq<Block>, end: nat, i: nat, n: nat)
    requires Linked(hdr, bs, end) && Tiles(bs, end) && 0 < n && i + n <= |bs|
    requires forall p :: p in hdr ==> p in after
    requires forall p :: p in hdr && p != end && !(bs[i].start <= p <= bs[i + n - 1].next) ==> after[p] == hdr[p]
    ensures forall k :: 0 <= k < |bs| && (k < i || k > i + n) ==> HeaderOk(after, bs, 0, k)
  {
    if n > 1 { Increasing(bs, end, i, i + n - 1); }
    forall k | 0 <= k < |bs| && (k < i || k > i + n) ensures HeaderOk(after, bs, 0, k) {
      assert HeaderOk(hdr, bs, 0, k);
      Bounds(bs, end, k);
      if k < i {
        Increasing(bs, end, k, i);
      } else {
        assert bs[i + n - 1].next == bs[i + n].start;
        Increasing(bs, end, i, k);
        Increasing(bs, end, i + n, k);
      }
    }
  }

  // ----- the bytes of the live blocks -----

  ghost predicate Kept(live: set<Block>, a: seq<Byte>, b: seq<Byte>) {
    && |a| == |b|
    && (forall x, k {:trigger x in live, b[k]} ::
         x in live && x.start + HDR <= k < x.next && k < |a| ==> b[k] == a[k])
  }

  // Where a header may be written: at a block or the end marker, or inside a free block
  ghost predicate Spot(bs: seq<Block>, end: nat, p: nat) {
    p == end || exists m :: 0 <= m < |bs| && SpotIn(bs[m], p)
  }

  predicate SpotIn(b: Block, p: nat) {
    p == b.start || (!b.used && b.start <= p && p + HDR <= b.next)
  }

  lemma SpotSafe(bs: seq<Block>, end: nat, p: nat, a: seq<Byte>, b: seq<Byte>)
    requires Tiles(bs, end) && Spot(bs, end, p) && |a| == |b|
    requires forall k :: 0 <= k < |a| && !(p <= k < p + HDR) ==> b[k] == a[k]
    ensures Kept(UsedBlocks(bs), a, b)
  {
    forall x, k | x in UsedBlocks(bs) && x.start + HDR <= k < x.next && k < |a| ensures b[k] == a[k] {
      var j :| 0 <= j < |bs| && bs[j] == x;
      Bounds(bs, end, j);
      if p != end {
        var m :| 0 <= m < |bs| && SpotIn(bs[m], p);
        if j < m { Increasing(bs, end, j, m); } else if m < j { Increasing(bs, end, m, j); }
      }
    }
  }

  lemma KeptTwice(live: set<Block>, a: seq<Byte>, b: seq<Byte>, c: seq<Byte>)
    requires Kept(live, a, b) && Kept(live, b, c)
    ensures Kept(live, a, c)
  {
  }

  lemma AllocateIs(s: State, want: nat, i: nat, m: Result)
    requires Inv(s) && MIN <= want <= s.size && m == Allocate(s, want)
    requires i == FirstFit(s.blocks, IndexOf(s.blocks, s.lfree), s.size - want, want)
    ensures i < |s.blocks| ==>
              Fits(s.blocks[i], want) && m.state == Take(s, i, want) && m.ptr == Some(s.blocks[i].start + HDR)
              && UsedBlocks(s.blocks) <= UsedBlocks(m.state.blocks)
    ensures i == |s.blocks| ==> m.state == s && m.ptr == None
  {
    hide Take, FirstFit;
    if i < |s.blocks| { TakeUsed(s, i, want); }
  }

  lemma TakeCases(s: State, i: nat, want: nat, have: nat, r: seq<Block>)
    requires Inv(s) && i < |s.blocks| && Fits(s.blocks[i], want) && r == TakeBlocks(s.blocks, i, want)
    requires s.blocks[i].next == s.blocks[i].start + HDR + have
    ensures have >= want + HDR + MIN ==>
              && SplitOk(s.blocks[i], s.blocks[i].start + HDR + want)
              && r == Split(s.blocks, i, s.blocks[i].start + HDR + want)
              && Take(s, i, want).usedMem == s.usedMem + (want + HDR)
    ensures have < want + HDR + MIN ==>
              && r == Replace(s.blocks, i, 1, [s.blocks[i].(used := true)])
              && Take(s, i, want).usedMem == s.usedMem + (have + HDR)
  {
    ReplaceAt(s.blocks, i, 1, Taken(s.blocks[i], want));
  }

  lemma TakeFields(s: State, i: nat, want: nat, e: State, r: seq<Block>)
    requires Inv(s) && i < |s.blocks| && Fits(s.blocks[i], want)
    requires e == Take(s, i, want) && r == TakeBlocks(s.blocks, i, want)
    ensures e.blocks == r && e.size == s.size && i < |r| && r[i].start == s.blocks[i].start && Tiles(r, End(s))
    ensures e.lfree == if s.lfree == s.blocks[i].start then NextFree(r, i, End(s)) else s.lfree
  {
    ReplaceAt(s.blocks, i, 1, Taken(s.blocks[i], want));
    TakeTiles(s.blocks, End(s), i, want);
  }

  lemma KeptLess(few: set<Block>, live: set<Block>, a: seq<Byte>, b: seq<Byte>)
    requires few <= live && Kept(live, a, b)
    ensures Kept(few, a, b)
  {
  }

  lemma LfreeStart(s: State)
    requires Inv(s)
    ensures s.lfree == StartOf(s.blocks, IndexOf(s.blocks, s.lfree), End(s))
  {
    if s.lfree != End(s) {
      var j :| 0 <= j < |s.blocks| && s.blocks[j].start == s.lfree && !s.blocks[j].used;
    }
    if IndexOf(s.blocks, s.lfree) < |s.blocks| { Bounds(s.blocks, End(s), IndexOf(s.blocks, s.lfree)); }
  }

  lemma PlugForwardStart(s: State, i: nat)
    requires i < |s.blocks|
    ensures i < |PlugForward(s, i).blocks| && PlugForward(s, i).blocks[i].start == s.blocks[i].start
  {
    if i + 1 < |s.blocks| { ReplaceAt(s.blocks, i, 2, [Block(s.blocks[i].start, s.blocks[i + 1].next, false)]); }
  }

  lemma ReleaseFree(s: State, i: nat)
    requires i < |s.blocks| && s.blocks[i].start <= s.blocks[i].next
    ensures i < |Release(s, i).blocks| && Release(s, i).blocks[i] == s.blocks[i].(used := false)
  {
    ReplaceAt(s.blocks, i, 1, [s.blocks[i].(used := false)]);
  }

  function StartOf(bs: seq<Block>, j: nat, end: nat): nat { if j < |bs| then bs[j].start else end }

  lemma StartHeader(hdr: map<nat, Header>, bs: seq<Block>, end: nat, j: nat)
    requires Tiles(bs, end) && Linked(hdr, bs, end) && j <= |bs|
    ensures StartOf(bs, j, end) in hdr
    ensures j < |bs| ==> hdr[bs[j].start].used == bs[j].used && bs[j].start != end
    ensures j < |bs| ==> hdr[bs[j].start].next == StartOf(bs, j + 1, end)
  {
    if j < |bs| {
      assert HeaderOk(hdr, bs, 0, j);
      NextHeader(hdr, bs, end, j);
      Bounds(bs, end, j);
    }
  }

  // One step of the search: at block j, or past the last place where one may start
  lemma SearchStep(hdr: map<nat, Header>, bs: seq<Block>, end: nat, j: nat, limit: nat, want: nat)
    requires Tiles(bs, end) && Linked(hdr, bs, end) && j <= |bs| && limit <= end
    ensures StartOf(bs, j, end) in hdr
    ensures StartOf(bs, j, end) >= limit ==> FirstFit(bs, j, limit, want) == |bs|
    ensures
      var at := StartOf(bs, j, end);
      at < limit ==>
        && j < |bs| && at == bs[j].start && hdr[at].next == StartOf(bs, j + 1, end)
        && FirstFit(bs, j, limit, want) ==
           if !hdr[at].used && hdr[at].next - (at + HDR) >= want then j else FirstFit(bs, j + 1, limit, want)
  {
    hide Linked, Tiles;
    StartHeader(hdr, bs, end, j);
    if j < |bs| { NextStart(bs, end, j); }
  }

  lemma NextStart(bs: seq<Block>, end: nat, j: nat)
    requires Tiles(bs, end) && j < |bs|
    ensures bs[j].next == StartOf(bs, j + 1, end)
  {}

  predicate SplitOk(b: Block, at: nat) { b.start + HDR + 4 <= at && at + HDR + 4 <= b.next }

  lemma SplitSpots(bs: seq<Block>, end: nat, i: nat, at: nat, r: seq<Block>)
    requires Tiles(bs, end) && i < |bs| && SplitOk(bs[i], at) && r == Split(bs, i, at)
    ensures Tiles(r, end) && Spot(r, end, at) && Spot(r, end, bs[i].start) && Spot(r, end, bs[i].next)
    ensures bs[i].next <= end
  {
    var w := [Block(bs[i].start, at, true), Block(at, bs[i].next, false)];
    ReplaceTiles(bs, end, i, 1, w);
    ReplaceAt(bs, i, 1, w);
    Bounds(bs, end, i);
    assert SpotIn(r[i], bs[i].start) && SpotIn(r[i + 1], at);
    if bs[i].next != end {
      assert bs[i].next == bs[i + 1].start;
      assert SpotIn(r[i + 2], bs[i].next);
    }
  }

  // A block's next offset, if it is not the end marker, is the header of the next block.
  lemma NextHeader(hdr: map<nat, Header>, bs: seq<Block>, end: nat, i: nat)
    requires Tiles(bs, end) && Linked(hdr, bs, end) && i < |bs|
    ensures bs[i].next in hdr && (bs[i].next == end <==> i == |bs| - 1)
    ensures i + 1 < |bs| ==>
              bs[i].next == bs[i + 1].start && hdr[bs[i].next] == Header(bs[i + 1].next, bs[i].start, bs[i + 1].used)
  {
    Bounds(bs, end, i);
    if i + 1 < |bs| { assert HeaderOk(hdr, bs, 0, i + 1) && bs[i].next == bs[i + 1].start; }
  }

  lemma SplitLinked(hdr: map<nat, Header>, after: map<nat, Header>, bs: seq<Block>, end: nat, i: nat, at: nat)
    requires Tiles(bs, end) && Linked(hdr, bs, end) && i < |bs| && SplitOk(bs[i], at)
    requires var b := bs[i];
             var h := hdr[at := Header(b.next, b.start, false)][b.start := Header(at, PrevOf(bs, 0, i), true)];
             && (b.next == end ==> after == h)
             && (b.next != end ==> b.next in h && after == h[b.next := h[b.next].(prev := at)])
    ensures Linked(after, Split(bs, i, at), end)
  {
    NextHeader(hdr, bs, end, i);
    Bounds(bs, end, i);
    var w := [Block(bs[i].start, at, true), Block(at, bs[i].next, false)];
    OtherHeaders(hdr, after, bs, end, i, 1);
    assert HeaderOk(after, w, PrevOf(bs, 0, i), 0) && HeaderOk(after, w, PrevOf(bs, 0, i), 1);
    ReplaceLinked(after, bs, end, i, 1, w);
  }

  lemma MarkSpot(bs: seq<Block>, end: nat, i: nat, used: bool, r: seq<Block>)
    requires Tiles(bs, end) && i < |bs| && r == Replace(bs, i, 1, [bs[i].(used := used)])
    ensures Tiles(r, end) && Spot(r, end, bs[i].start) && bs[i].next <= end
  {
    ReplaceTiles(bs, end, i, 1, [bs[i].(used := used)]);
    ReplaceAt(bs, i, 1, [bs[i].(used := used)]);
    Bounds(bs, end, i);
    assert SpotIn(r[i], bs[i].start);
  }

  lemma MarkLinked(hdr: map<nat, Header>, after: map<nat, Header>, bs: seq<Block>, end: nat, i: nat, used: bool)
    requires Tiles(bs, end) && Linked(hdr, bs, end) && i < |bs| && bs[i].start in hdr
    requires after == hdr[bs[i].start := hdr[bs[i].start].(used := used)]
    ensures Linked(after, Replace(bs, i, 1, [bs[i].(used := used)]), end)
  {
    NextHeader(hdr, bs, end, i);
    Bounds(bs, end, i);
    var w := [bs[i].(used := used)];
    OtherHeaders(hdr, after, bs, end, i, 1);
    assert HeaderOk(hdr, bs, 0, i);
    assert HeaderOk(after, w, PrevOf(bs, 0, i), 0);
    ReplaceLinked(after, bs, end, i, 1, w);
  }

  lemma JoinSpots(bs: seq<Block>, end: nat, i: nat, r: seq<Block>)
    requires Tiles(bs, end) && i + 1 < |bs| && r == Join(bs, i)
    ensures Tiles(r, end) && Spot(r, end, bs[i].start) && Spot(r, end, bs[i + 1].next) && bs[i + 1].next <= end
  {
    JoinTiles(bs, end, i);
    ReplaceAt(bs, i, 2, [Block(bs[i].start, bs[i + 1].next, false)]);
    Bounds(bs, end, i + 1);
    assert SpotIn(r[i], bs[i].start);
    if bs[i + 1].next != end {
      assert bs[i + 1].next == bs[i + 2].start;
      assert SpotIn(r[i + 1], bs[i + 1].next);
    }
  }

  lemma JoinLinked(hdr: map<nat, Header>, after: map<nat, Header>, bs: seq<Block>, end: nat, i: nat)
    requires Tiles(bs, end) && Linked(hdr, bs, end) && i + 1 < |bs| && !bs[i].used
    requires bs[i].start in hdr && bs[i + 1].next in hdr && bs[i].start < bs[i + 1].next
    requires var h := hdr[bs[i].start := hdr[bs[i].start].(next := bs[i + 1].next)];
             after == h[bs[i + 1].next := h[bs[i + 1].next].(prev := bs[i].start)]
    ensures Linked(after, Join(bs, i), end)
  {
    NextHeader(hdr, bs, end, i + 1);
    Bounds(bs, end, i + 1);
    var w := [Block(bs[i].start, bs[i + 1].next, false)];
    assert bs[i].next == bs[i + 1].start;
    OtherHeaders(hdr, after, bs, end, i, 2);
    assert HeaderOk(hdr, bs, 0, i);
    assert HeaderOk(after, w, PrevOf(bs, 0, i), 0);
    ReplaceLinked(after, bs, end, i, 2, w);
  }

  // What the split of rt_realloc leaves
  lemma CutHalves(s: State, i: nat, want: nat, at: nat, e: State)
    requires Inv(s) && i < |s.blocks| && at == s.blocks[i].start + HDR + want && Cuttable(s.blocks[i], at)
    requires e == Cut(s, i, want)
    ensures e.blocks == Split(s.blocks, i, at) && Tiles(e.blocks, End(s))
    ensures i + 1 < |e.blocks| && e.blocks[i + 1].start == at && !e.blocks[i + 1].used
    ensures e.size == s.size && e.lfree == s.lfree && e.usedMem == s.usedMem - (s.blocks[i].next - at)
  {
    ReplaceAt(s.blocks, i, 1, [Block(s.blocks[i].start, at, true), Block(at, s.blocks[i].next, false)]);
    SplitTiles(s.blocks, End(s), i, at);
    SplitSum(s.blocks, End(s), i, at);
  }

  // How many payload bytes rt_realloc carries over
  function Common(b: Block, want: nat): nat
    requires b.start + HDR <= b.next
  {
    if b.next - b.start - HDR < want then b.next - b.start - HDR else want
  }

  // c is a block apart from all live ones, and n bytes fit into it and into b.
  ghost predicate Apart(live: set<Block>, b: Block, c: Block, n: nat, len: nat) {
    && b in live && (forall x :: x in live ==> x.next <= c.start || c.next <= x.start)
    && b.start + HDR + n <= b.next <= len && c.start + HDR + n <= c.next <= len
  }

  lemma NewApart(s: State, live: set<Block>, b: Block, c: Block, n: nat, len: nat)
    requires Inv(s) && UsedBlocks(s.blocks) == live + {c} && c !in live && b in live && len >= End(s)
    requires b.start + HDR + n <= b.next && c.start + HDR + n <= c.next
    ensures Apart(live, b, c, n, len)
  {
    forall x | x in live ensures x.next <= c.start || c.next <= x.start { LiveDisjoint(s, x, c); }
    LiveDisjoint(s, b, c);
    LiveDisjoint(s, c, b);
  }

  // Shrinking keeps the other blocks and what is left of this one.
  lemma KeptShrunk(live: set<Block>, b: Block, c: Block, rest: set<Block>, n: nat, a0: seq<Byte>, a1: seq<Byte>)
    requires rest == live - {b} + {c} && c.start == b.start && c.next == b.start + HDR + n <= b.next <= |a0|
    requires Kept(rest, a0, a1)
    ensures Kept(live - {b}, a0, a1) && Carried(a0, a1, b.start + HDR, b.start + HDR, n)
  {
    assert c in rest && forall x :: x in live - {b} ==> x in rest;
  }

  // The heap m after the allocation of rt_realloc for block b: b is at index k, and c is the new block.
  ghost predicate NewReady(live: set<Block>, m: Result, k: nat, b: Block, c: Block, n: nat, len: nat) {
    && k < |m.state.blocks| && m.state.blocks[k] == b && m.ptr == Some(c.start + HDR) && b.start <= b.next
    && UsedBlocks(m.state.blocks) == live + {c} && c !in live && Apart(live, b, c, n, len)
  }

  lemma MallocNew(s: State, i: nat, b: Block, want: nat, n: nat, m: Result, len: nat) returns (k: nat, c: Block)
    requires Inv(s) && i < |s.blocks| && s.blocks[i] == b && b.used && 4 <= want <= RANGE - 4
    requires m == Malloc(s, want) && m.ptr.Some? && b.start + HDR <= b.next && n == Common(b, want) && len >= End(s)
    ensures k == IndexOf(m.state.blocks, b.start) && NewReady(UsedBlocks(s.blocks), m, k, b, c, n, len)
  {
    MallocSafe(s, want);
    MoveLive(s, i, want);
    k := IndexOf(m.state.blocks, b.start);
    c := MallocServes(s, want);
    assert b in UsedBlocks(s.blocks);
    NewApart(m.state, UsedBlocks(s.blocks), b, c, n, len);
  }

  lemma MovedIs(s: State, i: nat, want: nat, b: Block, m: Result, m1: Result)
    requires Inv(s) && i < |s.blocks| && s.blocks[i] == b && b.used && 4 <= want <= RANGE - 4
    requires m == Moved(s, i, want) && m1 == Malloc(s, want)
    ensures m1.ptr.None? ==> m1.state == s && m == m1
    ensures m1.ptr.Some? ==>
              && Inv(m1.state) && IndexOf(m1.state.blocks, b.start) < |m1.state.blocks|
              && m1.state.blocks[IndexOf(m1.state.blocks, b.start)] == b && b.start <= b.next
              && m.state == Free(m1.state, IndexOf(m1.state.blocks, b.start)) && m.ptr == m1.ptr
  {
    MallocSafe(s, want);
    if m1.ptr.Some? { MoveLive(s, i, want); }
  }

  // Allocate, copy, free: the other blocks keep their bytes and the new one has the old contents.
  lemma MoveKept(
      live: set<Block>, b: Block, c: Block, n: nat, a0: seq<Byte>, a1: seq<Byte>, a2: seq<Byte>, a3: seq<Byte>)
    requires Apart(live, b, c, n, |a0|) && Kept(live, a0, a1)
    requires OnlyCopied(a1, a2, b.start + HDR, c.start + HDR, n) && Kept(live - {b} + {c}, a2, a3)
    ensures Kept(live - {b}, a0, a3) && Carried(a0, a3, b.start + HDR, c.start + HDR, n)
  {
    var p, q := b.start + HDR, c.start + HDR;
    forall k | q <= k < q + n ensures a3[k] == a0[k - q + p] {
      assert a3[k] == a2[k] && a1[k - q + p] == a0[k - q + p];
    }
  }

  // rt_realloc of the live block behind p: with a result q its first bytes are there and the other
  // blocks keep theirs; without one all keep theirs.
  ghost predicate Preserved(s: State, p: nat, want: nat, q: Option<nat>, a: seq<Byte>, b: seq<Byte>)
    requires Inv(s) && Known(s, Some(p)) && p < End(s)
  {
    var block := s.blocks[IndexOf(s.blocks, p - HDR)];
    && Kept(if q.Some? then UsedBlocks(s.blocks) - {block} else UsedBlocks(s.blocks), a, b)
    && (q.Some? ==> Carried(a, b, p, q.value, Common(block, want)))
  }

  lemma KeptSelf(live: set<Block>, a: seq<Byte>)
    ensures Kept(live, a, a)
  {}

  class Heap {
    const size: nat
    var hdr: map<nat, Header>
    var bytes: seq<Byte>
    var lfree: nat
    var usedMem: nat
    ghost var s: State

    ghost predicate Valid() reads this { Inv(s) && Fields() }

    // What plug_holes relies on
    ghost predicate Stored() reads this { Tiles(s.blocks, End(s)) && Fields() }

    // The fields hold the state s.
    ghost predicate Fields() reads this {
      && s.size == size && s.lfree == lfree && s.usedMem == usedMem && |bytes| == size + 2 * HDR
      && Linked(hdr, s.blocks, End(s))
    }

    // rt_system_heap_init
    constructor (size: nat)
      requires MIN <= size && size + 2 * HDR < RANGE
      ensures Valid() && s == Init(size)
    {
      this.size := size;
      bytes := seq(size + 2 * HDR, _ => 0);
      hdr := map[0 := Header(size + HDR, 0, false), size + HDR := Header(size + HDR, size + HDR, true)];
      lfree, usedMem := 0, 0;
      s := Init(size);
      new;
      InitSafe(size);
    }

    // Writing a header overwrites the bytes it occupies.
    method SetHeader(p: nat, h: Header)
      requires p + HDR <= |bytes|
      modifies this`hdr, this`bytes
      ensures hdr == old(hdr)[p := h]
      ensures |bytes| == |old(bytes)| && forall k :: 0 <= k < |bytes| && !(p <= k < p + HDR) ==>
          bytes[k] == old(bytes)[k]
    {
      hdr := hdr[p := h];
      bytes := bytes[..p] + Image(h) + bytes[p + HDR..];
    }

    // A header written while the blocks are bs, at a place that holds no live bytes
    method WriteHeader(p: nat, h: Header, ghost bs: seq<Block>)
      requires Tiles(bs, End(s)) && Spot(bs, End(s), p) && p + HDR <= |bytes|
      modifies this`hdr, this`bytes
      ensures hdr == old(hdr)[p := h] && Kept(UsedBlocks(bs), old(bytes), bytes)
    {
      SetHeader(p, h);
      SpotSafe(bs, End(s), p, old(bytes), bytes);
    }

    // The split of rt_malloc and rt_realloc: block i keeps what lies below 'at'.
    method SplitBlock(ptr: nat, at: nat, ghost i: nat, ghost bs: seq<Block>)
      requires Tiles(bs, End(s)) && Linked(hdr, bs, End(s)) && |bytes| == size + 2 * HDR && s.size == size
      requires i < |bs| && ptr == bs[i].start && SplitOk(bs[i], at)
      modifies this`hdr, this`bytes
      ensures Linked(hdr, Split(bs, i, at), End(s)) && Kept(UsedBlocks(Split(bs, i, at)), old(bytes), bytes)
    {
      ghost var r, hdr0, bytes0 := Split(bs, i, at), hdr, bytes;
      SplitSpots(bs, End(s), i, at, r);
      assert HeaderOk(hdr, bs, 0, i);
      var next := hdr[ptr].next;
      WriteHeader(at, Header(next, ptr, false), r);
      ghost var bytes1 := bytes;
      WriteHeader(ptr, hdr[ptr].(next := at, used := true), r);
      KeptTwice(UsedBlocks(r), bytes0, bytes1, bytes);
      if next != size + HDR {
        ghost var bytes2 := bytes;
        NextHeader(hdr0, bs, End(s), i);
        WriteHeader(next, hdr[next].(prev := at), r);
        KeptTwice(UsedBlocks(r), bytes0, bytes2, bytes);
      }
      SplitLinked(hdr0, hdr, bs, End(s), i, at);
    }

    // Changing the used flag of block i
    method MarkBlock(ptr: nat, used: bool, ghost i: nat, ghost bs: seq<Block>)
      requires Tiles(bs, End(s)) && Linked(hdr, bs, End(s)) && |bytes| == size + 2 * HDR && s.size == size
      requires i < |bs| && ptr == bs[i].start
      modifies this`hdr, this`bytes
      ensures Linked(hdr, Replace(bs, i, 1, [bs[i].(used := used)]), End(s))
      ensures Kept(UsedBlocks(Replace(bs, i, 1, [bs[i].(used := used)])), old(bytes), bytes)
    {
      ghost var r, hdr0 := Replace(bs, i, 1, [bs[i].(used := used)]), hdr;
      MarkSpot(bs, End(s), i, used, r);
      assert HeaderOk(hdr, bs, 0, i);
      WriteHeader(ptr, hdr[ptr].(used := used), r);
      MarkLinked(hdr0, hdr, bs, End(s), i, used);
    }

    // plug_holes: mem takes in its free successor nmem
    method JoinBlocks(mem: nat, nmem: nat, ghost i: nat, ghost bs: seq<Block>)
      requires Tiles(bs, End(s)) && Linked(hdr, bs, End(s)) && |bytes| == size + 2 * HDR && s.size == size
      requires i + 1 < |bs| && mem == bs[i].start && nmem == bs[i + 1].start && !bs[i].used
      modifies this`hdr, this`bytes
      ensures Linked(hdr, Join(bs, i), End(s)) && Kept(UsedBlocks(Join(bs, i)), old(bytes), bytes)
    {
      hide Join, Kept, UsedBlocks;
      ghost var r, hdr0 := Join(bs, i), hdr;
      JoinSpots(bs, End(s), i, r);
      assert HeaderOk(hdr, bs, 0, i) && HeaderOk(hdr, bs, 0, i + 1);
      NextHeader(hdr, bs, End(s), i + 1);
      var next := hdr[nmem].next;
      WriteHeader(mem, hdr[mem].(next := next), r);
      ghost var middle := bytes;
      WriteHeader(next, hdr[next].(prev := mem), r);
      KeptTwice(UsedBlocks(r), old(bytes), middle, bytes);
      JoinLinked(hdr0, hdr, bs, End(s), i);
    }

    // The lowest-free pointer moves to the first free block from block i on.
    method AdvanceLfree(ghost i: nat, ghost bs: seq<Block>)
      requires Tiles(bs, End(s)) && Linked(hdr, bs, End(s)) && i < |bs| && lfree == bs[i].start && s.size == size
      modifies this`lfree
      ensures lfree == NextFree(bs, i, End(s))
    {
      ghost var j := i;
      StartHeader(hdr, bs, End(s), j);
      while hdr[lfree].used && lfree != size + HDR
        invariant i <= j <= |bs| && lfree == StartOf(bs, j, End(s)) && lfree in hdr
        invariant j < |bs| ==> hdr[lfree].used == bs[j].used && lfree != End(s)
        invariant NextFree(bs, j, End(s)) == NextFree(bs, i, End(s))
        decreases |bs| - j
      {
        StartHeader(hdr, bs, End(s), j);
        lfree := hdr[lfree].next;
        j := j + 1;
        StartHeader(hdr, bs, End(s), j);
      }
    }

    // The payload size of block i, from its header
    method Length(ptr: nat, ghost i: nat, ghost b: Block) returns (have: nat)
      requires Stored() && i < |s.blocks| && s.blocks[i] == b && ptr == b.start
      ensures b.start + HDR + have == b.next
    {
      StartHeader(hdr, s.blocks, End(s), i);
      NextHeader(hdr, s.blocks, End(s), i);
      have := hdr[ptr].next - ptr - HDR;
    }

    // The headers and statistics after a block is taken
    method Occupy(ptr: nat, want: nat, ghost i: nat, ghost r: seq<Block>)
      requires Valid() && i < |s.blocks| && ptr == s.blocks[i].start && Fits(s.blocks[i], want)
      requires r == TakeBlocks(s.blocks, i, want)
      modifies this`hdr, this`usedMem, this`bytes
      ensures Linked(hdr, r, End(s)) && usedMem == Take(s, i, want).usedMem && |bytes| == |old(bytes)|
      ensures Kept(UsedBlocks(r), old(bytes), bytes)
    {
      var have := Length(ptr, i, s.blocks[i]);
      TakeCases(s, i, want, have, r);
      assert Stored();
      hide *;
      if have >= want + HDR + MIN {
        SplitBlock(ptr, ptr + HDR + want, i, s.blocks);
        usedMem := usedMem + (want + HDR);
      } else {
        MarkBlock(ptr, true, i, s.blocks);
        usedMem := usedMem + (have + HDR);
      }
    }

    // rt_malloc once a block is found
    method TakeBlock(ptr: nat, want: nat, ghost i: nat)
      requires Valid() && i < |s.blocks| && ptr == s.blocks[i].start && Fits(s.blocks[i], want)
      modifies this
      ensures Valid() && s == Take(old(s), i, want)
      ensures Kept(UsedBlocks(s.blocks), old(bytes), bytes)
    {
      ghost var e, r := Take(s, i, want), TakeBlocks(s.blocks, i, want);
      TakeSafe(s, i, want);
      TakeFields(s, i, want, e, r);
      Occupy(ptr, want, i, r);
      if ptr == lfree { AdvanceLfree(i, r); }
      s := e;
    }

    // The search loop of rt_malloc, from the lowest-free block i0 on
    method Search(want: nat, ghost i0: nat) returns (found: bool, ptr: nat, ghost i: nat)
      requires Stored() && want <= size && i0 <= |s.blocks| && lfree == StartOf(s.blocks, i0, End(s))
      ensures i == FirstFit(s.blocks, i0, size - want, want)
      ensures found == (i < |s.blocks|) && (found ==> ptr == s.blocks[i].start)
    {
      hide FirstFit, Tiles, Linked, StartOf;
      ghost var bs := s.blocks;
      i := i0;
      SearchStep(hdr, bs, End(s), i, size - want, want);
      ptr := lfree;
      while ptr < size - want
        invariant i <= |bs| && ptr == StartOf(bs, i, End(s)) && ptr in hdr
        invariant FirstFit(bs, i, size - want, want) == FirstFit(bs, i0, size - want, want)
        decreases |bs| - i
      {
        SearchStep(hdr, bs, End(s), i, size - want, want);
        var h := hdr[ptr];
        if !h.used && h.next - (ptr + HDR) >= want { return true, ptr, i; }
        SearchStep(hdr, bs, End(s), i + 1, size - want, want);
        ptr := h.next;
        i := i + 1;
      }
      SearchStep(hdr, bs, End(s), i, size - want, want);
      found := false;
      i := |bs|;
    }

    // The block found is taken; the others keep their bytes.
    method TakeFound(ptr: nat, want: nat, ghost i: nat, ghost e: State)
      requires Valid() && i < |s.blocks| && ptr == s.blocks[i].start && Fits(s.blocks[i], want)
      requires e == Take(s, i, want) && UsedBlocks(s.blocks) <= UsedBlocks(e.blocks)
      modifies this
      ensures Valid() && s == e && Kept(UsedBlocks(old(s).blocks), old(bytes), bytes)
    {
      TakeBlock(ptr, want, i);
      KeptLess(UsedBlocks(old(s).blocks), UsedBlocks(e.blocks), old(bytes), bytes);
    }

    method Find(want: nat, ghost m: Result) returns (found: bool, ptr: nat, ghost i: nat)
      requires Valid() && MIN <= want <= size && m == Allocate(s, want)
      ensures found ==>
                && i < |s.blocks| && ptr == s.blocks[i].start && Fits(s.blocks[i], want) && m.ptr == Some(ptr + HDR)
                && m.state == Take(s, i, want) && UsedBlocks(s.blocks) <= UsedBlocks(m.state.blocks)
      ensures !found ==> m.state == s && m.ptr == None
    {
      hide FirstFit, Take, Allocate, UsedBlocks, StartOf, Linked, Coalesced, UsedSum, LfreeOk;
      LfreeStart(s);
      found, ptr, i := Search(want, IndexOf(s.blocks, s.lfree));
      AllocateIs(s, want, i, m);
    }

    // rt_malloc of a size already checked and aligned
    method AllocAligned(want: nat, ghost m: Result) returns (p: Option<nat>)
      requires Valid() && MIN <= want <= size && m == Allocate(s, want)
      modifies this
      ensures Valid() && s == m.state && p == m.ptr
      ensures Kept(UsedBlocks(old(s).blocks), old(bytes), bytes)
    {
      var found, ptr, i := Find(want, m);
      if !found { return None; }
      TakeFound(ptr, want, i, m.state);
      p := Some(ptr + HDR);
    }

    // rt_malloc
    method Alloc(request: nat) returns (p: Option<nat>)
      requires Valid() && request < RANGE
      modifies this
      ensures Valid() && s == Malloc(old(s), request).state && p == Malloc(old(s), request).ptr
      ensures Kept(UsedBlocks(old(s).blocks), old(bytes), bytes)
    {
      if request == 0 { return None; }
      var want := Align(request);
      if want > size { return None; }
      if want < MIN { want := MIN; }
      p := AllocAligned(want, Allocate(s, want));
    }

    // plug_holes, forward
    method PlugNext(mem: nat, ghost i: nat)
      requires Stored() && i < |s.blocks| && mem == s.blocks[i].start && !s.blocks[i].used
      modifies this
      ensures Stored() && s == PlugForward(old(s), i)
      ensures Kept(UsedBlocks(s.blocks), old(bytes), bytes)
    {
      StartHeader(hdr, s.blocks, End(s), i);
      StartHeader(hdr, s.blocks, End(s), i + 1);
      var nmem := hdr[mem].next;
      if mem != nmem && !hdr[nmem].used && nmem != size + HDR {
        JoinTiles(s.blocks, End(s), i);
        JoinBlocks(mem, nmem, i, s.blocks);
        if lfree == nmem { lfree := mem; }
        s := Joined(s, i);
      }
    }

    // plug_holes, backward
    method PlugPrevious(mem: nat, ghost i: nat)
      requires Stored() && i < |s.blocks| && mem == s.blocks[i].start && !s.blocks[i].used
      modifies this
      ensures Stored() && s == PlugBackward(old(s), i)
      ensures Kept(UsedBlocks(s.blocks), old(bytes), bytes)
    {
      assert HeaderOk(hdr, s.blocks, 0, i);
      var pmem := hdr[mem].prev;
      if i > 0 { StartHeader(hdr, s.blocks, End(s), i - 1); Increasing(s.blocks, End(s), i - 1, i); }
      if pmem != mem && !hdr[pmem].used {
        JoinTiles(s.blocks, End(s), i - 1);
        JoinBlocks(pmem, mem, i - 1, s.blocks);
        if lfree == mem { lfree := pmem; }
        s := Joined(s, i - 1);
      }
    }

    // rt_free of block i, up to plug_holes
    method ReleaseBlock(mem: nat, ghost i: nat)
      requires Valid() && i < |s.blocks| && mem == s.blocks[i].start && s.blocks[i].used
      modifies this
      ensures Stored() && s == Release(old(s), i)
      ensures Kept(UsedBlocks(s.blocks), old(bytes), bytes)
    {
      SetFreeSum(s.blocks, End(s), i);
      assert HeaderOk(hdr, s.blocks, 0, i);
      var next := hdr[mem].next;
      MarkBlock(mem, false, i, s.blocks);
      if mem < lfree { lfree := mem; }
      usedMem := usedMem - (next - mem);
      s := Release(s, i);
    }

    // plug_holes
    method PlugHoles(mem: nat, ghost i: nat)
      requires Stored() && i < |s.blocks| && mem == s.blocks[i].start && !s.blocks[i].used
      modifies this
      ensures Stored() && s == Plug(old(s), i)
      ensures Kept(UsedBlocks(s.blocks), old(bytes), bytes)
    {
      PlugForwardUsed(s, i);
      PlugUsed(s, i);
      PlugForwardStart(s, i);
      PlugNext(mem, i);
      ghost var middle := bytes;
      PlugPrevious(mem, i);
      KeptTwice(UsedBlocks(s.blocks), old(bytes), middle, bytes);
    }

    method FreeBlock(mem: nat, ghost i: nat)
      requires Valid() && i < |s.blocks| && mem == s.blocks[i].start && s.blocks[i].used
      modifies this
      ensures Valid() && s == Free(old(s), i)
      ensures Kept(UsedBlocks(s.blocks), old(bytes), bytes)
    {
      FreeSafe(s, i);
      ReleaseFree(s, i);
      ReleaseBlock(mem, i);
      ghost var middle := bytes;
      PlugUsed(s, i);
      PlugHoles(mem, i);
      KeptTwice(UsedBlocks(s.blocks), old(bytes), middle, bytes);
    }

    // rt_free
    method FreeMem(p: Option<nat>)
      requires Valid() && Known(s, p)
      modifies this
      ensures Valid() && s == FreePtr(old(s), p)
      ensures Kept(UsedBlocks(s.blocks), old(bytes), bytes)
    {
      hide Free, Linked, Tiles, Coalesced, UsedSum, LfreeOk;
      if p.None? || p.value >= size + HDR { return; }
      FreeBlock(p.value - HDR, IndexOf(s.blocks, p.value - HDR));
    }

    // The splitting branch of rt_realloc
    method ShrinkBlock(ptr: nat, want: nat, ghost i: nat)
      requires Valid() && i < |s.blocks| && ptr == s.blocks[i].start && Cuttable(s.blocks[i], ptr + HDR + want)
      modifies this
      ensures Valid() && s == Shrink(old(s), i, want)
      ensures Kept(UsedBlocks(s.blocks), old(bytes), bytes)
    {
      var at := ptr + HDR + want;
      ghost var e := Cut(s, i, want);
      ShrinkSafe(s, i, want);
      CutHalves(s, i, want, at, e);
      PlugUsed(e, i + 1);
      SetCut(ptr, at, i, e);
      ghost var middle := bytes;
      PlugHoles(at, i + 1);
      KeptTwice(UsedBlocks(s.blocks), old(bytes), middle, bytes);
    }

    // The split itself, with its effect on the statistics
    method SetCut(ptr: nat, at: nat, ghost i: nat, ghost e: State)
      requires Stored() && i < |s.blocks| && ptr == s.blocks[i].start && SplitOk(s.blocks[i], at)
      requires e.blocks == Split(s.blocks, i, at) && Tiles(e.blocks, End(s))
      requires e.size == s.size && e.lfree == s.lfree && e.usedMem == s.usedMem - (s.blocks[i].next - at)
      modifies this
      ensures Stored() && s == e && Kept(UsedBlocks(e.blocks), old(bytes), bytes)
    {
      assert HeaderOk(hdr, s.blocks, 0, i);
      usedMem := usedMem - (hdr[ptr].next - at);
      SplitBlock(ptr, at, i, s.blocks);
      s := e;
    }

    // rt_memcpy between two payloads that do not overlap
    method Copy(to: nat, from: nat, n: nat)
      requires Valid() && to + n <= |bytes| && from + n <= |bytes| && (to + n <= from || from + n <= to)
      modifies this`bytes
      ensures Valid() && OnlyCopied(old(bytes), bytes, from, to, n)
    {
      for k := 0 to n
        invariant OnlyCopied(old(bytes), bytes, from, to, k)
      {
        bytes := bytes[to + k := bytes[from + k]];
      }
    }

    // The release of the old block b, at index k, once the new block c has its contents
    method DropBlock(ptr: nat, ghost k: nat, ghost b: Block, ghost c: Block, ghost live: set<Block>)
      requires Valid() && k < |s.blocks| && ptr == b.start && s.blocks[k] == b && b.used && b in live
      requires UsedBlocks(s.blocks) == live + {c} && c !in live
      modifies this
      ensures Valid() && s == Free(old(s), k) && Kept(live - {b} + {c}, old(bytes), bytes)
    {
      FreeUsed(s, k);
      ghost var rest := UsedBlocks(Free(s, k).blocks);
      assert rest == live - {b} + {c};
      FreeBlock(ptr, k);
      assert Kept(rest, old(bytes), bytes);
    }

    // The copy into the new block and the release of the old one
    method CopyAndDrop(
        ptr: nat, q: nat, n: nat, ghost k: nat, ghost b: Block, ghost c: Block, ghost live: set<Block>)
      returns (ghost middle: seq<Byte>)
      requires Valid() && k < |s.blocks| && ptr == b.start && s.blocks[k] == b && b.used && q == c.start + HDR
      requires UsedBlocks(s.blocks) == live + {c} && c !in live && b in live
      requires b.next <= c.start || c.next <= b.start
      requires b.start + HDR + n <= b.next <= |bytes| && c.start + HDR + n <= c.next <= |bytes|
      modifies this
      ensures Valid() && s == Free(old(s), k)
      ensures OnlyCopied(old(bytes), middle, b.start + HDR, c.start + HDR, n) && Kept(live - {b} + {c}, middle, bytes)
    {
      hide *;
      Copy(q, ptr + HDR, n);
      middle := bytes;
      DropBlock(ptr, k, b, c, live);
    }

    // The expanding branch of rt_realloc: a new block c, the old contents, and the old block freed
    method MoveTo(ptr: nat, want: nat, n: nat, ghost k: nat, ghost b: Block, ghost c: Block, ghost m: Result)
      returns (q: Option<nat>)
      requires Valid() && m == Malloc(s, want) && want < RANGE && ptr == b.start && b.used
      requires m.ptr.Some? ==> NewReady(UsedBlocks(s.blocks), m, k, b, c, n, |bytes|)
      modifies this
      ensures Valid() && q == m.ptr && (q.None? ==> s == m.state)
      ensures q.Some? ==> k < |m.state.blocks| && b.start <= b.next && m.state.blocks[k] == b && s == Free(m.state, k)
      ensures Kept(if q.Some? then UsedBlocks(old(s).blocks) - {b} else UsedBlocks(old(s).blocks), old(bytes), bytes)
      ensures q.Some? ==> Carried(old(bytes), bytes, b.start + HDR, q.value, n)
    {
      hide Linked, UsedBlocks, Kept, Carried, OnlyCopied, Malloc, Free;
      ghost var live := UsedBlocks(s.blocks);
      q := Alloc(want);
      if q.Some? {
        ghost var bytes1 := bytes;
        ghost var bytes2 := CopyAndDrop(ptr, q.value, n, k, b, c, live);
        MoveKept(live, b, c, n, old(bytes), bytes1, bytes2, bytes);
      }
    }

    method MoveBlock(ptr: nat, want: nat, ghost i: nat, ghost b: Block, ghost m: Result) returns (q: Option<nat>)
      requires Valid() && i < |s.blocks| && s.blocks[i] == b && ptr == b.start && b.used && 4 <= want <= RANGE - 4
      requires m == Moved(s, i, want) && b.start + HDR <= b.next
      modifies this
      ensures Valid() && s == m.state && q == m.ptr && (q.None? ==> s == old(s))
      ensures Kept(if q.Some? then UsedBlocks(old(s).blocks) - {b} else UsedBlocks(old(s).blocks), old(bytes), bytes)
      ensures q.Some? ==> Carried(old(bytes), bytes, b.start + HDR, q.value, Common(b, want))
    {
      hide Linked, UsedBlocks, Kept, Carried, NewReady, Malloc, Free;
      ghost var m1 := Malloc(s, want);
      var have := Length(ptr, i, b);
      var n := if have < want then have else want;
      MovedIs(s, i, want, b, m, m1);
      ghost var k, c := 0, b;
      if m1.ptr.Some? { k, c := MallocNew(s, i, b, want, n, m1, |bytes|); }
      assert n == Common(b, want);
      hide *;
      q := MoveTo(ptr, want, n, k, b, c, m1);
    }

    // rt_realloc of live block i to an aligned size
    method ResizeBlock(ptr: nat, want: nat, ghost i: nat, ghost b: Block, ghost m: Result) returns (q: Option<nat>)
      requires Valid() && i < |s.blocks| && s.blocks[i] == b && ptr == b.start && b.used && 4 <= want <= RANGE - 4
      requires m == Resize(s, i, want) && b.start + HDR <= b.next
      modifies this
      ensures Valid() && s == m.state && q == m.ptr && (q.None? ==> s == old(s))
      ensures Kept(if q.Some? then UsedBlocks(old(s).blocks) - {b} else UsedBlocks(old(s).blocks), old(bytes), bytes)
      ensures q.Some? ==> Carried(old(bytes), bytes, b.start + HDR, q.value, Common(b, want))
    {
      var have := Length(ptr, i, b);
      if have == want {
        Bounds(s.blocks, End(s), i);
        return Some(ptr + HDR);
      }
      if want + HDR + MIN < have {
        ghost var live := UsedBlocks(s.blocks);
        ghost var c := Block(b.start, b.start + HDR + want, true);
        ShrinkUsed(s, i, want, b, c);
        Bounds(s.blocks, End(s), i);
        ShrinkBlock(ptr, want, i);
        KeptShrunk(live, b, c, UsedBlocks(s.blocks), want, old(bytes), bytes);
        return Some(ptr + HDR);
      }
      q := MoveBlock(ptr, want, i, b, m);
    }

    method ResizeKnown(p: nat, want: nat, ghost m: Result) returns (q: Option<nat>)
      requires Valid() && Known(s, Some(p)) && p < End(s) && 4 <= want <= RANGE - 4
      requires m == Resize(s, IndexOf(s.blocks, p - HDR), want)
      modifies this
      ensures Valid() && s == m.state && q == m.ptr && Preserved(old(s), p, want, q, old(bytes), bytes)
    {
      hide Kept, Carried, Linked, UsedBlocks, Coalesced, UsedSum, LfreeOk, Resize;
      ghost var i := IndexOf(s.blocks, p - HDR);
      Bounds(s.blocks, End(s), i);
      q := ResizeBlock(p - HDR, want, i, s.blocks[i], m);
    }

    // rt_realloc
    method ReallocMem(p: Option<nat>, newsize: nat) returns (q: Option<nat>)
      requires Valid() && Known(s, p) && newsize < RANGE
      modifies this
      ensures Valid() && s == Realloc(old(s), p, newsize).state && q == Realloc(old(s), p, newsize).ptr
      ensures p.Some? && p.value < End(old(s)) && Align(newsize) != 0 ==>
                Preserved(old(s), p.value, Align(newsize), q, old(bytes), bytes)
    {
      hide Inv, Linked, Kept, Carried, Resize;
      AlignAtLeast(newsize);
      KeptSelf(UsedBlocks(s.blocks), bytes);
      var want := Align(newsize);
      if want > size { return None; }
      if want == 0 {
        FreeMem(p);
        return None;
      }
      if p.None? {
        q := Alloc(want);
        return;
      }
      if p.value >= size + HDR { return p; }
      q := ResizeKnown(p.value, want, Resize(s, IndexOf(s.blocks, p.value - HDR), want));
    }
  }
}

// Which header writes of the ring heap (src/memheap.c) leave the contents of live blocks alone.
module MemheapBytes {
  import opened Options
  import opened Lists
  import opened Blocks
  import opened Bytes
  import opened MemheapModel
  import opened MemheapProperties

  // The payload bytes of the blocks are the same.
  ghost predicate Intact(live: set<Block>, a: seq<Byte>, b: seq<Byte>) {
    && |a| == |b|
    && (forall x, k {:trigger x in live, b[k]} ::
         x in live && x.start + HEAD <= k < x.next && k < |a| ==> b[k] == a[k])
  }

  // A header at p overlaps the payload of none of the blocks.
  ghost predicate Clear(live: set<Block>, p: nat) { forall x | x in live :: p <= x.start || x.next <= p }

  // Headers at both ends of all blocks
  ghost predicate EndsClear(live: set<Block>, bs: seq<Block>) {
    forall i | 0 <= i < |bs| :: Clear(live, bs[i].start) && Clear(live, bs[i].next)
  }

  // Headers in the free ring, and the list header
  ghost predicate RingClear(live: set<Block>, free: seq<nat>, list: nat) {
    Clear(live, list) && forall p | p in free :: Clear(live, p)
  }

  // A word of the header at p is written.
  lemma WriteIntact(live: set<Block>, a: seq<Byte>, b: seq<Byte>, p: nat, off: nat, data: seq<Byte>)
    requires Intact(live, a, b) && Clear(live, p) && off + |data| <= HEAD && p + off + |data| <= |b|
    ensures Intact(live, a, Written(b, p + off, data))
  {
    var c := Written(b, p + off, data);
    forall x, k | x in live && x.start + HEAD <= k < x.next && k < |a| ensures c[k] == a[k] {
      assert p <= x.start || x.next <= p;
    }
  }

  lemma EndClear(bs: seq<Block>, end: nat, j: nat, k: nat)
    requires Layout(bs, end) && j < |bs| && k < |bs|
    ensures bs[k].start <= bs[j].start || bs[j].next <= bs[k].start
    ensures bs[k].next <= bs[j].start || bs[j].next <= bs[k].next
  {
    if j < k { Increasing(bs, end, j, k); } else if k < j { Increasing(bs, end, k, j); }
  }

  // Blocks of the heap, or cut-off parts of them
  ghost predicate PartOf(x: Block, bs: seq<Block>) {
    exists j :: 0 <= j < |bs| && x.start == bs[j].start && x.next <= bs[j].next
  }

  lemma PartsClear(live: set<Block>, bs: seq<Block>, end: nat)
    requires Layout(bs, end) && forall x | x in live :: PartOf(x, bs)
    ensures EndsClear(live, bs)
    ensures forall p: nat | p >= end :: Clear(live, p)
  {
    forall k | 0 <= k < |bs| ensures Clear(live, bs[k].start) && Clear(live, bs[k].next) {
      forall x | x in live
        ensures (bs[k].start <= x.start || x.next <= bs[k].start) && (bs[k].next <= x.start || x.next <= bs[k].next) {
        var j :| 0 <= j < |bs| && x.start == bs[j].start && x.next <= bs[j].next;
        EndClear(bs, end, j, k);
      }
    }
    forall p: nat | p >= end ensures Clear(live, p) {
      forall x | x in live ensures x.next <= p {
        var j :| 0 <= j < |bs| && x.start == bs[j].start && x.next <= bs[j].next;
        Bounds(bs, end, j);
      }
    }
  }

  lemma FreeClear(live: set<Block>, s: State)
    requires Inv(s) && forall x | x in live :: PartOf(x, s.blocks)
    ensures EndsClear(live, s.blocks) && RingClear(live, s.free, s.pool) && Clear(live, s.pool - HEAD)
  {
    PartsClear(live, s.blocks, s.pool - HEAD);
    forall p | p in s.free ensures Clear(live, p) {
      assert FreeAt(s.blocks, p);
      var k :| 0 <= k < |s.blocks| && s.blocks[k].start == p;
    }
  }

  lemma UsedParts(bs: seq<Block>)
    ensures forall x | x in UsedBlocks(bs) :: PartOf(x, bs)
  {
    forall x | x in UsedBlocks(bs) ensures PartOf(x, bs) { var j :| 0 <= j < |bs| && bs[j] == x; }
  }

  // The writes of rt_memheap_free
  lemma FreeSpots(s: State)
    requires Inv(s)
    ensures EndsClear(UsedBlocks(s.blocks), s.blocks) && RingClear(UsedBlocks(s.blocks), s.free, s.pool)
  {
    UsedParts(s.blocks);
    FreeClear(UsedBlocks(s.blocks), s);
  }

  // A header inside block i is clear of the live blocks other than i.
  lemma InsideClear(live: set<Block>, bs: seq<Block>, end: nat, i: nat, at: nat)
    requires Layout(bs, end) && i < |bs| && bs[i].start <= at <= bs[i].next
    requires forall x | x in live :: x in UsedBlocks(bs) && x != bs[i]
    ensures Clear(live, at)
  {
    forall x | x in live ensures at <= x.start || x.next <= at {
      var j :| 0 <= j < |bs| && bs[j] == x;
      if j < i { Increasing(bs, end, j, i); } else if i < j { Increasing(bs, end, i, j); }
    }
  }

  // The writes of rt_memheap_alloc: block i is free, and at lies in it.
  lemma TakeClear(s: State, i: nat, at: nat)
    requires Inv(s) && i < |s.blocks| && !s.blocks[i].used
    ensures var live := UsedBlocks(s.blocks); EndsClear(live, s.blocks) && RingClear(live, s.free, s.pool)
    ensures s.blocks[i].start <= at <= s.blocks[i].next ==> Clear(UsedBlocks(s.blocks), at)
  {
    UsedParts(s.blocks);
    FreeClear(UsedBlocks(s.blocks), s);
    if s.blocks[i].start <= at <= s.blocks[i].next {
      InsideClear(UsedBlocks(s.blocks), s.blocks, s.pool - HEAD, i, at);
    }
  }

  // The writes when block i grows up to `at` in its free successor
  lemma GrowClear(s: State, i: nat, want: nat, at: nat)
    requires Inv(s) && RightFree(s.blocks, i) && Recuttable(s.blocks, i, at)
    requires at == s.blocks[i].start + HEAD + want && want > Payload(s.blocks[i])
    ensures
      var live := UsedBlocks(s.blocks);
      EndsClear(live, s.blocks) && RingClear(live, s.free, s.pool) && Clear(live, at)
  {
    assert s.blocks[i].next == s.blocks[i + 1].start;
    TakeClear(s, i + 1, at);
  }

  // The writes when block i is cut off at `at`
  lemma ShrinkClear(s: State, i: nat, at: nat)
    requires Inv(s) && i < |s.blocks| && s.blocks[i].used && s.blocks[i].start <= at <= s.blocks[i].next
    ensures
      var live := UsedBlocks(s.blocks) - {s.blocks[i]} + {Block(s.blocks[i].start, at, true)};
      EndsClear(live, s.blocks) && RingClear(live, s.free, s.pool) && Clear(live, at)
  {
    var rest, c := UsedBlocks(s.blocks) - {s.blocks[i]}, Block(s.blocks[i].start, at, true);
    UsedParts(s.blocks);
    assert PartOf(c, s.blocks);
    FreeClear(rest + {c}, s);
    InsideClear(rest, s.blocks, s.pool - HEAD, i, at);
  }

  lemma BlocksApart(bs: seq<Block>, end: nat, x: Block, c: Block)
    requires Tiles(bs, end) && x in bs && c in bs && x != c
    ensures x.next <= c.start || c.next <= x.start
  {
    var j :| 0 <= j < |bs| && bs[j] == x;
    var k :| 0 <= k < |bs| && bs[k] == c;
    if j < k { Increasing(bs, end, j, k); } else { Increasing(bs, end, k, j); }
  }

  // The new block of rt_memheap_realloc lies apart from all live ones and holds n bytes.
  lemma MoveReady(s: State, i: nat, want: nat, m: Result) returns (k: nat, c: Block)
    requires Inv(s) && i < |s.blocks| && s.blocks[i].used && LEAST <= want < RANGE && want % 4 == 0
    requires m == Alloc(s, want) && m.ptr.Some?
    ensures k == IndexOf(m.state.blocks, s.blocks[i].start) && k < |m.state.blocks| && m.state.blocks[k] == s.blocks[i]
    ensures UsedBlocks(m.state.blocks) == UsedBlocks(s.blocks) + {c} && m.ptr == Some(c.start + HEAD)
    ensures s.blocks[i] in UsedBlocks(s.blocks) && s.blocks[i].start + HEAD <= s.blocks[i].next <= s.pool
    ensures c.start + HEAD + Common(s.blocks[i], want) <= c.next <= s.pool
    ensures forall x | x in UsedBlocks(s.blocks) :: x.next <= c.start || c.next <= x.start
  {
    hide Inv, Alloc, Tiles, UsedBlocks, Payload;
    var b := s.blocks[i];
    LiveBounds(s, i);
    k, c := MoveLive(s, b, want, m.state, m.ptr.value);
    SamePool(s, want, m);
    NewBounds(m.state, c);
    RoomFor(b, c, want);
    forall x | x in UsedBlocks(s.blocks) ensures x.next <= c.start || c.next <= x.start {
      LiveApart(m.state, x, c);
    }
  }

  lemma RoomFor(b: Block, c: Block, want: nat)
    requires LEAST <= want < RANGE && want % 4 == 0 && Want(want) <= Payload(c) && c.start + HEAD <= c.next
    ensures c.start + HEAD + Common(b, want) <= c.next
  {}

  lemma SamePool(s: State, want: nat, m: Result)
    requires m == Alloc(s, want)
    ensures m.state.pool == s.pool
  {}

  lemma LiveApart(s: State, x: Block, c: Block)
    requires Inv(s) && x in UsedBlocks(s.blocks) && c in UsedBlocks(s.blocks) && x != c
    ensures x.next <= c.start || c.next <= x.start
  {
    BlocksApart(s.blocks, s.pool - HEAD, x, c);
  }

  lemma NewBounds(s: State, c: Block)
    requires Inv(s) && c in UsedBlocks(s.blocks)
    ensures c.start + HEAD <= c.next <= s.pool
  {
    var k :| 0 <= k < |s.blocks| && s.blocks[k] == c;
    Bounds(s.blocks, s.pool - HEAD, k);
  }

  // ----- rt_memheap_realloc -----

  // The bytes that the old and the new block have in common
  function Common(b: Block, want: nat): nat { if Payload(b) < want then Payload(b) else want }

  // What a caller keeps: with a result q the first bytes of block b are there and the other blocks
  // keep theirs; without one all keep theirs.
  ghost predicate Preserved(live: set<Block>, b: Block, want: nat, q: Option<nat>, a: seq<Byte>, c: seq<Byte>) {
    && Intact(if q.Some? then live - {b} else live, a, c)
    && (q.Some? ==> Carried(a, c, b.start + HEAD, q.value, Common(b, want)))
  }

  // Nothing is moved and block b keeps at least n bytes.
  lemma StaysPreserved(live: set<Block>, b: Block, c: Block, want: nat, a: seq<Byte>, z: seq<Byte>)
    requires b in live && Intact(live - {b} + {c}, a, z) && c.start == b.start && b.next <= |a|
    requires b.start + HEAD + Common(b, want) <= c.next && b.start + HEAD <= b.next
    ensures Preserved(live, b, want, Some(b.start + HEAD), a, z)
  {
    assert c in live - {b} + {c};
    assert forall x | x in live - {b} :: x in live - {b} + {c};
  }

  // Allocate c, copy, free b
  lemma MovePreserved(live: set<Block>, b: Block, c: Block, want: nat, n: nat,
      a0: seq<Byte>, a1: seq<Byte>, a2: seq<Byte>, a3: seq<Byte>)
    requires b in live && Intact(live, a0, a1) && Intact(live - {b} + {c}, a2, a3)
    requires n == Common(b, want) && b.start + HEAD <= b.next <= |a0| && c.start + HEAD + n <= c.next <= |a0|
    requires OnlyCopied(a1, a2, b.start + HEAD, c.start + HEAD, n)
    requires forall x | x in live :: x.next <= c.start || c.next <= x.start
    ensures Preserved(live, b, want, Some(c.start + HEAD), a0, a3)
  {
    var p, q := b.start + HEAD, c.start + HEAD;
    forall k | q <= k < q + n ensures a3[k] == a0[k - q + p] {
      assert c in live - {b} + {c} && a3[k] == a2[k] && a1[k - q + p] == a0[k - q + p];
    }
    forall x, k | x in live - {b} && x.start + HEAD <= k < x.next && k < |a0| ensures a3[k] == a0[k] {
      assert x in live - {b} + {c} && a3[k] == a2[k] && a1[k] == a0[k];
    }
  }

  lemma IntactSelf(live: set<Block>, a: seq<Byte>)
    ensures Intact(live, a, a)
  {}

  lemma IntactLess(more: set<Block>, live: set<Block>, a: seq<Byte>, b: seq<Byte>)
    requires Intact(more, a, b) && live <= more
    ensures Intact(live, a, b)
  {}

  // The block stays as it is, or grows.
  lemma KeepsPreserved(live: set<Block>, b: Block, want: nat, a: seq<Byte>, z: seq<Byte>)
    requires b in live && Intact(live, a, z) && b.start + HEAD <= b.next <= |a|
    ensures Preserved(live, b, want, Some(b.start + HEAD), a, z)
  {
    assert live - {b} + {b} == live;
    StaysPreserved(live, b, b, want, a, z);
  }

  lemma LiveBounds(s: State, i: nat)
    requires Inv(s) && i < |s.blocks| && s.blocks[i].used
    ensures s.blocks[i] in UsedBlocks(s.blocks)
    ensures s.blocks[i].next == s.blocks[i].start + HEAD + Payload(s.blocks[i]) && s.blocks[i].next <= s.pool
  {
    Bounds(s.blocks, s.pool - HEAD, i);
  }
}

// The ring heap as linked headers (src/memheap.c): a ring of blocks through a used tail block, and
// a ring of free blocks through a list header.
module MemheapRings {
  import opened Options
  import opened Lists
  import opened Blocks
  import opened BlockLinks
  import opened MemheapModel
  import opened MemheapProperties

  // ----- the ring of blocks -----

  // The tail's neighbours are the last and the first block.
  ghost predicate BlockRing(hdr: map<nat, Header>, bs: seq<Block>, tail: nat) {
    && bs != [] && (forall i :: 0 <= i < |bs| ==> HeaderOk(hdr, bs, tail, i))
    && tail in hdr && hdr[tail] == Header(0, bs[|bs| - 1].start, true)
  }

  // Blocks i to i + n - 1 become w: the headers of w are in place, the one behind points back to
  // the last of w, and headers elsewhere are as before.
  ghost predicate Rewired(
      hdr: map<nat, Header>, after: map<nat, Header>, bs: seq<Block>, tail: nat, i: nat, n: nat, w: seq<Block>)
    requires 0 < n && i + n <= |bs| && w != []
  {
    var behind := bs[i + n - 1].next;
    && (forall k :: 0 <= k < |w| ==> HeaderOk(after, w, PrevOf(bs, tail, i), k))
    && behind in hdr && behind in after && after[behind] == hdr[behind].(prev := w[|w| - 1].start)
    && (forall p :: p in hdr && !(bs[i].start <= p <= behind) ==> p in after && after[p] == hdr[p])
  }

  lemma RewiredHeader(
      hdr: map<nat, Header>, after: map<nat, Header>, bs: seq<Block>, tail: nat, i: nat, n: nat, w: seq<Block>, k: nat)
    requires BlockRing(hdr, bs, tail) && Tiles(bs, tail) && 0 < n && i + n <= |bs| && w != []
    requires Rewired(hdr, after, bs, tail, i, n, w) && k < |Replace(bs, i, n, w)|
    ensures HeaderOk(after, Replace(bs, i, n, w), tail, k)
  {
    ReplaceAt(bs, i, n, w);
    var r := Replace(bs, i, n, w);
    if k < i {
      KeptHeader(hdr, after, bs, tail, i, n, w, k);
      assert r[k] == bs[k] && (k > 0 ==> r[k - 1] == bs[k - 1]);
    } else if k < i + |w| {
      assert HeaderOk(after, w, PrevOf(bs, tail, i), k - i) && r[k] == w[k - i];
      assert if k > i then r[k - 1] == w[k - i - 1] else k > 0 ==> r[k - 1] == bs[i - 1];
    } else if k == i + |w| {
      assert HeaderOk(hdr, bs, tail, i + n) && bs[i + n - 1].next == bs[i + n].start;
      assert r[k] == bs[i + n] && r[k - 1] == w[|w| - 1];
    } else {
      KeptHeader(hdr, after, bs, tail, i, n, w, k - |w| + n);
      assert r[k] == bs[k - |w| + n] && r[k - 1] == bs[k - |w| + n - 1];
    }
  }

  lemma RewiredRing(
      hdr: map<nat, Header>, after: map<nat, Header>, bs: seq<Block>, tail: nat, i: nat, n: nat, w: seq<Block>)
    requires BlockRing(hdr, bs, tail) && Tiles(bs, tail) && 0 < n && i + n <= |bs| && w != []
    requires Rewired(hdr, after, bs, tail, i, n, w)
    ensures BlockRing(after, Replace(bs, i, n, w), tail)
  {
    var r := Replace(bs, i, n, w);
    forall k | 0 <= k < |r| ensures HeaderOk(after, r, tail, k) { RewiredHeader(hdr, after, bs, tail, i, n, w, k); }
    ReplaceAt(bs, i, n, w);
    Bounds(bs, tail, i + n - 1);
    assert r[|r| - 1] == if i + n < |bs| then bs[|bs| - 1] else w[|w| - 1];
  }

  lemma KeptHeader(
      hdr: map<nat, Header>, after: map<nat, Header>, bs: seq<Block>, tail: nat, i: nat, n: nat, w: seq<Block>, k: nat)
    requires BlockRing(hdr, bs, tail) && Tiles(bs, tail) && 0 < n && i + n <= |bs| && w != []
    requires Rewired(hdr, after, bs, tail, i, n, w) && k < |bs| && (k < i || k > i + n)
    ensures HeaderOk(after, bs, tail, k)
  {
    assert HeaderOk(hdr, bs, tail, k);
    if k < i {
      Increasing(bs, tail, k, i);
    } else {
      assert bs[i + n - 1].next == bs[i + n].start;
      Increasing(bs, tail, i + n, k);
    }
  }

  // ----- the ring of free blocks, as the list from the header back to the header -----

  function Closed(free: seq<nat>, list: nat): (r: seq<nat>)
    ensures |r| == |free| + 2
  {
    [list] + free + [list]
  }

  ghost predicate Hook(nf: map<nat, nat>, pf: map<nat, nat>, r: seq<nat>, k: nat)
    requires k + 1 < |r|
  {
    r[k] in nf && nf[r[k]] == r[k + 1] && r[k + 1] in pf && pf[r[k + 1]] == r[k]
  }

  ghost predicate Hooked(nf: map<nat, nat>, pf: map<nat, nat>, r: seq<nat>) {
    forall k :: 0 <= k < |r| - 1 ==> Hook(nf, pf, r, k)
  }

  // Only the list header occurs twice, at both ends.
  lemma ClosedDistinct(free: seq<nat>, list: nat, a: nat, b: nat)
    requires Distinct(free) && list !in free && a < b <= |free| + 1 && (a > 0 || b <= |free|)
    ensures Closed(free, list)[a] != Closed(free, list)[b]
  {
    if a > 0 && b <= |free| { assert free[a - 1] != free[b - 1]; }
  }

  // The ring without its element j
  lemma UnhookAt(nf: map<nat, nat>, pf: map<nat, nat>, free: seq<nat>, list: nat, j: nat, k: nat)
    requires Hooked(nf, pf, Closed(free, list)) && Distinct(free) && list !in free && j < |free| && k < |free|
    ensures free[j] in nf && free[j] in pf
    ensures Hook(nf[pf[free[j]] := nf[free[j]]], pf[nf[free[j]] := pf[free[j]]],
                 Closed(free[..j] + free[j + 1..], list), k)
  {
    var r, t := Closed(free, list), Closed(free[..j] + free[j + 1..], list);
    assert Hook(nf, pf, r, j) && Hook(nf, pf, r, j + 1) && r[j + 1] == free[j];
    if k < j {
      assert t[k] == r[k] && t[k + 1] == r[k + 1] && Hook(nf, pf, r, k);
      ClosedDistinct(free, list, k, j);
      ClosedDistinct(free, list, k + 1, j + 2);
    } else if k == j {
      assert t[k] == r[j] && t[k + 1] == r[j + 2];
    } else {
      assert t[k] == r[k + 1] && t[k + 1] == r[k + 2] && Hook(nf, pf, r, k + 1);
      ClosedDistinct(free, list, j, k + 1);
      ClosedDistinct(free, list, j + 2, k + 2);
    }
  }

  // x->next_free->prev_free = x->prev_free; x->prev_free->next_free = x->next_free
  lemma Unhook(nf: map<nat, nat>, pf: map<nat, nat>, free: seq<nat>, list: nat, x: nat)
    requires Hooked(nf, pf, Closed(free, list)) && Distinct(free) && list !in free && x in free
    ensures x in nf && x in pf
    ensures Hooked(nf[pf[x] := nf[x]], pf[nf[x] := pf[x]], Closed(Without(free, x), list))
  {
    var j :| 0 <= j < |free| && free[j] == x;
    UnhookAt(nf, pf, free, list, j, j);
    WithoutAt(free, j);
    var nf1, pf1, t := nf[pf[x] := nf[x]], pf[nf[x] := pf[x]], Closed(Without(free, x), list);
    hide Hook, Closed;
    forall k | 0 <= k < |free| ensures Hook(nf1, pf1, t, k) { UnhookAt(nf, pf, free, list, j, k); }
  }

  // x->next_free = list->next_free; x->prev_free = list; list->next_free->prev_free = x;
  // list->next_free = x
  lemma HookFirst(nf: map<nat, nat>, pf: map<nat, nat>, free: seq<nat>, list: nat, x: nat)
    requires Hooked(nf, pf, Closed(free, list)) && Distinct(free) && list !in free && x !in free && x != list
    ensures list in nf
    ensures Hooked(nf[x := nf[list]][list := x], pf[x := list][nf[list] := x], Closed([x] + free, list))
  {
    var r, t := Closed(free, list), Closed([x] + free, list);
    assert Hook(nf, pf, r, 0);
    var nf1, pf1 := nf[x := nf[list]][list := x], pf[x := list][nf[list] := x];
    forall k | 0 <= k < |t| - 1 ensures Hook(nf1, pf1, t, k) {
      if k >= 1 {
        assert t[k] == (if k == 1 then x else r[k - 1]) && t[k + 1] == r[k];
        assert Hook(nf, pf, r, k - 1);
        assert k > 1 ==> r[k - 1] != list && r[k - 1] != x && r[k] != r[1];
      } else {
        assert t[0] == list && t[1] == x;
      }
    }
  }

  // ----- three edits of the block ring -----

  // A block and the free remainder behind 'at'
  function Halves(b: Block, at: nat): seq<Block> { [Block(b.start, at, b.used), Block(at, b.next, false)] }

  lemma CarveRing(hdr: map<nat, Header>, after: map<nat, Header>, bs: seq<Block>, tail: nat, i: nat, at: nat)
    requires BlockRing(hdr, bs, tail) && Tiles(bs, tail) && i < |bs| && bs[i].start < at < bs[i].next
    requires bs[i].start in hdr && bs[i].next in hdr
    requires after == hdr[at := Header(bs[i].next, bs[i].start, false)][bs[i].next := hdr[bs[i].next].(prev := at)]
                      [bs[i].start := hdr[bs[i].start].(next := at)]
    ensures BlockRing(after, Replace(bs, i, 1, Halves(bs[i], at)), tail)
  {
    var w := Halves(bs[i], at);
    assert HeaderOk(hdr, bs, tail, i);
    assert HeaderOk(after, w, PrevOf(bs, tail, i), 0) && HeaderOk(after, w, PrevOf(bs, tail, i), 1);
    RewiredRing(hdr, after, bs, tail, i, 1, w);
  }

  lemma JoinRing(hdr: map<nat, Header>, after: map<nat, Header>, bs: seq<Block>, tail: nat, i: nat)
    requires BlockRing(hdr, bs, tail) && Tiles(bs, tail) && i + 1 < |bs|
    requires bs[i].start in hdr && bs[i + 1].next in hdr
    requires after == hdr[bs[i + 1].next := hdr[bs[i + 1].next].(prev := bs[i].start)]
                      [bs[i].start := hdr[bs[i].start].(next := bs[i + 1].next)]
    ensures BlockRing(after, Replace(bs, i, 2, [Block(bs[i].start, bs[i + 1].next, bs[i].used)]), tail)
  {
    var w := [Block(bs[i].start, bs[i + 1].next, bs[i].used)];
    assert HeaderOk(hdr, bs, tail, i) && bs[i].next == bs[i + 1].start;
    assert HeaderOk(after, w, PrevOf(bs, tail, i), 0);
    RewiredRing(hdr, after, bs, tail, i, 2, w);
  }

  lemma MarkRing(hdr: map<nat, Header>, after: map<nat, Header>, bs: seq<Block>, tail: nat, i: nat, used: bool)
    requires BlockRing(hdr, bs, tail) && Tiles(bs, tail) && i < |bs| && bs[i].start in hdr
    requires after == hdr[bs[i].start := hdr[bs[i].start].(used := used)]
    ensures BlockRing(after, Replace(bs, i, 1, [bs[i].(used := used)]), tail)
  {
    var w := [bs[i].(used := used)];
    Neighbours(hdr, bs, tail, i);
    assert HeaderOk(after, w, PrevOf(bs, tail, i), 0);
    RewiredRing(hdr, after, bs, tail, i, 1, w);
  }

  // What the header of block i says about its neighbours in the ring
  lemma Neighbours(hdr: map<nat, Header>, bs: seq<Block>, tail: nat, i: nat)
    requires BlockRing(hdr, bs, tail) && Tiles(bs, tail) && i < |bs|
    ensures bs[i].start in hdr && hdr[bs[i].start] == Header(bs[i].next, PrevOf(bs, tail, i), bs[i].used)
    ensures bs[i].next in hdr && hdr[bs[i].next].prev == bs[i].start && bs[i].start < bs[i].next
    ensures RightFree(bs, i) <==> !hdr[bs[i].next].used
    ensures RightFree(bs, i) ==> bs[i].next == bs[i + 1].start && hdr[bs[i].next].next == bs[i + 1].next
    ensures PrevOf(bs, tail, i) in hdr && (LeftFree(bs, i) <==> !hdr[PrevOf(bs, tail, i)].used)
  {
    assert HeaderOk(hdr, bs, tail, i);
    if i + 1 < |bs| { assert HeaderOk(hdr, bs, tail, i + 1) && bs[i].next == bs[i + 1].start; }
    if i > 0 { assert HeaderOk(hdr, bs, tail, i - 1); }
  }

  // ----- block sequences between the steps of an operation -----

  lemma ReplaceTwice(bs: seq<Block>, i: nat, n: nat, b: Block, w: seq<Block>)
    requires i + n <= |bs|
    ensures i < |Replace(bs, i, n, [b])| && Replace(bs, i, n, [b])[i] == b
    ensures Replace(Replace(bs, i, n, [b]), i, 1, w) == Replace(bs, i, n, w)
  {
    var r := Replace(bs, i, n, [b]);
    assert r[..i] == bs[..i] && r[i + 1..] == bs[i + n..];
  }

  // Carving a block in two and then marking the first half
  lemma CarveThenMark(bs: seq<Block>, i: nat, at: nat)
    requires i < |bs| && bs[i].start < at < bs[i].next
    ensures var r := Replace(bs, i, 1, Halves(bs[i], at));
            && i < |r| && r[i] == Block(bs[i].start, at, bs[i].used)
            && Replace(r, i, 1, [r[i].(used := true)]) ==
               Replace(bs, i, 1, [Block(bs[i].start, at, true), Block(at, bs[i].next, false)])
  {
    var r := Replace(bs, i, 1, Halves(bs[i], at));
    ReplaceAt(bs, i, 1, Halves(bs[i], at));
    assert r[..i] == bs[..i] && r[i + 1..] == [Block(at, bs[i].next, false)] + bs[i + 1..];
  }

  lemma HalvesTile(bs: seq<Block>, end: nat, i: nat, at: nat)
    requires Tiles(bs, end) && i < |bs| && bs[i].start + SPAN <= at && at + SPAN <= bs[i].next
    ensures Tiles(Replace(bs, i, 1, Halves(bs[i], at)), end)
  {
    ReplaceTiles(bs, end, i, 1, Halves(bs[i], at));
  }

  lemma TakeRoom(s: State, i: nat, want: nat)
    requires Inv(s) && i < |s.blocks| && Fits(s.blocks[i], want) && Payload(s.blocks[i]) >= want + HEAD + LEAST
    ensures s.blocks[i].start + HEAD + want !in s.free && s.blocks[i].start + HEAD + want != s.pool
  {
    RingFacts(s, i);
    Bounds(s.blocks, s.pool - HEAD, i);
  }

  // What taking block i does to the fields: e is the heap afterwards.
  ghost predicate TakePlan(s: State, i: nat, want: nat, less: nat, split: bool, e: State)
    requires i < |s.blocks|
  {
    var ptr, at := s.blocks[i].start, s.blocks[i].start + HEAD + want;
    && split == (Payload(s.blocks[i]) >= want + HEAD + LEAST)
    && less == (if split then want + HEAD else Payload(s.blocks[i])) && less <= s.available <= s.pool
    && ptr in s.free && s.pool !in s.free && (split ==> at !in s.free && at != s.pool)
    && e.pool == s.pool && e.available == s.available - less
    && e.blocks == Replace(s.blocks, i, 1, Carved(s.blocks[i], want))
    && e.free == Ringed(s.free, Some(ptr), if split then Some(at) else None)
    && e.maxUsed == if e.pool > s.maxUsed + e.available then e.pool - e.available else s.maxUsed
  }

  lemma PlanTake(s: State, i: nat, want: nat, less: nat, split: bool, e: State)
    requires Inv(s) && i < |s.blocks| && Fits(s.blocks[i], want) && e == TakeAt(s, i, want)
    requires split == (Payload(s.blocks[i]) >= want + HEAD + LEAST)
    requires less == if split then want + HEAD else Payload(s.blocks[i])
    ensures TakePlan(s, i, want, less, split, e)
  {
    Conservation(s);
    CarvedTotal(s.blocks, i, want);
    RingFacts(s, i);
    if split { TakeRoom(s, i, want); }
  }

  // Position k of the free ring, or the list header behind its end
  function RingAt(free: seq<nat>, list: nat, k: nat): nat { if k < |free| then free[k] else list }

  lemma FirstInRing(nf: map<nat, nat>, pf: map<nat, nat>, free: seq<nat>, list: nat)
    requires Hooked(nf, pf, Closed(free, list))
    ensures list in nf && nf[list] == RingAt(free, list, 0) && free[0..] == free
  {
    assert Hook(nf, pf, Closed(free, list), 0);
  }

  // The header of the k-th free block, and what the search makes of it
  lemma FreeHeader(s: State, hdr: map<nat, Header>, nf: map<nat, nat>, pf: map<nat, nat>, k: nat, i: nat)
    requires Inv(s) && BlockRing(hdr, s.blocks, s.pool - HEAD) && Hooked(nf, pf, Closed(s.free, s.pool)) && k < |s.free|
    requires i == IndexOf(s.blocks, s.free[k])
    ensures i < |s.blocks| && s.free[k] != s.pool && s.free[k] in hdr && s.free[k] in nf
    ensures s.blocks[i].start == s.free[k] && hdr[s.free[k]].next == s.free[k] + HEAD + Payload(s.blocks[i])
    ensures nf[s.free[k]] == RingAt(s.free, s.pool, k + 1)
  {
    FreeIndex(s, k, i);
    Neighbours(hdr, s.blocks, s.pool - HEAD, i);
    NextInRing(nf, pf, s.free, s.pool, k);
  }

  lemma FreeIndex(s: State, k: nat, i: nat)
    requires Inv(s) && k < |s.free| && i == IndexOf(s.blocks, s.free[k])
    ensures i < |s.blocks| && s.blocks[i].start == s.free[k] && s.free[k] != s.pool
    ensures s.blocks[i].next == s.free[k] + HEAD + Payload(s.blocks[i])
  {
    assert s.free[k] in s.free && FreeAt(s.blocks, s.free[k]);
    FreeAtIndex(s.blocks, s.pool - HEAD, s.free[k], i);
    Bounds(s.blocks, s.pool - HEAD, i);
  }

  lemma FreeAtIndex(bs: seq<Block>, end: nat, p: nat, i: nat)
    requires Tiles(bs, end) && FreeAt(bs, p) && i == IndexOf(bs, p)
    ensures i < |bs| && bs[i].start == p
  {
    var j :| 0 <= j < |bs| && bs[j].start == p && !bs[j].used;
    RingIndex(bs, end, j);
  }

  // The neighbours of a free block in the ring
  lemma InRing(nf: map<nat, nat>, pf: map<nat, nat>, free: seq<nat>, list: nat, x: nat)
    requires Hooked(nf, pf, Closed(free, list)) && x in free
    ensures x in nf && x in pf && (nf[x] == list || nf[x] in free) && (pf[x] == list || pf[x] in free)
  {
    var j :| 0 <= j < |free| && free[j] == x;
    assert Hook(nf, pf, Closed(free, list), j) && Hook(nf, pf, Closed(free, list), j + 1);
  }

  lemma NextInRing(nf: map<nat, nat>, pf: map<nat, nat>, free: seq<nat>, list: nat, k: nat)
    requires Hooked(nf, pf, Closed(free, list)) && k < |free|
    ensures free[k] in nf && nf[free[k]] == RingAt(free, list, k + 1)
  {
    assert Hook(nf, pf, Closed(free, list), k + 1);
  }

  // Only the end of the ring leads to its header.
  lemma NotTheList(s: State, k: nat)
    requires Inv(s) && k <= |s.free| && RingAt(s.free, s.pool, k) == s.pool
    ensures k == |s.free|
  {
    RingFacts(s, 0);
    assert forall j :: 0 <= j < |s.free| ==> s.free[j] in s.free;
  }

  lemma RingFitStep(bs: seq<Block>, free: seq<nat>, k: nat, want: nat, i: nat)
    requires k < |free| && i == IndexOf(bs, free[k]) && i < |bs|
    ensures RingFit(bs, free[k..], want) == if Payload(bs[i]) >= want then Some(i) else RingFit(bs, free[k + 1..], want)
  {
    assert free[k..][0] == free[k] && free[k..][1..] == free[k + 1..];
  }

  // What rt_memheap_alloc does when the search ended at block i
  lemma AllocIs(s: State, size: nat, fit: Option<nat>, m: Result)
    requires Inv(s) && size < RANGE && fit == RingFit(s.blocks, s.free, Want(size)) && Want(size) < s.available
    requires m == Alloc(s, size)
    ensures fit.Some? ==>
              && fit.value < |s.blocks| && Fits(s.blocks[fit.value], Want(size))
              && m == Result(TakeAt(s, fit.value, Want(size)), Some(s.blocks[fit.value].start + HEAD))
    ensures fit.None? ==> m == Result(s, None)
  {
    RingFitIs(s.blocks, s.free, Want(size));
    if fit.Some? { var _ := AllocTakes(s, size, m.state, m.ptr.value); }
  }

  // ----- the steps of rt_memheap_free -----

  // Block i free and merged with a free predecessor
  function LeftJoined(bs: seq<Block>, i: nat): seq<Block>
    requires i < |bs|
  {
    Replace(bs, Lo(bs, i), i + 1 - Lo(bs, i), [Block(bs[Lo(bs, i)].start, bs[i].next, false)])
  }

  lemma StepsTile(bs: seq<Block>, end: nat, i: nat)
    requires Tiles(bs, end) && i < |bs|
    ensures Tiles(SetFree(bs, i), end) && Tiles(LeftJoined(bs, i), end)
  {
    ReplaceTiles(bs, end, i, 1, [bs[i].(used := false)]);
    assert LeftFree(bs, i) ==> bs[i - 1].next == bs[i].start;
    ReplaceTiles(bs, end, Lo(bs, i), i + 1 - Lo(bs, i), [Block(bs[Lo(bs, i)].start, bs[i].next, false)]);
  }

  lemma FreedSteps(bs: seq<Block>, i: nat, f: seq<Block>)
    requires i < |bs| && f == SetFree(bs, i)
    ensures |f| == |bs| && f[i] == bs[i].(used := false) && (LeftFree(f, i) <==> LeftFree(bs, i))
    ensures LeftFree(bs, i) ==>
              f[i - 1] == bs[i - 1]
              && LeftJoined(bs, i) == Replace(f, i - 1, 2, [Block(f[i - 1].start, f[i].next, f[i - 1].used)])
    ensures !LeftFree(bs, i) ==> LeftJoined(bs, i) == f
  {
    ReplaceAt(bs, i, 1, [bs[i].(used := false)]);
    if LeftFree(bs, i) { assert f[..i - 1] == bs[..i - 1] && f[i + 1..] == bs[i + 1..]; }
  }

  lemma JoinedSteps(bs: seq<Block>, i: nat, g: seq<Block>, lo: nat)
    requires i < |bs| && g == LeftJoined(bs, i) && lo == Lo(bs, i)
    ensures lo < |g| && g[lo] == Block(bs[lo].start, bs[i].next, false)
    ensures RightFree(g, lo) <==> RightFree(bs, i)
    ensures RightFree(bs, i) ==>
              && g[lo + 1] == bs[i + 1]
              && Merge(bs, i) == Replace(g, lo, 2, [Block(g[lo].start, g[lo + 1].next, g[lo].used)])
    ensures !RightFree(bs, i) ==> Merge(bs, i) == g
  {
    ReplaceAt(bs, lo, i + 1 - lo, [Block(bs[lo].start, bs[i].next, false)]);
    if RightFree(bs, i) { assert g[..lo] == bs[..lo] && g[lo + 2..] == bs[i + 2..]; }
  }

  // What freeing block i does to the fields: e is the heap afterwards.
  ghost predicate FreePlan(s: State, i: nat, e: State)
    requires i < |s.blocks|
  {
    var ptr := s.blocks[i].start;
    && e.pool == s.pool && e.blocks == Merge(s.blocks, i) && e.free == MergedFree(s.free, s.blocks, i)
    && e.available == s.available + Payload(s.blocks[i]) + Gained(s.blocks, i) && e.maxUsed == s.maxUsed
    && s.pool !in s.free && ptr !in s.free && ptr != s.pool
    && (RightFree(s.blocks, i) ==> s.blocks[i + 1].start in s.free)
  }

  lemma PlanFree(s: State, i: nat, e: State)
    requires Inv(s) && i < |s.blocks| && s.blocks[i].used && e == FreeAll(s, i)
    ensures FreePlan(s, i, e)
  {
    RingFacts(s, i);
    if RightFree(s.blocks, i) { RingFacts(s, i + 1); }
    Bounds(s.blocks, s.pool - HEAD, i);
  }

  // ----- the steps of rt_memheap_realloc in place -----

  // Growing: block i takes in its free successor, then a new free block is cut off.
  lemma GrowSteps(bs: seq<Block>, end: nat, i: nat, at: nat, g: seq<Block>)
    requires Layout(bs, end) && Recuttable(bs, i, at) && RightFree(bs, i)
    requires g == Replace(bs, i, 2, [Block(bs[i].start, bs[i + 1].next, true)])
    ensures Tiles(g, end) && i < |g| && g[i] == Block(bs[i].start, bs[i + 1].next, true)
    ensures Replace(g, i, 1, Halves(g[i], at)) == Recut(bs, i, at)
  {
    Increasing(bs, end, i, i + 1);
    ReplaceTiles(bs, end, i, 2, [Block(bs[i].start, bs[i + 1].next, true)]);
    ReplaceTwice(bs, i, 2, Block(bs[i].start, bs[i + 1].next, true),
        Halves(Block(bs[i].start, bs[i + 1].next, true), at));
  }

  // Shrinking: a free block is cut off, then takes in a free successor.
  lemma ShrinkSteps(bs: seq<Block>, end: nat, i: nat, at: nat, g: seq<Block>)
    requires Tiles(bs, end) && Recuttable(bs, i, at) && at + SPAN <= bs[i].next
    requires g == Replace(bs, i, 1, Halves(bs[i], at))
    ensures Tiles(g, end) && i + 1 < |g| && g[i + 1] == Block(at, bs[i].next, false)
    ensures RightFree(g, i + 1) <==> RightFree(bs, i)
    ensures RightFree(bs, i) ==>
              g[i + 2] == bs[i + 1]
              && Replace(g, i + 1, 2, [Block(g[i + 1].start, g[i + 2].next, g[i + 1].used)]) == Recut(bs, i, at)
    ensures !RightFree(bs, i) ==> g == Recut(bs, i, at)
  {
    HalvesTile(bs, end, i, at);
    ReplaceAt(bs, i, 1, Halves(bs[i], at));
    hide Tiles;
    if RightFree(bs, i) { ShrinkMerges(bs, i, at, g); }
  }

  lemma ShrinkMerges(bs: seq<Block>, i: nat, at: nat, g: seq<Block>)
    requires i < |bs| && bs[i].used && RightFree(bs, i) && g == Replace(bs, i, 1, Halves(bs[i], at))
    ensures i + 2 < |g| && g[i + 1] == Block(at, bs[i].next, false) && g[i + 2] == bs[i + 1]
    ensures Replace(g, i + 1, 2, [Block(at, g[i + 2].next, false)]) == Recut(bs, i, at)
  {
    assert g == bs[..i] + Halves(bs[i], at) + bs[i + 1..];
    assert g[..i + 1] == bs[..i] + [Block(bs[i].start, at, true)] && g[i + 3..] == bs[i + 2..];
  }

  // What a change in place does to the fields: e is the heap afterwards.
  ghost predicate RecutPlan(s: State, i: nat, at: nat, e: State)
    requires i < |s.blocks|
  {
    var right, rest := RightFree(s.blocks, i), Payload(Rest(s.blocks, i, at));
    var less := if right then Payload(s.blocks[i + 1]) else 0;
    && e.pool == s.pool && e.blocks == Recut(s.blocks, i, at) && e.free == RecutFree(s.free, s.blocks, i, at)
    && less <= s.available <= s.pool && e.available == s.available - less + rest && e.available <= s.pool
    && e.maxUsed == (if s.pool > s.maxUsed + e.available then s.pool - e.available else s.maxUsed)
    && (e.available >= s.available ==> e.maxUsed == s.maxUsed)
    && s.pool !in s.free && at != s.pool && (right ==> s.blocks[i + 1].start in s.free)
    && at !in (if right then Without(s.free, s.blocks[i + 1].start) else s.free)
  }

  lemma RecutCounts(s: State, i: nat, at: nat, e: State)
    requires Inv(s) && Recuttable(s.blocks, i, at) && e == RecutAt(s, i, at)
    ensures var less := if RightFree(s.blocks, i) then Payload(s.blocks[i + 1]) else 0;
            less <= s.available <= s.pool && e.available == s.available - less + Payload(Rest(s.blocks, i, at))
    ensures e.available <= e.pool
    ensures e.maxUsed == if s.pool > s.maxUsed + e.available then s.pool - e.available else s.maxUsed
    ensures e.available >= s.available ==> e.maxUsed == s.maxUsed
  {
    Conservation(s);
    RecutTotal(s.blocks, i, at);
    RecutSafe(s, i, at, e);
    Conservation(e);
  }

  lemma RecutFresh(s: State, i: nat, at: nat)
    requires Inv(s) && Recuttable(s.blocks, i, at)
    ensures s.pool !in s.free && at != s.pool && (RightFree(s.blocks, i) ==> s.blocks[i + 1].start in s.free)
    ensures at !in (if RightFree(s.blocks, i) then Without(s.free, s.blocks[i + 1].start) else s.free)
  {
    RingFacts(s, i);
    Bounds(s.blocks, s.pool - HEAD, Hi(s.blocks, i) - 1);
    if RightFree(s.blocks, i) {
      RingFacts(s, i + 1);
      assert s.blocks[i].next == s.blocks[i + 1].start;
    }
  }

  lemma PlanRecut(s: State, i: nat, at: nat, e: State)
    requires Inv(s) && Recuttable(s.blocks, i, at) && e == RecutAt(s, i, at)
    ensures RecutPlan(s, i, at, e)
  {
    RecutCounts(s, i, at, e);
    RecutFresh(s, i, at);
  }

  // The same for growing, by the number of bytes taken from the successor
  ghost predicate GrowPlan(s: State, i: nat, at: nat, less: nat, e: State)
    requires i + 1 < |s.blocks|
  {
    var next := s.blocks[i + 1].start;
    && e.pool == s.pool && e.blocks == Recut(s.blocks, i, at) && e.free == Ringed(s.free, Some(next), Some(at))
    && less <= s.available <= s.pool && e.available == s.available - less
    && e.maxUsed == (if s.pool > s.maxUsed + e.available then s.pool - e.available else s.maxUsed)
    && s.pool !in s.free && at != s.pool && next in s.free && at !in Without(s.free, next)
  }

  lemma PlanGrow(s: State, i: nat, want: nat, at: nat, e: State)
    requires Inv(s) && Recuttable(s.blocks, i, at) && RightFree(s.blocks, i) && e == RecutAt(s, i, at)
    requires at == s.blocks[i].start + HEAD + want && want > Payload(s.blocks[i])
    ensures GrowPlan(s, i, at, want - Payload(s.blocks[i]), e)
  {
    PlanRecut(s, i, at, e);
    assert s.blocks[i].next == s.blocks[i + 1].start;
  }

  lemma ShrinkGains(s: State, i: nat, at: nat)
    requires Inv(s) && Recuttable(s.blocks, i, at) && at + HEAD + LEAST <= s.blocks[i].next
    ensures Rest(s.blocks, i, at).next == at + HEAD + Payload(Rest(s.blocks, i, at))
    ensures RightFree(s.blocks, i) ==> Payload(s.blocks[i + 1]) <= Payload(Rest(s.blocks, i, at))
    ensures s.available <= RecutAt(s, i, at).available
  {
    assert RightFree(s.blocks, i) ==> s.blocks[i].next == s.blocks[i + 1].start;
    RecutTotal(s.blocks, i, at);
  }

  lemma MovedIs(s: State, i: nat, want: nat, m: Result, m1: Result, k: nat)
    requires Inv(s) && i < |s.blocks| && s.blocks[i].used && LEAST <= want < RANGE && m == Moved(s, i, want)
    requires m1 == Alloc(s, want) && k == IndexOf(m1.state.blocks, s.blocks[i].start)
    ensures m.ptr == m1.ptr
    ensures m1.ptr.Some? ==> k < |m1.state.blocks| && m1.state.blocks[k] == s.blocks[i]
    ensures m1.ptr.Some? ==> m.state == FreeAll(m1.state, k)
    ensures m1.ptr.None? ==> m.state == m1.state
  {
    if m1.ptr.Some? {
      assert s.blocks[i] in UsedBlocks(s.blocks);
      var _, _ := MoveLive(s, s.blocks[i], want, m1.state, m1.ptr.value);
    }
  }

  // The payloads of block i and its successor, as their headers give them
  lemma PayloadsFit(bs: seq<Block>, i: nat)
    requires Roomy(bs) && i < |bs|
    ensures bs[i].next == bs[i].start + HEAD + Payload(bs[i])
    ensures RightFree(bs, i) ==> bs[i + 1].next == bs[i + 1].start + HEAD + Payload(bs[i + 1])
  {
  }

  lemma RecutHeader(hdr: map<nat, Header>, bs: seq<Block>, tail: nat, i: nat, at: nat)
    requires i < |bs| && BlockRing(hdr, Recut(bs, i, at), tail)
    ensures at in hdr && hdr[at].next == Rest(bs, i, at).next
  {
    var w := [Block(bs[i].start, at, true), Rest(bs, i, at)];
    ReplaceAt(bs, i, Hi(bs, i) - i, w);
    assert Recut(bs, i, at)[i + 1] == w[1];
    assert HeaderOk(hdr, Recut(bs, i, at), tail, i + 1);
  }

  // Members of the free ring
  lemma RingFacts(s: State, i: nat)
    requires Inv(s) && i < |s.blocks|
    ensures s.pool !in s.free && (s.blocks[i].start in s.free <==> !s.blocks[i].used)
    ensures forall at: nat :: s.blocks[i].start < at < s.blocks[i].next ==> at !in s.free
  {
    hide Coalesced, Tiles;
    PoolNotFree(s);
    if s.blocks[i].used { UsedNotFree(s.blocks, s.pool - HEAD, i); }
    else { assert FreeAt(s.blocks, s.blocks[i].start); }
    forall at: nat | s.blocks[i].start < at < s.blocks[i].next ensures at !in s.free {
      InsideFresh(s.blocks, s.pool - HEAD, i, at);
    }
  }

  // The end header is in no ring.
  lemma PoolNotFree(s: State)
    requires Inv(s)
    ensures s.pool !in s.free
  {
    hide Coalesced, Tiles;
    if s.pool in s.free {
      var k :| 0 <= k < |s.blocks| && s.blocks[k].start == s.pool;
      Bounds(s.blocks, s.pool - HEAD, k);
    }
  }

  // ----- the object -----

  // In the branches that work in place, the size and the address are right.
  lemma ResizeCases(s: State, i: nat, want: nat)
    requires Inv(s) && i < |s.blocks| && s.blocks[i].used && Harmless(s.blocks, i, want)
    ensures LEAST <= want < RANGE && (RightFree(s.blocks, i) || want <= Payload(s.blocks[i]) ==> Sane(want))
    ensures InPlace(s.blocks, i, want) ==> Here(s.blocks[i].start + HEAD + want) == s.blocks[i].start + HEAD + want
  {
    Bounds(s.blocks, s.pool - HEAD, i);
    if InPlace(s.blocks, i, want) { InPlaceSane(s.blocks, s.pool - HEAD, i, want); }
  }

  lemma FreeReady(s: State, i: nat, e: State)
    requires Inv(s) && i < |s.blocks| && s.blocks[i].used && e == FreeAll(s, i)
    ensures Inv(e) && FreePlan(s, i, e)
  {
    FreeSafe(s, i, e);
    PlanFree(s, i, e);
  }

  lemma ShrinkReady(s: State, i: nat, want: nat, at: nat, e: State)
    requires Inv(s) && i < |s.blocks| && s.blocks[i].used && Sane(want)
    requires want + HEAD + LEAST < Payload(s.blocks[i]) && at == s.blocks[i].start + HEAD + want
    requires e == RecutAt(s, i, at)
    ensures Inv(e) && Recuttable(s.blocks, i, at) && RecutPlan(s, i, at, e)
    ensures s.available <= e.available && at + HEAD + LEAST <= s.blocks[i].next
    ensures RightFree(s.blocks, i) ==> Payload(s.blocks[i + 1]) <= Payload(Rest(s.blocks, i, at))
    ensures Rest(s.blocks, i, at).next == at + HEAD + Payload(Rest(s.blocks, i, at))
  {
    ResizeRecuts(s.blocks, s.pool - HEAD, i, want);
    RecutSafe(s, i, at, e);
    PlanRecut(s, i, at, e);
    ShrinkGains(s, i, at);
  }

  lemma GrowReady(s: State, i: nat, want: nat, at: nat, e: State)
    requires Inv(s) && i < |s.blocks| && s.blocks[i].used && Sane(want)
    requires want > Payload(s.blocks[i]) && GrowsInPlace(s.blocks, i, want)
    requires at == s.blocks[i].start + HEAD + want && e == RecutAt(s, i, at)
    ensures Inv(e) && Recuttable(s.blocks, i, at) && GrowPlan(s, i, at, want - Payload(s.blocks[i]), e)
  {
    ResizeRecuts(s.blocks, s.pool - HEAD, i, want);
    RecutSafe(s, i, at, e);
    PlanGrow(s, i, want, at, e);
  }
}

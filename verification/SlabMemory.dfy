// Which writes of the slab allocator leave the contents of live blocks alone.
module SlabMemory {
  import opened Options
  import opened Bytes
  import opened PageModel
  import opened PageHeap
  import opened PageLinks
  import opened SlabSizes
  import opened SlabZone
  import opened SlabHeap
  import opened SlabBlocks
  import opened SlabSafety
  import opened SlabProperties

  // The live blocks of h, but for the one at `but`, have the same bytes.
  ghost predicate Kept(h: Heap, but: Option<nat>, a: seq<Byte>, b: seq<Byte>) {
    && |a| == |b|
    && (forall p: nat, n: nat, k {:trigger Block(h, p, n), b[k]} ::
         Block(h, p, n) && but != Some(p) && p <= k < p + n && k < |a| ==> b[k] == a[k])
  }

  // The bytes from p on overlap none of them.
  ghost predicate Avoids(h: Heap, but: Option<nat>, p: nat, len: nat) {
    forall q: nat, n: nat | Block(h, q, n) :: but == Some(q) || q + n <= p || p + len <= q
  }

  ghost predicate PagesAvoid(h: Heap, but: Option<nat>, runs: seq<Run>) {
    forall x: nat | FreePage(runs, x) :: Avoids(h, but, PageAddr(x), 4096)
  }

  lemma WriteKept(h: Heap, but: Option<nat>, a: seq<Byte>, b: seq<Byte>, p: nat, data: seq<Byte>)
    requires Kept(h, but, a, b) && Avoids(h, but, p, |data|) && p + |data| <= |b|
    ensures Kept(h, but, a, Written(b, p, data))
  {
    var c := Written(b, p, data);
    forall q: nat, n: nat, k | Block(h, q, n) && but != Some(q) && q <= k < q + n && k < |a| ensures c[k] == a[k] {
      assert q + n <= p || p + |data| <= q;
    }
  }

  // Writes to free pages
  lemma FreeKept(h: Heap, but: Option<nat>, runs: seq<Run>, a: seq<Byte>, b: seq<Byte>, c: seq<Byte>)
    requires Kept(h, but, a, b) && FreeOnly(runs, b, c) && PagesAvoid(h, but, runs)
    ensures Kept(h, but, a, c)
  {
    forall q: nat, n: nat, k | Block(h, q, n) && but != Some(q) && q <= k < q + n && k < |a| ensures c[k] == a[k] {
      if FreePage(runs, k / 4096) { NotInPage(h, but, q, n, k); }
    }
  }

  lemma NotInPage(h: Heap, but: Option<nat>, q: nat, n: nat, k: nat)
    requires Block(h, q, n) && but != Some(q) && q <= k < q + n
    ensures !Avoids(h, but, PageAddr(k / 4096), 4096)
  {
    assert PageAddr(k / 4096) <= k < PageAddr(k / 4096) + 4096;
  }

  lemma KeptSelf(h: Heap, but: Option<nat>, a: seq<Byte>)
    ensures Kept(h, but, a, a)
  {}

  // ----- The places the allocator writes to -----

  ghost predicate HeadersClear(h: Heap, but: Option<nat>, zones: map<nat, Zone>) {
    forall s | s in zones :: Avoids(h, but, PageAddr(s), HEADER)
  }

  ghost predicate TableClear(h: Heap, but: Option<nat>, table: nat, total: nat) {
    forall q: nat | q < total :: Avoids(h, but, PageAddr(table) + 4 * q, 4)
  }

  lemma PlacesClear(h: Heap, but: Option<nat>)
    requires Ok(h)
    ensures HeadersClear(h, but, h.zones) && TableClear(h, but, h.table, h.pages.total)
    ensures PagesAvoid(h, but, h.pages.runs)
  {
    hide Ok, Block;
    TableRoom(h);
    forall q: nat, n: nat | Block(h, q, n)
      ensures forall s | s in h.zones :: q + n <= PageAddr(s) || PageAddr(s) + HEADER <= q
      ensures q + n <= PageAddr(h.table) || PageAddr(h.table) + 4 * h.pages.total <= q
      ensures forall x: nat | FreePage(h.pages.runs, x) :: q + n <= PageAddr(x) || PageAddr(x) + 4096 <= q {
      BlocksClear(h, q, n);
      forall x: nat | FreePage(h.pages.runs, x) ensures q + n <= PageAddr(x) || PageAddr(x) + 4096 <= q {
        assert PageAddr(x + 1) == PageAddr(x) + 4096;
      }
    }
  }

  lemma TableRoom(h: Heap)
    requires Ok(h)
    ensures h.table in h.pages.held
    ensures PageAddr(h.table) + 4 * h.pages.total <= PageAddr(h.table + h.pages.held[h.table])
    ensures PageAddr(h.table + h.pages.held[h.table]) <= PageAddr(h.pages.total)
  {}

  // A freed chunk overlaps no other block.
  lemma OwnChunk(h: Heap, a: nat, n: nat)
    requires Ok(h) && Block(h, a, n)
    ensures Avoids(h, Some(a), a, n)
  {
    hide Ok, Block;
    forall q: nat, m: nat | Block(h, q, m) ensures q == a || q + m <= a || a + n <= q {
      if q != a { BlocksApart(h, a, n, q, m); }
    }
  }

  // Allocated and remaining free pages were free before.
  lemma AllocAvoids(h: Heap, but: Option<nat>, runs: seq<Run>, n: nat)
    requires PagesAvoid(h, but, runs) && Ordered(runs)
    ensures PagesAvoid(h, but, Alloc(runs, n).runs)
    ensures n > 0 && Alloc(runs, n).page.Some? ==> Avoids(h, but, PageAddr(Alloc(runs, n).page.value), 4096)
  {
    if n == 0 {
    } else {
      forall x: nat | FreePage(Alloc(runs, n).runs, x) ensures FreePage(runs, x) { AllocPages(runs, n, x); }
      if Alloc(runs, n).page.Some? { AllocRow(runs, n, Alloc(runs, n).page.value); }
    }
  }

  lemma LessAvoids(h: Heap, but: Option<nat>, p: nat, len: nat, less: nat)
    requires Avoids(h, but, p, len) && less <= len
    ensures Avoids(h, but, p, less)
  {}

  // ----- rt_realloc -----

  // With a result p the first bytes of block a are there, and the other blocks keep theirs; without
  // one all keep theirs.
  ghost predicate Preserved(h: Heap, a: nat, n: nat, size: nat, p: Option<nat>, x: seq<Byte>, y: seq<Byte>) {
    && Kept(h, if p.Some? && p != Some(a) then Some(a) else None, x, y)
    && (p.Some? ==> Carried(x, y, a, p.value, Min(n, size)))
  }

  lemma StayPreserved(h: Heap, a: nat, n: nat, size: nat, x: seq<Byte>)
    requires Ok(h) && Block(h, a, n) && |x| == PageAddr(h.pages.total)
    ensures Preserved(h, a, n, size, Some(a), x, x)
  {
    BlocksClear(h, a, n);
  }

  // Allocate p, copy, free a
  lemma MovePreserved(h: Heap, g: Heap, a: nat, n: nat, size: nat, p: nat, m: nat, count: nat,
      x0: seq<Byte>, x1: seq<Byte>, x2: seq<Byte>, x3: seq<Byte>)
    requires Ok(g) && Gains(h, g, p, m) && Block(h, a, n) && count <= n && count <= m && Min(n, size) <= count
    requires Kept(h, None, x0, x1) && OnlyCopied(x1, x2, a, p, count) && Kept(g, Some(a), x2, x3)
    ensures Preserved(h, a, n, size, Some(p), x0, x3)
  {
    hide Ok, Block;
    assert Block(g, p, m) && Block(g, a, n) && a != p;
    forall k | p <= k < p + Min(n, size) ensures x3[k] == x0[k - p + a] {
      assert x3[k] == x2[k] && x2[k] == x1[k - p + a];
      assert x1[k - p + a] == x0[k - p + a];
    }
    forall q: nat, l: nat, k | Block(h, q, l) && q != a && q <= k < q + l && k < |x0| ensures x3[k] == x0[k] {
      assert Block(g, q, l) && q != p;
      BlocksApart(g, q, l, p, m);
      assert x3[k] == x2[k] && x2[k] == x1[k] && x1[k] == x0[k];
    }
  }
}

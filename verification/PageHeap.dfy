// The whole page heap: the free runs of the page allocator and the page blocks it has handed out.
// The source keeps no record of the latter; `held` is what its callers own.
module PageHeap {
  import opened Options
  import opened PageModel

  datatype Pages = Pages(total: nat, runs: seq<Run>, held: map<nat, nat>)

  // Page q belongs to the block handed out at p.
  predicate Within(g: Pages, p: nat, q: nat)
    requires p in g.held
  {
    p <= q < p + g.held[p]
  }

  ghost predicate Apart(g: Pages) {
    forall p, q | p in g.held && q in g.held && p < q :: p + g.held[p] <= q
  }

  ghost predicate InUse(g: Pages) {
    forall p | p in g.held :: g.held[p] > 0 && p + g.held[p] <= g.total && NoneFree(g.runs, p, g.held[p])
  }

  ghost predicate Owned(g: Pages, q: nat) { exists p :: p in g.held && Within(g, p, q) }

  // Every page is free or belongs to a block: none is lost.
  ghost predicate Covered(g: Pages) {
    forall q: nat :: q < g.total <==> FreePage(g.runs, q) || Owned(g, q)
  }

  ghost predicate PagesOk(g: Pages) { Ordered(g.runs) && Apart(g) && InUse(g) && Covered(g) }

  function Grab(g: Pages, n: nat): (Pages, Option<nat>) {
    var r := Alloc(g.runs, n);
    if r.page == None then (g, None) else (Pages(g.total, r.runs, g.held[r.page.value := n]), r.page)
  }

  function Return(g: Pages, p: nat, n: nat): Pages { Pages(g.total, Free(g.runs, p, n), g.held - {p}) }

  lemma GrabSafe(g: Pages, n: nat)
    requires PagesOk(g)
    ensures
      var (e, page) := Grab(g, n);
      && PagesOk(e)
      && (page == None <==> n == 0 || forall p: nat :: !AllFree(g.runs, p, n))
      && (page.Some? ==> page.value !in g.held && page.value + n <= g.total)
  {
    var (e, page) := Grab(g, n);
    if n > 0 {
      AllocExact(g.runs, n);
      if page.Some? {
        var a := page.value;
        assert FreePage(g.runs, a);
        assert FreePage(g.runs, a + n - 1);
        forall p, q | p in g.held && a <= q < a + n ensures !Within(g, p, q) { assert FreePage(g.runs, q); }
        forall p | p in g.held ensures p < a ==> p + g.held[p] <= a {
          assert !Within(g, p, a);
        }
        forall p | p in g.held ensures p < a || a + n <= p {
          assert a <= p < a + n ==> !Within(g, p, p);
        }
        GrabCovers(g, n);
      }
    }
  }

  lemma GrabCovers(g: Pages, n: nat)
    requires PagesOk(g) && n > 0 && Grab(g, n).1.Some? && Grab(g, n).1.value !in g.held
    ensures Covered(Grab(g, n).0)
  {
    var (e, page) := Grab(g, n);
    AllocExact(g.runs, n);
    forall q: nat ensures q < e.total <==> FreePage(e.runs, q) || Owned(e, q) {
      assert page.value <= q < page.value + n <==> Within(e, page.value, q);
      assert page.value <= q < page.value + n ==> FreePage(g.runs, q);
      forall p | p in g.held ensures Within(g, p, q) <==> Within(e, p, q) {}
      assert Owned(e, q) <==> Within(e, page.value, q) || Owned(g, q);
    }
  }

  lemma ReturnSafe(g: Pages, p: nat)
    requires PagesOk(g) && p in g.held
    ensures PagesOk(Return(g, p, g.held[p]))
  {
    var e := Return(g, p, g.held[p]);
    FreeExact(g.runs, p, g.held[p]);
    forall t | t in e.held ensures NoneFree(e.runs, t, e.held[t]) {
      forall q | t <= q < t + e.held[t] ensures !FreePage(e.runs, q) {
        assert !FreePage(g.runs, q);
        assert t < p ==> t + g.held[t] <= p;
      }
    }
    forall q: nat ensures q < e.total <==> FreePage(e.runs, q) || Owned(e, q) {
      if t :| t in g.held && Within(g, t, q) && t != p { assert Within(e, t, q); }
      if t :| t in e.held && Within(e, t, q) { assert Within(g, t, q); }
      assert p <= q < p + g.held[p] ==> Within(g, p, q);
    }
  }

  // Pages that are grabbed and returned leave the heap as it was.
  lemma GrabThenReturn(g: Pages, n: nat)
    requires PagesOk(g) && n > 0 && Grab(g, n).1.Some?
    ensures Return(Grab(g, n).0, Grab(g, n).1.value, n) == g
  {
    GrabSafe(g, n);
    AllocThenFree(g.runs, n);
    assert g.held[Grab(g, n).1.value := n] - {Grab(g, n).1.value} == g.held;
  }

  // The heap right after rt_page_init
  lemma FreshOk(total: nat)
    requires total > 0
    ensures PagesOk(Pages(total, Free([], 0, total), map[]))
  {
    FreeExact([], 0, total);
  }
}

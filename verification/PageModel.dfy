// The page allocator (src/slab.c, rt_page_alloc and rt_page_free) as an ordered list of runs of
// free pages. Pages are numbered from the heap start.
module PageModel {
  import opened Options

  datatype Run = Run(start: nat, count: nat)

  function EndOf(r: Run): nat { r.start + r.count }

  predicate InRun(r: Run, p: nat) { r.start <= p < EndOf(r) }

  // In address order, with at least one used page between two runs
  predicate Ordered(runs: seq<Run>) {
    runs == [] ||
    (runs[0].count > 0 && (|runs| > 1 ==> EndOf(runs[0]) < runs[1].start) && Ordered(runs[1..]))
  }

  predicate FreePage(runs: seq<Run>, p: nat) {
    runs != [] && (InRun(runs[0], p) || FreePage(runs[1..], p))
  }

  // n pages from p on are all free.
  ghost predicate AllFree(runs: seq<Run>, p: nat, n: nat) { forall q :: p <= q < p + n ==> FreePage(runs, q) }

  // n pages from p on are all in use.
  ghost predicate NoneFree(runs: seq<Run>, p: nat, n: nat) { forall q :: p <= q < p + n ==> !FreePage(runs, q) }

  lemma {:induction false} FreeFrom(runs: seq<Run>, p: nat)
    requires Ordered(runs) && FreePage(runs, p)
    ensures runs != [] && p >= runs[0].start && (!InRun(runs[0], p) ==> p > EndOf(runs[0]))
  {
    if !InRun(runs[0], p) { FreeFrom(runs[1..], p); }
  }

  // ----- rt_page_alloc -----

  datatype Result = Result(runs: seq<Run>, page: Option<nat>)

  function Alloc(runs: seq<Run>, n: nat): Result {
    if n == 0 || runs == [] then Result(runs, None)
    else
      var b, rest := runs[0], runs[1..];
      if b.count > n then Result([Run(b.start + n, b.count - n)] + rest, Some(b.start))
      else if b.count == n then Result(rest, Some(b.start))
      else var r := Alloc(rest, n); Result([b] + r.runs, r.page)
  }

  // What is left starts no lower than before.
  lemma {:induction false} AllocKeepsOrder(runs: seq<Run>, n: nat)
    requires Ordered(runs)
    ensures
      var r := Alloc(runs, n).runs;
      Ordered(r) && (r != [] ==> runs != [] && runs[0].start <= r[0].start)
  {
    if runs != [] {
      AllocKeepsOrder(runs[1..], n);
      var e := Alloc(runs, n).runs;
      if n > 0 && runs[0].count > n {
        assert e[1..] == runs[1..];
      } else if n > 0 && runs[0].count < n {
        assert e[1..] == Alloc(runs[1..], n).runs;
      }
    }
  }

  // n free pages in a row lie in one run: between two runs there is a page that is not free.
  lemma {:induction false} RowInHead(runs: seq<Run>, p: nat, n: nat)
    requires Ordered(runs) && runs != [] && n > 0 && AllFree(runs, p, n) && InRun(runs[0], p)
    ensures p + n <= EndOf(runs[0])
  {
    var q := EndOf(runs[0]);
    if q < p + n { FreeFrom(runs, q); }
  }

  // The free pages after a successful call
  lemma {:induction false} AllocPages(runs: seq<Run>, n: nat, q: nat)
    requires Ordered(runs) && n > 0
    ensures
      var e := Alloc(runs, n);
      FreePage(e.runs, q) <==> FreePage(runs, q) && !(e.page.Some? && e.page.value <= q < e.page.value + n)
  {
    if runs != [] {
      var b, rest := runs[0], runs[1..];
      var e := Alloc(runs, n).runs;
      if b.count > n {
        assert e[1..] == rest;
        if FreePage(rest, q) { FreeFrom(runs, q); FreeFrom(rest, q); }
      } else if b.count == n {
        if FreePage(rest, q) { FreeFrom(rest, q); }
      } else {
        assert e[1..] == Alloc(rest, n).runs;
        AllocPages(rest, n, q);
        if Alloc(rest, n).page.Some? { PageFrom(rest, n); }
      }
    }
  }

  lemma {:induction false} PageFrom(runs: seq<Run>, n: nat)
    requires Ordered(runs) && Alloc(runs, n).page.Some?
    ensures runs != [] && Alloc(runs, n).page.value >= runs[0].start
  {
    if runs[0].count < n { PageFrom(runs[1..], n); }
  }

  // NULL means that no n free pages lie in a row, and the pages returned are the lowest such row.
  lemma {:induction false} AllocLowest(runs: seq<Run>, n: nat, p: nat)
    requires Ordered(runs) && n > 0 && AllFree(runs, p, n)
    ensures Alloc(runs, n).page.Some? && Alloc(runs, n).page.value <= p
  {
    assert FreePage(runs, p);
    FreeFrom(runs, p);
    if InRun(runs[0], p) {
      RowInHead(runs, p, n);
    } else if runs[0].count < n {
      forall q | p <= q < p + n ensures FreePage(runs[1..], q) { assert FreePage(runs, q); }
      AllocLowest(runs[1..], n, p);
    }
  }

  lemma {:induction false} AllocRow(runs: seq<Run>, n: nat, q: nat)
    requires Alloc(runs, n).page.Some? && Alloc(runs, n).page.value <= q < Alloc(runs, n).page.value + n
    ensures FreePage(runs, q)
  {
    if runs[0].count < n { AllocRow(runs[1..], n, q); }
  }

  // rt_page_alloc returns NULL exactly if there are no n free pages in a row; otherwise it takes
  // exactly n pages, at the lowest such place, out of the free ones.
  lemma AllocExact(runs: seq<Run>, n: nat)
    requires Ordered(runs) && n > 0
    ensures Ordered(Alloc(runs, n).runs)
    ensures Alloc(runs, n).page == None <==> forall p: nat :: !AllFree(runs, p, n)
    ensures Alloc(runs, n).page.Some? ==>
              var a := Alloc(runs, n).page.value;
              && AllFree(runs, a, n) && (forall p: nat :: AllFree(runs, p, n) ==> a <= p)
              && (forall p: nat :: FreePage(Alloc(runs, n).runs, p) <==> FreePage(runs, p) && !(a <= p < a + n))
  {
    AllocKeepsOrder(runs, n);
    var e := Alloc(runs, n);
    forall p: nat | AllFree(runs, p, n) ensures e.page.Some? && e.page.value <= p { AllocLowest(runs, n, p); }
    if e.page.Some? {
      forall q | e.page.value <= q < e.page.value + n ensures FreePage(runs, q) { AllocRow(runs, n, q); }
      assert AllFree(runs, e.page.value, n);
      forall p: nat ensures FreePage(e.runs, p) <==> FreePage(runs, p) && !(e.page.value <= p < e.page.value + n) {
        AllocPages(runs, n, p);
      }
    }
  }

  // ----- rt_page_free -----

  function Free(runs: seq<Run>, p: nat, n: nat): seq<Run> {
    if runs == [] then [Run(p, n)]
    else
      var b, rest := runs[0], runs[1..];
      if EndOf(b) == p then
        if rest != [] && rest[0].start == p + n then [Run(b.start, b.count + n + rest[0].count)] + rest[1..]
        else [Run(b.start, b.count + n)] + rest
      else if b.start == p + n then [Run(p, n + b.count)] + rest
      else if b.start > p + n then [Run(p, n)] + runs
      else [b] + Free(rest, p, n)
  }

  lemma {:induction false} FreeKeepsOrder(runs: seq<Run>, p: nat, n: nat)
    requires Ordered(runs) && n > 0 && NoneFree(runs, p, n)
    ensures
      var r := Free(runs, p, n);
      Ordered(r) && r != [] && (r[0].start == p || (runs != [] && r[0].start == runs[0].start))
  {
    if runs != [] {
      var b, rest := runs[0], runs[1..];
      var e := Free(runs, p, n);
      assert !FreePage(runs, p);
      HeadIsFree(runs);
      if EndOf(b) == p && rest != [] && rest[0].start == p + n {
        assert e[1..] == rest[1..];
      } else if EndOf(b) == p {
        assert e[1..] == rest;
        if rest != [] { HeadIsFree(rest); assert FreePage(runs, rest[0].start); }
      } else if b.start == p + n {
        assert e[1..] == rest;
      } else if b.start > p + n {
        assert e[1..] == runs;
      } else {
        assert e[1..] == Free(rest, p, n);
        forall q | p <= q < p + n ensures !FreePage(rest, q) { assert !FreePage(runs, q); }
        FreeKeepsOrder(rest, p, n);
      }
    }
  }

  lemma HeadIsFree(runs: seq<Run>)
    requires Ordered(runs) && runs != []
    ensures FreePage(runs, runs[0].start)
  {
    assert InRun(runs[0], runs[0].start);
  }

  // The free pages after the call
  lemma {:induction false} FreePages(runs: seq<Run>, p: nat, n: nat, q: nat)
    requires n > 0
    ensures FreePage(Free(runs, p, n), q) <==> FreePage(runs, q) || p <= q < p + n
  {
    var e := Free(runs, p, n);
    if runs == [] {
      assert e[1..] == [];
    } else {
      var b, rest := runs[0], runs[1..];
      if EndOf(b) == p && rest != [] && rest[0].start == p + n {
        assert e[1..] == rest[1..];
      } else if EndOf(b) == p || b.start == p + n {
        assert e[1..] == rest;
      } else if b.start > p + n {
        assert e[1..] == runs;
      } else {
        assert e[1..] == Free(rest, p, n);
        FreePages(rest, p, n, q);
      }
    }
  }

  // rt_page_free adds exactly the n pages and leaves the list in order and coalesced: two runs
  // never touch.
  lemma FreeExact(runs: seq<Run>, p: nat, n: nat)
    requires Ordered(runs) && n > 0 && NoneFree(runs, p, n)
    ensures Ordered(Free(runs, p, n))
    ensures forall q: nat :: FreePage(Free(runs, p, n), q) <==> FreePage(runs, q) || p <= q < p + n
  {
    FreeKeepsOrder(runs, p, n);
    forall q: nat ensures FreePage(Free(runs, p, n), q) <==> FreePage(runs, q) || p <= q < p + n {
      FreePages(runs, p, n, q);
    }
  }

  // ----- The list is determined by the set of free pages -----

  lemma {:induction false} SamePages(a: seq<Run>, b: seq<Run>)
    requires Ordered(a) && Ordered(b) && forall p: nat :: FreePage(a, p) <==> FreePage(b, p)
    ensures a == b
  {
    if a != [] && b != [] {
      HeadIsFree(a);
      HeadIsFree(b);
      FreeFrom(b, a[0].start);
      FreeFrom(a, b[0].start);
      HeadEnds(a, b);
      HeadEnds(b, a);
      forall p: nat ensures FreePage(a[1..], p) <==> FreePage(b[1..], p) {
        assert FreePage(a, p) <==> FreePage(b, p);
        if FreePage(a[1..], p) { FreeFrom(a[1..], p); }
        if FreePage(b[1..], p) { FreeFrom(b[1..], p); }
      }
      SamePages(a[1..], b[1..]);
      assert a == [a[0]] + a[1..] && b == [b[0]] + b[1..];
    } else if a != [] {
      HeadIsFree(a);
    } else if b != [] {
      HeadIsFree(b);
    }
  }

  lemma HeadEnds(a: seq<Run>, b: seq<Run>)
    requires Ordered(a) && Ordered(b) && a != [] && b != [] && a[0].start == b[0].start
    requires forall p: nat :: FreePage(a, p) ==> FreePage(b, p)
    ensures EndOf(a[0]) <= EndOf(b[0])
  {
    if EndOf(b[0]) < EndOf(a[0]) {
      assert FreePage(a, EndOf(b[0]));
      FreeFrom(b, EndOf(b[0]));
    }
  }

  // Freeing what was just allocated restores the list, run for run.
  lemma AllocThenFree(runs: seq<Run>, n: nat)
    requires Ordered(runs) && n > 0 && Alloc(runs, n).page.Some?
    ensures Free(Alloc(runs, n).runs, Alloc(runs, n).page.value, n) == runs
  {
    AllocExact(runs, n);
    var e := Alloc(runs, n);
    FreeExact(e.runs, e.page.value, n);
    forall p: nat ensures FreePage(Free(e.runs, e.page.value, n), p) <==> FreePage(runs, p) {
      if e.page.value <= p < e.page.value + n { AllocRow(runs, n, p); }
    }
    SamePages(Free(e.runs, e.page.value, n), runs);
  }
}

// rt_page_alloc and rt_page_free as they run, on headers linked through the free pages
// themselves: the first page of a run holds the run's length and the next run's address.
module PageLinks {
  import opened Options
  import opened Bytes
  import opened PageModel

  type Links = map<nat, Option<nat>>

  type Counts = map<nat, nat>

  // The address of run i, or NULL behind the last one
  function At(runs: seq<Run>, i: nat): Option<nat> { if i < |runs| then Some(runs[i].start) else None }

  // The header that holds the link to run k; NULL stands for the list head.
  function Before(runs: seq<Run>, k: nat): Option<nat> { if 0 < k <= |runs| then Some(runs[k - 1].start) else None }

  ghost predicate HeaderAt(runs: seq<Run>, i: nat, next: Links, count: Counts)
    requires i < |runs|
  {
    var p := runs[i].start;
    p in next && p in count && next[p] == At(runs, i + 1) && count[p] == runs[i].count
  }

  ghost predicate Linked(head: Option<nat>, runs: seq<Run>, next: Links, count: Counts) {
    head == At(runs, 0) && forall i :: 0 <= i < |runs| ==> HeaderAt(runs, i, next, count)
  }

  // ----- Replacing the runs `cut` between `done` and `tail` by at most one run -----

  function HeadAfter(head: Option<nat>, done: seq<Run>, put: seq<Run>, tail: seq<Run>): Option<nat> {
    if done == [] then At(put + tail, 0) else head
  }

  function NextAfter(next: Links, done: seq<Run>, put: seq<Run>, tail: seq<Run>): Links {
    var n1 := if put == [] then next else next[put[0].start := At(tail, 0)];
    if done == [] then n1 else n1[done[|done| - 1].start := At(put + tail, 0)]
  }

  function CountAfter(count: Counts, put: seq<Run>): Counts {
    if put == [] then count else count[put[0].start := put[0].count]
  }

  lemma Spread(runs: seq<Run>)
    requires Ordered(runs)
    ensures Rising(runs)
  {
    forall i, j | 0 <= i < j < |runs| ensures runs[i].start < runs[j].start { SpreadAt(runs, i, j); }
  }

  lemma {:induction false} SpreadAt(runs: seq<Run>, i: nat, j: nat)
    requires Ordered(runs) && i < j < |runs|
    ensures runs[i].start < runs[j].start
  {
    if i > 0 {
      SpreadAt(runs[1..], i - 1, j - 1);
    } else if j > 1 {
      SpreadAt(runs[1..], 0, j - 1);
    }
  }

  ghost predicate Rising(runs: seq<Run>) {
    forall i, j :: 0 <= i < j < |runs| ==> runs[i].start < runs[j].start
  }

  lemma Splice(head: Option<nat>, next: Links, count: Counts,
      done: seq<Run>, cut: seq<Run>, put: seq<Run>, tail: seq<Run>)
    requires Linked(head, done + cut + tail, next, count) && |put| <= 1
    requires Ordered(done + put + tail)
    ensures Linked(HeadAfter(head, done, put, tail), done + put + tail,
                   NextAfter(next, done, put, tail), CountAfter(count, put))
  {
    var now := done + put + tail;
    Spread(now);
    hide Ordered, HeaderAt, NextAfter, CountAfter;
    forall i | 0 <= i < |now| ensures HeaderAt(now, i, NextAfter(next, done, put, tail), CountAfter(count, put)) {
      SpliceAt(next, count, done, cut, put, tail, i);
    }
  }

  lemma SpliceAt(next: Links, count: Counts,
      done: seq<Run>, cut: seq<Run>, put: seq<Run>, tail: seq<Run>, i: nat)
    requires forall j :: 0 <= j < |done + cut + tail| ==> HeaderAt(done + cut + tail, j, next, count)
    requires Rising(done + put + tail) && i < |done + put + tail| && |put| <= 1
    ensures HeaderAt(done + put + tail, i, NextAfter(next, done, put, tail), CountAfter(count, put))
  {
    var was, now, d := done + cut + tail, done + put + tail, |done|;
    var j: int := if i < d then i else i - |put| + |cut|;
    assert 0 <= j < |was| ==> HeaderAt(was, j, next, count);
    assert d > 0 ==> now[d - 1] == done[d - 1];
    assert |put| > 0 ==> now[d] == put[0];
    if i < d {
      assert now[i] == was[i] == done[i];
      assert At(now, d) == At(put + tail, 0);
      assert i + 1 < d ==> At(now, i + 1) == At(was, i + 1);
    } else if i < d + |put| {
      assert At(now, i + 1) == At(tail, 0);
    } else {
      assert now[i] == was[j] && At(now, i + 1) == At(was, j + 1);
    }
  }

  lemma Rejoin(a: seq<Run>, b: seq<Run>, c: seq<Run>)
    ensures a + (b + c) == a + b + c
  {}

  // ----- The runs the search passes -----

  lemma {:induction false} AllocPast(done: seq<Run>, rest: seq<Run>, n: nat)
    requires forall r | r in done :: r.count < n
    ensures Alloc(done + rest, n) == Result(done + Alloc(rest, n).runs, Alloc(rest, n).page)
  {
    if done == [] {
      assert done + rest == rest;
      assert done + Alloc(rest, n).runs == Alloc(rest, n).runs;
    } else {
      assert (done + rest)[1..] == done[1..] + rest;
      AllocPast(done[1..], rest, n);
      assert done[0] in done;
      assert [done[0]] + (done[1..] + Alloc(rest, n).runs) == done + Alloc(rest, n).runs;
    }
  }

  lemma AllocPlan(runs: seq<Run>, k: nat, n: nat) returns (put: seq<Run>, tail: seq<Run>)
    requires k < |runs| && n > 0 && runs[k].count >= n && forall r | r in runs[..k] :: r.count < n
    ensures put == if runs[k].count > n then [Run(runs[k].start + n, runs[k].count - n)] else []
    ensures tail == runs[k + 1..] && runs == runs[..k] + [runs[k]] + tail
    ensures Alloc(runs, n) == Result(runs[..k] + put + tail, Some(runs[k].start))
    ensures At(tail, 0) == At(runs, k + 1)
  {
    put := if runs[k].count > n then [Run(runs[k].start + n, runs[k].count - n)] else [];
    tail := runs[k + 1..];
    var done, rest := runs[..k], runs[k..];
    AllocPast(done, rest, n);
    assert Alloc(rest, n) == Result(put + tail, Some(runs[k].start)) by {
      assert rest[0] == runs[k] && rest[1..] == tail;
      assert [] + tail == tail;
    }
    hide *;
    assert runs == done + rest;
    assert rest == [runs[k]] + tail;
    Rejoin(done, [runs[k]], tail);
    Rejoin(done, put, tail);
  }

  predicate Passed(r: Run, p: nat, n: nat) { EndOf(r) != p && r.start < p + n }

  lemma {:induction false} FreePast(done: seq<Run>, rest: seq<Run>, p: nat, n: nat)
    requires forall r | r in done :: Passed(r, p, n)
    ensures Free(done + rest, p, n) == done + Free(rest, p, n)
  {
    if done == [] {
      assert done + rest == rest;
    } else {
      assert (done + rest)[1..] == done[1..] + rest;
      FreePast(done[1..], rest, p, n);
      assert done[0] in done;
      assert [done[0]] + (done[1..] + Free(rest, p, n)) == done + Free(rest, p, n);
    }
  }

  // The headers written are those of runs that are free afterwards.
  lemma {:induction false} StartsFree(runs: seq<Run>, i: nat)
    requires Ordered(runs) && i < |runs|
    ensures FreePage(runs, runs[i].start)
  {
    if i > 0 { StartsFree(runs[1..], i - 1); }
  }

  lemma SpliceFree(runs: seq<Run>, k: nat, put: seq<Run>, tail: seq<Run>, after: seq<Run>)
    requires k <= |runs| && after == runs[..k] + put + tail && Ordered(after)
    ensures Before(runs, k).Some? ==> FreePage(after, Before(runs, k).value)
    ensures put != [] ==> FreePage(after, put[0].start)
  {
    if k > 0 {
      assert after[k - 1] == runs[k - 1];
      StartsFree(after, k - 1);
    }
    if put != [] {
      assert after[k] == put[0];
      StartsFree(after, k);
    }
  }

  lemma AllocBacked(runs: seq<Run>, n: nat, size: nat)
    requires Ordered(runs) && n > 0 && Backed(runs, size)
    ensures Backed(Alloc(runs, n).runs, size)
  {
    forall q: nat | FreePage(Alloc(runs, n).runs, q) ensures 4096 * q + 4096 <= size { AllocPages(runs, n, q); }
  }

  lemma FreeBacked(runs: seq<Run>, p: nat, n: nat, size: nat)
    requires n > 0 && Backed(runs, size) && 4096 * (p + n) <= size
    ensures Backed(Free(runs, p, n), size)
  {
    forall q: nat | FreePage(Free(runs, p, n), q) ensures 4096 * q + 4096 <= size { FreePages(runs, p, n, q); }
  }

  // The runs rt_page_free replaces, once the search has stopped at run k
  lemma FreePlan(runs: seq<Run>, k: nat, p: nat, n: nat) returns (cut: seq<Run>, put: seq<Run>, tail: seq<Run>)
    requires k <= |runs| && (k < |runs| ==> !Passed(runs[k], p, n)) && forall r | r in runs[..k] :: Passed(r, p, n)
    ensures runs == runs[..k] + cut + tail && Free(runs, p, n) == runs[..k] + put + tail
    ensures
      if k < |runs| && EndOf(runs[k]) == p then
        var b := runs[k];
        if At(runs, k + 1) == Some(p + n) then
          put == [Run(b.start, b.count + n + runs[k + 1].count)] && At(tail, 0) == At(runs, k + 2)
        else put == [Run(b.start, b.count + n)] && At(tail, 0) == At(runs, k + 1)
      else if At(runs, k) == Some(p + n) then put == [Run(p, n + runs[k].count)] && At(tail, 0) == At(runs, k + 1)
      else put == [Run(p, n)] && At(tail, 0) == At(runs, k)
  {
    var rest := runs[k..];
    assert runs == runs[..k] + rest;
    FreePast(runs[..k], rest, p, n);
    var grow := k < |runs| && EndOf(runs[k]) == p;
    var size: nat := if grow && At(runs, k + 1) == Some(p + n) then 2
                     else if grow || At(runs, k) == Some(p + n) then 1 else 0;
    cut, tail := rest[..size], rest[size..];
    put := [Free(rest, p, n)[0]];
    assert Free(rest, p, n) == put + tail;
    hide *;
    assert rest == cut + tail;
    Rejoin(runs[..k], cut, tail);
    Rejoin(runs[..k], put, tail);
  }

  // Every free page lies in the memory.
  ghost predicate Backed(runs: seq<Run>, size: nat) { forall q: nat :: FreePage(runs, q) ==> 4096 * q + 4096 <= size }

  // Memory has changed in free pages only.
  ghost predicate FreeOnly(runs: seq<Run>, a: seq<Byte>, b: seq<Byte>) {
    |a| == |b| && forall k {:trigger b[k]} :: 0 <= k < |a| && !FreePage(runs, k / 4096) ==> b[k] == a[k]
  }

  lemma InPage(p: nat, k: nat)
    requires 4096 * p <= k < 4096 * p + 4096
    ensures k / 4096 == p
  {}

  lemma FreeWrite(runs: seq<Run>, a: seq<Byte>, b: seq<Byte>, p: nat, off: nat, data: seq<Byte>)
    requires FreeOnly(runs, a, b) && FreePage(runs, p) && off + |data| <= 4096 && 4096 * p + 4096 <= |b|
    ensures FreeOnly(runs, a, Written(b, 4096 * p + off, data))
  {
    var c := Written(b, 4096 * p + off, data);
    forall k | 0 <= k < |a| && !FreePage(runs, k / 4096) ensures c[k] == a[k] {
      if 4096 * p <= k < 4096 * p + 4096 { InPage(p, k); }
    }
  }

  function Address(to: Option<nat>): nat { if to.Some? then 4096 * to.value else 0 }

  lemma NoPages(runs: seq<Run>)
    ensures Alloc(runs, 0) == Result(runs, None)
  {}

  lemma NoneFits(runs: seq<Run>, k: nat, n: nat)
    requires k >= |runs| && n > 0 && forall r | r in runs :: r.count < n
    ensures Alloc(runs, n) == Result(runs, None)
  {
    AllocPast(runs, [], n);
    assert runs + [] == runs;
  }

  // What the writes of rt_page_alloc rely on, once the search has stopped at run k
  lemma AllocReady(head: Option<nat>, next: Links, count: Counts, runs: seq<Run>, k: nat, n: nat, size: nat)
    returns (put: seq<Run>, tail: seq<Run>)
    requires Ordered(runs) && Linked(head, runs, next, count) && Backed(runs, size)
    requires k < |runs| && n > 0 && runs[k].count >= n && forall r | r in runs[..k] :: r.count < n
    ensures
      var b, after := runs[k].start, Alloc(runs, n).runs;
      && Alloc(runs, n) == Result(after, Some(b)) && Ordered(after) && Backed(after, size)
      && put == (if runs[k].count > n then [Run(b + n, runs[k].count - n)] else []) && |put| <= 1
      && Linked(HeadAfter(head, runs[..k], put, tail), after, NextAfter(next, runs[..k], put, tail),
             CountAfter(count, put))
      && b in count && b in next && count[b] == runs[k].count && next[b] == At(tail, 0)
      && (Before(runs, k).Some? ==> FreePage(after, Before(runs, k).value))
      && (put != [] ==> FreePage(after, put[0].start))
  {
    AllocKeepsOrder(runs, n);
    put, tail := AllocPlan(runs, k, n);
    assert HeaderAt(runs, k, next, count);
    hide Linked, HeaderAt, Alloc, Backed, FreePage, HeadAfter, NextAfter, CountAfter;
    Splice(head, next, count, runs[..k], [runs[k]], put, tail);
    AllocBacked(runs, n, size);
    SpliceFree(runs, k, put, tail, Alloc(runs, n).runs);
  }

  lemma LastApart(runs: seq<Run>, k: nat)
    requires Ordered(runs) && 0 < k <= |runs|
    ensures k < |runs| ==> runs[k - 1].start != runs[k].start
  {
    Spread(runs);
  }

  // Run k in front takes the pages in.
  ghost predicate GrowReady(head: Option<nat>, next: Links, count: Counts, runs: seq<Run>, k: nat, n: nat,
      put: seq<Run>, tail: seq<Run>)
    requires k < |runs|
  {
    var b, done := runs[k].start, runs[..k];
    && b in next && b in count
    && (var e := b + count[b] + n;
        if next[b] == Some(e) then
          e in next && e in count && next[e] == At(tail, 0) && put == [Run(b, count[b] + n + count[e])]
        else next[b] == At(tail, 0) && put == [Run(b, count[b] + n)])
    && (if done == [] then head == Some(b)
        else var q := done[|done| - 1].start; q in next && next[q] == Some(b) && q != b)
  }

  // A new run goes in front of `page`.
  ghost predicate InsertReady(next: Links, count: Counts, page: Option<nat>, p: nat, n: nat, put: seq<Run>,
      tail: seq<Run>) {
    && (if page == Some(p + n) then p + n in next && p + n in count && next[p + n] == At(tail, 0)
        else page == At(tail, 0))
    && put == [Run(p, if page == Some(p + n) then count[p + n] + n else n)]
  }

  lemma GrowMeans(head: Option<nat>, next: Links, count: Counts, runs: seq<Run>, k: nat, p: nat, n: nat,
      put: seq<Run>, tail: seq<Run>)
    requires Ordered(runs) && Linked(head, runs, next, count) && k < |runs| && EndOf(runs[k]) == p
    requires
      var b := runs[k];
      if At(runs, k + 1) == Some(p + n) then
        put == [Run(b.start, b.count + n + runs[k + 1].count)] && At(tail, 0) == At(runs, k + 2)
      else put == [Run(b.start, b.count + n)] && At(tail, 0) == At(runs, k + 1)
    ensures GrowReady(head, next, count, runs, k, n, put, tail)
    ensures runs[k].start in count && runs[k].start in next && count[runs[k].start] == runs[k].count
  {
    hide Ordered;
    assert HeaderAt(runs, k, next, count);
    assert k + 1 < |runs| ==> HeaderAt(runs, k + 1, next, count);
    assert k > 0 ==> HeaderAt(runs, k - 1, next, count);
    if k > 0 { LastApart(runs, k); }
  }

  lemma InsertMeans(head: Option<nat>, next: Links, count: Counts, runs: seq<Run>, k: nat, p: nat, n: nat,
      put: seq<Run>, tail: seq<Run>)
    requires Linked(head, runs, next, count) && k <= |runs|
    requires
      if At(runs, k) == Some(p + n) then put == [Run(p, n + runs[k].count)] && At(tail, 0) == At(runs, k + 1)
      else put == [Run(p, n)] && At(tail, 0) == At(runs, k)
    ensures InsertReady(next, count, At(runs, k), p, n, put, tail)
    ensures k < |runs| ==> runs[k].start in count && runs[k].start in next && count[runs[k].start] == runs[k].count
  {
    assert k < |runs| ==> HeaderAt(runs, k, next, count);
  }

  // What the writes of rt_page_free rely on, once the search has stopped at run k
  lemma FreeReady(head: Option<nat>, next: Links, count: Counts, runs: seq<Run>, k: nat, p: nat, n: nat, size: nat)
    returns (put: seq<Run>, tail: seq<Run>)
    requires Ordered(runs) && Linked(head, runs, next, count) && Backed(runs, size)
    requires n > 0 && NoneFree(runs, p, n) && 4096 * (p + n) <= size
    requires k <= |runs| && (k < |runs| ==> !Passed(runs[k], p, n)) && forall r | r in runs[..k] :: Passed(r, p, n)
    ensures
      var done, after := runs[..k], Free(runs, p, n);
      && Ordered(after) && Backed(after, size) && |put| == 1 && FreePage(after, put[0].start)
      && Linked(HeadAfter(head, done, put, tail), after, NextAfter(next, done, put, tail), CountAfter(count, put))
      && (Before(runs, k).Some? ==> FreePage(after, Before(runs, k).value))
    ensures
      if k < |runs| && EndOf(runs[k]) == p then GrowReady(head, next, count, runs, k, n, put, tail)
      else InsertReady(next, count, At(runs, k), p, n, put, tail)
    ensures k < |runs| ==> runs[k].start in count && runs[k].start in next && count[runs[k].start] == runs[k].count
  {
    hide Linked, Free, Backed, FreePage, HeadAfter, NextAfter, CountAfter, Ordered, GrowReady, InsertReady, Passed,
      NoneFree;
    FreeKeepsOrder(runs, p, n);
    var cut;
    cut, put, tail := FreePlan(runs, k, p, n);
    if k < |runs| && EndOf(runs[k]) == p {
      GrowMeans(head, next, count, runs, k, p, n, put, tail);
    } else {
      InsertMeans(head, next, count, runs, k, p, n, put, tail);
    }
    Splice(head, next, count, runs[..k], cut, put, tail);
    FreeBacked(runs, p, n, size);
    SpliceFree(runs, k, put, tail, Free(runs, p, n));
  }

  class PageList {
    const mem: Memory
    var head: Option<nat>
    var next: Links
    var count: Counts
    ghost var runs: seq<Run>
    // During an operation: the runs it ends with, and the memory it began with
    ghost var goal: seq<Run>
    ghost var before: seq<Byte>

    ghost predicate Valid()
      reads this, mem
    {
      Ordered(runs) && Linked(head, runs, next, count) && Backed(runs, |mem.bytes|)
    }

    constructor (mem: Memory)
      ensures Valid() && runs == [] && this.mem == mem
    {
      this.mem := mem;
      head, next, count, runs, goal, before := None, map[], map[], [], [], [];
    }

    ghost predicate Guarded()
      reads this`goal, this`before, mem
    {
      Backed(goal, |mem.bytes|) && FreeOnly(goal, before, mem.bytes)
    }

    // b->next = to
    method SetNext(p: nat, to: Option<nat>)
      requires Guarded() && FreePage(goal, p)
      modifies `next, mem
      ensures Guarded() && next == old(next)[p := to]
    {
      FreeWrite(goal, before, mem.bytes, p, 0, Little(Address(to), 4));
      mem.Write(4096 * p, Little(Address(to), 4));
      next := next[p := to];
    }

    // b->page = n
    method SetCount(p: nat, n: nat)
      requires Guarded() && FreePage(goal, p)
      modifies `count, mem
      ensures Guarded() && count == old(count)[p := n]
    {
      FreeWrite(goal, before, mem.bytes, p, 4, Little(n, 4));
      mem.Write(4096 * p + 4, Little(n, 4));
      count := count[p := n];
    }

    // *prev = to
    method SetLink(prev: Option<nat>, to: Option<nat>)
      requires Guarded() && (prev.Some? ==> FreePage(goal, prev.value))
      modifies `head, `next, mem
      ensures Guarded()
      ensures prev == None ==> head == to && next == old(next)
      ensures prev.Some? ==> head == old(head) && next == old(next)[prev.value := to]
    {
      if prev == None { head := to; } else { SetNext(prev.value, to); }
    }

    // The first run that has enough pages, and the link that leads to it
    method SearchFit(n: nat) returns (prev: Option<nat>, page: Option<nat>, ghost k: nat)
      requires Valid()
      ensures k <= |runs| && prev == Before(runs, k) && page == At(runs, k)
      ensures k < |runs| ==> runs[k].count >= n
      ensures forall r | r in runs[..k] :: r.count < n
    {
      prev, page, k := None, head, 0;
      while page.Some? && count[page.value] < n
        invariant k <= |runs| && prev == Before(runs, k) && page == At(runs, k)
        invariant forall r | r in runs[..k] :: r.count < n
        invariant k < |runs| ==> HeaderAt(runs, k, next, count)
        decreases |runs| - k
      {
        prev, page, k := page, next[page.value], k + 1;
      }
    }

    method PageAlloc(n: nat) returns (page: Option<nat>)
      requires Valid()
      modifies this, mem
      ensures Valid()
      ensures Result(runs, page) == Alloc(old(runs), n)
      ensures FreeOnly(runs, old(mem.bytes), mem.bytes)
    {
      hide Linked, Ordered, Alloc, FreePage, Backed, HeadAfter, NextAfter, CountAfter;
      if n == 0 {
        NoPages(runs);
        return None;
      }
      ghost var k: nat;
      var prev;
      prev, page, k := SearchFit(n);
      if page == None {
        NoneFits(runs, k, n);
        return;
      }
      goal, before := Alloc(runs, n).runs, mem.bytes;
      ghost var put, tail := AllocReady(head, next, count, runs, k, n, |mem.bytes|);
      TakeRun(prev, page.value, n, runs[..k], put, tail);
      runs := goal;
    }

    method TakeRun(prev: Option<nat>, b: nat, n: nat, ghost done: seq<Run>, ghost put: seq<Run>, ghost tail: seq<Run>)
      requires b in count && b in next && count[b] >= n && prev == Before(done, |done|) && next[b] == At(tail, 0)
      requires put == if count[b] > n then [Run(b + n, count[b] - n)] else []
      requires Guarded() && (prev.Some? ==> FreePage(goal, prev.value)) && (put != [] ==> FreePage(goal, put[0].start))
      modifies `head, `next, `count, mem
      ensures Guarded() && head == HeadAfter(old(head), done, put, tail) && count == CountAfter(old(count), put)
      ensures next == NextAfter(old(next), done, put, tail)
    {
      if count[b] > n {
        SetCount(b + n, count[b] - n);
        SetNext(b + n, next[b]);
        SetLink(prev, Some(b + n));
      } else {
        SetLink(prev, next[b]);
      }
    }

    // The first run that touches the freed pages or lies behind them
    method SearchPlace(p: nat, n: nat) returns (prev: Option<nat>, page: Option<nat>, ghost k: nat)
      requires Valid()
      ensures k <= |runs| && prev == Before(runs, k) && page == At(runs, k)
      ensures k < |runs| ==> !Passed(runs[k], p, n)
      ensures forall r | r in runs[..k] :: Passed(r, p, n)
    {
      prev, page, k := None, head, 0;
      while page.Some? && page.value + count[page.value] != p && page.value < p + n
        invariant k <= |runs| && prev == Before(runs, k) && page == At(runs, k)
        invariant forall r | r in runs[..k] :: Passed(r, p, n)
        invariant k < |runs| ==> HeaderAt(runs, k, next, count)
        decreases |runs| - k
      {
        prev, page, k := page, next[page.value], k + 1;
      }
    }

    method PageFree(p: nat, n: nat)
      requires Valid() && n > 0 && NoneFree(runs, p, n) && 4096 * (p + n) <= |mem.bytes|
      modifies this, mem
      ensures Valid()
      ensures runs == Free(old(runs), p, n)
      ensures FreeOnly(runs, old(mem.bytes), mem.bytes)
    {
      hide Linked, Ordered, Free, FreePage, Backed, HeadAfter, NextAfter, CountAfter, NoneFree;
      ghost var k: nat;
      var prev, page;
      prev, page, k := SearchPlace(p, n);
      ghost var done := runs[..k];
      goal, before := Free(runs, p, n), mem.bytes;
      ghost var put, tail := FreeReady(head, next, count, runs, k, p, n, |mem.bytes|);
      if page.Some? && page.value + count[page.value] == p {
        Grow(page.value, n, done, put, tail);
      } else {
        Insert(page, p, n, prev, done, put, tail);
      }
      runs := goal;
    }

    // Run b in front takes the pages in, and the run behind with them if it now touches.
    method Grow(b: nat, n: nat, ghost done: seq<Run>, ghost put: seq<Run>, ghost tail: seq<Run>)
      requires b in next && b in count && n > 0
      requires var e := b + count[b] + n;
        if next[b] == Some(e) then
          e in next && e in count && next[e] == At(tail, 0) && put == [Run(b, count[b] + n + count[e])]
        else next[b] == At(tail, 0) && put == [Run(b, count[b] + n)]
      requires if done == [] then head == Some(b)
               else var q := done[|done| - 1].start; q in next && next[q] == Some(b) && q != b
      requires Guarded() && FreePage(goal, b)
      modifies `next, `count, mem
      ensures Guarded() && head == HeadAfter(head, done, put, tail) && count == CountAfter(old(count), put)
      ensures next == NextAfter(old(next), done, put, tail)
    {
      SetCount(b, count[b] + n);
      if next[b] == Some(b + count[b]) {
        var x := next[b].value;
        SetCount(b, count[b] + count[x]);
        SetNext(b, next[x]);
      }
    }

    // A new run in front of `page`, which it takes in if they touch
    method Insert(page: Option<nat>, p: nat, n: nat, prev: Option<nat>,
        ghost done: seq<Run>, ghost put: seq<Run>, ghost tail: seq<Run>)
      requires prev == Before(done, |done|)
      requires if page == Some(p + n) then p + n in next && p + n in count && next[p + n] == At(tail, 0)
               else page == At(tail, 0)
      requires put == [Run(p, if page == Some(p + n) then count[p + n] + n else n)]
      requires Guarded() && FreePage(goal, p) && (prev.Some? ==> FreePage(goal, prev.value))
      modifies `head, `next, `count, mem
      ensures Guarded() && head == HeadAfter(old(head), done, put, tail) && count == CountAfter(old(count), put)
      ensures next == NextAfter(old(next), done, put, tail)
    {
      if page == Some(p + n) {
        SetCount(p, count[p + n] + n);
        SetNext(p, next[p + n]);
      } else {
        SetCount(p, n);
        SetNext(p, page);
      }
      SetLink(prev, Some(p));
    }
  }
}

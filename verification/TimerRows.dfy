// The timer list as the source keeps it: a skip list of several rows over 32-bit wrapping ticks.
module TimerRows {
  import opened Lists
  import opened TimerQueue

  const RANGE: nat := 0x1_0000_0000

  // A tick in 32 bits
  function Wrap(x: nat): (r: nat)
    ensures r < RANGE
  {
    x % RANGE
  }

  // Subtraction of 32-bit ticks
  function Diff(a: nat, b: nat): (d: nat)
    requires a < RANGE && b < RANGE
    ensures d < RANGE
  {
    if a >= b then a - b else a + RANGE - b
  }

  lemma {:induction false} ModUnique(x: int, q: int, r: nat)
    requires x == q * RANGE + r && r < RANGE
    ensures x % RANGE == r
  {
    assert x / RANGE == q;
  }

  // Comparing wrapped ticks decides the order of the exact times while these are less than half
  // the range apart.
  lemma DiffOrders(x: nat, n: nat)
    requires x < n + HALF && n <= x + HALF
    ensures Diff(Wrap(x), Wrap(n)) == 0 <==> x == n
    ensures Diff(Wrap(x), Wrap(n)) < HALF <==> x >= n
  {
    var q, r := n / RANGE, n % RANGE;
    var y := r + (x - n);
    assert x == q * RANGE + y;
    if y >= RANGE {
      ModUnique(x, q + 1, y - RANGE);
    } else if y >= 0 {
      ModUnique(x, q, y);
    } else {
      ModUnique(x, q - 1, y + RANGE);
    }
  }

  // Beyond that a later deadline is taken for an earlier one.
  lemma FarApart(x: nat, n: nat)
    requires n + HALF < x <= n + 2 * HALF
    ensures Diff(Wrap(x), Wrap(n)) >= HALF
  {
    var q, r := n / RANGE, n % RANGE;
    var y := r + (x - n);
    assert x == q * RANGE + y;
    if y >= RANGE { ModUnique(x, q + 1, y - RANGE); } else { ModUnique(x, q, y); }
  }

  lemma WrapAdd(x: nat, d: nat)
    ensures Wrap(Wrap(x) + d) == Wrap(x + d)
  {
    var y := x % RANGE + d;
    assert x + d == (x / RANGE) * RANGE + y;
    ModUnique(x + d, x / RANGE + y / RANGE, y % RANGE);
  }

  // Each row is a sublist of every row below it.
  predicate Sublist(a: seq<Id>, b: seq<Id>) {
    a == [] || (b != [] && if a[0] == b[0] then Sublist(a[1..], b[1..]) else Sublist(a, b[1..]))
  }

  ghost predicate Within(a: seq<Id>, b: seq<Id>) { forall x :: x in a ==> x in b }

  lemma OrderedTail(q: seq<Id>, due: map<Id, nat>, stamp: map<Id, nat>)
    requires Ordered(q, due, stamp) && q != []
    ensures Ordered(q[1..], due, stamp) && q[0] !in q[1..]
    ensures forall x :: x in q[1..] ==> Before(due, stamp, q[0], x)
  {
    forall i, j | 0 <= i < j < |q[1..]| ensures Before(due, stamp, q[1..][i], q[1..][j]) {
      assert Before(due, stamp, q[i + 1], q[j + 1]);
    }
    forall x | x in q[1..] ensures Before(due, stamp, q[0], x) {
      var i :| 0 <= i < |q[1..]| && q[1..][i] == x;
      assert Before(due, stamp, q[0], q[i + 1]);
    }
  }

  lemma {:induction false} WithinIsSublist(a: seq<Id>, b: seq<Id>, due: map<Id, nat>, stamp: map<Id, nat>)
    requires Ordered(a, due, stamp) && Ordered(b, due, stamp) && Within(a, b)
    ensures Sublist(a, b)
    decreases |b|
  {
    if a != [] {
      OrderedTail(a, due, stamp);
      assert a[0] in b;
      OrderedTail(b, due, stamp);
      assert forall x :: x in b ==> x == b[0] || x in b[1..];
      if a[0] == b[0] {
        WithinIsSublist(a[1..], b[1..], due, stamp);
      } else {
        assert a[0] in b[1..] && b[0] !in a[1..];
        WithinIsSublist(a, b[1..], due, stamp);
      }
    }
  }

  function IndexOf(q: seq<Id>, x: Id): (k: nat)
    requires x in q
    ensures k < |q| && q[k] == x
  {
    if q[0] == x then 0 else 1 + IndexOf(q[1..], x)
  }

  // Following the column of the last timer passed leads to a timer that is due no later.
  lemma Descend(row: seq<Id>, below: seq<Id>, due: map<Id, nat>, stamp: map<Id, nat>, n: nat, p: nat)
    requires Ordered(below, due, stamp) && Within(row, below) && 0 < p <= |row|
    requires row[p - 1] in due && due[row[p - 1]] <= n
    ensures row[p - 1] in below
    ensures forall j :: 0 <= j <= IndexOf(below, row[p - 1]) ==> due[below[j]] <= n
  {
    assert row[p - 1] in row;
    var k := IndexOf(below, row[p - 1]);
    forall j | 0 <= j <= k ensures due[below[j]] <= n {
      if j < k { assert Before(due, stamp, below[j], below[k]); }
    }
  }

  // The rows of a pending list: the last one is complete, higher ones skip timers.
  ghost predicate RowsFit(rows: seq<seq<Id>>, list: seq<Id>, due: map<Id, nat>, stamp: map<Id, nat>) {
    && rows != [] && rows[|rows| - 1] == list
    && (forall i :: 0 <= i < |rows| ==> Ordered(rows[i], due, stamp))
    && (forall i, j :: 0 <= i < j < |rows| ==> Within(rows[i], rows[j]))
  }

  lemma RowsAreSublists(rows: seq<seq<Id>>, list: seq<Id>, due: map<Id, nat>, stamp: map<Id, nat>)
    requires RowsFit(rows, list, due, stamp)
    ensures forall i, j :: 0 <= i < j < |rows| ==> Sublist(rows[i], rows[j])
  {
    forall i, j | 0 <= i < j < |rows| ensures Sublist(rows[i], rows[j]) {
      assert Within(rows[i], rows[j]);
      WithinIsSublist(rows[i], rows[j], due, stamp);
    }
  }

  lemma AllInLast(rows: seq<seq<Id>>, list: seq<Id>, due: map<Id, nat>, stamp: map<Id, nat>, i: nat)
    requires RowsFit(rows, list, due, stamp) && i < |rows|
    ensures Within(rows[i], list) && Ordered(rows[i], due, stamp)
  {
    if i < |rows| - 1 { assert Within(rows[i], rows[|rows| - 1]); }
  }

  // _rt_timer_remove: the timer leaves every row.
  lemma RemovedRows(
      rows: seq<seq<Id>>, after: seq<seq<Id>>, list: seq<Id>, due: map<Id, nat>, stamp: map<Id, nat>, t: Id)
    requires RowsFit(rows, list, due, stamp) && |after| == |rows|
    requires forall i :: 0 <= i < |rows| ==> after[i] == Without(rows[i], t)
    ensures RowsFit(after, Without(list, t), due, stamp)
  {
    forall i | 0 <= i < |rows| ensures Ordered(after[i], due, stamp) {
      WithoutOrdered(rows[i], t, due, stamp);
    }
    forall i, j | 0 <= i < j < |rows| ensures Within(after[i], after[j]) {
      assert Within(rows[i], rows[j]);
    }
  }

  // p is the place for a timer due at n.
  ghost predicate PlaceIs(q: seq<Id>, due: map<Id, nat>, n: nat, p: nat) {
    (forall x :: x in q ==> x in due) && p == Place(q, due, n)
  }

  ghost predicate PlacesAre(rows: seq<seq<Id>>, due: map<Id, nat>, n: nat, head: seq<nat>) {
    |head| == |rows| && forall i :: 0 <= i < |rows| ==> PlaceIs(rows[i], due, n, head[i])
  }

  // The timer enters the rows from 'top' down, in row i at position head[i].
  ghost predicate EntersFrom(rows: seq<seq<Id>>, after: seq<seq<Id>>, t: Id, head: seq<nat>, top: nat) {
    && |after| == |rows| == |head| && top < |rows|
    && (forall i :: 0 <= i < top ==> after[i] == rows[i])
    && (forall i :: top <= i < |rows| ==> head[i] <= |rows[i]| && after[i] == Inserted(rows[i], t, head[i]))
  }

  lemma RowEnters(row: seq<Id>, t: Id, due: map<Id, nat>, stamp: map<Id, nat>, n: nat, next: nat, p: nat)
    requires Ordered(row, due, stamp) && t !in row && PlaceIs(row, due, n, p)
    requires forall x :: x in row ==> stamp[x] < next
    ensures Ordered(row, due[t := n], stamp[t := next]) && Ordered(Inserted(row, t, p), due[t := n], stamp[t := next])
    ensures forall x :: x in Inserted(row, t, p) <==> x in row || x == t
  {
    StillOrdered(row, t, due, stamp, n, next);
    InsertOrdered(row, t, due, stamp, n, next);
  }

  lemma InsertedRows(
      rows: seq<seq<Id>>, after: seq<seq<Id>>, list: seq<Id>, due: map<Id, nat>, stamp: map<Id, nat>, t: Id, n: nat,
      next: nat, head: seq<nat>, top: nat)
    requires RowsFit(rows, list, due, stamp) && t !in list && (forall x :: x in list ==> stamp[x] < next)
    requires PlacesAre(rows, due, n, head) && EntersFrom(rows, after, t, head, top)
    ensures RowsFit(after, Inserted(list, t, Place(list, due, n)), due[t := n], stamp[t := next])
  {
    assert PlaceIs(rows[|rows| - 1], due, n, head[|rows| - 1]);
    forall i | 0 <= i < |rows|
      ensures Ordered(after[i], due[t := n], stamp[t := next])
      ensures forall x :: x in after[i] <==> x in rows[i] || (i >= top && x == t)
    {
      AllInLast(rows, list, due, stamp, i);
      RowEnters(rows[i], t, due, stamp, n, next, head[i]);
    }
    forall i, j | 0 <= i < j < |rows| ensures Within(after[i], after[j]) {
      assert Within(rows[i], rows[j]);
    }
  }

  // The wrapped timeouts stand for the exact deadlines.
  ghost predicate TicksMatch(list: seq<Id>, due: map<Id, nat>, timeout: map<Id, nat>) {
    forall t :: t in list ==> t in due && t in timeout && timeout[t] == Wrap(due[t])
  }

  lemma TailTicks(q: seq<Id>, due: map<Id, nat>, timeout: map<Id, nat>)
    requires TicksMatch(q, due, timeout) && q != []
    ensures TicksMatch(q[1..], due, timeout)
  {}

  lemma BegunTicks(q: seq<Id>, t: Id, due: map<Id, nat>, timeout: map<Id, nat>, n: nat)
    requires TicksMatch(q, due, timeout)
    ensures TicksMatch(Without(q, t), due[t := n], timeout[t := Wrap(n)])
  {}

  lemma EndedTicks(q: seq<Id>, t: Id, due: map<Id, nat>, timeout: map<Id, nat>)
    requires TicksMatch(q, due, timeout) && t in due && t in timeout && timeout[t] == Wrap(due[t])
    ensures TicksMatch(Inserted(q, t, Place(q, due, due[t])), due, timeout)
  {
    InsertedAt(q, t, Place(q, due, due[t]));
  }

  lemma FewerMatch(q: seq<Id>, t: Id, due: map<Id, nat>, timeout: map<Id, nat>)
    requires TicksMatch(q, due, timeout)
    ensures TicksMatch(Without(q, t), due, timeout)
  {}

  // The rows do not depend on the deadline of a timer that is not in them.
  lemma RowsElsewhere(rows: seq<seq<Id>>, list: seq<Id>, due: map<Id, nat>, stamp: map<Id, nat>, t: Id, n: nat)
    requires RowsFit(rows, list, due, stamp) && t !in list
    ensures RowsFit(rows, list, due[t := n], stamp)
  {
    forall i | 0 <= i < |rows| ensures Ordered(rows[i], due[t := n], stamp) {
      AllInLast(rows, list, due, stamp, i);
      OrderedElsewhere(rows[i], t, due, stamp, n);
    }
  }

  lemma StartingNear(c: Config, s: State, t: Id)
    requires Inv(c, s) && t in s.starting
    ensures t in s.due && t !in s.list
    ensures s.now <= s.due[t] + c.gap && s.due[t] + c.gap < s.now + HALF
  {
    assert StartingOk(c, s, t);
  }

  class TimerTable {
    const c: Config
    const mask: nat
    var rows: seq<seq<Id>>
    var tick: nat
    var timeout: map<Id, nat>
    var time: map<Id, nat>
    var periodic: set<Id>
    var active: set<Id>
    var random: nat
    // How many timeout functions have run
    var fired: nat
    ghost var s: State

    ghost predicate Coupled() reads this {
      && RowsFit(rows, s.list, s.due, s.stamp) && TicksMatch(s.list, s.due, timeout) && tick == Wrap(s.now)
      && (forall t :: t in s.starting ==> t in s.due && t in timeout && timeout[t] == Wrap(s.due[t]))
      && time == s.time && periodic == s.periodic && active == s.active && fired == |s.log| && (mask == 1 || mask == 3)
    }

    ghost predicate Valid() reads this { ConfigOk(c) && Inv(c, s) && Coupled() }

    // rt_system_timer_init for timers that rt_timer_init has set up
    constructor (c: Config, levels: nat, mask: nat, now: nat, time: map<Id, nat>, periodic: set<Id>)
      requires ConfigOk(c) && levels > 0 && (mask == 1 || mask == 3)
      requires time.Keys == c.ids && forall t :: t in time ==> time[t] + c.gap < HALF
      ensures Valid() && Quiet(s) && this.c == c && |rows| == levels
      ensures s == State(now, [], {}, multiset{}, multiset{}, map[], map[], map[], map[], 0, time, periodic, {}, [])
    {
      this.c, this.mask := c, mask;
      rows := seq(levels, _ => []);
      tick := Wrap(now);
      timeout, this.time, this.periodic, active, random, fired := map[], time, periodic, {}, 0, 0;
      s := State(now, [], {}, multiset{}, multiset{}, map[], map[], map[], map[], 0, time, periodic, {}, []);
    }

    // _rt_timer_remove
    method RemoveRows(t: Id)
      requires RowsFit(rows, s.list, s.due, s.stamp)
      modifies this`rows
      ensures RowsFit(rows, Without(s.list, t), s.due, s.stamp) && |rows| == |old(rows)|
    {
      ghost var before := rows;
      var i := 0;
      while i < |rows|
        invariant i <= |rows| == |before|
        invariant forall j :: 0 <= j < i ==> rows[j] == Without(before[j], t)
        invariant forall j :: i <= j < |rows| ==> rows[j] == before[j]
      {
        rows := rows[i := Without(rows[i], t)];
        i := i + 1;
      }
      RemovedRows(before, rows, s.list, s.due, s.stamp, t);
    }

    // A deadline that can be compared with those of the pending timers
    ghost predicate Near(n: nat) reads this { s.now <= n + c.gap && n + c.gap < s.now + HALF && c.gap < HALF - 1 }

    // One row of the search for the insertion point, from position p on
    method Scan(row: seq<Id>, from: nat, target: nat, ghost n: nat) returns (p: nat)
      requires ListOk(c, s) && Ordered(row, s.due, s.stamp) && Within(row, s.list) && from <= |row|
      requires TicksMatch(row, s.due, timeout) && target == Wrap(n) && Near(n)
      requires forall j :: 0 <= j < from ==> s.due[row[j]] <= n
      ensures PlaceIs(row, s.due, n, p)
    {
      p := from;
      while p < |row|
        invariant p <= |row|
        invariant forall j :: 0 <= j < p ==> s.due[row[j]] <= n
      {
        var t := row[p];
        assert t in row && PendingOk(c, s, t);
        DiffOrders(s.due[t], n);
        var diff := Diff(timeout[t], target);
        if diff != 0 && diff < HALF { break; }
        p := p + 1;
      }
      PlaceUnique(row, s.due, s.stamp, n, p);
    }

    // Where the search goes on in the next row
    method Column(row: seq<Id>, below: seq<Id>, p: nat, ghost n: nat) returns (from: nat)
      requires Ordered(below, s.due, s.stamp) && Within(row, below) && PlaceIs(row, s.due, n, p)
      ensures from <= |below| && forall j :: 0 <= j < from ==> below[j] in s.due && s.due[below[j]] <= n
    {
      if p == 0 { return 0; }
      assert row[p - 1] in row;
      Descend(row, below, s.due, s.stamp, n, p);
      from := IndexOf(below, row[p - 1]) + 1;
    }

    // The search of rt_timer_start: down the rows, following the column of the last timer passed
    method FindPlaces(target: nat, ghost n: nat) returns (head: seq<nat>)
      requires ListOk(c, s) && RowsFit(rows, s.list, s.due, s.stamp)
      requires TicksMatch(s.list, s.due, timeout) && target == Wrap(n) && Near(n)
      ensures PlacesAre(rows, s.due, n, head)
    {
      hide ListOk, Ordered, Before;
      head := [];
      var from: nat := 0;
      var lvl := 0;
      while lvl < |rows|
        invariant |head| == lvl <= |rows|
        invariant forall i :: 0 <= i < lvl ==> PlaceIs(rows[i], s.due, n, head[i])
        invariant lvl < |rows| ==> from <= |rows[lvl]|
        invariant lvl < |rows| ==> forall j :: 0 <= j < from ==> rows[lvl][j] in s.due && s.due[rows[lvl][j]] <= n
      {
        AllInLast(rows, s.list, s.due, s.stamp, lvl);
        var p := Scan(rows[lvl], from, target, n);
        head := head + [p];
        if lvl + 1 < |rows| {
          assert Within(rows[lvl], rows[lvl + 1]) && Ordered(rows[lvl + 1], s.due, s.stamp);
          from := Column(rows[lvl], rows[lvl + 1], p, n);
        }
        lvl := lvl + 1;
      }
    }

    // The insertion of rt_timer_start: always in the last row, in higher rows by the counter
    method InsertRows(t: Id, head: seq<nat>) returns (ghost top: nat)
      requires rows != [] && |head| == |rows| && mask > 0
      requires forall i :: 0 <= i < |rows| ==> head[i] <= |rows[i]|
      modifies this`rows, this`random
      ensures EntersFrom(old(rows), rows, t, head, top)
    {
      random := (random + 1) % RANGE;
      var tst := random;
      var k := |rows| - 1;
      rows := rows[k := Inserted(rows[k], t, head[k])];
      while k > 0 && tst % (mask + 1) == 0
        invariant 0 <= k < |rows| && EntersFrom(old(rows), rows, t, head, k)
      {
        k := k - 1;
        rows := rows[k := Inserted(rows[k], t, head[k])];
        tst := tst / (mask + 1);
      }
      top := k;
    }

    // The rows after the insertion are those of the started timer.
    method EnterRows(t: Id, head: seq<nat>, ghost n: nat)
      requires RowsFit(rows, s.list, s.due, s.stamp) && t !in s.list && mask > 0
      requires forall x :: x in s.list ==> s.stamp[x] < s.next
      requires PlacesAre(rows, s.due, n, head)
      modifies this`rows, this`random
      ensures RowsFit(rows, Inserted(s.list, t, Place(s.list, s.due, n)), s.due[t := n], s.stamp[t := s.next])
      ensures |rows| == |old(rows)|
    {
      ghost var before := rows;
      ghost var top := InsertRows(t, head);
      InsertedRows(before, rows, s.list, s.due, s.stamp, t, n, s.next, head, top);
    }

    // The first half of rt_timer_start: out of the rows, inactive, and the new timeout
    method StartBeginT(t: Id)
      requires Valid() && t in c.ids
      modifies this
      ensures Valid() && s == StartBegin(old(s), t) && |rows| == |old(rows)|
    {
      hide ListOk, LogOk, RowsFit, Ordered, Without, TicksMatch, ConfigOk, Wrap;
      BeginSafe(c, s, t);
      ghost var n := s.now + s.time[t];
      WrapAdd(s.now, s.time[t]);
      BegunTicks(s.list, t, s.due, timeout, n);
      RemoveRows(t);
      RowsElsewhere(rows, Without(s.list, t), s.due, s.stamp, t, n);
      active := active - {t};
      timeout := timeout[t := Wrap(tick + time[t])];
      s := StartBegin(s, t);
    }

    // The second half: the search and the insertion
    method StartEndT(t: Id)
      requires Valid() && t in s.starting
      modifies this
      ensures Valid() && t in old(s).due && s == StartEnd(old(s), t) && |rows| == |old(rows)|
    {
      hide ListOk, LogOk, RowsFit, Ordered, TicksMatch, Place, Inserted, Wrap;
      EndSafe(c, s, t);
      StartingNear(c, s, t);
      ListedKnown(c, s);
      assert s.due[t := s.due[t]] == s.due;
      EndedTicks(s.list, t, s.due, timeout);
      PutIn(t, s.due[t]);
      active := active + {t};
      s := StartEnd(s, t);
    }

    method PutIn(t: Id, ghost n: nat)
      requires ListOk(c, s) && RowsFit(rows, s.list, s.due, s.stamp) && t !in s.list && mask > 0
      requires TicksMatch(s.list, s.due, timeout) && t in timeout && timeout[t] == Wrap(n) && Near(n)
      modifies this`rows, this`random
      ensures RowsFit(rows, Inserted(s.list, t, Place(s.list, s.due, n)), s.due[t := n], s.stamp[t := s.next])
      ensures |rows| == |old(rows)|
    {
      var head := FindPlaces(timeout[t], n);
      assert forall x :: x in s.list ==> PendingOk(c, s, x);
      EnterRows(t, head, n);
    }

    // rt_timer_start
    method StartT(t: Id)
      requires Valid() && t in c.ids
      modifies this
      ensures Valid() && s == StartTimer(old(s), t) && |rows| == |old(rows)|
    {
      StartBeginT(t);
      StartEndT(t);
    }

    // rt_timer_stop, step by step: the test of the flag
    method StopTestT(t: Id) returns (ok: bool)
      requires Valid() && t in c.ids
      modifies this`s
      ensures Valid() && s == TestStop(old(s), t) && ok == (t in active)
    {
      TestStopSafe(c, s, t);
      ok := t in active;
      s := TestStop(s, t);
    }

    // ... the removal
    method StopBeginT(t: Id)
      requires Valid()
      modifies this`rows, this`s
      ensures Valid() && s == BeginStop(old(s), t) && |rows| == |old(rows)|
    {
      hide ListOk, LogOk, Ordered, RowsFit, Without;
      BeginStopSafe(c, s, t);
      FewerMatch(s.list, t, s.due, timeout);
      RemoveRows(t);
      s := BeginStop(s, t);
    }

    // ... and the flag, with interrupts enabled again
    method StopEndT(t: Id)
      requires Valid()
      modifies this`active, this`s
      ensures Valid() && s == EndStop(old(s), t)
    {
      hide ListOk, LogOk, Ordered, RowsFit;
      EndStopSafe(c, s, t);
      active := active - {t};
      s := EndStop(s, t);
    }

    // rt_timer_stop
    method StopT(t: Id) returns (ok: bool)
      requires Valid() && t in c.ids
      modifies this
      ensures Valid() && s == StopTimer(old(s), t) && ok == (t in old(active)) && |rows| == |old(rows)|
    {
      hide Inv, RowsFit, TicksMatch;
      ok := StopTestT(t);
      if ok {
        StopBeginT(t);
        StopEndT(t);
      }
    }

    // rt_timer_control
    method Control(a: Act)
      requires Valid() && ActOk(c, a) && (a.SetTime? || a.SetPeriodic?)
      modifies this
      ensures Valid() && s == Perform(old(s), a) && |rows| == |old(rows)|
    {
      PerformSafe(c, s, a);
      match a {
        case SetTime(t, d) => time := time[t := d];
        case SetPeriodic(t, p) => periodic := if p then periodic + {t} else periodic - {t};
      }
      s := Perform(s, a);
    }

    method PerformAct(a: Act)
      requires Valid() && ActOk(c, a)
      modifies this
      ensures Valid() && s == Perform(old(s), a) && |rows| == |old(rows)|
    {
      match a
      case Start(t) => StartT(t);
      case Stop(t) => var _ := StopT(t);
      case _ => Control(a);
    }

    // The timeout function of t, as the n-th to run
    method CallTimeout(t: Id, n: nat)
      requires Valid() && t in c.ids
      modifies this
      ensures Valid() && s == PerformAll(c, old(s), c.callback(t, n))
    {
      var acts := c.callback(t, n);
      var i := 0;
      while i < |acts|
        invariant i <= |acts| && Valid() && PerformAll(c, s, acts[i..]) == PerformAll(c, old(s), acts)
      {
        assert acts[i..][0] == acts[i] && acts[i..][1..] == acts[i + 1..];
        PerformAct(acts[i]);
        i := i + 1;
      }
    }

    // The restart of a periodic timer after its timeout function
    method Rearm(t: Id)
      requires Valid() && t in c.ids
      modifies this
      ensures Valid() && s == Rearmed(old(s), t)
    {
      var again := t in periodic && t in active;
      active := active - {t};
      s := s.(active := s.active - {t});
      if again { StartT(t); }
    }

    lemma WholeRow()
      requires Coupled()
      ensures rows != [] && rows[|rows| - 1] == s.list
    {}

    // The first timer leaves the list.
    method PopHead() returns (t: Id)
      requires Valid() && IsDue(s) && Fresh(s) && rows[|rows| - 1] != []
      modifies this`rows, this`fired, this`s
      ensures Valid() && t == old(s).list[0] && t in c.ids && Known(old(s), t) && Fresh(s)
      ensures s == Popped(old(s))
    {
      hide Inv, RowsFit, TicksMatch, Fresh, ConfigOk, PendingOk;
      PoppedSafe(c, s);
      HeadFirst(c, s);
      WholeRow();
      TailTicks(s.list, s.due, timeout);
      t := rows[|rows| - 1][0];
      WithoutAbsent(s.list[1..], t);
      RemoveRows(t);
      fired := fired + 1;
      s := Popped(s);
    }

    // One round of the loop of rt_timer_check
    method FireHead()
      requires Valid() && Positive(s) && Fresh(s) && IsDue(s) && rows[|rows| - 1] != []
      modifies this
      ensures Valid() && s == FireFirst(c, old(s))
    {
      ghost var was := s;
      PoppedSafe(c, was);
      var t := PopHead();
      PerformAllSafe(c, Popped(was), Acts(c, was));
      CallTimeout(t, fired - 1);
      Rearm(t);
    }

    method HeadIsDue() returns (due: bool)
      requires Valid()
      ensures due <==> IsDue(s)
      ensures due ==> rows[|rows| - 1] != []
    {
      var last := rows[|rows| - 1];
      if last == [] { return false; }
      assert last[0] in last && PendingOk(c, s, last[0]);
      DiffOrders(s.now, s.due[last[0]]);
      due := Diff(tick, timeout[last[0]]) < HALF;
    }

    // rt_timer_check
    method TimerCheck()
      requires Valid() && Positive(s) && Fresh(s)
      modifies this
      ensures Valid() && s == Check(c, old(s))
    {
      hide Inv, Positive, Overdue, FireFirst, Fresh;
      var due := HeadIsDue();
      while due
        invariant Valid() && Positive(s) && Fresh(s) && Check(c, s) == Check(c, old(s))
        invariant due ==> IsDue(s) && rows[|rows| - 1] != []
        invariant !due ==> !IsDue(s)
        decreases Overdue(s), due
      {
        FireFirstSafe(c, s);
        FireHead();
        due := HeadIsDue();
      }
    }

    method CountTick()
      requires Valid() && Quiet(s) && Enabled(c, s, Tick)
      modifies this`tick, this`s
      ensures Valid() && Fresh(s) && s == old(s).(now := old(s).now + 1)
    {
      hide Inv, Fresh, Quiet, RowsFit, TicksMatch;
      TickSafe(c, s);
      WrapAdd(s.now, 1);
      tick := Wrap(tick + 1);
      s := s.(now := s.now + 1);
    }

    // rt_tick_increase, as far as the timers are concerned
    method TickIncrease()
      requires Valid() && Quiet(s) && Enabled(c, s, Tick)
      modifies this
      ensures Valid() && Quiet(s) && s == Apply(c, old(s), Tick)
    {
      hide ListOk, LogOk, Coupled, ConfigOk, Quiet, Fresh;
      EventSafe(c, s, Tick);
      CountTick();
      TimerCheck();
    }

    // rt_timer_next_timeout_tick: the earliest deadline, or the largest tick
    method NextTimeout() returns (next: nat)
      requires Valid()
      ensures s.list == [] ==> next == RANGE - 1
      ensures s.list != [] ==>
                exists t :: t in s.list && next == Wrap(s.due[t]) && forall x :: x in s.list ==> s.due[t] <= s.due[x]
    {
      var last := rows[|rows| - 1];
      if last == [] { return RANGE - 1; }
      next := timeout[last[0]];
      OrderedTail(s.list, s.due, s.stamp);
      assert last[0] in s.list && forall x :: x in s.list ==> x == last[0] || x in last[1..];
    }
  }
}

// Mutexes with priority inheritance (src/ipc.c, rt_mutex_*).
module MutexModel {
  import opened Options
  import opened IpcList
  import opened Lists

  // 'hold' is the eight-bit counter of the source. 'depth' is the true number of takes the owner
  // has not released and 'acquired' the priority it had when it became owner; both are for the proof.
  datatype State = State(
    flag: Flag, value: nat, hold: nat, original: nat, owner: Option<Tid>, waiters: seq<Tid>, prio: map<Tid, nat>,
    depth: nat, acquired: nat)

  datatype Event =
    | Take(t: Tid, wait: bool)
    | Release(t: Tid)
    | Timeout(t: Tid)

  function ByPrio(prio: map<Tid, nat>): Tid -> nat { t => if t in prio then prio[t] else 0 }

  function PrioOf(s: State): Tid -> nat { ByPrio(s.prio) }

  // A waiting thread is suspended and calls nothing.
  predicate Enabled(s: State, e: Event) {
    match e
    case Take(t, _) => t in s.prio && t !in s.waiters
    case Release(t) => t in s.prio && t !in s.waiters
    case Timeout(t) => t in s.waiters
  }

  function Acquire(s: State, t: Tid, value: nat, waiters: seq<Tid>): State
    requires t in s.prio
  {
    s.(value := value, owner := Some(t), original := s.prio[t], hold := (s.hold + 1) % 256,
       waiters := waiters, depth := 1, acquired := s.prio[t])
  }

  // The owner inherits the priority of a more urgent waiter.
  function Inherit(s: State, t: Tid): State
    requires t in s.prio && s.owner.Some?
  {
    var o := s.owner.value;
    if o in s.prio && s.prio[t] < s.prio[o] then s.(prio := s.prio[o := s.prio[t]]) else s
  }

  function Wait(s: State, t: Tid): State
    requires t in s.prio && s.owner.Some?
  {
    var s1 := Inherit(s, t);
    s1.(waiters := Enqueue(s1.waiters, t, s1.flag, PrioOf(s1)))
  }

  // The last release: the owner gets its priority back, then the first waiter gets the mutex.
  function HandOver(s: State): State
    requires s.owner.Some?
  {
    var s1 := s.(hold := 0, prio := s.prio[s.owner.value := s.original]);
    if s.waiters != [] && s.waiters[0] in s1.prio then
      Acquire(s1, s.waiters[0], s.value, s.waiters[1..])
    else s1.(value := s.value + 1, owner := None, original := 255, depth := 0)
  }

  function Apply(s: State, e: Event): State
    requires Enabled(s, e)
  {
    match e
    case Take(t, wait) =>
      if s.owner == Some(t) then s.(hold := (s.hold + 1) % 256, depth := s.depth + 1)
      else if s.value > 0 then Acquire(s, t, s.value - 1, s.waiters)
      else if wait && s.owner.Some? then Wait(s, t)
      else s
    case Release(t) =>
      if s.owner != Some(t) then s
      else if (s.hold + 255) % 256 == 0 then HandOver(s)
      else s.(hold := (s.hold + 255) % 256, depth := if s.depth > 0 then s.depth - 1 else 0)
    case Timeout(t) => s.(waiters := Without(s.waiters, t))
  }

  // The eight-bit counter shows the nesting.
  predicate Counts(hold: nat, depth: nat) { hold == depth % 256 }

  lemma CountsUp(hold: nat, depth: nat)
    requires Counts(hold, depth)
    ensures Counts((hold + 1) % 256, depth + 1)
  {}

  lemma CountsDown(hold: nat, depth: nat)
    requires Counts(hold, depth) && depth > 0
    ensures Counts((hold + 255) % 256, depth - 1)
  {}

  ghost predicate Inv(s: State) {
    && (s.value == if s.owner.None? then 1 else 0)
    && (s.owner.None? ==> s.waiters == [] && s.depth == 0)
    && (s.owner.Some? ==> s.owner.value in s.prio && s.owner.value !in s.waiters && s.depth >= 1)
    && Counts(s.hold, s.depth)
    && Distinct(s.waiters)
    && (forall w :: w in s.waiters ==> w in s.prio)
    // inheritance only makes the owner more urgent
    && (s.owner.Some? ==> s.original == s.acquired && s.prio[s.owner.value] <= s.acquired)
  }

  // No waiter is more urgent than the owner.
  ghost predicate NoneOutranks(s: State) {
    s.owner.Some? && s.owner.value in s.prio ==>
      forall w :: w in s.waiters && w in s.prio ==> s.prio[s.owner.value] <= s.prio[w]
  }

  // A priority list is in order.
  ghost predicate InOrder(s: State) { s.flag.Prio? ==> Sorted(s.waiters, PrioOf(s)) && NoneOutranks(s) }

  // The newcomer is put in its place among the others.
  lemma WaitSafe(s: State, t: Tid)
    requires Inv(s) && s.owner.Some? && t in s.prio && t !in s.waiters && s.owner != Some(t)
    ensures Inv(Wait(s, t))
    ensures forall u :: u in Wait(s, t).waiters <==> u in s.waiters || u == t
  {
    hide Counts, Distinct, Enqueue;
    EnqueueMembers(s.waiters, t, s.flag, PrioOf(Inherit(s, t)));
  }

  lemma HandOverSafe(s: State)
    requires Inv(s) && s.owner.Some?
    ensures Inv(HandOver(s)) && HandOver(s).owner != s.owner
    ensures HandOver(s).prio == s.prio[s.owner.value := s.acquired] && HandOver(s).flag == s.flag
    ensures s.waiters != [] ==> HandOver(s).owner == Some(s.waiters[0]) && HandOver(s).waiters == s.waiters[1..]
    ensures s.waiters == [] ==> HandOver(s).owner == None
  {
    if s.waiters != [] {
      assert s.waiters[0] in s.waiters;
      DistinctTail(s.waiters);
      assert forall w :: w in s.waiters[1..] ==> w in s.waiters;
    }
  }

  // Blocking, time-outs, recursive takes and hand-overs keep value, owner, hold and waiters in step.
  lemma EventSafe(s: State, e: Event)
    requires Inv(s) && Enabled(s, e)
    ensures Inv(Apply(s, e)) && Apply(s, e).flag == s.flag
  {
    hide Distinct, Counts;
    match e
    case Take(t, wait) =>
      if s.owner == Some(t) { CountsUp(s.hold, s.depth); }
      else if s.owner.None? { AcquireSafe(s, t); }
      else if wait { WaitSafe(s, t); }
    case Release(t) =>
      if s.owner == Some(t) {
        CountsDown(s.hold, s.depth);
        if (s.hold + 255) % 256 == 0 { HandOverSafe(s); } else { StillHeld(s); }
      }
    case Timeout(t) =>
  }

  lemma AcquireSafe(s: State, t: Tid)
    requires Inv(s) && s.owner.None? && t in s.prio
    ensures Inv(Acquire(s, t, s.value - 1, s.waiters))
  {}

  lemma StillHeld(s: State)
    requires Inv(s) && s.owner.Some? && (s.hold + 255) % 256 != 0
    ensures Inv(s.(hold := (s.hold + 255) % 256, depth := s.depth - 1))
  {
    hide Distinct;
    CountsDown(s.hold, s.depth);
  }

  // ----- inversion -----

  // The owner releases the last hold it is known to have.
  predicate GivesAway(s: State, e: Event) { e.Release? && s.owner == Some(e.t) && (s.hold + 255) % 256 == 0 }

  // Somebody who waits outranks the one who waits first.
  ghost predicate PassesOver(s: State) {
    s.waiters != [] && s.waiters[0] in s.prio &&
    exists w :: w in s.waiters && w in s.prio && s.prio[w] < s.prio[s.waiters[0]]
  }

  // A waiter comes to outrank the owner exactly if the mutex is handed to a first waiter whom
  // another one outranks.
  lemma InversionExact(s: State, e: Event)
    requires Inv(s) && Enabled(s, e) && NoneOutranks(s)
    ensures NoneOutranks(Apply(s, e)) <==> !(GivesAway(s, e) && PassesOver(s))
  {
    hide Counts, Distinct, Enqueue;
    if GivesAway(s, e) {
      HandOverSafe(s);
      assert s.waiters != [] ==> forall w :: w in s.waiters <==> w == s.waiters[0] || w in s.waiters[1..];
    } else if e.Take? && s.owner.Some? && s.owner.value != e.t && e.wait {
      WaitSafe(s, e.t);
    }
  }

  lemma SortedFor(q: seq<Tid>, f: Tid -> nat, g: Tid -> nat)
    requires Sorted(q, f) && forall w :: w in q ==> f(w) == g(w)
    ensures Sorted(q, g)
  {
  }

  lemma TailSorted(q: seq<Tid>, f: Tid -> nat)
    requires Sorted(q, f) && q != []
    ensures Sorted(q[1..], f)
    ensures forall w :: w in q ==> f(q[0]) <= f(w)
  {
    forall i, j | 0 <= i < j < |q[1..]| ensures f(q[1..][i]) <= f(q[1..][j]) {
      assert f(q[i + 1]) <= f(q[j + 1]);
    }
  }

  // In a priority list the first waiter is the most urgent.
  lemma FirstOutranked(s: State)
    requires Inv(s) && s.flag.Prio? && InOrder(s)
    ensures !PassesOver(s)
  {
    hide Sorted, Distinct, Counts;
    if s.waiters != [] { TailSorted(s.waiters, PrioOf(s)); }
  }

  // The waiters of an event are put in order by priorities that it does not change.
  lemma EventSorted(s: State, e: Event)
    requires Inv(s) && Enabled(s, e) && s.flag.Prio? && Sorted(s.waiters, PrioOf(s))
    ensures Sorted(Apply(s, e).waiters, PrioOf(Apply(s, e)))
  {
    hide Sorted, Distinct, Counts, Enqueue;
    var r := Apply(s, e);
    match e
    case Take(t, wait) =>
      if s.owner.Some? && s.owner.value != t && wait {
        var f := PrioOf(Inherit(s, t));
        SortedFor(s.waiters, PrioOf(s), f);
        EnqueueStable(s.waiters, t, f, PrioPlace(s.waiters, t, f));
      }
      SortedFor(r.waiters, PrioOf(if r.waiters == s.waiters then s else r), PrioOf(r));
    case Release(t) =>
      if GivesAway(s, e) {
        HandOverSafe(s);
        if s.waiters != [] { TailSorted(s.waiters, PrioOf(s)); }
        assert forall w :: w in r.waiters ==> w in s.waiters;
      }
      SortedFor(r.waiters, PrioOf(s), PrioOf(r));
    case Timeout(t) =>
      WithoutSorted(s.waiters, t, PrioOf(s));
      SortedFor(r.waiters, PrioOf(s), PrioOf(r));
  }

  lemma EventInOrder(s: State, e: Event)
    requires Inv(s) && Enabled(s, e) && InOrder(s)
    ensures InOrder(Apply(s, e))
  {
    hide Sorted, Inv;
    EventSafe(s, e);
    if s.flag.Prio? {
      EventSorted(s, e);
      InversionExact(s, e);
      FirstOutranked(s);
    }
  }

  // hold == 0 means "no owner" exactly while the nesting is not a positive multiple of 256.
  lemma HoldTellsOwner(s: State)
    requires Inv(s)
    ensures (s.hold == 0 <==> s.owner == None) <==> (s.depth == 0 || s.depth % 256 != 0)
    ensures s.value == 1 <==> s.owner == None
  {
  }

  // A release by the owner gives the mutex away exactly when it is the outermost one, unless
  // the eight-bit counter has wrapped: then also when the nesting is one more than a multiple
  // of 256.
  lemma ReleaseIsFinal(s: State, t: Tid)
    requires Inv(s) && s.owner == Some(t)
    ensures Apply(s, Release(t)).owner != Some(t) <==> s.depth % 256 == 1
    ensures (Apply(s, Release(t)).owner != Some(t) <==> s.depth == 1) <==> !(s.depth > 256 && s.depth % 256 == 1)
    ensures Apply(s, Release(t)).owner != Some(t) ==> Apply(s, Release(t)).prio == s.prio[t := s.acquired]
  {
    if s.depth % 256 == 1 { HandOverSafe(s); }
  }

  // Only an owner can release, and releasing undoes a take.
  lemma TakeThenRelease(s: State, t: Tid, wait: bool)
    requires Inv(s) && t in s.prio && t !in s.waiters && (s.owner == None || s.owner == Some(t)) && s.depth < 256
    ensures Apply(s, Take(t, wait)).owner == Some(t)
    ensures var r := Apply(Apply(s, Take(t, wait)), Release(t));
            r.owner == s.owner && r.value == s.value && r.hold == s.hold && r.depth == s.depth
            && r.waiters == s.waiters && r.prio == s.prio
  {
    if s.owner == None {
      HandOverSafe(Apply(s, Take(t, wait)));
    }
  }

  // ----- runs -----

  function Init(flag: Flag, prio: map<Tid, nat>): State { State(flag, 1, 0, 255, None, [], prio, 0, 0) }

  ghost predicate Runs(s: State, es: seq<Event>, last: State)
    decreases |es|
  {
    if es == [] then last == s
    else Enabled(s, es[0]) && Runs(Apply(s, es[0]), es[1..], last)
  }

  lemma {:induction false} RunSafe(s: State, es: seq<Event>, last: State)
    requires Inv(s) && InOrder(s) && Runs(s, es, last)
    ensures Inv(last) && InOrder(last) && last.flag == s.flag
    decreases |es|
  {
    hide Inv, InOrder, Apply;
    if es != [] {
      EventSafe(s, es[0]);
      EventInOrder(s, es[0]);
      RunSafe(Apply(s, es[0]), es[1..], last);
    }
  }

  // In every run waiters imply an owner that does not wait, and that no waiter outranks if the
  // list goes by priority.
  lemma NoInversion(flag: Flag, prio: map<Tid, nat>, es: seq<Event>, s: State)
    requires Runs(Init(flag, prio), es, s)
    ensures s.waiters != [] ==> s.owner.Some? && s.owner.value !in s.waiters
    ensures forall w :: w in s.waiters ==> s.owner.Some? && w in s.prio && s.owner.value in s.prio
    ensures flag.Prio? ==> forall w :: w in s.waiters ==> s.prio[s.owner.value] <= s.prio[w]
    ensures s.value == 1 <==> s.owner == None
  {
    RunSafe(Init(flag, prio), es, s);
  }

  // A mutex that goes by order of arrival is handed to thread b while the more urgent thread c waits.
  lemma FifoInverts(prio: map<Tid, nat>, a: Tid, b: Tid, c: Tid) returns (s: State)
    requires a in prio && b in prio && c in prio && a != b && prio[a] <= prio[c] < prio[b] && c != a
    ensures Runs(Init(Fifo, prio), [Take(a, true), Take(b, true), Take(c, true), Release(a)], s)
    ensures s.owner == Some(b) && s.waiters == [c] && s.prio == prio
  {
    hide Runs, Apply;
    s := Held(prio, b, [c]);
    HeldSteps(prio, a, b, c);
    var es3 := [Take(c, true), Release(a)];
    var es2 := [Take(b, true)] + es3;
    RunsOn(Init(Fifo, prio), Take(a, true), es2, s);
    RunsOn(Held(prio, a, []), Take(b, true), es3, s);
    RunsOn(Held(prio, a, [b]), Take(c, true), [Release(a)], s);
    RunsOn(Held(prio, a, [b, c]), Release(a), [], s);
    assert [Take(a, true)] + es2 == [Take(a, true), Take(b, true), Take(c, true), Release(a)];
    assert [Take(c, true)] + [Release(a)] == es3 && [Release(a)] + [] == [Release(a)];
    RunsNowhere(s);
  }

  function Held(prio: map<Tid, nat>, owner: Tid, waiters: seq<Tid>): State
    requires owner in prio
  {
    State(Fifo, 0, 1, prio[owner], Some(owner), waiters, prio, 1, prio[owner])
  }

  lemma HeldSteps(prio: map<Tid, nat>, a: Tid, b: Tid, c: Tid)
    requires a in prio && b in prio && c in prio && a != b && prio[a] <= prio[c] < prio[b] && c != a
    ensures Apply(Init(Fifo, prio), Take(a, true)) == Held(prio, a, [])
    ensures Apply(Held(prio, a, []), Take(b, true)) == Held(prio, a, [b])
    ensures Apply(Held(prio, a, [b]), Take(c, true)) == Held(prio, a, [b, c])
    ensures Apply(Held(prio, a, [b, c]), Release(a)) == Held(prio, b, [c])
  {
    hide PrioPlace;
    assert prio[a := prio[a]] == prio;
    assert [b, c][1..] == [c];
  }

  lemma RunsNowhere(s: State)
    ensures Runs(s, [], s)
  {}

  lemma RunsOn(s: State, e: Event, es: seq<Event>, last: State)
    requires Enabled(s, e)
    ensures Runs(s, [e] + es, last) <==> Runs(Apply(s, e), es, last)
  {
    assert ([e] + es)[1..] == es;
  }

  // Outside the mutex nobody's priority changes: only the owner's is ever away from its base.
  ghost predicate BaseKept(s: State, base: map<Tid, nat>) {
    && s.prio.Keys == base.Keys
    && (forall t :: t in base && s.owner != Some(t) ==> s.prio[t] == base[t])
    && (s.owner.Some? && s.owner.value in base ==> s.acquired == base[s.owner.value])
  }

  lemma EventKeepsBase(s: State, e: Event, base: map<Tid, nat>)
    requires Inv(s) && Enabled(s, e) && BaseKept(s, base)
    ensures BaseKept(Apply(s, e), base)
  {
    hide Distinct;
    if GivesAway(s, e) {
      HandOverSafe(s);
      assert s.waiters != [] ==> s.waiters[0] in s.waiters;
    }
  }

  // After any run every thread that does not own the mutex has the priority it started with.
  lemma {:induction false} RunKeepsBase(s: State, es: seq<Event>, last: State, base: map<Tid, nat>)
    requires Inv(s) && BaseKept(s, base) && Runs(s, es, last)
    ensures BaseKept(last, base)
    decreases |es|
  {
    if es != [] {
      EventSafe(s, es[0]);
      EventKeepsBase(s, es[0], base);
      RunKeepsBase(Apply(s, es[0]), es[1..], last, base);
    }
  }

  // ----- what the owner inherits -----

  // A take that blocks leaves the owner the more urgent of its own priority and the taker's, and
  // every other thread its own.
  lemma BlockedTake(s: State, t: Tid)
    requires Inv(s) && Enabled(s, Take(t, true)) && s.owner.Some? && s.owner.value != t
    ensures
      var r, o := Apply(s, Take(t, true)), s.owner.value;
      && t in r.waiters && r.owner == s.owner && r.prio.Keys == s.prio.Keys
      && r.prio[o] <= s.prio[o] && r.prio[o] <= s.prio[t] && r.prio[o] in {s.prio[o], s.prio[t]}
      && forall u :: u in s.prio && u != o ==> r.prio[u] == s.prio[u]
  {
    WaitSafe(s, t);
  }

  // The threads that have blocked since the owner got the mutex, whether or not they still wait:
  // after one event, and after a run
  ghost function Press(s: State, e: Event, blocked: set<Tid>): set<Tid>
    requires Enabled(s, e)
  {
    var r := Apply(s, e);
    if r.owner != s.owner then {} else if e.Take? && e.t in r.waiters then blocked + {e.t} else blocked
  }

  ghost function Pressing(s: State, es: seq<Event>, blocked: set<Tid>): set<Tid>
    decreases |es|
  {
    if es == [] || !Enabled(s, es[0]) then blocked
    else Pressing(Apply(s, es[0]), es[1..], Press(s, es[0], blocked))
  }

  // p is the most urgent of the base priorities of ts.
  ghost predicate MostUrgent(p: nat, ts: set<Tid>, base: map<Tid, nat>) {
    && (forall t :: t in ts ==> t in base && p <= base[t])
    && (exists t :: t in ts && t in base && p == base[t])
  }

  ghost predicate Inherited(s: State, blocked: set<Tid>, base: map<Tid, nat>) {
    s.owner.Some? ==> s.owner.value in s.prio && MostUrgent(s.prio[s.owner.value], blocked + {s.owner.value}, base)
  }

  lemma BlockInherits(s: State, t: Tid, blocked: set<Tid>, base: map<Tid, nat>)
    requires Inv(s) && Enabled(s, Take(t, true)) && s.owner.Some? && s.owner.value != t
    requires BaseKept(s, base) && Inherited(s, blocked, base)
    ensures Inherited(Apply(s, Take(t, true)), blocked + {t}, base)
  {
    hide Inv, Apply;
    var o := s.owner.value;
    BlockedTake(s, t);
    assert s.prio[t] == base[t];
    var b :| b in blocked + {o} && b in base && s.prio[o] == base[b];
    assert b in blocked + {t} + {o} && t in blocked + {t} + {o};
  }

  lemma EventInherits(s: State, e: Event, blocked: set<Tid>, base: map<Tid, nat>)
    requires Inv(s) && Enabled(s, e) && BaseKept(s, base) && Inherited(s, blocked, base)
    ensures Inherited(Apply(s, e), Press(s, e, blocked), base)
  {
    hide Distinct, Enqueue;
    if e.Take? && s.owner.Some? && s.owner.value != e.t && e.wait {
      BlockInherits(s, e.t, blocked, base);
      BlockedTake(s, e.t);
    } else if Apply(s, e).owner != s.owner && Apply(s, e).owner.Some? {
      NewOwner(s, e, base);
      assert Apply(s, e).owner.value in {} + {Apply(s, e).owner.value};
    }
  }

  // Who gets the mutex has its own priority.
  lemma NewOwner(s: State, e: Event, base: map<Tid, nat>)
    requires Inv(s) && Enabled(s, e) && BaseKept(s, base)
    ensures
      var r := Apply(s, e);
      r.owner != s.owner && r.owner.Some? ==>
        var o := r.owner.value; o in base && o in r.prio && r.prio[o] == base[o]
  {
    hide Distinct;
    if GivesAway(s, e) {
      HandOverSafe(s);
      assert s.waiters != [] ==> s.waiters[0] in s.waiters;
    }
  }

  // After any run the owner is exactly as urgent as the most urgent of itself and those that have
  // blocked since it got the mutex, all taken at the priorities they started with.
  lemma InheritedExact(flag: Flag, base: map<Tid, nat>, es: seq<Event>, s: State)
    requires Runs(Init(flag, base), es, s) && s.owner.Some?
    ensures s.owner.value in s.prio
    ensures MostUrgent(s.prio[s.owner.value], Pressing(Init(flag, base), es, {}) + {s.owner.value}, base)
  {
    RunInherits(Init(flag, base), es, s, {}, base);
  }

  // In a priority list the owner is as urgent as the most urgent of itself and its waiters, exactly
  // if for everybody who has given up since it got the mutex one of them is at least as urgent.
  lemma LentExact(base: map<Tid, nat>, es: seq<Event>, s: State)
    requires Runs(Init(Prio, base), es, s) && s.owner.Some?
    ensures s.owner.value in s.prio
    ensures
      var now := {s.owner.value} + set w | w in s.waiters;
      MostUrgent(s.prio[s.owner.value], now, base) <==>
        forall u :: u in Pressing(Init(Prio, base), es, {}) - now ==>
          u in base && exists t :: t in now && t in base && base[t] <= base[u]
  {
    hide Runs, Pressing;
    InheritedExact(Prio, base, es, s);
    NoInversion(Prio, base, es, s);
    RunKeepsBase(Init(Prio, base), es, s, base);
    var pressing, now := Pressing(Init(Prio, base), es, {}), {s.owner.value} + set w | w in s.waiters;
    Outlived(s.prio[s.owner.value], pressing + {s.owner.value}, now, s.owner.value, base);
  }

  lemma Outlived(p: nat, all: set<Tid>, now: set<Tid>, o: Tid, base: map<Tid, nat>)
    requires MostUrgent(p, all, base) && o in now && o in all
    requires forall t :: t in now ==> t in base && p <= base[t]
    ensures
      MostUrgent(p, now, base) <==>
        forall u :: u in all - {o} - now ==> u in base && exists t :: t in now && t in base && base[t] <= base[u]
  {
    var b :| b in all && b in base && p == base[b];
    if b !in now && exists t :: t in now && t in base && base[t] <= base[b] {
      var t :| t in now && t in base && base[t] <= base[b];
      assert base[t] == p;
    }
  }

  // The waiter b gives up, and the owner a stays as urgent as b.
  lemma LentKept(prio: map<Tid, nat>, a: Tid, b: Tid) returns (s: State)
    requires a in prio && b in prio && prio[b] < prio[a]
    ensures Runs(Init(Prio, prio), [Take(a, true), Take(b, true), Timeout(b)], s)
    ensures s.owner == Some(a) && s.waiters == [] && s.prio == prio[a := prio[b]]
  {
    hide Runs, Apply;
    var s1, s2 := Lent(prio, prio[a], a, []), Lent(prio[a := prio[b]], prio[a], a, [b]);
    s := Lent(prio[a := prio[b]], prio[a], a, []);
    LentSteps(prio, a, b);
    RunsOn(Init(Prio, prio), Take(a, true), [Take(b, true), Timeout(b)], s);
    RunsOn(s1, Take(b, true), [Timeout(b)], s);
    RunsOn(s2, Timeout(b), [], s);
    assert [Take(a, true)] + [Take(b, true), Timeout(b)] == [Take(a, true), Take(b, true), Timeout(b)];
    assert [Take(b, true)] + [Timeout(b)] == [Take(b, true), Timeout(b)] && [Timeout(b)] + [] == [Timeout(b)];
    RunsNowhere(s);
  }

  function Lent(prio: map<Tid, nat>, own: nat, owner: Tid, waiters: seq<Tid>): State {
    State(Prio, 0, 1, own, Some(owner), waiters, prio, 1, own)
  }

  lemma LentSteps(prio: map<Tid, nat>, a: Tid, b: Tid)
    requires a in prio && b in prio && prio[b] < prio[a]
    ensures
      var p := prio[a := prio[b]];
      && Apply(Init(Prio, prio), Take(a, true)) == Lent(prio, prio[a], a, [])
      && Apply(Lent(prio, prio[a], a, []), Take(b, true)) == Lent(p, prio[a], a, [b])
      && Apply(Lent(p, prio[a], a, [b]), Timeout(b)) == Lent(p, prio[a], a, [])
  {
    assert Without([b], b) == [];
  }

  lemma {:induction false} RunInherits(s: State, es: seq<Event>, last: State, blocked: set<Tid>, base: map<Tid, nat>)
    requires Inv(s) && BaseKept(s, base) && Inherited(s, blocked, base) && Runs(s, es, last)
    ensures Inherited(last, Pressing(s, es, blocked), base)
    decreases |es|
  {
    if es != [] {
      EventSafe(s, es[0]);
      EventKeepsBase(s, es[0], base);
      EventInherits(s, es[0], blocked, base);
      RunInherits(Apply(s, es[0]), es[1..], last, Press(s, es[0], blocked), base);
    }
  }

  // ----- who waits, and who gets the mutex -----

  // The threads that have blocked and neither got the mutex nor timed out, with the number of the
  // event at which they blocked
  ghost function Asleep(s: State, es: seq<Event>, since: map<Tid, nat>, now: nat): map<Tid, nat>
    decreases |es|
  {
    if es == [] || !Enabled(s, es[0]) then since
    else Asleep(Apply(s, es[0]), es[1..], Sleeps(s, es[0], since, now), now + 1)
  }

  ghost function Sleeps(s: State, e: Event, since: map<Tid, nat>, now: nat): map<Tid, nat>
    requires Enabled(s, e)
  {
    match e
    case Take(t, wait) => if s.owner.Some? && s.owner.value != t && wait then since[t := now] else since
    case Release(_) => if Apply(s, e).owner.Some? then since - {Apply(s, e).owner.value} else since
    case Timeout(t) => since - {t}
  }

  ghost predicate Queued(s: State, since: map<Tid, nat>, now: nat, base: map<Tid, nat>) {
    InTurn(s.waiters, s.flag, ByPrio(base), since, now)
  }

  lemma {:induction false} SamePlace(q: seq<Tid>, t: Tid, f: Tid -> nat, g: Tid -> nat)
    requires f(t) == g(t) && forall w :: w in q ==> f(w) == g(w)
    ensures PrioPlace(q, t, f) == PrioPlace(q, t, g)
  {
    if q != [] {
      assert q[0] in q;
      SamePlace(q[1..], t, f, g);
    }
  }

  lemma BlockQueues(s: State, t: Tid, since: map<Tid, nat>, now: nat, base: map<Tid, nat>)
    requires Inv(s) && Enabled(s, Take(t, true)) && s.owner.Some? && s.owner.value != t
    requires BaseKept(s, base) && Queued(s, since, now, base)
    ensures Queued(Apply(s, Take(t, true)), since[t := now], now + 1, base)
  {
    hide InTurn, PrioPlace, Distinct;
    var f := PrioOf(Inherit(s, t));
    assert Apply(s, Take(t, true)).waiters == Enqueue(s.waiters, t, s.flag, f);
    SamePlace(s.waiters, t, f, ByPrio(base));
    EnqueueInTurn(s.waiters, t, s.flag, ByPrio(base), since, now);
  }

  lemma ReleaseQueues(s: State, t: Tid, since: map<Tid, nat>, now: nat, base: map<Tid, nat>)
    requires Inv(s) && Enabled(s, Release(t)) && Queued(s, since, now, base)
    ensures
      var r := Apply(s, Release(t));
      && Queued(r, Sleeps(s, Release(t), since, now), now + 1, base)
      && (r.owner != s.owner && s.owner.Some? && r.owner.Some? ==>
            r.owner.value in s.waiters &&
            forall u :: u in s.waiters && u != r.owner.value ==> Before(r.owner.value, u, s.flag, ByPrio(base), since))
      && (r.owner.None? && s.owner.Some? ==> s.waiters == [])
  {
    hide InTurn, Before, Inv, HandOver;
    LaterInTurn(s.waiters, s.flag, ByPrio(base), since, now, now + 1);
    if s.owner == Some(t) && (s.hold + 255) % 256 == 0 {
      HandOverSafe(s);
      if s.waiters != [] { TailInTurn(s.waiters, s.flag, ByPrio(base), since, now); }
    } else if s.owner.Some? {
      OwnerAwake(s, since, now, base);
      assert since - {s.owner.value} == since;
    }
  }

  lemma EventQueues(s: State, e: Event, since: map<Tid, nat>, now: nat, base: map<Tid, nat>)
    requires Inv(s) && Enabled(s, e) && BaseKept(s, base) && Queued(s, since, now, base)
    ensures Queued(Apply(s, e), Sleeps(s, e, since, now), now + 1, base)
    ensures
      var r := Apply(s, e);
      r.owner != s.owner && s.owner.Some? && r.owner.Some? ==>
        r.owner.value in s.waiters &&
        forall u :: u in s.waiters && u != r.owner.value ==> Before(r.owner.value, u, s.flag, ByPrio(base), since)
    ensures Apply(s, e).owner.None? && s.owner.Some? ==> s.waiters == []
  {
    hide InTurn, Enqueue, Before;
    LaterInTurn(s.waiters, s.flag, ByPrio(base), since, now, now + 1);
    match e
    case Take(t, wait) =>
      if s.owner.Some? && s.owner.value != t && wait { BlockQueues(s, t, since, now, base); }
    case Release(t) => ReleaseQueues(s, t, since, now, base);
    case Timeout(t) => WithoutInTurn(s.waiters, t, s.flag, ByPrio(base), since, now);
  }

  lemma OwnerAwake(s: State, since: map<Tid, nat>, now: nat, base: map<Tid, nat>)
    requires Inv(s) && s.owner.Some? && Queued(s, since, now, base)
    ensures s.owner.value !in since
  {}

  lemma {:induction false} RunQueues(
    s: State, es: seq<Event>, last: State, since: map<Tid, nat>, now: nat, base: map<Tid, nat>)
    requires Inv(s) && BaseKept(s, base) && Queued(s, since, now, base) && Runs(s, es, last)
    ensures Inv(last) && BaseKept(last, base) && last.flag == s.flag
    ensures Queued(last, Asleep(s, es, since, now), now + |es|, base)
    decreases |es|
  {
    hide Inv, BaseKept, Queued, Apply, Sleeps;
    if es != [] {
      EventSafe(s, es[0]);
      EventKeepsBase(s, es[0], base);
      EventQueues(s, es[0], since, now, base);
      RunQueues(Apply(s, es[0]), es[1..], last, Sleeps(s, es[0], since, now), now + 1, base);
    }
  }

  // In every run those wait who have blocked and neither got the mutex nor timed out; a release
  // that ends an ownership gives the mutex to the most urgent of them, among equals to the one
  // that has waited longest, and frees it exactly if nobody waits.
  lemma HandedInTurn(flag: Flag, base: map<Tid, nat>, es: seq<Event>, s: State, e: Event)
    requires Runs(Init(flag, base), es, s) && Enabled(s, e)
    ensures
      var r, since := Apply(s, e), Asleep(Init(flag, base), es, map[], 0);
      && (forall t :: t in s.waiters <==> t in since)
      && (s.owner.Some? && r.owner.None? ==> since == map[])
      && (s.owner.Some? && r.owner.Some? && r.owner != s.owner ==>
            r.owner.value in since &&
            forall u :: u in since && u != r.owner.value ==> Before(r.owner.value, u, flag, ByPrio(base), since))
  {
    hide Apply, Runs;
    var since := Asleep(Init(flag, base), es, map[], 0);
    RunQueues(Init(flag, base), es, s, map[], 0, base);
    EventQueues(s, e, since, |es|, base);
    assert s.waiters == [] ==> since.Keys == {};
  }

  // A thread that takes a free mutex n times
  function Takes(t: Tid, n: nat): seq<Event> {
    if n == 0 then [] else [Take(t, true)] + Takes(t, n - 1)
  }

  lemma {:induction false} TakesNest(s: State, t: Tid, n: nat) returns (last: State)
    requires Inv(s) && t in s.prio && t !in s.waiters && (s.owner == Some(t) || s.owner == None)
    ensures Runs(s, Takes(t, n), last) && Inv(last) && t in last.prio && t !in last.waiters
    ensures last.depth == s.depth + n && (n > 0 ==> last.owner == Some(t))
    decreases n
  {
    if n == 0 { return s; }
    EventSafe(s, Take(t, true));
    last := TakesNest(Apply(s, Take(t, true)), t, n - 1);
    assert Takes(t, n)[1..] == Takes(t, n - 1);
  }

  // 257 takes by one thread and a single release: the mutex is free while 256 takes are open.
  lemma WrapReached(flag: Flag, prio: map<Tid, nat>, t: Tid) returns (s: State)
    requires t in prio
    ensures Runs(Init(flag, prio), Takes(t, 257), s) && s.owner == Some(t) && s.depth == 257
    ensures Enabled(s, Release(t)) && Apply(s, Release(t)).owner != Some(t)
  {
    s := TakesNest(Init(flag, prio), t, 257);
    ReleaseIsFinal(s, t);
  }

  // ----- the object -----

  datatype Outcome = Ok | Recursive | ETimeout | Suspended | EError

  class Mutex {
    const flag: Flag
    var value: nat
    var hold: nat
    var original: nat
    var owner: Option<Tid>
    var waiters: seq<Tid>
    var prio: map<Tid, nat>
    ghost var depth: nat
    ghost var acquired: nat

    ghost function Abs(): State reads this {
      State(flag, value, hold, original, owner, waiters, prio, depth, acquired)
    }

    ghost predicate Valid() reads this { Inv(Abs()) }

    // rt_mutex_init
    constructor (flag: Flag, prio: map<Tid, nat>)
      ensures Valid() && Abs() == Init(flag, prio)
    {
      value, hold, original, owner, waiters := 1, 0, 255, None, [];
      this.flag, this.prio := flag, prio;
      depth, acquired := 0, 0;
    }

    lemma OwnerKnown()
      requires Valid()
      ensures value == (if owner.None? then 1 else 0) && (owner.Some? ==> owner.value in prio)
      ensures owner.None? ==> waiters == [] && depth == 0
    {}

    // rt_mutex_take up to its first return or suspension. A suspended taker owns the mutex when
    // it is resumed without an error.
    method TakeMutex(t: Tid, wait: bool) returns (r: Outcome)
      requires Valid() && Enabled(Abs(), Take(t, wait))
      modifies this
      ensures Valid() && Abs() == Apply(old(Abs()), Take(t, wait))
      ensures r == if old(owner) == Some(t) then Recursive else if old(owner) == None then Ok
                   else if wait then Suspended else ETimeout
    {
      hide Inv;
      EventSafe(Abs(), Take(t, wait));
      OwnerKnown();
      if owner == Some(t) {
        hold, depth := (hold + 1) % 256, depth + 1;
        return Recursive;
      }
      if value > 0 {
        value := value - 1;
        owner, original := Some(t), prio[t];
        hold := (hold + 1) % 256;
        depth, acquired := 1, prio[t];
        return Ok;
      }
      if !wait { return ETimeout; }
      if prio[t] < prio[owner.value] { prio := prio[owner.value := prio[t]]; }
      waiters := ListSuspend(waiters, t, flag, ByPrio(prio));
      r := Suspended;
    }

    // The part of rt_mutex_release for the last hold
    method GiveAway()
      requires owner.Some? && owner.value in prio && hold == 0
      requires waiters != [] ==> waiters[0] in prio
      modifies this
      ensures Abs() == HandOver(old(Abs()))
    {
      if original != prio[owner.value] { prio := prio[owner.value := original]; }
      assert prio == old(prio)[owner.value := original];
      if waiters != [] {
        var w := waiters[0];
        owner, original, hold := Some(w), prio[w], hold + 1;
        waiters := waiters[1..];
        depth, acquired := 1, prio[w];
      } else {
        value, owner, original := value + 1, None, 255;
        depth := 0;
      }
    }

    // rt_mutex_release called by the owner
    method DropHold()
      requires owner.Some? && owner.value in prio && owner.value !in waiters && hold < 256
      requires waiters != [] ==> waiters[0] in prio
      modifies this
      ensures Abs() == Apply(old(Abs()), Release(old(owner.value)))
    {
      hold := (hold + 255) % 256;
      if hold == 0 {
        GiveAway();
      } else {
        depth := if depth > 0 then depth - 1 else 0;
      }
    }

    // rt_mutex_release
    method ReleaseMutex(t: Tid) returns (r: Outcome)
      requires Valid() && Enabled(Abs(), Release(t))
      modifies this
      ensures Valid() && Abs() == Apply(old(Abs()), Release(t))
      ensures r == if old(owner) == Some(t) then Ok else EError
    {
      EventSafe(Abs(), Release(t));
      if owner != Some(t) { return EError; }
      assert waiters != [] ==> waiters[0] in Abs().waiters;
      DropHold();
      r := Ok;
    }

    // rt_thread_timeout of a waiter: its rt_mutex_take returns an error
    method Expire(t: Tid) returns (r: Outcome)
      requires Valid() && Enabled(Abs(), Timeout(t))
      modifies this`waiters
      ensures Valid() && Abs() == Apply(old(Abs()), Timeout(t)) && r == ETimeout
    {
      EventSafe(Abs(), Timeout(t));
      waiters := Without(waiters, t);
      r := ETimeout;
    }
  }
}

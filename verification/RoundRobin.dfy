// Time slices (src/clock.c, rt_tick_increase; src/scheduler.c, rt_schedule): threads of the
// top priority take turns.
module RoundRobin {
  import opened Options
  import opened IpcList
  import opened Lists
  import opened FirstBit
  import opened Scheduler

  predicate Sliced(s: State, u: Tid)
    requires u in s.threads
  {
    s.threads[u].remaining > 0 && s.threads[u].initTick > 0
  }

  // The running thread, or the one that has just suspended itself, does not outrank t.
  predicate Yields(s: State, t: Tid)
    requires t in s.threads && s.current.Some? && s.current.value in s.threads
  {
    IsRunning(s, s.current.value) ==> s.threads[s.current.value].prio >= s.threads[t].prio
  }

  // t is ready, nothing is more urgent, the scheduler is unlocked and all slices are positive.
  ghost predicate Waiting(s: State, t: Tid) {
    && Inv(s) && s.current.Some? && s.lockNest == 0
    && t in s.threads && s.threads[t].stat == Ready && Yields(s, t)
    && (forall p :: 0 <= p < s.threads[t].prio ==> s.table[p] == [])
    && (forall u :: u in s.threads ==> Sliced(s, u))
  }

  function Queue(s: State, t: Tid): seq<Tid>
    requires Known(s, t)
  {
    s.table[s.threads[t].prio]
  }

  function Position(q: seq<Tid>, t: Tid): (k: nat)
    requires t in q
    ensures k < |q| && q[k] == t && t !in q[..k]
  {
    if q[0] == t then 0 else 1 + Position(q[1..], t)
  }

  // The ticks left to the threads of q
  function Slices(s: State, q: seq<Tid>): nat {
    if q == [] then 0 else (if q[0] in s.threads then s.threads[q[0]].remaining else 0) + Slices(s, q[1..])
  }

  // The number of threads ahead of t
  ghost function Place(s: State, t: Tid): nat
    requires Waiting(s, t)
  {
    Position(Queue(s, t), t)
  }

  ghost function Ahead(s: State, t: Tid): seq<Tid>
    requires Waiting(s, t)
  {
    Queue(s, t)[..Place(s, t)]
  }

  // The ticks left to the thread on the processor and to those ahead of t
  ghost function Wait(s: State, t: Tid): nat
    requires Waiting(s, t)
  {
    s.threads[s.current.value].remaining + Slices(s, Ahead(s, t))
  }

  // Priorities and slices are those of s.
  predicate SameSlices(s: State, r: State) {
    && r.threads.Keys == s.threads.Keys
    && forall u :: u in s.threads ==> r.threads[u].(stat := s.threads[u].stat) == s.threads[u]
  }

  lemma SlicesSame(s: State, r: State, q: seq<Tid>)
    requires SameSlices(s, r)
    ensures Slices(r, q) == Slices(s, q)
  {
    if q != [] { SlicesSame(s, r, q[1..]); }
  }

  lemma PositionUnique(q: seq<Tid>, t: Tid, k: nat)
    requires k < |q| && q[k] == t && t !in q[..k]
    ensures t in q && Position(q, t) == k
  {
    if k > 0 {
      assert q[0] in q[..k];
      assert q[1..][..k - 1] == q[..k][1..];
      PositionUnique(q[1..], t, k - 1);
    }
  }

  // What stands ahead of t, if the queue of its priority begins with it
  lemma AheadIs(s: State, t: Tid, ahead: seq<Tid>)
    requires Waiting(s, t) && |ahead| < |Queue(s, t)| && t !in ahead
    requires Queue(s, t)[..|ahead|] == ahead && Queue(s, t)[|ahead|] == t
    ensures Place(s, t) == |ahead| && Ahead(s, t) == ahead
  {
    PositionUnique(Queue(s, t), t, |ahead|);
  }

  // ----- rt_schedule -----

  // The processor goes to u, and a running thread into its queue.
  function QueuedUp(s: State, u: Tid): State
    requires s.current.Some? && Known(s, s.current.value)
  {
    var s1 := s.(current := Some(u));
    if IsRunning(s, s.current.value) then Insert(s1, s.current.value) else s1
  }

  lemma ScheduleIs(s: State, t: Tid)
    requires Waiting(s, t)
    ensures Known(s, t) && Queue(s, t) != [] && Known(s, s.current.value)
    ensures
      var u := Queue(s, t)[0];
      Known(QueuedUp(s, u), u) && Schedule(s) == SetStat(Remove(QueuedUp(s, u), u), u, Running)
  {
    hide Inv, Slices;
    Own(s, t);
  }

  // The head of t's queue gets the processor; the running thread goes behind its equals.
  lemma ScheduleRotates(s: State, t: Tid)
    requires Waiting(s, t)
    ensures
      var c, q, r, p := s.current.value, Queue(s, t), Schedule(s), s.threads[t].prio;
      && q != [] && r.current == Some(q[0]) && r.lockNest == 0
      && |r.table| == |s.table| && r.table[p] == q[1..] + Behind(s, p) && forall i :: 0 <= i < p ==> r.table[i] == []
  {
    hide Inv, Slices, Schedule;
    Own(s, t);
    ScheduleIs(s, t);
    var q, p := Queue(s, t), s.threads[t].prio;
    assert QueuedUp(s, q[0]).table[p] == q + Behind(s, p);
    if Behind(s, p) != [] { AppendDistinct(q, s.current.value); }
    WithoutHead(q + Behind(s, p));
    assert (q + Behind(s, p))[1..] == q[1..] + Behind(s, p);
  }

  // What a switch puts at the end of the queue of priority p
  function Behind(s: State, p: nat): seq<Tid>
    requires s.current.Some? && Known(s, s.current.value)
  {
    var c := s.current.value;
    if IsRunning(s, c) && s.threads[c].prio == p then [c] else []
  }

  // It changes no priority and no slice, and only its threads' states.
  lemma ScheduleKeeps(s: State, t: Tid)
    requires Waiting(s, t)
    ensures Known(s, t) && Queue(s, t) != [] && SameSlices(s, Schedule(s))
    ensures
      forall u :: u in s.threads && u != Queue(s, t)[0] && s.threads[u].stat == Ready ==>
                    Schedule(s).threads[u].stat == Ready
  {
    hide Inv, Slices, Schedule;
    ScheduleIs(s, t);
  }

  lemma Own(s: State, t: Tid)
    requires Waiting(s, t)
    ensures Known(s, t) && t in Queue(s, t) && Known(s, s.current.value) && Known(s, Queue(s, t)[0])
    ensures ReadyPrios(s) != {} && Least(ReadyPrios(s)) == s.threads[t].prio && Top(s) == Queue(s, t)[0]
    ensures var c, q := s.current.value, Queue(s, t);
            c !in q && Distinct(q) && Chosen(s) == q[0] && s.threads[q[0]].prio == s.threads[t].prio
  {
    var q := Queue(s, t);
    assert t in q && s.threads[t].prio in ReadyPrios(s);
    assert q[0] in s.table[s.threads[t].prio];
  }

  lemma SwitchWaits(s: State, t: Tid)
    requires Waiting(s, t) && Queue(s, t) != [] && Queue(s, t)[0] != t
    ensures Waiting(Schedule(s), t)
  {
    hide Schedule, QueuesOk;
    Own(s, t);
    ScheduleRotates(s, t);
    ScheduleKeeps(s, t);
    ScheduleSafe(s);
  }

  // A switch: either t runs, or it has moved one place forward.
  lemma SwitchTurn(s: State, t: Tid)
    requires Waiting(s, t)
    ensures Place(s, t) == 0 ==> Schedule(s).current == Some(t)
    ensures Place(s, t) > 0 ==> Waiting(Schedule(s), t) && Place(Schedule(s), t) == Place(s, t) - 1
    ensures Place(s, t) > 0 ==> Wait(Schedule(s), t) == Wait(s, t) - s.threads[s.current.value].remaining
  {
    var r, q, ahead := Schedule(s), Queue(s, t), Ahead(s, t);
    hide Schedule, Position, Inv;
    ScheduleRotates(s, t);
    ScheduleKeeps(s, t);
    if Place(s, t) > 0 {
      Own(s, t);
      assert q[0] == ahead[0] && q[0] != t;
      assert ahead == [q[0]] + ahead[1..];
      SwitchWaits(s, t);
      AheadIs(r, t, ahead[1..]);
      SlicesSame(s, r, ahead[1..]);
    }
  }

  // ----- the calls -----

  lemma ChargeKeeps(s: State, t: Tid)
    requires Waiting(s, t)
    ensures Enabled(s, Tick) && Waiting(Charge(s), t) && Place(Charge(s), t) == Place(s, t)
    ensures s.threads[s.current.value].remaining > 1 ==> Wait(Charge(s), t) == Wait(s, t) - 1
    ensures Slices(Charge(s), Ahead(s, t)) == Slices(s, Ahead(s, t))
  {
    hide QueuesOk, Position, Slices;
    ChargeSafe(s);
    Own(s, t);
    assert forall u :: u in Ahead(s, t) ==> u in Queue(s, t);
    AheadIs(Charge(s), t, Ahead(s, t));
    SlicesElsewhere(s, Charge(s), Ahead(s, t));
  }

  lemma SlicesElsewhere(s: State, r: State, q: seq<Tid>)
    requires r.threads.Keys == s.threads.Keys
    requires forall u :: u in q && u in s.threads ==> r.threads[u].remaining == s.threads[u].remaining
    ensures Slices(r, q) == Slices(s, q)
  {
    if q != [] {
      assert q[0] in q;
      SlicesElsewhere(s, r, q[1..]);
    }
  }

  // A thread that becomes ready queues up behind t, unless it is the one on the processor.
  lemma ResumeWaits(s: State, t: Tid, u: Tid)
    requires Waiting(s, t) && u in s.threads && s.threads[u].prio >= s.threads[t].prio
    requires s.threads[u].stat == Suspended
    ensures Known(s, u) && Waiting(Insert(s, u), t)
  {
    hide QueuesOk;
    ResumeSafe(s, u);
  }

  lemma ResumeTurn(s: State, t: Tid, u: Tid)
    requires Waiting(s, t) && u in s.threads && s.threads[u].prio >= s.threads[t].prio
    ensures var r := DoResume(s, u); Waiting(r, t) && Place(r, t) == Place(s, t) && Wait(r, t) == Wait(s, t)
  {
    hide Position, Slices, QueuesOk;
    if s.threads[u].stat == Suspended {
      var r, q := Insert(s, u), Queue(s, t);
      ResumeSafe(s, u);
      Own(s, t);
      assert Queue(r, t) == q || Queue(r, t) == q + [u];
      ResumeWaits(s, t, u);
      AheadIs(r, t, Ahead(s, t));
      SlicesSame(s, r, Ahead(s, t));
    }
  }

  lemma StartupWaits(s: State, t: Tid, u: Tid)
    requires Waiting(s, t) && u in s.threads && s.threads[u].stat == Init
    ensures
      var th := s.threads[u];
      Waiting(s.(threads := s.threads[u := th.(prio := th.initPrio, stat := Suspended)]), t)
  {}

  lemma StartupEvent(s: State, t: Tid, u: Tid)
    requires Waiting(s, t) && Calm(s, t, Startup(u))
    ensures
      var r := Apply(s, Startup(u));
      r.current == Some(t) ||
      (&& Waiting(r, t)
       && Place(r, t) <= Place(s, t) - (if Switches(s, Startup(u)) then 1 else 0) && Wait(r, t) <= Wait(s, t))
  {
    hide QueuesOk, Schedule, Insert, Remove, Place, Wait, DoResume;
    StartupTurn(s, t, u);
    var th := s.threads[u];
    var s1 := s.(threads := s.threads[u := th.(prio := th.initPrio, stat := Suspended)]);
    ResumeTurn(s1, t, u);
    SwitchTurn(DoResume(s1, u), t);
  }

  lemma StartupTurn(s: State, t: Tid, u: Tid)
    requires Waiting(s, t) && u in s.threads && s.threads[u].stat == Init && s.threads[u].initPrio >= s.threads[t].prio
    ensures
      var th := s.threads[u];
      var r := s.(threads := s.threads[u := th.(prio := th.initPrio, stat := Suspended)]);
      && u in r.threads && r.threads[u].prio >= r.threads[t].prio
      && Waiting(r, t) && Place(r, t) == Place(s, t) && Wait(r, t) == Wait(s, t)
  {
    hide Position, Slices;
    var th := s.threads[u];
    var r := s.(threads := s.threads[u := th.(prio := th.initPrio, stat := Suspended)]);
    StartupWaits(s, t, u);
    AheadIs(r, t, Ahead(s, t));
    SlicesElsewhere(s, r, Ahead(s, t));
  }

  // A thread ahead of t that is suspended makes room.
  lemma SuspendTurn(s: State, t: Tid, u: Tid)
    requires Waiting(s, t) && u in s.threads && u != t
    ensures
      var r := DoSuspend(s, u);
      Waiting(r, t) &&
      if u in Ahead(s, t) then Place(r, t) == Place(s, t) - 1 && Wait(r, t) == Wait(s, t) - s.threads[u].remaining
      else Place(r, t) == Place(s, t) && Wait(r, t) == Wait(s, t)
  {
    hide Position, Slices;
    SuspendSafe(s, u);
    if s.threads[u].stat in {Ready, Running} {
      var r, ahead := DoSuspend(s, u), Ahead(s, t);
      SuspendQueue(s, t, u);
      SuspendWaits(s, t, u);
      AheadIs(r, t, Without(ahead, u));
      SlicesSame(s, r, Without(ahead, u));
      SlicesWithout(s, ahead, u);
    } else {
      assert u !in Ahead(s, t) by { NotReadyNotAhead(s, t, u); }
    }
  }

  lemma NotReadyNotAhead(s: State, t: Tid, u: Tid)
    requires Waiting(s, t) && u in s.threads && s.threads[u].stat != Ready
    ensures u !in Queue(s, t) && u !in Ahead(s, t)
  {}

  lemma SuspendWaits(s: State, t: Tid, u: Tid)
    requires Waiting(s, t) && u in s.threads && u != t && s.threads[u].stat in {Ready, Running}
    ensures Waiting(DoSuspend(s, u), t) && SameSlices(s, DoSuspend(s, u))
  {
    hide Position, Slices, QueuesOk;
    SuspendSafe(s, u);
  }

  lemma SuspendQueue(s: State, t: Tid, u: Tid)
    requires Waiting(s, t) && u in s.threads && u != t && s.threads[u].stat in {Ready, Running}
    ensures
      var q, ahead := Queue(DoSuspend(s, u), t), Without(Ahead(s, t), u);
      Distinct(Ahead(s, t)) && t !in ahead && |ahead| < |q| && q[..|ahead|] == ahead && q[|ahead|] == t
  {
    hide Slices, Position, QueuesOk;
    Own(s, t);
    var q, ahead := Queue(s, t), Ahead(s, t);
    assert q == ahead + [t] + q[|ahead| + 1..];
    DistinctAhead(q, |ahead|);
    if s.threads[u].prio == s.threads[t].prio {
      WithoutParts(ahead, t, q[|ahead| + 1..], u);
    } else {
      OtherQueue(s, t, u);
      WithoutAbsent(ahead, u);
    }
  }

  lemma OtherQueue(s: State, t: Tid, u: Tid)
    requires Waiting(s, t) && u in s.threads && s.threads[u].prio != s.threads[t].prio
    ensures u !in Queue(s, t) && u !in Ahead(s, t)
  {}

  lemma DistinctAhead(q: seq<Tid>, k: nat)
    requires Distinct(q) && k <= |q|
    ensures Distinct(q[..k])
  {}

  lemma {:induction false} WithoutParts(a: seq<Tid>, t: Tid, b: seq<Tid>, u: Tid)
    requires u != t
    ensures Without(a + [t] + b, u) == Without(a, u) + [t] + Without(b, u)
  {
    var list := a + [t] + b;
    if a == [] {
      assert list[1..] == b;
    } else {
      assert list[1..] == a[1..] + [t] + b;
      WithoutParts(a[1..], t, b, u);
    }
  }

  lemma {:induction false} SlicesWithout(s: State, q: seq<Tid>, u: Tid)
    requires Distinct(q) && u in s.threads
    ensures Slices(s, Without(q, u)) == Slices(s, q) - (if u in q then s.threads[u].remaining else 0)
    ensures |Without(q, u)| == |q| - (if u in q then 1 else 0)
  {
    if q != [] {
      DistinctTail(q);
      SlicesWithout(s, q[1..], u);
      assert u in q <==> u == q[0] || u in q[1..];
    }
  }

  // ----- runs -----

  // Whatever happens but: a thread more urgent than t becomes ready, a priority changes, the
  // scheduler is locked, or t is suspended.
  ghost predicate Calm(s: State, t: Tid, e: Event)
    requires t in s.threads
  {
    && Inv(s) && Enabled(s, e)
    && match e
       case Startup(u) => s.threads[u].initPrio >= s.threads[t].prio
       case Resume(u) => s.threads[u].prio >= s.threads[t].prio
       case Timeout(u) => s.threads[u].prio >= s.threads[t].prio
       case Suspend(u) => u != t
       case ChangePrio(_, _) => false
       case EnterCritical => false
       case _ => true
  }

  // One call brings t closer to the processor: one tick closer by each tick, one place by each
  // switch, and further away by none.
  lemma EventTurn(s: State, t: Tid, e: Event)
    requires Waiting(s, t) && Calm(s, t, e)
    ensures
      var r := Apply(s, e);
      r.current == Some(t) ||
      (&& Waiting(r, t)
       && Place(r, t) <= Place(s, t) - (if Switches(s, e) then 1 else 0)
       && Wait(r, t) <= Wait(s, t) - (if e.Tick? then 1 else 0))
  {
    hide QueuesOk, Schedule, Insert, Remove, Place, Wait, DoSuspend, DoResume;
    match e
    case Startup(u) => StartupEvent(s, t, u);
    case Suspend(u) => SuspendTurn(s, t, u);
    case Resume(u) => ResumeTurn(s, t, u);
    case Timeout(u) =>
      ResumeTurn(s, t, u);
      ResumeIsInsert(s, u);
      SwitchTurn(DoResume(s, u), t);
    case Yield => SwitchTurn(s, t);
    case Exit => ExitTurn(s, t);
    case ExitCritical =>
      assert s.(lockNest := 0) == s;
      SwitchTurn(s, t);
    case Tick => TickTurn(s, t);
  }

  lemma TickTurn(s: State, t: Tid)
    requires Waiting(s, t)
    ensures
      var r := Apply(s, Tick);
      r.current == Some(t) ||
      (&& Waiting(r, t)
       && Place(r, t) <= Place(s, t) - (if Switches(s, Tick) then 1 else 0) && Wait(r, t) <= Wait(s, t) - 1)
  {
    hide QueuesOk, Schedule, Position, Slices;
    ChargeKeeps(s, t);
    if s.threads[s.current.value].remaining == 1 { SwitchTurn(Charge(s), t); }
  }

  lemma ResumeIsInsert(s: State, u: Tid)
    requires Known(s, u) && s.threads[u].stat == Suspended
    ensures DoResume(s, u) == Insert(s, u)
  {}

  lemma ExitTurn(s: State, t: Tid)
    requires Waiting(s, t)
    ensures Known(s, s.current.value) && Inv(SetStat(Remove(s, s.current.value), s.current.value, Closed))
    ensures
      var r := Schedule(SetStat(Remove(s, s.current.value), s.current.value, Closed));
      r.current == Some(t) || (Waiting(r, t) && Place(r, t) <= Place(s, t) - 1 && Wait(r, t) <= Wait(s, t))
  {
    hide Schedule, Position, Slices, QueuesOk;
    ExitSafe(s);
    CurrentQueued(s);
    var c := s.current.value;
    var r := SetStat(Remove(s, c), c, Closed);
    RemoveAbsent(s, c);
    assert Waiting(r, t);
    AheadIs(r, t, Ahead(s, t));
    SlicesSame(s, r, Ahead(s, t));
    SwitchTurn(r, t);
  }

  lemma CurrentQueued(s: State)
    requires Inv(s) && s.current.Some?
    ensures Known(s, s.current.value) && s.current.value !in s.table[s.threads[s.current.value].prio]
  {}

  // The calls of the run are calm until t gets the processor.
  ghost predicate CalmUntil(s: State, es: seq<Event>, t: Tid)
    decreases |es|
  {
    es == [] || s.current == Some(t) || (t in s.threads && Calm(s, t, es[0]) && CalmUntil(Apply(s, es[0]), es[1..], t))
  }

  // t is on the processor at some point of the run.
  ghost predicate Reaches(s: State, es: seq<Event>, t: Tid)
    decreases |es|
  {
    s.current == Some(t) || (es != [] && Inv(s) && Enabled(s, es[0]) && Reaches(Apply(s, es[0]), es[1..], t))
  }

  ghost function SwitchCount(s: State, es: seq<Event>): nat
    decreases |es|
  {
    if es == [] || !Inv(s) || !Enabled(s, es[0]) then 0
    else (if Switches(s, es[0]) then 1 else 0) + SwitchCount(Apply(s, es[0]), es[1..])
  }

  // A ready thread of the top priority gets the processor within as many ticks as the running
  // thread and those ahead of it have left, and within one switch more than there are threads
  // ahead of it, whoever blocks, exits, yields, is suspended or arrives in between.
  lemma {:induction false} GetsItsTurn(s: State, es: seq<Event>, t: Tid)
    requires Waiting(s, t) && CalmUntil(s, es, t)
    requires Ticks(es) >= Wait(s, t) || SwitchCount(s, es) >= Place(s, t) + 1
    ensures Reaches(s, es, t)
    decreases |es|
  {
    assert Wait(s, t) > 0;
    assert s.current != Some(t);
    var r := Apply(s, es[0]);
    EventTurn(s, t, es[0]);
    if r.current != Some(t) { GetsItsTurn(r, es[1..], t); }
  }
}

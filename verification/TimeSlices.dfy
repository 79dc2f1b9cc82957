// What each scheduler call does to the threads, and how long a thread keeps the processor
// (src/clock.c, src/scheduler.c, src/thread.c).
module TimeSlices {
  import opened Options
  import opened IpcList
  import opened Lists
  import opened FirstBit
  import opened Scheduler

  // ----- the threads -----

  predicate Able(th: Thread) { th.stat.Ready? || th.stat.Running? }

  // Priorities and slices are as before, and the same threads can run.
  predicate SameThreads(s: State, r: State) {
    && r.threads.Keys == s.threads.Keys && |r.table| == |s.table|
    && forall u :: u in s.threads ==>
        && r.threads[u].(stat := s.threads[u].stat) == s.threads[u]
        && (if Able(s.threads[u]) then Able(r.threads[u]) else r.threads[u] == s.threads[u])
  }

  lemma SwitchThreads(s: State, to: Tid)
    requires s.current.Some? && Known(s, s.current.value) && Known(s, to) && Able(s.threads[to])
    ensures SameThreads(s, SwitchTo(s, to)) && SwitchTo(s, to).lockNest == s.lockNest
  {}

  lemma ScheduleThreads(s: State)
    requires Inv(s) && s.current.Some?
    ensures SameThreads(s, Schedule(s)) && Schedule(s).lockNest == s.lockNest
  {
    hide QueuesOk, SwitchTo, SameThreads;
    if s.lockNest == 0 && ReadyPrios(s) != {} {
      TopIsReady(s);
      SwitchThreads(s, Chosen(s));
    } else {
      NoChange(s);
    }
  }

  lemma NoChange(s: State)
    ensures SameThreads(s, s)
  {}

  // What a call does to one thread, its place among those that can run aside: only a start and a
  // change of priority set a priority, only a tick charges a slice, the running one's, and what
  // has been used up is filled up to the full slice.
  function After(s: State, e: Event, u: Tid): Thread
    requires u in s.threads
  {
    var th := s.threads[u];
    match e
    case Startup(t) => if u == t then th.(prio := th.initPrio, stat := Ready) else th
    case Suspend(t) => if u == t && Able(th) then th.(stat := Suspended) else th
    case Resume(t) => if u == t && th.stat.Suspended? then th.(stat := Ready) else th
    case Timeout(t) => if u == t then th.(stat := Ready) else th
    case ChangePrio(t, prio) => if u == t then th.(prio := prio) else th
    case Exit => if Some(u) == s.current then th.(stat := Closed) else th
    case Tick =>
      if Some(u) != s.current then th
      else if th.remaining > 1 then th.(remaining := th.remaining - 1)
      else th.(remaining := th.initTick)
    case _ => th
  }

  predicate Like(a: Thread, b: Thread) {
    if Able(a) then Able(b) && a.(stat := b.stat) == b else a == b
  }

  ghost predicate Does(s: State, e: Event)
    requires Inv(s) && Enabled(s, e)
  {
    var r := Apply(s, e);
    && r.threads.Keys == s.threads.Keys && |r.table| == |s.table|
    && r.lockNest == (if e.EnterCritical? then s.lockNest + 1
                      else if e.ExitCritical? && s.lockNest > 0 then s.lockNest - 1
                      else s.lockNest)
    && forall u :: u in s.threads ==> Like(After(s, e, u), r.threads[u])
  }

  // ----- the calls in two parts: what they change, and the switch -----

  function Changed(s: State, e: Event): State
    requires Inv(s) && Enabled(s, e)
  {
    match e
    case Startup(t) =>
      var th := s.threads[t];
      DoResume(s.(threads := s.threads[t := th.(prio := th.initPrio, stat := Suspended)]), t)
    case Suspend(t) => DoSuspend(s, t)
    case Resume(t) => DoResume(s, t)
    case Timeout(t) => Insert(s, t)
    case ChangePrio(t, prio) => DoChangePrio(s, t, prio)
    case Yield => s
    case Exit => SetStat(Remove(s, s.current.value), s.current.value, Closed)
    case EnterCritical => s.(lockNest := s.lockNest + 1)
    case ExitCritical => s.(lockNest := if s.lockNest <= 1 then 0 else s.lockNest - 1)
    case Tick => Charge(s)
  }

  lemma InTwoParts(s: State, e: Event)
    requires Inv(s) && Enabled(s, e)
    ensures
      var s1 := Changed(s, e);
      && Inv(s1) && s1.current == s.current && |s1.table| == |s.table|
      && Apply(s, e) == if Switches(s, e) then Schedule(s1) else s1
  {
    hide QueuesOk, Schedule, Insert, Remove, SetStat, DoSuspend, DoChangePrio, TopRuns, ReadyPrios;
    SameTable(s, e);
    match e
    case Startup(t) => StartupSafe(s, t);
    case Suspend(t) => SuspendSafe(s, t);
    case Resume(t) => ResumeSafe(s, t);
    case Timeout(t) => TimeoutSafe(s, t); ResumeSafe(s, t); ResumeIs(s, t);
    case ChangePrio(t, prio) => ChangePrioSafe(s, t, prio);
    case Yield =>
    case Exit => LeaveSafe(s); ExitCurrent(s);
    case EnterCritical => NestSafe(s, s.lockNest + 1);
    case ExitCritical => NestSafe(s, if s.lockNest <= 1 then 0 else s.lockNest - 1);
    case Tick => ChargeSafe(s);
  }

  lemma SameTable(s: State, e: Event)
    requires Inv(s) && Enabled(s, e)
    ensures |Changed(s, e).table| == |s.table|
  {}

  lemma ResumeIs(s: State, t: Tid)
    requires Known(s, t) && s.threads[t].stat == Suspended
    ensures DoResume(s, t) == Insert(s, t)
  {}

  lemma ExitCurrent(s: State)
    requires s.current.Some? && Known(s, s.current.value)
    ensures SetStat(Remove(s, s.current.value), s.current.value, Closed).current == s.current
  {}

  lemma ChangedDoes(s: State, e: Event)
    requires Inv(s) && Enabled(s, e)
    ensures
      var r := Changed(s, e);
      && r.threads.Keys == s.threads.Keys
      && r.lockNest == (if e.EnterCritical? then s.lockNest + 1
                        else if e.ExitCritical? && s.lockNest > 0 then s.lockNest - 1
                        else s.lockNest)
      && forall u :: u in s.threads ==> Like(After(s, e, u), r.threads[u])
  {
    hide QueuesOk, Without;
  }

  // Each call does to each thread what it should, through all queues and switches.
  lemma EventDoes(s: State, e: Event)
    requires Inv(s) && Enabled(s, e)
    ensures Does(s, e)
  {
    hide Inv, Schedule, Changed, Enabled;
    InTwoParts(s, e);
    ChangedDoes(s, e);
    CurrentSome(s, e);
    if Switches(s, e) { ScheduleThreads(Changed(s, e)); }
  }

  lemma CurrentSome(s: State, e: Event)
    requires Inv(s) && Enabled(s, e)
    ensures s.current.Some? && s.current.value in s.threads
  {}

  // ----- who keeps the processor -----

  // The scheduler is not locked when the call reschedules.
  predicate Unlocked(s: State, e: Event) { s.lockNest == 0 || (e.ExitCritical? && s.lockNest == 1) }

  // Another thread is ready, with the call done, and the running one, if it can still run, is no
  // more urgent.
  predicate Rival(s: State, e: Event, u: Tid)
    requires s.current.Some? && s.current.value in s.threads
  {
    var c := s.current.value;
    && u in s.threads && u != c && After(s, e, u).stat.Ready?
    && (Able(After(s, e, c)) ==> After(s, e, u).prio <= After(s, e, c).prio)
  }

  lemma ScheduleKeeps(s: State)
    requires Inv(s) && s.current.Some?
    ensures
      var c := s.current.value;
      c in s.threads &&
      (Schedule(s).current != s.current <==>
        s.lockNest == 0 &&
        exists u :: u in s.threads && s.threads[u].stat.Ready? &&
          (s.threads[c].stat.Running? ==> s.threads[u].prio <= s.threads[c].prio))
    ensures Schedule(s).current != s.current ==> ReadyPrios(s) != {} && Schedule(s).current == Some(Top(s))
  {
    hide QueuesOk;
    if s.lockNest == 0 && ReadyPrios(s) != {} {
      TopIsReady(s);
      SwitchSafe(s, Chosen(s));
      var c, u := s.current.value, Top(s);
      assert u in s.threads && s.threads[u].stat.Ready? && s.threads[c].stat != Ready;
    } else if s.lockNest == 0 {
      NoneReady(s);
    }
  }

  lemma ChangedStat(s: State, e: Event, u: Tid)
    requires Inv(s) && Enabled(s, e) && u in s.threads
    ensures
      var r := Changed(s, e);
      && u in r.threads && r.threads[u].prio == After(s, e, u).prio
      && (Some(u) != s.current ==> (r.threads[u].stat.Ready? <==> After(s, e, u).stat.Ready?))
      && (Some(u) == s.current ==> (r.threads[u].stat.Running? <==> Able(After(s, e, u))))
      && (Some(u) == s.current ==> !r.threads[u].stat.Ready?)
  {
    hide QueuesOk, Without;
  }

  // The running thread loses the processor exactly if the call reschedules, the scheduler is not
  // locked and a rival is ready: at the end of its slice, or before.
  lemma KeepsExact(s: State, e: Event)
    requires Inv(s) && Enabled(s, e)
    ensures Apply(s, e).current != s.current <==> Switches(s, e) && Unlocked(s, e) && exists u :: Rival(s, e, u)
  {
    hide Inv, Schedule, Enabled;
    InTwoParts(s, e);
    CurrentSome(s, e);
    ChangedDoes(s, e);
    var s1, c := Changed(s, e), s.current.value;
    forall u | u in s.threads ensures Rival(s, e, u) <==>
      s1.threads[u].stat.Ready? && (s1.threads[c].stat.Running? ==> s1.threads[u].prio <= s1.threads[c].prio)
    {
      ChangedStat(s, e, u);
      ChangedStat(s, e, c);
    }
    hide Changed, Rival;
    if Switches(s, e) {
      ScheduleKeeps(s1);
      assert s1.lockNest == 0 <==> Unlocked(s, e);
    }
  }

  // ----- runs -----

  // The ticks that find t on the processor
  ghost function OwnTicks(s: State, es: seq<Event>, t: Tid): nat
    decreases |es|
  {
    if es == [] || !Inv(s) || !Enabled(s, es[0]) then 0
    else (if es[0].Tick? && s.current == Some(t) then 1 else 0) + OwnTicks(Apply(s, es[0]), es[1..], t)
  }

  // What k ticks leave of a slice of n ticks of which left were left
  function Left(n: nat, left: nat, k: nat): int
    requires n > 0
  {
    if k < left then left - k else n - (k - left) % n
  }

  lemma LeftStep(n: nat, left: nat, k: nat)
    requires n > 0 && left > 0 && k > 0
    ensures Left(n, if left > 1 then left - 1 else n, k - 1) == Left(n, left, k)
  {
    if left == 1 && k > n { ModStep(k - 1, n); }
    if left == 1 && k <= n { SmallMod(k - 1, n); }
  }

  lemma SmallMod(a: nat, n: nat)
    requires a < n
    ensures a % n == a
  {}

  lemma ModStep(a: nat, n: nat)
    requires n > 0 && a >= n
    ensures a % n == (a - n) % n
  {
    var q, r := a / n, a % n;
    assert a - n == n * (q - 1) + r;
    DivUnique(a - n, n, q - 1, r);
  }

  lemma DivUnique(a: int, n: nat, q: int, r: nat)
    requires n > 0 && a == n * q + r && r < n
    ensures a % n == r
  {
    var d := a / n - q;
    assert n * d == r - a % n;
    Multiples(n, d);
  }

  lemma Multiples(n: nat, d: int)
    ensures d >= 1 ==> n * d >= n
    ensures d <= -1 ==> n * d + n <= 0
  {}

  lemma FullLeft(n: nat, left: nat)
    requires n > 0 && left > 0
    ensures Left(n, left, 0) == left
  {}

  // In every run a thread loses one tick of its slice by each tick that finds it running, and by
  // nothing else; when all are used up it has its full slice again.
  lemma {:induction false} SliceExact(s: State, es: seq<Event>, last: State, t: Tid)
    requires Inv(s) && Runs(s, es, last) && t in s.threads
    requires s.threads[t].initTick > 0 && s.threads[t].remaining > 0
    ensures t in last.threads && last.threads[t].initTick == s.threads[t].initTick
    ensures last.threads[t].remaining == Left(s.threads[t].initTick, s.threads[t].remaining, OwnTicks(s, es, t))
    decreases |es|
  {
    hide Inv, Apply, Left;
    if es == [] {
      FullLeft(s.threads[t].initTick, s.threads[t].remaining);
    } else {
      var r := Apply(s, es[0]);
      EventSafe(s, es[0]);
      EventSlice(s, es[0], t);
      SliceExact(r, es[1..], last, t);
      if es[0].Tick? && s.current == Some(t) {
        LeftStep(s.threads[t].initTick, s.threads[t].remaining, OwnTicks(s, es, t));
      }
    }
  }

  lemma EventSlice(s: State, e: Event, t: Tid)
    requires Inv(s) && Enabled(s, e) && t in s.threads && s.threads[t].remaining > 0
    ensures
      var th, r := s.threads[t], Apply(s, e);
      && t in r.threads && r.threads[t].initTick == th.initTick
      && r.threads[t].remaining == if e.Tick? && s.current == Some(t) then
                                     (if th.remaining > 1 then th.remaining - 1 else th.initTick)
                                   else th.remaining
  {
    hide Inv, Apply, Enabled;
    EventDoes(s, e);
    assert Like(After(s, e, t), Apply(s, e).threads[t]);
  }

  // Ticks aside, no call of the run reschedules while a rival is ready.
  ghost predicate Undisturbed(s: State, es: seq<Event>)
    decreases |es|
  {
    es == [] ||
    (&& Inv(s) && Enabled(s, es[0])
     && (es[0].Tick? || !(Switches(s, es[0]) && Unlocked(s, es[0]) && exists u :: Rival(s, es[0], u)))
     && Undisturbed(Apply(s, es[0]), es[1..]))
  }

  // Undisturbed, the running thread keeps the processor while its slice lasts. A full slice lasts
  // its whole initTick ticks.
  lemma {:induction false} SliceKept(s: State, es: seq<Event>, last: State, c: Tid)
    requires Inv(s) && Runs(s, es, last) && Undisturbed(s, es) && s.current == Some(c) && c in s.threads
    requires Ticks(es) < s.threads[c].remaining
    ensures last.current == Some(c) && c in last.threads
    ensures last.threads[c].remaining == s.threads[c].remaining - Ticks(es)
    decreases |es|
  {
    if es != [] {
      hide Inv, Apply, Rival, Unlocked;
      EventSafe(s, es[0]);
      KeepsExact(s, es[0]);
      EventSlice(s, es[0], c);
      SliceKept(Apply(s, es[0]), es[1..], last, c);
    }
  }

  // The last tick of a slice hands the processor over, exactly if somebody no less urgent is ready,
  // and leaves a full slice.
  lemma SliceEnds(s: State, c: Tid)
    requires Inv(s) && Enabled(s, Tick) && s.current == Some(c) && s.threads[c].remaining == 1
    ensures
      var r := Apply(s, Tick);
      && c in r.threads && r.threads[c].remaining == s.threads[c].initTick
      && (r.current == Some(c) <==>
           s.lockNest > 0 ||
           forall u :: u in s.threads && s.threads[u].stat.Ready? ==>
             s.threads[c].stat.Running? && s.threads[c].prio < s.threads[u].prio)
  {
    EventSlice(s, Tick, c);
    KeepsExact(s, Tick);
    forall u ensures Rival(s, Tick, u) <==>
      u in s.threads && s.threads[u].stat.Ready? &&
      !(s.threads[c].stat.Running? && s.threads[c].prio < s.threads[u].prio)
    {}
    hide Apply, Rival;
  }

  // How deep the scheduler is locked after a call, and after some calls
  function Locks(e: Event, d: nat): nat {
    if e.EnterCritical? then d + 1 else if e.ExitCritical? && d > 0 then d - 1 else d
  }

  function Depth(es: seq<Event>, d: nat): nat {
    if es == [] then d else Depth(es[1..], Locks(es[0], d))
  }

  ghost predicate LockedAlong(es: seq<Event>, d: nat) { forall k :: 0 <= k <= |es| ==> Depth(es[..k], d) > 0 }

  lemma StaysLocked(es: seq<Event>, d: nat)
    requires es != [] && LockedAlong(es, d)
    ensures d > 0 && Locks(es[0], d) > 0 && LockedAlong(es[1..], Locks(es[0], d))
  {
    assert es[..0] == [] && es[..1][1..] == [];
    assert Depth(es[..0], d) > 0 && Depth(es[..1], d) > 0;
    forall k | 0 <= k <= |es[1..]| ensures Depth(es[1..][..k], Locks(es[0], d)) > 0 {
      assert es[..k + 1][1..] == es[1..][..k] && Depth(es[..k + 1], d) > 0;
    }
  }

  lemma EventLocks(s: State, e: Event)
    requires Inv(s) && Enabled(s, e)
    ensures Apply(s, e).lockNest == Locks(e, s.lockNest)
    ensures s.lockNest > 0 && Locks(e, s.lockNest) > 0 ==> Apply(s, e).current == s.current
  {
    hide Inv, Apply, Rival;
    EventDoes(s, e);
    KeepsExact(s, e);
  }

  // In every run the scheduler is locked as deep as it has been entered and not left, and until it
  // is left the running thread keeps the processor, whatever happens.
  lemma {:induction false} LockedKeeps(s: State, es: seq<Event>, last: State)
    requires Inv(s) && Runs(s, es, last)
    ensures last.lockNest == Depth(es, s.lockNest)
    ensures LockedAlong(es, s.lockNest) ==> last.current == s.current
    decreases |es|
  {
    if es != [] {
      hide Inv, Apply, LockedAlong, Locks;
      EventSafe(s, es[0]);
      EventLocks(s, es[0]);
      LockedKeeps(Apply(s, es[0]), es[1..], last);
      if LockedAlong(es, s.lockNest) { StaysLocked(es, s.lockNest); }
    }
  }

  // ----- a slice cut short -----

  function Rivals(): State {
    State(map[1 := Thread(Running, 10, 10, 5, 5), 2 := Thread(Ready, 10, 10, 5, 5),
              3 := Thread(Suspended, 20, 20, 5, 5)],
          seq(32, p => if p == 10 then [2] else []), Some(1), 0)
  }

  // The time-out of a less urgent thread takes the processor from a thread that has used no tick
  // of its slice and gives it to another of the same priority.
  lemma SliceCut()
    ensures Inv(Rivals()) && Enabled(Rivals(), Timeout(3))
    ensures
      var s, r := Rivals(), Apply(Rivals(), Timeout(3));
      s.current == Some(1) && r.current == Some(2) && r.threads[1].remaining == r.threads[1].initTick == 5
  {
    var s, e := Rivals(), Timeout(3);
    assert Rival(s, e, 2);
    KeepsExact(s, e);
    EventSlice(s, e, 1);
    CutTo(s);
  }

  lemma CutTo(s: State)
    requires s == Rivals() && Inv(s) && Enabled(s, Timeout(3))
    ensures Apply(s, Timeout(3)).current in {Some(1), Some(2)}
  {
    hide Inv, Apply, Changed, Schedule, Top, ReadyPrios;
    InTwoParts(s, Timeout(3));
    CutTable(s);
    ScheduleKeeps(Changed(s, Timeout(3)));
    TopIs(Changed(s, Timeout(3)));
  }

  lemma CutTable(s: State)
    requires s == Rivals() && Enabled(s, Timeout(3))
    ensures Changed(s, Timeout(3)).current == s.current && Changed(s, Timeout(3)).table == s.table[20 := [3]]
  {
    hide Least, ReadyPrios;
    assert s.table[20] + [3] == [3];
  }

  lemma TopIs(s: State)
    requires |s.table| == 32 && s.table[10] == [2] && forall p :: 0 <= p < 10 ==> s.table[p] == []
    ensures ReadyPrios(s) != {} && Top(s) == 2
  {
    assert 10 in ReadyPrios(s);
  }
}

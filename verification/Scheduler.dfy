// The uniprocessor scheduler (src/scheduler.c, src/thread.c) as transitions on the ready queues.
module Scheduler {
  import opened Options
  import opened IpcList
  import opened Lists
  import opened FirstBit

  datatype Stat = Init | Ready | Suspended | Running | Closed

  datatype Thread = Thread(stat: Stat, initPrio: nat, prio: nat, initTick: nat, remaining: nat)

  // table[p] is the queue of priority p; current is None until the scheduler starts.
  datatype State = State(threads: map<Tid, Thread>, table: seq<seq<Tid>>, current: Option<Tid>, lockNest: nat)

  predicate Known(s: State, t: Tid) { t in s.threads && s.threads[t].prio < |s.table| }

  function SetStat(s: State, t: Tid, stat: Stat): State
    requires t in s.threads
  {
    s.(threads := s.threads[t := s.threads[t].(stat := stat)])
  }

  function SetQueue(s: State, p: nat, q: seq<Tid>): State
    requires p < |s.table|
  {
    s.(table := s.table[p := q])
  }

  // rt_schedule_insert_thread
  function Insert(s: State, t: Tid): State
    requires Known(s, t)
  {
    if s.current == Some(t) then SetStat(s, t, Running)
    else
      var p := s.threads[t].prio;
      SetStat(SetQueue(s, p, s.table[p] + [t]), t, Ready)
  }

  // rt_schedule_remove_thread
  function Remove(s: State, t: Tid): State
    requires Known(s, t)
  {
    var p := s.threads[t].prio;
    SetQueue(s, p, Without(s.table[p], t))
  }

  ghost function ReadyPrios(s: State): set<nat> { set p: nat | p < |s.table| && s.table[p] != [] }

  // The thread at the head of the most urgent non-empty queue
  ghost function Top(s: State): Tid
    requires ReadyPrios(s) != {}
  {
    s.table[Least(ReadyPrios(s))][0]
  }

  predicate IsRunning(s: State, t: Tid) { t in s.threads && s.threads[t].stat == Running }

  // The thread rt_schedule gives the processor to
  ghost function Chosen(s: State): Tid
    requires s.current.Some? && s.current.value in s.threads && ReadyPrios(s) != {}
  {
    var c := s.current.value;
    if IsRunning(s, c) && s.threads[c].prio < Least(ReadyPrios(s)) then c else Top(s)
  }

  ghost function SwitchTo(s: State, to: Tid): State
    requires s.current.Some? && Known(s, s.current.value) && Known(s, to)
  {
    var c := s.current.value;
    if to == c then SetStat(Remove(s, c), c, Running)
    else
      var s1 := s.(current := Some(to));
      var s2 := if IsRunning(s, c) then Insert(s1, c) else s1;
      SetStat(Remove(s2, to), to, Running)
  }

  // rt_schedule
  ghost function Schedule(s: State): State
    requires Inv(s) && s.current.Some?
  {
    if s.lockNest == 0 && ReadyPrios(s) != {} then SwitchTo(s, Chosen(s)) else s
  }

  // ----- the invariant -----

  ghost predicate QueuesOk(s: State) {
    && (forall p :: 0 <= p < |s.table| ==> Distinct(s.table[p]))
    && (forall p, t :: 0 <= p < |s.table| && t in s.table[p] ==>
          t in s.threads && s.threads[t].stat == Ready && s.threads[t].prio == p)
    && (forall t :: t in s.threads && s.threads[t].stat == Ready ==>
          s.threads[t].prio < |s.table| && t in s.table[s.threads[t].prio])
  }

  // The same, with t out of all queues and in any state
  ghost predicate QueuesOkBut(s: State, t: Tid) {
    && (forall p :: 0 <= p < |s.table| ==> Distinct(s.table[p]) && t !in s.table[p])
    && (forall p, u :: 0 <= p < |s.table| && u in s.table[p] ==>
          u in s.threads && s.threads[u].stat == Ready && s.threads[u].prio == p)
    && (forall u :: u in s.threads && s.threads[u].stat == Ready && u != t ==>
          s.threads[u].prio < |s.table| && u in s.table[s.threads[u].prio])
  }

  // Each ready thread is in exactly the queue of its priority; the processor's thread is in none.
  ghost predicate Inv(s: State) {
    && QueuesOk(s)
    && (forall t :: t in s.threads ==> s.threads[t].prio < |s.table| && s.threads[t].initPrio < |s.table|)
    && (s.current.Some? ==> s.current.value in s.threads && s.threads[s.current.value].stat !in {Ready, Init})
    && (forall t :: t in s.threads && s.threads[t].stat == Running ==> s.current == Some(t))
  }

  // No ready thread is more urgent than the running one.
  ghost predicate TopRuns(s: State) {
    s.current.Some? && s.current.value in s.threads &&
    forall t :: t in s.threads && s.threads[t].stat == Ready ==>
      s.threads[s.current.value].prio <= s.threads[t].prio
  }

  lemma AppendDistinct(q: seq<Tid>, t: Tid)
    requires Distinct(q) && t !in q
    ensures Distinct(q + [t])
  {
    DistinctConcat(q, [t]);
  }

  // Putting a thread that is in no queue and not on the processor into its queue
  lemma InsertOk(s: State, t: Tid)
    requires QueuesOkBut(s, t) && Known(s, t) && s.current != Some(t)
    ensures QueuesOk(Insert(s, t))
  {
    AppendDistinct(s.table[s.threads[t].prio], t);
  }

  // Taking a thread out of its queue
  lemma RemoveOk(s: State, t: Tid)
    requires QueuesOk(s) && Known(s, t)
    ensures QueuesOkBut(Remove(s, t), t)
  {
    forall q | 0 <= q < |s.table| ensures t !in Remove(s, t).table[q] {
      assert t in s.table[q] ==> q == s.threads[t].prio;
    }
  }

  lemma OutOk(s: State, t: Tid)
    requires QueuesOkBut(s, t) && (t in s.threads ==> s.threads[t].stat != Ready)
    ensures QueuesOk(s)
  {
  }

  // Removing a thread that is in no queue changes nothing.
  lemma RemoveAbsent(s: State, t: Tid)
    requires Known(s, t) && t !in s.table[s.threads[t].prio]
    ensures Remove(s, t) == s
  {
    WithoutAbsent(s.table[s.threads[t].prio], t);
  }

  lemma TopIsReady(s: State)
    requires Inv(s) && ReadyPrios(s) != {}
    ensures Known(s, Top(s)) && s.threads[Top(s)].stat == Ready
    ensures s.threads[Top(s)].prio == Least(ReadyPrios(s))
    ensures forall t :: t in s.threads && s.threads[t].stat == Ready ==> Least(ReadyPrios(s)) <= s.threads[t].prio
  {
    var h := Least(ReadyPrios(s));
    assert Top(s) in s.table[h];
    forall t | t in s.threads && s.threads[t].stat == Ready ensures h <= s.threads[t].prio {
      assert s.threads[t].prio in ReadyPrios(s);
    }
  }

  // The current thread goes back to its queue, or has left it already.
  lemma YieldQueues(s: State, to: Tid)
    requires Inv(s) && s.current.Some? && Known(s, to) && s.current != Some(to)
    ensures var c := s.current.value; var s1 := s.(current := Some(to));
            && (IsRunning(s, c) ==> QueuesOk(Insert(s1, c)))
            && (!IsRunning(s, c) ==> QueuesOk(s1))
  {
    var c := s.current.value;
    var s1 := s.(current := Some(to));
    assert QueuesOkBut(s1, c);
    if IsRunning(s, c) { InsertOk(s1, c); }
  }

  lemma TakeOver(s: State, to: Tid)
    requires QueuesOk(s) && Known(s, to) && s.current == Some(to)
    requires forall t :: t in s.threads ==> s.threads[t].prio < |s.table| && s.threads[t].initPrio < |s.table|
    requires forall t :: t in s.threads ==> s.threads[t].stat != Running
    ensures Inv(SetStat(Remove(s, to), to, Running))
  {
    RemoveOk(s, to);
    OutOk(SetStat(Remove(s, to), to, Running), to);
  }

  // The first thread to run, when the scheduler starts
  lemma StartSafe(s: State, to: Tid)
    requires Inv(s) && s.current == None && ReadyPrios(s) != {} && to == Top(s)
    ensures
      var e := SetStat(Remove(s.(current := Some(to)), to), to, Running);
      Known(s, to) && Inv(e) && IsRunning(e, to) && TopRuns(e)
  {
    TopIsReady(s);
    TakeOver(s.(current := Some(to)), to);
  }

  lemma SwitchSafe(s: State, to: Tid)
    requires Inv(s) && s.current.Some? && Known(s, to)
    requires s.threads[to].stat == Ready || (s.current == Some(to) && IsRunning(s, to))
    ensures Inv(SwitchTo(s, to)) && SwitchTo(s, to).current == Some(to) && IsRunning(SwitchTo(s, to), to)
  {
    var c := s.current.value;
    if to == c {
      RemoveAbsent(s, c);
    } else {
      YieldQueues(s, to);
      var s1 := s.(current := Some(to));
      TakeOver(if IsRunning(s, c) then Insert(s1, c) else s1, to);
    }
  }

  // After rt_schedule with the scheduler unlocked no ready thread outranks the running one,
  // and a thread that can run does.
  lemma ScheduleSafe(s: State)
    requires Inv(s) && s.current.Some?
    ensures Inv(Schedule(s)) && Schedule(s).current.Some?
    ensures s.lockNest == 0 ==> TopRuns(Schedule(s))
    ensures s.lockNest == 0 && (IsRunning(s, s.current.value) || ReadyPrios(s) != {}) ==>
              IsRunning(Schedule(s), Schedule(s).current.value)
  {
    if s.lockNest == 0 && ReadyPrios(s) != {} {
      TopIsReady(s);
      SwitchSafe(s, Chosen(s));
    } else if s.lockNest == 0 {
      NoneReady(s);
    }
  }

  lemma NoneReady(s: State)
    requires Inv(s) && ReadyPrios(s) == {}
    ensures forall t :: t in s.threads ==> s.threads[t].stat != Ready
  {
    forall t | t in s.threads ensures s.threads[t].stat != Ready {
      assert s.threads[t].prio !in ReadyPrios(s);
    }
  }

  // ----- the kernel calls -----

  datatype Event =
    | Startup(t: Tid)
    | Suspend(t: Tid)
    | Resume(t: Tid)
    | Timeout(t: Tid)
    | ChangePrio(t: Tid, prio: nat)
    | Yield
    | Exit
    | EnterCritical
    | ExitCritical
    | Tick

  // rt_thread_suspend asserts that a running thread suspends itself only.
  ghost predicate Enabled(s: State, e: Event) {
    && s.current.Some?
    && match e
       case Startup(t) => t in s.threads && s.threads[t].stat == Init
       case Suspend(t) => t in s.threads
       case Resume(t) => t in s.threads
       case Timeout(t) => t in s.threads && s.threads[t].stat == Suspended
       case ChangePrio(t, prio) => t in s.threads && prio < |s.table|
       case Tick => s.current.value in s.threads && s.threads[s.current.value].remaining > 0
       case _ => true
  }

  // rt_thread_resume
  function DoResume(s: State, t: Tid): State
    requires Known(s, t)
  {
    if s.threads[t].stat == Suspended then Insert(s, t) else s
  }

  // rt_thread_suspend
  function DoSuspend(s: State, t: Tid): State
    requires Known(s, t)
  {
    if s.threads[t].stat in {Ready, Running} then SetStat(Remove(s, t), t, Suspended) else s
  }

  // RT_THREAD_CTRL_CHANGE_PRIORITY
  function DoChangePrio(s: State, t: Tid, prio: nat): State
    requires Known(s, t) && prio < |s.table|
  {
    var th := s.threads[t];
    if th.stat == Ready then
      var s1 := Remove(s, t);
      Insert(s1.(threads := s1.threads[t := th.(prio := prio)]), t)
    else s.(threads := s.threads[t := th.(prio := prio)])
  }

  // The time slice part of rt_tick_increase, without the switch
  function Charge(s: State): State
    requires s.current.Some? && s.current.value in s.threads
  {
    var c := s.current.value;
    var th := s.threads[c];
    var left := if th.remaining == 1 then th.initTick else if th.remaining == 0 then 0 else th.remaining - 1;
    s.(threads := s.threads[c := th.(remaining := left)])
  }

  ghost function Apply(s: State, e: Event): State
    requires Inv(s) && Enabled(s, e)
  {
    match e
    case Startup(t) =>
      var th := s.threads[t];
      var s1 := s.(threads := s.threads[t := th.(prio := th.initPrio, stat := Suspended)]);
      StartupSafe(s, t);
      Schedule(DoResume(s1, t))
    case Suspend(t) => DoSuspend(s, t)
    case Resume(t) => DoResume(s, t)
    case Timeout(t) => ResumeSafe(s, t); Schedule(Insert(s, t))
    case ChangePrio(t, prio) => DoChangePrio(s, t, prio)
    case Yield => Schedule(s)
    case Exit => ExitSafe(s); Schedule(SetStat(Remove(s, s.current.value), s.current.value, Closed))
    case EnterCritical => s.(lockNest := s.lockNest + 1)
    case ExitCritical =>
      var s1 := s.(lockNest := if s.lockNest <= 1 then 0 else s.lockNest - 1);
      NestSafe(s, s1.lockNest);
      if s1.lockNest == 0 then Schedule(s1) else s1
    case Tick =>
      ChargeSafe(s);
      if s.threads[s.current.value].remaining == 1 then Schedule(Charge(s)) else Charge(s)
  }

  lemma ResumeSafe(s: State, t: Tid)
    requires Inv(s) && s.current.Some? && t in s.threads
    ensures Inv(DoResume(s, t)) && DoResume(s, t).current == s.current
  {
    hide QueuesOk;
    ResumeQueues(s, t);
  }

  lemma ResumeQueues(s: State, t: Tid)
    requires QueuesOk(s) && Known(s, t)
    ensures QueuesOk(DoResume(s, t))
  {
    if s.threads[t].stat == Suspended && s.current != Some(t) { InsertOk(s, t); }
  }

  lemma StartupSafe(s: State, t: Tid)
    requires Inv(s) && s.current.Some? && t in s.threads && s.threads[t].stat == Init
    ensures var th := s.threads[t];
            var s1 := s.(threads := s.threads[t := th.(prio := th.initPrio, stat := Suspended)]);
            Known(s1, t) && Inv(DoResume(s1, t)) && DoResume(s1, t).current == s.current
  {
    var th := s.threads[t];
    var s1 := s.(threads := s.threads[t := th.(prio := th.initPrio, stat := Suspended)]);
    assert Inv(s1);
    ResumeSafe(s1, t);
  }

  lemma SuspendSafe(s: State, t: Tid)
    requires Inv(s) && t in s.threads
    ensures Inv(DoSuspend(s, t)) && DoSuspend(s, t).current == s.current
  {
    hide QueuesOk;
    SuspendQueues(s, t);
  }

  lemma SuspendQueues(s: State, t: Tid)
    requires QueuesOk(s) && Known(s, t)
    ensures QueuesOk(DoSuspend(s, t))
  {
    if s.threads[t].stat in {Ready, Running} { RemoveOk(s, t); }
  }

  lemma ExitSafe(s: State)
    requires Inv(s) && s.current.Some?
    ensures Inv(SetStat(Remove(s, s.current.value), s.current.value, Closed))
  {
    RemoveOk(s, s.current.value);
  }

  lemma ChangePrioSafe(s: State, t: Tid, prio: nat)
    requires Inv(s) && t in s.threads && prio < |s.table|
    ensures Inv(DoChangePrio(s, t, prio)) && DoChangePrio(s, t, prio).current == s.current
  {
    if s.threads[t].stat == Ready {
      MoveReady(s, t, prio);
    } else {
      assert forall p | 0 <= p < |s.table| :: t !in s.table[p];
    }
  }

  lemma MoveReady(s: State, t: Tid, prio: nat)
    requires Inv(s) && t in s.threads && prio < |s.table| && s.threads[t].stat == Ready
    ensures Inv(DoChangePrio(s, t, prio)) && DoChangePrio(s, t, prio).current == s.current
  {
    hide QueuesOk, QueuesOkBut;
    RemoveOk(s, t);
    MoveOk(Remove(s, t), t, prio);
  }

  // A thread out of all queues goes to the queue of its new priority.
  lemma MoveOk(s: State, t: Tid, prio: nat)
    requires QueuesOkBut(s, t) && t in s.threads && prio < |s.table| && s.current != Some(t)
    ensures
      var e := s.(threads := s.threads[t := s.threads[t].(prio := prio)]);
      QueuesOkBut(e, t) && QueuesOk(Insert(e, t))
  {
    InsertOk(s.(threads := s.threads[t := s.threads[t].(prio := prio)]), t);
  }

  lemma TimeoutSafe(s: State, t: Tid)
    requires Inv(s) && s.current.Some? && t in s.threads && s.threads[t].stat == Suspended
    ensures Known(s, t) && Inv(Insert(s, t)) && Insert(s, t).current.Some?
    ensures Inv(Schedule(Insert(s, t))) && Schedule(Insert(s, t)).current.Some?
    ensures Schedule(Insert(s, t)).lockNest == 0 ==> TopRuns(Schedule(Insert(s, t)))
  {
    ResumeSafe(s, t);
    hide QueuesOk;
    ScheduleSafe(Insert(s, t));
  }

  lemma LeaveSafe(s: State)
    requires Inv(s) && s.current.Some?
    ensures Known(s, s.current.value)
    ensures
      var e := SetStat(Remove(s, s.current.value), s.current.value, Closed);
      Inv(e) && e.current.Some? && Inv(Schedule(e)) && Schedule(e).current.Some?
      && (Schedule(e).lockNest == 0 ==> TopRuns(Schedule(e)))
  {
    ExitSafe(s);
    ScheduleSafe(SetStat(Remove(s, s.current.value), s.current.value, Closed));
  }

  lemma ChargeSafe(s: State)
    requires Inv(s) && Enabled(s, Tick)
    ensures Inv(Charge(s)) && Charge(s).current == s.current
  {}

  lemma NestSafe(s: State, n: nat)
    requires Inv(s)
    ensures Inv(s.(lockNest := n))
  {}

  // Every call keeps each ready thread in exactly its queue. Here rt_thread_resume runs without
  // an interruption between its parts; module ResumeGap takes it apart.
  lemma EventSafe(s: State, e: Event)
    requires Inv(s) && Enabled(s, e)
    ensures Inv(Apply(s, e)) && Apply(s, e).current.Some?
  {
    hide QueuesOk, Schedule, Insert, Remove, SetStat, DoSuspend, DoChangePrio, TopRuns, ReadyPrios;
    match e
    case Startup(t) =>
      StartupSafe(s, t);
      var th := s.threads[t];
      ScheduleSafe(DoResume(s.(threads := s.threads[t := th.(prio := th.initPrio, stat := Suspended)]), t));
    case Suspend(t) => SuspendSafe(s, t);
    case Resume(t) => ResumeSafe(s, t);
    case Timeout(t) => TimeoutSafe(s, t);
    case ChangePrio(t, prio) => ChangePrioSafe(s, t, prio);
    case Yield => ScheduleSafe(s);
    case Exit => LeaveSafe(s);
    case EnterCritical => NestSafe(s, s.lockNest + 1);
    case ExitCritical =>
      NestSafe(s, if s.lockNest <= 1 then 0 else s.lockNest - 1);
      NestSafe(s, 0);
      ScheduleSafe(s.(lockNest := 0));
    case Tick => ChargeSafe(s); ScheduleSafe(Charge(s));
  }

  // ----- runs -----

  ghost predicate Runs(s: State, es: seq<Event>, last: State)
    decreases |es|
  {
    if es == [] then last == s
    else Inv(s) && Enabled(s, es[0]) && Runs(Apply(s, es[0]), es[1..], last)
  }

  // The calls that end in rt_schedule when the scheduler is unlocked
  predicate Reschedules(e: Event) { e.Startup? || e.Timeout? || e.Yield? || e.Exit? || e.ExitCritical? }

  function Ticks(es: seq<Event>): nat {
    if es == [] then 0 else (if es[0].Tick? then 1 else 0) + Ticks(es[1..])
  }

  // The calls that run rt_schedule
  predicate Switches(s: State, e: Event)
    requires e.Tick? ==> s.current.Some? && s.current.value in s.threads
  {
    match e
    case Startup(_) => true
    case Timeout(_) => true
    case Yield => true
    case Exit => true
    case ExitCritical => s.lockNest <= 1
    case Tick => s.threads[s.current.value].remaining == 1
    case _ => false
  }

  lemma RescheduleTop(s: State, e: Event)
    requires Inv(s) && Enabled(s, e) && Reschedules(e)
    ensures Apply(s, e).lockNest == 0 ==> TopRuns(Apply(s, e))
  {
    hide QueuesOk, Insert, Remove, SetStat, TopRuns, ReadyPrios;
    match e
    case Startup(t) =>
      StartupSafe(s, t);
      var th := s.threads[t];
      var s1 := DoResume(s.(threads := s.threads[t := th.(prio := th.initPrio, stat := Suspended)]), t);
      ScheduleSafe(s1);
    case Timeout(t) => TimeoutSafe(s, t);
    case Yield => ScheduleSafe(s);
    case Exit => LeaveSafe(s);
    case ExitCritical =>
      NestSafe(s, 0);
      ScheduleSafe(s.(lockNest := 0));
  }

  lemma {:induction false} RunKeepsInv(s: State, es: seq<Event>, last: State)
    requires Inv(s) && s.current.Some? && Runs(s, es, last)
    ensures Inv(last) && last.current.Some?
    decreases |es|
  {
    if es != [] {
      EventSafe(s, es[0]);
      RunKeepsInv(Apply(s, es[0]), es[1..], last);
    }
  }

  // In every run each ready thread stays in exactly its queue and the running thread in none,
  // and whenever an unlocked call has just rescheduled, no ready thread outranks the running one.
  lemma RunSafe(s: State, es: seq<Event>, mid: State, e: Event)
    requires Inv(s) && s.current.Some? && Runs(s, es, mid) && Enabled(mid, e)
    ensures Inv(mid) && Inv(Apply(mid, e))
    ensures Reschedules(e) && Apply(mid, e).lockNest == 0 ==> TopRuns(Apply(mid, e))
  {
    RunKeepsInv(s, es, mid);
    EventSafe(mid, e);
    if Reschedules(e) { RescheduleTop(mid, e); }
  }

  // A thread that suspends itself and is resumed before it switches out is running again, as
  // if nothing had happened.
  lemma SuspendThenResume(s: State, c: Tid)
    requires Inv(s) && s.current == Some(c) && IsRunning(s, c)
    ensures Enabled(s, Suspend(c)) && Inv(Apply(s, Suspend(c))) && Enabled(Apply(s, Suspend(c)), Resume(c))
    ensures Apply(Apply(s, Suspend(c)), Resume(c)) == s
  {
    SuspendSafe(s, c);
    RemoveAbsent(s, c);
    var s1 := Apply(s, Suspend(c));
    assert s1.threads[c := s1.threads[c].(stat := Running)] == s.threads;
  }
}

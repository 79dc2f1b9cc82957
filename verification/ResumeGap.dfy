// rt_thread_resume, rt_thread_startup and rt_thread_suspend (src/thread.c) taken apart: the state of
// the thread is tested before interrupts are disabled, and a resumed thread enters its ready queue
// in a second locked region. In between interrupts and other threads may run.
module ResumeGap {
  import opened Options
  import opened IpcList
  import opened Lists
  import opened Scheduler

  // pending holds a thread once for each resume of it that is between its two parts, and suspending
  // once for each suspend.
  datatype System = System(core: State, pending: multiset<Tid>, suspending: multiset<Tid>)

  datatype Step =
    | Whole(e: Event)
    | StartupBegin(t: Tid)
    | ResumeBegin(t: Tid)
    | ResumeEnd(t: Tid)
    | SuspendBegin(t: Tid)
    | SuspendEnd(t: Tid)

  ghost predicate Fits(s: System, e: Step) {
    match e
    case Whole(e) => Enabled(s.core, e)
    case StartupBegin(t) => Enabled(s.core, Startup(t))
    case ResumeBegin(t) => t in s.core.threads && s.core.current.Some?
    case ResumeEnd(t) => t in s.pending && t in s.core.threads && s.core.current.Some?
    case SuspendBegin(t) => t in s.core.threads && s.core.current.Some?
    case SuspendEnd(t) => t in s.suspending && t in s.core.threads && s.core.current.Some?
  }

  ghost function Next(s: System, e: Step): System
    requires Inv(s.core) && Fits(s, e)
  {
    match e
    case Whole(e) => s.(core := Apply(s.core, e))
    case StartupBegin(t) =>
      var th := s.core.threads[t];
      s.(core := s.core.(threads := s.core.threads[t := th.(prio := th.initPrio, stat := Suspended)]),
         pending := s.pending + multiset{t})
    case ResumeBegin(t) =>
      if s.core.threads[t].stat == Suspended then s.(pending := s.pending + multiset{t}) else s
    case ResumeEnd(t) => s.(core := Insert(s.core, t), pending := s.pending - multiset{t})
    case SuspendBegin(t) =>
      if s.core.threads[t].stat in {Ready, Running} then s.(suspending := s.suspending + multiset{t}) else s
    case SuspendEnd(t) => s.(core := Leave(s.core, t), suspending := s.suspending - multiset{t})
  }

  // The locked region of rt_thread_suspend
  function Leave(s: State, t: Tid): State
    requires Known(s, t)
  {
    SetStat(Remove(s, t), t, Suspended)
  }

  // With interrupts disabled by the caller the two parts are one.
  lemma TogetherIsResume(s: System, t: Tid)
    requires Inv(s.core) && Fits(s, ResumeBegin(t))
    ensures
      var mid := Next(s, ResumeBegin(t));
      if s.core.threads[t].stat == Suspended then
        Inv(mid.core) && Fits(mid, ResumeEnd(t)) && Next(mid, ResumeEnd(t)) == Next(s, Whole(Resume(t)))
      else mid == s && s == Next(s, Whole(Resume(t)))
  {
    assert s.pending + multiset{t} - multiset{t} == s.pending;
  }

  lemma TogetherIsSuspend(s: System, t: Tid)
    requires Inv(s.core) && Fits(s, SuspendBegin(t))
    ensures
      var mid := Next(s, SuspendBegin(t));
      if s.core.threads[t].stat in {Ready, Running} then
        Inv(mid.core) && Fits(mid, SuspendEnd(t)) && Next(mid, SuspendEnd(t)) == Next(s, Whole(Suspend(t)))
      else mid == s && s == Next(s, Whole(Suspend(t)))
  {
    hide QueuesOk;
    assert s.suspending + multiset{t} - multiset{t} == s.suspending;
  }

  lemma TogetherIsStartup(s: System, t: Tid)
    requires Inv(s.core) && Fits(s, StartupBegin(t))
    ensures
      var mid := Next(s, StartupBegin(t));
      Inv(mid.core) && Fits(mid, ResumeEnd(t)) &&
      var r := Next(mid, ResumeEnd(t));
      Inv(r.core) && Fits(r, Whole(Yield)) && Next(r, Whole(Yield)) == Next(s, Whole(Startup(t)))
  {
    hide Schedule;
    StartupSafe(s.core, t);
    BeginSafe(s.core, t);
    assert s.pending + multiset{t} - multiset{t} == s.pending;
  }

  lemma BeginSafe(s: State, t: Tid)
    requires Inv(s) && t in s.threads && s.threads[t].stat == Init
    ensures Inv(s.(threads := s.threads[t := s.threads[t].(prio := s.threads[t].initPrio, stat := Suspended)]))
  {}

  // ----- One step -----

  // Whether the second part finds the thread in its queue already
  predicate Late(s: System, e: Step) {
    e.ResumeEnd? && e.t in s.core.threads && s.core.threads[e.t].stat == Ready
  }

  // A step keeps each ready thread in exactly its queue if and only if it is not the second part
  // of a resume whose thread has become ready in between.
  lemma StepExact(s: System, e: Step)
    requires Inv(s.core) && Fits(s, e)
    ensures Inv(Next(s, e).core) <==> !Late(s, e)
    ensures Next(s, e).core.current.Some?
  {
    hide QueuesOk, Apply, Insert;
    match e
    case Whole(e) => EventSafe(s.core, e);
    case StartupBegin(t) => BeginSafe(s.core, t);
    case ResumeBegin(t) =>
    case ResumeEnd(t) => EndExact(s.core, t);
    case SuspendBegin(t) =>
    case SuspendEnd(t) => LeaveKeeps(s.core, t);
  }

  // Whatever state the thread has come to, it leaves its queue.
  lemma LeaveKeeps(s: State, t: Tid)
    requires Inv(s) && t in s.threads
    ensures Inv(Leave(s, t)) && Leave(s, t).current == s.current
    ensures Leave(s, t).threads == s.threads[t := s.threads[t].(stat := Suspended)]
  {
    hide QueuesOk;
    LeaveQueues(s, t);
  }

  lemma LeaveQueues(s: State, t: Tid)
    requires QueuesOk(s) && Known(s, t)
    ensures QueuesOk(Leave(s, t))
  {
    RemoveOk(s, t);
  }

  lemma EndExact(s: State, t: Tid)
    requires Inv(s) && t in s.threads
    ensures Insert(s, t).current == s.current
    ensures Inv(Insert(s, t)) <==> s.threads[t].stat != Ready
  {
    hide QueuesOk;
    if s.threads[t].stat == Ready {
      Twice(s, t);
    } else if s.current != Some(t) {
      Enters(s, t);
    } else {
      StaysOut(s, t);
    }
  }

  lemma StaysOut(s: State, t: Tid)
    requires Inv(s) && t in s.threads && s.current == Some(t)
    ensures Inv(SetStat(s, t, Running))
  {}

  lemma Enters(s: State, t: Tid)
    requires QueuesOk(s) && Known(s, t) && s.threads[t].stat != Ready && s.current != Some(t)
    ensures QueuesOk(Insert(s, t))
  {
    assert forall p | 0 <= p < |s.table| :: t !in s.table[p];
    InsertOk(s, t);
  }

  lemma Twice(s: State, t: Tid)
    requires QueuesOk(s) && Known(s, t) && s.threads[t].stat == Ready && s.current != Some(t)
    ensures !QueuesOk(Insert(s, t))
  {
    var p := s.threads[t].prio;
    var q, r := s.table[p], Insert(s, t).table[p];
    var k :| 0 <= k < |q| && q[k] == t;
    assert r == q + [t] && r[k] == r[|q|];
    assert !Distinct(r);
  }

  // ----- Runs -----

  // What callers have to see to: while a resume of t is between its parts, no one else resumes t,
  // neither by a call nor by a timeout.
  ghost predicate Exclusive(s: System, e: Step) {
    match e
    case Whole(Resume(t)) => t !in s.pending
    case Whole(Timeout(t)) => t !in s.pending
    case ResumeBegin(t) => t !in s.pending
    case _ => true
  }

  ghost predicate ExclusiveRun(s: System, es: seq<Step>)
    decreases |es|
  {
    es == [] ||
    (Inv(s.core) && Fits(s, es[0]) && Exclusive(s, es[0]) && ExclusiveRun(Next(s, es[0]), es[1..]))
  }

  ghost function After(s: System, es: seq<Step>): System
    requires ExclusiveRun(s, es)
    decreases |es|
  {
    if es == [] then s else After(Next(s, es[0]), es[1..])
  }

  // A thread with a resume under way has one only, and waits for it, unless it has exited.
  ghost predicate PendingOk(s: System) {
    forall t | t in s.pending :: s.pending[t] == 1 && t in s.core.threads &&
        s.core.threads[t].stat in {Suspended, Closed}
  }

  // Only these calls bring a thread out of the suspended state.
  lemma StaysSuspended(s: State, e: Event, t: Tid)
    requires Inv(s) && Enabled(s, e) && t in s.threads && s.threads[t].stat in {Suspended, Closed}
    requires e != Resume(t) && e != Timeout(t) && e != Startup(t)
    ensures t in Apply(s, e).threads && Apply(s, e).threads[t].stat in {Suspended, Closed}
  {
    hide QueuesOk, Schedule, TopRuns;
    match e
    case Startup(u) =>
      StartupSafe(s, u);
      var th := s.threads[u];
      ScheduleLeaves(DoResume(s.(threads := s.threads[u := th.(prio := th.initPrio, stat := Suspended)]), u), t);
    case Timeout(u) => ResumeSafe(s, u); ScheduleLeaves(Insert(s, u), t);
    case Yield => ScheduleLeaves(s, t);
    case Exit =>
      ExitSafe(s);
      ScheduleLeaves(SetStat(Remove(s, s.current.value), s.current.value, Closed), t);
    case ExitCritical =>
      NestSafe(s, 0);
      ScheduleLeaves(s.(lockNest := 0), t);
    case Tick => ChargeSafe(s); ScheduleLeaves(Charge(s), t);
    case _ =>
  }

  lemma ScheduleLeaves(s: State, t: Tid)
    requires Inv(s) && s.current.Some? && t in s.threads && s.threads[t].stat in {Suspended, Closed}
    ensures t in Schedule(s).threads && Schedule(s).threads[t].stat in {Suspended, Closed}
  {
    if s.lockNest == 0 && ReadyPrios(s) != {} { TopIsReady(s); }
  }

  lemma PendingStays(s: System, e: Step)
    requires Inv(s.core) && s.core.current.Some? && PendingOk(s) && Fits(s, e) && Exclusive(s, e)
    ensures PendingOk(Next(s, e)) && !Late(s, e)
  {
    hide QueuesOk, Apply, Insert, Leave;
    match e
    case Whole(e) => WholePending(s, e);
    case StartupBegin(t) => assert t !in s.pending;
    case ResumeBegin(t) =>
    case ResumeEnd(t) => ResumedPending(s, t);
    case SuspendBegin(t) =>
    case SuspendEnd(t) => SuspendedPending(s, t);
  }

  lemma SuspendedPending(s: System, t: Tid)
    requires Inv(s.core) && PendingOk(s) && t in s.core.threads
    ensures PendingOk(s.(core := Leave(s.core, t), suspending := s.suspending - multiset{t}))
  {
    hide QueuesOk, Leave;
    LeaveKeeps(s.core, t);
  }

  lemma WholePending(s: System, e: Event)
    requires Inv(s.core) && PendingOk(s) && Enabled(s.core, e) && Exclusive(s, Whole(e))
    ensures PendingOk(s.(core := Apply(s.core, e)))
  {
    hide Inv, Apply;
    forall t | t in s.pending
      ensures t in Apply(s.core, e).threads && Apply(s.core, e).threads[t].stat in {Suspended, Closed}
    {
      StaysSuspended(s.core, e, t);
    }
  }

  lemma ResumedPending(s: System, t: Tid)
    requires Known(s.core, t) && PendingOk(s) && t in s.pending
    ensures PendingOk(s.(core := Insert(s.core, t), pending := s.pending - multiset{t}))
  {
    hide Insert;
    InsertElsewhere(s.core, t);
  }

  lemma InsertElsewhere(s: State, t: Tid)
    requires Known(s, t)
    ensures Insert(s, t).threads.Keys == s.threads.Keys
    ensures forall u | u in s.threads && u != t :: Insert(s, t).threads[u] == s.threads[u]
  {}

  // If no thread is resumed while a resume of it is under way, each ready thread is in exactly its
  // queue throughout, whatever interrupts and other threads do in the gaps.
  lemma {:induction false} ExclusiveSafe(s: System, es: seq<Step>)
    requires Inv(s.core) && s.core.current.Some? && PendingOk(s) && ExclusiveRun(s, es)
    ensures Inv(After(s, es).core) && PendingOk(After(s, es))
    decreases |es|
  {
    if es != [] {
      PendingStays(s, es[0]);
      StepExact(s, es[0]);
      ExclusiveSafe(Next(s, es[0]), es[1..]);
    }
  }

  // ----- Exited threads -----

  // A thread that has exited stays so, unless a suspend or a resume that has tested its state
  // before goes on.
  lemma ExitIsFinal(s: System, e: Step, t: Tid)
    requires Inv(s.core) && Fits(s, e) && t in s.core.threads && s.core.threads[t].stat == Closed
    ensures t in Next(s, e).core.threads
    ensures Next(s, e).core.threads[t].stat == Closed <==> e != SuspendEnd(t) && e != ResumeEnd(t)
  {
    hide QueuesOk, Apply;
    match e
    case Whole(e) => StaysClosed(s.core, e, t);
    case StartupBegin(u) =>
    case ResumeBegin(u) =>
    case ResumeEnd(u) => InsertElsewhere(s.core, u);
    case SuspendBegin(u) =>
    case SuspendEnd(u) => LeaveKeeps(s.core, u);
  }

  lemma StaysClosed(s: State, e: Event, t: Tid)
    requires Inv(s) && Enabled(s, e) && t in s.threads && s.threads[t].stat == Closed
    ensures t in Apply(s, e).threads && Apply(s, e).threads[t].stat == Closed
  {
    hide QueuesOk, Schedule, TopRuns;
    match e
    case Startup(u) =>
      StartupSafe(s, u);
      var th := s.threads[u];
      ScheduleClosed(DoResume(s.(threads := s.threads[u := th.(prio := th.initPrio, stat := Suspended)]), u), t);
    case Timeout(u) => ResumeSafe(s, u); ScheduleClosed(Insert(s, u), t);
    case Yield => ScheduleClosed(s, t);
    case Exit =>
      ExitSafe(s);
      ScheduleClosed(SetStat(Remove(s, s.current.value), s.current.value, Closed), t);
    case ExitCritical =>
      NestSafe(s, 0);
      ScheduleClosed(s.(lockNest := 0), t);
    case Tick => ChargeSafe(s); ScheduleClosed(Charge(s), t);
    case _ =>
  }

  lemma ScheduleClosed(s: State, t: Tid)
    requires Inv(s) && s.current.Some? && t in s.threads && s.threads[t].stat == Closed
    ensures t in Schedule(s).threads && Schedule(s).threads[t].stat == Closed
  {
    if s.lockNest == 0 && ReadyPrios(s) != {} { TopIsReady(s); }
  }

  // A suspend that another thread has begun brings back the thread that exits in the gap.
  lemma SuspendRevives(s: System, t: Tid)
    requires Inv(s.core) && s.core.current == Some(t) && s.core.threads[t].stat == Running && t in s.suspending
    ensures
      var gone := Next(s, Whole(Exit));
      Inv(gone.core) && Fits(gone, SuspendEnd(t)) && gone.core.threads[t].stat == Closed &&
      var back := Next(gone, SuspendEnd(t)).core;
      t in back.threads && back.threads[t].stat == Suspended
  {
    hide QueuesOk, Schedule, TopRuns;
    LeaveSafe(s.core);
    ExitSafe(s.core);
    ScheduleClosed(SetStat(Remove(s.core, t), t, Closed), t);
    LeaveKeeps(Next(s, Whole(Exit)).core, t);
  }

  // ----- A second resume -----

  // The condition is needed: a waiting thread that is resumed a second time in the gap, by an
  // interrupt say, is put into its queue twice.
  lemma SecondResumeBreaks(s: System, t: Tid)
    requires Inv(s.core) && s.core.current.Some? && t in s.core.threads
    requires s.core.threads[t].stat == Suspended && s.core.current != Some(t)
    ensures
      var gap := Next(s, ResumeBegin(t));
      Inv(gap.core) && Fits(gap, Whole(Resume(t))) &&
      var woken := Next(gap, Whole(Resume(t)));
      Inv(woken.core) && Fits(woken, ResumeEnd(t)) && !Inv(Next(woken, ResumeEnd(t)).core) &&
      var p, table := s.core.threads[t].prio, Next(woken, ResumeEnd(t)).core.table;
      p < |s.core.table| == |table| && table[p] == s.core.table[p] + [t, t]
  {
    ResumeSafe(s.core, t);
    EndExact(Insert(s.core, t), t);
    assert s.core.table[s.core.threads[t].prio] + [t] + [t] == s.core.table[s.core.threads[t].prio] + [t, t];
  }
}

// Whether a timer that is marked active is pending and the other way round (src/timer.c): the flag
// is all that rt_timer_stop looks at.
module TimerFlags {
  import opened Lists
  import opened TimerQueue

  // Timers that no rt_timer_stop is half done with
  ghost predicate Agrees(s: State) {
    forall t :: t !in s.stopping ==> (t in s.list <==> t in s.active)
  }

  // ----- one step -----

  // Whether the acts leave t started: the last one that starts or stops it starts it.
  predicate StartsLast(acts: seq<Act>, t: Id, before: bool) {
    if acts == [] then before
    else StartsLast(acts[1..], t, if acts[0] == Start(t) then true else if acts[0] == Stop(t) then false else before)
  }

  predicate PeriodicLast(acts: seq<Act>, t: Id, before: bool) {
    if acts == [] then before
    else PeriodicLast(acts[1..], t, if acts[0].SetPeriodic? && acts[0].id == t then acts[0].periodic else before)
  }

  // The timeout function about to run starts its own timer, does not stop it again, and the timer
  // is not periodic afterwards.
  ghost predicate SelfRestarts(c: Config, s: State)
    requires s.list != []
  {
    var t := s.list[0];
    t !in s.stopping && StartsLast(Acts(c, s), t, false) && !PeriodicLast(Acts(c, s), t, t in s.periodic)
  }

  lemma PerformAgrees(c: Config, s: State, a: Act, but: Id)
    requires Inv(c, s) && ActOk(c, a)
    requires forall t :: t != but && t !in s.stopping ==> (t in s.list <==> t in s.active)
    ensures
      var e := Perform(s, a);
      && e.stopping == s.stopping
      && (forall t :: t != but && t !in e.stopping ==> (t in e.list <==> t in e.active))
  {
    hide LogOk, Ordered, Without;
    ListedOk(c, s);
    StopIs(s, a.id);
    if a.Start? { StartMembers(s, a.id); }
  }

  // The acts of its own timeout function on a timer that is out of the list and still marked active
  lemma {:induction false} OwnActs(c: Config, s: State, acts: seq<Act>, t: Id)
    requires Inv(c, s) && forall i :: 0 <= i < |acts| ==> ActOk(c, acts[i])
    requires t in s.list ==> t in s.active
    requires forall u :: u != t && u !in s.stopping ==> (u in s.list <==> u in s.active)
    ensures
      var e := PerformAll(c, s, acts);
      && e.stopping == s.stopping && Inv(c, e)
      && (t in e.list ==> t in e.active) && (t in e.list <==> StartsLast(acts, t, t in s.list))
      && (t in e.periodic <==> PeriodicLast(acts, t, t in s.periodic))
      && (forall u :: u != t && u !in e.stopping ==> (u in e.list <==> u in e.active))
    decreases |acts|
  {
    if acts != [] {
      hide Inv, Perform;
      PerformSafe(c, s, acts[0]);
      PerformAgrees(c, s, acts[0], t);
      OwnAct(c, s, acts[0], t);
      OwnActs(c, Perform(s, acts[0]), acts[1..], t);
    }
  }

  lemma OwnAct(c: Config, s: State, a: Act, t: Id)
    requires Inv(c, s) && ActOk(c, a) && (t in s.list ==> t in s.active)
    ensures
      var e := Perform(s, a);
      && (t in e.list ==> t in e.active)
      && (t in e.list <==> if a == Start(t) then true else if a == Stop(t) then false else t in s.list)
      && (t in e.periodic <==> if a.SetPeriodic? && a.id == t then a.periodic else t in s.periodic)
  {
    hide LogOk, Ordered, Without;
    ListedOk(c, s);
    StopIs(s, a.id);
    if a.Start? { StartMembers(s, a.id); }
  }

  // Serving a timer parts pending from active exactly if it restarts itself.
  lemma FireAgrees(c: Config, s: State)
    requires Inv(c, s) && ConfigOk(c) && IsDue(s) && Fresh(s) && Agrees(s)
    ensures Agrees(FireFirst(c, s)) <==> !SelfRestarts(c, s)
    ensures FireFirst(c, s).stopping == s.stopping
  {
    hide ListOk, LogOk, Fresh, Rearmed;
    PoppedSafe(c, s);
    var t, p := s.list[0], Popped(s);
    OwnActs(c, p, Acts(c, s), t);
    RearmAgrees(c, PerformAll(c, p, Acts(c, s)), t);
  }

  // After its timeout function a timer is pending exactly if it is marked active, except when the
  // function itself started a timer that is not periodic.
  lemma RearmAgrees(c: Config, s: State, t: Id)
    requires Inv(c, s) && t in c.ids && (t in s.list ==> t in s.active)
    ensures
      var e := Rearmed(s, t);
      && e.stopping == s.stopping
      && ((t in e.list <==> t in e.active) <==> !(t in s.list && t !in s.periodic))
      && (forall u :: u != t ==> (u in e.list <==> u in s.list) && (u in e.active <==> u in s.active))
  {
    hide LogOk, Ordered;
    ListedOk(c, s);
    if t in s.periodic && t in s.active { StartMembers(s.(active := s.active - {t}), t); }
  }

  // ----- a whole check -----

  ghost predicate NoneRestarts(c: Config, s: State)
    requires Inv(c, s) && ConfigOk(c) && Positive(s) && Fresh(s)
    decreases Overdue(s)
  {
    IsDue(s) ==>
      (FireFirstSafe(c, s);
       !SelfRestarts(c, s) && NoneRestarts(c, FireFirst(c, s)))
  }

  // Before, after and between the timeout functions of the check
  ghost predicate CheckAgrees(c: Config, s: State)
    requires Inv(c, s) && ConfigOk(c) && Positive(s) && Fresh(s)
    decreases Overdue(s)
  {
    Agrees(s) && (IsDue(s) ==> (FireFirstSafe(c, s); CheckAgrees(c, FireFirst(c, s))))
  }

  lemma {:induction false} CheckExact(c: Config, s: State)
    requires Inv(c, s) && ConfigOk(c) && Positive(s) && Fresh(s) && Agrees(s)
    ensures CheckAgrees(c, s) <==> NoneRestarts(c, s)
    ensures NoneRestarts(c, s) ==> Agrees(Check(c, s))
    decreases Overdue(s)
  {
    hide Inv, Fresh, Agrees, FireFirst, SelfRestarts;
    if IsDue(s) {
      FireFirstSafe(c, s);
      FireAgrees(c, s);
      if Agrees(FireFirst(c, s)) { CheckExact(c, FireFirst(c, s)); }
    }
  }

  // ----- runs -----

  // A stop whose timer was started again before it cleared the flag, or a self-restart
  ghost predicate Parts(c: Config, s: State, e: Event)
    requires ConfigOk(c) && Inv(c, s) && Quiet(s) && Enabled(c, s, e)
  {
    match e
    case StopEnd(t) => s.stopping[t] == 1 && t in s.list
    case Tick => TickSafe(c, s); !NoneRestarts(c, s.(now := s.now + 1))
    case _ => false
  }

  // Pending and active agree all through the event.
  ghost predicate EventAgrees(c: Config, s: State, e: Event)
    requires ConfigOk(c) && Inv(c, s) && Quiet(s) && Enabled(c, s, e)
  {
    match e
    case Tick => TickSafe(c, s); CheckAgrees(c, s.(now := s.now + 1))
    case _ => Agrees(Apply(c, s, e))
  }

  lemma EventExact(c: Config, s: State, e: Event)
    requires ConfigOk(c) && Inv(c, s) && Quiet(s) && Enabled(c, s, e) && Agrees(s)
    ensures EventAgrees(c, s, e) <==> !Parts(c, s, e)
    ensures EventAgrees(c, s, e) ==> Agrees(Apply(c, s, e))
  {
    hide ListOk, LogOk, Quiet, Without, Ordered, Check, Perform, StartBegin, StartEnd, NoneRestarts;
    match e
    case Do(a) => DoAgrees(c, s, a);
    case Begin(t) => BeginAgrees(c, s, t);
    case End(t) => EndAgrees(c, s, t);
    case StopTest(t) =>
    case StopBegin(t) =>
    case StopEnd(t) => StopEndExact(s, t);
    case Tick =>
      TickSafe(c, s);
      CheckExact(c, s.(now := s.now + 1));
  }

  lemma DoAgrees(c: Config, s: State, a: Act)
    requires Inv(c, s) && ActOk(c, a) && Agrees(s)
    ensures Agrees(Perform(s, a))
  {
    hide Inv, StartTimer, StopTimer;
    match a
    case Start(t) => StartAgrees(c, s, t);
    case Stop(t) => StopAgrees(s, t);
    case _ =>
  }

  lemma StartAgrees(c: Config, s: State, t: Id)
    requires Inv(c, s) && t in c.ids && Agrees(s)
    ensures (forall x :: x in s.list ==> x in s.due) && Agrees(StartTimer(s, t))
  {
    hide LogOk, Ordered;
    ListedOk(c, s);
    StartMembers(s, t);
  }

  lemma StopAgrees(s: State, t: Id)
    requires Agrees(s)
    ensures Agrees(StopTimer(s, t))
  {
    StopIs(s, t);
  }

  lemma BeginAgrees(c: Config, s: State, t: Id)
    requires Inv(c, s) && t in c.ids && Agrees(s)
    ensures Agrees(StartBegin(s, t))
  {
    BeginMembers(s, t);
  }

  lemma EndAgrees(c: Config, s: State, t: Id)
    requires Inv(c, s) && t in s.starting && Agrees(s)
    ensures Agrees(StartEnd(s, t))
  {
    hide LogOk, Ordered;
    ListedOk(c, s);
    EndMembers(s, t);
  }

  // The last step of a stop, when no other stop of the timer is under way
  lemma StopEndExact(s: State, t: Id)
    requires Agrees(s) && t in s.stopping
    ensures Agrees(EndStop(s, t)) <==> !(s.stopping[t] == 1 && t in s.list)
  {
    var e := EndStop(s, t);
    assert forall u :: u in e.stopping <==> u in s.stopping && (u != t || s.stopping[t] > 1);
  }

  ghost predicate AlwaysAgrees(c: Config, s: State, es: seq<Event>)
    requires ConfigOk(c) && Inv(c, s) && Quiet(s)
    decreases |es|
  {
    Agrees(s) &&
    (es != [] && Enabled(c, s, es[0]) ==>
       (EventSafe(c, s, es[0]);
        EventAgrees(c, s, es[0]) && AlwaysAgrees(c, Apply(c, s, es[0]), es[1..])))
  }

  ghost predicate NeverParts(c: Config, s: State, es: seq<Event>)
    requires ConfigOk(c) && Inv(c, s) && Quiet(s)
    decreases |es|
  {
    es != [] && Enabled(c, s, es[0]) ==>
      (EventSafe(c, s, es[0]);
       !Parts(c, s, es[0]) && NeverParts(c, Apply(c, s, es[0]), es[1..]))
  }

  // Over a run, in every state that is reached, a timer is pending exactly if it is marked active,
  // stops under way aside, if and only if no timeout function restarts its own one-shot timer and no
  // timer is pending when an rt_timer_stop of it clears the flag.
  lemma {:induction false} RunAgrees(c: Config, s: State, es: seq<Event>)
    requires ConfigOk(c) && Inv(c, s) && Quiet(s) && Agrees(s)
    ensures AlwaysAgrees(c, s, es) <==> NeverParts(c, s, es)
    decreases |es|
  {
    hide Inv, Quiet, Agrees, EventAgrees, Parts;
    if es != [] && Enabled(c, s, es[0]) {
      EventSafe(c, s, es[0]);
      EventExact(c, s, es[0]);
      if EventAgrees(c, s, es[0]) { RunAgrees(c, Apply(c, s, es[0]), es[1..]); }
    }
  }

  // ----- a start between the removal and the clearing of the flag -----

  // Nothing inserts the timer.
  ghost predicate NotInserted(c: Config, es: seq<Event>, t: Id) {
    && (forall i :: 0 <= i < |es| ==> es[i] != End(t) && es[i] != Do(Start(t)))
    && (forall u, n, i :: u in c.ids && 0 <= i < |c.callback(u, n)| ==> c.callback(u, n)[i] != Start(t))
  }

  // A timer that was removed is not pending when the flag is cleared, unless it was started again.
  lemma {:induction false} StaysOut(c: Config, s: State, es: seq<Event>, last: State, t: Id)
    requires ConfigOk(c) && Inv(c, s) && Quiet(s) && Runs(c, s, es, last)
    requires t !in s.list && NotInserted(c, es, t)
    ensures t !in last.list
    decreases |es|
  {
    if es != [] {
      hide Inv, Quiet, Apply;
      EventSafe(c, s, es[0]);
      EventStaysOut(c, s, es[0], t);
      StaysOut(c, Apply(c, s, es[0]), es[1..], last, t);
    }
  }

  lemma BeginStaysOut(c: Config, s: State, u: Id, t: Id)
    requires Inv(c, s) && u in c.ids && t !in s.list
    ensures u in s.time && t !in StartBegin(s, u).list
  {
    hide LogOk, Ordered, Without;
    BeginMembers(s, u);
  }

  lemma EventStaysOut(c: Config, s: State, e: Event, t: Id)
    requires ConfigOk(c) && Inv(c, s) && Quiet(s) && Enabled(c, s, e) && t !in s.list
    requires e != End(t) && e != Do(Start(t)) && NotInserted(c, [], t)
    ensures t !in Apply(c, s, e).list
  {
    hide Inv, Quiet, Ordered, Without, Check, Perform;
    match e
    case Do(a) => ActStaysOut(c, s, a, t);
    case Begin(u) => BeginStaysOut(c, s, u, t);
    case End(u) => EndAdds(c, s, u);
    case StopTest(u) =>
    case StopBegin(u) =>
    case StopEnd(u) =>
    case Tick =>
      TickSafe(c, s);
      CheckStaysOut(c, s.(now := s.now + 1), t);
  }

  lemma EndAdds(c: Config, s: State, u: Id)
    requires Inv(c, s) && u in s.starting
    ensures u in s.due && forall x :: x in StartEnd(s, u).list <==> x in s.list || x == u
  {
    hide LogOk, Ordered;
    assert StartingOk(c, s, u);
    ListedOk(c, s);
    EndMembers(s, u);
  }

  lemma ActStaysOut(c: Config, s: State, a: Act, t: Id)
    requires Inv(c, s) && ActOk(c, a) && t !in s.list && a != Start(t)
    ensures t !in Perform(s, a).list
  {
    hide LogOk, Ordered, Without;
    ListedOk(c, s);
    StopIs(s, a.id);
    if a.Start? { StartMembers(s, a.id); }
  }

  lemma {:induction false} ActsStayOut(c: Config, s: State, acts: seq<Act>, t: Id)
    requires Inv(c, s) && t !in s.list && forall i :: 0 <= i < |acts| ==> ActOk(c, acts[i]) && acts[i] != Start(t)
    ensures t !in PerformAll(c, s, acts).list
    decreases |acts|
  {
    if acts != [] {
      hide Inv, Perform;
      PerformSafe(c, s, acts[0]);
      ActStaysOut(c, s, acts[0], t);
      ActsStayOut(c, Perform(s, acts[0]), acts[1..], t);
    }
  }

  lemma {:induction false} CheckStaysOut(c: Config, s: State, t: Id)
    requires Inv(c, s) && ConfigOk(c) && Positive(s) && Fresh(s) && t !in s.list && NotInserted(c, [], t)
    ensures t !in Check(c, s).list
    decreases Overdue(s)
  {
    if IsDue(s) {
      hide Inv, Fresh, FireFirst;
      FireFirstSafe(c, s);
      FireStaysOut(c, s, t);
      CheckStaysOut(c, FireFirst(c, s), t);
    }
  }

  lemma FireStaysOut(c: Config, s: State, t: Id)
    requires Inv(c, s) && ConfigOk(c) && IsDue(s) && Fresh(s) && t !in s.list && NotInserted(c, [], t)
    ensures t !in FireFirst(c, s).list
  {
    hide ListOk, LogOk, Fresh, Rearmed;
    PoppedSafe(c, s);
    var u, p := s.list[0], Popped(s);
    assert u in s.list;
    PerformAllSafe(c, p, Acts(c, s));
    ActsStayOut(c, p, Acts(c, s), t);
    RearmAdds(c, PerformAll(c, p, Acts(c, s)), u);
  }

  lemma RearmAdds(c: Config, s: State, u: Id)
    requires Inv(c, s) && u in c.ids
    ensures forall x :: x in Rearmed(s, u).list ==> x in s.list || x == u
  {
    hide LogOk, Ordered;
    ListedOk(c, s);
    if u in s.periodic && u in s.active { StartMembers(s.(active := s.active - {u}), u); }
  }

  // rt_timer_stop of a pending timer that a timeout function or another thread starts again before
  // the flag is cleared: the timer is pending, and no longer active.
  lemma StartedWhileStopped(c: Config, s: State, t: Id) returns (last: State)
    requires ConfigOk(c) && Inv(c, s) && Quiet(s) && t in c.ids && t in s.active && t !in s.starting
    ensures Runs(c, s, [StopTest(t), StopBegin(t), Do(Start(t)), StopEnd(t)], last)
    ensures Inv(c, last) && t in last.list && t !in last.active && StopTimer(last, t) == last
  {
    hide ListOk, LogOk, Quiet;
    EventSafe(c, s, StopTest(t));
    var s1 := Apply(c, s, StopTest(t));
    EventSafe(c, s1, StopBegin(t));
    var s2 := Apply(c, s1, StopBegin(t));
    EventSafe(c, s2, Do(Start(t)));
    var s3 := Apply(c, s2, Do(Start(t)));
    StartedIsListed(c, s2, t);
    EventSafe(c, s3, StopEnd(t));
    last := Apply(c, s3, StopEnd(t));
    FourSteps(c, s, StopTest(t), StopBegin(t), Do(Start(t)), StopEnd(t));
  }

  lemma FourSteps(c: Config, s: State, a: Event, b: Event, d: Event, e: Event)
    requires ConfigOk(c) && Inv(c, s) && Quiet(s) && Enabled(c, s, a)
    requires Inv(c, Apply(c, s, a)) && Quiet(Apply(c, s, a)) && Enabled(c, Apply(c, s, a), b)
    requires var s2 := Apply(c, Apply(c, s, a), b); Inv(c, s2) && Quiet(s2) && Enabled(c, s2, d)
    requires var s3 := Apply(c, Apply(c, Apply(c, s, a), b), d); Inv(c, s3) && Quiet(s3) && Enabled(c, s3, e)
    ensures Runs(c, s, [a, b, d, e], Apply(c, Apply(c, Apply(c, Apply(c, s, a), b), d), e))
  {
    hide Inv, Quiet, Apply, Enabled;
    var s1 := Apply(c, s, a);
    var s2 := Apply(c, s1, b);
    var s3 := Apply(c, s2, d);
    var es := [a, b, d, e];
    assert es[1..] == [b, d, e] && es[1..][1..] == [d, e] && es[1..][1..][1..] == [e] && es[1..][1..][1..][1..] == [];
    EventSafe(c, s3, e);
    assert Runs(c, s3, [e], Apply(c, s3, e));
    EventSafe(c, s2, d);
    assert Runs(c, s2, [d, e], Apply(c, s3, e));
    EventSafe(c, s1, b);
    assert Runs(c, s1, [b, d, e], Apply(c, s3, e));
    EventSafe(c, s, a);
  }

  lemma StartedIsListed(c: Config, s: State, t: Id)
    requires Inv(c, s) && t in c.ids
    ensures (forall x :: x in s.list ==> x in s.due) && t in StartTimer(s, t).list
    ensures StartTimer(s, t).periodic == s.periodic
  {
    hide LogOk;
    ListedOk(c, s);
    StartMembers(s, t);
  }

  // Such a timer fires once more and is not re-armed, even if it is periodic.
  lemma NotRearmed(c: Config, s: State, t: Id)
    requires Inv(c, s) && ConfigOk(c) && IsDue(s) && Fresh(s) && s.list[0] == t && t !in s.active && Acts(c, s) == []
    ensures t !in FireFirst(c, s).list
  {
    PoppedSafe(c, s);
  }

  // A one-shot timer that its own timeout function restarts is pending, yet rt_timer_stop refuses to
  // stop it.
  lemma SelfRestartCannotBeStopped(c: Config, s: State, t: Id)
    requires Inv(c, s) && ConfigOk(c) && IsDue(s) && Fresh(s) && s.list[0] == t && t in c.ids
    requires Acts(c, s) == [Start(t)] && t !in s.periodic
    ensures t in FireFirst(c, s).list && StopTimer(FireFirst(c, s), t) == FireFirst(c, s)
  {
    hide ListOk, LogOk, Fresh, StartTimer;
    PoppedSafe(c, s);
    var p, acts := Popped(s), Acts(c, s);
    StartedIsListed(c, p, t);
    PerformSafe(c, p, acts[0]);
    assert acts[1..] == [];
    assert PerformAll(c, p, acts) == StartTimer(p, t);
  }
}

// The times and modes of the timers over whole runs (src/timer.c, rt_timer_control): they are what
// was set last, by a thread or by a timeout function, and nothing else.
module TimerSettings {
  import opened Lists
  import opened TimerQueue

  datatype Settings = Settings(time: map<Id, nat>, periodic: set<Id>)

  function Of(s: State): Settings { Settings(s.time, s.periodic) }

  function SetBy(a: Act, g: Settings): Settings {
    match a
    case SetTime(t, d) => g.(time := g.time[t := d])
    case SetPeriodic(t, p) => g.(periodic := if p then g.periodic + {t} else g.periodic - {t})
    case _ => g
  }

  function SetByAll(acts: seq<Act>, g: Settings): Settings {
    if acts == [] then g else SetByAll(acts[1..], SetBy(acts[0], g))
  }

  // What the timeout functions set that ran from the n-th on
  function SetByFirings(c: Config, log: seq<Firing>, n: nat, g: Settings): Settings
    decreases |log| - n
  {
    if n >= |log| then g else SetByFirings(c, log, n + 1, SetByAll(c.callback(log[n].id, n), g))
  }

  lemma PerformSets(s: State, a: Act)
    requires a.id in s.time && forall x :: x in s.list ==> x in s.due
    ensures Of(Perform(s, a)) == SetBy(a, Of(s))
  {}

  lemma {:induction false} PerformAllSets(c: Config, s: State, acts: seq<Act>)
    requires Inv(c, s) && forall i :: 0 <= i < |acts| ==> ActOk(c, acts[i])
    ensures Of(PerformAll(c, s, acts)) == SetByAll(acts, Of(s))
    decreases |acts|
  {
    hide Inv, Perform, Of, SetBy;
    if acts != [] {
      CanPerform(c, s, acts[0]);
      PerformSafe(c, s, acts[0]);
      PerformSets(s, acts[0]);
      PerformAllSets(c, Perform(s, acts[0]), acts[1..]);
    }
  }

  lemma RearmSets(s: State, t: Id)
    requires t in s.time && forall x :: x in s.list ==> x in s.due
    ensures Of(Rearmed(s, t)) == Of(s)
  {}

  lemma FireSets(c: Config, s: State)
    requires Inv(c, s) && ConfigOk(c) && IsDue(s) && Positive(s) && Fresh(s)
    ensures Of(FireFirst(c, s)) == SetByAll(c.callback(s.list[0], |s.log|), Of(s))
    ensures |FireFirst(c, s).log| == |s.log| + 1 && FireFirst(c, s).log[|s.log|].id == s.list[0]
  {
    hide Inv, Fresh, Rearmed;
    FireFirstSafe(c, s);
    PoppedSafe(c, s);
    PerformAllSafe(c, Popped(s), Acts(c, s));
    PerformAllSets(c, Popped(s), Acts(c, s));
    var s1 := PerformAll(c, Popped(s), Acts(c, s));
    ListedKnown(c, s1);
    StillTimed(c, s1, s.list[0]);
    RearmSets(s1, s.list[0]);
  }

  lemma {:induction false} CheckSets(c: Config, s: State)
    requires Inv(c, s) && ConfigOk(c) && Positive(s) && Fresh(s)
    ensures s.log <= Check(c, s).log
    ensures Of(Check(c, s)) == SetByFirings(c, Check(c, s).log, |s.log|, Of(s))
    decreases Overdue(s)
  {
    if IsDue(s) {
      hide Inv, Fresh, Positive, FireFirst;
      FireFirstSafe(c, s);
      FireSets(c, s);
      CheckSafe(c, s);
      CheckSets(c, FireFirst(c, s));
      assert Check(c, s).log[|s.log|] == FireFirst(c, s).log[|s.log|];
    }
  }

  // The settings after an event, and after a run
  ghost function SetByEvent(c: Config, s: State, e: Event, g: Settings): Settings
    requires ConfigOk(c) && Inv(c, s) && Quiet(s) && Enabled(c, s, e)
  {
    match e
    case Do(a) => SetBy(a, g)
    case Tick => SetByFirings(c, Apply(c, s, e).log, |s.log|, g)
    case _ => g
  }

  ghost function SetByRun(c: Config, s: State, es: seq<Event>, g: Settings): Settings
    requires ConfigOk(c) && Inv(c, s) && Quiet(s)
    decreases |es|
  {
    if es == [] || !Enabled(c, s, es[0]) then g
    else
      EventSafe(c, s, es[0]);
      SetByRun(c, Apply(c, s, es[0]), es[1..], SetByEvent(c, s, es[0], g))
  }

  lemma EventSets(c: Config, s: State, e: Event)
    requires ConfigOk(c) && Inv(c, s) && Quiet(s) && Enabled(c, s, e)
    ensures Of(Apply(c, s, e)) == SetByEvent(c, s, e, Of(s))
  {
    hide ListOk, LogOk, Quiet, Fresh, Check;
    match e
    case Do(a) => CanPerform(c, s, a); PerformSets(s, a);
    case Tick => TickSafe(c, s); CheckSets(c, s.(now := s.now + 1));
    case _ =>
  }

  // In every run each timer has the time and the mode that were set last, and the clock has counted
  // the ticks.
  lemma {:induction false} SettingsAreLast(c: Config, s: State, es: seq<Event>, last: State)
    requires ConfigOk(c) && Inv(c, s) && Quiet(s) && Runs(c, s, es, last)
    ensures Of(last) == SetByRun(c, s, es, Of(s))
    ensures last.now == s.now + TickCount(es)
    decreases |es|
  {
    hide Inv, Quiet, Enabled, Apply, SetByEvent;
    if es != [] {
      EventSafe(c, s, es[0]);
      EventSets(c, s, es[0]);
      SettingsAreLast(c, Apply(c, s, es[0]), es[1..], last);
    }
  }

  function TickCount(es: seq<Event>): nat {
    if es == [] then 0 else (if es[0].Tick? then 1 else 0) + TickCount(es[1..])
  }
}

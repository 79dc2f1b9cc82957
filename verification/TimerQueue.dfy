// Hard timers (src/timer.c) and the clock tick that checks them (src/clock.c), on exact times:
// the pending timers are one list, and ticks are not yet reduced modulo 2^32.
module TimerQueue {
  import opened Lists

  type Id = nat

  // RT_TICK_MAX / 2: rt_timer_start asserts that the time is below it. A start that is interrupted
  // for some ticks needs as much less.
  const HALF: nat := 0x7fff_ffff

  // One call of a timeout function
  datatype Firing = Firing(id: Id, armed: nat, entered: nat, due: nat, stamp: nat, at: nat)

  // The last rt_timer_start of a timer computed the deadline `due` at tick `armed` and inserted the
  // timer at tick `entered`; `stamp` numbers the insertions. The timers in `starting` are between
  // the two. `tested` and `stopping` hold a timer for each rt_timer_stop that has tested the flag,
  // or removed the timer as well, and has not come to its next step.
  datatype State = State(
    now: nat, list: seq<Id>, starting: set<Id>, tested: multiset<Id>, stopping: multiset<Id>,
    due: map<Id, nat>, armed: map<Id, nat>, entered: map<Id, nat>, stamp: map<Id, nat>, next: nat,
    time: map<Id, nat>, periodic: set<Id>, active: set<Id>, log: seq<Firing>)

  datatype Act =
    | Start(id: Id)
    | Stop(id: Id)
    | SetTime(id: Id, time: nat)
    | SetPeriodic(id: Id, periodic: bool)

  // What the timeout function of a timer does with timers when it is the n-th one to run, and how
  // many ticks an rt_timer_start may take
  datatype Config = Config(ids: set<Id>, callback: (Id, nat) -> seq<Act>, gap: nat)

  // Begin and End are the halves of rt_timer_start; StopTest, StopBegin and StopEnd are the test of
  // the flag, the removal and the clearing of the flag in rt_timer_stop.
  datatype Event =
    | Do(act: Act)
    | Begin(id: Id)
    | End(id: Id)
    | StopTest(id: Id)
    | StopBegin(id: Id)
    | StopEnd(id: Id)
    | Tick

  ghost predicate ActOk(c: Config, a: Act) {
    a.id in c.ids && (a.SetTime? ==> a.time + c.gap < HALF)
  }

  ghost predicate ConfigOk(c: Config) {
    && c.gap < HALF - 1
    && (forall t, n, i :: t in c.ids && 0 <= i < |c.callback(t, n)| ==>
          ActOk(c, c.callback(t, n)[i]) && (c.callback(t, n)[i].SetTime? ==> c.callback(t, n)[i].time > 0))
  }

  // ----- order -----

  predicate Before(due: map<Id, nat>, stamp: map<Id, nat>, a: Id, b: Id)
    requires a in due && b in due && a in stamp && b in stamp
  {
    due[a] < due[b] || (due[a] == due[b] && stamp[a] < stamp[b])
  }

  // By deadline, and by the order of starting among equal deadlines
  ghost predicate Ordered(q: seq<Id>, due: map<Id, nat>, stamp: map<Id, nat>) {
    && (forall x :: x in q ==> x in due && x in stamp)
    && (forall i, j :: 0 <= i < j < |q| ==> Before(due, stamp, q[i], q[j]))
  }

  // How many timers at the front are due no later than n
  function Place(q: seq<Id>, due: map<Id, nat>, n: nat): (p: nat)
    requires forall x :: x in q ==> x in due
    ensures p <= |q|
    ensures forall j :: 0 <= j < p ==> due[q[j]] <= n
    ensures p < |q| ==> due[q[p]] > n
  {
    if q == [] || due[q[0]] > n then 0 else 1 + Place(q[1..], due, n)
  }

  lemma PlaceUnique(q: seq<Id>, due: map<Id, nat>, stamp: map<Id, nat>, n: nat, p: nat)
    requires Ordered(q, due, stamp) && p <= |q|
    requires (forall j :: 0 <= j < p ==> due[q[j]] <= n) && (p < |q| ==> due[q[p]] > n)
    ensures Place(q, due, n) == p
    ensures forall j :: p <= j < |q| ==> due[q[j]] > n
  {
    assert forall j :: p < j < |q| ==> Before(due, stamp, q[p], q[j]);
  }

  function Inserted(q: seq<Id>, t: Id, p: nat): seq<Id>
    requires p <= |q|
  {
    q[..p] + [t] + q[p..]
  }

  lemma InsertedAt(q: seq<Id>, t: Id, p: nat)
    requires p <= |q|
    ensures |Inserted(q, t, p)| == |q| + 1 && Inserted(q, t, p)[p] == t
    ensures forall i :: 0 <= i < p ==> Inserted(q, t, p)[i] == q[i]
    ensures forall i :: p < i <= |q| ==> Inserted(q, t, p)[i] == q[i - 1]
    ensures forall x :: x in Inserted(q, t, p) <==> x in q || x == t
  {
    forall x ensures x in Inserted(q, t, p) <==> x in q || x == t {
      assert x in q <==> x in q[..p] || x in q[p..];
    }
  }

  // The order of the others does not depend on t.
  lemma StillOrdered(q: seq<Id>, t: Id, due: map<Id, nat>, stamp: map<Id, nat>, n: nat, next: nat)
    requires Ordered(q, due, stamp) && t !in q
    ensures Ordered(q, due[t := n], stamp[t := next])
  {
    var due1, stamp1 := due[t := n], stamp[t := next];
    forall i, j | 0 <= i < j < |q| ensures Before(due1, stamp1, q[i], q[j]) {
      assert Before(due, stamp, q[i], q[j]);
    }
  }

  lemma OrderedAround(q: seq<Id>, t: Id, due: map<Id, nat>, stamp: map<Id, nat>, p: nat)
    requires Ordered(q, due, stamp) && t in due && t in stamp && p <= |q|
    requires forall j :: 0 <= j < p ==> Before(due, stamp, q[j], t)
    requires forall j :: p <= j < |q| ==> Before(due, stamp, t, q[j])
    ensures Ordered(Inserted(q, t, p), due, stamp)
  {
    InsertedAt(q, t, p);
    var r := Inserted(q, t, p);
    forall i, j | 0 <= i < j < |r| ensures Before(due, stamp, r[i], r[j]) {
      if j < p {
        assert Before(due, stamp, q[i], q[j]);
      } else if i > p {
        assert Before(due, stamp, q[i - 1], q[j - 1]);
      } else if i < p && j > p {
        assert Before(due, stamp, q[i], q[j - 1]);
      }
    }
  }

  // A timer started now goes behind all timers that are due no later than it.
  lemma InsertOrdered(q: seq<Id>, t: Id, due: map<Id, nat>, stamp: map<Id, nat>, n: nat, next: nat)
    requires Ordered(q, due, stamp) && t !in q
    requires forall x :: x in q ==> stamp[x] < next
    ensures Ordered(Inserted(q, t, Place(q, due, n)), due[t := n], stamp[t := next])
    ensures forall x :: x in Inserted(q, t, Place(q, due, n)) <==> x in q || x == t
  {
    var p := Place(q, due, n);
    PlaceUnique(q, due, stamp, n, p);
    StillOrdered(q, t, due, stamp, n, next);
    InsertedAt(q, t, p);
    assert forall j :: 0 <= j < |q| ==> q[j] in q;
    OrderedAround(q, t, due[t := n], stamp[t := next], p);
  }

  lemma WithoutOrdered(q: seq<Id>, t: Id, due: map<Id, nat>, stamp: map<Id, nat>)
    requires Ordered(q, due, stamp)
    ensures Ordered(Without(q, t), due, stamp)
  {
    if q != [] {
      var tail := q[1..];
      forall i, j | 0 <= i < j < |tail| ensures Before(due, stamp, tail[i], tail[j]) {
        assert Before(due, stamp, q[i + 1], q[j + 1]);
      }
      WithoutOrdered(tail, t, due, stamp);
      forall x | x in tail ensures Before(due, stamp, q[0], x) {
        var i :| 0 <= i < |tail| && tail[i] == x;
        assert Before(due, stamp, q[0], q[i + 1]);
      }
      var r := Without(q, t);
      if q[0] != t {
        forall i, j | 0 <= i < j < |r| ensures Before(due, stamp, r[i], r[j]) {
          if i == 0 {
            assert r[j] in Without(tail, t);
          } else {
            assert Before(due, stamp, Without(tail, t)[i - 1], Without(tail, t)[j - 1]);
          }
        }
      }
    }
  }

  // ----- the operations -----

  // The first half of rt_timer_start: out of the list, and the new deadline.
  function StartBegin(s: State, t: Id): State
    requires t in s.time
  {
    s.(list := Without(s.list, t), starting := s.starting + {t}, due := s.due[t := s.now + s.time[t]],
       armed := s.armed[t := s.now], active := s.active - {t})
  }

  // The second half: into the list, at a later tick perhaps.
  function StartEnd(s: State, t: Id): State
    requires t in s.due && forall x :: x in s.list ==> x in s.due
  {
    s.(list := Inserted(s.list, t, Place(s.list, s.due, s.due[t])), starting := s.starting - {t},
       entered := s.entered[t := s.now], stamp := s.stamp[t := s.next], next := s.next + 1, active := s.active + {t})
  }

  // Both, with interrupts disabled by the caller as in rt_timer_check
  function StartTimer(s: State, t: Id): State
    requires t in s.time && forall x :: x in s.list ==> x in s.due
  {
    StartEnd(StartBegin(s, t), t)
  }

  // rt_timer_stop: a timer that is not active is an error, and nothing changes.
  function TestStop(s: State, t: Id): State {
    if t !in s.active then s else s.(tested := s.tested + multiset{t})
  }

  // The locked removal
  function BeginStop(s: State, t: Id): State {
    s.(list := Without(s.list, t), tested := s.tested - multiset{t}, stopping := s.stopping + multiset{t})
  }

  // The flag is cleared with interrupts enabled again.
  function EndStop(s: State, t: Id): State {
    s.(stopping := s.stopping - multiset{t}, active := s.active - {t})
  }

  // All three, with interrupts disabled by the caller
  function StopTimer(s: State, t: Id): State {
    if t !in s.active then s else EndStop(BeginStop(TestStop(s, t), t), t)
  }

  lemma StopIs(s: State, t: Id)
    ensures StopTimer(s, t) == if t !in s.active then s else s.(list := Without(s.list, t), active := s.active - {t})
  {
    assert s.tested + multiset{t} - multiset{t} == s.tested;
    assert s.stopping + multiset{t} - multiset{t} == s.stopping;
  }

  function Perform(s: State, a: Act): State
    requires a.id in s.time && forall x :: x in s.list ==> x in s.due
  {
    match a
    case Start(t) => StartTimer(s, t)
    case Stop(t) => StopTimer(s, t)
    case SetTime(t, d) => s.(time := s.time[t := d])
    case SetPeriodic(t, p) => s.(periodic := if p then s.periodic + {t} else s.periodic - {t})
  }

  // The tick of the first check that finds the timer in the list and due
  function Serve(due: nat, entered: nat): nat { if due > entered then due else entered + 1 }

  // A pending timer has not missed that check, and its deadline is near enough to compare.
  ghost predicate PendingOk(c: Config, s: State, t: Id) {
    && t in s.due && t in s.armed && t in s.entered && t in s.stamp && s.stamp[t] < s.next
    && s.armed[t] <= s.due[t] && s.due[t] + c.gap < s.armed[t] + HALF
    && s.armed[t] <= s.entered[t] <= s.now && s.entered[t] <= s.armed[t] + c.gap
    && s.now <= Serve(s.due[t], s.entered[t])
  }

  ghost predicate StartingOk(c: Config, s: State, t: Id) {
    && t in s.due && t in s.armed && s.armed[t] <= s.due[t] && s.due[t] + c.gap < s.armed[t] + HALF
    && s.armed[t] <= s.now <= s.armed[t] + c.gap
  }

  ghost predicate Precedes(f: Firing, at: nat, due: nat, stamp: nat) {
    f.at < at || (f.at == at && (f.due < due || (f.due == due && f.stamp < stamp)))
  }

  // A timeout function ran in the first check it could.
  ghost predicate FiringOk(s: State, f: Firing) {
    f.armed <= f.due && f.armed <= f.entered && f.at == Serve(f.due, f.entered) && f.at <= s.now && f.stamp < s.next
  }

  ghost predicate Inv(c: Config, s: State) {
    && s.time.Keys == c.ids && (forall t :: t in c.ids ==> s.time[t] + c.gap < HALF)
    && ListOk(c, s) && LogOk(s)
  }

  ghost predicate ListOk(c: Config, s: State) {
    && Ordered(s.list, s.due, s.stamp)
    && (forall t :: t in s.list ==> t in c.ids && t !in s.starting && PendingOk(c, s, t))
    && (forall t :: t in s.starting ==> t in c.ids && StartingOk(c, s, t))
  }

  ghost predicate LogOk(s: State) {
    && (forall i :: 0 <= i < |s.log| ==> FiringOk(s, s.log[i]))
    // timeout functions run tick after tick, within one in the order of deadlines, then of insertion
    && (forall i, j :: 0 <= i < j < |s.log| ==> Precedes(s.log[i], s.log[j].at, s.log[j].due, s.log[j].stamp))
    && (forall i, t :: 0 <= i < |s.log| && t in s.list ==>
          (&& t in s.due && t in s.entered && t in s.stamp
           && Precedes(s.log[i], Serve(s.due[t], s.entered[t]), s.due[t], s.stamp[t])))
  }

  // All timers have a positive time.
  ghost predicate Positive(s: State) { forall t :: t in s.time ==> s.time[t] > 0 }

  // Between two ticks everything that was due at a check has been served.
  ghost predicate Quiet(s: State) {
    forall t :: t in s.list ==> t in s.due && t in s.entered && s.now < Serve(s.due[t], s.entered[t])
  }

  // During a check only timers inserted before it are due.
  ghost predicate Fresh(s: State) {
    forall t :: t in s.list ==> t in s.due && t in s.entered && (s.due[t] <= s.now ==> s.entered[t] < s.now)
  }

  lemma BeginMembers(s: State, t: Id)
    requires t in s.time && Ordered(s.list, s.due, s.stamp)
    ensures Ordered(StartBegin(s, t).list, StartBegin(s, t).due, s.stamp)
    ensures forall x :: x in StartBegin(s, t).list <==> x in s.list && x != t
  {
    WithoutOrdered(s.list, t, s.due, s.stamp);
    OrderedElsewhere(Without(s.list, t), t, s.due, s.stamp, s.now + s.time[t]);
  }

  lemma OrderedElsewhere(q: seq<Id>, t: Id, due: map<Id, nat>, stamp: map<Id, nat>, n: nat)
    requires Ordered(q, due, stamp) && t !in q
    ensures Ordered(q, due[t := n], stamp)
  {
    forall i, j | 0 <= i < j < |q| ensures Before(due[t := n], stamp, q[i], q[j]) {
      assert q[i] in q && q[j] in q && Before(due, stamp, q[i], q[j]);
    }
  }

  lemma EndMembers(s: State, t: Id)
    requires t in s.due && t !in s.list && Ordered(s.list, s.due, s.stamp)
    requires forall x :: x in s.list ==> s.stamp[x] < s.next
    ensures Ordered(StartEnd(s, t).list, s.due, StartEnd(s, t).stamp)
    ensures forall x :: x in StartEnd(s, t).list <==> x in s.list || x == t
  {
    hide Place, Inserted;
    assert s.due[t := s.due[t]] == s.due;
    InsertOrdered(s.list, t, s.due, s.stamp, s.due[t], s.next);
  }

  lemma StartMembers(s: State, t: Id)
    requires t in s.time && Ordered(s.list, s.due, s.stamp)
    requires forall x :: x in s.list ==> s.stamp[x] < s.next
    ensures Ordered(StartTimer(s, t).list, StartTimer(s, t).due, StartTimer(s, t).stamp)
    ensures forall x :: x in StartTimer(s, t).list <==> x in s.list || x == t
  {
    hide Place, Inserted, Without;
    BeginMembers(s, t);
    EndMembers(StartBegin(s, t), t);
  }

  lemma BeginSafe(c: Config, s: State, t: Id)
    requires Inv(c, s) && t in c.ids
    ensures Inv(c, StartBegin(s, t))
    ensures Quiet(s) ==> Quiet(StartBegin(s, t))
  {
    hide Ordered, Precedes, Without;
    BeginMembers(s, t);
    var e := StartBegin(s, t);
    forall x | x in e.list ensures PendingOk(c, e, x) { assert PendingOk(c, s, x); }
    forall x | x in e.starting ensures StartingOk(c, e, x) { if x != t { assert StartingOk(c, s, x); } }
    forall i | 0 <= i < |e.log| ensures FiringOk(e, e.log[i]) { assert FiringOk(s, s.log[i]); }
  }

  lemma EndSafe(c: Config, s: State, t: Id)
    requires Inv(c, s) && t in s.starting
    ensures Inv(c, StartEnd(s, t))
    ensures Quiet(s) ==> Quiet(StartEnd(s, t))
  {
    hide Place, Inserted;
    var e := StartEnd(s, t);
    assert StartingOk(c, s, t);
    assert forall x :: x in s.list ==> PendingOk(c, s, x);
    EndMembers(s, t);
    EndPending(c, s, t);
    EndLog(c, s, t);
  }

  lemma EndPending(c: Config, s: State, t: Id)
    requires Inv(c, s) && t in s.starting && forall x :: x in StartEnd(s, t).list <==> x in s.list || x == t
    ensures
      var e := StartEnd(s, t);
      && (forall x :: x in e.list ==> x in c.ids && x !in e.starting && PendingOk(c, e, x))
      && (forall x :: x in e.starting ==> x in c.ids && StartingOk(c, e, x))
      && (Quiet(s) ==> Quiet(e))
  {
    hide Place, Inserted, Ordered, LogOk;
    var e := StartEnd(s, t);
    assert StartingOk(c, s, t);
    forall x | x in e.list ensures x in c.ids && x !in e.starting && PendingOk(c, e, x) {
      if x != t { assert PendingOk(c, s, x); }
    }
    forall x | x in e.starting ensures StartingOk(c, e, x) { assert StartingOk(c, s, x); }
  }

  lemma EndLog(c: Config, s: State, t: Id)
    requires Inv(c, s) && t in s.starting && forall x :: x in StartEnd(s, t).list <==> x in s.list || x == t
    ensures LogOk(StartEnd(s, t))
  {
    hide Place, Inserted, Ordered;
    var e := StartEnd(s, t);
    assert StartingOk(c, s, t);
    forall i | 0 <= i < |e.log| ensures FiringOk(e, e.log[i]) { assert FiringOk(s, s.log[i]); }
    forall i, x | 0 <= i < |e.log| && x in e.list
      ensures x in e.due && x in e.entered && x in e.stamp &&
              Precedes(e.log[i], Serve(e.due[x], e.entered[x]), e.due[x], e.stamp[x]) {
      assert FiringOk(s, s.log[i]);
      if x != t { assert Precedes(s.log[i], Serve(s.due[x], s.entered[x]), s.due[x], s.stamp[x]); }
    }
  }

  lemma StartSafe(c: Config, s: State, t: Id)
    requires Inv(c, s) && t in c.ids
    ensures Inv(c, StartTimer(s, t))
    ensures Quiet(s) ==> Quiet(StartTimer(s, t))
  {
    hide ListOk, LogOk, Quiet;
    BeginSafe(c, s, t);
    EndSafe(c, StartBegin(s, t), t);
  }

  lemma StopSafe(c: Config, s: State, t: Id)
    requires Inv(c, s)
    ensures Inv(c, StopTimer(s, t))
    ensures Quiet(s) ==> Quiet(StopTimer(s, t))
  {
    hide Inv, Quiet, TestStop, BeginStop, EndStop;
    TestStopSafe(c, s, t);
    BeginStopSafe(c, TestStop(s, t), t);
    EndStopSafe(c, BeginStop(TestStop(s, t), t), t);
  }

  lemma TestStopSafe(c: Config, s: State, t: Id)
    requires Inv(c, s)
    ensures Inv(c, TestStop(s, t))
    ensures Quiet(s) ==> Quiet(TestStop(s, t))
  {
    hide Ordered, Precedes;
    SameButFlags(c, s, TestStop(s, t));
  }

  lemma EndStopSafe(c: Config, s: State, t: Id)
    requires Inv(c, s)
    ensures Inv(c, EndStop(s, t))
    ensures Quiet(s) ==> Quiet(EndStop(s, t))
  {
    hide Ordered, Precedes;
    SameButFlags(c, s, EndStop(s, t));
  }

  // The flags are not part of the invariant.
  lemma SameButFlags(c: Config, s: State, e: State)
    requires Inv(c, s)
    requires e == s.(tested := e.tested, stopping := e.stopping, active := e.active, periodic := e.periodic)
    ensures Inv(c, e) && (Quiet(s) ==> Quiet(e))
  {
    hide Ordered, Precedes;
    forall x | x in e.list ensures PendingOk(c, e, x) { assert PendingOk(c, s, x); }
    forall x | x in e.starting ensures StartingOk(c, e, x) { assert StartingOk(c, s, x); }
    forall i | 0 <= i < |e.log| ensures FiringOk(e, e.log[i]) { assert FiringOk(s, s.log[i]); }
  }

  lemma BeginStopSafe(c: Config, s: State, t: Id)
    requires Inv(c, s)
    ensures Inv(c, BeginStop(s, t))
    ensures Quiet(s) ==> Quiet(BeginStop(s, t))
  {
    hide Ordered, Precedes, Without;
    WithoutOrdered(s.list, t, s.due, s.stamp);
    var e := BeginStop(s, t);
    forall x | x in e.list ensures PendingOk(c, e, x) { assert PendingOk(c, s, x); }
    forall x | x in e.starting ensures StartingOk(c, e, x) { assert StartingOk(c, s, x); }
    forall i | 0 <= i < |e.log| ensures FiringOk(e, e.log[i]) { assert FiringOk(s, s.log[i]); }
  }

  lemma PerformSafe(c: Config, s: State, a: Act)
    requires Inv(c, s) && ActOk(c, a)
    ensures Inv(c, Perform(s, a))
    ensures Quiet(s) ==> Quiet(Perform(s, a))
  {
    match a
    case Start(t) => StartSafe(c, s, t);
    case Stop(t) => StopSafe(c, s, t);
    case _ => SettingsSafe(c, s, a);
  }

  lemma SettingsSafe(c: Config, s: State, a: Act)
    requires Inv(c, s) && ActOk(c, a) && (a.SetTime? || a.SetPeriodic?)
    ensures Inv(c, Perform(s, a))
    ensures Quiet(s) ==> Quiet(Perform(s, a))
  {
    hide Ordered, Precedes;
    var e := Perform(s, a);
    forall x | x in e.list ensures PendingOk(c, e, x) { assert PendingOk(c, s, x); }
    forall x | x in e.starting ensures StartingOk(c, e, x) { assert StartingOk(c, s, x); }
    forall i | 0 <= i < |e.log| ensures FiringOk(e, e.log[i]) { assert FiringOk(s, s.log[i]); }
  }

  // ----- the expiry loop of rt_timer_check -----

  ghost function PerformAll(c: Config, s: State, acts: seq<Act>): State
    requires Inv(c, s) && forall i :: 0 <= i < |acts| ==> ActOk(c, acts[i])
    decreases |acts|
  {
    if acts == [] then s
    else
      hide Inv, Perform;
      PerformSafe(c, s, acts[0]);
      PerformAll(c, Perform(s, acts[0]), acts[1..])
  }

  // The first timer is taken out and its timeout function is about to run.
  function Popped(s: State): State
    requires s.list != [] && Known(s, s.list[0])
  {
    var t := s.list[0];
    s.(list := s.list[1..], log := s.log + [Firing(t, s.armed[t], s.entered[t], s.due[t], s.stamp[t], s.now)])
  }

  predicate Known(s: State, t: Id) { t in s.armed && t in s.entered && t in s.due && t in s.stamp }

  // After its timeout function a periodic timer that was not stopped starts again.
  function Rearmed(s: State, t: Id): State
    requires t in s.time && forall x :: x in s.list ==> x in s.due
  {
    if t in s.periodic && t in s.active then StartTimer(s.(active := s.active - {t}), t)
    else s.(active := s.active - {t})
  }

  ghost predicate IsDue(s: State) { s.list != [] && s.list[0] in s.due && s.due[s.list[0]] <= s.now }

  // The first timer is served at its tick, before all others.
  lemma HeadFirst(c: Config, s: State)
    requires Inv(c, s) && IsDue(s) && Fresh(s)
    ensures s.list[0] in c.ids && Known(s, s.list[0]) && PendingOk(c, s, s.list[0])
    ensures s.now == Serve(s.due[s.list[0]], s.entered[s.list[0]])
    ensures Ordered(s.list[1..], s.due, s.stamp) && s.list[0] !in s.list[1..]
    ensures forall x :: x in s.list <==> x in s.list[1..] || x == s.list[0]
    ensures forall x | x in s.list[1..] :: x in s.due && x in s.stamp && Before(s.due, s.stamp, s.list[0], x)
  {
    hide LogOk;
    var t, tail := s.list[0], s.list[1..];
    assert t in s.list && PendingOk(c, s, t);
    forall i, j | 0 <= i < j < |tail| ensures Before(s.due, s.stamp, tail[i], tail[j]) {
      assert Before(s.due, s.stamp, s.list[i + 1], s.list[j + 1]);
    }
    forall x | x in tail ensures Before(s.due, s.stamp, t, x) {
      var i :| 0 <= i < |tail| && tail[i] == x;
      assert Before(s.due, s.stamp, s.list[0], s.list[i + 1]);
    }
  }

  lemma PoppedSafe(c: Config, s: State)
    requires Inv(c, s) && IsDue(s) && Fresh(s)
    ensures Known(s, s.list[0]) && s.list[0] in c.ids
    ensures Inv(c, Popped(s)) && Fresh(Popped(s)) && s.list[0] !in Popped(s).list
    ensures forall x :: x in s.list <==> x in Popped(s).list || x == s.list[0]
  {
    hide Ordered;
    HeadFirst(c, s);
    PoppedLog(c, s);
    var e := Popped(s);
    forall x | x in e.list ensures PendingOk(c, e, x) { assert PendingOk(c, s, x); }
    forall x | x in e.starting ensures StartingOk(c, e, x) { assert StartingOk(c, s, x); }
  }

  lemma PoppedLog(c: Config, s: State)
    requires Inv(c, s) && IsDue(s) && Fresh(s) && Known(s, s.list[0])
    ensures LogOk(Popped(s))
  {
    hide Ordered;
    HeadFirst(c, s);
    var t, e := s.list[0], Popped(s);
    forall i, j | 0 <= i < j < |e.log| ensures Precedes(e.log[i], e.log[j].at, e.log[j].due, e.log[j].stamp) {
      if j == |s.log| { assert Precedes(s.log[i], Serve(s.due[t], s.entered[t]), s.due[t], s.stamp[t]); }
    }
    forall i | 0 <= i < |e.log| ensures FiringOk(e, e.log[i]) {
      if i < |s.log| { assert FiringOk(s, s.log[i]); }
    }
    forall i, x | 0 <= i < |e.log| && x in e.list
      ensures Precedes(e.log[i], Serve(s.due[x], s.entered[x]), s.due[x], s.stamp[x]) {
      assert PendingOk(c, s, x);
      if i < |s.log| { assert Precedes(s.log[i], Serve(s.due[x], s.entered[x]), s.due[x], s.stamp[x]); }
    }
  }

  // What the first timer's timeout function is going to do
  function Acts(c: Config, s: State): seq<Act>
    requires s.list != []
  {
    c.callback(s.list[0], |s.log|)
  }

  ghost function FireFirst(c: Config, s: State): State
    requires Inv(c, s) && ConfigOk(c) && IsDue(s) && Fresh(s)
  {
    PoppedSafe(c, s);
    var t := s.list[0];
    var s1 := PerformAll(c, Popped(s), Acts(c, s));
    PerformAllSafe(c, Popped(s), Acts(c, s));
    Rearmed(s1, t)
  }

  ghost function Overdue(s: State): set<Id> {
    set t | t in s.list && t in s.due && s.due[t] <= s.now
  }

  // What the timeout functions never do: fire other timers, or make a timer overdue.
  ghost predicate Later(s: State, e: State) {
    && e.now == s.now && e.log == s.log && (Fresh(s) ==> Fresh(e))
    && (forall t :: t in e.list ==> t in e.due)
    && (forall t :: t in e.list && e.due[t] <= e.now ==> t in s.list && t in s.due && e.due[t] == s.due[t])
  }

  lemma {:induction false} PerformAllSafe(c: Config, s: State, acts: seq<Act>)
    requires Inv(c, s) && forall i :: 0 <= i < |acts| ==> ActOk(c, acts[i])
    ensures Inv(c, PerformAll(c, s, acts))
    decreases |acts|
  {
    if acts != [] {
      hide Inv, Perform;
      PerformSafe(c, s, acts[0]);
      PerformAllSafe(c, Perform(s, acts[0]), acts[1..]);
    }
  }

  lemma {:induction false} PerformAllLater(c: Config, s: State, acts: seq<Act>)
    requires Inv(c, s) && Positive(s)
    requires forall i :: 0 <= i < |acts| ==> ActOk(c, acts[i]) && (acts[i].SetTime? ==> acts[i].time > 0)
    ensures Positive(PerformAll(c, s, acts)) && Later(s, PerformAll(c, s, acts))
    decreases |acts|
  {
    if acts != [] {
      hide Inv, Fresh;
      PerformSafe(c, s, acts[0]);
      PerformLater(c, s, acts[0]);
      PerformAllLater(c, Perform(s, acts[0]), acts[1..]);
      LaterTwice(s, Perform(s, acts[0]), PerformAll(c, s, acts));
    }
  }

  lemma LaterTwice(s: State, m: State, e: State)
    requires Later(s, m) && Later(m, e)
    ensures Later(s, e)
  {
  }

  lemma StartLater(c: Config, s: State, t: Id)
    requires Inv(c, s) && t in c.ids && Positive(s)
    ensures Later(s, StartTimer(s, t))
  {
    hide Place, Inserted, Without, LogOk;
    assert forall x :: x in s.list ==> PendingOk(c, s, x);
    StartMembers(s, t);
  }

  lemma StopLater(c: Config, s: State, t: Id)
    requires Inv(c, s)
    ensures Later(s, StopTimer(s, t))
  {
    hide LogOk, Without, Ordered;
    StopIs(s, t);
    ListedOk(c, s);
  }

  lemma PerformLater(c: Config, s: State, a: Act)
    requires Inv(c, s) && ActOk(c, a) && Positive(s)
    ensures Later(s, Perform(s, a))
    ensures (a.SetTime? ==> a.time > 0) ==> Positive(Perform(s, a))
  {
    hide LogOk, Ordered, StopTimer;
    ListedOk(c, s);
    match a
    case Start(t) => StartLater(c, s, t);
    case Stop(t) => StopLater(c, s, t); StopTimes(s, t);
    case _ =>
  }

  lemma StopTimes(s: State, t: Id)
    ensures StopTimer(s, t).time == s.time
  {}

  lemma InactiveSafe(c: Config, s: State, t: Id)
    requires Inv(c, s)
    ensures Inv(c, s.(active := s.active - {t}))
  {
    SameButFlags(c, s, s.(active := s.active - {t}));
  }

  lemma RearmSafe(c: Config, s: State, t: Id)
    requires Inv(c, s) && t in c.ids && Positive(s)
    ensures Inv(c, Rearmed(s, t)) && Positive(Rearmed(s, t)) && Later(s, Rearmed(s, t))
  {
    hide LogOk, Ordered;
    var s2 := s.(active := s.active - {t});
    InactiveSafe(c, s, t);
    assert forall x :: x in s.list ==> PendingOk(c, s, x);
    assert Later(s, s2);
    if t in s.periodic && t in s.active {
      StartSafe(c, s2, t);
      StartLater(c, s2, t);
      LaterTwice(s, s2, StartTimer(s2, t));
    }
  }

  lemma FireFirstSafe(c: Config, s: State)
    requires Inv(c, s) && ConfigOk(c) && IsDue(s) && Positive(s) && Fresh(s)
    ensures Inv(c, FireFirst(c, s)) && Positive(FireFirst(c, s)) && Fresh(FireFirst(c, s))
    ensures Overdue(FireFirst(c, s)) < Overdue(s)
    ensures Known(s, s.list[0]) && FireFirst(c, s).now == s.now && FireFirst(c, s).log == Popped(s).log
  {
    PoppedSafe(c, s);
    var t, p := s.list[0], Popped(s);
    hide Inv, Fresh, Rearmed;
    PerformAllSafe(c, p, Acts(c, s));
    PerformAllLater(c, p, Acts(c, s));
    var s1 := PerformAll(c, p, Acts(c, s));
    RearmSafe(c, s1, t);
    var e := Rearmed(s1, t);
    LaterTwice(p, s1, e);
    assert Overdue(e) <= Overdue(p) < Overdue(s) by { assert t in Overdue(s) && t !in Overdue(p); }
  }

  // All expired timers are served; serving one never adds an overdue timer, so the loop ends.
  ghost function Check(c: Config, s: State): State
    requires Inv(c, s) && ConfigOk(c) && Positive(s) && Fresh(s)
    decreases Overdue(s)
  {
    if !IsDue(s) then s
    else
      FireFirstSafe(c, s);
      Check(c, FireFirst(c, s))
  }

  lemma {:induction false} CheckSafe(c: Config, s: State)
    requires Inv(c, s) && ConfigOk(c) && Positive(s) && Fresh(s)
    ensures Inv(c, Check(c, s)) && Positive(Check(c, s)) && Quiet(Check(c, s)) && Check(c, s).now == s.now
    ensures s.log <= Check(c, s).log
    decreases Overdue(s)
  {
    if IsDue(s) {
      hide Inv, Fresh, Positive, FireFirst, Quiet;
      FireFirstSafe(c, s);
      CheckSafe(c, FireFirst(c, s));
      assert s.log <= Popped(s).log;
    } else {
      NothingDue(c, s);
    }
  }

  lemma NothingDue(c: Config, s: State)
    requires Inv(c, s) && !IsDue(s)
    ensures Quiet(s)
  {
    hide LogOk;
    forall t | t in s.list ensures t in s.due && t in s.entered && s.now < Serve(s.due[t], s.entered[t]) {
      assert PendingOk(c, s, t);
      var i :| 0 <= i < |s.list| && s.list[i] == t;
      assert i > 0 ==> Before(s.due, s.stamp, s.list[0], s.list[i]);
      assert s.list[0] in s.list;
    }
  }

  // ----- one timer, as long as nothing else touches it -----

  ghost predicate Untouched(c: Config, id: Id)
    requires ConfigOk(c)
  {
    forall t, n, i :: t in c.ids && 0 <= i < |c.callback(t, n)| ==> c.callback(t, n)[i].id != id
  }

  ghost predicate Pending(s: State, id: Id, f: Firing) {
    && id == f.id && id in s.list && Known(s, id)
    && s.armed[id] == f.armed && s.entered[id] == f.entered && s.due[id] == f.due && s.stamp[id] == f.stamp
  }

  // Between the two halves of rt_timer_start
  ghost predicate Half(s: State, id: Id, armed: nat, due: nat) {
    id in s.starting && id !in s.list && id in s.armed && id in s.due && s.armed[id] == armed && s.due[id] == due
  }

  // The timer is still set as it was.
  ghost predicate SameTimer(s: State, e: State, id: Id) {
    && (id in s.list <==> id in e.list) && (id in s.active <==> id in e.active)
    && (id in s.periodic <==> id in e.periodic)
    && (id in s.time <==> id in e.time) && (id in s.time ==> s.time[id] == e.time[id])
    && (forall f :: Pending(s, id, f) ==> Pending(e, id, f))
    && (forall a, d :: Half(s, id, a, d) ==> Half(e, id, a, d))
  }

  lemma PerformKeeps(c: Config, s: State, a: Act, id: Id)
    requires Inv(c, s) && ActOk(c, a) && a.id != id
    ensures SameTimer(s, Perform(s, a), id)
  {
    match a
    case Start(t) => StartKeeps(c, s, t, id);
    case _ =>
  }

  lemma StartKeeps(c: Config, s: State, t: Id, id: Id)
    requires Inv(c, s) && t in c.ids && t != id
    ensures SameTimer(s, StartTimer(s, t), id)
  {
    hide LogOk, Place, Inserted, Without, Ordered;
    ListedOk(c, s);
    StartMembers(s, t);
  }

  lemma ListedOk(c: Config, s: State)
    requires Inv(c, s)
    ensures forall x :: x in s.list ==> PendingOk(c, s, x)
  {}

  lemma {:induction false} PerformAllKeeps(c: Config, s: State, acts: seq<Act>, id: Id)
    requires Inv(c, s) && forall i :: 0 <= i < |acts| ==> ActOk(c, acts[i]) && acts[i].id != id
    ensures SameTimer(s, PerformAll(c, s, acts), id)
    decreases |acts|
  {
    hide Inv, Perform, SameTimer;
    if acts == [] {
      SameTimerSelf(s, id);
    } else {
      CanPerform(c, s, acts[0]);
      PerformSafe(c, s, acts[0]);
      PerformKeeps(c, s, acts[0], id);
      PerformAllKeeps(c, Perform(s, acts[0]), acts[1..], id);
      SameTimerTwice(s, Perform(s, acts[0]), PerformAll(c, s, acts), id);
    }
  }

  lemma CanPerform(c: Config, s: State, a: Act)
    requires Inv(c, s) && ActOk(c, a)
    ensures a.id in s.time && forall x :: x in s.list ==> x in s.due
  {
    hide LogOk, Ordered;
    assert forall x :: x in s.list ==> PendingOk(c, s, x);
  }

  lemma SameTimerSelf(s: State, id: Id)
    ensures SameTimer(s, s, id)
  {}

  lemma SameTimerTwice(s: State, m: State, e: State, id: Id)
    requires SameTimer(s, m, id) && SameTimer(m, e, id)
    ensures SameTimer(s, e, id)
  {}

  lemma RearmKeeps(c: Config, s: State, t: Id, id: Id)
    requires Inv(c, s) && t in c.ids && t != id
    ensures SameTimer(s, Rearmed(s, t), id)
  {
    hide ListOk, LogOk, StartTimer;
    ListedKnown(c, s);
    InactiveSafe(c, s, t);
    if t in s.periodic && t in s.active { StartKeeps(c, s.(active := s.active - {t}), t, id); }
  }

  lemma ListedKnown(c: Config, s: State)
    requires Inv(c, s)
    ensures forall x :: x in s.list ==> x in s.due
  {}

  // Serving another timer leaves this one alone.
  lemma FireOther(c: Config, s: State, id: Id)
    requires Inv(c, s) && ConfigOk(c) && IsDue(s) && Positive(s) && Fresh(s) && Untouched(c, id) && s.list[0] != id
    ensures SameTimer(s, FireFirst(c, s), id)
  {
    hide Inv, Fresh, Rearmed;
    PoppedSafe(c, s);
    var t, p := s.list[0], Popped(s);
    PerformAllSafe(c, p, Acts(c, s));
    PerformAllKeeps(c, p, Acts(c, s), id);
    RearmKeeps(c, PerformAll(c, p, Acts(c, s)), t, id);
    assert SameTimer(s, p, id);
  }

  // Serving this timer logs it; a periodic one is pending again, one period later.
  lemma FireThis(c: Config, s: State, id: Id, f: Firing)
    requires Inv(c, s) && ConfigOk(c) && IsDue(s) && Positive(s) && Fresh(s) && Untouched(c, id) && s.list[0] == id
    requires Pending(s, id, f) && f.at == s.now
    ensures f.at == Serve(f.due, f.entered) && FireFirst(c, s).log == s.log + [f]
    ensures id in FireFirst(c, s).list <==> id in s.periodic && id in s.active
    ensures id in s.periodic && id in s.active ==>
              var e := FireFirst(c, s);
              id in e.active && id in e.periodic && id in e.time && id in s.time && e.time[id] == s.time[id] &&
              id in e.stamp && Pending(e, id, Firing(id, s.now, s.now, s.now + s.time[id], e.stamp[id], 0))
  {
    hide Fresh, ListOk, LogOk, Rearmed;
    PoppedSafe(c, s);
    HeadFirst(c, s);
    var p := Popped(s);
    PerformAllSafe(c, p, Acts(c, s));
    PerformAllKeeps(c, p, Acts(c, s), id);
    FireFirstSafe(c, s);
    RearmThis(c, PerformAll(c, p, Acts(c, s)), id);
  }

  lemma RearmThis(c: Config, s: State, id: Id)
    requires Inv(c, s) && id in c.ids && id !in s.list
    ensures var e := Rearmed(s, id);
            && (id in e.list <==> id in s.periodic && id in s.active)
            && e.periodic == s.periodic && e.time == s.time && e.now == s.now
            && (id in e.list ==>
                  (&& id in e.active && id in e.stamp
                   && Pending(e, id, Firing(id, s.now, s.now, s.now + s.time[id], e.stamp[id], 0))))
  {
    hide LogOk, Ordered;
    ListedOk(c, s);
    if id in s.periodic && id in s.active { StartMembers(s.(active := s.active - {id}), id); }
  }

  // ----- runs: exact firing times -----

  // Interrupts are enabled between the halves of a thread's rt_timer_start; a tick interrupt counts
  // the tick up, then the timers are checked.
  ghost function Apply(c: Config, s: State, e: Event): State
    requires ConfigOk(c) && Inv(c, s) && Quiet(s) && Enabled(c, s, e)
  {
    match e
    case Do(a) => Perform(s, a)
    case Begin(t) => StartBegin(s, t)
    case End(t) => StartEnd(s, t)
    case StopTest(t) => TestStop(s, t)
    case StopBegin(t) => BeginStop(s, t)
    case StopEnd(t) => EndStop(s, t)
    case Tick => TickSafe(c, s); Check(c, s.(now := s.now + 1))
  }

  // A timer is started by one party at a time, and no start takes more than c.gap ticks.
  ghost predicate Enabled(c: Config, s: State, e: Event) {
    match e
    case Do(a) => ActOk(c, a) && (a.Start? ==> a.id !in s.starting)
    case Begin(t) => t in c.ids && t !in s.starting
    case End(t) => t in s.starting
    case StopTest(t) => t in c.ids
    case StopBegin(t) => t in s.tested
    case StopEnd(t) => t in s.stopping
    case Tick =>
      && Positive(s) && (forall t :: t in s.starting ==> t in s.armed && s.now < s.armed[t] + c.gap)
      && (forall t, n, i :: t in c.ids && 0 <= i < |c.callback(t, n)| && c.callback(t, n)[i].Start? ==>
            c.callback(t, n)[i].id !in s.starting)
  }

  lemma TickSafe(c: Config, s: State)
    requires Inv(c, s) && Quiet(s) && Enabled(c, s, Tick)
    ensures Inv(c, s.(now := s.now + 1)) && Fresh(s.(now := s.now + 1))
  {
    hide Ordered, Precedes;
    var e := s.(now := s.now + 1);
    forall t | t in e.list ensures PendingOk(c, e, t) { assert PendingOk(c, s, t); }
    forall t | t in e.starting ensures StartingOk(c, e, t) { assert StartingOk(c, s, t); }
    forall i | 0 <= i < |e.log| ensures FiringOk(e, e.log[i]) { assert FiringOk(s, s.log[i]); }
    forall t | t in e.list && e.due[t] <= e.now ensures e.entered[t] < e.now { assert PendingOk(c, s, t); }
  }

  lemma EventSafe(c: Config, s: State, e: Event)
    requires ConfigOk(c) && Inv(c, s) && Quiet(s) && Enabled(c, s, e)
    ensures Inv(c, Apply(c, s, e)) && Quiet(Apply(c, s, e))
    ensures s.log <= Apply(c, s, e).log && Apply(c, s, e).now == if e.Tick? then s.now + 1 else s.now
  {
    hide ListOk, LogOk, Quiet, Fresh;
    match e
    case Do(a) => PerformSafe(c, s, a);
    case Begin(t) => BeginSafe(c, s, t);
    case End(t) => EndSafe(c, s, t);
    case StopTest(t) => TestStopSafe(c, s, t);
    case StopBegin(t) => BeginStopSafe(c, s, t);
    case StopEnd(t) => EndStopSafe(c, s, t);
    case Tick =>
      var s1 := s.(now := s.now + 1);
      TickSafe(c, s);
      CheckSafe(c, s1);
  }

  ghost predicate Runs(c: Config, s: State, es: seq<Event>, last: State)
    requires ConfigOk(c) && Inv(c, s) && Quiet(s)
    decreases |es|
  {
    if es == [] then last == s
    else Enabled(c, s, es[0]) && (EventSafe(c, s, es[0]); Runs(c, Apply(c, s, es[0]), es[1..], last))
  }

  // Every timeout function runs in the first check that finds its timer in the list and due, and
  // they run in the order of these checks, of deadlines and of insertion; the pending list stays
  // ordered and within half the tick range.
  lemma {:induction false} RunSafe(c: Config, s: State, es: seq<Event>, last: State)
    requires ConfigOk(c) && Inv(c, s) && Quiet(s) && Runs(c, s, es, last)
    ensures Inv(c, last) && Quiet(last) && s.log <= last.log
    decreases |es|
  {
    if es != [] {
      EventSafe(c, s, es[0]);
      RunSafe(c, Apply(c, s, es[0]), es[1..], last);
    }
  }

  // Timers that are inserted before their deadlines run in the order of these, then of insertion.
  lemma InDeadlineOrder(c: Config, s: State, i: nat, j: nat)
    requires Inv(c, s) && i < j < |s.log|
    requires s.log[i].entered < s.log[i].due && s.log[j].entered < s.log[j].due
    ensures s.log[i].due < s.log[j].due || (s.log[i].due == s.log[j].due && s.log[i].stamp < s.log[j].stamp)
  {
    hide ListOk;
    assert FiringOk(s, s.log[i]) && FiringOk(s, s.log[j]);
    assert Precedes(s.log[i], s.log[j].at, s.log[j].due, s.log[j].stamp);
  }

  predicate Touches(e: Event, id: Id) {
    match e
    case Do(a) => a.id == id
    case Begin(t) => t == id
    case End(t) => t == id
    case StopTest(t) => t == id
    case StopBegin(t) => t == id
    case StopEnd(t) => t == id
    case Tick => false
  }

  ghost predicate NotTouchedBy(es: seq<Event>, id: Id) { forall i :: 0 <= i < |es| ==> !Touches(es[i], id) }

  lemma EventKeeps(c: Config, s: State, e: Event, id: Id)
    requires ConfigOk(c) && Inv(c, s) && Quiet(s) && Enabled(c, s, e) && !e.Tick? && !Touches(e, id)
    ensures SameTimer(s, Apply(c, s, e), id)
  {
    match e
    case Do(a) => PerformKeeps(c, s, a, id);
    case Begin(t) => BeginKeeps(c, s, t, id);
    case End(t) => EndKeeps(c, s, t, id);
    case _ =>
  }

  lemma BeginKeeps(c: Config, s: State, t: Id, id: Id)
    requires Inv(c, s) && t in c.ids && t != id
    ensures SameTimer(s, StartBegin(s, t), id)
  {
    hide LogOk, Ordered, Without;
    BeginMembers(s, t);
  }

  lemma EndKeeps(c: Config, s: State, t: Id, id: Id)
    requires Inv(c, s) && t in s.starting && t in s.due && t != id
    ensures SameTimer(s, StartEnd(s, t), id)
  {
    hide LogOk, Ordered, Place, Inserted;
    ListedOk(c, s);
    EndMembers(s, t);
  }

  // A one-shot timer is left as it is until it fires.
  ghost predicate Once(s: State, id: Id, f: Firing) {
    f in s.log || (Pending(s, id, f) && id !in s.periodic)
  }

  lemma {:induction false} CheckOnce(c: Config, s: State, id: Id, f: Firing)
    requires Inv(c, s) && ConfigOk(c) && Positive(s) && Fresh(s) && Untouched(c, id)
    requires Once(s, id, f) && f.at == Serve(f.due, f.entered)
    ensures Once(Check(c, s), id, f)
    decreases Overdue(s)
  {
    if IsDue(s) {
      FireFirstSafe(c, s);
      var e := FireFirst(c, s);
      FireOnce(c, s, id, f);
      CheckOnce(c, e, id, f);
    }
  }

  lemma FireOnce(c: Config, s: State, id: Id, f: Firing)
    requires Inv(c, s) && ConfigOk(c) && Positive(s) && Fresh(s) && Untouched(c, id) && IsDue(s)
    requires Once(s, id, f) && f.at == Serve(f.due, f.entered)
    ensures Once(FireFirst(c, s), id, f)
  {
    FireFirstSafe(c, s);
    var e := FireFirst(c, s);
    if f in s.log {
      assert f in e.log;
    } else if s.list[0] == id {
      HeadFirst(c, s);
      FireThis(c, s, id, f);
      assert e.log[|s.log|] == f;
    } else {
      FireOther(c, s, id);
    }
  }

  lemma StepOnce(c: Config, s: State, e: Event, id: Id, f: Firing)
    requires ConfigOk(c) && Inv(c, s) && Quiet(s) && Enabled(c, s, e) && Untouched(c, id) && !Touches(e, id)
    requires Once(s, id, f) && f.at == Serve(f.due, f.entered)
    ensures Once(Apply(c, s, e), id, f)
  {
    hide Inv, Quiet, Fresh;
    if e.Tick? {
      TickSafe(c, s);
      CheckOnce(c, s.(now := s.now + 1), id, f);
    } else {
      StillOnce(c, s, e, id, f);
    }
  }

  lemma StillOnce(c: Config, s: State, e: Event, id: Id, f: Firing)
    requires ConfigOk(c) && Inv(c, s) && Quiet(s) && Enabled(c, s, e) && !e.Tick? && !Touches(e, id)
    requires Once(s, id, f)
    ensures Once(Apply(c, s, e), id, f)
  {
    hide Inv, Quiet, Fresh, ConfigOk, Apply;
    EventKeeps(c, s, e, id);
    EventSafe(c, s, e);
  }

  // A one-shot timer that was inserted and then left alone runs its timeout function at its
  // deadline if it was inserted before it, else at the tick after its insertion; and not before.
  lemma {:induction false} FiresOnTime(c: Config, s: State, es: seq<Event>, last: State, id: Id, f: Firing)
    requires ConfigOk(c) && Inv(c, s) && Quiet(s) && Runs(c, s, es, last)
    requires Untouched(c, id) && NotTouchedBy(es, id)
    requires Once(s, id, f) && f.at == Serve(f.due, f.entered)
    ensures f in last.log <==> last.now >= f.at
    ensures f !in last.log ==> Pending(last, id, f)
    ensures f.at == f.due <==> f.entered < f.due
    decreases |es|
  {
    if es == [] {
      if f in s.log { assert FiringOk(s, f); }
    } else {
      EventSafe(c, s, es[0]);
      StepOnce(c, s, es[0], id, f);
      FiresOnTime(c, Apply(c, s, es[0]), es[1..], last, id, f);
    }
  }

  // ----- a tick between the halves of rt_timer_start -----

  lemma {:induction false} CheckHalf(c: Config, s: State, id: Id, armed: nat, due: nat)
    requires Inv(c, s) && ConfigOk(c) && Positive(s) && Fresh(s) && Untouched(c, id) && Half(s, id, armed, due)
    ensures Half(Check(c, s), id, armed, due) && (id in Check(c, s).periodic <==> id in s.periodic)
    decreases Overdue(s)
  {
    if IsDue(s) {
      FireFirstSafe(c, s);
      FireOther(c, s, id);
      CheckHalf(c, FireFirst(c, s), id, armed, due);
    }
  }

  lemma {:induction false} HalfStays(c: Config, s: State, es: seq<Event>, last: State, id: Id, armed: nat, due: nat)
    requires ConfigOk(c) && Inv(c, s) && Quiet(s) && Runs(c, s, es, last)
    requires Untouched(c, id) && NotTouchedBy(es, id) && Half(s, id, armed, due)
    ensures Half(last, id, armed, due) && (id in last.periodic <==> id in s.periodic)
    ensures Inv(c, last) && Quiet(last)
    decreases |es|
  {
    if es != [] {
      var e := Apply(c, s, es[0]);
      hide Inv, Quiet, Fresh, Half, Apply;
      EventSafe(c, s, es[0]);
      HalfStep(c, s, es[0], id, armed, due);
      HalfStays(c, e, es[1..], last, id, armed, due);
    }
  }

  lemma HalfStep(c: Config, s: State, e: Event, id: Id, armed: nat, due: nat)
    requires ConfigOk(c) && Inv(c, s) && Quiet(s) && Enabled(c, s, e) && Untouched(c, id) && !Touches(e, id)
    requires Half(s, id, armed, due)
    ensures Half(Apply(c, s, e), id, armed, due) && (id in Apply(c, s, e).periodic <==> id in s.periodic)
  {
    hide Inv, Quiet, Fresh, Pending, Check;
    if e.Tick? {
      TickSafe(c, s);
      CheckHalf(c, s.(now := s.now + 1), id, armed, due);
    } else {
      EventKeeps(c, s, e, id);
    }
  }

  // The timeout function has run by now exactly if its tick has come; that is the deadline if and
  // only if the timer was inserted before it.
  ghost predicate Served(s: State, id: Id, armed: nat, entered: nat, due: nat, stamp: nat) {
    var f := Firing(id, armed, entered, due, stamp, Serve(due, entered));
    (f in s.log <==> s.now >= f.at) && (f.at == due <==> entered < due)
  }

  // rt_timer_start of a one-shot timer at tick s0.now, anything in between, its second half at tick
  // s2.now, then anything that leaves the timer alone: it fires at the later of its deadline and
  // the tick after the insertion, so at the deadline if and only if no check missed it.
  lemma StartedFires(
      c: Config, s0: State, s1: State, gap: seq<Event>, s2: State, es: seq<Event>, last: State, id: Id)
    requires ConfigOk(c) && Inv(c, s0) && Quiet(s0) && id in c.ids && id !in s0.starting && id !in s0.periodic
    requires s1 == StartBegin(s0, id) && Inv(c, s1) && Quiet(s1) && Runs(c, s1, gap, s2)
    requires Untouched(c, id) && NotTouchedBy(gap, id) && NotTouchedBy(es, id)
    ensures id in s2.starting && Inv(c, s2) && id in s2.due && Inv(c, StartEnd(s2, id)) && Quiet(StartEnd(s2, id))
    ensures Runs(c, StartEnd(s2, id), es, last) ==> Served(last, id, s0.now, s2.now, s0.now + s0.time[id], s2.next)
  {
    hide ListOk, LogOk, Quiet, Half, StartBegin, StartEnd, Runs, Untouched, NotTouchedBy, Served;
    StillTimed(c, s0, id);
    StartHalf(c, s0, id);
    HalfFires(c, s1, gap, s2, es, last, id, s0.now, s0.now + s0.time[id]);
  }

  lemma HalfFires(
      c: Config, s1: State, gap: seq<Event>, s2: State, es: seq<Event>, last: State, id: Id, armed: nat, due: nat)
    requires ConfigOk(c) && Inv(c, s1) && Quiet(s1) && Runs(c, s1, gap, s2)
    requires Half(s1, id, armed, due) && id !in s1.periodic
    requires Untouched(c, id) && NotTouchedBy(gap, id) && NotTouchedBy(es, id)
    ensures id in s2.starting && Inv(c, s2) && id in s2.due && Inv(c, StartEnd(s2, id)) && Quiet(StartEnd(s2, id))
    ensures Runs(c, StartEnd(s2, id), es, last) ==> Served(last, id, armed, s2.now, due, s2.next)
  {
    hide ListOk, LogOk, Quiet, Half, StartEnd, Runs, Untouched, NotTouchedBy, Served;
    HalfStays(c, s1, gap, s2, id, armed, due);
    EndedFires(c, s2, es, last, id, armed, due);
  }

  lemma EndedFires(c: Config, s: State, es: seq<Event>, last: State, id: Id, armed: nat, due: nat)
    requires ConfigOk(c) && Inv(c, s) && Quiet(s) && Half(s, id, armed, due) && id !in s.periodic
    requires Untouched(c, id) && NotTouchedBy(es, id)
    ensures id in s.starting && id in s.due && Inv(c, StartEnd(s, id)) && Quiet(StartEnd(s, id))
    ensures Runs(c, StartEnd(s, id), es, last) ==> Served(last, id, armed, s.now, due, s.next)
  {
    hide ListOk, LogOk, Quiet, Runs, FiringOk;
    ListedKnown(c, s);
    EndSafe(c, s, id);
    var f := Firing(id, armed, s.now, due, s.next, Serve(due, s.now));
    EndPends(c, s, id, f);
    if Runs(c, StartEnd(s, id), es, last) { FiresOnTime(c, StartEnd(s, id), es, last, id, f); }
  }

  lemma StillTimed(c: Config, s: State, id: Id)
    requires Inv(c, s) && id in c.ids
    ensures id in s.time && (id in StartBegin(s, id).periodic <==> id in s.periodic)
  {}

  lemma StartHalf(c: Config, s: State, id: Id)
    requires Inv(c, s) && id in c.ids
    ensures Half(StartBegin(s, id), id, s.now, s.now + s.time[id])
  {}

  lemma EndPends(c: Config, s: State, id: Id, f: Firing)
    requires Inv(c, s) && Half(s, id, f.armed, f.due) && f.id == id && f.entered == s.now && f.stamp == s.next
    ensures Pending(StartEnd(s, id), id, f)
  {
    assert forall x :: x in s.list ==> PendingOk(c, s, x);
    EndMembers(s, id);
  }

  // A timer of one tick whose start is interrupted by that tick fires one tick late.
  lemma InterruptedStartIsLate(c: Config, s: State, id: Id)
    requires ConfigOk(c) && Inv(c, s) && Quiet(s) && Enabled(c, s, Begin(id)) && id !in s.periodic && c.gap > 0
    requires s.time[id] == 1 && Positive(s) && Untouched(c, id) && s.starting == {}
    requires forall t, n, i :: t in c.ids && 0 <= i < |c.callback(t, n)| ==> !c.callback(t, n)[i].Start?
    ensures
      var e1 := Apply(c, s, Begin(id));
      Inv(c, e1) && Quiet(e1) && Enabled(c, e1, Tick) &&
      var e2 := Apply(c, e1, Tick);
      Inv(c, e2) && Quiet(e2) && Enabled(c, e2, End(id)) &&
      var e3 := Apply(c, e2, End(id));
      Inv(c, e3) && Quiet(e3) && e3.now == s.now + 1 &&
      exists f: Firing :: f.id == id && Pending(e3, id, f) && f.due == s.now + 1 && Serve(f.due, f.entered) == s.now + 2
  {
    hide ListOk, LogOk, Quiet;
    var e1 := Apply(c, s, Begin(id));
    EventSafe(c, s, Begin(id));
    StartHalf(c, s, id);
    var e2 := Apply(c, e1, Tick);
    EventSafe(c, e1, Tick);
    HalfStep(c, e1, Tick, id, s.now, s.now + 1);
    EventSafe(c, e2, End(id));
    var f := Firing(id, s.now, e2.now, s.now + 1, e2.next, s.now + 2);
    EndPends(c, e2, id, f);
  }

  // ----- periodic timers -----

  // The k-th deadline of a periodic timer
  function Deadline(first: nat, period: nat, k: nat): nat { first + k * period }

  // The timer has fired at its first m deadlines and is pending for the next one.
  ghost predicate Train(s: State, id: Id, first: nat, period: nat, m: nat) {
    && id in s.list && id in s.active && id in s.periodic && id in s.time && s.time[id] == period
    && Known(s, id) && s.due[id] == Deadline(first, period, m) && s.entered[id] < s.due[id]
    && (forall k :: 0 <= k < m ==> FiredAt(s.log, id, Deadline(first, period, k)))
  }

  ghost predicate FiredAt(log: seq<Firing>, id: Id, tick: nat) {
    exists j :: 0 <= j < |log| && log[j].id == id && log[j].due == tick && log[j].at == tick
  }

  lemma LogGrows(log: seq<Firing>, more: seq<Firing>, id: Id, tick: nat)
    requires log <= more && FiredAt(log, id, tick)
    ensures FiredAt(more, id, tick)
  {
    var j :| 0 <= j < |log| && log[j].id == id && log[j].due == tick && log[j].at == tick;
    assert more[j] == log[j];
  }

  // One more firing at the deadline it was pending for
  lemma TrainGrows(s: State, e: State, id: Id, first: nat, period: nat, m: nat, f: Firing)
    requires Train(s, id, first, period, m) && e.log == s.log + [f] && f.id == id && f.due == s.due[id] && f.at == f.due
    requires id in e.list && id in e.active && id in e.periodic && id in e.time && e.time[id] == period
    requires Known(e, id) && e.due[id] == f.at + period && e.entered[id] == f.at && period > 0
    ensures Train(e, id, first, period, m + 1)
  {
    assert Deadline(first, period, m + 1) == Deadline(first, period, m) + period;
    assert e.log[|e.log| - 1] == f;
    forall k | 0 <= k < m + 1 ensures FiredAt(e.log, id, Deadline(first, period, k)) {
      if k < m { LogGrows(s.log, e.log, id, Deadline(first, period, k)); }
    }
  }

  lemma FireTrain(c: Config, s: State, id: Id, first: nat, period: nat, m: nat) returns (n: nat)
    requires Inv(c, s) && ConfigOk(c) && IsDue(s) && Positive(s) && Fresh(s) && Untouched(c, id)
    requires Train(s, id, first, period, m)
    ensures Train(FireFirst(c, s), id, first, period, n)
  {
    hide ListOk, LogOk, Fresh, FireFirst, Deadline, Untouched;
    FireFirstSafe(c, s);
    var e := FireFirst(c, s);
    var f := Firing(id, s.armed[id], s.entered[id], s.due[id], s.stamp[id], s.now);
    assert Pending(s, id, f);
    if s.list[0] == id {
      FireThis(c, s, id, f);
      var g := Firing(id, s.now, s.now, s.now + period, e.stamp[id], 0);
      assert Pending(e, id, g);
      TrainGrows(s, e, id, first, period, m, f);
      n := m + 1;
    } else {
      FireOther(c, s, id);
      assert Pending(e, id, f);
      forall k | 0 <= k < m ensures FiredAt(e.log, id, Deadline(first, period, k)) {
        LogGrows(s.log, e.log, id, Deadline(first, period, k));
      }
      n := m;
    }
  }

  lemma {:induction false} CheckTrain(c: Config, s: State, id: Id, first: nat, period: nat, m: nat) returns (n: nat)
    requires Inv(c, s) && ConfigOk(c) && Positive(s) && Fresh(s) && Untouched(c, id) && Train(s, id, first, period, m)
    ensures Train(Check(c, s), id, first, period, n)
    decreases Overdue(s)
  {
    if IsDue(s) {
      FireFirstSafe(c, s);
      n := FireTrain(c, s, id, first, period, m);
      n := CheckTrain(c, FireFirst(c, s), id, first, period, n);
    } else {
      n := m;
    }
  }

  // A periodic timer that is left alone fires at exactly first, first + period, first + 2 * period...
  lemma {:induction false} PeriodicOnTime(
      c: Config, s: State, es: seq<Event>, last: State, id: Id, first: nat, period: nat, m: nat)
    requires ConfigOk(c) && Inv(c, s) && Quiet(s) && Runs(c, s, es, last)
    requires Untouched(c, id) && NotTouchedBy(es, id) && Train(s, id, first, period, m)
    ensures exists n :: Train(last, id, first, period, n) && last.now < Deadline(first, period, n)
    decreases |es|
  {
    if es == [] {
      assert Train(last, id, first, period, m);
    } else {
      EventSafe(c, s, es[0]);
      var e := Apply(c, s, es[0]);
      var n := TrainStep(c, s, es[0], id, first, period, m);
      PeriodicOnTime(c, e, es[1..], last, id, first, period, n);
    }
  }

  lemma TrainStep(c: Config, s: State, e: Event, id: Id, first: nat, period: nat, m: nat) returns (n: nat)
    requires ConfigOk(c) && Inv(c, s) && Quiet(s) && Enabled(c, s, e) && Untouched(c, id) && !Touches(e, id)
    requires Train(s, id, first, period, m)
    ensures Train(Apply(c, s, e), id, first, period, n)
  {
    hide Inv, Quiet, Fresh;
    EventSafe(c, s, e);
    if e.Tick? {
      TickSafe(c, s);
      n := CheckTrain(c, s.(now := s.now + 1), id, first, period, m);
    } else {
      EventKeeps(c, s, e, id);
      var r := Apply(c, s, e);
      assert Pending(s, id, Firing(id, s.armed[id], s.entered[id], s.due[id], s.stamp[id], 0));
      assert Pending(r, id, Firing(id, s.armed[id], s.entered[id], s.due[id], s.stamp[id], 0));
      forall k | 0 <= k < m ensures FiredAt(r.log, id, Deadline(first, period, k)) {
        LogGrows(s.log, r.log, id, Deadline(first, period, k));
      }
      n := m;
    }
  }
}

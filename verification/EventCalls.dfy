// What the receivers of an event set asked for, and in which order they are looked at: the
// states of a run against the calls that were made.
module EventCalls {
  import opened Options
  import opened IpcList
  import opened Lists
  import opened EventFlags

  // ----- bits -----

  // The condition of a receive: all of its bits, or one of them
  ghost predicate Enough(flags: Bits, w: Want) {
    if w.all then forall b :: b in w.bits ==> b in flags else w.some && exists b :: b in w.bits && b in flags
  }

  // A receive returns, bit by bit, what is both asked for and set, and clears that if it is to.
  lemma ReceivesBits(flags: Bits, w: Want)
    ensures RecvNow(flags, w).got.Some? <==> Enough(flags, w)
    ensures RecvNow(flags, w).got.Some? ==> forall b :: b in RecvNow(flags, w).got.value <==> b in w.bits && b in flags
    ensures
      forall b :: b in RecvNow(flags, w).flags <==> b in flags && !(Enough(flags, w) && w.clear && b in w.bits)
  {
    assert flags * w.bits == w.bits <==> forall b :: b in w.bits ==> b in flags;
    if b :| b in w.bits && b in flags { assert b in flags * w.bits; }
    if b :| b in flags * w.bits { assert b in w.bits && b in flags; }
  }

  // ----- the calls -----

  ghost function Called(e: Event, calls: map<Tid, Event>): map<Tid, Event> {
    if e.Recv? then calls[e.t := e] else calls
  }

  ghost function Calls(es: seq<Event>, calls: map<Tid, Event>): map<Tid, Event> {
    if es == [] then calls else Calls(es[1..], Called(es[0], calls))
  }

  // A receiver is in the call it made: with its bits and options and, while it waits, its timeout.
  predicate CallOf(t: Tid, call: Call, e: Event) {
    e.Recv? && e.t == t && e.want == call.want && e.wait && (call.Waiting? ==> e.timed == call.timed)
  }

  ghost predicate Asked(s: State, calls: map<Tid, Event>) {
    forall t :: t in s.calls ==> t in calls && CallOf(t, s.calls[t], calls[t])
  }

  lemma SendAsked(c: Config, s: State, bits: Bits, calls: map<Tid, Event>)
    requires Inv(c, s) && bits != {} && Asked(s, calls)
    ensures Asked(Apply(c, s, Send(bits)), calls)
  {
    var s1 := s.(flags := s.flags + bits);
    var e, r := Sweep(s1, 0), Retry(s1.flags, Wants(s1, 0));
    SweepIsRetry(s1, 0);
    hide Inv, Recorded, Sweep, Swept, Retry;
    forall t | t in e.calls ensures t in calls && CallOf(t, e.calls[t], calls[t]) {
      SweptThread(s1, e, r, t);
      if t in s1.waiting { SweptCall(s1, e, t); }
    }
  }

  lemma SweptCall(s: State, e: State, t: Tid)
    requires Recorded(s) && t in s.waiting && t in e.calls && (e.calls[t] == s.calls[t] || e.calls[t].Woken?)
    ensures t in s.calls && s.calls[t].Waiting?
  {}

  lemma EventAsked(c: Config, s: State, e: Event, calls: map<Tid, Event>)
    requires Inv(c, s) && Enabled(s, e) && Asked(s, calls)
    ensures Asked(Apply(c, s, e), Called(e, calls))
  {
    if e.Send? && e.bits != {} { SendAsked(c, s, e.bits, calls); }
    hide Sweep;
  }

  // ----- the turns -----

  predicate Sleeping(s: State, t: Tid) { t in s.calls && s.calls[t].Waiting? }

  // Who goes to sleep in an event: a receiver that may wait and finds too few bits
  ghost function Blocker(s: State, e: Event): Option<Tid> {
    if e.Recv? && e.want.bits != {} && !Enough(s.flags, e.want) && e.wait then Some(e.t) else None
  }

  // Since when the receivers sleep, after an event
  ghost function Since(c: Config, s: State, e: Event, since: map<Tid, nat>, now: nat): map<Tid, nat>
    requires Inv(c, s) && Enabled(s, e)
  {
    var still := map t | t in since && Sleeping(Apply(c, s, e), t) :: since[t];
    if Blocker(s, e).Some? then still[Blocker(s, e).value := now] else still
  }

  ghost function Sleepers(c: Config, s: State, es: seq<Event>, since: map<Tid, nat>, now: nat): map<Tid, nat>
    requires Inv(c, s)
    decreases |es|
  {
    if es == [] || !Enabled(s, es[0]) then since
    else
      EventSafe(c, s, es[0]);
      Sleepers(c, Apply(c, s, es[0]), es[1..], Since(c, s, es[0], since, now), now + 1)
  }

  // Who is passed over is in the order of before.
  lemma {:induction false} UnservedOrder(ts: seq<Tid>, got: seq<Option<Bits>>, i: nat, j: nat) returns (x: nat, y: nat)
    requires |ts| == |got| && i < j < |Unserved(ts, got)|
    ensures x < y < |ts| && ts[x] == Unserved(ts, got)[i] && ts[y] == Unserved(ts, got)[j]
  {
    var rest := Unserved(ts[1..], got[1..]);
    if got[0].Some? {
      x, y := UnservedOrder(ts[1..], got[1..], i, j);
      x, y := x + 1, y + 1;
    } else if i > 0 {
      x, y := UnservedOrder(ts[1..], got[1..], i - 1, j - 1);
      x, y := x + 1, y + 1;
    } else {
      UnservedFrom(ts[1..], got[1..], j - 1);
      x := 0;
      y :| 0 < y < |ts| && ts[y] == rest[j - 1];
    }
  }

  lemma {:induction false} UnservedFrom(ts: seq<Tid>, got: seq<Option<Bits>>, j: nat)
    requires |ts| == |got| && j < |Unserved(ts, got)|
    ensures exists y :: 0 <= y < |ts| && ts[y] == Unserved(ts, got)[j]
  {
    if got[0].None? && j == 0 {
      assert ts[0] == Unserved(ts, got)[0];
    } else {
      var k := if got[0].None? then j - 1 else j;
      UnservedFrom(ts[1..], got[1..], k);
      var y :| 0 <= y < |ts[1..]| && ts[1..][y] == Unserved(ts[1..], got[1..])[k];
      assert ts[y + 1] == Unserved(ts, got)[j];
    }
  }

  lemma SendLeaves(c: Config, s: State, bits: Bits) returns (got: seq<Option<Bits>>)
    requires Inv(c, s) && bits != {}
    ensures |got| == |s.waiting| && Apply(c, s, Send(bits)).waiting == Unserved(s.waiting, got)
    ensures Distinct(Apply(c, s, Send(bits)).waiting)
  {
    var s1 := s.(flags := s.flags + bits);
    SweepIsRetry(s1, 0);
    assert s.waiting[0..] == s.waiting;
    got := Retry(s1.flags, Wants(s1, 0)).got;
  }

  // Those of a list who are passed over keep their order.
  lemma UnservedInTurn(
    list: seq<Tid>, got: seq<Option<Bits>>, flag: Flag, prio: Tid -> nat, since: map<Tid, nat>,
    after: map<Tid, nat>, now: nat)
    requires |got| == |list| && InTurn(list, flag, prio, since, now) && Distinct(Unserved(list, got))
    requires after == map t | t in since && t in Unserved(list, got) :: since[t]
    ensures InTurn(Unserved(list, got), flag, prio, after, now + 1)
  {
    hide Distinct, Before, Unserved;
    var r := Unserved(list, got);
    forall t | t in r ensures t in list {
      var j :| 0 <= j < |r| && r[j] == t;
      UnservedFrom(list, got, j);
    }
    forall i, j | 0 <= i < j < |r| ensures Before(r[i], r[j], flag, prio, after) {
      var x, y := UnservedOrder(list, got, i, j);
      assert Before(list[x], list[y], flag, prio, since) && r[i] in r && r[j] in r;
      BeforeLess(list[x], list[y], flag, prio, since, after);
    }
  }

  lemma BeforeLess(a: Tid, b: Tid, flag: Flag, prio: Tid -> nat, since: map<Tid, nat>, after: map<Tid, nat>)
    requires Before(a, b, flag, prio, since) && a in after && b in after
    requires after[a] == since[a] && after[b] == since[b]
    ensures Before(a, b, flag, prio, after)
  {}

  lemma WaitersSleep(c: Config, s: State)
    requires Inv(c, s)
    ensures forall t :: Sleeping(s, t) <==> t in s.waiting
    ensures Distinct(s.waiting)
  {}

  lemma Enqueues(c: Config, s: State, e: Event)
    requires Inv(c, s) && Enabled(s, e) && Blocker(s, e).Some?
    ensures e.Recv? && e.t !in s.waiting && Apply(c, s, e).waiting == Enqueue(s.waiting, e.t, c.flag, c.prio)
    ensures forall t :: t in Apply(c, s, e).waiting <==> t in s.waiting || t == e.t
  {
    hide Enqueue;
    ReceivesBits(s.flags, e.want);
    WaitersSleep(c, s);
    EnqueueMembers(s.waiting, e.t, c.flag, c.prio);
  }

  lemma SinceAfter(c: Config, s: State, e: Event, since: map<Tid, nat>, now: nat)
    requires Inv(c, s) && Enabled(s, e)
    ensures
      var r, after := Apply(c, s, e), Since(c, s, e, since, now);
      Blocker(s, e).None? ==> after == map t | t in since && t in r.waiting :: since[t]
  {
    hide Apply, Inv, Sleeping, Blocker;
    EventSafe(c, s, e);
    WaitersSleep(c, Apply(c, s, e));
  }

  lemma SinceBlocked(c: Config, s: State, e: Event, since: map<Tid, nat>, now: nat)
    requires Inv(c, s) && Enabled(s, e) && Blocker(s, e).Some?
    requires forall t :: t in s.waiting <==> t in since
    ensures e.Recv? && Since(c, s, e, since, now) == since[e.t := now]
  {
    hide Apply, Inv, Sleeping;
    EventSafe(c, s, e);
    WaitersSleep(c, Apply(c, s, e));
    Enqueues(c, s, e);
  }

  // Those who sleep stand in the list in their turn.
  lemma EventInTurn(c: Config, s: State, e: Event, since: map<Tid, nat>, now: nat)
    requires Inv(c, s) && Enabled(s, e) && InTurn(s.waiting, c.flag, c.prio, since, now)
    ensures InTurn(Apply(c, s, e).waiting, c.flag, c.prio, Since(c, s, e, since, now), now + 1)
  {
    hide InTurn, Inv, Since, Enqueue, Apply, Unserved, Blocker;
    var list, after := s.waiting, Since(c, s, e, since, now);
    SinceAfter(c, s, e, since, now);
    TurnMembers(list, c.flag, c.prio, since, now);
    if Blocker(s, e).Some? {
      Enqueues(c, s, e);
      SinceBlocked(c, s, e, since, now);
      EnqueueInTurn(list, e.t, c.flag, c.prio, since, now);
    } else if e.Send? && e.bits != {} {
      var got := SendLeaves(c, s, e.bits);
      UnservedInTurn(list, got, c.flag, c.prio, since, after, now);
    } else {
      OtherLists(c, s, e);
      LessInTurn(list, Apply(c, s, e).waiting, if e.Timeout? then e.t else 0, c.flag, c.prio, since, after, now);
    }
  }

  lemma OtherLists(c: Config, s: State, e: Event)
    requires Inv(c, s) && Enabled(s, e) && Blocker(s, e).None? && (e.Send? ==> e.bits == {})
    ensures
      var r := Apply(c, s, e).waiting;
      r == [] || r == s.waiting || (e.Timeout? && r == Without(s.waiting, e.t))
  {
    hide Enqueue;
    if e.Recv? { ReceivesBits(s.flags, e.want); }
  }

  // ----- runs -----

  lemma {:induction false} RunAsked(
    c: Config, s: State, es: seq<Event>, last: State, calls: map<Tid, Event>, since: map<Tid, nat>, now: nat)
    requires Inv(c, s) && Runs(c, s, es, last)
    requires Asked(s, calls) && InTurn(s.waiting, c.flag, c.prio, since, now)
    ensures Inv(c, last) && Asked(last, Calls(es, calls))
    ensures InTurn(last.waiting, c.flag, c.prio, Sleepers(c, s, es, since, now), now + |es|)
    decreases |es|
  {
    hide Inv, Asked, InTurn, Apply, Since;
    if es != [] {
      EventSafe(c, s, es[0]);
      EventAsked(c, s, es[0], calls);
      EventInTurn(c, s, es[0], since, now);
      RunAsked(c, Apply(c, s, es[0]), es[1..], last, Called(es[0], calls), Since(c, s, es[0], since, now), now + 1);
    }
  }

  // In every run a thread asleep asked for bits in its last call that are not set, one of them or
  // any; a woken one has what it asked for, as far as it was set when a send reached it, all of it
  // if it asked for all; and sends look at the sleeping threads in the order in which they went to
  // sleep, in a priority list by urgency first.
  lemma AskedAndMissing(c: Config, es: seq<Event>, s: State)
    requires Runs(c, Init(), es, s)
    ensures
      var calls := Calls(es, map[]);
      && (forall t :: t in s.calls ==> t in calls && CallOf(t, s.calls[t], calls[t]))
      && (forall t :: Sleeping(s, t) ==> !Enough(s.flags, calls[t].want))
      && (forall t :: t in s.calls && s.calls[t].Woken? ==>
            && t in s.eventSet && Enough(s.calls[t].turn, calls[t].want)
            && forall b :: b in s.eventSet[t] <==> b in calls[t].want.bits && b in s.calls[t].turn)
    ensures InTurn(s.waiting, c.flag, c.prio, Sleepers(c, Init(), es, map[], 0), |es|)
    ensures forall t :: Sleeping(s, t) <==> t in Sleepers(c, Init(), es, map[], 0)
  {
    NobodyInTurn(c.flag, c.prio, 0);
    hide InTurn, Apply;
    RunAsked(c, Init(), es, s, map[], map[], 0);
    TurnMembers(s.waiting, c.flag, c.prio, Sleepers(c, Init(), es, map[], 0), |es|);
    NobodyOverlooked(c, es, s);
    hide Runs, Sleepers;
    var calls := Calls(es, map[]);
    forall t | t in s.calls ensures
      && (s.calls[t].Waiting? ==> !Enough(s.flags, calls[t].want))
      && (s.calls[t].Woken? ==>
            && t in s.eventSet && Enough(s.calls[t].turn, calls[t].want)
            && forall b :: b in s.eventSet[t] <==> b in calls[t].want.bits && b in s.calls[t].turn)
    {
      ReceivesBits(s.flags, s.calls[t].want);
      if s.calls[t].Woken? { ReceivesBits(s.calls[t].turn, s.calls[t].want); }
    }
  }

  // An event wakes nobody but in a send, and fails nobody but in a reset or when its time is over.
  lemma EventStops(c: Config, s: State, e: Event, t: Tid)
    requires Inv(c, s) && Enabled(s, e) && Sleeping(s, t)
    ensures
      var r := Apply(c, s, e);
      && t in r.calls
      && (e.Reset? ==> r.calls[t] == Failed(s.calls[t].want, EError))
      && (e == Timeout(t) ==> r.calls[t] == Failed(s.calls[t].want, ETimeout))
      && (!e.Reset? && e != Timeout(t) ==> Sleeping(r, t) || (e.Send? && r.calls[t].Woken?))
  {
    if e.Send? && e.bits != {} {
      var s1 := s.(flags := s.flags + e.bits);
      SweepIsRetry(s1, 0);
      SweptThread(s1, Sweep(s1, 0), Retry(s1.flags, Wants(s1, 0)), t);
    }
    hide Sweep;
  }

  // A receiver is in a call from going to sleep until it has run again.
  lemma InCall(c: Config, s: State, e: Event, t: Tid)
    requires Inv(c, s) && Enabled(s, e)
    ensures t in Apply(c, s, e).calls <==> Blocker(s, e) == Some(t) || (t in s.calls && e != Resume(t))
  {
    if e.Recv? { ReceivesBits(s.flags, e.want); }
    if e.Send? && e.bits != {} {
      var s1 := s.(flags := s.flags + e.bits);
      SweepIsRetry(s1, 0);
      SweptThread(s1, Sweep(s1, 0), Retry(s1.flags, Wants(s1, 0)), t);
    }
    hide Sweep, Enqueue;
  }
}

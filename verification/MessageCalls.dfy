// What the callers of a message queue asked for, and in which order they are served: the states
// of a run against the calls that were made.
module MessageCalls {
  import opened Options
  import opened IpcList
  import opened Lists
  import opened MessageQueue

  // ----- the messages -----

  // The call a caller is in: its last send or receive
  ghost function Called(e: Event, calls: map<Tid, Event>): map<Tid, Event> {
    if e.SendBegin? || e.Recv? then calls[e.t := e] else calls
  }

  ghost function Calls(es: seq<Event>, calls: map<Tid, Event>): map<Tid, Event> {
    if es == [] then calls else Calls(es[1..], Called(es[0], calls))
  }

  predicate CallOf(t: Tid, o: Op, e: Event) {
    match o
    case Sending(_, msg, urgent, _) => e == SendBegin(t, msg, urgent)
    case RecvBlocked(timed, size) => e == Recv(t, true, timed, size)
    case RecvWoken(timed, size) => e == Recv(t, true, timed, size)
    case Receiving(_, size, _, _) => e.Recv? && e.t == t && e.size == size
    case Failed => true
  }

  // A caller is in the call it made: with its message and urgency, or its buffer and timeout.
  ghost predicate Recorded(s: State, calls: map<Tid, Event>) {
    forall t :: t in s.op ==> t in calls && CallOf(t, s.op[t], calls[t])
  }

  // The messages an event leaves in the queue, by the calls alone: a send puts its message at the
  // end, or in front if it is urgent, when it is done; a receive takes the front when it begins.
  ghost function Queued(e: Event, calls: map<Tid, Event>, ms: seq<Msg>): seq<Msg> {
    match e
    case SendEnd(t) =>
      if t !in calls || !calls[t].SendBegin? then ms
      else if calls[t].urgent then [calls[t].msg] + ms
      else ms + [calls[t].msg]
    case Recv(_, _, _, _) => if ms != [] then ms[1..] else ms
    case RecvRetry(_, _) => if ms != [] then ms[1..] else ms
    case Reset => []
    case _ => ms
  }

  ghost function QueuedBy(es: seq<Event>, calls: map<Tid, Event>, ms: seq<Msg>): seq<Msg> {
    if es == [] then ms else QueuedBy(es[1..], Called(es[0], calls), Queued(es[0], calls, ms))
  }

  lemma LinkRecorded(s: State, t: Tid, n: nat, urgent: bool, calls: map<Tid, Event>)
    requires Waiting(s) && Recorded(s, calls) && t in s.op && s.op[t].Sending?
    ensures Recorded(Link(s, t, n, urgent), calls)
  {
    assert s.receivers != [] ==> s.receivers[0] in s.receivers;
  }

  lemma CalledRecorded(s: State, t: Tid, e: Event, calls: map<Tid, Event>)
    requires Recorded(s, calls) && t !in s.op
    ensures Recorded(s, calls[t := e])
  {}

  lemma TakeRecorded(c: Config, s: State, t: Tid, timed: bool, size: nat, calls: map<Tid, Event>)
    requires Recorded(s, calls) && t in calls && calls[t].Recv? && calls[t].t == t && calls[t].size == size
    ensures s.queue != [] ==> Recorded(Claim(s, t, size), calls)
    ensures calls[t] == Recv(t, true, timed, size) ==> Recorded(Block(c, s, t, timed, size), calls)
  {}

  lemma EventRecorded(c: Config, s: State, e: Event, calls: map<Tid, Event>)
    requires Inv(c, s) && Enabled(s, e) && Recorded(s, calls)
    ensures Recorded(Apply(c, s, e), Called(e, calls))
  {
    hide Partition, SlotsOk, Payloads, Claim, Block, Link, Overlaid, CopyOf, Without, Reverse;
    match e
    case SendBegin(t, _, _) => CalledRecorded(s, t, e, calls);
    case SendEnd(t) => LinkRecorded(s, t, s.op[t].node, s.op[t].urgent, calls);
    case Recv(t, wait, timed, size) =>
      CalledRecorded(s, t, e, calls);
      TakeRecorded(c, s, t, timed, size, Called(e, calls));
    case RecvRetry(t, _) =>
      var idle := s.(op := s.op - {t});
      assert Recorded(idle, calls) && CallOf(t, s.op[t], calls[t]);
      TakeRecorded(c, idle, t, s.op[t].timed, s.op[t].size, calls);
    case _ =>
  }

  lemma EventQueued(c: Config, s: State, e: Event, calls: map<Tid, Event>)
    requires Inv(c, s) && Enabled(s, e) && Recorded(s, calls)
    ensures Messages(Apply(c, s, e)) == Queued(e, calls, Messages(s))
  {
    hide Inv, Apply, Messages;
    EventLinearizes(c, s, e);
    assert e.SendEnd? ==> CallOf(e.t, s.op[e.t], calls[e.t]);
  }

  lemma {:induction false} RunRecorded(
    c: Config, s: State, es: seq<Event>, last: State, calls: map<Tid, Event>)
    requires Inv(c, s) && Recorded(s, calls) && Runs(c, s, es, last)
    ensures Inv(c, last) && Recorded(last, Calls(es, calls))
    ensures Messages(last) == QueuedBy(es, calls, Messages(s))
    decreases |es|
  {
    hide Inv, Recorded, Apply, Messages, Queued;
    if es != [] {
      EventSafe(c, s, es[0]);
      EventRecorded(c, s, es[0], calls);
      EventQueued(c, s, es[0], calls);
      RunRecorded(c, Apply(c, s, es[0]), es[1..], last, Called(es[0], calls));
    }
  }

  // In every interleaving the queue holds what the calls say: each message where and when its send
  // asked for it, whatever happens between the parts of the calls; and each caller still has what
  // it was called with.
  lemma QueueIsCalls(c: Config, slots: seq<Msg>, es: seq<Event>, s: State)
    requires PoolOk(c, slots) && Runs(c, Init(c, slots), es, s)
    ensures Messages(s) == QueuedBy(es, map[], [])
    ensures
      var calls := Calls(es, map[]);
      forall t :: t in s.op ==> t in calls && CallOf(t, s.op[t], calls[t])
  {
    hide Inv;
    InitInv(c, slots);
    RunRecorded(c, Init(c, slots), es, s, map[]);
  }

  // A send is refused exactly if its message is too long or no node is free, and then changes nothing.
  lemma SendRefused(c: Config, s: State, t: Tid, msg: Msg, urgent: bool)
    requires Inv(c, s) && t !in s.op
    ensures
      var r := Apply(c, s, SendBegin(t, msg, urgent));
      && (t !in r.op <==> |msg| > c.msgSize || |s.queue| + |Holders(s)| == c.maxMsgs)
      && (t !in r.op ==> r == s)
      && (t in r.op ==> r.op[t].Sending? && |r.free| == |s.free| - 1)
  {
    hide SlotsOk, Payloads, Waiting;
  }

  // ----- the turns -----

  predicate Sleeping(s: State, t: Tid) { t in s.op && s.op[t].RecvBlocked? }

  predicate IsWoken(s: State, t: Tid) { t in s.op && s.op[t].RecvWoken? }

  predicate IsFailed(s: State, t: Tid) { t in s.op && s.op[t].Failed? }

  // Who goes to sleep in an event: a receiver that may wait and finds no message
  function Blocker(s: State, e: Event): Option<Tid> {
    match e
    case Recv(t, wait, _, _) => if s.queue == [] && wait then Some(t) else None
    case RecvRetry(t, expired) => if s.queue == [] && !expired then Some(t) else None
    case _ => None
  }

  // Since when the receivers sleep, after an event
  ghost function Since(c: Config, s: State, e: Event, since: map<Tid, nat>, now: nat): map<Tid, nat>
    requires Enabled(s, e)
  {
    var still := map t | t in since && Sleeping(Apply(c, s, e), t) :: since[t];
    if Blocker(s, e).Some? then still[Blocker(s, e).value := now] else still
  }

  ghost function Sleepers(c: Config, s: State, es: seq<Event>, since: map<Tid, nat>, now: nat): map<Tid, nat>
    decreases |es|
  {
    if es == [] || !Enabled(s, es[0]) then since
    else Sleepers(c, Apply(c, s, es[0]), es[1..], Since(c, s, es[0], since, now), now + 1)
  }

  lemma ListAfter(c: Config, s: State, e: Event)
    requires Waiting(s) && Enabled(s, e)
    ensures
      var list, r := s.receivers, Apply(c, s, e).receivers;
      r == if e.Reset? then []
           else if e.Timeout? then Without(list, e.t)
           else if e.SendEnd? && list != [] then list[1..]
           else if Blocker(s, e).Some? then Enqueue(list, Blocker(s, e).value, c.flag, c.prio)
           else list
  {
    hide Enqueue, Reverse, Overlaid, CopyOf, Without;
  }

  lemma BlockerSince(c: Config, s: State, e: Event, since: map<Tid, nat>, now: nat)
    requires Inv(c, s) && Enabled(s, e) && forall t :: t in s.receivers <==> t in since
    requires Blocker(s, e).Some?
    ensures Blocker(s, e).value !in s.receivers && !e.Reset? && !e.Timeout? && !e.SendEnd?
    ensures Since(c, s, e, since, now) == since[Blocker(s, e).value := now]
  {
    hide Partition, SlotsOk, Payloads, Apply, Enqueue;
    EventSafe(c, s, e);
    ListAfter(c, s, e);
    assert Blocker(s, e).value !in s.receivers;
    EnqueueMembers(s.receivers, Blocker(s, e).value, c.flag, c.prio);
  }

  lemma SinceAfter(c: Config, s: State, e: Event, since: map<Tid, nat>, now: nat)
    requires Inv(c, s) && Enabled(s, e) && Blocker(s, e).None?
    ensures Since(c, s, e, since, now) == map t | t in since && t in Apply(c, s, e).receivers :: since[t]
  {
    hide Partition, SlotsOk, Payloads, Apply, Blocker, Distinct;
    EventSafe(c, s, e);
  }

  // Those who sleep stand in the list in their turn.
  lemma EventInTurn(c: Config, s: State, e: Event, since: map<Tid, nat>, now: nat)
    requires Inv(c, s) && Enabled(s, e) && InTurn(s.receivers, c.flag, c.prio, since, now)
    ensures InTurn(Apply(c, s, e).receivers, c.flag, c.prio, Since(c, s, e, since, now), now + 1)
  {
    hide Partition, SlotsOk, Payloads, Apply, Enqueue, InTurn, Distinct, Since, Blocker;
    var list, r, after := s.receivers, Apply(c, s, e).receivers, Since(c, s, e, since, now);
    ListAfter(c, s, e);
    TurnMembers(list, c.flag, c.prio, since, now);
    if Blocker(s, e).Some? {
      BlockerSince(c, s, e, since, now);
      EnqueueInTurn(list, Blocker(s, e).value, c.flag, c.prio, since, now);
    } else {
      SinceAfter(c, s, e, since, now);
      var t := if e.Timeout? then e.t else if list != [] then list[0] else 0;
      if list != [] { WithoutHead(list); }
      LessInTurn(list, r, t, c.flag, c.prio, since, after, now);
    }
  }

  // A caller is in a call until it has linked its message, returned its node or failed.
  lemma InCall(c: Config, s: State, e: Event, t: Tid)
    requires Inv(c, s) && Enabled(s, e)
    ensures
      t in Apply(c, s, e).op <==>
        match e
        case SendBegin(u, msg, _) => t in s.op || (t == u && |msg| <= c.msgSize && s.free != [])
        case SendEnd(u) => t in s.op && t != u
        case Recv(u, wait, _, _) => t in s.op || (t == u && (s.queue != [] || wait))
        case RecvRetry(u, expired) => t in s.op && (t != u || s.queue != [] || !expired)
        case RecvEnd(u) => t in s.op && t != u
        case Return(u) => t in s.op && t != u
        case _ => t in s.op
  {
    hide Partition, SlotsOk, Payloads, Enqueue, Overlaid, CopyOf, Without, Reverse;
    assert s.receivers != [] ==> s.receivers[0] in s.receivers;
  }

  // Who stops sleeping: everybody in a reset, the one whose time is over, or the one whose turn
  // it is when a message has been queued.
  ghost predicate Turn(c: Config, s: State, e: Event, since: map<Tid, nat>)
    requires Enabled(s, e)
  {
    var r := Apply(c, s, e);
    && (e.Reset? ==> forall t :: t in since ==> IsFailed(r, t))
    && (e.Timeout? ==> IsFailed(r, e.t))
    && (e.SendEnd? && since != map[] ==> exists t :: t in since && IsWoken(r, t))
    && (forall t :: t in since && !Sleeping(r, t) && !e.Reset? && !(e.Timeout? && e.t == t) ==>
          && e.SendEnd? && IsWoken(r, t)
          && forall u :: u in since && u != t ==> Before(t, u, c.flag, c.prio, since))
  }

  lemma FirstServed(c: Config, s: State, e: Event)
    requires Waiting(s) && Enabled(s, e)
    ensures
      var r := Apply(c, s, e);
      && (e.Reset? ==> forall t :: t in s.receivers ==> IsFailed(r, t))
      && (e.Timeout? ==> IsFailed(r, e.t))
      && (forall t :: t in s.receivers && !e.Reset? && !(e.Timeout? && e.t == t) ==>
            if e.SendEnd? && t == s.receivers[0] then IsWoken(r, t) else Sleeping(r, t))
  {
    hide Enqueue, Reverse, Overlaid, CopyOf, Without;
  }

  lemma EventTurn(c: Config, s: State, e: Event, since: map<Tid, nat>, now: nat)
    requires Inv(c, s) && Enabled(s, e) && InTurn(s.receivers, c.flag, c.prio, since, now)
    ensures Turn(c, s, e, since)
  {
    hide Partition, SlotsOk, Payloads, Apply, InTurn, Before, Distinct;
    var list := s.receivers;
    TurnMembers(list, c.flag, c.prio, since, now);
    FirstServed(c, s, e);
    if list != [] {
      TailInTurn(list, c.flag, c.prio, since, now);
      assert list[0] in since;
    }
    assert list == [] ==> since.Keys == {};
  }

  lemma {:induction false} RunInTurn(
    c: Config, s: State, es: seq<Event>, last: State, since: map<Tid, nat>, now: nat)
    requires Inv(c, s) && Runs(c, s, es, last) && InTurn(s.receivers, c.flag, c.prio, since, now)
    ensures Inv(c, last)
    ensures InTurn(last.receivers, c.flag, c.prio, Sleepers(c, s, es, since, now), now + |es|)
    decreases |es|
  {
    hide Inv, InTurn, Apply, Since;
    if es != [] {
      EventSafe(c, s, es[0]);
      EventInTurn(c, s, es[0], since, now);
      RunInTurn(c, Apply(c, s, es[0]), es[1..], last, Since(c, s, es[0], since, now), now + 1);
    }
  }

  // In every run those sleep who found no message and were neither served nor failed since; each
  // message queued wakes one of them: the one that has slept longest, in a priority list among
  // the most urgent.
  lemma ServedInTurn(c: Config, slots: seq<Msg>, es: seq<Event>, s: State, e: Event)
    requires PoolOk(c, slots) && Runs(c, Init(c, slots), es, s) && Enabled(s, e)
    ensures
      var since := Sleepers(c, Init(c, slots), es, map[], 0);
      (forall t :: t in since <==> Sleeping(s, t)) && Turn(c, s, e, since)
  {
    hide Partition, SlotsOk, Payloads, InTurn, Apply;
    var since := Sleepers(c, Init(c, slots), es, map[], 0);
    InitInv(c, slots);
    NobodyInTurn(c.flag, c.prio, 0);
    RunInTurn(c, Init(c, slots), es, s, map[], 0);
    TurnMembers(s.receivers, c.flag, c.prio, since, |es|);
    EventTurn(c, s, e, since, |es|);
  }
}

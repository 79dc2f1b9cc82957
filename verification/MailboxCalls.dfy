// What the threads of a mailbox asked for, and in which order they are served: the states of
// a run against the calls that were made.
module MailboxCalls {
  import opened Options
  import opened IpcList
  import opened Lists
  import opened Mailbox

  // ----- the mails -----

  // The call a thread is in: its last send or receive
  ghost function Called(e: Event, calls: map<Tid, Event>): map<Tid, Event> {
    if (e.Send? || e.Recv?) && e.who.Some? then calls[e.who.value := e] else calls
  }

  ghost function Calls(es: seq<Event>, calls: map<Tid, Event>): map<Tid, Event> {
    if es == [] then calls else Calls(es[1..], Called(es[0], calls))
  }

  function CallOf(t: Tid, o: Op): Event
    requires !o.Failed?
  {
    match o
    case RecvBlocked(timed) => Recv(Some(t), true, timed)
    case RecvWoken(timed) => Recv(Some(t), true, timed)
    case SendBlocked(mail, timed) => Send(Some(t), mail, true, timed)
    case SendWoken(mail, timed) => Send(Some(t), mail, true, timed)
  }

  // A thread asleep or woken in a call is in the one it made, with its mail and timeout.
  ghost predicate Recorded(s: State, calls: map<Tid, Event>) {
    forall t :: t in s.op && !s.op[t].Failed? ==> t in calls && calls[t] == CallOf(t, s.op[t])
  }

  // The mail that an event puts into the mailbox, if there is room
  ghost function Deposit(c: Config, s: State, e: Event, calls: map<Tid, Event>): seq<Mail> {
    if |s.queue| >= c.size then []
    else if e.Send? then [e.mail]
    else if e.SendRetry? && e.t in calls && calls[e.t].Send? then [calls[e.t].mail]
    else []
  }

  ghost function Deposits(c: Config, s: State, es: seq<Event>, calls: map<Tid, Event>): seq<Mail>
    decreases |es|
  {
    if es == [] || !Enabled(s, es[0]) then []
    else Deposit(c, s, es[0], calls) + Deposits(c, Apply(c, s, es[0]), es[1..], Called(es[0], calls))
  }

  lemma PutRecorded(s: State, mail: Mail, calls: map<Tid, Event>)
    requires ListsAgree(s) && Recorded(s, calls)
    ensures
      var r := Put(s, mail);
      Recorded(r, calls) && r.accepted == s.accepted + [mail] && r.queue == s.queue + [mail]
  {
    assert s.receivers != [] ==> s.receivers[0] in s.receivers;
  }

  lemma TakeRecorded(s: State, calls: map<Tid, Event>)
    requires ListsAgree(s) && Recorded(s, calls) && s.queue != []
    ensures Recorded(Take(s), calls) && Take(s).accepted == s.accepted && Take(s).queue == s.queue[1..]
  {
    assert s.senders != [] ==> s.senders[0] in s.senders;
  }

  lemma BlockRecorded(c: Config, s: State, t: Tid, mail: Mail, timed: bool, calls: map<Tid, Event>)
    requires Recorded(s, calls) && t in calls
    ensures calls[t] == Recv(Some(t), true, timed) ==> Recorded(BlockReceiver(c, s, t, timed), calls)
    ensures calls[t] == Send(Some(t), mail, true, timed) ==> Recorded(BlockSender(c, s, t, mail, timed), calls)
  {}

  // A thread that is in no call may make one.
  lemma CalledRecorded(s: State, t: Tid, e: Event, calls: map<Tid, Event>)
    requires Recorded(s, calls) && t !in s.op
    ensures Recorded(s, calls[t := e])
  {}

  lemma IdleRecorded(s: State, t: Tid, calls: map<Tid, Event>)
    requires Recorded(s, calls) && ListsAgree(s) && t !in s.receivers && t !in s.senders
    ensures Recorded(s.(op := s.op - {t}), calls) && ListsAgree(s.(op := s.op - {t}))
  {}

  // What an event does to the record and to the mails
  ghost predicate Records(c: Config, s: State, e: Event, calls: map<Tid, Event>)
    requires Enabled(s, e)
  {
    var r := Apply(c, s, e);
    && Recorded(r, Called(e, calls)) && r.accepted == s.accepted + Deposit(c, s, e, calls)
    && r.queue == (if e.Reset? then [] else if (e.Recv? || e.RecvRetry?) && s.queue != [] then s.queue[1..]
                   else s.queue + Deposit(c, s, e, calls))
  }

  lemma SendRecorded(c: Config, s: State, e: Event, calls: map<Tid, Event>)
    requires Inv(c, s) && Enabled(s, e) && (e.Send? || e.Recv?) && Recorded(s, calls)
    ensures Records(c, s, e, calls)
  {
    hide Recorded, Put, Take, NoLostWakeup, Enqueue;
    if e.who.Some? { CalledRecorded(s, e.who.value, e, calls); }
    var after := Called(e, calls);
    if e.Send? {
      if |s.queue| < c.size { PutRecorded(s, e.mail, after); }
      else if e.wait && e.who.Some? { BlockRecorded(c, s, e.who.value, e.mail, e.timed, after); }
    } else {
      if s.queue != [] { TakeRecorded(s, after); }
      else if e.wait && e.who.Some? { BlockRecorded(c, s, e.who.value, 0, e.timed, after); }
    }
  }

  lemma RetryRecorded(c: Config, s: State, e: Event, calls: map<Tid, Event>)
    requires Inv(c, s) && Enabled(s, e) && (e.SendRetry? || e.RecvRetry?) && Recorded(s, calls)
    ensures Records(c, s, e, calls)
  {
    hide Put, Take, NoLostWakeup, Enqueue;
    var t, o, idle := e.t, s.op[e.t], s.(op := s.op - {e.t});
    IdleRecorded(s, t, calls);
    assert calls[t] == CallOf(t, o);
    hide Recorded;
    if e.SendRetry? {
      if |s.queue| < c.size { PutRecorded(idle, o.mail, calls); }
      else { BlockRecorded(c, idle, t, o.mail, o.timed, calls); }
    } else {
      if s.queue != [] { TakeRecorded(idle, calls); } else { BlockRecorded(c, idle, t, 0, o.timed, calls); }
    }
  }

  // An event keeps the record, and puts the mail of the call into the mailbox or takes the oldest.
  lemma EventRecorded(c: Config, s: State, e: Event, calls: map<Tid, Event>)
    requires Inv(c, s) && Enabled(s, e) && Recorded(s, calls)
    ensures Records(c, s, e, calls)
  {
    hide NoLostWakeup;
    match e
    case Send(_, _, _, _) => SendRecorded(c, s, e, calls);
    case Recv(_, _, _) => SendRecorded(c, s, e, calls);
    case SendRetry(_, _) => RetryRecorded(c, s, e, calls);
    case RecvRetry(_, _) => RetryRecorded(c, s, e, calls);
    case Timeout(_) =>
    case Return(_) =>
    case Reset =>
  }

  lemma {:induction false} RunRecorded(
    c: Config, s: State, es: seq<Event>, last: State, calls: map<Tid, Event>)
    requires Inv(c, s) && Recorded(s, calls) && Runs(c, s, es, last)
    ensures Recorded(last, Calls(es, calls))
    ensures last.accepted == s.accepted + Deposits(c, s, es, calls)
    decreases |es|
  {
    hide Inv, Recorded, Apply, Deposit;
    if es != [] {
      EventSafe(c, s, es[0]);
      EventRecorded(c, s, es[0], calls);
      RunRecorded(c, Apply(c, s, es[0]), es[1..], last, Called(es[0], calls));
    }
  }

  // In every run the mails accepted are those the sends passed, in the order in which they found
  // room, and each thread in a call still holds what it was called with.
  lemma AcceptedIsSent(c: Config, es: seq<Event>, s: State)
    requires Runs(c, Init(), es, s)
    ensures Mails(s.gone) + s.queue == Deposits(c, Init(), es, map[])
    ensures
      var calls := Calls(es, map[]);
      forall t :: t in s.op && !s.op[t].Failed? ==> t in calls && calls[t] == CallOf(t, s.op[t])
  {
    RunSafe(c, Init(), es, s);
    RunRecorded(c, Init(), es, s, map[]);
  }

  // ----- the turns -----

  datatype Side = Receivers | Senders

  function ListOf(s: State, side: Side): seq<Tid> { if side.Receivers? then s.receivers else s.senders }

  predicate Sleeping(s: State, t: Tid, side: Side) {
    t in s.op && if side.Receivers? then s.op[t].RecvBlocked? else s.op[t].SendBlocked?
  }

  predicate IsWoken(s: State, t: Tid, side: Side) {
    t in s.op && if side.Receivers? then s.op[t].RecvWoken? else s.op[t].SendWoken?
  }

  predicate IsFailed(s: State, t: Tid) { t in s.op && s.op[t].Failed? }

  // A mail put in is for a receiver, room made is for a sender.
  predicate Serves(c: Config, s: State, e: Event, side: Side) {
    if side.Receivers? then (e.Send? || e.SendRetry?) && |s.queue| < c.size
    else (e.Recv? || e.RecvRetry?) && s.queue != []
  }

  // Who goes to sleep in an event: a caller that may wait and finds no mail, or no room
  function Blocker(c: Config, s: State, e: Event, side: Side): Option<Tid> {
    match e
    case Send(who, _, wait, _) => if side.Senders? && |s.queue| >= c.size && wait then who else None
    case SendRetry(t, expired) => if side.Senders? && |s.queue| >= c.size && !expired then Some(t) else None
    case Recv(who, wait, _) => if side.Receivers? && s.queue == [] && wait then who else None
    case RecvRetry(t, expired) => if side.Receivers? && s.queue == [] && !expired then Some(t) else None
    case _ => None
  }

  // Since when the threads of a side sleep, after an event
  ghost function Since(c: Config, s: State, e: Event, since: map<Tid, nat>, now: nat, side: Side): map<Tid, nat>
    requires Enabled(s, e)
  {
    var still := map t | t in since && Sleeping(Apply(c, s, e), t, side) :: since[t];
    if Blocker(c, s, e, side).Some? then still[Blocker(c, s, e, side).value := now] else still
  }

  ghost function Sleepers(
    c: Config, s: State, es: seq<Event>, since: map<Tid, nat>, now: nat, side: Side): map<Tid, nat>
    decreases |es|
  {
    if es == [] || !Enabled(s, es[0]) then since
    else Sleepers(c, Apply(c, s, es[0]), es[1..], Since(c, s, es[0], since, now, side), now + 1, side)
  }

  // What an event does to a list of sleeping threads
  lemma ListAfter(c: Config, s: State, e: Event, side: Side)
    requires Inv(c, s) && Enabled(s, e)
    ensures
      var list, r := ListOf(s, side), ListOf(Apply(c, s, e), side);
      r == if e.Reset? then []
           else if e.Timeout? then Without(list, e.t)
           else if Serves(c, s, e, side) && list != [] then list[1..]
           else if Blocker(c, s, e, side).Some? then Enqueue(list, Blocker(c, s, e, side).value, c.flag, c.prio)
           else list
  {
    hide NoLostWakeup, Enqueue;
    assert s.receivers != [] ==> s.receivers[0] in s.receivers;
    assert s.senders != [] ==> s.senders[0] in s.senders;
  }

  lemma BlockerAwake(c: Config, s: State, e: Event, side: Side)
    requires Inv(c, s) && Enabled(s, e) && Blocker(c, s, e, side).Some?
    ensures Blocker(c, s, e, side).value !in ListOf(s, side)
    ensures !Serves(c, s, e, side) && !e.Reset? && !e.Timeout?
  {
    hide NoLostWakeup;
  }

  lemma ListsSleep(c: Config, s: State, side: Side)
    requires Inv(c, s)
    ensures forall t :: t in ListOf(s, side) <==> Sleeping(s, t, side)
  {
    hide NoLostWakeup;
  }

  // The times after an event, by what has become of the list
  lemma SinceAfter(c: Config, s: State, e: Event, since: map<Tid, nat>, now: nat, side: Side)
    requires Inv(c, s) && Enabled(s, e) && forall t :: t in ListOf(s, side) <==> t in since
    ensures
      var after, r := Since(c, s, e, since, now, side), ListOf(Apply(c, s, e), side);
      if Blocker(c, s, e, side).Some? then after == since[Blocker(c, s, e, side).value := now]
      else after == map t | t in since && t in r :: since[t]
  {
    hide Inv, Blocker, Apply, ListOf, Sleeping;
    EventSafe(c, s, e);
    ListsSleep(c, Apply(c, s, e), side);
    if Blocker(c, s, e, side).Some? { BlockerSince(c, s, e, since, now, side); }
  }

  lemma BlockerSince(c: Config, s: State, e: Event, since: map<Tid, nat>, now: nat, side: Side)
    requires Inv(c, s) && Enabled(s, e) && forall t :: t in ListOf(s, side) <==> t in since
    requires Blocker(c, s, e, side).Some?
    ensures Since(c, s, e, since, now, side) == since[Blocker(c, s, e, side).value := now]
  {
    hide Inv, Blocker, Apply, ListOf, Sleeping, Serves, Enqueue;
    EventSafe(c, s, e);
    ListAfter(c, s, e, side);
    BlockerAwake(c, s, e, side);
    ListDistinct(c, s, side);
    EnqueueMembers(ListOf(s, side), Blocker(c, s, e, side).value, c.flag, c.prio);
    ListsSleep(c, Apply(c, s, e), side);
  }

  lemma ListDistinct(c: Config, s: State, side: Side)
    requires Inv(c, s)
    ensures Distinct(ListOf(s, side))
  {
    hide NoLostWakeup;
  }

  // Those who sleep stand in the list in their turn.
  lemma EventInTurn(c: Config, s: State, e: Event, since: map<Tid, nat>, now: nat, side: Side)
    requires Inv(c, s) && Enabled(s, e) && InTurn(ListOf(s, side), c.flag, c.prio, since, now)
    ensures InTurn(ListOf(Apply(c, s, e), side), c.flag, c.prio, Since(c, s, e, since, now, side), now + 1)
  {
    hide Inv, Serves, Blocker, Apply, Enqueue, InTurn, Since, Distinct;
    var list, r, after := ListOf(s, side), ListOf(Apply(c, s, e), side), Since(c, s, e, since, now, side);
    hide ListOf;
    ListAfter(c, s, e, side);
    TurnMembers(list, c.flag, c.prio, since, now);
    SinceAfter(c, s, e, since, now, side);
    if Blocker(c, s, e, side).Some? {
      BlockerAwake(c, s, e, side);
      EnqueueInTurn(list, Blocker(c, s, e, side).value, c.flag, c.prio, since, now);
    } else {
      var t := if e.Timeout? then e.t else if list != [] then list[0] else 0;
      if list != [] { WithoutHead(list); }
      LessInTurn(list, r, t, c.flag, c.prio, since, after, now);
    }
  }
  // A thread is in a call from going to sleep until it has run again and returns.
  lemma InCall(c: Config, s: State, e: Event, t: Tid)
    requires Inv(c, s) && Enabled(s, e)
    ensures
      t in Apply(c, s, e).op <==>
        || Blocker(c, s, e, Senders) == Some(t) || Blocker(c, s, e, Receivers) == Some(t)
        || (t in s.op && !((e.SendRetry? || e.RecvRetry? || e.Return?) && e.t == t))
  {
    hide NoLostWakeup, Enqueue;
    assert s.receivers != [] ==> s.receivers[0] in s.receivers;
    assert s.senders != [] ==> s.senders[0] in s.senders;
  }

  // Who stops sleeping: everybody in a reset, the one whose time is over, or the one whose turn
  // it is when there is something for it.
  ghost predicate Turn(c: Config, s: State, e: Event, since: map<Tid, nat>, side: Side)
    requires Enabled(s, e)
  {
    var r := Apply(c, s, e);
    && (e.Reset? ==> forall t :: t in since ==> IsFailed(r, t))
    && (e.Timeout? ==> IsFailed(r, e.t))
    && (Serves(c, s, e, side) && since != map[] ==> exists t :: t in since && IsWoken(r, t, side))
    && (forall t :: t in since && !Sleeping(r, t, side) && !e.Reset? && !(e.Timeout? && e.t == t) ==>
          && Serves(c, s, e, side) && IsWoken(r, t, side)
          && forall u :: u in since && u != t ==> Before(t, u, c.flag, c.prio, since))
  }

  lemma EventTurn(c: Config, s: State, e: Event, since: map<Tid, nat>, now: nat, side: Side)
    requires Inv(c, s) && Enabled(s, e) && InTurn(ListOf(s, side), c.flag, c.prio, since, now)
    ensures Turn(c, s, e, since, side)
  {
    hide Inv, InTurn, Before, Distinct, NoLostWakeup;
    var list := ListOf(s, side);
    TurnMembers(list, c.flag, c.prio, since, now);
    ListsSleep(c, s, side);
    FirstServed(c, s, e, side);
    if list != [] {
      TailInTurn(list, c.flag, c.prio, since, now);
      assert list[0] in since;
    }
    assert list == [] ==> since.Keys == {};
  }

  lemma FirstServed(c: Config, s: State, e: Event, side: Side)
    requires Inv(c, s) && Enabled(s, e)
    ensures
      var list, r := ListOf(s, side), Apply(c, s, e);
      && (e.Reset? ==> forall t :: t in list ==> IsFailed(r, t))
      && (e.Timeout? ==> IsFailed(r, e.t))
      && (forall t :: t in list && !e.Reset? && !(e.Timeout? && e.t == t) ==>
            if Serves(c, s, e, side) && t == list[0] then IsWoken(r, t, side) else Sleeping(r, t, side))
  {
    hide NoLostWakeup, Enqueue;
  }

  lemma {:induction false} RunInTurn(
    c: Config, s: State, es: seq<Event>, last: State, since: map<Tid, nat>, now: nat, side: Side)
    requires Inv(c, s) && Runs(c, s, es, last) && InTurn(ListOf(s, side), c.flag, c.prio, since, now)
    ensures Inv(c, last)
    ensures InTurn(ListOf(last, side), c.flag, c.prio, Sleepers(c, s, es, since, now, side), now + |es|)
    decreases |es|
  {
    hide Inv, InTurn, Apply, Since;
    if es != [] {
      EventSafe(c, s, es[0]);
      EventInTurn(c, s, es[0], since, now, side);
      RunInTurn(c, Apply(c, s, es[0]), es[1..], last, Since(c, s, es[0], since, now, side), now + 1, side);
    }
  }

  // In every run those sleep in a send or receive who found no room or no mail and were neither
  // served nor failed since; each mail wakes one receiver, each piece of room one sender: the one
  // that has slept longest, in a priority list among the most urgent.
  lemma ServedInTurn(c: Config, es: seq<Event>, s: State, e: Event, side: Side)
    requires Runs(c, Init(), es, s) && Enabled(s, e)
    ensures
      var since := Sleepers(c, Init(), es, map[], 0, side);
      (forall t :: t in since <==> Sleeping(s, t, side)) && Turn(c, s, e, since, side)
  {
    hide InTurn, Apply;
    var since := Sleepers(c, Init(), es, map[], 0, side);
    NobodyInTurn(c.flag, c.prio, 0);
    RunInTurn(c, Init(), es, s, map[], 0, side);
    TurnMembers(ListOf(s, side), c.flag, c.prio, since, |es|);
    ListsSleep(c, s, side);
    EventTurn(c, s, e, since, |es|, side);
  }
}

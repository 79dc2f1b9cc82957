// Mailboxes (src/ipc.c, rt_mb_*): a ring buffer of mails with a list of suspended receivers
// and a list of suspended senders.
//
// A region of the source that runs with interrupts disabled is one event. Between two events
// any other thread, interrupt handler or timer may act.
module Mailbox {
  import opened Options
  import opened IpcList
  import opened Lists

  type Mail = int

  // Where a thread is inside rt_mb_recv or rt_mb_send_wait. 'timed' tells a finite timeout.
  datatype Op =
    | RecvBlocked(timed: bool)
    | RecvWoken(timed: bool)
    | SendBlocked(mail: Mail, timed: bool)
    | SendWoken(mail: Mail, timed: bool)
    | Failed

  // How a mail left the mailbox: handed to a receiver, or thrown away by a reset
  datatype Exit = Handed(mail: Mail) | Dropped(mail: Mail)

  // 'accepted' records all mails ever put into the mailbox, 'gone' how they left it.
  datatype State = State(
    queue: seq<Mail>, receivers: seq<Tid>, senders: seq<Tid>, op: map<Tid, Op>,
    accepted: seq<Mail>, gone: seq<Exit>)

  datatype Config = Config(size: nat, flag: Flag, prio: Tid -> nat)

  // Calls from interrupt handlers have no thread and do not wait.
  datatype Event =
    | Send(who: Option<Tid>, mail: Mail, wait: bool, timed: bool)
    | SendRetry(t: Tid, expired: bool)
    | Recv(who: Option<Tid>, wait: bool, timed: bool)
    | RecvRetry(t: Tid, expired: bool)
    | Timeout(t: Tid)
    | Return(t: Tid)
    | Reset

  predicate Enabled(s: State, e: Event) {
    match e
    case Send(who, _, wait, _) => if who.None? then !wait else who.value !in s.op
    case SendRetry(t, expired) => t in s.op && s.op[t].SendWoken? && (expired ==> s.op[t].timed)
    case Recv(who, wait, _) => if who.None? then !wait else who.value !in s.op
    case RecvRetry(t, expired) => t in s.op && s.op[t].RecvWoken? && (expired ==> s.op[t].timed)
    case Timeout(t) => t in s.op && (s.op[t].RecvBlocked? || s.op[t].SendBlocked?) && s.op[t].timed
    case Return(t) => t in s.op && s.op[t].Failed?
    case Reset => true
  }

  function Mails(gone: seq<Exit>): (r: seq<Mail>)
    ensures |r| == |gone|
  {
    seq(|gone|, i requires 0 <= i < |gone| => gone[i].mail)
  }

  function AllDropped(queue: seq<Mail>): (r: seq<Exit>)
    ensures |r| == |queue|
  {
    seq(|queue|, i requires 0 <= i < |queue| => Dropped(queue[i]))
  }

  lemma MailsDropped(gone: seq<Exit>, queue: seq<Mail>)
    ensures Mails(gone + AllDropped(queue)) == Mails(gone) + queue
  {}

  lemma MailsHanded(gone: seq<Exit>, queue: seq<Mail>)
    requires queue != []
    ensures Mails(gone + [Handed(queue[0])]) + queue[1..] == Mails(gone) + queue
  {}

  // ----- what the events do, on the queue of mails -----

  function WakeReceiver(s: State): State {
    if s.receivers == [] then s
    else
      var t := s.receivers[0];
      s.(receivers := s.receivers[1..],
         op := s.op[t := RecvWoken(t in s.op && s.op[t].RecvBlocked? && s.op[t].timed)])
  }

  function WakeSender(s: State): State {
    if s.senders == [] then s
    else
      var t := s.senders[0];
      if t in s.op && s.op[t].SendBlocked? then
        s.(senders := s.senders[1..], op := s.op[t := SendWoken(s.op[t].mail, s.op[t].timed)])
      else s
  }

  function Put(s: State, mail: Mail): State {
    WakeReceiver(s.(queue := s.queue + [mail], accepted := s.accepted + [mail]))
  }

  function Take(s: State): State
    requires s.queue != []
  {
    WakeSender(s.(queue := s.queue[1..], gone := s.gone + [Handed(s.queue[0])]))
  }

  function BlockReceiver(c: Config, s: State, t: Tid, timed: bool): State {
    s.(receivers := Enqueue(s.receivers, t, c.flag, c.prio), op := s.op[t := RecvBlocked(timed)])
  }

  function BlockSender(c: Config, s: State, t: Tid, mail: Mail, timed: bool): State {
    s.(senders := Enqueue(s.senders, t, c.flag, c.prio), op := s.op[t := SendBlocked(mail, timed)])
  }

  function Apply(c: Config, s: State, e: Event): State
    requires Enabled(s, e)
  {
    match e
    case Send(who, mail, wait, timed) =>
      if |s.queue| < c.size then Put(s, mail)
      else if wait && who.Some? then BlockSender(c, s, who.value, mail, timed)
      else s
    case SendRetry(t, expired) =>
      var mail, timed := s.op[t].mail, s.op[t].timed;
      var idle := s.(op := s.op - {t});
      if |s.queue| < c.size then Put(idle, mail)
      else if expired then idle
      else BlockSender(c, idle, t, mail, timed)
    case Recv(who, wait, timed) =>
      if s.queue != [] then Take(s)
      else if wait && who.Some? then BlockReceiver(c, s, who.value, timed)
      else s
    case RecvRetry(t, expired) =>
      var timed := s.op[t].timed;
      var idle := s.(op := s.op - {t});
      if s.queue != [] then Take(idle)
      else if expired then idle
      else BlockReceiver(c, idle, t, timed)
    case Timeout(t) =>
      s.(receivers := Without(s.receivers, t), senders := Without(s.senders, t), op := s.op[t := Failed])
    case Return(t) => s.(op := s.op - {t})
    case Reset =>
      s.(queue := [], receivers := [], senders := [], gone := s.gone + AllDropped(s.queue),
         op := map t | t in s.op :: if t in s.receivers || t in s.senders then Failed else s.op[t])
  }

  // ----- safety -----

  ghost function WokenReceivers(s: State): set<Tid> { set t | t in s.op && s.op[t].RecvWoken? }
  ghost function WokenSenders(s: State): set<Tid> { set t | t in s.op && s.op[t].SendWoken? }

  ghost predicate ListsAgree(s: State) {
    && Distinct(s.receivers) && Distinct(s.senders)
    && (forall t :: t in s.receivers <==> t in s.op && s.op[t].RecvBlocked?)
    && (forall t :: t in s.senders <==> t in s.op && s.op[t].SendBlocked?)
  }

  // Every mail that a suspended receiver could want has a woken receiver on its way, and
  // every free slot that a suspended sender could use has a woken sender on its way.
  ghost predicate NoLostWakeup(c: Config, s: State) {
    && (s.receivers != [] ==> |s.queue| <= |WokenReceivers(s)|)
    && (s.senders != [] ==> c.size - |s.queue| <= |WokenSenders(s)|)
  }

  ghost predicate Inv(c: Config, s: State) {
    && |s.queue| <= c.size
    && ListsAgree(s)
    && NoLostWakeup(c, s)
    && s.accepted == Mails(s.gone) + s.queue
  }

  function Init(): State { State([], [], [], map[], [], []) }

  lemma WakeReceiverSafe(s: State)
    requires ListsAgree(s)
    ensures ListsAgree(WakeReceiver(s))
    ensures |WokenReceivers(WakeReceiver(s))| == |WokenReceivers(s)| + (if s.receivers == [] then 0 else 1)
    ensures WokenSenders(WakeReceiver(s)) == WokenSenders(s)
  {
    if s.receivers != [] {
      var t := s.receivers[0];
      assert forall u :: u in s.receivers[1..] <==> u in s.receivers && u != t;
      assert WokenReceivers(WakeReceiver(s)) == WokenReceivers(s) + {t};
      AddOne(WokenReceivers(s), t);
    }
  }

  lemma WakeSenderSafe(s: State)
    requires ListsAgree(s)
    ensures ListsAgree(WakeSender(s))
    ensures |WokenSenders(WakeSender(s))| == |WokenSenders(s)| + (if s.senders == [] then 0 else 1)
    ensures WokenReceivers(WakeSender(s)) == WokenReceivers(s)
    ensures s.senders != [] ==> WakeSender(s).senders == s.senders[1..]
  {
    if s.senders != [] {
      var t := s.senders[0];
      assert forall u :: u in s.senders[1..] <==> u in s.senders && u != t;
      assert WokenSenders(WakeSender(s)) == WokenSenders(s) + {t};
      AddOne(WokenSenders(s), t);
    }
  }

  // Putting a mail is safe even when it uses up the wakeup of the sender that puts it.
  lemma PutSafe(c: Config, s: State, mail: Mail)
    requires ListsAgree(s) && |s.queue| < c.size && s.accepted == Mails(s.gone) + s.queue
    requires s.receivers != [] ==> |s.queue| <= |WokenReceivers(s)|
    requires s.senders != [] ==> c.size - |s.queue| <= |WokenSenders(s)| + 1
    ensures Inv(c, Put(s, mail))
  {
    var s1 := s.(queue := s.queue + [mail], accepted := s.accepted + [mail]);
    assert ListsAgree(s1);
    assert WokenReceivers(s1) == WokenReceivers(s) && WokenSenders(s1) == WokenSenders(s);
    WakeReceiverSafe(s1);
  }

  lemma TakeSafe(c: Config, s: State)
    requires ListsAgree(s) && s.queue != [] && |s.queue| <= c.size && s.accepted == Mails(s.gone) + s.queue
    requires s.receivers != [] ==> |s.queue| <= |WokenReceivers(s)| + 1
    requires s.senders != [] ==> c.size - |s.queue| <= |WokenSenders(s)|
    ensures Inv(c, Take(s))
  {
    hide Mails;
    var s1 := s.(queue := s.queue[1..], gone := s.gone + [Handed(s.queue[0])]);
    MailsHanded(s.gone, s.queue);
    assert ListsAgree(s1);
    assert WokenReceivers(s1) == WokenReceivers(s) && WokenSenders(s1) == WokenSenders(s);
    WakeSenderSafe(s1);
  }

  lemma BlockReceiverSafe(c: Config, s: State, t: Tid, timed: bool)
    requires ListsAgree(s) && s.queue == [] && t !in s.op && s.accepted == Mails(s.gone)
    requires s.senders != [] ==> c.size <= |WokenSenders(s)|
    ensures Inv(c, BlockReceiver(c, s, t, timed))
  {
    EnqueueMembers(s.receivers, t, c.flag, c.prio);
    var s1 := BlockReceiver(c, s, t, timed);
    assert WokenReceivers(s1) == WokenReceivers(s) && WokenSenders(s1) == WokenSenders(s);
  }

  lemma BlockSenderSafe(c: Config, s: State, t: Tid, mail: Mail, timed: bool)
    requires ListsAgree(s) && |s.queue| == c.size && t !in s.op && s.accepted == Mails(s.gone) + s.queue
    requires s.receivers != [] ==> |s.queue| <= |WokenReceivers(s)|
    ensures Inv(c, BlockSender(c, s, t, mail, timed))
  {
    EnqueueMembers(s.senders, t, c.flag, c.prio);
    var s1 := BlockSender(c, s, t, mail, timed);
    assert WokenReceivers(s1) == WokenReceivers(s) && WokenSenders(s1) == WokenSenders(s);
  }

  lemma SendRetrySafe(c: Config, s: State, t: Tid, expired: bool)
    requires Inv(c, s) && Enabled(s, SendRetry(t, expired))
    ensures Inv(c, Apply(c, s, SendRetry(t, expired)))
  {
    var idle := s.(op := s.op - {t});
    assert ListsAgree(idle);
    assert WokenSenders(idle) == WokenSenders(s) - {t} && WokenReceivers(idle) == WokenReceivers(s);
    RemoveOne(WokenSenders(s), t);
    if |s.queue| < c.size { PutSafe(c, idle, s.op[t].mail); }
    else if !expired { BlockSenderSafe(c, idle, t, s.op[t].mail, s.op[t].timed); }
  }

  lemma RecvRetrySafe(c: Config, s: State, t: Tid, expired: bool)
    requires Inv(c, s) && Enabled(s, RecvRetry(t, expired))
    ensures Inv(c, Apply(c, s, RecvRetry(t, expired)))
  {
    var idle := s.(op := s.op - {t});
    assert ListsAgree(idle);
    assert WokenReceivers(idle) == WokenReceivers(s) - {t} && WokenSenders(idle) == WokenSenders(s);
    RemoveOne(WokenReceivers(s), t);
    if s.queue != [] { TakeSafe(c, idle); }
    else if !expired { BlockReceiverSafe(c, idle, t, s.op[t].timed); }
  }

  lemma TimeoutSafe(c: Config, s: State, t: Tid)
    requires Inv(c, s) && Enabled(s, Timeout(t))
    ensures Inv(c, Apply(c, s, Timeout(t)))
  {
    var s1 := Apply(c, s, Timeout(t));
    assert WokenReceivers(s1) == WokenReceivers(s) && WokenSenders(s1) == WokenSenders(s);
  }

  // Every event of every thread, interrupt handler and timer keeps the invariant.
  lemma EventSafe(c: Config, s: State, e: Event)
    requires Inv(c, s) && Enabled(s, e)
    ensures Inv(c, Apply(c, s, e))
  {
    match e
    case Send(who, mail, wait, timed) =>
      if |s.queue| < c.size { PutSafe(c, s, mail); }
      else if wait && who.Some? { BlockSenderSafe(c, s, who.value, mail, timed); }
    case SendRetry(t, expired) => SendRetrySafe(c, s, t, expired);
    case Recv(who, wait, timed) =>
      if s.queue != [] { TakeSafe(c, s); }
      else if wait && who.Some? { BlockReceiverSafe(c, s, who.value, timed); }
    case RecvRetry(t, expired) => RecvRetrySafe(c, s, t, expired);
    case Timeout(t) => TimeoutSafe(c, s, t);
    case Return(t) =>
      var s1 := Apply(c, s, e);
      assert WokenReceivers(s1) == WokenReceivers(s) && WokenSenders(s1) == WokenSenders(s);
    case Reset => MailsDropped(s.gone, s.queue);
  }

  // A mail leaves the mailbox to a receiver, the oldest first, or with all others in a reset.
  lemma EventExits(c: Config, s: State, e: Event)
    requires Enabled(s, e)
    ensures
      var g := Apply(c, s, e).gone;
      if e.Reset? then g == s.gone + AllDropped(s.queue)
      else if (e.Recv? || e.RecvRetry?) && s.queue != [] then g == s.gone + [Handed(s.queue[0])]
      else g == s.gone
  {}

  // ----- runs -----

  ghost predicate Runs(c: Config, s: State, es: seq<Event>, last: State)
    decreases |es|
  {
    if es == [] then last == s
    else Enabled(s, es[0]) && Runs(c, Apply(c, s, es[0]), es[1..], last)
  }

  lemma {:induction false} RunSafe(c: Config, s: State, es: seq<Event>, last: State)
    requires Inv(c, s) && Runs(c, s, es, last)
    ensures Inv(c, last)
    decreases |es|
  {
    if es != [] {
      EventSafe(c, s, es[0]);
      RunSafe(c, Apply(c, s, es[0]), es[1..], last);
    }
  }

  ghost predicate AllHanded(s: State) { forall x :: x in s.gone ==> x.Handed? }

  lemma {:induction false} NothingDropped(c: Config, s: State, es: seq<Event>, last: State)
    requires Runs(c, s, es, last) && Reset !in es && AllHanded(s)
    ensures AllHanded(last)
    decreases |es|
  {
    if es != [] {
      EventExits(c, s, es[0]);
      NothingDropped(c, Apply(c, s, es[0]), es[1..], last);
    }
  }

  // In any interleaving from an empty mailbox, once every woken thread has run, receivers
  // sleep only on an empty mailbox and senders only on a full one. Mails left in the order
  // they were accepted, and all that left were delivered unless the mailbox was reset.
  lemma NoWakeupIsLost(c: Config, es: seq<Event>, s: State)
    requires Runs(c, Init(), es, s)
    ensures WokenReceivers(s) == {} && s.receivers != [] ==> s.queue == []
    ensures WokenSenders(s) == {} && s.senders != [] ==> |s.queue| == c.size
    ensures s.receivers != [] && s.senders != [] ==> |WokenReceivers(s)| + |WokenSenders(s)| >= c.size
    ensures s.accepted == Mails(s.gone) + s.queue
    ensures Reset !in es ==> forall x :: x in s.gone ==> x.Handed?
  {
    RunSafe(c, Init(), es, s);
    if Reset !in es { NothingDropped(c, Init(), es, s); }
  }
}

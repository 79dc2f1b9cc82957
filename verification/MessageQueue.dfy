// Message queues (src/ipc.c, rt_mq_*) as a transition system.
//
// rt_mq_send, rt_mq_urgent and rt_mq_recv copy the message with interrupts enabled, so a
// call is three events: claim a node, copy, finish. Any other call, interrupt or timer may
// come in between. A caller is a thread or one activation of an interrupt handler.
module MessageQueue {
  import opened Options
  import opened IpcList
  import opened Lists

  type Msg = seq<int>

  datatype Op =
    | Sending(node: nat, msg: Msg, urgent: bool, copied: bool)
    | RecvBlocked(timed: bool, size: nat)
    | RecvWoken(timed: bool, size: nat)
    | Receiving(node: nat, size: nat, front: Msg, copy: Option<Msg>)
    | Failed

  // 'slots' holds the msg_size bytes of each node; nodes are numbered by their place in the pool.
  // 'size' is the size of a receiver's buffer. For the proof, 'data' remembers the message last
  // copied into each node, and 'front' in Receiving the message at the front when it was claimed:
  // the source keeps no length of a message.
  datatype State = State(
    queue: seq<nat>, free: seq<nat>, data: seq<Msg>, slots: seq<Msg>, receivers: seq<Tid>, op: map<Tid, Op>)

  datatype Config = Config(maxMsgs: nat, msgSize: nat, flag: Flag, prio: Tid -> nat)

  datatype Event =
    | SendBegin(t: Tid, msg: Msg, urgent: bool)
    | SendCopy(t: Tid)
    | SendEnd(t: Tid)
    | Recv(t: Tid, wait: bool, timed: bool, size: nat)
    | RecvRetry(t: Tid, expired: bool)
    | RecvCopy(t: Tid)
    | RecvEnd(t: Tid)
    | Timeout(t: Tid)
    | Return(t: Tid)
    | Reset

  predicate Enabled(s: State, e: Event) {
    match e
    case SendBegin(t, _, _) => t !in s.op
    case SendCopy(t) => t in s.op && s.op[t].Sending? && !s.op[t].copied && s.op[t].node < |s.data| == |s.slots|
    case SendEnd(t) => t in s.op && s.op[t].Sending? && s.op[t].copied
    case Recv(t, _, _, _) => t !in s.op
    case RecvRetry(t, expired) => t in s.op && s.op[t].RecvWoken? && (expired ==> s.op[t].timed)
    case RecvCopy(t) => t in s.op && s.op[t].Receiving? && s.op[t].copy.None? && s.op[t].node < |s.slots|
    case RecvEnd(t) => t in s.op && s.op[t].Receiving? && s.op[t].copy.Some?
    case Timeout(t) => t in s.op && s.op[t].RecvBlocked? && s.op[t].timed
    case Return(t) => t in s.op && s.op[t].Failed?
    case Reset => true
  }

  function Reverse(q: seq<nat>): (r: seq<nat>)
    ensures |r| == |q|
    ensures forall n :: n in r <==> n in q
  {
    if q == [] then []
    else
      assert forall n :: n in q <==> n == q[0] || n in q[1..];
      Reverse(q[1..]) + [q[0]]
  }

  function Wake(s: State): State {
    if s.receivers == [] then s
    else
      var t := s.receivers[0];
      s.(receivers := s.receivers[1..],
         op := s.op[t := if t in s.op && s.op[t].RecvBlocked? then RecvWoken(s.op[t].timed, s.op[t].size)
                         else RecvWoken(false, 0)])
  }

  // Claim the front node for t
  function Claim(s: State, t: Tid, size: nat): State
    requires s.queue != []
  {
    var n := s.queue[0];
    s.(queue := s.queue[1..],
       op := s.op[t := Receiving(n, size, if n < |s.data| then s.data[n] else [], None)])
  }

  function Block(c: Config, s: State, t: Tid, timed: bool, size: nat): State {
    s.(receivers := Enqueue(s.receivers, t, c.flag, c.prio), op := s.op[t := RecvBlocked(timed, size)])
  }

  // rt_memcpy of a message into the bytes of a node, and out of them into a buffer of some size
  function Overlaid(slot: Msg, msg: Msg): (r: Msg)
    ensures |msg| <= |slot| ==> |r| == |slot|
    ensures msg <= r
  {
    msg + if |msg| <= |slot| then slot[|msg|..] else []
  }

  function CopyOf(slot: Msg, size: nat): Msg { if size > |slot| then slot else slot[..size] }

  function Link(s: State, t: Tid, n: nat, urgent: bool): State {
    Wake(s.(queue := if urgent then [n] + s.queue else s.queue + [n], op := s.op - {t}))
  }

  function Apply(c: Config, s: State, e: Event): State
    requires Enabled(s, e)
  {
    match e
    case SendBegin(t, msg, urgent) =>
      if |msg| > c.msgSize || s.free == [] then s
      else s.(free := s.free[1..], op := s.op[t := Sending(s.free[0], msg, urgent, false)])
    case SendCopy(t) =>
      var o := s.op[t];
      s.(data := s.data[o.node := o.msg], slots := s.slots[o.node := Overlaid(s.slots[o.node], o.msg)],
         op := s.op[t := o.(copied := true)])
    case SendEnd(t) => Link(s, t, s.op[t].node, s.op[t].urgent)
    case Recv(t, wait, timed, size) =>
      if s.queue != [] then Claim(s, t, size) else if wait then Block(c, s, t, timed, size) else s
    case RecvRetry(t, expired) =>
      var idle := s.(op := s.op - {t});
      if s.queue != [] then Claim(idle, t, s.op[t].size)
      else if expired then idle
      else Block(c, idle, t, s.op[t].timed, s.op[t].size)
    case RecvCopy(t) =>
      s.(op := s.op[t := s.op[t].(copy := Some(CopyOf(s.slots[s.op[t].node], s.op[t].size)))])
    case RecvEnd(t) => s.(free := [s.op[t].node] + s.free, op := s.op - {t})
    case Timeout(t) => s.(receivers := Without(s.receivers, t), op := s.op[t := Failed])
    case Return(t) => s.(op := s.op - {t})
    case Reset =>
      s.(queue := [], free := Reverse(s.queue) + s.free, receivers := [],
         op := map t | t in s.op :: if t in s.receivers then Failed else s.op[t])
  }

  // ----- safety -----

  predicate Holds(o: Op) { o.Sending? || o.Receiving? }

  // The callers that have a node in hand
  ghost function Holders(s: State): set<Tid> { set t | t in s.op && Holds(s.op[t]) }
  ghost function Woken(s: State): set<Tid> { set t | t in s.op && s.op[t].RecvWoken? }

  ghost predicate Held(s: State, n: nat) {
    exists t :: t in s.op && Holds(s.op[t]) && s.op[t].node == n
  }

  // Each node is in exactly one place: queued, free, or in the hands of one caller.
  ghost predicate Partition(c: Config, s: State) {
    && |s.data| == c.maxMsgs
    && Distinct(s.queue) && Distinct(s.free)
    && (forall n :: n in s.queue ==> n < c.maxMsgs && n !in s.free && !Held(s, n))
    && (forall n :: n in s.free ==> n < c.maxMsgs && !Held(s, n))
    && (forall t :: t in s.op && Holds(s.op[t]) ==> s.op[t].node < c.maxMsgs)
    && (forall t, u :: t in s.op && u in s.op && Holds(s.op[t]) && Holds(s.op[u]) && t != u ==>
          s.op[t].node != s.op[u].node)
    && |s.queue| + |s.free| + |Holders(s)| == c.maxMsgs
  }

  // The bytes of a node begin with the message last copied into it.
  ghost predicate SlotsOk(c: Config, s: State) {
    && |s.slots| == |s.data|
    && (forall n :: 0 <= n < |s.data| ==> |s.slots[n]| == c.msgSize && s.data[n] <= s.slots[n])
    && (forall t :: t in s.op && s.op[t].Sending? ==> |s.op[t].msg| <= c.msgSize)
  }

  // A copied message is the caller's; a claimed node still carries the message that was in front.
  ghost predicate Payloads(s: State) {
    && |s.slots| == |s.data|
    && (forall t :: t in s.op && s.op[t].Sending? && s.op[t].copied ==>
          s.op[t].node < |s.data| && s.data[s.op[t].node] == s.op[t].msg)
    && (forall t :: t in s.op && s.op[t].Receiving? ==>
          && s.op[t].node < |s.data| && s.data[s.op[t].node] == s.op[t].front
          && (s.op[t].copy.Some? ==> s.op[t].copy.value == CopyOf(s.slots[s.op[t].node], s.op[t].size)))
  }

  ghost predicate Waiting(s: State) {
    && Distinct(s.receivers)
    && (forall t :: t in s.receivers <==> t in s.op && s.op[t].RecvBlocked?)
    && (s.receivers != [] ==> |s.queue| <= |Woken(s)|)
  }

  ghost predicate Inv(c: Config, s: State) { Partition(c, s) && SlotsOk(c, s) && Payloads(s) && Waiting(s) }

  // The pool may hold any bytes at first.
  ghost predicate PoolOk(c: Config, slots: seq<Msg>) {
    |slots| == c.maxMsgs && forall n :: 0 <= n < |slots| ==> |slots[n]| == c.msgSize
  }

  function Init(c: Config, slots: seq<Msg>): State {
    State([], seq(c.maxMsgs, i requires 0 <= i < c.maxMsgs => c.maxMsgs - 1 - i), seq(c.maxMsgs, _ => []), slots, [],
        map[])
  }

  // The queued messages in order
  function Messages(s: State): (r: seq<Msg>)
    ensures |r| == |s.queue|
  {
    seq(|s.queue|, i requires 0 <= i < |s.queue| => if s.queue[i] < |s.data| then s.data[s.queue[i]] else [])
  }

  lemma TailMembers(q: seq<nat>)
    requires Distinct(q) && q != []
    ensures Distinct(q[1..]) && forall n :: n in q[1..] <==> n in q && n != q[0]
  {
    DistinctTail(q);
    assert forall n :: n in q <==> n == q[0] || n in q[1..];
  }

  // The first node of a list goes into the hands of t.
  lemma GrabPartition(c: Config, s: State, s1: State, t: Tid, n: nat)
    requires Partition(c, s) && t !in s.op
    requires t in s1.op && s1.op == s.op[t := s1.op[t]] && Holds(s1.op[t]) && s1.op[t].node == n
    requires s1.data == s.data && s1.slots == s.slots
    requires || (s.free != [] && n == s.free[0] && s1.free == s.free[1..] && s1.queue == s.queue)
             || (s.queue != [] && n == s.queue[0] && s1.queue == s.queue[1..] && s1.free == s.free)
    ensures Partition(c, s1)
  {
    hide Held, Holders;
    assert n in s.free || n in s.queue;
    GrabHolders(s, s1, t);
    if s1.queue == s.queue { TailMembers(s.free); } else { TailMembers(s.queue); }
  }

  lemma GrabHolders(s: State, s1: State, t: Tid)
    requires t !in s.op && t in s1.op && s1.op == s.op[t := s1.op[t]] && Holds(s1.op[t])
    ensures |Holders(s1)| == |Holders(s)| + 1
    ensures forall m :: Held(s1, m) ==> Held(s, m) || m == s1.op[t].node
    ensures forall u :: u in s.op && Holds(s.op[u]) ==> Held(s, s.op[u].node)
  {
    assert Holders(s1) == Holders(s) + {t};
    AddOne(Holders(s), t);
    forall m | Held(s1, m) && m != s1.op[t].node ensures Held(s, m) {
      var u :| u in s1.op && Holds(s1.op[u]) && s1.op[u].node == m;
      assert u in s.op && s.op[u] == s1.op[u];
    }
  }

  lemma SendBeginSafe(c: Config, s: State, t: Tid, msg: Msg, urgent: bool)
    requires Inv(c, s) && t !in s.op
    ensures Inv(c, Apply(c, s, SendBegin(t, msg, urgent)))
  {
    if |msg| <= c.msgSize && s.free != [] {
      var s1 := Apply(c, s, SendBegin(t, msg, urgent));
      GrabPartition(c, s, s1, t, s.free[0]);
      assert Woken(s1) == Woken(s);
    }
  }

  lemma SendCopySafe(c: Config, s: State, t: Tid)
    requires Inv(c, s) && Enabled(s, SendCopy(t))
    ensures Inv(c, Apply(c, s, SendCopy(t)))
  {
    hide Held, Holders, Woken, Distinct, SlotsOk, Payloads;
    SendCopyHolders(c, s, t);
    SendCopySlots(c, s, t);
  }

  lemma SendCopySlots(c: Config, s: State, t: Tid)
    requires Inv(c, s) && Enabled(s, SendCopy(t))
    ensures SlotsOk(c, Apply(c, s, SendCopy(t))) && Payloads(Apply(c, s, SendCopy(t)))
  {
    hide Held, Holders, Woken, Distinct, Waiting;
  }

  // The copy leaves every node where it is.
  lemma SendCopyHolders(c: Config, s: State, t: Tid)
    requires Inv(c, s) && Enabled(s, SendCopy(t))
    ensures
      var s1 := Apply(c, s, SendCopy(t));
      Holders(s1) == Holders(s) && Woken(s1) == Woken(s) && forall n :: Held(s1, n) ==> Held(s, n)
  {
    hide Partition, SlotsOk, Payloads, Waiting;
    var s1 := Apply(c, s, SendCopy(t));
    forall n | Held(s1, n) ensures Held(s, n) {
      var u :| u in s1.op && Holds(s1.op[u]) && s1.op[u].node == n;
      assert u in s.op && Holds(s.op[u]) && s.op[u].node == n;
    }
  }

  // Taking t out of the operations releases its node.
  lemma ReleaseHolder(c: Config, s: State, t: Tid)
    requires Partition(c, s) && t in s.op && Holds(s.op[t])
    ensures var idle := s.(op := s.op - {t});
            Holders(idle) == Holders(s) - {t} && |Holders(idle)| == |Holders(s)| - 1
    ensures var idle := s.(op := s.op - {t});
            forall n :: Held(idle, n) ==> Held(s, n) && n != s.op[t].node
    ensures s.op[t].node !in s.queue && s.op[t].node !in s.free
  {
    var idle := s.(op := s.op - {t});
    assert Holders(idle) == Holders(s) - {t};
    assert t in Holders(s);
    assert Held(s, s.op[t].node);
    forall n | Held(idle, n) ensures Held(s, n) && n != s.op[t].node {
      var u :| u in idle.op && Holds(idle.op[u]) && idle.op[u].node == n;
      assert u in s.op && Holds(s.op[u]);
    }
  }

  lemma SendEndSafe(c: Config, s: State, t: Tid)
    requires Inv(c, s) && Enabled(s, SendEnd(t))
    ensures Inv(c, Apply(c, s, SendEnd(t)))
  {
    hide Partition, SlotsOk, Payloads, Wake;
    var n := s.op[t].node;
    var s1 := s.(queue := if s.op[t].urgent then [n] + s.queue else s.queue + [n], op := s.op - {t});
    LinkPartition(c, s, t, s1);
    assert Woken(s1) == Woken(s);
    WakeSafe(c, s1);
  }

  // The node goes from the hands of t to the queue.
  lemma LinkPartition(c: Config, s: State, t: Tid, s1: State)
    requires Partition(c, s) && SlotsOk(c, s) && Payloads(s) && t in s.op && Holds(s.op[t])
    requires s1 == s.(queue := s1.queue, op := s.op - {t})
    requires s1.queue == [s.op[t].node] + s.queue || s1.queue == s.queue + [s.op[t].node]
    ensures Partition(c, s1) && SlotsOk(c, s1) && Payloads(s1)
  {
    hide Held, Holders;
    ReleaseHolder(c, s, t);
    SameOps(s.(op := s.op - {t}), s1);
  }

  lemma ClaimSafe(c: Config, s: State, t: Tid, size: nat)
    requires Partition(c, s) && SlotsOk(c, s) && Payloads(s) && s.queue != [] && t !in s.op && Distinct(s.receivers)
    requires forall u :: u in s.receivers <==> u in s.op && s.op[u].RecvBlocked?
    requires s.receivers != [] ==> |s.queue| <= |Woken(s)| + 1
    ensures Inv(c, Claim(s, t, size))
  {
    hide Partition, SlotsOk, Payloads;
    ClaimParts(c, s, t, size);
    assert Woken(Claim(s, t, size)) == Woken(s);
  }

  lemma ClaimParts(c: Config, s: State, t: Tid, size: nat)
    requires Partition(c, s) && SlotsOk(c, s) && Payloads(s) && s.queue != [] && t !in s.op
    ensures
      var s1 := Claim(s, t, size);
      Partition(c, s1) && SlotsOk(c, s1) && Payloads(s1)
  {
    hide Distinct, Held, Holders, SlotsOk;
    var s1 := Claim(s, t, size);
    assert s.queue[0] in s.queue;
    GrabPartition(c, s, s1, t, s.queue[0]);
    SameSlots(c, s, s1);
  }

  // A caller that holds no node can leave or change its operation freely.
  lemma QuietSafe(c: Config, s: State, s1: State)
    requires Partition(c, s) && SlotsOk(c, s) && Payloads(s)
    requires s1 == s.(receivers := s1.receivers, op := s1.op)
    requires forall t :: t in s.op && Holds(s.op[t]) ==> t in s1.op && s1.op[t] == s.op[t]
    requires forall t :: t in s1.op && Holds(s1.op[t]) ==> t in s.op && s1.op[t] == s.op[t]
    ensures Partition(c, s1) && SlotsOk(c, s1) && Payloads(s1)
  {
    assert Holders(s1) == Holders(s);
    forall n | Held(s1, n) ensures Held(s, n) {
      var u :| u in s1.op && Holds(s1.op[u]) && s1.op[u].node == n;
      assert u in s.op && Holds(s.op[u]);
    }
  }

  lemma WakeSafe(c: Config, s: State)
    requires Partition(c, s) && SlotsOk(c, s) && Payloads(s) && Distinct(s.receivers)
    requires forall t :: t in s.receivers <==> t in s.op && s.op[t].RecvBlocked?
    requires s.receivers != [] ==> |s.queue| <= |Woken(s)| + 1
    ensures Inv(c, Wake(s))
  {
    hide Partition, SlotsOk, Payloads;
    if s.receivers != [] {
      var t := s.receivers[0];
      TailMembers(s.receivers);
      assert t in s.receivers;
      QuietSafe(c, s, Wake(s));
      assert Woken(Wake(s)) == Woken(s) + {t};
      AddOne(Woken(s), t);
    }
  }

  lemma BlockSafe(c: Config, s: State, t: Tid, timed: bool, size: nat)
    requires Partition(c, s) && SlotsOk(c, s) && Payloads(s) && s.queue == [] && t !in s.op && Distinct(s.receivers)
    requires forall u :: u in s.receivers <==> u in s.op && s.op[u].RecvBlocked?
    ensures Inv(c, Block(c, s, t, timed, size))
  {
    EnqueueMembers(s.receivers, t, c.flag, c.prio);
    QuietSafe(c, s, Block(c, s, t, timed, size));
  }

  lemma RecvRetrySafe(c: Config, s: State, t: Tid, expired: bool)
    requires Inv(c, s) && Enabled(s, RecvRetry(t, expired))
    ensures Inv(c, Apply(c, s, RecvRetry(t, expired)))
  {
    hide Partition, SlotsOk, Payloads;
    var idle := s.(op := s.op - {t});
    QuietSafe(c, s, idle);
    assert Woken(idle) == Woken(s) - {t};
    assert t in Woken(s);
    if s.queue != [] { ClaimSafe(c, idle, t, s.op[t].size); }
    else if !expired { BlockSafe(c, idle, t, s.op[t].timed, s.op[t].size); }
  }

  lemma RecvCopySafe(c: Config, s: State, t: Tid)
    requires Inv(c, s) && Enabled(s, RecvCopy(t))
    ensures Inv(c, Apply(c, s, RecvCopy(t)))
  {
    hide Held, Holders, Woken, Distinct, SlotsOk;
    RecvCopyHolders(c, s, t);
    SameSlots(c, s, Apply(c, s, RecvCopy(t)));
  }

  lemma RecvCopyHolders(c: Config, s: State, t: Tid)
    requires Inv(c, s) && Enabled(s, RecvCopy(t))
    ensures
      var s1 := Apply(c, s, RecvCopy(t));
      Holders(s1) == Holders(s) && Woken(s1) == Woken(s) && forall n :: Held(s1, n) ==> Held(s, n)
  {
    hide Partition, SlotsOk, Payloads, Waiting;
    var s1 := Apply(c, s, RecvCopy(t));
    forall n | Held(s1, n) ensures Held(s, n) {
      var u :| u in s1.op && Holds(s1.op[u]) && s1.op[u].node == n;
      assert u in s.op && Holds(s.op[u]) && s.op[u].node == n;
    }
  }

  // The bytes are as before, and nobody has begun to send.
  lemma SameSlots(c: Config, s: State, s1: State)
    requires SlotsOk(c, s) && s1.data == s.data && s1.slots == s.slots
    requires forall t :: t in s1.op && s1.op[t].Sending? ==> t in s.op && s1.op[t] == s.op[t]
    ensures SlotsOk(c, s1)
  {}

  lemma RecvEndSafe(c: Config, s: State, t: Tid)
    requires Inv(c, s) && Enabled(s, RecvEnd(t))
    ensures Inv(c, Apply(c, s, RecvEnd(t)))
  {
    hide Partition, SlotsOk, Payloads;
    FreePartition(c, s, t);
    assert Woken(Apply(c, s, RecvEnd(t))) == Woken(s);
  }

  // The node goes from the hands of t to the free list.
  lemma FreePartition(c: Config, s: State, t: Tid)
    requires Partition(c, s) && SlotsOk(c, s) && Payloads(s) && t in s.op && Holds(s.op[t])
    ensures
      var s1 := s.(free := [s.op[t].node] + s.free, op := s.op - {t});
      Partition(c, s1) && SlotsOk(c, s1) && Payloads(s1)
  {
    hide Held, Holders;
    var idle := s.(op := s.op - {t});
    var s1 := s.(free := [s.op[t].node] + s.free, op := s.op - {t});
    ReleaseHolder(c, s, t);
    SameOps(idle, s1);
  }

  lemma SameOps(s: State, s1: State)
    requires s1.op == s.op
    ensures Holders(s1) == Holders(s) && forall n :: Held(s1, n) ==> Held(s, n)
  {}

  lemma {:induction false} ReverseDistinct(q: seq<nat>)
    requires Distinct(q)
    ensures Distinct(Reverse(q))
  {
    if q != [] {
      TailMembers(q);
      ReverseDistinct(q[1..]);
      DistinctConcat(Reverse(q[1..]), [q[0]]);
    }
  }

  lemma ResetSafe(c: Config, s: State)
    requires Inv(c, s)
    ensures Inv(c, Apply(c, s, Reset))
  {
    hide Reverse, Partition, SlotsOk, Payloads;
    var s1 := Apply(c, s, Reset);
    var s2 := s.(receivers := [], op := s1.op);
    Quieter(c, s, s2, s1.op);
    AllFree(c, s2, s1);
  }

  // Every queued node becomes free.
  lemma AllFree(c: Config, s: State, s1: State)
    requires Partition(c, s) && SlotsOk(c, s) && Payloads(s) && s1 == s.(queue := [], free := Reverse(s.queue) + s.free)
    ensures Partition(c, s1) && SlotsOk(c, s1) && Payloads(s1)
  {
    hide Reverse;
    ReverseDistinct(s.queue);
    DistinctConcat(Reverse(s.queue), s.free);
    assert forall n :: n in s1.free <==> n in s.queue || n in s.free;
    assert Holders(s1) == Holders(s);
    assert forall m :: Held(s1, m) ==> Held(s, m);
  }

  // Failing the suspended receivers
  lemma Quieter(c: Config, s: State, s1: State, op: map<Tid, Op>)
    requires Inv(c, s) && s1 == s.(receivers := [], op := op)
    requires op == map t | t in s.op :: if t in s.receivers then Failed else s.op[t]
    ensures Partition(c, s1) && SlotsOk(c, s1) && Payloads(s1)
  {
    hide Partition, SlotsOk, Payloads;
    QuietSafe(c, s, s1);
  }

  // A caller that was waiting, or has failed, and holds no node
  lemma TimeoutSafe(c: Config, s: State, t: Tid)
    requires Inv(c, s) && Enabled(s, Timeout(t))
    ensures Inv(c, Apply(c, s, Timeout(t)))
  {
    hide Partition, SlotsOk, Payloads;
    QuietSafe(c, s, Apply(c, s, Timeout(t)));
    assert Woken(Apply(c, s, Timeout(t))) == Woken(s);
  }

  lemma ReturnSafe(c: Config, s: State, t: Tid)
    requires Inv(c, s) && Enabled(s, Return(t))
    ensures Inv(c, Apply(c, s, Return(t)))
  {
    hide Partition, SlotsOk, Payloads;
    QuietSafe(c, s, Apply(c, s, Return(t)));
    assert Woken(Apply(c, s, Return(t))) == Woken(s);
  }

  // Every event keeps every node in exactly one place, every payload where it belongs, and
  // every sleeping receiver entitled to sleep.
  lemma EventSafe(c: Config, s: State, e: Event)
    requires Inv(c, s) && Enabled(s, e)
    ensures Inv(c, Apply(c, s, e))
  {
    hide Inv, Claim, Link, Block, Reverse;
    match e
    case SendBegin(t, msg, urgent) => SendBeginSafe(c, s, t, msg, urgent);
    case SendCopy(t) => SendCopySafe(c, s, t);
    case SendEnd(t) => SendEndSafe(c, s, t);
    case Recv(t, wait, timed, size) => RecvSafe(c, s, t, wait, timed, size);
    case RecvRetry(t, expired) => RecvRetrySafe(c, s, t, expired);
    case RecvCopy(t) => RecvCopySafe(c, s, t);
    case RecvEnd(t) => RecvEndSafe(c, s, t);
    case Timeout(t) => TimeoutSafe(c, s, t);
    case Return(t) => ReturnSafe(c, s, t);
    case Reset => ResetSafe(c, s);
  }

  lemma RecvSafe(c: Config, s: State, t: Tid, wait: bool, timed: bool, size: nat)
    requires Inv(c, s) && t !in s.op
    ensures Inv(c, Apply(c, s, Recv(t, wait, timed, size)))
  {
    if s.queue != [] { ClaimSafe(c, s, t, size); } else if wait { BlockSafe(c, s, t, timed, size); }
  }

  // ----- linearization -----

  // What the queue of messages sees of an event: one step of a double-ended sequence, taken
  // where a send links its node and where a receive unlinks it; all else is invisible.
  function Effect(s: State, e: Event): seq<Msg>
    requires Enabled(s, e)
  {
    var ms := Messages(s);
    match e
    case SendEnd(t) => if s.op[t].urgent then [s.op[t].msg] + ms else ms + [s.op[t].msg]
    case Recv(_, _, _, _) => if ms != [] then ms[1..] else ms
    case RecvRetry(_, _) => if ms != [] then ms[1..] else ms
    case Reset => []
    case _ => ms
  }

  lemma EventLinearizes(c: Config, s: State, e: Event)
    requires Inv(c, s) && Enabled(s, e)
    ensures Messages(Apply(c, s, e)) == Effect(s, e)
    ensures (e.Recv? || e.RecvRetry?) && s.queue != [] ==>
              var o := Apply(c, s, e).op; e.t in o && o[e.t].Receiving? && o[e.t].front == Messages(s)[0]
  {
    match e
    case SendBegin(t, msg, urgent) =>
    case SendCopy(t) => CopyUnseen(c, s, t);
    case SendEnd(t) => LinkSeen(c, s, t);
    case Recv(t, wait, timed, size) => ClaimSeen(c, s, t, e);
    case RecvRetry(t, timed) => ClaimSeen(c, s, t, e);
    case RecvCopy(t) =>
    case RecvEnd(t) =>
    case Timeout(t) =>
    case Return(t) =>
    case Reset =>
  }

  lemma CopyUnseen(c: Config, s: State, t: Tid)
    requires Inv(c, s) && Enabled(s, SendCopy(t))
    ensures Messages(Apply(c, s, SendCopy(t))) == Messages(s)
  {
    assert Held(s, s.op[t].node);
  }

  lemma LinkSeen(c: Config, s: State, t: Tid)
    requires Inv(c, s) && Enabled(s, SendEnd(t))
    ensures Messages(Apply(c, s, SendEnd(t))) == Effect(s, SendEnd(t))
  {
    hide Inv, Messages;
    CopiedHolds(c, s, t);
    LinkedMessages(s, Apply(c, s, SendEnd(t)), s.op[t].node);
  }

  lemma LinkedMessages(s: State, e: State, n: nat)
    requires n < |s.data| && e.data == s.data
    ensures e.queue == [n] + s.queue ==> Messages(e) == [s.data[n]] + Messages(s)
    ensures e.queue == s.queue + [n] ==> Messages(e) == Messages(s) + [s.data[n]]
  {}

  lemma CopiedHolds(c: Config, s: State, t: Tid)
    requires Inv(c, s) && Enabled(s, SendEnd(t))
    ensures s.op[t].node < |s.data| && s.data[s.op[t].node] == s.op[t].msg
  {}

  lemma ClaimSeen(c: Config, s: State, t: Tid, e: Event)
    requires Inv(c, s) && Enabled(s, e) && (e.Recv? || e.RecvRetry?) && e.t == t
    ensures Messages(Apply(c, s, e)) == Effect(s, e)
    ensures s.queue != [] ==>
              var o := Apply(c, s, e).op; t in o && o[t].Receiving? && o[t].front == Messages(s)[0]
  {}

  // What a receiver copies out are the first bytes of the message that was in front when it
  // claimed its node, whatever happened in between; it gets that message and no more exactly if
  // its buffer, or the bytes of a node, are as long as the message.
  lemma DeliversTheFront(c: Config, s: State, t: Tid)
    requires Inv(c, s) && Enabled(s, RecvEnd(t))
    ensures
      var o, got := s.op[t], s.op[t].copy.value;
      && |got| == (if o.size > c.msgSize then c.msgSize else o.size)
      && (forall i :: 0 <= i < |got| && i < |o.front| ==> got[i] == o.front[i])
      && (got == o.front <==> |o.front| == |got|)
  {
    hide Partition, Waiting;
    var o := s.op[t];
    assert s.data[o.node] <= s.slots[o.node];
    CopyPrefix(s.slots[o.node], s.data[o.node], o.size);
  }

  lemma CopyPrefix(slot: Msg, msg: Msg, size: nat)
    requires msg <= slot
    ensures forall i :: 0 <= i < |CopyOf(slot, size)| && i < |msg| ==> CopyOf(slot, size)[i] == msg[i]
    ensures CopyOf(slot, size) == msg <==> |msg| == |CopyOf(slot, size)|
  {}

  // ----- runs -----

  ghost predicate Runs(c: Config, s: State, es: seq<Event>, last: State)
    decreases |es|
  {
    if es == [] then last == s
    else Enabled(s, es[0]) && Runs(c, Apply(c, s, es[0]), es[1..], last)
  }

  lemma InitInv(c: Config, slots: seq<Msg>)
    requires PoolOk(c, slots)
    ensures Inv(c, Init(c, slots))
  {
    assert Holders(Init(c, slots)) == {};
  }

  lemma {:induction false} RunSafe(c: Config, s: State, es: seq<Event>, last: State)
    requires Inv(c, s) && Runs(c, s, es, last)
    ensures Inv(c, last)
    decreases |es|
  {
    if es != [] {
      EventSafe(c, s, es[0]);
      RunSafe(c, Apply(c, s, es[0]), es[1..], last);
    }
  }

  // In every interleaving from a fresh queue no node is lost or doubled, and no receiver
  // sleeps past a message unless a woken receiver is on its way to it.
  lemma NoNodeNoWakeupLost(c: Config, slots: seq<Msg>, es: seq<Event>, s: State)
    requires PoolOk(c, slots) && Runs(c, Init(c, slots), es, s)
    ensures |s.queue| + |s.free| + |Holders(s)| == c.maxMsgs
    ensures forall n :: 0 <= n < c.maxMsgs && Held(s, n) ==> n !in s.queue && n !in s.free
    ensures s.receivers != [] && Woken(s) == {} ==> s.queue == []
  {
    InitInv(c, slots);
    RunSafe(c, Init(c, slots), es, s);
  }

  // ----- leftovers -----

  function OneNode(): Config { Config(1, 4, Fifo, t => 0) }

  // The states in which the queue of one node rests, and in which thread 1 has it in hand
  function Idle(sent: Msg, slot: Msg): State { State([], [0], [sent], [slot], [], map[]) }
  function Full(sent: Msg, slot: Msg): State { State([0], [], [sent], [slot], [], map[]) }
  function InHand(sent: Msg, slot: Msg, o: Op): State { State([], [], [sent], [slot], [], map[1 := o]) }

  lemma SendOnce(sent: Msg, slot: Msg, msg: Msg)
    requires |slot| == 4 && |msg| <= 4
    ensures Runs(OneNode(), Idle(sent, slot), [SendBegin(1, msg, false), SendCopy(1), SendEnd(1)],
                Full(msg, Overlaid(slot, msg)))
  {
    var c, a, b, d := OneNode(), SendBegin(1, msg, false), SendCopy(1), SendEnd(1);
    var s1 := InHand(sent, slot, Sending(0, msg, false, false));
    var s2 := InHand(msg, Overlaid(slot, msg), Sending(0, msg, false, true));
    assert Apply(c, Idle(sent, slot), a) == s1;
    assert Apply(c, s1, b) == s2;
    assert Apply(c, s2, d) == Full(msg, Overlaid(slot, msg));
    ThreeSteps(c, Idle(sent, slot), a, b, d);
  }

  lemma RecvOnce(sent: Msg, slot: Msg)
    requires |slot| == 4
    ensures Runs(OneNode(), Full(sent, slot), [Recv(1, false, false, 4), RecvCopy(1), RecvEnd(1)], Idle(sent, slot))
    ensures Runs(OneNode(), Full(sent, slot), [Recv(1, false, false, 4), RecvCopy(1)],
                InHand(sent, slot, Receiving(0, 4, sent, Some(slot))))
  {
    var c, a, b, d := OneNode(), Recv(1, false, false, 4), RecvCopy(1), RecvEnd(1);
    var s1 := InHand(sent, slot, Receiving(0, 4, sent, None));
    var s2 := InHand(sent, slot, Receiving(0, 4, sent, Some(slot)));
    assert Apply(c, Full(sent, slot), a) == s1;
    assert slot[..4] == slot;
    assert Apply(c, s1, b) == s2;
    assert Apply(c, s2, d) == Idle(sent, slot);
    ThreeSteps(c, Full(sent, slot), a, b, d);
    assert [a, b][1..] == [b] && [b][1..] == [];
  }

  lemma ThreeSteps(c: Config, s: State, a: Event, b: Event, d: Event)
    requires Enabled(s, a) && Enabled(Apply(c, s, a), b) && Enabled(Apply(c, Apply(c, s, a), b), d)
    ensures Runs(c, s, [a, b, d], Apply(c, Apply(c, Apply(c, s, a), b), d))
  {
    hide Apply, Enabled;
    var s1 := Apply(c, s, a);
    var s2 := Apply(c, s1, b);
    assert Runs(c, Apply(c, s2, d), [], Apply(c, s2, d));
    assert [d][1..] == [] && Runs(c, s2, [d], Apply(c, s2, d));
    assert [b, d][1..] == [d] && Runs(c, s1, [b, d], Apply(c, s2, d));
    assert [a, b, d][1..] == [b, d];
  }

  lemma {:induction false} RunsOn(c: Config, s: State, es: seq<Event>, mid: State, fs: seq<Event>, last: State)
    requires Runs(c, s, es, mid) && Runs(c, mid, fs, last)
    ensures Runs(c, s, es + fs, last)
    decreases |es|
  {
    if es == [] {
      assert es + fs == fs;
    } else {
      assert (es + fs)[1..] == es[1..] + fs;
      RunsOn(c, Apply(c, s, es[0]), es[1..], mid, fs, last);
    }
  }

  // A receiver that asks for more than was sent gets what is left of an earlier message: after
  // [1, 2, 3, 4] has been sent and received, [5] is received as [5, 2, 3, 4].
  lemma LeftoverReceived(slot: Msg) returns (es: seq<Event>, s: State)
    requires |slot| == 4
    ensures PoolOk(OneNode(), [slot]) && Runs(OneNode(), Init(OneNode(), [slot]), es, s)
    ensures 1 in s.op && s.op[1].Receiving? && s.op[1].front == [5] && s.op[1].copy == Some([5, 2, 3, 4])
  {
    hide Runs;
    var c, long, short: Msg, short4 := OneNode(), [1, 2, 3, 4], [5], [5, 2, 3, 4];
    assert Init(c, [slot]) == Idle([], slot);
    assert Overlaid(slot, long) == long && Overlaid(long, short) == short4;
    SendOnce([], slot, long);
    RecvOnce(long, long);
    SendOnce(long, long, short);
    RecvOnce(short, short4);
    var send1 := [SendBegin(1, long, false), SendCopy(1), SendEnd(1)];
    var send2 := [SendBegin(1, short, false), SendCopy(1), SendEnd(1)];
    var recv1, recv2 := [Recv(1, false, false, 4), RecvCopy(1), RecvEnd(1)], [Recv(1, false, false, 4), RecvCopy(1)];
    s := InHand(short, short4, Receiving(0, 4, short, Some(short4)));
    RunsOn(c, Idle([], slot), send1, Full(long, long), recv1, Idle(long, long));
    RunsOn(c, Idle([], slot), send1 + recv1, Idle(long, long), send2, Full(short, short4));
    RunsOn(c, Idle([], slot), send1 + recv1 + send2, Full(short, short4), recv2, s);
    es := send1 + recv1 + send2 + recv2;
  }
}

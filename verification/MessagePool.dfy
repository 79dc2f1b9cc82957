// The message queue object: a pool of nodes linked by next pointers into a queue with head
// and tail and into a free list.
module MessagePool {
  import opened Options
  import opened IpcList
  import opened Lists
  import opened MessageQueue

  const NULL: int := -1

  datatype Outcome = Claimed | TooLong | EFull | Suspended | ETimeout | Delivered(msg: Msg)

  function At(q: seq<nat>, i: nat): int { if i < |q| then q[i] else NULL }

  // In the links nx, 'first' points to the NULL-terminated list of the nodes q.
  ghost predicate Chain(nx: seq<int>, first: int, q: seq<nat>) {
    first == At(q, 0) && forall i: nat :: i < |q| ==> q[i] < |nx| && nx[q[i]] == At(q, i + 1)
  }

  lemma ChainPop(nx: seq<int>, first: int, q: seq<nat>)
    requires Chain(nx, first, q) && q != []
    ensures q[0] < |nx| && Chain(nx, nx[q[0]], q[1..])
  {
    assert nx[q[0]] == At(q, 1) == At(q[1..], 0);
    forall i: nat | i < |q[1..]| ensures q[1..][i] < |nx| && nx[q[1..][i]] == At(q[1..], i + 1) {
      assert q[1..][i] == q[i + 1];
    }
  }

  lemma ChainKeep(nx: seq<int>, first: int, q: seq<nat>, node: nat, v: int)
    requires Chain(nx, first, q) && node < |nx| && node !in q
    ensures Chain(nx[node := v], first, q)
  {
  }

  lemma ChainPush(nx: seq<int>, first: int, q: seq<nat>, node: nat)
    requires Chain(nx, first, q) && node < |nx| && node !in q
    ensures Chain(nx[node := first], node, [node] + q)
  {
    var nx2, q2 := nx[node := first], [node] + q;
    forall i: nat | i < |q2| ensures q2[i] < |nx2| && nx2[q2[i]] == At(q2, i + 1) {
      if i > 0 { assert q2[i] == q[i - 1] && q[i - 1] in q && At(q, i) == At(q2, i + 1); }
    }
  }

  lemma ChainAppend(nx: seq<int>, first: int, q: seq<nat>, node: nat)
    requires Chain(nx, first, q) && Distinct(q) && node < |nx| && node !in q && nx[node] == NULL
    ensures q == [] ==> Chain(nx, node, [node])
    ensures q != [] ==> Chain(nx[q[|q| - 1] := node], first, q + [node])
  {
    if q != [] {
      var last := q[|q| - 1];
      var nx2, q2 := nx[last := node], q + [node];
      assert last in q;
      forall i: nat | i < |q2| ensures q2[i] < |nx2| && nx2[q2[i]] == At(q2, i + 1) {
        if i < |q| - 1 { assert q[i] != q[|q| - 1] && At(q, i + 1) == At(q2, i + 1); }
      }
    }
  }

  // A copied message that goes to the tail already ends its list.
  ghost predicate EndsOk(nx: seq<int>, op: map<Tid, Op>) {
    forall t :: t in op && op[t].Sending? && op[t].copied && !op[t].urgent ==>
      op[t].node < |nx| && nx[op[t].node] == NULL
  }

  lemma EmptyLists(nx: seq<int>)
    ensures Chain(nx, NULL, []) && EndsOk(nx, map[])
  {}

  lemma InitIs(c: Config, data: seq<Msg>, slots: seq<Msg>, list: seq<nat>)
    requires |data| == c.maxMsgs && forall i :: 0 <= i < |data| ==> data[i] == []
    requires list == seq(c.maxMsgs, i requires 0 <= i < c.maxMsgs => c.maxMsgs - 1 - i)
    ensures Init(c, slots) == State([], list, data, slots, [], map[])
  {}

  function FailThose(op: map<Tid, Op>, list: seq<Tid>): map<Tid, Op> {
    map t | t in op :: if t in list then Failed else op[t]
  }

  lemma FailHead(op: map<Tid, Op>, list: seq<Tid>)
    requires list != [] && list[0] in op
    ensures FailThose(op[list[0] := Failed], list[1..]) == FailThose(op, list)
  {
    assert forall t :: t in list <==> t == list[0] || t in list[1..];
  }

  // A node that only t holds is linked when t is done.
  lemma EndsElsewhere(nx: seq<int>, op: map<Tid, Op>, t: Tid, v: int)
    requires EndsOk(nx, op) && t in op && Holds(op[t]) && op[t].node < |nx|
    requires forall u :: u in op && u != t && Holds(op[u]) ==> op[u].node != op[t].node
    ensures EndsOk(nx[op[t].node := v], op - {t})
  {}

  lemma EndsKept(nx: seq<int>, op: map<Tid, Op>, after: map<Tid, Op>)
    requires EndsOk(nx, op) && forall t :: t in after && Holds(after[t]) ==> t in op && after[t] == op[t]
    ensures EndsOk(nx, after)
  {}

  class Pool {
    const c: Config
    var next: array<int>
    // The bytes of each node
    var payload: array<Msg>
    // What was last copied into each node, kept for the proof
    var sent: seq<Msg>
    var head: int
    var tail: int
    var free: int
    var entry: nat
    var receivers: seq<Tid>
    var op: map<Tid, Op>
    ghost var queue: seq<nat>
    ghost var freeList: seq<nat>

    ghost predicate LinksOk() reads this, next, payload {
      && next.Length == payload.Length == c.maxMsgs && next as object != payload as object
      && Chain(next[..], head, queue) && Chain(next[..], free, freeList)
      && tail == (if queue == [] then NULL else queue[|queue| - 1])
      && entry == |queue| && EndsOk(next[..], op)
    }

    ghost function Abs(): State reads this, payload {
      State(queue, freeList, sent, payload[..], receivers, op)
    }

    ghost predicate Valid() reads this, next, payload { LinksOk() && Inv(c, Abs()) }

    // The loop of rt_mq_init that builds the free list
    static method LinkAll(n: nat) returns (links: array<int>, first: int, ghost list: seq<nat>)
      ensures fresh(links) && links.Length == n && Chain(links[..], first, list)
      ensures list == seq(n, i requires 0 <= i < n => n - 1 - i)
    {
      links := new int[n];
      first := NULL;
      list := [];
      for temp := 0 to n
        invariant list == seq(temp, i requires 0 <= i < temp => temp - 1 - i)
        invariant Chain(links[..], first, list)
      {
        ghost var old_links := links[..];
        ChainPush(old_links, first, list, temp);
        links[temp] := first;
        assert links[..] == old_links[temp := first];
        first := temp;
        list := [temp] + list;
      }
    }

    // rt_mq_init
    constructor (c: Config, memory: seq<Msg>)
      requires PoolOk(c, memory)
      ensures Valid() && this.c == c && Abs() == Init(c, memory) && fresh(next) && fresh(payload)
    {
      this.c := c;
      var links, first, list := LinkAll(c.maxMsgs);
      next, free := links, first;
      payload := new Msg[c.maxMsgs](i requires 0 <= i < |memory| => memory[i]);
      sent := seq(c.maxMsgs, _ => []);
      head, tail, entry := NULL, NULL, 0;
      receivers, op := [], map[];
      queue, freeList := [], list;
      new;
      hide Inv, Chain, EndsOk, Init;
      EmptyLists(next[..]);
      assert payload[..] == memory;
      InitInv(c, memory);
      InitIs(c, sent, memory, list);
    }

    // rt_mq_send and rt_mq_urgent up to the copy
    method BeginSend(t: Tid, msg: Msg, urgent: bool) returns (r: Outcome)
      requires Valid() && Enabled(Abs(), SendBegin(t, msg, urgent))
      modifies this
      ensures next == old(next) && payload == old(payload)
      ensures Abs() == Apply(c, old(Abs()), SendBegin(t, msg, urgent))
      ensures r == if |msg| > c.msgSize then TooLong else if old(freeList) == [] then EFull else Claimed
      ensures Valid()
    {
      hide Inv;
      EventSafe(c, Abs(), SendBegin(t, msg, urgent));
      if |msg| > c.msgSize { return TooLong; }
      if free == NULL { return EFull; }
      var node: nat := free;
      ChainPop(next[..], free, freeList);
      free := next[node];
      op := op[t := Sending(node, msg, urgent, false)];
      freeList := freeList[1..];
      r := Claimed;
    }

    lemma QueueFacts()
      requires Valid()
      ensures Distinct(queue) && forall n :: n in queue ==> n !in freeList
      ensures forall t :: t in receivers ==> t in op && op[t].RecvBlocked?
    {}

    lemma CopiedEnds(t: Tid)
      requires Valid() && Enabled(Abs(), SendEnd(t))
      ensures t in op && op[t].Sending? && (!op[t].urgent ==> op[t].node < next.Length && next[op[t].node] == NULL)
    {}

    // Of the bytes got, those a message has are the message's.
    ghost predicate Begins(got: Msg, msg: Msg) {
      (forall i :: 0 <= i < |got| && i < |msg| ==> got[i] == msg[i]) && (got == msg <==> |got| == |msg|)
    }

    lemma CopyIsFront(t: Tid)
      requires Valid() && Enabled(Abs(), RecvEnd(t))
      ensures t in op && op[t].Receiving? && op[t].copy.Some? && Begins(op[t].copy.value, op[t].front)
      ensures |op[t].copy.value| == if op[t].size > c.msgSize then c.msgSize else op[t].size
    {
      DeliversTheFront(c, Abs(), t);
    }

    // A node in the hands of t is in neither list and in nobody else's hands.
    lemma Exclusive(t: Tid)
      requires Valid() && t in op && Holds(op[t])
      ensures op[t].node < next.Length && op[t].node !in queue && op[t].node !in freeList
      ensures forall u :: u in op && u != t && Holds(op[u]) ==> op[u].node != op[t].node
    {
      assert Held(Abs(), op[t].node);
    }

    // The unlocked copy of rt_mq_send and rt_mq_urgent; rt_mq_send also ends the node's list here
    method CopyIn(t: Tid)
      requires Valid() && Enabled(Abs(), SendCopy(t))
      modifies this`op, this`sent, next, payload
      ensures Abs() == Apply(c, old(Abs()), SendCopy(t))
      ensures Valid()
    {
      EventSafe(c, Abs(), SendCopy(t));
      if !op[t].urgent { EndNode(t); }
      StorePayload(t);
    }

    method StorePayload(t: Tid)
      requires LinksOk() && t in op && op[t].Sending? && op[t].node < next.Length
      requires op[t].urgent || next[op[t].node] == NULL
      requires |sent| == next.Length
      modifies this`op, this`sent, payload
      ensures LinksOk() && op == old(op)[t := old(op)[t].(copied := true)]
      ensures
        var o := old(op)[t];
        payload[..] == old(payload[..])[o.node := Overlaid(old(payload[..])[o.node], o.msg)] &&
        sent == old(sent)[o.node := o.msg]
    {
      var o := op[t];
      payload[o.node] := Overlaid(payload[o.node], o.msg);
      sent := sent[o.node := o.msg];
      op := op[t := o.(copied := true)];
    }

    method EndNode(t: Tid)
      requires Valid() && t in op && Holds(op[t])
      modifies next
      ensures LinksOk() && next[op[t].node] == NULL
    {
      Exclusive(t);
      ChainKeep(next[..], head, queue, op[t].node, NULL);
      ChainKeep(next[..], free, freeList, op[t].node, NULL);
      ghost var links := next[..];
      next[op[t].node] := NULL;
      assert next[..] == links[op[t].node := NULL];
    }

    method WakeFirst()
      requires LinksOk()
      requires forall t :: t in receivers ==> t in op && op[t].RecvBlocked?
      modifies this`receivers, this`op
      ensures LinksOk() && Abs() == Wake(old(Abs()))
    {
      if receivers != [] {
        var t := receivers[0];
        assert t in receivers;
        op := op[t := RecvWoken(op[t].timed, op[t].size)];
        receivers := receivers[1..];
      }
    }

    method LinkFirst(t: Tid)
      requires Valid() && t in op && Holds(op[t])
      modifies this`head, this`tail, this`entry, this`queue, this`op, next
      ensures LinksOk() && queue == [old(op[t]).node] + old(queue) && op == old(op) - {t}
    {
      hide Inv, Chain, EndsOk;
      Exclusive(t);
      var node := op[t].node;
      EndsElsewhere(next[..], op, t, head);
      ChainPush(next[..], head, queue, node);
      ChainKeep(next[..], free, freeList, node, head);
      ghost var links := next[..];
      next[node] := head;
      assert next[..] == links[node := head];
      head := node;
      if tail == NULL { tail := node; }
      entry := entry + 1;
      queue := [node] + queue;
      op := op - {t};
    }

    // Hooks the node behind the tail, if there is one
    method HookTail(node: nat)
      requires Valid() && node < next.Length && node !in queue && next[node] == NULL
      modifies next
      ensures Chain(next[..], if queue == [] then node else head, queue + [node])
      ensures Chain(next[..], free, freeList) && EndsOk(next[..], op)
    {
      ChainAppend(next[..], head, queue, node);
      if tail != NULL {
        LastIsNobodys();
        ghost var links := next[..];
        ChainKeep(links, free, freeList, tail, node);
        next[tail] := node;
        assert next[..] == links[tail := node];
      }
    }

    lemma NoHead()
      requires LinksOk()
      ensures head == NULL <==> queue == []
    {}

    method LinkLast(t: Tid)
      requires Valid() && t in op && Holds(op[t]) && next[op[t].node] == NULL
      modifies this`head, this`tail, this`entry, this`queue, this`op, next
      ensures LinksOk() && queue == old(queue) + [old(op[t]).node] && op == old(op) - {t}
    {
      hide Inv, Chain;
      Exclusive(t);
      NoHead();
      var node := op[t].node;
      HookTail(node);
      tail := node;
      if head == NULL { head := node; }
      entry := entry + 1;
      queue := queue + [node];
      op := op - {t};
    }

    lemma LastIsNobodys()
      requires Valid() && queue != []
      ensures 0 <= tail < next.Length && tail !in freeList
      ensures forall u :: u in op && Holds(op[u]) ==> op[u].node != tail
    {
      assert tail in queue;
      forall u | u in op && Holds(op[u]) ensures op[u].node != tail { assert Held(Abs(), op[u].node); }
    }

    // The second locked region of rt_mq_send and rt_mq_urgent
    method EndSend(t: Tid)
      requires Valid() && Enabled(Abs(), SendEnd(t))
      modifies this, next
      ensures next == old(next) && payload == old(payload)
      ensures Abs() == Apply(c, old(Abs()), SendEnd(t))
      ensures Valid()
    {
      hide Inv, Chain, EndsOk;
      EventSafe(c, Abs(), SendEnd(t));
      QueueFacts();
      CopiedEnds(t);
      ghost var o := op[t];
      if op[t].urgent { LinkFirst(t); } else { LinkLast(t); }
      ghost var linked := if o.urgent then [o.node] + old(queue) else old(queue) + [o.node];
      assert Abs() == old(Abs()).(queue := linked, op := old(op) - {t});
      WakeFirst();
    }

    // Unlinking the front node in rt_mq_recv
    method ClaimFront(t: Tid, size: nat)
      requires LinksOk() && entry > 0 && Distinct(queue)
      modifies this
      ensures next == old(next) && payload == old(payload)
      ensures LinksOk() && Abs() == Claim(old(Abs()), t, size)
    {
      ChainPop(next[..], head, queue);
      var node: nat := head;
      head := next[node];
      if tail == node { tail := NULL; }
      entry := entry - 1;
      op := op[t := Receiving(node, size, if node < |sent| then sent[node] else [], None)];
      queue := queue[1..];
    }

    method Suspend(t: Tid, timed: bool, size: nat)
      requires LinksOk()
      modifies this`receivers, this`op
      ensures LinksOk() && Abs() == Block(c, old(Abs()), t, timed, size)
    {
      receivers := ListSuspend(receivers, t, c.flag, c.prio);
      op := op[t := RecvBlocked(timed, size)];
    }

    // rt_mq_recv up to its copy, return or suspension
    method BeginRecv(t: Tid, wait: bool, timed: bool, size: nat) returns (r: Outcome)
      requires Valid() && Enabled(Abs(), Recv(t, wait, timed, size))
      modifies this
      ensures next == old(next) && payload == old(payload)
      ensures Abs() == Apply(c, old(Abs()), Recv(t, wait, timed, size))
      ensures r == if old(queue) != [] then Claimed else if wait then Suspended else ETimeout
      ensures Valid()
    {
      hide Inv, Chain, EndsOk;
      EventSafe(c, Abs(), Recv(t, wait, timed, size));
      QueueFacts();
      if entry == 0 && !wait { return ETimeout; }
      if entry == 0 {
        Suspend(t, timed, size);
        return Suspended;
      }
      ClaimFront(t, size);
      r := Claimed;
    }

    method Continue(t: Tid)
      requires LinksOk()
      modifies this`op
      ensures LinksOk() && Abs() == old(Abs()).(op := old(op) - {t})
    {
      op := op - {t};
    }

    // rt_mq_recv of a woken receiver, from the test of its error number on
    method ResumeRecv(t: Tid, expired: bool) returns (r: Outcome)
      requires Valid() && Enabled(Abs(), RecvRetry(t, expired))
      modifies this
      ensures next == old(next) && payload == old(payload)
      ensures Abs() == Apply(c, old(Abs()), RecvRetry(t, expired))
      ensures r == if old(queue) != [] then Claimed else if expired then ETimeout else Suspended
      ensures Valid()
    {
      hide Inv, Chain, EndsOk;
      EventSafe(c, Abs(), RecvRetry(t, expired));
      QueueFacts();
      var timed, size := op[t].timed, op[t].size;
      Continue(t);
      if entry == 0 {
        if expired { return ETimeout; }
        Suspend(t, timed, size);
        return Suspended;
      }
      ClaimFront(t, size);
      r := Claimed;
    }

    // The unlocked copy of rt_mq_recv
    method CopyOut(t: Tid)
      requires Valid() && Enabled(Abs(), RecvCopy(t))
      modifies this`op
      ensures Abs() == Apply(c, old(Abs()), RecvCopy(t))
      ensures Valid()
    {
      hide Inv, Chain;
      EventSafe(c, Abs(), RecvCopy(t));
      op := op[t := op[t].(copy := Some(CopyOf(payload[op[t].node], op[t].size)))];
    }

    // The second locked region of rt_mq_recv. What it returns begins with the message that was in
    // front when its node was claimed.
    method EndRecv(t: Tid) returns (r: Outcome)
      requires Valid() && Enabled(Abs(), RecvEnd(t))
      modifies this, next
      ensures next == old(next) && payload == old(payload)
      ensures Abs() == Apply(c, old(Abs()), RecvEnd(t))
      ensures r.Delivered? && Some(r.msg) == old(op[t]).copy && Begins(r.msg, old(op[t]).front)
      ensures |r.msg| == if old(op[t]).size > c.msgSize then c.msgSize else old(op[t]).size
      ensures Valid()
    {
      hide Inv, Chain, EndsOk;
      EventSafe(c, Abs(), RecvEnd(t));
      CopyIsFront(t);
      r := Delivered(op[t].copy.value);
      FreeNode(t);
    }

    method FreeNode(t: Tid)
      requires Valid() && t in op && Holds(op[t])
      modifies this`free, this`freeList, this`op, next
      ensures LinksOk() && freeList == [old(op[t]).node] + old(freeList) && op == old(op) - {t}
    {
      hide Inv, Chain;
      Exclusive(t);
      var node := op[t].node;
      ChainKeep(next[..], head, queue, node, free);
      ChainPush(next[..], free, freeList, node);
      ghost var links := next[..];
      next[node] := free;
      assert next[..] == links[node := free];
      free := node;
      freeList := [node] + freeList;
      op := op - {t};
    }

    // rt_thread_timeout for a receiver suspended here
    method Expire(t: Tid)
      requires Valid() && Enabled(Abs(), Timeout(t))
      modifies this`receivers, this`op
      ensures Abs() == Apply(c, old(Abs()), Timeout(t))
      ensures Valid()
    {
      hide Inv, Chain;
      EventSafe(c, Abs(), Timeout(t));
      receivers := Without(receivers, t);
      op := op[t := Failed];
    }

    // rt_ipc_list_resume_all
    method ResumeAll()
      requires forall t :: t in receivers ==> t in op && op[t].RecvBlocked?
      modifies this`op
      ensures forall t :: t in op && Holds(op[t]) ==> t in old(op) && op[t] == old(op)[t]
      ensures op == FailThose(old(op), receivers)
    {
      var rest := receivers;
      while rest != []
        invariant FailThose(op, rest) == FailThose(old(op), receivers) && forall t :: t in rest ==> t in op
      {
        FailHead(op, rest);
        op := op[rest[0] := Failed];
        rest := rest[1..];
      }
      assert FailThose(op, []) == op;
    }

    // One round of the release loop
    method ReleaseFront()
      requires Chain(next[..], head, queue) && Chain(next[..], free, freeList) && queue != []
      requires Distinct(queue) && (forall n :: n in queue ==> n !in freeList) && tail == queue[|queue| - 1]
      modifies this`head, this`tail, this`free, this`queue, this`freeList, next
      ensures Chain(next[..], head, queue) && Chain(next[..], free, freeList)
      ensures queue == old(queue)[1..] && freeList == [old(queue)[0]] + old(freeList)
      ensures tail == if queue == [] then NULL else queue[|queue| - 1]
      ensures next[..] == old(next[..])[old(queue)[0] := next[old(queue)[0]]]
    {
      TailMembers(queue);
      ghost var links := next[..];
      ChainPop(links, head, queue);
      var msg: nat := head;
      assert msg in queue;
      ChainKeep(links, links[msg], queue[1..], msg, free);
      ChainPush(links, free, freeList, msg);
      head := next[msg];
      if tail == msg { tail := NULL; }
      next[msg] := free;
      assert next[..] == links[msg := free];
      free := msg;
      queue, freeList := queue[1..], [queue[0]] + freeList;
    }

    // Releasing every queued message, one by one
    method ReleaseQueued()
      requires LinksOk() && Distinct(queue) && (forall n :: n in queue ==> n !in freeList)
      requires forall t :: t in op && Holds(op[t]) ==> op[t].node !in queue
      modifies this`head, this`tail, this`free, this`entry, this`queue, this`freeList, next
      ensures LinksOk() && queue == [] && freeList == Reverse(old(queue)) + old(freeList)
    {
      while head != NULL
        invariant Chain(next[..], head, queue) && Chain(next[..], free, freeList)
        invariant tail == (if queue == [] then NULL else queue[|queue| - 1])
        invariant Distinct(queue) && forall n :: n in queue ==> n !in freeList
        invariant Reverse(queue) + freeList == Reverse(old(queue)) + old(freeList)
        invariant forall t :: t in op && Holds(op[t]) ==> op[t].node !in queue
        invariant EndsOk(next[..], op)
        decreases |queue|
      {
        TailMembers(queue);
        ReverseStep(queue, freeList);
        assert queue[0] in queue;
        ReleaseFront();
      }
      entry := 0;
    }

    lemma ReverseStep(q: seq<nat>, f: seq<nat>)
      requires q != []
      ensures Reverse(q) + f == Reverse(q[1..]) + ([q[0]] + f)
    {
    }

    lemma NobodyHoldsQueued()
      requires Valid()
      ensures forall t :: t in op && Holds(op[t]) ==> op[t].node !in queue
      ensures forall t :: t in receivers ==> t in op && op[t].RecvBlocked?
    {
      forall t | t in op && Holds(op[t]) ensures op[t].node !in queue { assert Held(Abs(), op[t].node); }
    }

    method ReleaseAll()
      requires LinksOk() && Distinct(queue) && (forall n :: n in queue ==> n !in freeList)
      requires forall t :: t in op && Holds(op[t]) ==> op[t].node !in queue
      requires forall t :: t in receivers ==> t in op && op[t].RecvBlocked?
      modifies this, next
      ensures next == old(next) && payload == old(payload)
      ensures LinksOk() && unchanged(payload) && sent == old(sent)
      ensures queue == [] && receivers == [] && freeList == Reverse(old(queue)) + old(freeList)
      ensures op == map t | t in old(op) :: if t in old(receivers) then Failed else old(op)[t]
    {
      hide Chain, EndsOk, Reverse;
      ghost var before := op;
      ResumeAll();
      EndsKept(next[..], before, op);
      ReleaseQueued();
      receivers := [];
    }

    // rt_mq_control with RT_IPC_CMD_RESET
    method ResetQueue()
      requires Valid()
      modifies this, next
      ensures next == old(next) && payload == old(payload)
      ensures Abs() == Apply(c, old(Abs()), Reset)
      ensures Valid()
    {
      hide Inv, Chain, EndsOk, Reverse;
      EventSafe(c, Abs(), Reset);
      QueueFacts();
      NobodyHoldsQueued();
      ReleaseAll();
    }
  }
}

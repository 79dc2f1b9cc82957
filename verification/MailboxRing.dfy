// The mailbox object: a ring buffer with in and out offsets that realises the mail queue.
module MailboxRing {
  import opened Options
  import opened IpcList
  import opened Lists
  import opened Mailbox

  datatype Outcome = Done | Delivered(mail: Mail) | Full | TimedOut | Suspended

  lemma WrapOnce(x: nat, n: nat)
    requires 0 < n && x < 2 * n
    ensures x % n == if x < n then x else x - n
  {
    DivMod(x, n, x / n, x % n);
  }

  lemma DivMod(x: nat, n: nat, q: nat, r: nat)
    requires 0 < n && x < 2 * n && x == n * q + r && r < n
    ensures r == if x < n then x else x - n
  {
    if q == 0 {
      assert n * q == 0;
    } else {
      assert n * q == n * (q - 1) + n;
      assert q > 1 ==> n * (q - 1) >= n;
    }
  }

  class Box {
    const c: Config
    var pool: array<Mail>
    var entry: nat
    var inOffset: nat
    var outOffset: nat
    var receivers: seq<Tid>
    var senders: seq<Tid>
    var op: map<Tid, Op>
    ghost var accepted: seq<Mail>
    ghost var gone: seq<Exit>

    // The pool index i places behind 'from'
    function Slot(from: nat, i: nat): nat
    {
      if from + i < c.size then from + i else from + i - c.size
    }

    ghost predicate RingOk() reads this {
      && pool.Length == c.size && entry <= c.size
      && (c.size > 0 ==> outOffset < c.size && inOffset == Slot(outOffset, entry))
      && OffsetsMeet()
    }

    // New mails go in where the stored ones end.
    ghost predicate OffsetsMeet() reads this`inOffset, this`outOffset, this`entry {
      c.size > 0 ==> inOffset == (outOffset + entry) % c.size
    }

    ghost function Queue(): (q: seq<Mail>)
      requires RingOk()
      reads this, pool
      ensures |q| == entry
    {
      seq(entry, i requires 0 <= i < entry && RingOk() reads this, pool => pool[Slot(outOffset, i)])
    }

    ghost function Abs(): State
      requires RingOk()
      reads this, pool
    {
      State(Queue(), receivers, senders, op, accepted, gone)
    }

    ghost predicate Valid() reads this, pool { RingOk() && Inv(c, Abs()) }

    constructor (c: Config)
      ensures Valid() && this.c == c && Abs() == Init() && fresh(pool)
    {
      this.c := c;
      pool := new Mail[c.size];
      entry, inOffset, outOffset := 0, 0, 0;
      receivers, senders, op := [], [], map[];
      accepted, gone := [], [];
      new;
      SlotMeets();
    }

    lemma SlotMeets()
      requires entry <= c.size && (c.size > 0 ==> outOffset < c.size && inOffset == Slot(outOffset, entry))
      ensures OffsetsMeet()
    {
      if c.size > 0 { WrapOnce(outOffset + entry, c.size); }
    }

    method PutMail(mail: Mail)
      requires RingOk() && entry < c.size
      modifies this`entry, this`inOffset, this`accepted, pool
      ensures RingOk() && Queue() == old(Queue()) + [mail] && accepted == old(accepted) + [mail]
    {
      accepted := accepted + [mail];
      pool[inOffset] := mail;
      inOffset := inOffset + 1;
      if inOffset >= c.size { inOffset := 0; }
      entry := entry + 1;
      SlotMeets();
    }

    method TakeMail() returns (mail: Mail)
      requires RingOk() && entry > 0
      modifies this`entry, this`outOffset, this`gone
      ensures RingOk() && [mail] + Queue() == old(Queue()) && gone == old(gone) + [Handed(mail)]
    {
      mail := pool[outOffset];
      outOffset := outOffset + 1;
      if outOffset >= c.size { outOffset := 0; }
      entry := entry - 1;
      gone := gone + [Handed(mail)];
      SlotMeets();
      assert Queue() == old(Queue())[1..];
    }

    // The region of rt_mb_send_wait that ends with the mail in the pool
    method DepositAndWake(mail: Mail)
      requires RingOk() && ListsAgree(Abs()) && entry < c.size
      modifies this`entry, this`inOffset, this`receivers, this`op, this`accepted, pool
      ensures RingOk() && Abs() == Put(old(Abs()), mail)
    {
      PutMail(mail);
      if receivers != [] {
        var t := receivers[0];
        assert t in Abs().receivers;
        op := op[t := RecvWoken(op[t].timed)];
        receivers := receivers[1..];
      }
    }

    // The region of rt_mb_recv that ends with the mail taken out
    method WithdrawAndWake() returns (mail: Mail)
      requires RingOk() && ListsAgree(Abs()) && entry > 0
      modifies this`entry, this`outOffset, this`senders, this`op, this`gone
      ensures RingOk() && Abs() == Take(old(Abs())) && mail == old(Queue())[0]
    {
      mail := TakeMail();
      assert Queue() == old(Queue())[1..];
      if senders != [] {
        var t := senders[0];
        assert t in Abs().senders;
        op := op[t := SendWoken(op[t].mail, op[t].timed)];
        senders := senders[1..];
      }
    }

    method SuspendSender(t: Tid, mail: Mail, timed: bool)
      requires RingOk()
      modifies this`senders, this`op
      ensures RingOk() && Abs() == BlockSender(c, old(Abs()), t, mail, timed)
    {
      senders := ListSuspend(senders, t, c.flag, c.prio);
      op := op[t := SendBlocked(mail, timed)];
    }

    method SuspendReceiver(t: Tid, timed: bool)
      requires RingOk()
      modifies this`receivers, this`op
      ensures RingOk() && Abs() == BlockReceiver(c, old(Abs()), t, timed)
    {
      receivers := ListSuspend(receivers, t, c.flag, c.prio);
      op := op[t := RecvBlocked(timed)];
    }

    // The thread is back in the call: it is no longer woken or failed.
    method Continue(t: Tid)
      requires RingOk()
      modifies this`op
      ensures RingOk() && Abs() == old(Abs()).(op := old(op) - {t})
    {
      op := op - {t};
    }

    // rt_mb_send_wait up to its first return or suspension
    method SendWait(who: Option<Tid>, mail: Mail, wait: bool, timed: bool) returns (r: Outcome)
      requires Valid() && Enabled(Abs(), Send(who, mail, wait, timed))
      modifies this, pool
      ensures RingOk() && pool == old(pool) && Abs() == Apply(c, old(Abs()), Send(who, mail, wait, timed))
      ensures r == if old(entry) < c.size then Done else if wait then Suspended else Full
      ensures Valid()
    {
      hide Inv, OffsetsMeet, Queue;
      EventSafe(c, Abs(), Send(who, mail, wait, timed));
      ListsHold();
      if entry == c.size && !wait { return Full; }
      if entry == c.size {
        SuspendSender(who.value, mail, timed);
        return Suspended;
      }
      DepositAndWake(mail);
      r := Done;
    }

    lemma ListsHold()
      requires Valid()
      ensures ListsAgree(Abs())
    {}

    lemma IdleAgrees(s: State, t: Tid)
      requires ListsAgree(s) && t !in s.receivers && t !in s.senders
      ensures ListsAgree(s.(op := s.op - {t}))
    {
    }

    // rt_mb_send_wait of a woken sender, from the test of its error number on
    method ResumeSend(t: Tid, expired: bool) returns (r: Outcome)
      requires Valid() && Enabled(Abs(), SendRetry(t, expired))
      modifies this, pool
      ensures RingOk() && pool == old(pool) && Abs() == Apply(c, old(Abs()), SendRetry(t, expired))
      ensures r == if old(entry) < c.size then Done else if expired then Full else Suspended
      ensures Valid()
    {
      hide Inv, OffsetsMeet, Queue;
      EventSafe(c, Abs(), SendRetry(t, expired));
      ListsHold();
      var mail, timed := op[t].mail, op[t].timed;
      IdleAgrees(Abs(), t);
      Continue(t);
      if entry == c.size {
        if expired { return Full; }
        SuspendSender(t, mail, timed);
        return Suspended;
      }
      DepositAndWake(mail);
      r := Done;
    }

    // rt_mb_recv up to its first return or suspension
    method Receive(who: Option<Tid>, wait: bool, timed: bool) returns (r: Outcome)
      requires Valid() && Enabled(Abs(), Recv(who, wait, timed))
      modifies this
      ensures RingOk() && pool == old(pool) && Abs() == Apply(c, old(Abs()), Recv(who, wait, timed))
      ensures r == if old(entry) > 0 then Delivered(old(Queue())[0]) else if wait then Suspended else TimedOut
      ensures Valid()
    {
      hide Inv, OffsetsMeet, Queue;
      EventSafe(c, Abs(), Recv(who, wait, timed));
      ListsHold();
      if entry == 0 && !wait { return TimedOut; }
      if entry == 0 {
        SuspendReceiver(who.value, timed);
        return Suspended;
      }
      var mail := WithdrawAndWake();
      r := Delivered(mail);
    }

    // rt_mb_recv of a woken receiver, from the test of its error number on
    method ResumeRecv(t: Tid, expired: bool) returns (r: Outcome)
      requires Valid() && Enabled(Abs(), RecvRetry(t, expired))
      modifies this
      ensures RingOk() && pool == old(pool) && Abs() == Apply(c, old(Abs()), RecvRetry(t, expired))
      ensures r == if old(entry) > 0 then Delivered(old(Queue())[0]) else if expired then TimedOut else Suspended
      ensures Valid()
    {
      hide Inv, OffsetsMeet, Queue;
      EventSafe(c, Abs(), RecvRetry(t, expired));
      ListsHold();
      var timed := op[t].timed;
      IdleAgrees(Abs(), t);
      Continue(t);
      if entry == 0 {
        if expired { return TimedOut; }
        SuspendReceiver(t, timed);
        return Suspended;
      }
      var mail := WithdrawAndWake();
      r := Delivered(mail);
    }

    // rt_thread_timeout for a thread suspended here
    method Expire(t: Tid)
      requires Valid() && Enabled(Abs(), Timeout(t))
      modifies this
      ensures RingOk() && pool == old(pool) && Abs() == Apply(c, old(Abs()), Timeout(t))
      ensures Valid()
    {
      EventSafe(c, Abs(), Timeout(t));
      receivers, senders := Without(receivers, t), Without(senders, t);
      op := op[t := Failed];
      assert Queue() == old(Queue());
    }

    // rt_ipc_list_resume_all: every thread of the list leaves with an error
    method ResumeAll(list: seq<Tid>)
      modifies this`op
      requires forall t :: t in list ==> t in op
      ensures op == map t | t in old(op) :: if t in list then Failed else old(op)[t]
    {
      var rest := list;
      while rest != []
        invariant |rest| <= |list| && rest == list[|list| - |rest|..]
        invariant op == map t | t in old(op) :: if t in list[..|list| - |rest|] then Failed else old(op)[t]
      {
        op := op[rest[0] := Failed];
        rest := rest[1..];
      }
      assert list[..|list|] == list;
    }

    method Clear()
      requires RingOk()
      modifies this`entry, this`inOffset, this`outOffset, this`receivers, this`senders, this`gone
      ensures RingOk() && receivers == [] && senders == [] && Queue() == [] && gone == old(gone + AllDropped(Queue()))
    {
      receivers, senders := [], [];
      gone := gone + AllDropped(Queue());
      entry, inOffset, outOffset := 0, 0, 0;
      SlotMeets();
    }

    // rt_mb_control with RT_IPC_CMD_RESET
    method ResetBox()
      requires Valid()
      modifies this
      ensures RingOk() && pool == old(pool) && Abs() == Apply(c, old(Abs()), Reset)
      ensures Valid()
    {
      EventSafe(c, Abs(), Reset);
      ghost var s := Abs();
      assert forall t :: t in s.receivers || t in s.senders ==> t in s.op;
      ResumeAll(receivers);
      ResumeAll(senders);
      Clear();
      assert Abs().op == Apply(c, s, Reset).op;
    }
  }
}

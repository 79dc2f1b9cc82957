// The scheduler's data: priority queues with a one- or two-level bitmap of the non-empty ones.
module ReadyTable {
  import opened Options
  import opened IpcList
  import opened Lists
  import opened FirstBit
  import opened Words
  import opened Scheduler

  // thread->number, thread->number_mask and thread->high_mask
  datatype Mask = Mask(number: nat, numberMask: nat, highMask: nat)

  class Cpu {
    // RT_THREAD_PRIORITY_MAX, at most 256; above 32 the two-level bitmap is compiled in
    const prioMax: nat
    var threads: map<Tid, Thread>
    var table: seq<seq<Tid>>
    var current: Option<Tid>
    var lockNest: nat
    var mask: map<Tid, Mask>
    // rt_thread_ready_priority_group and rt_thread_ready_table: one 32-bit word and 32 bytes
    var group: nat
    var readyTable: seq<nat>

    // The priority behind position b of the second-level word n
    function Index(n: nat, b: nat): nat { 8 * n + b }

    predicate Wide() { prioMax > 32 }

    // The priority attributes as recalculated from a priority
    function MaskOf(prio: nat): Mask {
      if Wide() then Mask(prio / 8, Shifted(prio / 8), Shifted(prio % 8)) else Mask(0, Shifted(prio), 0)
    }

    function Abs(): State reads this { State(threads, table, current, lockNest) }

    ghost predicate WordsFit() reads this`table, this`group, this`readyTable {
      && |table| == prioMax && 1 <= prioMax <= 256 && |readyTable| == 32
      && group < Shifted(32) && forall n :: 0 <= n < 32 ==> readyTable[n] < Shifted(8)
    }

    // Both bitmap levels say exactly which queues are non-empty.
    ghost predicate BitsOk() reads this`table, this`group, this`readyTable {
      && WordsFit()
      && if Wide() then
           && (forall n: nat, b: nat :: n < 32 ==> (Bit(readyTable[n], b) <==> b < 8 && NonEmpty(Index(n, b))))
           && (forall n: nat :: Bit(group, n) <==> n < 32 && readyTable[n] != 0)
         else forall p: nat :: Bit(group, p) <==> NonEmpty(p)
    }

    ghost predicate NonEmpty(p: nat) reads this`table { p < |table| && table[p] != [] }

    // Started threads carry the attributes of their current priority.
    ghost predicate MasksOk() reads this`threads, this`mask {
      forall t :: t in threads && threads[t].stat != Init ==>
        threads[t].prio < prioMax && t in mask && mask[t] == MaskOf(threads[t].prio)
    }

    ghost predicate RepOk() reads this { BitsOk() && MasksOk() }

    ghost predicate Valid() reads this { RepOk() && Inv(Abs()) }

    // rt_system_scheduler_init, with threads that have not been started
    constructor (prioMax: nat, threads: map<Tid, Thread>)
      requires 1 <= prioMax <= 256
      requires forall t :: t in threads ==> threads[t].stat == Init
      requires forall t :: t in threads ==> threads[t].prio < prioMax && threads[t].initPrio < prioMax
      ensures Valid() && this.prioMax == prioMax && this.threads == threads && current == None
    {
      this.prioMax := prioMax;
      this.threads := threads;
      table := seq(prioMax, _ => []);
      current, lockNest := None, 0;
      mask, group, readyTable := map[], 0, seq(32, _ => 0);
      new;
      WordSizes();
      forall i: nat { NoBits(i); }
    }

    // What a change of one queue does to the bitmaps
    ghost predicate BitsOkBut(p: nat) reads this`table, this`group, this`readyTable {
      && WordsFit() && p < prioMax
      && if Wide() then
           && (forall n: nat, b: nat :: n < 32 && Index(n, b) != p && b < 8 ==>
                  (Bit(readyTable[n], b) <==> NonEmpty(Index(n, b))))
           && (forall n: nat :: Bit(group, n) <==> n < 32 && readyTable[n] != 0)
           && (forall n: nat, b: nat :: n < 32 && Bit(readyTable[n], b) ==> b < 8)
         else forall q: nat :: q != p ==> (Bit(group, q) <==> NonEmpty(q))
    }

    lemma Split(p: nat)
      ensures p == Index(p / 8, p % 8) && p % 8 < 8
      ensures forall n: nat, b: nat :: b < 8 && Index(n, b) == p ==> n == p / 8 && b == p % 8
    {
    }

    method SetBits(m: Mask, p: nat)
      requires BitsOkBut(p) && m == MaskOf(p) && table[p] != []
      modifies this`group, this`readyTable
      ensures BitsOk()
    {
      Split(p);
      if Wide() {
        SetBit(readyTable[m.number], p % 8, 8);
        SetBit(group, p / 8, 32);
        readyTable := readyTable[m.number := Or(readyTable[m.number], m.highMask)];
        assert Bit(readyTable[m.number], p % 8);
        NonZero(readyTable[m.number], p % 8);
      } else {
        SetBit(group, p, 32);
      }
      group := Or(group, m.numberMask);
    }

    method ClearBits(m: Mask, p: nat)
      requires BitsOkBut(p) && m == MaskOf(p) && table[p] == []
      modifies this`group, this`readyTable
      ensures BitsOk()
    {
      hide LowestBitBitmap, FirstBit.Byte, Ffs;
      Split(p);
      if Wide() {
        ghost var row := readyTable[m.number];
        ClearBit(row, p % 8);
        ClearBit(group, p / 8);
        readyTable := readyTable[m.number := AndNot(readyTable[m.number], m.highMask)];
        if readyTable[m.number] == 0 { group := AndNot(group, m.numberMask); }
        else {
          ByteBits(readyTable[m.number]);
          NonZero(row, Ffs(readyTable[m.number]) - 1);
        }
      } else {
        ClearBit(group, p);
        group := AndNot(group, m.numberMask);
      }
    }

    lemma NonZero(w: nat, b: nat)
      requires Bit(w, b)
      ensures w != 0
    {
      if w == 0 { NoBits(b); }
    }

    lemma ByteBits(w: nat)
      requires w < Shifted(32) || w < Shifted(8)
      ensures w < 0x1_0000_0000
      ensures w == 0 ==> forall i: nat :: !Bit(w, i)
      ensures w != 0 ==> Ffs(w) > 0 && Bit(w, Ffs(w) - 1) && forall i: nat :: Bit(w, i) ==> Ffs(w) - 1 <= i
    {
      WordSizes();
      FfsOfWord(w);
    }

    // rt_schedule_insert_thread
    method InsertThread(t: Tid)
      requires BitsOk() && Known(Abs(), t) && t in mask && mask[t] == MaskOf(threads[t].prio)
      modifies this`threads, this`table, this`group, this`readyTable
      ensures BitsOk() && Abs() == Insert(old(Abs()), t) && (old(MasksOk()) ==> MasksOk())
    {
      if current == Some(t) {
        threads := threads[t := threads[t].(stat := Running)];
        return;
      }
      var p := threads[t].prio;
      table := table[p := table[p] + [t]];
      threads := threads[t := threads[t].(stat := Ready)];
      SetBits(mask[t], p);
    }

    // rt_schedule_remove_thread
    method RemoveThread(t: Tid)
      requires BitsOk() && Known(Abs(), t) && t in mask && mask[t] == MaskOf(threads[t].prio)
      modifies this`table, this`group, this`readyTable
      ensures BitsOk() && Abs() == Remove(old(Abs()), t)
    {
      var p := threads[t].prio;
      table := table[p := Without(table[p], t)];
      if table[p] == [] { ClearBits(mask[t], p); }
      else { assert old(table)[p] != []; }
    }

    // _get_highest_priority_thread: __rt_ffs on one word, or on both levels
    method HighestPriority() returns (p: nat)
      requires BitsOk() && ReadyPrios(Abs()) != {}
      ensures p == Least(ReadyPrios(Abs())) && table[p] != []
    {
      SomeBit(Least(ReadyPrios(Abs())));
      if Wide() {
        WideFirst();
        var number := Ffs(group) - 1;
        p := 8 * number + Ffs(readyTable[number]) - 1;
      } else {
        NarrowFirst();
        p := Ffs(group) - 1;
      }
    }

    lemma NarrowFirst()
      requires BitsOk() && !Wide() && group != 0
      ensures group < 0x1_0000_0000 && Ffs(group) > 0
      ensures ReadyPrios(Abs()) != {} && Least(ReadyPrios(Abs())) == Ffs(group) - 1
    {
      hide Ffs, Bit, Least;
      GroupFirst();
      var p: nat := Ffs(group) - 1;
      assert NonEmpty(p) && p in ReadyPrios(Abs());
      forall q | q in ReadyPrios(Abs()) ensures p <= q { SomeBit(q); }
      LeastIs(ReadyPrios(Abs()), p);
    }

    lemma WideFirst()
      requires BitsOk() && Wide() && group != 0
      ensures group < 0x1_0000_0000 && 0 < Ffs(group) <= 32
      ensures
        var number := Ffs(group) - 1;
        && readyTable[number] < 0x1_0000_0000 && Ffs(readyTable[number]) > 0
        && ReadyPrios(Abs()) != {} && Least(ReadyPrios(Abs())) == 8 * number + Ffs(readyTable[number]) - 1
    {
      hide Ffs, Bit, Least, BitsOk, ReadyPrios;
      GroupFirst();
      var n: nat := Ffs(group) - 1;
      RowFirst(n);
      var b: nat := Ffs(readyTable[n]) - 1;
      forall q | q in ReadyPrios(Abs()) ensures Index(n, b) <= q {
        SomeBit(q);
        InOrder(n, b, q / 8, q % 8);
      }
      LeastIs(ReadyPrios(Abs()), Index(n, b));
    }

    lemma GroupFirst()
      requires BitsOk() && group != 0
      ensures group < 0x1_0000_0000 && Ffs(group) > 0 && Bit(group, Ffs(group) - 1)
      ensures forall n: nat :: Bit(group, n) ==> Ffs(group) - 1 <= n
    {
      hide Ffs, Bit;
      ByteBits(group);
    }

    lemma RowFirst(n: nat)
      requires BitsOk() && Wide() && Bit(group, n)
      ensures n < 32 == |readyTable| && readyTable[n] < 0x1_0000_0000 && Ffs(readyTable[n]) > 0
      ensures Index(n, Ffs(readyTable[n]) - 1) in ReadyPrios(Abs()) && Ffs(readyTable[n]) <= 8
      ensures forall b: nat :: Bit(readyTable[n], b) ==> Ffs(readyTable[n]) - 1 <= b
    {
      hide Ffs, Bit;
      ByteBits(readyTable[n]);
      assert NonEmpty(Index(n, Ffs(readyTable[n]) - 1));
    }

    lemma InOrder(n: nat, b: nat, n2: nat, b2: nat)
      requires n <= n2 && b < 8 && (n == n2 ==> b <= b2)
      ensures Index(n, b) <= Index(n2, b2)
    {}

    lemma LeastIs(ps: set<nat>, p: nat)
      requires p in ps && forall q | q in ps :: p <= q
      ensures Least(ps) == p
    {}

    lemma SomeBit(q: nat)
      requires BitsOk() && q in ReadyPrios(Abs())
      ensures group != 0
      ensures !Wide() ==> Bit(group, q)
      ensures Wide() ==> q / 8 < 32 && q == 8 * (q / 8) + q % 8
      ensures Wide() ==> Bit(group, q / 8) && Bit(readyTable[q / 8], q % 8)
    {
      Split(q);
      assert NonEmpty(q);
      if Wide() {
        assert Bit(readyTable[q / 8], q % 8);
        NonZero(readyTable[q / 8], q % 8);
        NonZero(group, q / 8);
      } else {
        NonZero(group, q);
      }
    }

    // The bitmap word tested by rt_schedule
    lemma GroupTellsReady()
      requires BitsOk()
      ensures group != 0 <==> ReadyPrios(Abs()) != {}
    {
      if group != 0 {
        if Wide() { WideFirst(); } else { NarrowFirst(); }
      }
      if ReadyPrios(Abs()) != {} {
        var p :| p in ReadyPrios(Abs());
        SomeBit(p);
      }
    }

    lemma Sized()
      requires BitsOk()
      ensures |table| == prioMax
    {}

    lemma KnownThread(t: Tid)
      requires Valid() && t in threads
      ensures Known(Abs(), t)
      ensures threads[t].stat != Init ==> t in mask && mask[t] == MaskOf(threads[t].prio)
    {}

    lemma CurrentKnown()
      requires Valid() && current.Some?
      ensures Known(Abs(), current.value) && current.value in mask
      ensures mask[current.value] == MaskOf(threads[current.value].prio)
    {
    }

    // The chosen thread leaves its queue and runs.
    method RunThread(to: Tid)
      requires RepOk() && Known(Abs(), to) && to in mask && mask[to] == MaskOf(threads[to].prio)
      modifies this`threads, this`table, this`group, this`readyTable
      ensures RepOk() && Abs() == SetStat(Remove(old(Abs()), to), to, Running)
    {
      hide BitsOk;
      Sized();
      RemoveThread(to);
      threads := threads[to := threads[to].(stat := Running)];
    }

    // Switching the processor from the current thread to 'to'
    method SwitchThreads(to: Tid, insertFrom: bool)
      requires Valid() && current.Some? && current != Some(to) && Known(Abs(), to) && threads[to].stat == Ready
      requires insertFrom == IsRunning(Abs(), current.value)
      modifies this`threads, this`table, this`current, this`group, this`readyTable
      ensures RepOk() && Abs() == SwitchTo(old(Abs()), to)
    {
      hide QueuesOk, BitsOk;
      CurrentKnown();
      var from := current.value;
      current := Some(to);
      if insertFrom { InsertThread(from); }
      RunThread(to);
    }

    // The first half of rt_schedule: the thread to run, and whether the running one must queue up
    method PickNext() returns (to: Tid, insertFrom: bool)
      requires Valid() && current.Some? && ReadyPrios(Abs()) != {}
      ensures to == Chosen(Abs()) && Known(Abs(), to)
      ensures insertFrom <==> to != current.value && IsRunning(Abs(), current.value)
      ensures threads[to].stat == Ready || (Some(to) == current && IsRunning(Abs(), to))
    {
      TopIsReady(Abs());
      CurrentKnown();
      insertFrom := false;
      var highest := HighestPriority();
      to := table[highest][0];
      if threads[current.value].stat == Running {
        if threads[current.value].prio < highest { to := current.value; } else { insertFrom := true; }
      }
    }

    method KeepCurrent(to: Tid)
      requires Valid() && current == Some(to)
      modifies this`threads, this`table, this`group, this`readyTable
      ensures RepOk() && Abs() == SwitchTo(old(Abs()), to)
    {
      hide QueuesOk;
      CurrentKnown();
      RunThread(to);
    }

    // rt_schedule
    method DoSchedule()
      requires Valid() && current.Some?
      modifies this`threads, this`table, this`current, this`group, this`readyTable
      ensures Valid() && Abs() == Schedule(old(Abs()))
      ensures lockNest == 0 ==> TopRuns(Abs())
    {
      ScheduleSafe(Abs());
      GroupTellsReady();
      if lockNest == 0 && group != 0 {
        var to, insertFrom := PickNext();
        if Some(to) != current { SwitchThreads(to, insertFrom); } else { KeepCurrent(to); }
      }
    }

    // rt_thread_startup
    method StartThread(t: Tid)
      requires Valid() && Enabled(Abs(), Startup(t))
      modifies this`threads, this`table, this`current, this`group, this`readyTable, this`mask
      ensures Valid() && Abs() == Apply(old(Abs()), Startup(t))
    {
      hide BitsOk, Inv, Insert, Schedule;
      Sized();
      KnownThread(t);
      StartupSafe(Abs(), t);
      var prio := threads[t].initPrio;
      mask := mask[t := MaskOf(prio)];
      threads := threads[t := threads[t].(prio := prio, stat := Suspended)];
      InsertThread(t);
      DoSchedule();
    }

    // rt_thread_suspend
    method SuspendThread(t: Tid) returns (ok: bool)
      requires Valid() && Enabled(Abs(), Suspend(t))
      modifies this`threads, this`table, this`group, this`readyTable
      ensures Valid() && Abs() == Apply(old(Abs()), Suspend(t))
      ensures ok <==> old(threads[t].stat) in {Ready, Running}
    {
      hide BitsOk, Inv, Remove;
      KnownThread(t);
      SuspendSafe(Abs(), t);
      if threads[t].stat != Ready && threads[t].stat != Running { return false; }
      RemoveThread(t);
      threads := threads[t := threads[t].(stat := Suspended)];
      ok := true;
    }

    // rt_thread_resume
    method ResumeThread(t: Tid) returns (ok: bool)
      requires Valid() && Enabled(Abs(), Resume(t))
      modifies this`threads, this`table, this`group, this`readyTable
      ensures Valid() && Abs() == Apply(old(Abs()), Resume(t))
      ensures ok <==> old(threads[t].stat) == Suspended
    {
      hide QueuesOk;
      ResumeSafe(Abs(), t);
      if threads[t].stat != Suspended { return false; }
      InsertThread(t);
      ok := true;
    }

    // rt_thread_timeout
    method ExpireThread(t: Tid)
      requires Valid() && Enabled(Abs(), Timeout(t))
      modifies this`threads, this`table, this`current, this`group, this`readyTable
      ensures Valid() && Abs() == Apply(old(Abs()), Timeout(t))
      ensures lockNest == 0 ==> TopRuns(Abs())
    {
      hide QueuesOk, Schedule, TopRuns;
      TimeoutSafe(Abs(), t);
      InsertThread(t);
      DoSchedule();
    }

    // rt_thread_control with RT_THREAD_CTRL_CHANGE_PRIORITY. A thread that has not been
    // started keeps its stat, and gets attributes here as well.
    method ChangePriority(t: Tid, prio: nat)
      requires Valid() && Enabled(Abs(), ChangePrio(t, prio))
      modifies this`threads, this`table, this`group, this`readyTable, this`mask
      ensures Valid() && Abs() == Apply(old(Abs()), ChangePrio(t, prio))
    {
      hide Inv, BitsOk, Remove, MasksOk;
      ghost var s := Abs();
      Sized();
      KnownThread(t);
      ChangePrioSafe(Abs(), t, prio);
      if threads[t].stat == Ready {
        RemoveThread(t);
        Sized();
        SetPriority(t, prio);
        InsertThread(t);
      } else {
        SetPriority(t, prio);
      }
      assert Abs() == DoChangePrio(s, t, prio);
    }

    // current_priority and the attributes that go with it
    method SetPriority(t: Tid, prio: nat)
      requires t in threads && prio < prioMax && MasksOk()
      modifies this`threads, this`mask
      ensures threads == old(threads)[t := old(threads)[t].(prio := prio)]
      ensures MasksOk() && t in mask && mask[t] == MaskOf(prio)
    {
      threads := threads[t := threads[t].(prio := prio)];
      mask := mask[t := MaskOf(prio)];
    }

    // rt_thread_exit
    method ExitThread()
      requires Valid() && Enabled(Abs(), Exit)
      modifies this`threads, this`table, this`current, this`group, this`readyTable
      ensures Valid() && Abs() == Apply(old(Abs()), Exit)
      ensures lockNest == 0 ==> TopRuns(Abs())
    {
      hide Inv, Remove, Schedule, TopRuns, BitsOk;
      Sized();
      CurrentKnown();
      LeaveSafe(Abs());
      RemoveThread(current.value);
      threads := threads[current.value := threads[current.value].(stat := Closed)];
      assert MasksOk();
      DoSchedule();
    }

    // rt_enter_critical
    method EnterCriticalSection()
      requires Valid() && Enabled(Abs(), EnterCritical)
      modifies this`lockNest
      ensures Valid() && Abs() == Apply(old(Abs()), EnterCritical)
    {
      hide QueuesOk;
      NestSafe(Abs(), lockNest + 1);
      lockNest := lockNest + 1;
    }

    // rt_exit_critical
    method ExitCriticalSection()
      requires Valid() && Enabled(Abs(), ExitCritical)
      modifies this`threads, this`table, this`current, this`group, this`readyTable, this`lockNest
      ensures Valid() && Abs() == Apply(old(Abs()), ExitCritical)
      ensures lockNest == 0 ==> TopRuns(Abs())
    {
      hide QueuesOk, Schedule, TopRuns;
      NestSafe(Abs(), if lockNest <= 1 then 0 else lockNest - 1);
      lockNest := if lockNest <= 1 then 0 else lockNest - 1;
      if lockNest == 0 { DoSchedule(); }
    }

    // The time slice part of rt_tick_increase
    method TickIncrease()
      requires Valid() && Enabled(Abs(), Tick)
      modifies this`threads, this`table, this`current, this`group, this`readyTable
      ensures Valid() && Abs() == Apply(old(Abs()), Tick)
    {
      hide BitsOk, Inv, Schedule;
      CurrentKnown();
      ChargeSafe(Abs());
      var c := current.value;
      var left := threads[c].remaining - 1;
      threads := threads[c := threads[c].(remaining := left)];
      if left == 0 {
        threads := threads[c := threads[c].(remaining := threads[c].initTick)];
        assert Abs() == Charge(old(Abs()));
        DoSchedule();
      }
    }

    // rt_system_scheduler_start
    method Start()
      requires Valid() && current == None && ReadyPrios(Abs()) != {}
      modifies this`threads, this`table, this`current, this`group, this`readyTable
      ensures Valid() && current == Some(Top(old(Abs()))) && IsRunning(Abs(), current.value) && TopRuns(Abs())
    {
      hide QueuesOk, ReadyPrios, TopRuns;
      TopIsReady(Abs());
      StartSafe(Abs(), Top(Abs()));
      var highest := HighestPriority();
      var to := table[highest][0];
      current := Some(to);
      RunThread(to);
    }

    // rt_thread_startup before the scheduler runs: the thread is made ready, nothing is switched
    method StartEarly(t: Tid)
      requires Valid() && current == None && t in threads && threads[t].stat == Init
      modifies this`threads, this`table, this`group, this`readyTable, this`mask
      ensures Valid() && current == None
      ensures t in threads && threads[t].stat == Ready && threads[t].prio == old(threads[t].initPrio)
      ensures forall u :: u in old(threads) && u != t ==> u in threads && threads[u] == old(threads)[u]
    {
      hide QueuesOk, BitsOk;
      Sized();
      var prio := threads[t].initPrio;
      EarlySafe(Abs(), t);
      mask := mask[t := MaskOf(prio)];
      threads := threads[t := threads[t].(prio := prio, stat := Suspended)];
      InsertThread(t);
    }

    lemma EarlySafe(s: State, t: Tid)
      requires Inv(s) && s.current == None && t in s.threads && s.threads[t].stat == Init
      ensures
        var e := s.(threads := s.threads[t := s.threads[t].(prio := s.threads[t].initPrio, stat := Suspended)]);
        Known(e, t) && Inv(Insert(e, t))
    {
      var e := s.(threads := s.threads[t := s.threads[t].(prio := s.threads[t].initPrio, stat := Suspended)]);
      assert QueuesOkBut(e, t);
      InsertOk(e, t);
    }
  }
}

// Event sets (src/ipc.c, rt_event_*): threads wait for all or any bits of a set.
module EventFlags {
  import opened Options
  import opened IpcList
  import opened Lists

  // An event set, kept as the set of the positions of its one bits: '*', '+' and '-' stand for
  // the bitwise and, or and and-not of the source.
  type Bits = set<nat>

  // One call of rt_event_recv: the bits asked for and the option byte
  datatype Want = Want(bits: Bits, all: bool, some: bool, clear: bool)

  datatype Failure = ETimeout | EError

  // What a thread blocked in rt_event_recv is doing. 'turn' is the event set at the moment the
  // sender looked at the thread; it is only for the proof.
  datatype Call =
    | Waiting(want: Want, timed: bool)
    | Woken(want: Want, turn: Bits)
    | Failed(want: Want, failure: Failure)

  // 'eventSet' is the field of the thread that first holds the bits asked for, later those received.
  datatype State = State(flags: Bits, waiting: seq<Tid>, calls: map<Tid, Call>, eventSet: map<Tid, Bits>)

  datatype Config = Config(flag: Flag, prio: Tid -> nat)

  datatype Event =
    | Send(bits: Bits)
    | Recv(t: Tid, want: Want, wait: bool, timed: bool)
    | Resume(t: Tid)
    | Timeout(t: Tid)
    | Reset

  // ----- a receive that does not wait -----

  predicate Met(flags: Bits, w: Want) {
    if w.all then flags * w.bits == w.bits else w.some && flags * w.bits != {}
  }

  datatype Immediate = Immediate(got: Option<Bits>, flags: Bits)

  // What rt_event_recv does at once: the bits it returns and the event set it leaves
  function RecvNow(flags: Bits, w: Want): Immediate {
    if !Met(flags, w) then Immediate(None, flags)
    else Immediate(Some(flags * w.bits), if w.clear then flags - w.bits else flags)
  }

  // ----- the search loop of rt_event_send -----

  // Waking the n-th waiter: only the OR branch stores the bits received.
  function Wake(s: State, n: nat): State
    requires n < |s.waiting| && s.waiting[n] in s.calls && s.waiting[n] in s.eventSet
  {
    var t := s.waiting[n];
    var w := s.calls[t].want;
    var got := if w.all then s.eventSet[t] else s.eventSet[t] * s.flags;
    State(if w.clear then s.flags - got else s.flags, s.waiting[..n] + s.waiting[n + 1..],
          s.calls[t := Woken(w, s.flags)], s.eventSet[t := got])
  }

  predicate Hit(s: State, n: nat)
    requires n < |s.waiting| && s.waiting[n] in s.calls && s.waiting[n] in s.eventSet
  {
    var w, asked := s.calls[s.waiting[n]].want, s.eventSet[s.waiting[n]];
    if w.all then asked * s.flags == asked else w.some && asked * s.flags != {}
  }

  ghost predicate Recorded(s: State) {
    && Distinct(s.waiting)
    && (forall t :: t in s.waiting ==>
         (t in s.calls && s.calls[t].Waiting? && t in s.eventSet && s.eventSet[t] == s.calls[t].want.bits))
  }

  lemma WakeRecorded(s: State, n: nat)
    requires Recorded(s) && n < |s.waiting|
    ensures s.waiting[n] in s.calls && s.waiting[n] in s.eventSet && Recorded(Wake(s, n))
    ensures forall t :: t in Wake(s, n).waiting <==> t in s.waiting && t != s.waiting[n]
  {
    assert s.waiting[n] in s.waiting;
    var r := s.waiting[..n] + s.waiting[n + 1..];
    forall t ensures t in r <==> t in s.waiting && t != s.waiting[n] {
      if t in s.waiting && t != s.waiting[n] {
        var k :| 0 <= k < |s.waiting| && s.waiting[k] == t;
        assert r[if k < n then k else k - 1] == t;
      }
    }
  }

  ghost function Sweep(s: State, n: nat): State
    requires Recorded(s) && n <= |s.waiting|
    decreases |s.waiting| - n
  {
    if n == |s.waiting| then s
    else
      WakeRecorded(s, n);
      if Hit(s, n) then Sweep(Wake(s, n), n) else Sweep(s, n + 1)
  }

  // ----- the operations -----

  function Block(c: Config, s: State, t: Tid, w: Want, timed: bool): State {
    s.(waiting := Enqueue(s.waiting, t, c.flag, c.prio), calls := s.calls[t := Waiting(w, timed)],
       eventSet := s.eventSet[t := w.bits])
  }

  // A blocked thread only resumes or times out. Receivers ask for AND or OR.
  ghost predicate Enabled(s: State, e: Event) {
    match e
    case Send(_) => true
    case Recv(t, w, _, _) => t !in s.calls && (w.all || w.some)
    case Resume(t) => t in s.calls && !s.calls[t].Waiting?
    case Timeout(t) => t in s.calls && s.calls[t].Waiting? && s.calls[t].timed
    case Reset => true
  }

  function FailAll(s: State, f: Failure): State {
    State({}, [], map t | t in s.calls :: if t in s.waiting then Failed(s.calls[t].want, f) else s.calls[t], s.eventSet)
  }

  // The loop of rt_ipc_list_resume_all over the waiting threads: the first of them is failed.
  lemma FailHead(s: State, f: Failure)
    requires Recorded(s) && s.waiting != []
    ensures s.waiting[0] in s.calls
    ensures
      var t := s.waiting[0];
      var e := s.(waiting := s.waiting[1..], calls := s.calls[t := Failed(s.calls[t].want, f)]);
      Recorded(e) && FailAll(e, f) == FailAll(s, f)
  {
    var t := s.waiting[0];
    assert t in s.waiting;
    DistinctTail(s.waiting);
    assert forall u :: u in s.waiting <==> u == t || u in s.waiting[1..];
  }

  lemma FailNone(s: State, f: Failure)
    requires s.waiting == []
    ensures FailAll(s, f) == s.(flags := {})
  {
    assert FailAll(s, f).calls == s.calls;
  }

  lemma RaisedRecorded(c: Config, s: State, bits: Bits)
    requires Inv(c, s)
    ensures Recorded(s) && Recorded(s.(flags := s.flags + bits))
  {}

  ghost function Apply(c: Config, s: State, e: Event): State
    requires Inv(c, s) && Enabled(s, e)
  {
    match e
    case Send(bits) => if bits == {} then s else Sweep(s.(flags := s.flags + bits), 0)
    case Recv(t, w, wait, timed) =>
      if w.bits == {} then s
      else if Met(s.flags, w) then s.(flags := RecvNow(s.flags, w).flags)
      else if wait then Block(c, s, t, w, timed)
      else s
    case Resume(t) => s.(calls := s.calls - {t})
    case Timeout(t) => s.(waiting := Without(s.waiting, t), calls := s.calls[t := Failed(s.calls[t].want, ETimeout)])
    case Reset => FailAll(s, EError)
  }

  ghost predicate Inv(c: Config, s: State) {
    && Recorded(s)
    && (c.flag.Prio? ==> Sorted(s.waiting, c.prio))
    // a thread is in the list exactly while it waits, and nobody waits for what is already there
    && (forall t :: t in s.calls && s.calls[t].Waiting? ==> t in s.waiting)
    && (forall t :: t in s.waiting ==> !Met(s.flags, s.calls[t].want))
    && (forall t :: t in s.calls ==> s.calls[t].want.bits != {} && (s.calls[t].want.all || s.calls[t].want.some))
    // a woken thread holds what a receive at its turn would have returned
    && (forall t :: t in s.calls && s.calls[t].Woken? ==>
         (t in s.eventSet && RecvNow(s.calls[t].turn, s.calls[t].want).got == Some(s.eventSet[t])))
  }

  // ----- the search loop -----

  lemma WakeIsRecvNow(s: State, n: nat)
    requires Recorded(s) && n < |s.waiting|
    ensures s.waiting[n] in s.calls && s.waiting[n] in s.eventSet
    ensures Hit(s, n) <==> Met(s.flags, s.calls[s.waiting[n]].want)
    ensures Hit(s, n) ==>
              RecvNow(s.flags, s.calls[s.waiting[n]].want) ==
              Immediate(Some(Wake(s, n).eventSet[s.waiting[n]]), Wake(s, n).flags)
  {
    assert s.waiting[n] in s.waiting;
    var asked := s.calls[s.waiting[n]].want.bits;
    assert asked * s.flags == s.flags * asked && s.flags - asked * s.flags == s.flags - asked;
  }

  // The waiters asked again in turn, each with a receive that does not wait
  datatype Retried = Retried(flags: Bits, got: seq<Option<Bits>>)

  function Retry(flags: Bits, wants: seq<Want>): (r: Retried)
    ensures |r.got| == |wants|
  {
    if wants == [] then Retried(flags, [])
    else
      var first := RecvNow(flags, wants[0]);
      var rest := Retry(first.flags, wants[1..]);
      Retried(rest.flags, [first.got] + rest.got)
  }

  ghost predicate Cleared(got: seq<Option<Bits>>, wants: seq<Want>, b: nat)
    requires |got| == |wants|
  {
    exists i :: 0 <= i < |wants| && got[i].Some? && wants[i].clear && b in got[i].value
  }

  // Nobody gets a bit that is not set, and what a clearing receiver gets nobody after it gets.
  lemma {:induction false} RetryShares(flags: Bits, wants: seq<Want>)
    ensures var r := Retry(flags, wants);
            && r.flags <= flags
            && (forall i :: 0 <= i < |wants| && r.got[i].Some? ==> r.got[i].value <= flags * wants[i].bits)
            && (forall i, j :: 0 <= i < j < |wants| && r.got[i].Some? && r.got[j].Some? && wants[i].clear ==>
                 r.got[i].value !! r.got[j].value)
            && (forall b :: (b in flags && b !in r.flags) <==> Cleared(r.got, wants, b))
  {
    if wants != [] {
      var r, first := Retry(flags, wants), RecvNow(flags, wants[0]);
      var rest := Retry(first.flags, wants[1..]);
      RetryShares(first.flags, wants[1..]);
      assert forall i :: 0 < i < |wants| ==> r.got[i] == rest.got[i - 1] && wants[i] == wants[1..][i - 1];
      forall b ensures (b in flags && b !in r.flags) <==> Cleared(r.got, wants, b) {
        if b in first.flags && b !in r.flags {
          var i :| 0 <= i < |wants[1..]| && rest.got[i].Some? && wants[1..][i].clear && b in rest.got[i].value;
          assert r.got[i + 1].Some? && wants[i + 1].clear && b in r.got[i + 1].value;
        }
      }
    }
  }

  ghost function WantOf(s: State, i: nat): Want
    requires Recorded(s) && i < |s.waiting|
  {
    assert s.waiting[i] in s.waiting;
    s.calls[s.waiting[i]].want
  }

  ghost function Wants(s: State, n: nat): seq<Want>
    requires Recorded(s) && n <= |s.waiting|
  {
    seq(|s.waiting| - n, k requires 0 <= k < |s.waiting| - n => WantOf(s, n + k))
  }

  lemma WantsStep(s: State, n: nat)
    requires Recorded(s) && n < |s.waiting|
    ensures s.waiting[n] in s.calls && s.waiting[n] in s.eventSet
    ensures Wants(s, n)[0] == s.calls[s.waiting[n]].want && Wants(s, n)[1..] == Wants(s, n + 1)
    ensures Recorded(Wake(s, n)) && Wants(Wake(s, n), n) == Wants(s, n + 1)
  {
    WakeRecorded(s, n);
    assert s.waiting[n] in s.waiting;
    var w := Wake(s, n);
    forall i | n <= i < |w.waiting| ensures WantOf(w, i) == WantOf(s, i + 1) {
      assert w.waiting[i] == s.waiting[i + 1] && s.waiting[i + 1] in s.waiting;
      assert s.waiting[n] != s.waiting[i + 1];
    }
    assert |Wants(w, n)| == |Wants(s, n + 1)|;
    forall k | 0 <= k < |Wants(w, n)| ensures Wants(w, n)[k] == Wants(s, n + 1)[k] {
      assert WantOf(w, n + k) == WantOf(s, n + k + 1);
    }
    assert Wants(w, n) == Wants(s, n + 1);
    assert Wants(s, n)[0] == WantOf(s, n + 0);
    assert Wants(s, n)[1..] == Wants(s, n + 1);
  }

  // The threads whose retry failed, in their order
  function Unserved(ts: seq<Tid>, got: seq<Option<Bits>>): seq<Tid>
    requires |ts| == |got|
  {
    if ts == [] then [] else (if got[0].None? then [ts[0]] else []) + Unserved(ts[1..], got[1..])
  }

  // How one thread comes out of the search
  ghost predicate Served(s: State, e: State, t: Tid, got: Option<Bits>)
    requires t in s.calls && t in s.eventSet
  {
    if got.None? then t in e.calls && e.calls[t] == s.calls[t]
    else
      && t in e.calls && e.calls[t].Woken? && e.calls[t].want == s.calls[t].want
      && t in e.eventSet && e.eventSet[t] == got.value
      && RecvNow(e.calls[t].turn, e.calls[t].want).got == got
  }

  // The search from position n took s to e and served the waiters as r says.
  ghost predicate Swept(s: State, n: nat, e: State, r: Retried)
    requires Recorded(s) && n <= |s.waiting| && |r.got| == |s.waiting| - n
  {
    && e.flags == r.flags && Recorded(e)
    && e.waiting == s.waiting[..n] + Unserved(s.waiting[n..], r.got)
    && (forall t :: t !in s.waiting[n..] ==> Same(s, e, t))
    && (forall j :: 0 <= j < |r.got| ==> ServedAt(s, e, n + j, r.got[j]))
  }

  ghost predicate Same(s: State, e: State, t: Tid) {
    && (t in e.calls <==> t in s.calls) && (t in s.calls ==> e.calls[t] == s.calls[t])
    && (t in e.eventSet <==> t in s.eventSet) && (t in s.eventSet ==> e.eventSet[t] == s.eventSet[t])
  }

  ghost predicate ServedAt(s: State, e: State, k: nat, got: Option<Bits>)
    requires Recorded(s) && k < |s.waiting|
  {
    assert s.waiting[k] in s.waiting;
    Served(s, e, s.waiting[k], got)
  }

  lemma SweptHit(s: State, n: nat, e: State, r: Retried)
    requires Recorded(s) && n < |s.waiting| && |r.got| == |s.waiting| - n
    requires s.waiting[n] in s.calls && s.waiting[n] in s.eventSet && Recorded(Wake(s, n))
    requires RecvNow(s.flags, s.calls[s.waiting[n]].want).got == Some(Wake(s, n).eventSet[s.waiting[n]])
    requires r.got[0] == Some(Wake(s, n).eventSet[s.waiting[n]])
    requires Swept(Wake(s, n), n, e, Retried(r.flags, r.got[1..]))
    ensures Swept(s, n, e, r)
  {
    var w, t := Wake(s, n), s.waiting[n];
    assert s.waiting[n..][1..] == s.waiting[n + 1..] == w.waiting[n..] && w.waiting[..n] == s.waiting[..n];
    assert t !in s.waiting[n + 1..];
    forall u | u !in s.waiting[n..] ensures Same(s, e, u) {
      assert s.waiting[n..][0] == t && u != t;
      assert Same(w, e, u);
    }
    assert Same(w, e, t);
    forall j | 0 <= j < |r.got| ensures ServedAt(s, e, n + j, r.got[j]) {
      if j > 0 {
        assert r.got[1..][j - 1] == r.got[j] && ServedAt(w, e, n + (j - 1), r.got[1..][j - 1]);
        assert w.waiting[n + j - 1] == s.waiting[n + j] && s.waiting[n + j] != t;
      }
    }
  }

  lemma SweptMiss(s: State, n: nat, e: State, r: Retried)
    requires Recorded(s) && n < |s.waiting| && |r.got| == |s.waiting| - n && r.got[0].None?
    requires Swept(s, n + 1, e, Retried(r.flags, r.got[1..]))
    ensures Swept(s, n, e, r)
  {
    var t := s.waiting[n];
    assert s.waiting[n..][1..] == s.waiting[n + 1..] && s.waiting[..n + 1] == s.waiting[..n] + [t];
    assert t !in s.waiting[n + 1..] && t in s.waiting;
    assert Same(s, e, t);
    forall u | u !in s.waiting[n..] ensures Same(s, e, u) {
      assert forall x :: x in s.waiting[n + 1..] ==> x in s.waiting[n..];
    }
    forall j | 0 <= j < |r.got| ensures ServedAt(s, e, n + j, r.got[j]) {
      if j > 0 {
        assert r.got[1..][j - 1] == r.got[j] && ServedAt(s, e, n + 1 + (j - 1), r.got[1..][j - 1]);
      }
    }
  }

  // The search loop serves its waiters exactly as if each of them, in list order, received again
  // without waiting: same bits, same clearing, and the others keep their places.
  lemma {:induction false} SweepIsRetry(s: State, n: nat)
    requires Recorded(s) && n <= |s.waiting|
    ensures Swept(s, n, Sweep(s, n), Retry(s.flags, Wants(s, n)))
    decreases |s.waiting| - n
  {
    if n < |s.waiting| {
      WakeIsRecvNow(s, n);
      WantsStep(s, n);
      var r := Retry(s.flags, Wants(s, n));
      if Hit(s, n) {
        SweepIsRetry(Wake(s, n), n);
        SweptHit(s, n, Sweep(s, n), r);
      } else {
        SweepIsRetry(s, n + 1);
        SweptMiss(s, n, Sweep(s, n), r);
      }
    } else {
      assert s.waiting[..n] == s.waiting;
    }
  }

  // ----- every operation keeps the invariant -----

  // Bits are only cleared during the search, so a waiter passed over stays unsatisfied.
  lemma {:induction false} SweepLeavesNoneMet(s: State, n: nat)
    requires Recorded(s) && n <= |s.waiting|
    requires forall i :: 0 <= i < n ==> !Met(s.flags, WantOf(s, i))
    ensures Recorded(Sweep(s, n))
    ensures forall i :: 0 <= i < |Sweep(s, n).waiting| ==> !Met(Sweep(s, n).flags, WantOf(Sweep(s, n), i))
    decreases |s.waiting| - n
  {
    if n < |s.waiting| {
      WakeIsRecvNow(s, n);
      if Hit(s, n) {
        var w := Wake(s, n);
        WakeRecorded(s, n);
        forall i | 0 <= i < n ensures !Met(w.flags, WantOf(w, i)) {
          assert w.waiting[i] == s.waiting[i] && s.waiting[i] in s.waiting && s.waiting[i] != s.waiting[n];
          assert !Met(s.flags, WantOf(s, i)) && w.flags <= s.flags;
        }
        SweepLeavesNoneMet(w, n);
      } else {
        SweepLeavesNoneMet(s, n + 1);
      }
    }
  }

  lemma SweepSorted(c: Config, s: State, n: nat)
    requires Recorded(s) && n <= |s.waiting| && Sorted(s.waiting, c.prio)
    ensures Sorted(Sweep(s, n).waiting, c.prio)
    decreases |s.waiting| - n
  {
    if n < |s.waiting| {
      WakeRecorded(s, n);
      if Hit(s, n) { SweepSorted(c, Wake(s, n), n); } else { SweepSorted(c, s, n + 1); }
    }
  }

  lemma UnservedHas(ts: seq<Tid>, got: seq<Option<Bits>>, j: nat)
    requires |ts| == |got| && j < |ts| && got[j].None?
    ensures ts[j] in Unserved(ts, got)
  {
    if j > 0 { UnservedHas(ts[1..], got[1..], j - 1); }
  }

  // Where a thread of the list stands after the search
  lemma SweptThread(s: State, e: State, r: Retried, t: Tid)
    requires Recorded(s) && |r.got| == |s.waiting| && Swept(s, 0, e, r)
    ensures t !in s.waiting ==> Same(s, e, t)
    ensures t in s.waiting ==>
              && t in e.calls && e.calls[t].want == s.calls[t].want
              && (e.calls[t] == s.calls[t] ==> t in e.waiting)
              && (e.calls[t] != s.calls[t] ==>
                   (e.calls[t].Woken? && t in e.eventSet &&
                    RecvNow(e.calls[t].turn, e.calls[t].want).got == Some(e.eventSet[t])))
  {
    assert s.waiting[0..] == s.waiting;
    if t in s.waiting {
      var j :| 0 <= j < |s.waiting| && s.waiting[j] == t;
      assert ServedAt(s, e, 0 + j, r.got[j]);
      if r.got[j].None? {
        UnservedHas(s.waiting, r.got, j);
        assert t in e.waiting;
      } else {
        assert s.calls[t].Waiting?;
      }
    }
  }

  lemma SendSafe(c: Config, s: State, bits: Bits)
    requires Inv(c, s) && bits != {}
    ensures Inv(c, Apply(c, s, Send(bits)))
  {
    var s1 := s.(flags := s.flags + bits);
    var e, r := Sweep(s1, 0), Retry(s1.flags, Wants(s1, 0));
    SweepIsRetry(s1, 0);
    SweepLeavesNoneMet(s1, 0);
    if c.flag.Prio? { SweepSorted(c, s1, 0); }
    forall t | t in e.calls
      ensures e.calls[t].Waiting? ==> t in e.waiting
      ensures e.calls[t].want.bits != {} && (e.calls[t].want.all || e.calls[t].want.some)
      ensures e.calls[t].Woken? ==>
                t in e.eventSet && RecvNow(e.calls[t].turn, e.calls[t].want).got == Some(e.eventSet[t])
    {
      SweptThread(s1, e, r, t);
    }
    forall t | t in e.waiting ensures !Met(e.flags, e.calls[t].want) {
      var i :| 0 <= i < |e.waiting| && e.waiting[i] == t;
      assert !Met(e.flags, WantOf(e, i));
    }
  }

  // A send serves the blocked receivers as if each, in list order, had received again without
  // waiting; no bit is invented and a bit consumed by a clearing receiver goes to nobody later.
  lemma SendIsRetry(c: Config, s: State, bits: Bits)
    requires Inv(c, s) && bits != {}
    ensures Recorded(s.(flags := s.flags + bits))
    ensures var s1 := s.(flags := s.flags + bits);
            var r := Retry(s1.flags, Wants(s1, 0));
            && Swept(s1, 0, Apply(c, s, Send(bits)), r)
            && (forall i, j :: 0 <= i < j < |r.got| && r.got[i].Some? && r.got[j].Some? && WantOf(s1, i).clear ==>
                 r.got[i].value !! r.got[j].value)
            && (forall b :: (b in s1.flags && b !in Apply(c, s, Send(bits)).flags) <==>
                 Cleared(r.got, Wants(s1, 0), b))
  {
    var s1 := s.(flags := s.flags + bits);
    SweepIsRetry(s1, 0);
    RetryShares(s1.flags, Wants(s1, 0));
    forall i | 0 <= i < |s1.waiting| ensures Wants(s1, 0)[i] == WantOf(s1, i) {
      assert Wants(s1, 0)[i] == WantOf(s1, 0 + i);
    }
  }

  lemma BlockSafe(c: Config, s: State, t: Tid, w: Want, timed: bool)
    requires Inv(c, s) && t !in s.calls && !Met(s.flags, w) && w.bits != {} && (w.all || w.some)
    ensures Inv(c, Block(c, s, t, w, timed))
  {
    EnqueueMembers(s.waiting, t, c.flag, c.prio);
    if c.flag.Prio? { EnqueueStable(s.waiting, t, c.prio, PrioPlace(s.waiting, t, c.prio)); }
  }

  lemma EventSafe(c: Config, s: State, e: Event)
    requires Inv(c, s) && Enabled(s, e)
    ensures Inv(c, Apply(c, s, e))
  {
    match e
    case Send(bits) => if bits != {} { SendSafe(c, s, bits); }
    case Recv(t, w, wait, timed) => RecvSafe(c, s, t, w, wait, timed);
    case Resume(t) =>
    case Timeout(t) => if c.flag.Prio? { WithoutSorted(s.waiting, t, c.prio); }
    case Reset =>
  }

  lemma RecvSafe(c: Config, s: State, t: Tid, w: Want, wait: bool, timed: bool)
    requires Inv(c, s) && Enabled(s, Recv(t, w, wait, timed))
    ensures Inv(c, Apply(c, s, Recv(t, w, wait, timed)))
  {
    if w.bits != {} && !Met(s.flags, w) && wait { BlockSafe(c, s, t, w, timed); }
  }

  // ----- runs -----

  function Init(): State { State({}, [], map[], map[]) }

  ghost predicate Runs(c: Config, s: State, es: seq<Event>, last: State)
    requires Inv(c, s)
    decreases |es|
  {
    if es == [] then last == s
    else Enabled(s, es[0]) && (EventSafe(c, s, es[0]); Runs(c, Apply(c, s, es[0]), es[1..], last))
  }

  lemma {:induction false} RunSafe(c: Config, s: State, es: seq<Event>, last: State)
    requires Inv(c, s) && Runs(c, s, es, last)
    ensures Inv(c, last)
    decreases |es|
  {
    if es != [] {
      EventSafe(c, s, es[0]);
      RunSafe(c, Apply(c, s, es[0]), es[1..], last);
    }
  }

  // In every reachable state no blocked receiver's condition holds, although clearing receivers
  // consume bits in the middle of a send; and a receiver that was woken returns what an immediate
  // receive at its turn would have.
  lemma NobodyOverlooked(c: Config, es: seq<Event>, s: State)
    requires Runs(c, Init(), es, s)
    ensures forall t :: t in s.calls && s.calls[t].Waiting? ==> !Met(s.flags, s.calls[t].want)
    ensures forall t :: t in s.calls && s.calls[t].Woken? ==>
              t in s.eventSet && RecvNow(s.calls[t].turn, s.calls[t].want).got == Some(s.eventSet[t])
  {
    RunSafe(c, Init(), es, s);
  }

  // ----- the object -----

  datatype Outcome = Ok(got: Bits) | Error(failure: Failure) | Suspended

  class EventObject {
    const c: Config
    var flags: Bits
    var waiting: seq<Tid>
    var calls: map<Tid, Call>
    var eventSet: map<Tid, Bits>

    ghost function Abs(): State reads this { State(flags, waiting, calls, eventSet) }

    ghost predicate Valid() reads this { Inv(c, Abs()) }

    // rt_event_init
    constructor (c: Config)
      ensures Valid() && this.c == c && Abs() == Init()
    {
      this.c := c;
      flags, waiting, calls, eventSet := {}, [], map[], map[];
    }

    method WakeAt(n: nat)
      requires n < |waiting| && Recorded(Abs())
      modifies this
      ensures old(waiting)[n] in old(calls) && old(waiting)[n] in old(eventSet)
      ensures Abs() == if Hit(old(Abs()), n) then Wake(old(Abs()), n) else old(Abs())
      ensures |waiting| == if Hit(old(Abs()), n) then |old(waiting)| - 1 else |old(waiting)|
    {
      var t := waiting[n];
      assert t in Abs().waiting;
      var w := calls[t].want;
      var now := flags;
      if w.all {
        if eventSet[t] * flags != eventSet[t] { return; }
      } else if w.some {
        if eventSet[t] * flags == {} { return; }
        eventSet := eventSet[t := eventSet[t] * flags];
      } else {
        return;
      }
      if w.clear { flags := flags - eventSet[t]; }
      waiting := waiting[..n] + waiting[n + 1..];
      calls := calls[t := Woken(w, now)];
      assert eventSet == old(eventSet)[t := eventSet[t]];
    }

    // rt_event_send
    method SendBits(bits: Bits) returns (r: Outcome)
      requires Valid()
      modifies this
      ensures Valid() && Abs() == Apply(c, old(Abs()), Send(bits))
      ensures r == if bits == {} then Error(EError) else Ok({})
    {
      hide Inv, Recorded, Hit, Wake;
      EventSafe(c, Abs(), Send(bits));
      RaisedRecorded(c, Abs(), bits);
      if bits == {} { return Error(EError); }
      flags := flags + bits;
      ghost var s1 := Abs();
      var n := 0;
      while n < |waiting|
        invariant n <= |waiting| && Recorded(Abs())
        invariant Sweep(Abs(), n) == Sweep(s1, 0)
        invariant Apply(c, old(Abs()), Send(bits)) == Sweep(s1, 0)
        decreases |waiting| - n
      {
        ghost var s := Abs();
        var before := |waiting|;
        WakeRecorded(s, n);
        WakeAt(n);
        if |waiting| == before { n := n + 1; }
      }
      r := Ok({});
    }

    // rt_event_recv up to its first return or suspension
    method RecvBits(t: Tid, w: Want, wait: bool, timed: bool) returns (r: Outcome)
      requires Valid() && Enabled(Abs(), Recv(t, w, wait, timed))
      modifies this
      ensures Valid() && Abs() == Apply(c, old(Abs()), Recv(t, w, wait, timed))
      ensures r == if w.bits == {} then Error(EError)
                   else if Met(old(flags), w) then Ok(RecvNow(old(flags), w).got.value)
                   else if wait then Suspended else Error(ETimeout)
    {
      EventSafe(c, Abs(), Recv(t, w, wait, timed));
      if w.bits == {} { return Error(EError); }
      var status := if w.all then flags * w.bits == w.bits else w.some && flags * w.bits != {};
      if status {
        r := Ok(flags * w.bits);
        if w.clear { flags := flags - w.bits; }
      } else if !wait {
        r := Error(ETimeout);
      } else {
        eventSet := eventSet[t := w.bits];
        calls := calls[t := Waiting(w, timed)];
        waiting := ListSuspend(waiting, t, c.flag, c.prio);
        r := Suspended;
      }
    }

    // rt_event_recv after rt_schedule
    method ResumeRecv(t: Tid) returns (r: Outcome)
      requires Valid() && Enabled(Abs(), Resume(t))
      modifies this`calls
      ensures Valid() && Abs() == Apply(c, old(Abs()), Resume(t))
      ensures var call := old(calls)[t];
              && (call.Woken? ==> RecvNow(call.turn, call.want).got.Some?
                                  && r == Ok(RecvNow(call.turn, call.want).got.value))
              && (call.Failed? ==> r == Error(call.failure))
    {
      EventSafe(c, Abs(), Resume(t));
      if calls[t].Failed? {
        r := Error(calls[t].failure);
      } else {
        r := Ok(eventSet[t]);
      }
      calls := calls - {t};
    }

    // rt_thread_timeout of a receiver
    method Expire(t: Tid)
      requires Valid() && Enabled(Abs(), Timeout(t))
      modifies this
      ensures Valid() && Abs() == Apply(c, old(Abs()), Timeout(t))
    {
      EventSafe(c, Abs(), Timeout(t));
      waiting := Without(waiting, t);
      calls := calls[t := Failed(calls[t].want, ETimeout)];
    }

    // rt_event_control with RT_IPC_CMD_RESET
    method ResetEvent()
      requires Valid()
      modifies this
      ensures Valid() && Abs() == Apply(c, old(Abs()), Reset)
    {
      hide Inv, Recorded, FailAll;
      EventSafe(c, Abs(), Reset);
      RaisedRecorded(c, Abs(), {});
      while waiting != []
        invariant Recorded(Abs()) && eventSet == old(eventSet)
        invariant FailAll(Abs(), EError) == FailAll(old(Abs()), EError)
        decreases |waiting|
      {
        FailHead(Abs(), EError);
        calls := calls[waiting[0] := Failed(calls[waiting[0]].want, EError)];
        waiting := waiting[1..];
      }
      FailNone(Abs(), EError);
      flags := {};
    }
  }
}

// Suspend lists of IPC objects (src/ipc.c, rt_ipc_list_suspend).
module IpcList {
  import opened Lists

  type Tid = nat

  datatype Flag = Fifo | Prio

  // The first position whose thread is strictly less urgent than t
  function PrioPlace(list: seq<Tid>, t: Tid, prio: Tid -> nat): (k: nat)
    ensures k <= |list|
    ensures forall j :: 0 <= j < k ==> prio(list[j]) <= prio(t)
    ensures k < |list| ==> prio(t) < prio(list[k])
  {
    if list == [] || prio(t) < prio(list[0]) then 0 else 1 + PrioPlace(list[1..], t, prio)
  }

  function Enqueue(list: seq<Tid>, t: Tid, flag: Flag, prio: Tid -> nat): (r: seq<Tid>)
    ensures |r| == |list| + 1
  {
    var k := if flag.Fifo? then |list| else PrioPlace(list, t, prio);
    list[..k] + [t] + list[k..]
  }

  ghost predicate Sorted(list: seq<Tid>, prio: Tid -> nat) {
    forall i, j :: 0 <= i < j < |list| ==> prio(list[i]) <= prio(list[j])
  }

  // A priority list stays sorted, the newcomer goes behind its equals, and the others keep
  // their order.
  lemma EnqueueStable(list: seq<Tid>, t: Tid, prio: Tid -> nat, k: nat)
    requires Sorted(list, prio) && k == PrioPlace(list, t, prio)
    ensures Sorted(Enqueue(list, t, Prio, prio), prio)
    ensures Enqueue(list, t, Prio, prio)[k] == t
    ensures Enqueue(list, t, Prio, prio)[..k] + Enqueue(list, t, Prio, prio)[k + 1..] == list
    ensures forall j :: 0 <= j < |list| && prio(list[j]) <= prio(t) ==> j < k
  {
    hide PrioPlace, Sorted;
    BehindPlace(list, t, prio);
    InsertedSorted(list, t, prio, k);
    InsertedSplit(list, t, k);
  }

  lemma BehindPlace(list: seq<Tid>, t: Tid, prio: Tid -> nat)
    requires Sorted(list, prio)
    ensures forall j :: PrioPlace(list, t, prio) <= j < |list| ==> prio(t) < prio(list[j])
  {
    hide PrioPlace;
  }

  lemma InsertedSplit(list: seq<Tid>, t: Tid, k: nat)
    requires k <= |list|
    ensures
      var r := list[..k] + [t] + list[k..];
      r[k] == t && r[..k] + r[k + 1..] == list
  {}

  lemma InsertedSorted(list: seq<Tid>, t: Tid, prio: Tid -> nat, k: nat)
    requires Sorted(list, prio) && k <= |list|
    requires forall j :: 0 <= j < k ==> prio(list[j]) <= prio(t)
    requires forall j :: k <= j < |list| ==> prio(t) < prio(list[j])
    ensures Sorted(list[..k] + [t] + list[k..], prio)
  {
    var r := list[..k] + [t] + list[k..];
    assert forall x :: 0 <= x < |r| ==> r[x] == if x < k then list[x] else if x == k then t else list[x - 1];
  }

  lemma WithoutSorted(list: seq<Tid>, t: Tid, prio: Tid -> nat)
    requires Sorted(list, prio)
    ensures Sorted(Without(list, t), prio)
  {
    forall i, j | 0 <= i < j < |Without(list, t)| ensures prio(Without(list, t)[i]) <= prio(Without(list, t)[j]) {
      var x, y := WithoutOrder(list, t, i, j);
    }
  }

  lemma EnqueueMembers(list: seq<Tid>, t: Tid, flag: Flag, prio: Tid -> nat)
    requires Distinct(list) && t !in list
    ensures Distinct(Enqueue(list, t, flag, prio))
    ensures forall u :: u in Enqueue(list, t, flag, prio) <==> u in list || u == t
  {
    var k := if flag.Fifo? then |list| else PrioPlace(list, t, prio);
    var r := Enqueue(list, t, flag, prio);
    assert r == list[..k] + [t] + list[k..];
    forall u ensures u in r <==> u in list || u == t {
      assert u in list <==> u in list[..k] || u in list[k..];
    }
  }

  // ----- whose turn it is -----

  // a is served before b: the one that has waited longer, in a priority list among equals. 'since'
  // holds the times at which the threads blocked.
  ghost predicate Before(a: Tid, b: Tid, flag: Flag, prio: Tid -> nat, since: map<Tid, nat>) {
    && a in since && b in since
    && if flag.Fifo? then since[a] < since[b] else prio(a) < prio(b) || (prio(a) == prio(b) && since[a] < since[b])
  }

  // The list holds exactly the threads of 'since', which all blocked before 'now', in their turn.
  ghost predicate InTurn(list: seq<Tid>, flag: Flag, prio: Tid -> nat, since: map<Tid, nat>, now: nat) {
    && Distinct(list)
    && (forall t :: t in list <==> t in since)
    && (forall t :: t in since ==> since[t] < now)
    && (forall i, j :: 0 <= i < j < |list| ==> Before(list[i], list[j], flag, prio, since))
  }

  lemma EnqueueInTurn(list: seq<Tid>, t: Tid, flag: Flag, prio: Tid -> nat, since: map<Tid, nat>, now: nat)
    requires InTurn(list, flag, prio, since, now) && t !in list
    ensures InTurn(Enqueue(list, t, flag, prio), flag, prio, since[t := now], now + 1)
  {
    hide Distinct;
    var k := if flag.Fifo? then |list| else PrioPlace(list, t, prio);
    EnqueueMembers(list, t, flag, prio);
    if flag.Prio? { LessUrgentBehind(list, t, prio, since, now); }
    InsertedInTurn(list, t, k, flag, prio, since, now);
  }

  lemma LessUrgentBehind(list: seq<Tid>, t: Tid, prio: Tid -> nat, since: map<Tid, nat>, now: nat)
    requires InTurn(list, Prio, prio, since, now)
    ensures forall j :: PrioPlace(list, t, prio) <= j < |list| ==> prio(t) < prio(list[j])
  {
    hide Distinct;
    var k := PrioPlace(list, t, prio);
    forall j | k <= j < |list| ensures prio(t) < prio(list[j]) {
      assert j > k ==> Before(list[k], list[j], Prio, prio, since);
    }
  }

  lemma InsertedInTurn(
    list: seq<Tid>, t: Tid, k: nat, flag: Flag, prio: Tid -> nat, since: map<Tid, nat>, now: nat)
    requires InTurn(list, flag, prio, since, now) && t !in list && k <= |list|
    requires if flag.Fifo? then k == |list|
             else (forall j :: 0 <= j < k ==> prio(list[j]) <= prio(t)) &&
                  (forall j :: k <= j < |list| ==> prio(t) < prio(list[j]))
    ensures
      var r := list[..k] + [t] + list[k..];
      forall i, j :: 0 <= i < j < |r| ==> Before(r[i], r[j], flag, prio, since[t := now])
  {
    hide Distinct;
    var r := list[..k] + [t] + list[k..];
    assert forall x :: 0 <= x < |r| ==> r[x] == if x < k then list[x] else if x == k then t else list[x - 1];
  }

  lemma TailInTurn(list: seq<Tid>, flag: Flag, prio: Tid -> nat, since: map<Tid, nat>, now: nat)
    requires InTurn(list, flag, prio, since, now) && list != []
    ensures InTurn(list[1..], flag, prio, since - {list[0]}, now + 1)
    ensures forall u :: u in list && u != list[0] ==> Before(list[0], u, flag, prio, since)
  {
    DistinctTail(list);
    assert forall u :: u in list <==> u == list[0] || u in list[1..];
    assert forall i :: 0 <= i < |list[1..]| ==> list[1..][i] == list[i + 1];
  }

  lemma WithoutInTurn(list: seq<Tid>, t: Tid, flag: Flag, prio: Tid -> nat, since: map<Tid, nat>, now: nat)
    requires InTurn(list, flag, prio, since, now)
    ensures InTurn(Without(list, t), flag, prio, since - {t}, now + 1)
  {
    var r := Without(list, t);
    forall i, j | 0 <= i < j < |r| ensures Before(r[i], r[j], flag, prio, since - {t}) {
      var x, y := WithoutOrder(list, t, i, j);
      assert r[i] in r && r[j] in r && Before(list[x], list[y], flag, prio, since);
    }
  }

  lemma LaterInTurn(list: seq<Tid>, flag: Flag, prio: Tid -> nat, since: map<Tid, nat>, now: nat, later: nat)
    requires InTurn(list, flag, prio, since, now) && now <= later
    ensures InTurn(list, flag, prio, since, later)
  {}

  lemma TurnMembers(list: seq<Tid>, flag: Flag, prio: Tid -> nat, since: map<Tid, nat>, now: nat)
    requires InTurn(list, flag, prio, since, now)
    ensures Distinct(list) && forall t :: t in list <==> t in since
  {}

  lemma NobodyInTurn(flag: Flag, prio: Tid -> nat, now: nat)
    ensures InTurn([], flag, prio, map[], now)
  {}

  lemma LeavesInTurn(
    list: seq<Tid>, t: Tid, flag: Flag, prio: Tid -> nat, since: map<Tid, nat>, after: map<Tid, nat>, now: nat)
    requires InTurn(list, flag, prio, since, now) && after == map u | u in since && u in Without(list, t) :: since[u]
    ensures InTurn(Without(list, t), flag, prio, after, now + 1)
  {
    hide InTurn, Before, Without, Distinct;
    TurnMembers(list, flag, prio, since, now);
    WithoutInTurn(list, t, flag, prio, since, now);
    assert after == since - {t};
  }

  // Without a newcomer: nobody is left, all are, or t is taken out.
  lemma LessInTurn(
    list: seq<Tid>, r: seq<Tid>, t: Tid, flag: Flag, prio: Tid -> nat, since: map<Tid, nat>,
    after: map<Tid, nat>, now: nat)
    requires InTurn(list, flag, prio, since, now) && after == map u | u in since && u in r :: since[u]
    requires r == [] || r == list || r == Without(list, t)
    ensures InTurn(r, flag, prio, after, now + 1)
  {
    hide InTurn, Without, Distinct;
    if r == [] {
      assert after == map[];
      NobodyInTurn(flag, prio, now + 1);
    } else if r == list {
      TurnMembers(list, flag, prio, since, now);
      assert after == since;
      LaterInTurn(list, flag, prio, since, now, now + 1);
    } else {
      LeavesInTurn(list, t, flag, prio, since, after, now);
    }
  }

  // rt_ipc_list_suspend on the list itself
  method ListSuspend(list: seq<Tid>, t: Tid, flag: Flag, prio: Tid -> nat) returns (r: seq<Tid>)
    ensures r == Enqueue(list, t, flag, prio)
  {
    match flag
    case Fifo => r := list + [t];
    case Prio =>
      var n := 0;
      while n < |list| && !(prio(t) < prio(list[n]))
        invariant n <= |list|
        invariant PrioPlace(list, t, prio) == n + PrioPlace(list[n..], t, prio)
      {
        n := n + 1;
      }
      r := list[..n] + [t] + list[n..];
  }
}

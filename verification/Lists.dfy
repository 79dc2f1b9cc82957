// Lists without repetition, and sizes of sets.
module Lists {
  ghost predicate Distinct(list: seq<nat>) {
    forall i, j :: 0 <= i < j < |list| ==> list[i] != list[j]
  }

  lemma DistinctTail(list: seq<nat>)
    requires list != []
    ensures Distinct(list) ==> Distinct(list[1..]) && list[0] !in list[1..]
  {
    if Distinct(list) {
      forall i, j | 0 <= i < j < |list[1..]| ensures list[1..][i] != list[1..][j] {
        assert list[i + 1] != list[j + 1];
      }
    }
  }

  lemma DistinctConcat(a: seq<nat>, b: seq<nat>)
    requires Distinct(a) && Distinct(b)
    requires forall n :: n in a ==> n !in b
    ensures Distinct(a + b)
  {
    forall i, j | 0 <= i < j < |a + b| ensures (a + b)[i] != (a + b)[j] {
      if i < |a| <= j { assert a[i] in a && b[j - |a|] in b; }
    }
  }

  // rt_list_remove of the node of t
  function Without(list: seq<nat>, t: nat): (r: seq<nat>)
    ensures forall u :: u in r <==> u in list && u != t
    ensures Distinct(list) ==> Distinct(r)
  {
    if list == [] then []
    else
      assert forall u :: u in list <==> u == list[0] || u in list[1..];
      assert Distinct(list) ==> Distinct(list[1..]) && list[0] !in list[1..] by { DistinctTail(list); }
      var r := Without(list[1..], t);
      if list[0] == t then r else [list[0]] + r
  }

  lemma {:induction false} WithoutAbsent(list: seq<nat>, t: nat)
    requires t !in list
    ensures Without(list, t) == list
  {
    if list != [] {
      assert list[0] in list;
      WithoutAbsent(list[1..], t);
    }
  }

  lemma WithoutHead(list: seq<nat>)
    requires Distinct(list) && list != []
    ensures Without(list, list[0]) == list[1..]
  {
    DistinctTail(list);
    WithoutAbsent(list[1..], list[0]);
  }

  lemma {:induction false} WithoutAt(list: seq<nat>, k: nat)
    requires Distinct(list) && k < |list|
    ensures Without(list, list[k]) == list[..k] + list[k + 1..]
  {
    if k == 0 {
      WithoutHead(list);
    } else {
      DistinctTail(list);
      WithoutAt(list[1..], k - 1);
      assert [list[0]] + (list[1..][..k - 1] + list[1..][k..]) == list[..k] + list[k + 1..];
    }
  }

  // What remains is in the order of before.
  lemma {:induction false} WithoutOrder(list: seq<nat>, t: nat, i: nat, j: nat) returns (x: nat, y: nat)
    requires i < j < |Without(list, t)|
    ensures x < y < |list| && list[x] == Without(list, t)[i] && list[y] == Without(list, t)[j]
  {
    var rest := Without(list[1..], t);
    if list[0] == t {
      x, y := WithoutOrder(list[1..], t, i, j);
      x, y := x + 1, y + 1;
    } else if i > 0 {
      x, y := WithoutOrder(list[1..], t, i - 1, j - 1);
      x, y := x + 1, y + 1;
    } else {
      assert rest[j - 1] in rest;
      x := 0;
      y :| 0 < y < |list| && list[y] == rest[j - 1];
    }
  }

  function Elements(list: seq<nat>): set<nat> { set b | b in list }

  lemma {:induction false} DistinctSize(list: seq<nat>)
    requires Distinct(list)
    ensures |Elements(list)| == |list|
  {
    if list == [] {
      assert Elements(list) == {};
    } else {
      DistinctTail(list);
      DistinctSize(list[1..]);
      assert Elements(list) == Elements(list[1..]) + {list[0]};
    }
  }

  // ----- Sizes of sets -----

  lemma SubsetSize<T>(a: set<T>, b: set<T>)
    requires a <= b
    ensures |a| <= |b| && (|a| == |b| ==> a == b)
  {
    assert b == a + (b - a);
    assert |b| == |a| + |b - a|;
  }

  lemma RemoveOne<T>(s: set<T>, t: T)
    ensures |s - {t}| == |s| - (if t in s then 1 else 0)
  {
    if t !in s { assert s - {t} == s; }
  }

  lemma AddOne<T>(s: set<T>, t: T)
    ensures |s + {t}| == |s| + (if t in s then 0 else 1)
  {
    if t in s { assert s + {t} == s; }
  }
}

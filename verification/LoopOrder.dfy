// The order in which the dependency check finishes symbols and choices, and what it means that
// nothing has been reported.
module LoopOrder {
  import opened Options
  import opened KconfigModel
  import opened LoopCheck
  import opened LoopReports

  // A choice and its symbols go together.
  function Block(g: Graph, x: Item): Item {
    if x.SymItem? && x.sym < |g.choice| && g.choice[x.sym].Some? then ChoiceItem(g.choice[x.sym].value) else x
  }

  predicate Within(g: Graph, s: nat, x: Item) { x == SymItem(s) || (x.ChoiceItem? && Block(g, SymItem(s)) == x) }

  // What depends on the symbols of an item was finished before it, with all that goes with it.
  ghost predicate DependentsFirst(g: Graph, done: seq<Item>) {
    forall i, s: nat, y | 0 <= i < |done| && s < |g.deps| && Within(g, s, done[i]) && y in g.deps[s] ::
      Block(g, y) in done[..i]
  }

  // s has been searched on behalf of its choice, which is still being searched.
  ghost predicate Passed(g: Graph, trail: seq<Frame>, p: nat, s: nat) {
    && p < |trail| && trail[p].InChoice? && Block(g, SymItem(s)) == ChoiceItem(trail[p].choice)
    && trail[p].choice < |g.members| && trail[p].at <= |g.members[trail[p].choice]|
    && s in g.members[trail[p].choice][..trail[p].at]
  }

  ghost predicate BlockDone(g: Graph, trail: seq<Frame>, k: Colors, s: nat) {
    Block(g, SymItem(s)) in k.done || exists p: nat :: Passed(g, trail, p, s)
  }

  ghost predicate OrderOk(g: Graph, trail: seq<Frame>, k: Colors) {
    DependentsFirst(g, k.done) && forall s: nat | SymItem(s) in k.done :: BlockDone(g, trail, k, s)
  }

  ghost predicate DepsOut(g: Graph, s: nat, j: nat, done: seq<Item>)
    requires s < |g.deps| && j <= |g.deps[s]|
  {
    forall i | 0 <= i < j :: Block(g, g.deps[s][i]) in done
  }

  function Advanced(trail: seq<Frame>): seq<Frame>
    requires trail != [] && trail[0].InChoice?
  {
    [InChoice(trail[0].choice, trail[0].at + 1)] + trail[1..]
  }

  // A deeper call, or a place further on, loses nothing.
  lemma PassedDeeper(g: Graph, trail: seq<Frame>, e: Frame, k: Colors)
    requires OrderOk(g, trail, k)
    ensures OrderOk(g, [e] + trail, Open(k, ItemOf(e)))
  {
    hide DependentsFirst;
    forall s: nat | SymItem(s) in k.done ensures BlockDone(g, [e] + trail, Open(k, ItemOf(e)), s) {
      if p: nat :| Passed(g, trail, p, s) { assert Passed(g, [e] + trail, p + 1, s); }
    }
  }

  lemma PassedFurther(g: Graph, c: nat, i: nat, j: nat, trail: seq<Frame>, k: Colors)
    requires OrderOk(g, [InChoice(c, i)] + trail, k) && i <= j && c < |g.members| && j <= |g.members[c]|
    ensures OrderOk(g, [InChoice(c, j)] + trail, k)
  {
    hide DependentsFirst;
    forall s: nat | SymItem(s) in k.done ensures BlockDone(g, [InChoice(c, j)] + trail, k, s) {
      if p: nat :| Passed(g, [InChoice(c, i)] + trail, p, s) {
        if p == 0 { assert g.members[c][..i] <= g.members[c][..j]; }
        assert Passed(g, [InChoice(c, j)] + trail, p, s);
      }
    }
  }

  // If a finished symbol is met again while its choice is being searched, a later symbol of the
  // choice leads back to it.
  lemma MetAgain(g: Graph, trail: seq<Frame>, k: Colors, s: nat, p: nat)
    requires GraphOk(g) && TrailOk(g, trail, k) && SymItem(s) in k.done && Passed(g, trail, p, s)
    requires 0 < p && Edge(g, ItemOf(trail[0]), SymItem(s))
    ensures Backward(g)
  {
    var c, at := trail[p].choice, trail[p].at;
    var i :| 0 <= i < at && g.members[c][..at][i] == s;
    var path := [SymItem(s)] + ItemsOf(trail)[..p];
    assert Called(g, trail[p], trail[p - 1]);
    forall n, m | 0 <= n < m < |path| ensures path[n] != path[m] {
      assert path[m] == ItemsOf(trail)[m - 1];
      if n > 0 { assert path[n] == ItemsOf(trail)[n - 1]; }
    }
    forall n | 0 < n < |path| ensures Edge(g, path[n], path[n - 1]) {
      if n > 1 { assert Called(g, trail[n - 1], trail[n - 2]); }
    }
    assert ItemsOf(trail)[p] == ChoiceItem(c);
    assert LeadsBack(g, c, i, at, path);
  }

  lemma DoneMeansBlock(g: Graph, trail: seq<Frame>, k: Colors, s: nat)
    requires GraphOk(g) && !Backward(g) && TrailOk(g, trail, k) && OrderOk(g, trail, k) && SymItem(s) in k.done
    requires trail != [] ==> trail[0].InSym? && Edge(g, ItemOf(trail[0]), SymItem(s))
    ensures Block(g, SymItem(s)) in k.done
  {
    hide TrailOk, Edge, Passed, DependentsFirst, Backward;
    assert BlockDone(g, trail, k, s);
    if Block(g, SymItem(s)) !in k.done {
      var p: nat :| Passed(g, trail, p, s);
      InTrail(g, trail, p, s);
      MetAgain(g, trail, k, s, p);
    }
  }

  lemma InTrail(g: Graph, trail: seq<Frame>, p: nat, s: nat)
    requires Passed(g, trail, p, s)
    ensures p < |trail| && trail[p].InChoice?
  {}

  lemma FinishSym(g: Graph, s: nat, trail: seq<Frame>, after: seq<Frame>, k: Colors)
    requires GraphOk(g) && s < |g.deps| && OrderOk(g, [InSym(s)] + trail, k) && DepsOut(g, s, |g.deps[s]|, k.done)
    requires OrderOk(g, trail, k) ==> OrderOk(g, after, k)
    requires BlockDone(g, after, Close(k, SymItem(s)), s)
    ensures OrderOk(g, after, Close(k, SymItem(s)))
  {
    PassedShallower(g, InSym(s), trail, k);
    assert OrderOk(g, after, k);
    FinishedFirst(g, k.done, SymItem(s));
    forall t: nat | SymItem(t) in Close(k, SymItem(s)).done ensures BlockDone(g, after, Close(k, SymItem(s)), t) {
      if t != s { assert BlockDone(g, after, k, t); }
    }
  }

  lemma PassedShallower(g: Graph, e: Frame, trail: seq<Frame>, k: Colors)
    requires OrderOk(g, [e] + trail, k) && e.InSym?
    ensures OrderOk(g, trail, k)
  {
    hide DependentsFirst;
    forall s: nat | SymItem(s) in k.done ensures BlockDone(g, trail, k, s) {
      assert BlockDone(g, [e] + trail, k, s);
      if p: nat :| Passed(g, [e] + trail, p, s) { assert Passed(g, trail, p - 1, s); }
    }
  }

  lemma FinishedFirst(g: Graph, done: seq<Item>, x: Item)
    requires DependentsFirst(g, done)
    requires forall s: nat, y | s < |g.deps| && Within(g, s, x) && y in g.deps[s] :: Block(g, y) in done
    ensures DependentsFirst(g, done + [x])
  {
    forall i, s: nat, y | 0 <= i < |done + [x]| && s < |g.deps| && Within(g, s, (done + [x])[i]) && y in g.deps[s]
      ensures Block(g, y) in (done + [x])[..i]
    {
      if i < |done| { assert (done + [x])[..i] == done[..i]; } else { assert (done + [x])[..i] == done; }
    }
  }

  // The trail once symbol s has been searched: its choice goes on to the next one.
  function After(ignore: bool, trail: seq<Frame>): seq<Frame> {
    if ignore && trail != [] && trail[0].InChoice? then Advanced(trail) else trail
  }

  // A symbol is called for by a symbol it depends on, or by its choice.
  ghost predicate SymCall(g: Graph, s: nat, ignore: bool, trail: seq<Frame>) {
    && CanCall(g, trail, InSym(s))
    && if ignore then trail != [] && trail[0].InChoice? && Block(g, SymItem(s)) == ChoiceItem(trail[0].choice)
       else trail == [] || trail[0].InSym?
  }

  lemma AdvancedOk(g: Graph, s: nat, ignore: bool, trail: seq<Frame>, k: Colors)
    requires SymCall(g, s, ignore, trail) && OrderOk(g, trail, k)
    ensures OrderOk(g, After(ignore, trail), k)
  {
    if ignore {
      assert trail == [trail[0]] + trail[1..];
      PassedFurther(g, trail[0].choice, trail[0].at, trail[0].at + 1, trail[1..], k);
    }
  }

  lemma PassedNow(g: Graph, s: nat, trail: seq<Frame>, k: Colors)
    requires SymCall(g, s, true, trail)
    ensures BlockDone(g, After(true, trail), k, s)
  {
    var c, at := trail[0].choice, trail[0].at;
    assert g.members[c][..at + 1][at] == s;
    assert Passed(g, Advanced(trail), 0, s);
  }

  lemma {:induction false} SymOrders(g: Graph, s: nat, ignore: bool, trail: seq<Frame>, k: Colors)
    requires GraphOk(g) && !Backward(g) && s < |g.deps| && SymCall(g, s, ignore, trail)
    requires TrailOk(g, trail, k) && OrderOk(g, trail, k) && SearchSym(g, s, ignore, k).0 == Clear
    ensures
      var e := SearchSym(g, s, ignore, k).1;
      OrderOk(g, After(ignore, trail), e) && SymItem(s) in e.done && (!ignore ==> Block(g, SymItem(s)) in e.done)
    decreases Unseen(g, k), 0, 0
  {
    hide TrailOk, OrderOk, Depends, Edge, Called, SearchSym, SearchDeps, SearchChoice, SymCall, After, Backward;
    SymUnfolds(g, s, ignore, k);
    AdvancedOk(g, s, ignore, trail, k);
    var x := SymItem(s);
    if x in k.done {
      if !ignore { CalledFor(g, s, trail); DoneMeansBlock(g, trail, k, s); }
    } else {
      CanBeCalled(g, s, ignore, trail);
      Pushed(g, trail, k, InSym(s));
      PassedDeeper(g, trail, InSym(s), k);
      FewerUnseen(g, k, Open(k, x));
      var a := SearchDeps(g, s, 0, Open(k, x));
      var _ := DepsAreSound(g, s, 0, trail, Open(k, x));
      DepsOrders(g, s, 0, trail, Open(k, x));
      if ignore || g.choice[s].None? {
        LastPart(g, s, ignore, trail, a.1);
      } else {
        var c := g.choice[s].value;
        FewerUnseen(g, Open(k, x), a.1);
        EntersChoice(g, s, trail);
        ChoiceOrders(g, c, Some(s), [InSym(s)] + trail, a.1);
        DepsStay(g, s, a.1.done, SearchChoice(g, c, Some(s), a.1).1.done);
        LastPart(g, s, ignore, trail, SearchChoice(g, c, Some(s), a.1).1);
      }
    }
  }

  lemma CalledFor(g: Graph, s: nat, trail: seq<Frame>)
    requires SymCall(g, s, false, trail)
    ensures trail != [] ==> trail[0].InSym? && Edge(g, ItemOf(trail[0]), SymItem(s))
  {}

  lemma CanBeCalled(g: Graph, s: nat, ignore: bool, trail: seq<Frame>)
    requires SymCall(g, s, ignore, trail)
    ensures CanCall(g, trail, InSym(s))
  {}

  lemma DepsStay(g: Graph, s: nat, done: seq<Item>, more: seq<Item>)
    requires s < |g.deps| && DepsOut(g, s, |g.deps[s]|, done) && done <= more
    ensures DepsOut(g, s, |g.deps[s]|, more)
  {}

  lemma LastPart(g: Graph, s: nat, ignore: bool, trail: seq<Frame>, k: Colors)
    requires GraphOk(g) && s < |g.deps| && OrderOk(g, [InSym(s)] + trail, k) && SymCall(g, s, ignore, trail)
    requires DepsOut(g, s, |g.deps[s]|, k.done) && (!ignore && g.choice[s].Some? ==> Block(g, SymItem(s)) in k.done)
    ensures
      var e := Close(k, SymItem(s));
      OrderOk(g, After(ignore, trail), e) && SymItem(s) in e.done && (!ignore ==> Block(g, SymItem(s)) in e.done)
  {
    hide OrderOk, SymCall;
    PassedShallower(g, InSym(s), trail, k);
    AdvancedOk(g, s, ignore, trail, k);
    if ignore { PassedNow(g, s, trail, Close(k, SymItem(s))); }
    FinishSym(g, s, trail, After(ignore, trail), k);
  }

  lemma DepCall(g: Graph, s: nat, j: nat, trail: seq<Frame>)
    requires GraphOk(g) && s < |g.deps| && j < |g.deps[s]|
    ensures
      var y, t := g.deps[s][j], [InSym(s)] + trail;
      && Known(g, y) && (y.ChoiceItem? ==> CanCall(g, t, InChoice(y.choice, 0)))
      && (y.SymItem? ==> SymCall(g, y.sym, false, t) && CanCall(g, t, InSym(y.sym)) && After(false, t) == t)
  {
    assert g.deps[s][j] in g.deps[s];
  }

  lemma {:induction false} DepsOrders(g: Graph, s: nat, j: nat, trail: seq<Frame>, k: Colors)
    requires GraphOk(g) && !Backward(g) && s < |g.deps| && j <= |g.deps[s]| && DepsOut(g, s, j, k.done)
    requires TrailOk(g, [InSym(s)] + trail, k) && OrderOk(g, [InSym(s)] + trail, k)
    requires SearchDeps(g, s, j, k).0 == Clear
    ensures
      var e := SearchDeps(g, s, j, k).1;
      OrderOk(g, [InSym(s)] + trail, e) && DepsOut(g, s, |g.deps[s]|, e.done)
    decreases Unseen(g, k), 1, |g.deps[s]| - j
  {
    hide TrailOk, OrderOk, Backward, SymReports, ChoiceReports, SymCall, CanCall, Depends, Edge, After, SearchSym,
      SearchChoice, SearchDeps;
    DepsStep(g, s, j, k);
    if j < |g.deps[s]| {
      var y, t := g.deps[s][j], [InSym(s)] + trail;
      DepCall(g, s, j, trail);
      var a := if y.ChoiceItem? then SearchChoice(g, y.choice, None, k) else SearchSym(g, y.sym, false, k);
      if y.ChoiceItem? {
        ChoiceIsSound(g, y.choice, None, t, k);
        ChoiceOrders(g, y.choice, None, t, k);
      } else {
        SymIsSound(g, y.sym, false, t, k);
        SymOrders(g, y.sym, false, t, k);
      }
      FewerUnseen(g, k, a.1);
      DepsOrders(g, s, j + 1, trail, a.1);
    }
  }

  lemma {:induction false} ChoiceOrders(g: Graph, c: nat, skip: Option<nat>, trail: seq<Frame>, k: Colors)
    requires GraphOk(g) && !Backward(g) && c < |g.members| && CanCall(g, trail, InChoice(c, 0))
    requires skip.Some? ==> skip.value < |g.deps| && DepsOut(g, skip.value, |g.deps[skip.value]|, k.done)
    requires TrailOk(g, trail, k) && OrderOk(g, trail, k) && SearchChoice(g, c, skip, k).0 == Clear
    ensures
      var e := SearchChoice(g, c, skip, k).1;
      OrderOk(g, trail, e) && ChoiceItem(c) in e.done
    decreases Unseen(g, k), 0, 0
  {
    hide TrailOk, OrderOk, Depends, Edge, Called, SearchChoice, SearchMembers, Backward;
    ChoiceUnfolds(g, c, skip, k);
    var x := ChoiceItem(c);
    if x !in k.done {
      Pushed(g, trail, k, InChoice(c, 0));
      PassedDeeper(g, trail, InChoice(c, 0), k);
      FewerUnseen(g, k, Open(k, x));
      MembersOrders(g, c, skip, 0, trail, Open(k, x));
      var a := SearchMembers(g, c, skip, 0, Open(k, x));
      if skip.Some? { DepsStay(g, skip.value, k.done, a.1.done); }
      FinishChoice(g, c, skip, trail, a.1);
    }
  }

  ghost predicate MembersDone(g: Graph, c: nat, skip: Option<nat>, j: nat, done: seq<Item>)
    requires c < |g.members| && j <= |g.members[c]|
  {
    forall i | 0 <= i < j :: skip == Some(g.members[c][i]) || SymItem(g.members[c][i]) in done
  }

  lemma MemberCall(g: Graph, c: nat, j: nat, trail: seq<Frame>)
    requires GraphOk(g) && c < |g.members| && j < |g.members[c]|
    ensures
      var s, t := g.members[c][j], [InChoice(c, j)] + trail;
      SymCall(g, s, true, t) && CanCall(g, t, InSym(s)) && After(true, t) == [InChoice(c, j + 1)] + trail
  {
    IsMember(g, c, g.members[c][j]);
  }

  lemma MembersStay(g: Graph, c: nat, skip: Option<nat>, j: nat, done: seq<Item>, more: seq<Item>)
    requires c < |g.members| && j < |g.members[c]| && MembersDone(g, c, skip, j, done) && done <= more
    requires skip == Some(g.members[c][j]) || SymItem(g.members[c][j]) in more
    ensures MembersDone(g, c, skip, j + 1, more)
  {}

  lemma {:induction false} MembersOrders(g: Graph, c: nat, skip: Option<nat>, j: nat, trail: seq<Frame>, k: Colors)
    requires GraphOk(g) && !Backward(g) && c < |g.members| && j <= |g.members[c]| && MembersDone(g, c, skip, j, k.done)
    requires TrailOk(g, [InChoice(c, 0)] + trail, k) && OrderOk(g, [InChoice(c, j)] + trail, k)
    requires SearchMembers(g, c, skip, j, k).0 == Clear
    ensures
      var e := SearchMembers(g, c, skip, j, k).1;
      OrderOk(g, [InChoice(c, |g.members[c]|)] + trail, e) && MembersDone(g, c, skip, |g.members[c]|, e.done)
    decreases Unseen(g, k), 1, |g.members[c]| - j
  {
    hide TrailOk, OrderOk, Backward, SearchSym, SearchMembers, MembersDone, SymCall, CanCall, Edge, After, SymReports;
    MembersStep(g, c, skip, j, k);
    if j < |g.members[c]| {
      var s, t := g.members[c][j], [InChoice(c, j)] + trail;
      IsMember(g, c, s);
      if skip == Some(s) {
        PassedFurther(g, c, j, j + 1, trail, k);
        MembersStay(g, c, skip, j, k.done, k.done);
        MembersOrders(g, c, skip, j + 1, trail, k);
      } else {
        var a := SearchSym(g, s, true, k);
        Moved(g, trail, k, c, 0, j);
        MemberCall(g, c, j, trail);
        SymIsSound(g, s, true, t, k);
        SymOrders(g, s, true, t, k);
        FewerUnseen(g, k, a.1);
        Moved(g, trail, a.1, c, j, 0);
        MembersStay(g, c, skip, j, k.done, a.1.done);
        MembersOrders(g, c, skip, j + 1, trail, a.1);
      }
    }
  }

  lemma FinishChoice(g: Graph, c: nat, skip: Option<nat>, trail: seq<Frame>, k: Colors)
    requires GraphOk(g) && c < |g.members| && OrderOk(g, [InChoice(c, |g.members[c]|)] + trail, k)
    requires MembersDone(g, c, skip, |g.members[c]|, k.done)
    requires skip.Some? ==> skip.value < |g.deps| && DepsOut(g, skip.value, |g.deps[skip.value]|, k.done)
    ensures OrderOk(g, trail, Close(k, ChoiceItem(c)))
  {
    var x := ChoiceItem(c);
    forall s: nat, y | s < |g.deps| && Within(g, s, x) && y in g.deps[s] ensures Block(g, y) in k.done {
      var i :| 0 <= i < |g.members[c]| && g.members[c][i] == s;
      if skip != Some(s) {
        var d :| 0 <= d < |k.done| && k.done[d] == SymItem(s);
        assert Block(g, y) in k.done[..d];
      }
    }
    FinishedFirst(g, k.done, x);
    forall s: nat | SymItem(s) in Close(k, x).done ensures BlockDone(g, trail, Close(k, x), s) {
      assert BlockDone(g, [InChoice(c, |g.members[c]|)] + trail, k, s);
      if p: nat :| Passed(g, [InChoice(c, |g.members[c]|)] + trail, p, s) {
        if p > 0 { assert Passed(g, trail, p - 1, s); }
      }
    }
  }

  // ----- What a search without a report means -----

  function IndexIn(done: seq<Item>, x: Item): (k: nat)
    requires x in done
    ensures k < |done| && done[k] == x
  {
    if done[0] == x then 0 else 1 + IndexIn(done[1..], x)
  }

  // Everything has been finished, what depends on an item before it.
  ghost predicate Ordered(g: Graph, done: seq<Item>) {
    && GraphOk(g) && Apart(done) && DependentsFirst(g, done) && (forall x | x in done :: Known(g, x))
    && forall s: nat | s < |g.deps| :: Block(g, SymItem(s)) in done
  }

  // The place of an item, or of its choice, in that order
  ghost function Place(g: Graph, done: seq<Item>, x: Item): int {
    if Block(g, x) in done then IndexIn(done, Block(g, x)) else -1
  }

  lemma PlaceIs(g: Graph, done: seq<Item>, x: Item, i: nat)
    requires Apart(done) && i < |done| && done[i] == Block(g, x)
    ensures Place(g, done, x) == i
  {}

  lemma DependsGoesDown(g: Graph, done: seq<Item>, x: Item, y: Item)
    requires Ordered(g, done) && Depends(g, x, y)
    ensures Place(g, done, y) < Place(g, done, x)
  {
    var i := IndexIn(done, Block(g, x));
    assert Within(g, x.sym, done[i]) && y in g.deps[x.sym];
    assert Block(g, y) in done[..i];
    var j :| 0 <= j < i && done[..i][j] == Block(g, y);
    PlaceIs(g, done, x, i);
    PlaceIs(g, done, y, j);
  }

  lemma InnerStays(g: Graph, done: seq<Item>, x: Item, y: Item)
    requires Ordered(g, done) && Inner(g, x, y)
    ensures Place(g, done, y) == Place(g, done, x) && Block(g, y) == Block(g, x) && x.SymItem? == y.ChoiceItem?
  {
    if x.ChoiceItem? { IsMember(g, x.choice, y.sym); }
  }

  lemma EdgeNotUp(g: Graph, done: seq<Item>, x: Item, y: Item)
    requires Ordered(g, done) && Edge(g, x, y)
    ensures Place(g, done, y) <= Place(g, done, x)
    ensures Place(g, done, y) == Place(g, done, x) ==> Inner(g, x, y)
  {
    if Depends(g, x, y) { DependsGoesDown(g, done, x, y); } else { InnerStays(g, done, x, y); }
  }

  lemma {:induction false} PathNotUp(g: Graph, done: seq<Item>, path: seq<Item>, i: nat, j: nat)
    requires Ordered(g, done) && BackPath(g, path) && i <= j < |path|
    ensures Place(g, done, path[i]) <= Place(g, done, path[j])
    decreases j
  {
    if i < j {
      EdgeNotUp(g, done, path[j], path[j - 1]);
      PathNotUp(g, done, path, i, j - 1);
    }
  }

  lemma NoCycle(g: Graph, done: seq<Item>, path: seq<Item>)
    requires Ordered(g, done)
    ensures !Cycle(g, path)
  {
    if Cycle(g, path) {
      var last := |path| - 1;
      EdgeNotUp(g, done, path[0], path[last]);
      PathNotUp(g, done, path, 0, last);
      assert Inner(g, path[0], path[last]);
      InnerStays(g, done, path[0], path[last]);
      if last == 1 {
        if Depends(g, path[0], path[1]) { DependsGoesDown(g, done, path[0], path[1]); }
        else { DependsGoesDown(g, done, path[1], path[0]); }
      } else {
        InnerStep(g, done, path, 1);
        InnerStep(g, done, path, last);
      }
    }
  }

  lemma InnerStep(g: Graph, done: seq<Item>, path: seq<Item>, i: nat)
    requires Ordered(g, done) && Cycle(g, path) && 0 < i < |path|
    requires Place(g, done, path[|path| - 1]) <= Place(g, done, path[0])
    ensures Inner(g, path[i], path[i - 1]) && Block(g, path[i]) == Block(g, path[i - 1])
    ensures path[i].SymItem? == path[i - 1].ChoiceItem?
  {
    PathNotUp(g, done, path, 0, i - 1);
    PathNotUp(g, done, path, i, |path| - 1);
    EdgeNotUp(g, done, path[i], path[i - 1]);
    InnerStays(g, done, path[i], path[i - 1]);
  }

  lemma OrderedIsAcyclic(g: Graph, done: seq<Item>)
    requires Ordered(g, done)
    ensures Acyclic(g)
  {
    forall path ensures !Cycle(g, path) {
      NoCycle(g, done, path);
    }
  }

  lemma BackwardIsCycle(g: Graph)
    requires GraphOk(g) && Backward(g)
    ensures !Acyclic(g)
  {
    var c: nat, i: nat, j: nat, path :| LeadsBack(g, c, i, j, path);
    var cycle := path + [ChoiceItem(c)];
    IsMember(g, c, g.members[c][i]);
    IsMember(g, c, g.members[c][j]);
    assert Edge(g, ChoiceItem(c), path[|path| - 1]) && Edge(g, path[0], ChoiceItem(c));
    assert Cycle(g, cycle);
  }

  lemma {:induction false} AllIsSound(g: Graph, s: nat, k: Colors)
    requires GraphOk(g) && s <= |g.deps| && TrailOk(g, [], k)
    ensures var r := SearchAll(g, s, k); r.0 == Clear || (r.0.Raised? && Cycle(g, r.0.path))
    decreases |g.deps| - s
  {
    hide SearchSym, TrailOk, Cycle;
    if s < |g.deps| {
      SymIsSound(g, s, false, [], k);
      if SearchSym(g, s, false, k).0 == Clear { AllIsSound(g, s + 1, SearchSym(g, s, false, k).1); }
    }
  }

  lemma {:induction false} AllOrders(g: Graph, s: nat, k: Colors)
    requires GraphOk(g) && !Backward(g) && s <= |g.deps| && TrailOk(g, [], k) && OrderOk(g, [], k)
    requires forall t: nat | t < s :: Block(g, SymItem(t)) in k.done
    requires SearchAll(g, s, k).0 == Clear
    ensures Ordered(g, SearchAll(g, s, k).1.done)
    decreases |g.deps| - s
  {
    hide Backward, TrailOk, OrderOk, SymReports, SearchSym, Block;
    if s < |g.deps| {
      var e := SearchSym(g, s, false, k).1;
      SymIsSound(g, s, false, [], k);
      SymOrders(g, s, false, [], k);
      forall t: nat | t < s + 1 ensures Block(g, SymItem(t)) in e.done {
        assert t < s ==> Block(g, SymItem(t)) in k.done;
      }
      AllOrders(g, s + 1, e);
    } else {
      IsOrdered(g, k);
    }
  }

  lemma IsOrdered(g: Graph, k: Colors)
    requires GraphOk(g) && TrailOk(g, [], k) && OrderOk(g, [], k)
    requires forall t: nat | t < |g.deps| :: Block(g, SymItem(t)) in k.done
    ensures Ordered(g, k.done)
  {}

  // What the check reports is a loop. If it reports none, there is none exactly if no symbol of a
  // choice leads to one listed before it.
  lemma CheckExact(g: Graph)
    requires GraphOk(g)
    ensures
      var r := SearchAll(g, 0, UNSEEN);
      && (r.0 == Clear || (r.0.Raised? && Cycle(g, r.0.path)))
      && (r.0 == Clear ==> (Acyclic(g) <==> !Backward(g)))
      && (r.0 == Clear && !Backward(g) ==> Ordered(g, r.1.done))
  {
    var r := SearchAll(g, 0, UNSEEN);
    assert TrailOk(g, [], UNSEEN) && OrderOk(g, [], UNSEEN);
    AllIsSound(g, 0, UNSEEN);
    if r.0 == Clear {
      if Backward(g) {
        BackwardIsCycle(g);
      } else {
        AllOrders(g, 0, UNSEEN);
        OrderedIsAcyclic(g, r.1.done);
      }
    }
  }
}

// What the dependency check reports is a loop.
module LoopReports {
  import opened Options
  import opened KconfigModel
  import opened LoopCheck

  // The calls under way, the last one first; a choice with the place in its list of symbols
  datatype Frame = InSym(sym: nat) | InChoice(choice: nat, at: nat)

  function ItemOf(f: Frame): Item { if f.InSym? then SymItem(f.sym) else ChoiceItem(f.choice) }

  function ItemsOf(trail: seq<Frame>): (r: seq<Item>)
    ensures |r| == |trail|
  {
    seq(|trail|, i requires 0 <= i < |trail| => ItemOf(trail[i]))
  }

  // The call f has made the call e.
  predicate Called(g: Graph, f: Frame, e: Frame) {
    && Edge(g, ItemOf(f), ItemOf(e))
    && (f.InChoice? ==> f.choice < |g.members| && f.at < |g.members[f.choice]| && e == InSym(g.members[f.choice][f.at]))
  }

  ghost predicate TrailOk(g: Graph, trail: seq<Frame>, k: Colors) {
    && Apart(ItemsOf(trail)) && Apart(k.done)
    && (forall x :: x in k.open <==> x in ItemsOf(trail))
    && (forall x | x in k.done :: x !in k.open && Known(g, x))
    && (forall i | 0 < i < |trail| :: Called(g, trail[i], trail[i - 1]))
  }

  // The search of x below the trail
  ghost predicate Reports(g: Graph, trail: seq<Frame>, x: Item, r: Search) {
    match r
    case Clear => true
    case Loop(path) =>
      && path != [] && path[|path| - 1] == x && path[0] in ItemsOf(trail)
      && Apart(path) && BackPath(g, path) && forall i | 0 < i < |path| :: path[i] !in ItemsOf(trail)
    case Raised(path) => Cycle(g, path)
  }

  // A loop of two that is only a symbol and its choice is not reported to the symbol.
  ghost predicate SymReports(g: Graph, s: nat, ignore: bool, trail: seq<Frame>, r: Search) {
    && Reports(g, trail, SymItem(s), r)
    && (ignore && r.Loop? && |r.path| == 2 && r.path[0].ChoiceItem? ==> Depends(g, SymItem(s), r.path[0]))
  }

  ghost predicate ChoiceReports(g: Graph, c: nat, skip: Option<nat>, trail: seq<Frame>, r: Search) {
    && Reports(g, trail, ChoiceItem(c), r)
    && (skip.Some? && r.Loop? && |r.path| == 2 ==> r.path[0] != SymItem(skip.value))
  }

  // A call can be made from the top of the trail.
  ghost predicate CanCall(g: Graph, trail: seq<Frame>, e: Frame) { trail != [] ==> Called(g, trail[0], e) }

  lemma Pushed(g: Graph, trail: seq<Frame>, k: Colors, e: Frame)
    requires TrailOk(g, trail, k) && CanCall(g, trail, e) && ItemOf(e) !in k.open && ItemOf(e) !in k.done
    ensures TrailOk(g, [e] + trail, Open(k, ItemOf(e)))
  {
    var t := [e] + trail;
    assert ItemsOf(t) == [ItemOf(e)] + ItemsOf(trail);
    forall i | 0 < i < |t| ensures Called(g, t[i], t[i - 1]) {
      if i > 1 { assert t[i] == trail[i - 1] && t[i - 1] == trail[i - 2]; }
    }
  }

  lemma Popped(g: Graph, trail: seq<Frame>, k: Colors, e: Frame)
    requires TrailOk(g, [e] + trail, k) && Known(g, ItemOf(e))
    ensures TrailOk(g, trail, Close(k, ItemOf(e)))
  {
    var t := [e] + trail;
    assert ItemsOf(t) == [ItemOf(e)] + ItemsOf(trail);
    forall i | 0 <= i < |trail| ensures ItemsOf(trail)[i] != ItemOf(e) {
      assert ItemsOf(t)[0] != ItemsOf(t)[i + 1];
    }
    forall i, j | 0 <= i < j < |trail| ensures ItemsOf(trail)[i] != ItemsOf(trail)[j] {
      assert ItemsOf(t)[i + 1] != ItemsOf(t)[j + 1];
    }
    forall i | 0 < i < |trail| ensures Called(g, trail[i], trail[i - 1]) {
      assert t[i + 1] == trail[i] && t[i] == trail[i - 1];
    }
    assert ItemOf(e) in ItemsOf(t);
  }

  // The place of the choice on top does not matter to the rest.
  lemma Moved(g: Graph, trail: seq<Frame>, k: Colors, c: nat, i: nat, j: nat)
    requires TrailOk(g, [InChoice(c, i)] + trail, k)
    ensures TrailOk(g, [InChoice(c, j)] + trail, k)
  {
    var t, u := [InChoice(c, i)] + trail, [InChoice(c, j)] + trail;
    assert ItemsOf(t) == ItemsOf(u);
    forall n | 0 < n < |u| ensures Called(g, u[n], u[n - 1]) {
      assert Called(g, t[n], t[n - 1]);
    }
  }

  // _found_dep_loop on the way back
  lemma FoundReports(g: Graph, trail: seq<Frame>, e: Frame, y: Item, r: Search)
    requires Reports(g, [e] + trail, y, r) && r != Clear && Edge(g, ItemOf(e), y) && ItemOf(e) !in ItemsOf(trail)
    requires r.Loop? && r.path[0] == ItemOf(e) && |r.path| == 2 ==>
               Depends(g, r.path[0], r.path[1]) || Depends(g, r.path[1], r.path[0])
    ensures Reports(g, trail, ItemOf(e), Found(r, ItemOf(e))) && Found(r, ItemOf(e)) != Clear
    ensures var f := Found(r, ItemOf(e)); f.Loop? ==> r.Loop? && f.path == r.path + [ItemOf(e)]
  {
    var x := ItemOf(e);
    assert ItemsOf([e] + trail) == [x] + ItemsOf(trail);
    if r.Loop? && x != r.path[0] {
      assert forall i | 0 < i < |r.path| :: r.path[i] != x;
      assert x in ItemsOf([e] + trail);
    }
  }

  lemma OpenReports(g: Graph, trail: seq<Frame>, k: Colors, x: Item)
    requires TrailOk(g, trail, k) && x in k.open
    ensures Reports(g, trail, x, Loop([x]))
  {}

  lemma {:induction false} SymIsSound(g: Graph, s: nat, ignore: bool, trail: seq<Frame>, k: Colors)
    requires GraphOk(g) && s < |g.deps| && TrailOk(g, trail, k) && CanCall(g, trail, InSym(s))
    ensures SymReports(g, s, ignore, trail, SearchSym(g, s, ignore, k).0)
    ensures SearchSym(g, s, ignore, k).0 == Clear ==> TrailOk(g, trail, SearchSym(g, s, ignore, k).1)
    decreases Unseen(g, k), 0, 0
  {
    hide TrailOk, Reports, SymReports, ChoiceReports, Depends, Edge, Found, Called, CanCall, SearchSym, SearchDeps,
      SearchChoice;
    SymUnfolds(g, s, ignore, k);
    ClearReports(g, s, ignore, trail);
    var x, e := SymItem(s), InSym(s);
    if x in k.open && x !in k.done {
      OpenReports(g, trail, k, x);
      OneReport(g, s, ignore, trail);
    }
    if x !in k.open && x !in k.done {
      Pushed(g, trail, k, e);
      NotOnTrail(g, trail, k, x);
      FewerUnseen(g, k, Open(k, x));
      var a := SearchDeps(g, s, 0, Open(k, x));
      var y := DepsAreSound(g, s, 0, trail, Open(k, x));
      if a.0 != Clear {
        SymReportsDep(g, s, ignore, trail, y, a.0);
      } else if ignore || g.choice[s].None? {
        Popped(g, trail, a.1, e);
      } else {
        var c := g.choice[s].value;
        var b := SearchChoice(g, c, Some(s), a.1);
        FewerUnseen(g, Open(k, x), a.1);
        EntersChoice(g, s, trail);
        ChoiceIsSound(g, c, Some(s), [e] + trail, a.1);
        if b.0 != Clear { SymReportsChoice(g, s, trail, c, b.0); } else { Popped(g, trail, b.1, e); }
      }
    }
  }

  lemma OneReport(g: Graph, s: nat, ignore: bool, trail: seq<Frame>)
    requires Reports(g, trail, SymItem(s), Loop([SymItem(s)]))
    ensures SymReports(g, s, ignore, trail, Loop([SymItem(s)]))
  {}

  // A loop through a dependent
  lemma SymReportsDep(g: Graph, s: nat, ignore: bool, trail: seq<Frame>, y: Item, r: Search)
    requires Depends(g, SymItem(s), y) && Reports(g, [InSym(s)] + trail, y, r) && r != Clear
    requires SymItem(s) !in ItemsOf(trail)
    ensures SymReports(g, s, ignore, trail, Found(r, SymItem(s))) && Found(r, SymItem(s)) != Clear
  {
    hide Depends;
    LastIs(g, [InSym(s)] + trail, y, r);
    FoundReports(g, trail, InSym(s), y, r);
  }

  // A loop through the choice
  lemma SymReportsChoice(g: Graph, s: nat, trail: seq<Frame>, c: nat, r: Search)
    requires Edge(g, SymItem(s), ChoiceItem(c)) && ChoiceReports(g, c, Some(s), [InSym(s)] + trail, r) && r != Clear
    requires SymItem(s) !in ItemsOf(trail)
    ensures SymReports(g, s, false, trail, Found(r, SymItem(s))) && Found(r, SymItem(s)) != Clear
  {
    hide Edge;
    FoundReports(g, trail, InSym(s), ChoiceItem(c), r);
  }

  lemma ClearReports(g: Graph, s: nat, ignore: bool, trail: seq<Frame>)
    ensures SymReports(g, s, ignore, trail, Clear)
  {}

  lemma NotOnTrail(g: Graph, trail: seq<Frame>, k: Colors, x: Item)
    requires TrailOk(g, trail, k) && x !in k.open
    ensures x !in ItemsOf(trail)
  {}

  lemma LastIs(g: Graph, trail: seq<Frame>, y: Item, r: Search)
    requires Reports(g, trail, y, r)
    ensures r.Loop? ==> r.path != [] && r.path[|r.path| - 1] == y
  {}

  lemma EntersChoice(g: Graph, s: nat, trail: seq<Frame>)
    requires GraphOk(g) && s < |g.choice| && g.choice[s].Some?
    ensures
      var c := g.choice[s].value;
      c < |g.members| && Edge(g, SymItem(s), ChoiceItem(c)) && CanCall(g, [InSym(s)] + trail, InChoice(c, 0))
  {}

  lemma DepCalled(g: Graph, s: nat, j: nat, trail: seq<Frame>)
    requires GraphOk(g) && s < |g.deps| && j < |g.deps[s]|
    ensures
      var y, t := g.deps[s][j], [InSym(s)] + trail;
      && Known(g, y) && Depends(g, SymItem(s), y)
      && (if y.ChoiceItem? then CanCall(g, t, InChoice(y.choice, 0)) else CanCall(g, t, InSym(y.sym)))
  {
    assert g.deps[s][j] in g.deps[s];
  }

  lemma {:induction false} DepsAreSound(g: Graph, s: nat, j: nat, trail: seq<Frame>, k: Colors) returns (y: Item)
    requires GraphOk(g) && s < |g.deps| && j <= |g.deps[s]| && TrailOk(g, [InSym(s)] + trail, k)
    ensures
      var r := SearchDeps(g, s, j, k);
      if r.0 == Clear then TrailOk(g, [InSym(s)] + trail, r.1)
      else Depends(g, SymItem(s), y) && Reports(g, [InSym(s)] + trail, y, r.0)
    decreases Unseen(g, k), 1, |g.deps[s]| - j
  {
    hide TrailOk, Reports, Depends, SearchSym, SearchChoice, SearchDeps, CanCall;
    DepsStep(g, s, j, k);
    y := SymItem(s);
    if j < |g.deps[s]| {
      y := g.deps[s][j];
      DepCalled(g, s, j, trail);
      var a := if y.ChoiceItem? then SearchChoice(g, y.choice, None, k) else SearchSym(g, y.sym, false, k);
      if y.ChoiceItem? { ChoiceIsSound(g, y.choice, None, [InSym(s)] + trail, k); }
      else { SymIsSound(g, y.sym, false, [InSym(s)] + trail, k); }
      FewerUnseen(g, k, a.1);
      if a.0 == Clear { y := DepsAreSound(g, s, j + 1, trail, a.1); }
    }
  }

  lemma {:induction false} ChoiceIsSound(g: Graph, c: nat, skip: Option<nat>, trail: seq<Frame>, k: Colors)
    requires GraphOk(g) && c < |g.members| && TrailOk(g, trail, k) && CanCall(g, trail, InChoice(c, 0))
    ensures ChoiceReports(g, c, skip, trail, SearchChoice(g, c, skip, k).0)
    ensures SearchChoice(g, c, skip, k).0 == Clear ==> TrailOk(g, trail, SearchChoice(g, c, skip, k).1)
    decreases Unseen(g, k), 0, 0
  {
    hide TrailOk, Reports, SymReports, ChoiceReports, Depends, Edge, Found, Called, CanCall, SearchChoice,
      SearchMembers;
    ChoiceUnfolds(g, c, skip, k);
    ChoiceClear(g, c, skip, trail);
    var x, e := ChoiceItem(c), InChoice(c, 0);
    if x in k.open && x !in k.done {
      OpenReports(g, trail, k, x);
      ChoiceOne(g, c, skip, trail);
    }
    if x !in k.open && x !in k.done {
      Pushed(g, trail, k, e);
      NotOnTrail(g, trail, k, x);
      FewerUnseen(g, k, Open(k, x));
      var a := SearchMembers(g, c, skip, 0, Open(k, x));
      var s := MembersAreSound(g, c, skip, 0, trail, Open(k, x));
      if a.0 != Clear { ChoiceReportsSym(g, c, skip, trail, s, a.0); } else { Popped(g, trail, a.1, e); }
    }
  }

  lemma ChoiceClear(g: Graph, c: nat, skip: Option<nat>, trail: seq<Frame>)
    ensures ChoiceReports(g, c, skip, trail, Clear)
  {}

  lemma ChoiceOne(g: Graph, c: nat, skip: Option<nat>, trail: seq<Frame>)
    requires Reports(g, trail, ChoiceItem(c), Loop([ChoiceItem(c)]))
    ensures ChoiceReports(g, c, skip, trail, Loop([ChoiceItem(c)]))
  {}

  lemma ChoiceReportsSym(g: Graph, c: nat, skip: Option<nat>, trail: seq<Frame>, s: nat, r: Search)
    requires Edge(g, ChoiceItem(c), SymItem(s)) && SymReports(g, s, true, [InChoice(c, 0)] + trail, r) && r != Clear
    requires skip != Some(s) && ChoiceItem(c) !in ItemsOf(trail)
    ensures ChoiceReports(g, c, skip, trail, Found(r, ChoiceItem(c))) && Found(r, ChoiceItem(c)) != Clear
  {
    hide Depends, Edge;
    LastIs(g, [InChoice(c, 0)] + trail, SymItem(s), r);
    FoundReports(g, trail, InChoice(c, 0), SymItem(s), r);
  }

  lemma SameReports(g: Graph, s: nat, trail: seq<Frame>, after: seq<Frame>, r: Search)
    requires SymReports(g, s, true, trail, r) && ItemsOf(after) == ItemsOf(trail)
    ensures SymReports(g, s, true, after, r)
  {}

  lemma MemberCalled(g: Graph, c: nat, j: nat, trail: seq<Frame>)
    requires GraphOk(g) && c < |g.members| && j < |g.members[c]|
    ensures
      var s := g.members[c][j];
      && s < |g.deps| && Edge(g, ChoiceItem(c), SymItem(s)) && CanCall(g, [InChoice(c, j)] + trail, InSym(s))
  {
    IsMember(g, c, g.members[c][j]);
  }

  lemma {:induction false} MembersAreSound(g: Graph, c: nat, skip: Option<nat>, j: nat, trail: seq<Frame>, k: Colors)
    returns (s: nat)
    requires GraphOk(g) && c < |g.members| && j <= |g.members[c]| && TrailOk(g, [InChoice(c, 0)] + trail, k)
    ensures
      var r := SearchMembers(g, c, skip, j, k);
      if r.0 == Clear then TrailOk(g, [InChoice(c, 0)] + trail, r.1)
      else Edge(g, ChoiceItem(c), SymItem(s)) && skip != Some(s) &&
           SymReports(g, s, true, [InChoice(c, 0)] + trail, r.0)
    decreases Unseen(g, k), 1, |g.members[c]| - j
  {
    hide TrailOk, Reports, SymReports, CanCall, Called, Edge, SearchSym, SearchMembers;
    MembersStep(g, c, skip, j, k);
    s := 0;
    if j < |g.members[c]| {
      s := g.members[c][j];
      MemberCalled(g, c, j, trail);
      if skip == Some(s) {
        s := MembersAreSound(g, c, skip, j + 1, trail, k);
      } else {
        var a := SearchSym(g, s, true, k);
        Moved(g, trail, k, c, 0, j);
        SymIsSound(g, s, true, [InChoice(c, j)] + trail, k);
        assert ItemsOf([InChoice(c, j)] + trail) == ItemsOf([InChoice(c, 0)] + trail);
        FewerUnseen(g, k, a.1);
        if a.0 == Clear {
          Moved(g, trail, a.1, c, j, 0);
          s := MembersAreSound(g, c, skip, j + 1, trail, a.1);
        } else {
          SameReports(g, s, [InChoice(c, j)] + trail, [InChoice(c, 0)] + trail, a.0);
        }
      }
    }
  }
}

// A run of the engine in which a choice default that the choice does not mention escapes invalidation.
module KconfigStale {
  import opened Options
  import opened KconfigModel
  import opened KconfigCoherence
  import opened KconfigCache

  // choice 0 holds symbol 0 and defaults to symbol 1, which is outside it and is visible
  // only if symbol 2 is set
  function Sample(): Config {
    Config(
      [ Symbol(Bool, "IN", [Mode(0)], [], [], NO, NO, Mode(0), Some(0)),
        Symbol(Bool, "OUT", [Leaf(Ref(2))], [], [], NO, NO, Leaf(Ref(2)), None),
        Symbol(Bool, "ENABLE", [YES], [], [], NO, NO, YES, None) ],
      [ Choice(Bool, false, [YES], [ChoiceDefault(1, YES)], [0]) ],
      None, (t, s) => None, (t, n) => "")
  }

  function Setting(enable: Tri): User {
    User([Unset, Unset, SetTri(enable)], [None], [None])
  }

  function Rank(n: Node): nat {
    match n
    case SymVis(i) => if i == 2 then 0 else 2
    case SymTri(i) => if i == 2 then 1 else 4
    case SymStr(i) => 5
    case ChoiceVis(c) => 0
    case ChoiceTri(c) => 1
    case ChoiceSel(c) => 3
  }

  lemma SampleVis(u: User, env: Env)
    ensures Step(Sample(), u, SymVis(0), env).seen <= {ChoiceTri(0)}
    ensures Step(Sample(), u, SymVis(1), env) ==
              Ev(TriVal(if ToTri(env(SymTri(2))) == 0 then 0 else 2), {SymTri(2)})
    ensures Step(Sample(), u, SymVis(2), env) == Ev(TriVal(2), {})
    ensures Step(Sample(), u, ChoiceVis(0), env) == Ev(TriVal(2), {})
    ensures ToTri(env(ChoiceVis(0))) == 2 ==> Step(Sample(), u, ChoiceTri(0), env).seen == {ChoiceVis(0)}
  {
    OnePrompt(Sample(), Mode(0), env);
    OnePrompt(Sample(), Leaf(Ref(2)), env);
    OnePrompt(Sample(), YES, env);
  }

  lemma SampleTri(u: User, i: nat, env: Env)
    ensures Step(Sample(), u, SymTri(i), env).seen <= {SymVis(i), ChoiceSel(0)}
    ensures i != 0 ==> Step(Sample(), u, SymTri(i), env).seen <= {SymVis(i)}
    ensures i == 2 && u == Setting(2) && env(SymVis(2)) == TriVal(2) ==>
        Step(Sample(), u, SymTri(2), env).v == TriVal(2)
    ensures i == 2 && u == Setting(0) && env(SymVis(2)) == TriVal(2) ==>
        Step(Sample(), u, SymTri(2), env).v == TriVal(0)
  {
    var s := SymOf(Sample(), i);
    assert DefaultTriEv(Sample(), s, env) == Ev(0, {});
    assert FallbackEv(Sample(), s, env) == Ev(0, {});
  }

  lemma SampleSel(u: User, env: Env)
    ensures forall n :: n in Step(Sample(), u, ChoiceSel(0), env).seen ==> n == ChoiceTri(0) || n.SymVis?
    ensures u.pick == [None] && env(ChoiceTri(0)) == TriVal(2) && ToTri(env(SymVis(1))) != 0 ==>
              Step(Sample(), u, ChoiceSel(0), env) == Ev(SelVal(Some(1)), {ChoiceTri(0), SymVis(1)})
    ensures u.pick == [None] && ToTri(env(SymVis(1))) == 0 ==> Step(Sample(), u, ChoiceSel(0), env).v != SelVal(Some(1))
  {
    var ds := [ChoiceDefault(1, YES)];
    assert FirstDefaultSymEv(Sample(), ds, 1, env) == Ev(None, {});
    assert FirstDefaultSymEv(Sample(), ds, 0, env).seen == {SymVis(1)};
    assert FirstVisibleEv([0], 1, env) == Ev(None, {});
  }

  lemma SampleAcyclic()
    ensures Acyclic(Sample(), Rank)
  {
    hide Step;
    forall u: User, n: Node, env: Env, m: Node | m in Step(Sample(), u, n, env).seen
      ensures Rank(m) < Rank(n)
    {
      match n
      case SymVis(i) => VisBelow(u, i, env, m);
      case SymTri(i) => SampleTri(u, i, env);
      case SymStr(i) => StrBelow(u, i, env, m);
      case ChoiceVis(c) => ChoiceVisReadsNothing(u, c, env);
      case ChoiceTri(c) => ChoiceTriBelow(u, c, env, m);
      case ChoiceSel(c) => SelBelow(u, c, env, m);
    }
  }

  lemma VisBelow(u: User, i: nat, env: Env, m: Node)
    requires m in Step(Sample(), u, SymVis(i), env).seen
    ensures Rank(m) < Rank(SymVis(i))
  {
    if i < 3 { SampleVis(u, env); }
  }

  lemma StrBelow(u: User, i: nat, env: Env, m: Node)
    requires m in Step(Sample(), u, SymStr(i), env).seen
    ensures Rank(m) < Rank(SymStr(i))
  {}

  lemma ChoiceVisReadsNothing(u: User, c: nat, env: Env)
    ensures Step(Sample(), u, ChoiceVis(c), env).seen == {}
  {
    if c == 0 { SampleVis(u, env); }
  }

  lemma ChoiceTriBelow(u: User, c: nat, env: Env, m: Node)
    requires m in Step(Sample(), u, ChoiceTri(c), env).seen
    ensures Rank(m) < Rank(ChoiceTri(c))
  {}

  lemma SelBelow(u: User, c: nat, env: Env, m: Node)
    requires m in Step(Sample(), u, ChoiceSel(c), env).seen
    ensures Rank(m) < Rank(ChoiceSel(c))
  {
    if c == 0 { SampleSel(u, env); }
  }

  lemma EnableValue(enable: Tri)
    requires enable == 0 || enable == 2
    ensures Fresh(Sample(), Setting(enable), Rank)(SymTri(2)) == TriVal(enable)
  {
    hide Acyclic;
    SampleAcyclic();
    var u := Setting(enable);
    var f := Fresh(Sample(), u, Rank);
    SampleVis(u, f);
    EvalUnfold(Sample(), u, Rank, SymVis(2));
    EvalUnfold(Sample(), u, Rank, SymTri(2));
    SampleTri(u, 2, f);
  }

  lemma OutValue(enable: Tri)
    requires enable == 0 || enable == 2
    ensures Fresh(Sample(), Setting(enable), Rank)(SymVis(1)) == TriVal(enable)
  {
    hide Acyclic, Step;
    SampleAcyclic();
    EnableValue(enable);
    var u := Setting(enable);
    SampleVis(u, Fresh(Sample(), u, Rank));
    EvalUnfold(Sample(), u, Rank, SymVis(1));
  }

  lemma ModeValue(enable: Tri)
    ensures Fresh(Sample(), Setting(enable), Rank)(ChoiceTri(0)) == TriVal(2)
  {
    hide Acyclic, SymVisEv, ChoiceVisEv;
    SampleAcyclic();
    var u := Setting(enable);
    SampleVis(u, Fresh(Sample(), u, Rank));
    EvalUnfold(Sample(), u, Rank, ChoiceVis(0));
    EvalUnfold(Sample(), u, Rank, ChoiceTri(0));
  }

  lemma SampleSelection(enable: Tri)
    requires enable == 0 || enable == 2
    ensures Eval(Sample(), Setting(enable), Rank, ChoiceSel(0)) == SelVal(Some(1)) <==> enable == 2
  {
    hide Acyclic;
    SampleAcyclic();
    OutValue(enable);
    ModeValue(enable);
    EvalUnfold(Sample(), Setting(enable), Rank, ChoiceSel(0));
    SampleSel(Setting(enable), Fresh(Sample(), Setting(enable), Rank));
  }

  lemma SampleMembers()
    ensures MembersOk(Sample()) && !DefaultsTracked(Sample())
  {
    assert ChoiceOf(Sample(), 0).defaults[0].sym == 1;
    StaysInside(ChoiceItem(0), SymItem(1));
  }

  // The choice and its symbol are told of each other only.
  predicate Inside(x: Item) { x == ChoiceItem(0) || x == SymItem(0) }

  lemma StaysInside(x: Item, y: Item)
    requires Inside(x)
    ensures Tracks(Sample(), x, y) ==> Inside(y)
  {
    var s, ch := Sample().syms[0], Sample().choices[0];
    assert InSome(y, s.prompts) ==> y in ExprItems(Mode(0));
    assert InSome(y, ch.prompts) ==> y in ExprItems(YES);
  }

  lemma {:induction false} PathStaysInside(cache: Cache, path: seq<Item>)
    requires Path(Sample(), cache, path) && Inside(path[0])
    ensures Inside(path[|path| - 1])
    decreases |path|
  {
    if |path| > 1 {
      assert Link(Sample(), cache, path[0], path[1]);
      StaysInside(path[0], path[1]);
      forall j | 0 <= j < |path| - 2 ensures Link(Sample(), cache, path[1..][j], path[1..][j + 1]) {
        assert Link(Sample(), cache, path[j + 1], path[j + 2]);
      }
      PathStaysInside(cache, path[1..]);
    }
  }

  // So an invalidation of symbol 2 does not reach the choice.
  lemma ChoiceUnreached(before: Cache, after: Cache)
    requires Submap(after, before) && OnlyReached(Sample(), before, after, SymItem(2)) && ChoiceSel(0) in before
    ensures ChoiceSel(0) in after && after[ChoiceSel(0)] == before[ChoiceSel(0)]
  {
    if Linked(Sample(), before, ChoiceItem(0), SymItem(2)) {
      var path :| Path(Sample(), before, path) && path[0] == ChoiceItem(0) && path[|path| - 1] == SymItem(2);
      PathStaysInside(before, path);
    }
    assert Kept(before, after, ChoiceItem(0)) || Reached(Sample(), before, ChoiceItem(0), SymItem(2));
    assert Owner(ChoiceSel(0)) == ChoiceItem(0);
  }

  lemma EmptyReady(u: User)
    ensures DefaultsLinked(Sample(), u, Rank, map[])
  {}

  // What Choice.selection keeps
  lemma StoredSelection(u: User, cache: Cache)
    requires Coherent(Sample(), u, Rank, cache) && Live(Sample(), u, Rank, cache, ChoiceSel(0))
    ensures ChoiceSel(0) in cache && cache[ChoiceSel(0)] == Eval(Sample(), u, Rank, ChoiceSel(0))
  {}

  // set_value(ENABLE, y) on a new configuration
  method TurnOn() returns (k: Kconfig)
    ensures fresh(k) && k.Valid() && k.cfg == Sample() && k.rank == Rank && k.user == Setting(2)
  {
    hide Acyclic, Coherent, Linked, DefaultsLinked, OnlyReached, MembersOk, UserOk, WellFormed, Rank;
    SampleAcyclic();
    SampleMembers();
    k := new Kconfig(Sample(), Rank);
    EmptyReady(k.user);
    assert k.user == User([Unset, Unset, Unset], [None], [None]);
    var ok := k.SetSymValue(2, SetTri(2));
    assert k.user == Setting(2);
  }

  // ... and the selection of the choice read
  method Select() returns (k: Kconfig, shown: Option<nat>)
    ensures fresh(k) && k.Valid() && k.cfg == Sample() && k.rank == Rank && k.user == Setting(2) && shown == Some(1)
    ensures ChoiceSel(0) in k.cache && k.cache[ChoiceSel(0)] == SelVal(Some(1))
  {
    hide Acyclic, Linked, DefaultsLinked, OnlyReached, Eval, MembersOk, UserOk, WellFormed, Rank, Live, Coherent;
    k := TurnOn();
    shown := k.ChoiceSelection(0);
    SampleSelection(2);
    StoredSelection(k.user, k.cache);
  }

  // set_value(ENABLE, y), then selection, then set_value(ENABLE, n): the cached selection is still
  // OUT, which is no longer visible, and recomputation gives another one.
  method GoesStale() returns (k: Kconfig, shown: Option<nat>)
    ensures fresh(k) && k.cfg == Sample() && k.user == Setting(0) && shown == Some(1)
    ensures ChoiceSel(0) in k.cache && k.cache[ChoiceSel(0)] == SelVal(Some(1))
    ensures Eval(Sample(), k.user, Rank, ChoiceSel(0)) != SelVal(Some(1))
  {
    hide Acyclic, Coherent, Linked, DefaultsLinked, OnlyReached, Eval, MembersOk, UserOk, Live, WellFormed, Rank;
    k, shown := Select();
    ghost var before := k.cache;
    var ok := k.SetSymValue(2, SetTri(0));
    assert k.user == Setting(0);
    ChoiceUnreached(before, k.cache);
    SampleSelection(0);
  }
}

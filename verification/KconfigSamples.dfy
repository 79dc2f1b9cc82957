// Sample configurations for the loop check: what passes it and can be evaluated, and what passes it
// and cannot.
module KconfigSamples {
  import opened Options
  import opened KconfigModel
  import opened KconfigCoherence
  import opened KconfigReads
  import opened KconfigOrder
  import opened KconfigLoops
  import opened LoopCheck
  import opened LoopOrder
  import opened LoopMissed

  // ----- MODULES below a tristate symbol -----

  // MODULES takes the value of the tristate symbol A, which defaults to t.
  function Sample(t: Tri): Config {
    Config(
      [ Symbol(Bool, "MODULES", [], [Default(Leaf(Ref(1)), YES)], [], NO, NO, YES, None),
        Symbol(Tristate, "A", [], [Default(Leaf(Literal(Tristate, t, TriText(t))), YES)], [], NO, NO, YES, None) ],
      [], Some(0), (t, s) => None, (t, n) => "")
  }

  const SAMPLE_GRAPH := Graph([[], [SymItem(0)]], [None, None], [])
  const SAMPLE_DONE := [SymItem(0), SymItem(1)]

  // The loop check sees no loop: only MODULES is a dependent, of A.
  lemma SamplePasses(t: Tri)
    ensures Sorted(Sample(t), SAMPLE_GRAPH, SAMPLE_DONE) && LoopCheck.Acyclic(SAMPLE_GRAPH)
  {
    hide LoopCheck.Acyclic;
    SampleGraph(t);
    GraphIsOk(Sample(t), SAMPLE_GRAPH);
    assert SAMPLE_DONE[..1] == [SymItem(0)] && SAMPLE_DONE[0] == SymItem(0) && SAMPLE_DONE[1] == SymItem(1);
    OrderedIsAcyclic(SAMPLE_GRAPH, SAMPLE_DONE);
  }

  lemma SampleGraph(t: Tri)
    ensures ChoicesOk(Sample(t)) && GraphOf(Sample(t), SAMPLE_GRAPH)
  {
    hide Written;
    SampleMentions(t);
    forall x: Item, y: nat | y < 2 ensures Registered(Sample(t), SAMPLE_GRAPH, x, y) {}
  }

  lemma SampleMentions(t: Tri)
    ensures forall x, y :: Written(Sample(t), x, y) <==> x == SymItem(0) && y == SymItem(1)
  {
    var s, r := Sample(t).syms[0], Sample(t).syms[1];
    assert Conds(s.defaults)[0] == YES && Conds(r.defaults)[0] == YES;
    assert ExprItems(s.defaults[0].value) == {SymItem(1)} && ExprItems(r.defaults[0].value) == {};
    forall x, y ensures Written(Sample(t), x, y) <==> x == SymItem(0) && y == SymItem(1) {
      if x == SymItem(0) && y == SymItem(1) { assert y in ExprItems(SymOf(Sample(t), 0).defaults[0].value); }
    }
  }

  lemma SampleOnlyModules(t: Tri)
    ensures OnlyModules(Sample(t))
  {
    hide Step, Written;
    SampleMentions(t);
    forall n, m | MayRead(Sample(t), n, m) && Stray(Sample(t), n, m) ensures Unrecorded(Sample(t), m) {
      var u, env: Env :| UserOk(Sample(t), u) && m in Step(Sample(t), u, n, env).seen;
      SampleStray(t, u, n, env, m);
    }
  }

  lemma SampleStray(t: Tri, u: User, n: Node, env: Env, m: Node)
    requires UserOk(Sample(t), u) && m in Step(Sample(t), u, n, env).seen
    ensures !m.ChoiceTri? || (Owner(n) == Owner(m) && !n.ChoiceVis?)
  {
    hide Step, Written;
    SampleMentions(t);
    match n
    case SymVis(i) => SampleMembers(t, i); VisReads(Sample(t), u, i, env);
    case SymTri(i) => SampleMembers(t, i); TriReads(Sample(t), u, i, env);
    case SymStr(i) => StrReads(Sample(t), u, i, env);
    case ChoiceVis(c) => ChoiceVisReads(Sample(t), u, c, env);
    case ChoiceTri(c) => ChoiceTriReads(Sample(t), u, c, env);
    case ChoiceSel(c) => SelReads(Sample(t), u, c, env);
  }

  lemma SampleMembers(t: Tri, i: nat)
    ensures MembersOk(Sample(t)) && SymOf(Sample(t), i).choice.None?
  {}

  // What the two values read, when A is visible and set to m
  lemma SampleReads(t: Tri, u: User, env: Env)
    requires u == User([Unset, SetTri(1)], [], []) && env(SymVis(1)) == TriVal(1)
    ensures MayRead(Sample(t), SymTri(0), SymTri(1)) && MayRead(Sample(t), SymTri(1), SymTri(0))
  {
    var s := Sample(t).syms[0];
    assert FirstEv(Sample(t), Conds(s.defaults), 0, env) == Ev((0, 2), {});
    assert SymTri(1) in Step(Sample(t), u, SymTri(0), env).seen;
    assert SymTri(0) in Step(Sample(t), u, SymTri(1), env).seen;
  }

  // No order of evaluation serves every environment: with A at m, A reads MODULES.
  lemma SampleUnranked(t: Tri)
    ensures !Ranked(Sample(t))
  {
    hide MayRead, Needs, Ranked;
    SampleReads(t, User([Unset, SetTri(1)], [], []), n => TriVal(1));
    NeedsRead(Sample(t), SymTri(0), SymTri(1));
    assert NeedsItself(Sample(t), SymTri(1));
    RankedExact(Sample(t));
  }

  lemma SampleRanks()
    ensures BaseRank(SAMPLE_GRAPH, SAMPLE_DONE, SymVis(1)) == 14 && BaseRank(SAMPLE_GRAPH, SAMPLE_DONE, SymTri(1)) == 16
    ensures BaseRank(SAMPLE_GRAPH, SAMPLE_DONE, SymVis(0)) == 20 && BaseRank(SAMPLE_GRAPH, SAMPLE_DONE, SymTri(0)) == 22
  {
    assert SAMPLE_DONE[0] == SymItem(0) && SAMPLE_DONE[1] == SymItem(1);
    assert IndexIn(SAMPLE_DONE, SymItem(0)) == 0 && IndexIn(SAMPLE_DONE, SymItem(1)) == 1;
  }

  lemma VisWalks(t: Tri, u: User, i: nat)
    requires i < 2
    ensures Walk(Sample(t), u, SAMPLE_GRAPH, SAMPLE_DONE, SymVis(i)) == Some(TriVal(0))
  {
    hide BaseRank;
  }

  // Without a prompt A is never visible, so that it has the value t, and looks at MODULES if that is m.
  lemma AWalks(t: Tri, u: User)
    ensures Walk(Sample(t), u, SAMPLE_GRAPH, SAMPLE_DONE, SymTri(1)) == if t == 1 then None else Some(TriVal(t))
  {
    hide BaseRank;
    var cfg, env := Sample(t), Lower(Sample(t), u, SAMPLE_GRAPH, SAMPLE_DONE, 16);
    SampleRanks();
    VisWalks(t, u, 1);
    assert env(SymVis(1)) == TriVal(0);
    assert FirstEv(cfg, Conds(cfg.syms[1].defaults), 0, env) == Ev((0, 2), {});
    assert DefaultTriEv(cfg, cfg.syms[1], env) == Ev(t, {});
    assert t == 1 ==> SymTri(0) in Step(cfg, u, SymTri(1), env).seen;
    assert t != 1 ==> Step(cfg, u, SymTri(1), env) == Ev(TriVal(t), {SymVis(1)});
  }

  lemma ModulesStep(t: Tri, u: User, env: Env)
    requires env(SymVis(0)) == TriVal(0)
    ensures Step(Sample(t), u, SymTri(0), env).seen == {SymVis(0), SymTri(1)}
  {
    var s := Sample(t).syms[0];
    assert FirstEv(Sample(t), Conds(s.defaults), 0, env) == Ev((0, 2), {});
    assert DefaultTriEv(Sample(t), s, env).seen == {SymTri(1)};
  }

  lemma ModulesWalks(t: Tri, u: User)
    ensures Walk(Sample(t), u, SAMPLE_GRAPH, SAMPLE_DONE, SymTri(0)).Some? <==> t != 1
  {
    hide BaseRank, Step;
    SampleRanks();
    VisWalks(t, u, 0);
    AWalks(t, u);
    ModulesStep(t, u, Lower(Sample(t), u, SAMPLE_GRAPH, SAMPLE_DONE, 22));
  }

  // Both values can be computed unless A defaults to m, whatever the user has set.
  lemma SampleEnds(t: Tri, u: User)
    requires UserOk(Sample(t), u)
    ensures AllEnd(Sample(t), u) <==> t != 1
  {
    hide Walk, AllEnd, Sorted, OnlyModules;
    SamplePasses(t);
    SampleOnlyModules(t);
    ModulesWalks(t, u);
    assert Unrecorded(Sample(t), SymTri(0));
    EvaluationEnds(Sample(t), SAMPLE_GRAPH, SAMPLE_DONE, u);
  }

  // ----- A menu in a choice -----

  // The choice has the symbol X, and in a menu, which makes it no symbol of the choice, D, whose
  // value the prompt of the choice asks for.
  function MenuConfig(): Config {
    Config(
      [ Symbol(Bool, "X", [Mode(0)], [], [], NO, NO, Mode(0), Some(0)),
        Symbol(Bool, "D", [Mode(0)], [], [], NO, NO, Mode(0), None) ],
      [Choice(Bool, false, [Leaf(Ref(1))], [], [0])], None, (t, s) => None, (t, n) => "")
  }

  const MENU_GRAPH := Graph([[], [ChoiceItem(0)]], [Some(0), None], [[0]])
  const MENU_DONE := [ChoiceItem(0), SymItem(0), SymItem(1)]

  lemma MenuGraph()
    ensures ChoicesOk(MenuConfig()) && GraphOf(MenuConfig(), MENU_GRAPH)
  {
    var cfg := MenuConfig();
    assert ChoiceItem(0) in ExprItems(cfg.syms[0].directDep);
    forall x: Item, y: nat | y < 2 ensures Registered(cfg, MENU_GRAPH, x, y) {
      assert cfg.choices[0].prompts[0] == Leaf(Ref(1)) && ExprItems(Leaf(Ref(1))) == {SymItem(1)};
      assert ExprItems(Mode(0)) == {ChoiceItem(0)};
    }
  }

  lemma MenuSearchesX()
    requires GraphOk(MENU_GRAPH)
    ensures SearchSym(MENU_GRAPH, 0, false, UNSEEN) == (Clear, Colors({}, [ChoiceItem(0), SymItem(0)]))
  {
    hide GraphOk, SearchSym, SearchDeps, SearchChoice, SearchMembers;
    var x, c := SymItem(0), ChoiceItem(0);
    SymUnfolds(MENU_GRAPH, 0, false, UNSEEN);
    DepsStep(MENU_GRAPH, 0, 0, Colors({x}, []));
    ChoiceUnfolds(MENU_GRAPH, 0, Some(0), Colors({x}, []));
    MembersStep(MENU_GRAPH, 0, Some(0), 0, Colors({x, c}, []));
    MembersStep(MENU_GRAPH, 0, Some(0), 1, Colors({x, c}, []));
    assert {} + {x} == {x} && {x} + {c} == {x, c} && {x, c} - {c} == {x} && {x} - {x} == {};
    assert [] + [c] == [c] && [c] + [x] == [c, x];
  }

  lemma MenuSearchesD()
    requires GraphOk(MENU_GRAPH)
    ensures SearchSym(MENU_GRAPH, 1, false, Colors({}, [ChoiceItem(0), SymItem(0)])) == (Clear, Colors({}, MENU_DONE))
  {
    hide GraphOk, SearchSym, SearchDeps, SearchChoice, SearchMembers;
    var before, d := [ChoiceItem(0), SymItem(0)], SymItem(1);
    SymUnfolds(MENU_GRAPH, 1, false, Colors({}, before));
    DepsStep(MENU_GRAPH, 1, 0, Colors({d}, before));
    ChoiceUnfolds(MENU_GRAPH, 0, None, Colors({d}, before));
    DepsStep(MENU_GRAPH, 1, 1, Colors({d}, before));
    assert {} + {d} == {d} && {d} - {d} == {} && before + [d] == MENU_DONE;
  }

  // The check of this configuration ends without a report, and there is no loop in its graph.
  lemma MenuPasses()
    ensures GraphOk(MENU_GRAPH) && SearchAll(MENU_GRAPH, 0, UNSEEN) == (Clear, Colors({}, MENU_DONE))
    ensures LoopCheck.Acyclic(MENU_GRAPH) && Sorted(MenuConfig(), MENU_GRAPH, MENU_DONE)
  {
    hide SearchSym, GraphOf, ChoicesOk, GraphOk, Backward;
    MenuGraph();
    GraphIsOk(MenuConfig(), MENU_GRAPH);
    MenuSearchesX();
    MenuSearchesD();
    assert SearchAll(MENU_GRAPH, 2, Colors({}, MENU_DONE)) == (Clear, Colors({}, MENU_DONE));
    CheckExact(MENU_GRAPH);
    MenuForward();
  }

  lemma MenuForward()
    ensures !Backward(MENU_GRAPH)
  {}

  lemma RunNeeds(cfg: Config, u: User, depth: nat, n: Node, m: Node)
    requires Run(cfg, u, depth, n).Some? && depth > 0 && m in Step(cfg, u, n, Computed(cfg, u, depth - 1)).seen
    ensures Run(cfg, u, depth - 1, m).Some?
  {
    hide Step;
  }

  lemma MenuSteps(u: User, env: Env)
    ensures SymTri(1) in Step(MenuConfig(), u, ChoiceVis(0), env).seen
    ensures SymVis(1) in Step(MenuConfig(), u, SymTri(1), env).seen
    ensures ChoiceTri(0) in Step(MenuConfig(), u, SymVis(1), env).seen
    ensures ChoiceVis(0) in Step(MenuConfig(), u, ChoiceTri(0), env).seen
  {
    assert PromptsEv(MenuConfig(), [Leaf(Ref(1))], 0, env).seen == {SymTri(1)};
    assert PromptsEv(MenuConfig(), [Mode(0)], 0, env).seen == {ChoiceTri(0)};
  }

  // The visibility of the choice, the value of D, its visibility and the mode of the choice need
  // each other whatever the user has set: none can be computed.
  lemma {:induction false} MenuNeverEnds(u: User, depth: nat, n: Node)
    requires n in {ChoiceVis(0), SymTri(1), SymVis(1), ChoiceTri(0)}
    ensures Run(MenuConfig(), u, depth, n).None?
  {
    hide Step, MenuConfig;
    if depth > 0 && Run(MenuConfig(), u, depth, n).Some? {
      MenuSteps(u, Computed(MenuConfig(), u, depth - 1));
      var m := if n == ChoiceVis(0) then SymTri(1) else if n == SymTri(1) then SymVis(1)
               else if n == SymVis(1) then ChoiceTri(0) else ChoiceVis(0);
      RunNeeds(MenuConfig(), u, depth, n, m);
      MenuNeverEnds(u, depth - 1, m);
    }
  }

  // ----- A loop through a choice -----

  // The configuration behind the missed loop. V is never visible; Y is asked for if Z is set, which
  // defaults to W.
  function MissedConfig(): Config {
    Config(
      [ Symbol(Bool, "V", [NO], [], [], NO, NO, Mode(0), Some(0)),
        Symbol(Bool, "Y", [And(Leaf(Ref(3)), Mode(0))], [], [], NO, NO, Mode(0), Some(0)),
        Symbol(Bool, "W", [Mode(0)], [], [], NO, NO, Mode(0), Some(0)),
        Symbol(Bool, "Z", [], [Default(Leaf(Ref(2)), YES)], [], NO, NO, YES, None) ],
      [Choice(Bool, false, [YES], [], [0, 1, 2])], None, (t, s) => None, (t, n) => "")
  }

  // Only Y, by a prompt, and Z, by a default, mention a symbol.
  lemma MissedWritten(x: Item, y: nat)
    ensures Written(MissedConfig(), x, SymItem(y)) <==> (x == SymItem(1) && y == 3) || (x == SymItem(3) && y == 2)
  {
    var cfg := MissedConfig();
    assert Conds(cfg.syms[3].defaults)[0] == YES && ExprItems(YES) == {} && ExprItems(NO) == {};
    assert ExprItems(cfg.syms[3].defaults[0].value) == {SymItem(2)} && ExprItems(Mode(0)) == {ChoiceItem(0)};
    assert ExprItems(cfg.syms[1].prompts[0]) == {SymItem(3)} + {ChoiceItem(0)};
    assert cfg.choices[0].prompts[0] == YES && cfg.syms[0].prompts[0] == NO && cfg.syms[2].prompts[0] == Mode(0);
    assert InSome(SymItem(3), cfg.syms[1].prompts);
  }

  lemma MissedGraph()
    ensures ChoicesOk(MissedConfig()) && GraphOf(MissedConfig(), MISSED)
  {
    hide Written;
    var cfg := MissedConfig();
    forall x: Item, y: nat | y < 4 ensures Registered(cfg, MISSED, x, y) {
      MissedWritten(x, y);
    }
    assert ChoiceItem(0) in ExprItems(cfg.syms[0].directDep);
  }

  // What the user has not chosen is looked for among the symbols of the choice, and Y is not visible
  // before Z is known.
  lemma MissedSteps(u: User, env: Env)
    ensures SymTri(3) in Step(MissedConfig(), u, SymVis(1), env).seen
    ensures ToTri(env(SymVis(2))) == 2 ==> ChoiceSel(0) in Step(MissedConfig(), u, SymTri(2), env).seen
    ensures u.pick == [None] && ToTri(env(ChoiceTri(0))) == 2 && env(SymVis(0)) == TriVal(0) ==>
              SymVis(1) in Step(MissedConfig(), u, ChoiceSel(0), env).seen
  {
    assert SymTri(3) in PromptsEv(MissedConfig(), [And(Leaf(Ref(3)), Mode(0))], 0, env).seen;
    assert env(SymVis(0)) == TriVal(0) ==> SymVis(1) in FirstVisibleEv([0, 1, 2], 0, env).seen;
  }

  lemma ZNeedsW(u: User, env: Env)
    ensures env(SymVis(3)) == TriVal(0) ==> SymTri(2) in Step(MissedConfig(), u, SymTri(3), env).seen
  {
    var cfg := MissedConfig();
    assert FirstEv(cfg, Conds(cfg.syms[3].defaults), 0, env) == Ev((0, 2), {});
    assert DefaultTriEv(cfg, cfg.syms[3], env).seen == {SymTri(2)};
  }

  // What does not depend on the loop
  function Settled(n: Node): Option<Value> {
    if n == SymVis(3) || n == SymVis(0) then Some(TriVal(0))
    else if n == ChoiceVis(0) || n == ChoiceTri(0) || n == SymVis(2) then Some(TriVal(2))
    else None
  }

  lemma SettledStep(u: User, env: Env, n: Node)
    requires Settled(n).Some?
    requires forall m | m in Step(MissedConfig(), u, n, env).seen && Settled(m).Some? :: env(m) == Settled(m).value
    ensures Step(MissedConfig(), u, n, env).v == Settled(n).value
  {
    OnePrompt(MissedConfig(), NO, env);
    OnePrompt(MissedConfig(), YES, env);
    OnePrompt(MissedConfig(), Mode(0), env);
  }

  lemma {:induction false} SettledRun(u: User, depth: nat, n: Node)
    requires Settled(n).Some? && Run(MissedConfig(), u, depth, n).Some?
    ensures Run(MissedConfig(), u, depth, n) == Settled(n)
  {
    hide Step, Settled, MissedConfig;
    var env := Computed(MissedConfig(), u, depth - 1);
    forall m | m in Step(MissedConfig(), u, n, env).seen && Settled(m).Some? ensures env(m) == Settled(m).value {
      RunNeeds(MissedConfig(), u, depth, n, m);
      SettledRun(u, depth - 1, m);
    }
    SettledStep(u, env, n);
  }

  // n has been computed on the way, so that its value is the settled one.
  lemma SettledKnown(u: User, depth: nat, o: Node, n: Node)
    requires depth > 0 && Run(MissedConfig(), u, depth, o).Some? && Settled(n).Some?
    requires n in Step(MissedConfig(), u, o, Computed(MissedConfig(), u, depth - 1)).seen
    ensures Computed(MissedConfig(), u, depth - 1)(n) == Settled(n).value
  {
    hide Step, Settled, MissedConfig;
    RunNeeds(MissedConfig(), u, depth, o, n);
    SettledRun(u, depth - 1, n);
  }

  lemma SeenFirst(u: User, env: Env)
    ensures SymVis(3) in Step(MissedConfig(), u, SymTri(3), env).seen
    ensures SymVis(2) in Step(MissedConfig(), u, SymTri(2), env).seen
    ensures ChoiceTri(0) in Step(MissedConfig(), u, ChoiceSel(0), env).seen
    ensures u.pick == [None] && ToTri(env(ChoiceTri(0))) == 2 ==>
              SymVis(0) in Step(MissedConfig(), u, ChoiceSel(0), env).seen
  {
    assert SymVis(0) in FirstVisibleEv([0, 1, 2], 0, env).seen;
  }

  function NextNeeded(n: Node): Node {
    if n == SymVis(1) then SymTri(3) else if n == SymTri(3) then SymTri(2) else if n == SymTri(2) then ChoiceSel(0)
    else SymVis(1)
  }

  lemma MissedNeeds(u: User, depth: nat, n: Node)
    requires n in {SymVis(1), SymTri(3), SymTri(2), ChoiceSel(0)} && u.pick == [None]
    requires depth > 0 && Run(MissedConfig(), u, depth, n).Some?
    ensures Run(MissedConfig(), u, depth - 1, NextNeeded(n)).Some?
  {
    hide Step, MissedConfig, Run;
    var env := Computed(MissedConfig(), u, depth - 1);
    SeenFirst(u, env);
    MissedSteps(u, env);
    ZNeedsW(u, env);
    if n == SymTri(3) { SettledKnown(u, depth, n, SymVis(3)); }
    if n == SymTri(2) { SettledKnown(u, depth, n, SymVis(2)); }
    if n == ChoiceSel(0) {
      SettledKnown(u, depth, n, ChoiceTri(0));
      SettledKnown(u, depth, n, SymVis(0));
    }
    RunNeeds(MissedConfig(), u, depth, n, NextNeeded(n));
  }

  // Although the check reports nothing, unless the user has chosen a symbol neither the selection
  // of the choice nor the visibility of Y can be computed.
  lemma {:induction false} MissedNeverEnds(u: User, depth: nat, n: Node)
    requires n in {SymVis(1), SymTri(3), SymTri(2), ChoiceSel(0)} && u.pick == [None]
    ensures Run(MissedConfig(), u, depth, n).None?
  {
    hide Step, MissedConfig;
    if depth > 0 && Run(MissedConfig(), u, depth, n).Some? {
      MissedNeeds(u, depth, n);
      MissedNeverEnds(u, depth - 1, NextNeeded(n));
    }
  }
}

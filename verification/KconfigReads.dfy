// What the evaluation of a property reads, and where it stands in the order of the loop check.
module KconfigReads {
  import opened Options
  import opened KconfigModel
  import opened KconfigCoherence
  import opened LoopCheck
  import opened LoopOrder

  // y is written in a property of x. That a choice depends on its symbols is added only after the
  // loop check.
  ghost predicate Written(cfg: Config, x: Item, y: Item) {
    match x
    case SymItem(_) => Mentions(cfg, x, y)
    case ChoiceItem(c) =>
      var ch := ChoiceOf(cfg, c);
      InSome(y, ch.prompts) || exists k :: 0 <= k < |ch.defaults| && y in ExprItems(ch.defaults[k].cond)
  }

  predicate Defined(cfg: Config, x: Item) {
    match x
    case SymItem(i) => i < |cfg.syms|
    case ChoiceItem(c) => c < |cfg.choices|
  }

  // A symbol is in the choice that lists it, and in no other.
  ghost predicate ChoicesOk(cfg: Config) {
    && MembersOk(cfg)
    && forall c, k | 0 <= c < |cfg.choices| && 0 <= k < |cfg.choices[c].syms| ::
         SymOf(cfg, cfg.choices[c].syms[k]).choice == Some(c)
  }

  // What _build_dep leaves for the loop check
  ghost predicate GraphOf(cfg: Config, g: Graph) {
    && |g.deps| == |g.choice| == |cfg.syms| && |g.members| == |cfg.choices|
    && (forall i | 0 <= i < |cfg.syms| :: g.choice[i] == cfg.syms[i].choice)
    && (forall c | 0 <= c < |cfg.choices| :: g.members[c] == cfg.choices[c].syms)
    && forall x: Item, y: nat | y < |g.deps| :: Registered(cfg, g, x, y)
  }

  ghost predicate Registered(cfg: Config, g: Graph, x: Item, y: nat)
    requires y < |g.deps|
  {
    x in g.deps[y] <==> Defined(cfg, x) && Written(cfg, x, SymItem(y))
  }

  lemma GraphIsOk(cfg: Config, g: Graph)
    requires ChoicesOk(cfg) && GraphOf(cfg, g)
    ensures GraphOk(g)
  {
    forall s, y | 0 <= s < |g.deps| && y in g.deps[s] ensures Known(g, y) {
      assert Registered(cfg, g, y, s);
    }
    forall s | 0 <= s < |g.choice| && g.choice[s].Some?
      ensures g.choice[s].value < |g.members| && s in g.members[g.choice[s].value]
    {
      assert SymOf(cfg, s).choice.Some?;
    }
    forall c, i | 0 <= c < |g.members| && 0 <= i < |g.members[c]|
      ensures g.members[c][i] < |g.choice| && g.choice[g.members[c][i]] == Some(c)
    {
      assert SymOf(cfg, cfg.choices[c].syms[i]).choice == Some(c);
    }
  }

  // ----- Reads -----

  function TypeOf(cfg: Config, x: Item): SymType {
    match x
    case SymItem(i) => SymOf(cfg, i).typ
    case ChoiceItem(c) => ChoiceOf(cfg, c).typ
  }

  // MODULES, looked up for the type of x
  ghost predicate ForType(cfg: Config, x: Item, m: Node) {
    TypeOf(cfg, x) == Tristate && cfg.modules.Some? && m == SymTri(cfg.modules.value)
  }

  ghost predicate Reads(cfg: Config, x: Item, m: Node) { (Written(cfg, x, Owner(m)) && Asked(m)) || ForType(cfg, x, m) }

  ghost predicate AllRead(cfg: Config, x: Item, seen: set<Node>) { forall m | m in seen :: Reads(cfg, x, m) }

  lemma OwnChoice(cfg: Config, i: nat)
    requires MembersOk(cfg) && SymOf(cfg, i).choice.Some?
    ensures Reads(cfg, SymItem(i), ChoiceTri(SymOf(cfg, i).choice.value))
  {}

  lemma TypeReads(cfg: Config, i: nat, env: Env)
    requires MembersOk(cfg)
    ensures AllRead(cfg, SymItem(i), ActsAsBoolEv(cfg, SymOf(cfg, i).typ, SymOf(cfg, i).choice, env).seen)
  {
    hide MembersOk, Written;
    if SymOf(cfg, i).choice.Some? { OwnChoice(cfg, i); }
  }

  lemma ChoiceTypeReads(cfg: Config, c: nat, env: Env)
    ensures AllRead(cfg, ChoiceItem(c), ActsAsBoolEv(cfg, ChoiceOf(cfg, c).typ, None, env).seen)
  {}

  lemma VisReads(cfg: Config, u: User, i: nat, env: Env)
    requires MembersOk(cfg)
    ensures AllRead(cfg, SymItem(i), Step(cfg, u, SymVis(i), env).seen)
  {
    hide MembersOk, ActsAsBoolEv;
    PromptsSeen(cfg, SymOf(cfg, i).prompts, 0, env);
    TypeReads(cfg, i, env);
    if SymOf(cfg, i).choice.Some? { OwnChoice(cfg, i); }
  }

  lemma DefaultReads(cfg: Config, i: nat, env: Env)
    ensures AllRead(cfg, SymItem(i), DefaultTriEv(cfg, SymOf(cfg, i), env).seen)
    ensures AllRead(cfg, SymItem(i), DefaultTextEv(cfg, SymOf(cfg, i), env).seen)
  {
    var s := SymOf(cfg, i);
    FirstSeen(cfg, Conds(s.defaults), 0, env);
    var k := FirstEv(cfg, Conds(s.defaults), 0, env).v.0;
    if k < |s.defaults| { ExprSeen(cfg, s.defaults[k].value, env); }
  }

  lemma PlainReads(cfg: Config, u: User, i: nat, env: Env)
    requires MembersOk(cfg)
    ensures AllRead(cfg, SymItem(i), PlainTriEv(cfg, u, i, env).seen)
  {
    hide MembersOk, ActsAsBoolEv, DefaultTriEv;
    var s := SymOf(cfg, i);
    DefaultReads(cfg, i, env);
    ExprSeen(cfg, s.weakRevDep, env);
    ExprSeen(cfg, s.directDep, env);
    ExprSeen(cfg, s.revDep, env);
    TypeReads(cfg, i, env);
  }

  lemma TriReads(cfg: Config, u: User, i: nat, env: Env)
    requires MembersOk(cfg)
    ensures
      forall m | m in Step(cfg, u, SymTri(i), env).seen ::
        || m == SymVis(i) || Reads(cfg, SymItem(i), m)
        || (SymOf(cfg, i).choice.Some? && m == ChoiceSel(SymOf(cfg, i).choice.value))
  {
    hide MembersOk, PlainTriEv, Reads;
    PlainReads(cfg, u, i, env);
  }

  lemma RangeReads(cfg: Config, i: nat, env: Env)
    ensures AllRead(cfg, SymItem(i), RangeEv(cfg, SymOf(cfg, i), env).seen)
  {
    FirstSeen(cfg, RangeConds(SymOf(cfg, i).ranges), 0, env);
  }

  lemma NumReads(cfg: Config, u: User, i: nat, env: Env)
    ensures AllRead(cfg, SymItem(i), NumTextEv(cfg, u, i, env).seen)
  {
    hide RangeEv, DefaultTextEv, Reads;
    DefaultReads(cfg, i, env);
    RangeReads(cfg, i, env);
  }

  lemma StrReads(cfg: Config, u: User, i: nat, env: Env)
    ensures
      forall m | m in Step(cfg, u, SymStr(i), env).seen :: m == SymVis(i) || m == SymTri(i) || Reads(cfg, SymItem(i), m)
  {
    hide NumTextEv, DefaultTextEv, Reads;
    DefaultReads(cfg, i, env);
    NumReads(cfg, u, i, env);
  }

  lemma ChoiceVisReads(cfg: Config, u: User, c: nat, env: Env)
    ensures AllRead(cfg, ChoiceItem(c), Step(cfg, u, ChoiceVis(c), env).seen)
  {
    hide ActsAsBoolEv;
    PromptsSeen(cfg, ChoiceOf(cfg, c).prompts, 0, env);
    ChoiceTypeReads(cfg, c, env);
  }

  lemma ChoiceTriReads(cfg: Config, u: User, c: nat, env: Env)
    ensures forall m | m in Step(cfg, u, ChoiceTri(c), env).seen :: m == ChoiceVis(c) || ForType(cfg, ChoiceItem(c), m)
  {}

  ghost predicate SymOfChoice(cfg: Config, c: nat, m: Node) { m.SymVis? && m.i in ChoiceOf(cfg, c).syms }

  lemma DefaultSymReads(cfg: Config, c: nat, k: nat, env: Env)
    requires k <= |ChoiceOf(cfg, c).defaults|
    ensures forall m | m in FirstDefaultSymEv(cfg, ChoiceOf(cfg, c).defaults, k, env).seen ::
              Reads(cfg, ChoiceItem(c), m) || ReadsDefault(cfg, ChoiceSel(c), m)
    decreases |ChoiceOf(cfg, c).defaults| - k
  {
    var ds := ChoiceOf(cfg, c).defaults;
    if k < |ds| {
      ExprSeen(cfg, ds[k].cond, env);
      DefaultSymReads(cfg, c, k + 1, env);
      assert ReadsDefault(cfg, ChoiceSel(c), SymVis(ds[k].sym));
    }
  }

  lemma VisibleReads(cfg: Config, c: nat, k: nat, env: Env)
    requires k <= |ChoiceOf(cfg, c).syms|
    ensures forall m | m in FirstVisibleEv(ChoiceOf(cfg, c).syms, k, env).seen :: SymOfChoice(cfg, c, m)
    decreases |ChoiceOf(cfg, c).syms| - k
  {}

  lemma SelReads(cfg: Config, u: User, c: nat, env: Env)
    requires UserOk(cfg, u)
    ensures
      forall m | m in Step(cfg, u, ChoiceSel(c), env).seen ::
        || m == ChoiceTri(c) || SymOfChoice(cfg, c, m) || Reads(cfg, ChoiceItem(c), m)
        || ReadsDefault(cfg, ChoiceSel(c), m)
  {
    hide Reads, ReadsDefault;
    DefaultSymReads(cfg, c, 0, env);
    VisibleReads(cfg, c, 0, env);
  }

  // ----- The order -----

  // Items whose dependents were finished last come first; undefined ones before all.
  ghost function Level(g: Graph, done: seq<Item>, x: Item): (r: nat)
    ensures r <= |done| + 1
  {
    if !Known(g, x) then 0 else if Block(g, x) !in done then 1 else |done| - IndexIn(done, Block(g, x)) + 1
  }

  function Part(n: Node): nat {
    match n
    case ChoiceVis(_) => 0
    case ChoiceTri(_) => 1
    case SymVis(_) => 2
    case ChoiceSel(_) => 3
    case SymTri(_) => 4
    case SymStr(_) => 5
  }

  ghost function BaseRank(g: Graph, done: seq<Item>, n: Node): (r: nat)
    ensures r < 6 * |done| + 12
  {
    6 * Level(g, done, Owner(n)) + Part(n)
  }

  ghost predicate Sorted(cfg: Config, g: Graph, done: seq<Item>) {
    ChoicesOk(cfg) && GraphOf(cfg, g) && Ordered(g, done)
  }

  lemma WrittenIsDefined(cfg: Config, x: Item, y: Item)
    requires Written(cfg, x, y)
    ensures Defined(cfg, x)
  {}

  // What is written in a property of an item comes before the item.
  lemma WrittenLower(cfg: Config, g: Graph, done: seq<Item>, x: Item, y: nat)
    requires Sorted(cfg, g, done) && Written(cfg, x, SymItem(y))
    ensures Level(g, done, SymItem(y)) < Level(g, done, x)
  {
    hide Written;
    WrittenIsDefined(cfg, x, SymItem(y));
    if y < |cfg.syms| {
      assert Registered(cfg, g, x, y);
      DependsGoesDown(g, done, SymItem(y), x);
      var i := IndexIn(done, Block(g, SymItem(y)));
      assert Within(g, y, done[i]);
      assert Block(g, x) in done[..i];
    }
  }

  lemma SameLevel(cfg: Config, g: Graph, done: seq<Item>, c: nat, i: nat)
    requires Sorted(cfg, g, done) && i in ChoiceOf(cfg, c).syms
    ensures Level(g, done, SymItem(i)) == Level(g, done, ChoiceItem(c))
    ensures SymOf(cfg, i).choice == Some(c)
  {
    var k :| 0 <= k < |cfg.choices[c].syms| && cfg.choices[c].syms[k] == i;
    assert SymOf(cfg, cfg.choices[c].syms[k]).choice == Some(c);
  }
}

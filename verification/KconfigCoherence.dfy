// Plain recomputation of Kconfig values, and why early-stopping invalidation is sound.
module KconfigCoherence {
  import opened Options
  import opened KconfigModel

  // ----- plain recomputation -----

  // Whatever values are read, every evaluation reads only properties of smaller rank.
  ghost predicate Acyclic(cfg: Config, rank: Node -> nat) {
    forall u: User, n: Node, env: Env, m: Node ::
      UserOk(cfg, u) && m in Step(cfg, u, n, env).seen ==> rank(m) < rank(n)
  }

  // The value of n computed from scratch, without any cache.
  ghost function Eval(cfg: Config, u: User, rank: Node -> nat, n: Node): Value
    decreases rank(n)
  {
    Step(cfg, u, n, m => if rank(m) < rank(n) then Eval(cfg, u, rank, m) else TriVal(0)).v
  }

  ghost function Fresh(cfg: Config, u: User, rank: Node -> nat): Env {
    m => Eval(cfg, u, rank, m)
  }

  lemma EvalUnfold(cfg: Config, u: User, rank: Node -> nat, n: Node)
    requires Acyclic(cfg, rank) && UserOk(cfg, u)
    ensures Eval(cfg, u, rank, n) == Step(cfg, u, n, Fresh(cfg, u, rank)).v
  {
    hide Step;
    var low: Env := m => if rank(m) < rank(n) then Eval(cfg, u, rank, m) else TriVal(0);
    StepCong(cfg, u, n, low, Fresh(cfg, u, rank));
  }

  // ----- dependencies (Kconfig._build_dep and Kconfig._add_choice_deps) -----

  function OperandItems(op: Operand): set<Item> {
    if op.Literal? then {} else {SymItem(op.sym)}
  }

  // The items _make_depend_on registers with
  function ExprItems(e: Expr): set<Item> {
    match e
    case Leaf(op) => OperandItems(op)
    case Mode(c) => {ChoiceItem(c)}
    case And(l, r) => ExprItems(l) + ExprItems(r)
    case Or(l, r) => ExprItems(l) + ExprItems(r)
    case Not(f) => ExprItems(f)
    case Compare(_, a, b) => OperandItems(a) + OperandItems(b)
  }

  ghost predicate InSome(y: Item, es: seq<Expr>) {
    exists k :: 0 <= k < |es| && y in ExprItems(es[k])
  }

  // y occurs in a property of x, or is a symbol of the choice x
  ghost predicate Mentions(cfg: Config, x: Item, y: Item) {
    match x
    case SymItem(i) =>
      var s := SymOf(cfg, i);
      || InSome(y, s.prompts) || InSome(y, Conds(s.defaults)) || InSome(y, RangeConds(s.ranges))
      || (exists k :: 0 <= k < |s.defaults| && y in ExprItems(s.defaults[k].value))
      || (exists k :: 0 <= k < |s.ranges| &&
                      y in OperandItems(s.ranges[k].low) + OperandItems(s.ranges[k].high))
      || y in ExprItems(s.revDep) || y in ExprItems(s.weakRevDep) || y in ExprItems(s.directDep)
    case ChoiceItem(c) =>
      var ch := ChoiceOf(cfg, c);
      || InSome(y, ch.prompts)
      || (exists k :: 0 <= k < |ch.defaults| && y in ExprItems(ch.defaults[k].cond))
      || (y.SymItem? && y.sym in ch.syms)
  }

  // What parsing establishes: a choice symbol lists its choice in its direct dependencies,
  // and the choice lists the symbol.
  ghost predicate MembersOk(cfg: Config) {
    forall i :: SymOf(cfg, i).choice.Some? ==>
      var c := SymOf(cfg, i).choice.value;
      && c < |cfg.choices| && i in cfg.choices[c].syms
      && ChoiceItem(c) in ExprItems(SymOf(cfg, i).directDep)
  }

  // A user selection is always a symbol of its choice.
  ghost predicate UserOk(cfg: Config, u: User) {
    && |u.sym| == |cfg.syms| && |u.mode| == |cfg.choices| && |u.pick| == |cfg.choices|
    && (forall c :: 0 <= c < |u.pick| && u.pick[c].Some? ==> u.pick[c].value in cfg.choices[c].syms)
  }

  ghost predicate IsModules(cfg: Config, x: Item) { cfg.modules.Some? && x == SymItem(cfg.modules.value) }

  // x is told when y changes, or every item is
  ghost predicate Tracks(cfg: Config, x: Item, y: Item) {
    x == y || Mentions(cfg, x, y) || IsModules(cfg, y)
  }

  // The choice is told when one of its default symbols changes: the symbol is one of its own, or it
  // occurs in a prompt or default condition of the choice. Parsing warns when the symbol is not in
  // the choice, and goes on.
  ghost predicate DefaultsTracked(cfg: Config) {
    forall c, k :: 0 <= k < |ChoiceOf(cfg, c).defaults| ==>
      Tracks(cfg, ChoiceItem(c), SymItem(ChoiceOf(cfg, c).defaults[k].sym))
  }

  ghost predicate WellFormed(cfg: Config) { MembersOk(cfg) && DefaultsTracked(cfg) }

  // m is the visibility of a default symbol, read for the selection n
  ghost predicate ReadsDefault(cfg: Config, n: Node, m: Node) {
    n.ChoiceSel? && m.SymVis? &&
    exists k :: 0 <= k < |ChoiceOf(cfg, n.c).defaults| && ChoiceOf(cfg, n.c).defaults[k].sym == m.i
  }

  ghost predicate AllTracked(cfg: Config, x: Item, seen: set<Node>) {
    forall m :: m in seen ==> Tracks(cfg, x, Owner(m))
  }

  // What an expression asks for: values of symbols and modes of choices
  predicate Asked(m: Node) { m.SymTri? || m.SymStr? || m.ChoiceTri? }

  lemma ExprSeen(cfg: Config, e: Expr, env: Env)
    ensures forall m :: m in ExprEv(cfg, e, env).seen ==> Owner(m) in ExprItems(e) && Asked(m)
  {
  }

  lemma PromptsSeen(cfg: Config, es: seq<Expr>, k: nat, env: Env)
    requires k <= |es|
    ensures forall m :: m in PromptsEv(cfg, es, k, env).seen ==> InSome(Owner(m), es) && Asked(m)
    decreases |es| - k
  {
    if k < |es| { ExprSeen(cfg, es[k], env); PromptsSeen(cfg, es, k + 1, env); }
  }

  lemma FirstSeen(cfg: Config, es: seq<Expr>, k: nat, env: Env)
    requires k <= |es|
    ensures forall m :: m in FirstEv(cfg, es, k, env).seen ==> InSome(Owner(m), es) && Asked(m)
    decreases |es| - k
  {
    if k < |es| { ExprSeen(cfg, es[k], env); FirstSeen(cfg, es, k + 1, env); }
  }

  lemma TypeSeen(cfg: Config, typ: SymType, choice: Option<nat>, env: Env)
    ensures forall m :: m in ActsAsBoolEv(cfg, typ, choice, env).seen ==>
              IsModules(cfg, Owner(m)) || (choice.Some? && Owner(m) == ChoiceItem(choice.value))
  {
  }

  lemma DefaultSeen(cfg: Config, i: nat, env: Env)
    ensures AllTracked(cfg, SymItem(i), DefaultTriEv(cfg, SymOf(cfg, i), env).seen)
    ensures AllTracked(cfg, SymItem(i), DefaultTextEv(cfg, SymOf(cfg, i), env).seen)
  {
    var s := SymOf(cfg, i);
    FirstSeen(cfg, Conds(s.defaults), 0, env);
    var k := FirstEv(cfg, Conds(s.defaults), 0, env).v.0;
    if k < |s.defaults| { ExprSeen(cfg, s.defaults[k].value, env); }
  }

  lemma RangeSeen(cfg: Config, i: nat, env: Env)
    ensures AllTracked(cfg, SymItem(i), RangeEv(cfg, SymOf(cfg, i), env).seen)
  {
    FirstSeen(cfg, RangeConds(SymOf(cfg, i).ranges), 0, env);
  }

  lemma PlainSeen(cfg: Config, u: User, i: nat, env: Env)
    requires MembersOk(cfg)
    ensures AllTracked(cfg, SymItem(i), PlainTriEv(cfg, u, i, env).seen)
  {
    var s := SymOf(cfg, i);
    DefaultSeen(cfg, i, env);
    ExprSeen(cfg, s.weakRevDep, env);
    ExprSeen(cfg, s.directDep, env);
    ExprSeen(cfg, s.revDep, env);
    TypeSeen(cfg, s.typ, s.choice, env);
    assert AllTracked(cfg, SymItem(i), ActsAsBoolEv(cfg, s.typ, s.choice, env).seen);
  }

  lemma DefaultSymSeen(cfg: Config, c: nat, k: nat, env: Env)
    requires k <= |ChoiceOf(cfg, c).defaults|
    ensures forall m :: m in FirstDefaultSymEv(cfg, ChoiceOf(cfg, c).defaults, k, env).seen ==>
              Tracks(cfg, ChoiceItem(c), Owner(m)) || ReadsDefault(cfg, ChoiceSel(c), m)
    decreases |ChoiceOf(cfg, c).defaults| - k
  {
    var ds := ChoiceOf(cfg, c).defaults;
    if k < |ds| {
      ExprSeen(cfg, ds[k].cond, env);
      DefaultSymSeen(cfg, c, k + 1, env);
      assert ReadsDefault(cfg, ChoiceSel(c), SymVis(ds[k].sym));
    }
  }

  lemma VisibleSeen(cfg: Config, c: nat, k: nat, env: Env)
    requires k <= |ChoiceOf(cfg, c).syms|
    ensures AllTracked(cfg, ChoiceItem(c), FirstVisibleEv(ChoiceOf(cfg, c).syms, k, env).seen)
    decreases |ChoiceOf(cfg, c).syms| - k
  {
  }

  // The dependents found by _build_dep and _add_choice_deps cover every property that evaluating n
  // can read, MODULES and the default symbols of a choice excepted.
  lemma StepTracked(cfg: Config, u: User, n: Node, env: Env)
    requires MembersOk(cfg) && UserOk(cfg, u)
    ensures forall m :: m in Step(cfg, u, n, env).seen ==>
              Tracks(cfg, Owner(n), Owner(m)) || ReadsDefault(cfg, n, m)
  {
    match n
    case SymVis(i) => SymVisTracked(cfg, i, env);
    case SymTri(i) => SymTriTracked(cfg, u, i, env);
    case SymStr(i) => SymStrTracked(cfg, u, i, env);
    case ChoiceVis(c) => ChoiceVisTracked(cfg, c, env);
    case ChoiceTri(c) => TypeSeen(cfg, ChoiceOf(cfg, c).typ, None, env);
    case ChoiceSel(c) => DefaultSymSeen(cfg, c, 0, env); VisibleSeen(cfg, c, 0, env);
  }

  lemma SymStrTracked(cfg: Config, u: User, i: nat, env: Env)
    ensures AllTracked(cfg, SymItem(i), Step(cfg, u, SymStr(i), env).seen)
  {
    DefaultSeen(cfg, i, env);
    RangeSeen(cfg, i, env);
  }

  lemma ChoiceVisTracked(cfg: Config, c: nat, env: Env)
    ensures AllTracked(cfg, ChoiceItem(c), ChoiceVisEv(cfg, c, env).seen)
  {
    PromptsSeen(cfg, ChoiceOf(cfg, c).prompts, 0, env);
    TypeSeen(cfg, ChoiceOf(cfg, c).typ, None, env);
  }

  lemma SymVisTracked(cfg: Config, i: nat, env: Env)
    requires MembersOk(cfg)
    ensures AllTracked(cfg, SymItem(i), SymVisEv(cfg, i, env).seen)
  {
    var s := SymOf(cfg, i);
    PromptsSeen(cfg, s.prompts, 0, env);
    TypeSeen(cfg, s.typ, s.choice, env);
    assert s.choice.Some? ==> Mentions(cfg, SymItem(i), ChoiceItem(s.choice.value));
  }

  lemma SymTriTracked(cfg: Config, u: User, i: nat, env: Env)
    requires MembersOk(cfg)
    ensures AllTracked(cfg, SymItem(i), SymTriEv(cfg, u, i, env).seen)
  {
    var s := SymOf(cfg, i);
    assert s.choice.Some? ==> Mentions(cfg, SymItem(i), ChoiceItem(s.choice.value));
    PlainSeen(cfg, u, i, env);
  }

  // ----- coherence of the cache -----

  type Cache = map<Node, Value>

  // n is cached; Choice.tri_value is not stored, so there it is what it reads that is cached.
  ghost predicate Live(cfg: Config, u: User, rank: Node -> nat, cache: Cache, n: Node) {
    if n.ChoiceTri? then
      forall k :: k in Step(cfg, u, n, Fresh(cfg, u, rank)).seen ==> k in cache
    else n in cache
  }

  // Every cached value is what recomputation gives; everything read to compute it is cached;
  // and a cached value that read anything comes with a cached visibility.
  ghost predicate Coherent(cfg: Config, u: User, rank: Node -> nat, cache: Cache) {
    forall n :: n in cache ==>
      && !n.ChoiceTri?
      && cache[n] == Eval(cfg, u, rank, n)
      && (forall m :: m in Step(cfg, u, n, Fresh(cfg, u, rank)).seen ==> Live(cfg, u, rank, cache, m))
      && (Step(cfg, u, n, Fresh(cfg, u, rank)).seen == {} || VisNode(Owner(n)) in cache)
  }

  ghost predicate Submap(a: Cache, b: Cache) {
    forall n :: n in a ==> n in b && a[n] == b[n]
  }

  ghost predicate Kept(before: Cache, after: Cache, y: Item) {
    forall n :: Owner(n) == y && n in before ==> n in after
  }

  // y lost its values, and so did everything that depends on it and had a cached visibility
  ghost predicate Cleared(cfg: Config, after: Cache, y: Item) {
    && (forall n :: Owner(n) == y ==> n !in after)
    && (forall x :: Mentions(cfg, x, y) ==> VisNode(x) !in after)
    && (IsModules(cfg, y) ==> after == map[])
  }

  // What _rec_invalidate leaves behind
  ghost predicate Cut(cfg: Config, before: Cache, after: Cache) {
    Submap(after, before) && forall y :: Kept(before, after, y) || Cleared(cfg, after, y)
  }

  // ----- which invalidations reach an item -----

  // Each item on the path is told of the next one, and has a cached visibility to be told by.
  ghost predicate Path(cfg: Config, cache: Cache, path: seq<Item>) {
    path != [] && forall j :: 0 <= j < |path| - 1 ==> Link(cfg, cache, path[j], path[j + 1])
  }

  ghost predicate Link(cfg: Config, cache: Cache, x: Item, y: Item) { Tracks(cfg, x, y) && VisNode(x) in cache }

  // Invalidating y reaches x.
  ghost predicate Linked(cfg: Config, cache: Cache, x: Item, y: Item) {
    exists path :: Path(cfg, cache, path) && path[0] == x && path[|path| - 1] == y
  }

  lemma LinkedSelf(cfg: Config, cache: Cache, x: Item)
    ensures Linked(cfg, cache, x, x)
  {
    assert Path(cfg, cache, [x]);
  }

  lemma LinkedStep(cfg: Config, cache: Cache, x: Item, y: Item, z: Item)
    requires Link(cfg, cache, x, y) && Linked(cfg, cache, y, z)
    ensures Linked(cfg, cache, x, z)
  {
    var path :| Path(cfg, cache, path) && path[0] == y && path[|path| - 1] == z;
    var longer := [x] + path;
    forall j | 0 <= j < |longer| - 1 ensures Link(cfg, cache, longer[j], longer[j + 1]) {
      if j > 0 { assert Link(cfg, cache, path[j - 1], path[j]); }
    }
    assert Path(cfg, cache, longer);
  }

  lemma LinkedOnce(cfg: Config, cache: Cache, x: Item, y: Item)
    requires Link(cfg, cache, x, y)
    ensures Linked(cfg, cache, x, y)
  {
    LinkedSelf(cfg, cache, y);
    LinkedStep(cfg, cache, x, y, y);
  }

  // A path in a smaller cache, and one more link
  lemma LinkedOn(cfg: Config, before: Cache, mid: Cache, z: Item, y: Item, x: Item)
    requires Submap(mid, before) && Linked(cfg, mid, z, y) && Link(cfg, before, y, x)
    ensures Linked(cfg, before, z, x)
  {
    var path :| Path(cfg, mid, path) && path[0] == z && path[|path| - 1] == y;
    var longer := path + [x];
    forall j | 0 <= j < |longer| - 1 ensures Link(cfg, before, longer[j], longer[j + 1]) {
      if j < |path| - 1 { assert Link(cfg, mid, path[j], path[j + 1]); }
    }
    assert Path(cfg, before, longer);
  }

  lemma {:induction false} PathCleared(cfg: Config, before: Cache, after: Cache, path: seq<Item>)
    requires Cut(cfg, before, after) && Path(cfg, before, path) && Cleared(cfg, after, path[|path| - 1])
    ensures Cleared(cfg, after, path[0])
    decreases |path|
  {
    if |path| > 1 {
      assert Path(cfg, before, path[1..]) by {
        forall j | 0 <= j < |path| - 2 ensures Link(cfg, before, path[1..][j], path[1..][j + 1]) {
          assert Link(cfg, before, path[j + 1], path[j + 2]);
        }
      }
      PathCleared(cfg, before, after, path[1..]);
      assert Link(cfg, before, path[0], path[1]);
      LinkCleared(cfg, before, after, path[0], path[1]);
    }
  }

  lemma LinkCleared(cfg: Config, before: Cache, after: Cache, x: Item, y: Item)
    requires Cut(cfg, before, after) && Link(cfg, before, x, y) && Cleared(cfg, after, y)
    ensures Cleared(cfg, after, x)
  {
    if x != y {
      assert Owner(VisNode(x)) == x && VisNode(x) !in after;
      assert !Kept(before, after, x);
    }
  }

  // Everything an invalidation reaches loses its values.
  lemma LinkedCleared(cfg: Config, before: Cache, after: Cache, x: Item, y: Item)
    requires Cut(cfg, before, after) && Linked(cfg, before, x, y) && Cleared(cfg, after, y)
    ensures Cleared(cfg, after, x)
  {
    var path :| Path(cfg, before, path) && path[0] == x && path[|path| - 1] == y;
    PathCleared(cfg, before, after, path);
  }

  // Invalidating x clears z; when it gets to MODULES, it clears everything.
  ghost predicate Reached(cfg: Config, cache: Cache, z: Item, x: Item) {
    Linked(cfg, cache, z, x) || (cfg.modules.Some? && Linked(cfg, cache, SymItem(cfg.modules.value), x))
  }

  ghost predicate OnlyReached(cfg: Config, before: Cache, after: Cache, x: Item) {
    forall z :: Kept(before, after, z) || Reached(cfg, before, z, x)
  }

  // An invalidation of x that goes on to invalidate y
  lemma OnlyReachedOn(cfg: Config, first: Cache, mid: Cache, last: Cache, y: Item, x: Item)
    requires Submap(mid, first) && Link(cfg, first, y, x)
    requires OnlyReached(cfg, first, mid, x) && OnlyReached(cfg, mid, last, y)
    ensures OnlyReached(cfg, first, last, x)
  {
    hide Linked, Link;
    forall z ensures Kept(first, last, z) || Reached(cfg, first, z, x) {
      if Linked(cfg, mid, z, y) {
        LinkedOn(cfg, first, mid, z, y, x);
      } else if Reached(cfg, mid, z, y) {
        LinkedOn(cfg, first, mid, SymItem(cfg.modules.value), y, x);
      } else {
        assert Kept(mid, last, z);
      }
    }
  }

  // The cached selections are reached by whatever invalidates a default symbol they looked at.
  ghost predicate DefaultsLinked(cfg: Config, u: User, rank: Node -> nat, cache: Cache) {
    forall c, m | ChoiceSel(c) in cache && m in Step(cfg, u, ChoiceSel(c), Fresh(cfg, u, rank)).seen
               && ReadsDefault(cfg, ChoiceSel(c), m) ::
      Linked(cfg, cache, ChoiceItem(c), Owner(m))
  }

  lemma TrackedLinked(cfg: Config, u: User, rank: Node -> nat, cache: Cache)
    requires WellFormed(cfg) && Coherent(cfg, u, rank, cache)
    ensures DefaultsLinked(cfg, u, rank, cache)
  {
    forall c, m | ChoiceSel(c) in cache && m in Step(cfg, u, ChoiceSel(c), Fresh(cfg, u, rank)).seen
               && ReadsDefault(cfg, ChoiceSel(c), m)
      ensures Linked(cfg, cache, ChoiceItem(c), Owner(m)) {
      assert VisNode(Owner(ChoiceSel(c))) in cache;
      LinkedOnce(cfg, cache, ChoiceItem(c), Owner(m));
    }
  }

  // Whatever a cached property read reaches it.
  lemma ReadsLinked(cfg: Config, u: User, rank: Node -> nat, cache: Cache, n: Node, m: Node)
    requires MembersOk(cfg) && UserOk(cfg, u) && Coherent(cfg, u, rank, cache) && DefaultsLinked(cfg, u, rank, cache)
    requires n in cache && m in Step(cfg, u, n, Fresh(cfg, u, rank)).seen
    ensures Linked(cfg, cache, Owner(n), Owner(m))
  {
    hide Tracks, ReadsDefault, Linked, MembersOk;
    StepTracked(cfg, u, n, Fresh(cfg, u, rank));
    if !ReadsDefault(cfg, n, m) {
      assert VisNode(Owner(n)) in cache;
      LinkedOnce(cfg, cache, Owner(n), Owner(m));
    } else {
      DefaultIsSel(cfg, n, m);
    }
  }

  lemma DefaultIsSel(cfg: Config, n: Node, m: Node)
    requires ReadsDefault(cfg, n, m)
    ensures n == ChoiceSel(n.c)
  {}

  lemma ChoiceModeSeen(cfg: Config, u: User, c: nat, env: Env)
    ensures forall k :: k in Step(cfg, u, ChoiceTri(c), env).seen ==>
              Owner(k) == ChoiceItem(c) || IsModules(cfg, Owner(k))
  {
    TypeSeen(cfg, ChoiceOf(cfg, c).typ, None, env);
  }

  // A property that survives keeps everything it read.
  lemma SurvivorKeepsReads(cfg: Config, u: User, rank: Node -> nat, before: Cache, after: Cache, n: Node, m: Node)
    requires MembersOk(cfg) && UserOk(cfg, u) && Acyclic(cfg, rank)
    requires Coherent(cfg, u, rank, before) && DefaultsLinked(cfg, u, rank, before) && Cut(cfg, before, after)
    requires Live(cfg, u, rank, after, n) && m in Step(cfg, u, n, Fresh(cfg, u, rank)).seen
    ensures Live(cfg, u, rank, after, m)
  {
    var env := Fresh(cfg, u, rank);
    if n.ChoiceTri? {
      assert m in after && m in before;
    } else {
      assert n in before && Live(cfg, u, rank, before, m);
      ReadsLinked(cfg, u, rank, before, n, m);
      if m.ChoiceTri? {
        forall k | k in Step(cfg, u, m, env).seen ensures k in after {
          ChoiceModeSeen(cfg, u, m.c, env);
          SurvivorKeepsVis(cfg, u, rank, before, after, n, m, k);
        }
      } else {
        SurvivorKeepsVis(cfg, u, rank, before, after, n, m, m);
      }
    }
  }

  // The cached node k belongs to an item that reaches n, or to MODULES; it survives with n.
  lemma SurvivorKeepsVis(cfg: Config, u: User, rank: Node -> nat, before: Cache, after: Cache, n: Node, m: Node,
      k: Node)
    requires Coherent(cfg, u, rank, before) && Cut(cfg, before, after)
    requires n in after && m in Step(cfg, u, n, Fresh(cfg, u, rank)).seen
    requires k in before && (Owner(k) == Owner(m) || IsModules(cfg, Owner(k)))
    requires Linked(cfg, before, Owner(n), Owner(m))
    ensures k in after
  {
    if Cleared(cfg, after, Owner(k)) {
      if !IsModules(cfg, Owner(k)) { LinkedCleared(cfg, before, after, Owner(n), Owner(m)); }
    }
  }

  lemma SurvivorSameValue(cfg: Config, u: User, u2: User, rank: Node -> nat, before: Cache, after: Cache, n: Node)
    requires MembersOk(cfg) && UserOk(cfg, u) && UserOk(cfg, u2) && Acyclic(cfg, rank)
    requires Coherent(cfg, u, rank, before) && DefaultsLinked(cfg, u, rank, before) && Cut(cfg, before, after)
    requires forall k :: Live(cfg, u, rank, after, k) ==>
               Step(cfg, u2, k, Fresh(cfg, u, rank)) == Step(cfg, u, k, Fresh(cfg, u, rank))
    requires Live(cfg, u, rank, after, n)
    ensures Eval(cfg, u2, rank, n) == Eval(cfg, u, rank, n)
    ensures Step(cfg, u2, n, Fresh(cfg, u2, rank)) == Step(cfg, u, n, Fresh(cfg, u, rank))
    decreases rank(n)
  {
    var f1, f2 := Fresh(cfg, u, rank), Fresh(cfg, u2, rank);
    forall m | m in Step(cfg, u2, n, f1).seen ensures f1(m) == f2(m) {
      SurvivorKeepsReads(cfg, u, rank, before, after, n, m);
      SurvivorSameValue(cfg, u, u2, rank, before, after, m);
    }
    StepCong(cfg, u2, n, f1, f2);
    EvalUnfold(cfg, u, rank, n);
    EvalUnfold(cfg, u2, rank, n);
  }

  // After user input changes from u to u2, the cache that early-stopping invalidation leaves
  // is coherent for u2, provided the properties still cached do not themselves look at what
  // changed.
  lemma InvalidationSound(cfg: Config, u: User, u2: User, rank: Node -> nat, before: Cache, after: Cache)
    requires MembersOk(cfg) && UserOk(cfg, u) && UserOk(cfg, u2) && Acyclic(cfg, rank)
    requires Coherent(cfg, u, rank, before) && DefaultsLinked(cfg, u, rank, before) && Cut(cfg, before, after)
    requires forall k :: Live(cfg, u, rank, after, k) ==>
               Step(cfg, u2, k, Fresh(cfg, u, rank)) == Step(cfg, u, k, Fresh(cfg, u, rank))
    ensures Coherent(cfg, u2, rank, after)
  {
    forall n | n in after
      ensures !n.ChoiceTri? && after[n] == Eval(cfg, u2, rank, n)
      ensures forall m :: m in Step(cfg, u2, n, Fresh(cfg, u2, rank)).seen ==> Live(cfg, u2, rank, after, m)
      ensures Step(cfg, u2, n, Fresh(cfg, u2, rank)).seen == {} || VisNode(Owner(n)) in after
    {
      assert n in before;
      SurvivorSameValue(cfg, u, u2, rank, before, after, n);
      forall m | m in Step(cfg, u2, n, Fresh(cfg, u2, rank)).seen ensures Live(cfg, u2, rank, after, m) {
        SurvivorKeepsReads(cfg, u, rank, before, after, n, m);
        SurvivorSameValue(cfg, u, u2, rank, before, after, m);
      }
      assert !Cleared(cfg, after, Owner(n));
      assert Owner(VisNode(Owner(n))) == Owner(n);
    }
  }

  // What invalidating y leaves if it clears no more than it has to
  ghost function LeastCut(cfg: Config, before: Cache, y: Item): Cache {
    map n | n in before && !Linked(cfg, before, Owner(n), y) :: before[n]
  }

  lemma LeastCutIsCut(cfg: Config, before: Cache, x: Item, y: Item)
    requires VisNode(x) in before && !Linked(cfg, before, x, y)
    ensures Cut(cfg, before, LeastCut(cfg, before, y)) && Cleared(cfg, LeastCut(cfg, before, y), y)
  {
    hide Linked, Cleared, Kept;
    forall z: Item ensures Kept(before, LeastCut(cfg, before, y), z) || Cleared(cfg, LeastCut(cfg, before, y), z) {
      if Linked(cfg, before, z, y) { LeastClears(cfg, before, x, y, z); } else { LeastKeeps(cfg, before, y, z); }
    }
    LinkedSelf(cfg, before, y);
    LeastClears(cfg, before, x, y, y);
  }

  lemma LeastKeeps(cfg: Config, before: Cache, y: Item, z: Item)
    requires !Linked(cfg, before, z, y)
    ensures Kept(before, LeastCut(cfg, before, y), z)
  {}

  lemma LeastClears(cfg: Config, before: Cache, x: Item, y: Item, z: Item)
    requires VisNode(x) in before && !Linked(cfg, before, x, y) && Linked(cfg, before, z, y)
    ensures Cleared(cfg, LeastCut(cfg, before, y), z)
  {
    hide Linked, Mentions;
    var after := LeastCut(cfg, before, y);
    forall w | Mentions(cfg, w, z) ensures VisNode(w) !in after {
      if VisNode(w) in before { LinkedStep(cfg, before, w, z, y); assert Owner(VisNode(w)) == w; }
    }
    if IsModules(cfg, z) { LinkedStep(cfg, before, x, z, y); }
  }

  // Exactly when every cached selection is reached from the default symbols it looked at, any
  // invalidation, even of nothing but what it must clear, leaves a coherent cache.
  lemma InvalidationExact(cfg: Config, u: User, rank: Node -> nat, before: Cache)
    requires MembersOk(cfg) && UserOk(cfg, u) && Acyclic(cfg, rank) && Coherent(cfg, u, rank, before)
    ensures DefaultsLinked(cfg, u, rank, before) <==>
              forall after | Cut(cfg, before, after) :: Coherent(cfg, u, rank, after)
  {
    if DefaultsLinked(cfg, u, rank, before) {
      forall after | Cut(cfg, before, after) ensures Coherent(cfg, u, rank, after) {
        InvalidationSound(cfg, u, u, rank, before, after);
      }
    } else {
      var c, m :| ChoiceSel(c) in before && m in Step(cfg, u, ChoiceSel(c), Fresh(cfg, u, rank)).seen
               && ReadsDefault(cfg, ChoiceSel(c), m) && !Linked(cfg, before, ChoiceItem(c), Owner(m));
      LosesRead(cfg, u, rank, before, c, m);
    }
  }

  lemma LosesRead(cfg: Config, u: User, rank: Node -> nat, before: Cache, c: nat, m: Node)
    requires Coherent(cfg, u, rank, before) && ChoiceSel(c) in before && !Linked(cfg, before, ChoiceItem(c), Owner(m))
    requires m in Step(cfg, u, ChoiceSel(c), Fresh(cfg, u, rank)).seen && ReadsDefault(cfg, ChoiceSel(c), m)
    ensures Cut(cfg, before, LeastCut(cfg, before, Owner(m)))
    ensures !Coherent(cfg, u, rank, LeastCut(cfg, before, Owner(m)))
  {
    assert VisNode(Owner(ChoiceSel(c))) in before;
    LeastCutIsCut(cfg, before, ChoiceItem(c), Owner(m));
    LinkedSelf(cfg, before, Owner(m));
    var after := LeastCut(cfg, before, Owner(m));
    assert ChoiceSel(c) in after && m !in after && !Live(cfg, u, rank, after, m);
  }

  // A user value of symbol i, or the mode or selection of choice c, is looked at only by the
  // value properties of that item.
  lemma UserLocal(cfg: Config, u: User, u2: User, n: Node, env: Env)
    requires UserOk(cfg, u) && UserOk(cfg, u2)
    requires Owner(n).SymItem? ==> n.i >= |u.sym| || u.sym[n.i] == u2.sym[n.i]
    requires Owner(n).ChoiceItem? ==> n.c >= |u.mode| || (u.mode[n.c] == u2.mode[n.c] && u.pick[n.c] == u2.pick[n.c])
    ensures Step(cfg, u2, n, env) == Step(cfg, u, n, env)
  {
    match n
    case SymVis(i) =>
    case SymTri(i) =>
      assert UserTri(u, i) == UserTri(u2, i);
      assert PlainTriEv(cfg, u2, i, env) == PlainTriEv(cfg, u, i, env);
    case SymStr(i) => assert UserText(u, i) == UserText(u2, i);
    case ChoiceVis(c) =>
    case ChoiceTri(c) =>
    case ChoiceSel(c) =>
  }

  // A symbol without a prompt is never visible, so its user value is never used.
  lemma PromptlessIgnoresUser(cfg: Config, u: User, u2: User, i: nat, n: Node, env: Env)
    requires Owner(n) == SymItem(i) && SymOf(cfg, i).prompts == [] && ToTri(env(SymVis(i))) == 0
    ensures Step(cfg, u2, n, env) == Step(cfg, u, n, env)
  {
  }

  lemma PromptlessInvisible(cfg: Config, u: User, rank: Node -> nat, i: nat)
    requires Acyclic(cfg, rank) && UserOk(cfg, u) && SymOf(cfg, i).prompts == []
    ensures Eval(cfg, u, rank, SymVis(i)) == TriVal(0)
  {
    EvalUnfold(cfg, u, rank, SymVis(i));
  }

  // Setting or unsetting the value of symbol i
  lemma SymbolChangeSound(cfg: Config, u: User, u2: User, rank: Node -> nat, before: Cache, after: Cache, i: nat)
    requires MembersOk(cfg) && UserOk(cfg, u) && UserOk(cfg, u2) && Acyclic(cfg, rank) && i < |u.sym|
    requires Coherent(cfg, u, rank, before) && DefaultsLinked(cfg, u, rank, before) && Cut(cfg, before, after)
    requires u2 == u.(sym := u.sym[i := u2.sym[i]])
    requires Cleared(cfg, after, SymItem(i)) || SymOf(cfg, i).prompts == []
    ensures Coherent(cfg, u2, rank, after)
  {
    forall k | Live(cfg, u, rank, after, k)
      ensures Step(cfg, u2, k, Fresh(cfg, u, rank)) == Step(cfg, u, k, Fresh(cfg, u, rank))
    {
      if Owner(k) != SymItem(i) { UserLocal(cfg, u, u2, k, Fresh(cfg, u, rank)); }
      else if SymOf(cfg, i).prompts == [] {
        PromptlessInvisible(cfg, u, rank, i);
        PromptlessIgnoresUser(cfg, u, u2, i, k, Fresh(cfg, u, rank));
      }
    }
    InvalidationSound(cfg, u, u2, rank, before, after);
  }

  lemma NoReadsNoUser(cfg: Config, u: User, u2: User, k: Node, env: Env)
    requires Owner(k).SymItem? && Step(cfg, u, k, env).seen == {}
    ensures Step(cfg, u2, k, env) == Step(cfg, u, k, env)
  {
    match k
    case SymVis(i) =>
    case SymTri(i) => assert IsLogical(SymOf(cfg, i).typ) ==> SymVis(i) in SymTriEv(cfg, u, i, env).seen;
    case SymStr(i) =>
      assert SymOf(cfg, i).typ.Unknown? || SymTri(i) in SymStrEv(cfg, u, i, env).seen
          || SymVis(i) in SymStrEv(cfg, u, i, env).seen;
  }

  // Once the choice of symbol j is invalidated, what is still cached of j ignores user input.
  lemma InvalidatedMemberIgnoresUser(cfg: Config, u: User, u2: User, rank: Node -> nat, before: Cache, after: Cache,
      j: nat, k: Node)
    requires MembersOk(cfg) && Coherent(cfg, u, rank, before) && Cut(cfg, before, after)
    requires SymOf(cfg, j).choice.Some? && Cleared(cfg, after, ChoiceItem(SymOf(cfg, j).choice.value))
    requires Owner(k) == SymItem(j) && k in after
    ensures Step(cfg, u2, k, Fresh(cfg, u, rank)) == Step(cfg, u, k, Fresh(cfg, u, rank))
  {
    var env := Fresh(cfg, u, rank);
    assert Mentions(cfg, SymItem(j), ChoiceItem(SymOf(cfg, j).choice.value));
    assert VisNode(SymItem(j)) !in after;
    assert !Cleared(cfg, after, SymItem(j));
    assert Owner(VisNode(SymItem(j))) == SymItem(j) && VisNode(SymItem(j)) !in before;
    NoReadsNoUser(cfg, u, u2, k, env);
  }

  // Changing the mode or selection of choice c, and with it the value of one of its symbols
  lemma ChoiceChangeSound(cfg: Config, u: User, u2: User, rank: Node -> nat, before: Cache, after: Cache, c: nat)
    requires MembersOk(cfg) && UserOk(cfg, u) && UserOk(cfg, u2) && Acyclic(cfg, rank)
    requires Coherent(cfg, u, rank, before) && DefaultsLinked(cfg, u, rank, before) && Cut(cfg, before, after)
    requires Cleared(cfg, after, ChoiceItem(c))
    requires forall d :: 0 <= d < |u.mode| && d != c ==> u2.mode[d] == u.mode[d] && u2.pick[d] == u.pick[d]
    requires forall j :: 0 <= j < |u.sym| && u2.sym[j] != u.sym[j] ==> SymOf(cfg, j).choice == Some(c)
    ensures Coherent(cfg, u2, rank, after)
  {
    assert ChoiceVis(c) in Step(cfg, u, ChoiceTri(c), Fresh(cfg, u, rank)).seen;
    forall k | Live(cfg, u, rank, after, k)
      ensures Step(cfg, u2, k, Fresh(cfg, u, rank)) == Step(cfg, u, k, Fresh(cfg, u, rank))
    {
      match Owner(k)
      case ChoiceItem(d) =>
        UserLocal(cfg, u, u2, k, Fresh(cfg, u, rank));
      case SymItem(j) =>
        if j < |u.sym| && u2.sym[j] != u.sym[j] {
          InvalidatedMemberIgnoresUser(cfg, u, u2, rank, before, after, j, k);
        } else {
          UserLocal(cfg, u, u2, k, Fresh(cfg, u, rank));
        }
    }
    InvalidationSound(cfg, u, u2, rank, before, after);
  }
}

// What the values of symbols and choices are, whichever way they were computed: laws of every
// assignment in which each property has the value of its own evaluation.
module KconfigValues {
  import opened Options
  import opened KconfigModel
  import opened KconfigCoherence

  ghost predicate Solves(cfg: Config, u: User, env: Env) { forall n :: env(n) == Step(cfg, u, n, env).v }

  // The recomputed values are one, and so are those the cached readers return.
  lemma FreshSolves(cfg: Config, u: User, rank: Node -> nat)
    requires Acyclic(cfg, rank) && UserOk(cfg, u)
    ensures Solves(cfg, u, Fresh(cfg, u, rank))
  {
    hide Step, Acyclic;
    forall n ensures Fresh(cfg, u, rank)(n) == Step(cfg, u, n, Fresh(cfg, u, rank)).v { EvalUnfold(cfg, u, rank, n); }
  }

  function Vis(env: Env, i: nat): Tri { ToTri(env(SymVis(i))) }
  function Val(env: Env, i: nat): Tri { ToTri(env(SymTri(i))) }
  function Text(env: Env, i: nat): string { ToText(env(SymStr(i))) }
  function ModeOf(env: Env, c: nat): Tri { ToTri(env(ChoiceTri(c))) }
  function Selection(env: Env, c: nat): Option<nat> { ToSel(env(ChoiceSel(c))) }

  function ExprVal(cfg: Config, e: Expr, env: Env): Tri { ExprEv(cfg, e, env).v }

  predicate Lesser(v: Tri, a: Tri, b: Tri) { v <= a && v <= b && (v == a || v == b) }
  predicate Greater(v: Tri, a: Tri, b: Tri) { v >= a && v >= b && (v == a || v == b) }

  // ----- expressions -----

  // && is the lesser, || the greater, ! turns the order round; the operands that evaluation skips
  // do not matter.
  lemma LogicLaws(cfg: Config, a: Expr, b: Expr, env: Env)
    ensures Lesser(ExprVal(cfg, And(a, b), env), ExprVal(cfg, a, env), ExprVal(cfg, b, env))
    ensures Greater(ExprVal(cfg, Or(a, b), env), ExprVal(cfg, a, env), ExprVal(cfg, b, env))
    ensures ExprVal(cfg, Not(Not(a)), env) == ExprVal(cfg, a, env)
    ensures ExprVal(cfg, a, env) <= ExprVal(cfg, b, env) <==> ExprVal(cfg, Not(b), env) <= ExprVal(cfg, Not(a), env)
    ensures ExprVal(cfg, Not(And(a, b)), env) == ExprVal(cfg, Or(Not(a), Not(b)), env)
    ensures ExprVal(cfg, Not(Or(a, b)), env) == ExprVal(cfg, And(Not(a), Not(b)), env)
  {
    var x, y := ExprVal(cfg, a, env), ExprVal(cfg, b, env);
    assert ExprVal(cfg, Not(a), env) == 2 - x && ExprVal(cfg, Not(b), env) == 2 - y;
    assert ExprVal(cfg, And(a, b), env) == Min(x, y) && ExprVal(cfg, Or(a, b), env) == Max(x, y);
  }

  // A symbol in an expression stands for its value, a choice for its mode.
  lemma LeafLaws(cfg: Config, i: nat, c: nat, typ: SymType, t: Tri, text: string, env: Env)
    ensures ExprVal(cfg, Leaf(Ref(i)), env) == Val(env, i)
    ensures ExprVal(cfg, Leaf(Literal(typ, t, text)), env) == t
    ensures ExprVal(cfg, Mode(c), env) == ModeOf(env, c)
    ensures TextOf(Ref(i), env).v == Text(env, i) && TextOf(Literal(typ, t, text), env).v == text
  {}

  // The lexicographic order
  ghost predicate TextLess(a: string, b: string) {
    exists k :: 0 <= k <= |a| && k <= |b| && a[..k] == b[..k] &&
      ((k == |a| && k < |b|) || (k < |a| && k < |b| && a[k] < b[k]))
  }

  lemma {:induction false} StrCmpIs(a: string, b: string)
    ensures StrCmp(a, b) == 0 <==> a == b
    ensures StrCmp(a, b) < 0 <==> TextLess(a, b)
    ensures StrCmp(a, b) > 0 <==> TextLess(b, a)
  {
    if a != [] && b != [] && a[0] == b[0] {
      StrCmpIs(a[1..], b[1..]);
      LessBehind(a, b);
      LessBehind(b, a);
      assert a == b <==> a[1..] == b[1..] by { assert a == [a[0]] + a[1..] && b == [b[0]] + b[1..]; }
    } else {
      FirstDiffers(a, b);
      FirstDiffers(b, a);
    }
  }

  lemma LessBehind(a: string, b: string)
    requires a != [] && b != [] && a[0] == b[0]
    ensures TextLess(a, b) <==> TextLess(a[1..], b[1..])
  {
    if TextLess(a, b) {
      var k :| 0 <= k <= |a| && k <= |b| && a[..k] == b[..k] &&
        ((k == |a| && k < |b|) || (k < |a| && k < |b| && a[k] < b[k]));
      assert a[1..][..k - 1] == a[..k][1..] && b[1..][..k - 1] == b[..k][1..];
    }
    if TextLess(a[1..], b[1..]) { LessInFront(a[0], a[1..], b[1..]); }
    assert a == [a[0]] + a[1..] && b == [b[0]] + b[1..];
  }

  lemma LessInFront(x: char, a: string, b: string)
    requires TextLess(a, b)
    ensures TextLess([x] + a, [x] + b)
  {
    var k :| 0 <= k <= |a| && k <= |b| && a[..k] == b[..k] &&
      ((k == |a| && k < |b|) || (k < |a| && k < |b| && a[k] < b[k]));
    assert ([x] + a)[..k + 1] == [x] + a[..k] && ([x] + b)[..k + 1] == [x] + b[..k];
  }

  lemma FirstDiffers(a: string, b: string)
    requires a == [] || b == [] || a[0] != b[0]
    ensures TextLess(a, b) <==> b != [] && (a == [] || a[0] < b[0])
  {
    if b != [] && (a == [] || a[0] < b[0]) { assert a[..0] == b[..0]; }
    if TextLess(a, b) {
      var k :| 0 <= k <= |a| && k <= |b| && a[..k] == b[..k] &&
        ((k == |a| && k < |b|) || (k < |a| && k < |b| && a[k] < b[k]));
      SamePrefix(a, b, k);
    }
  }

  lemma SamePrefix(a: string, b: string, k: nat)
    requires k <= |a| && k <= |b| && a[..k] == b[..k]
    ensures k > 0 ==> a[0] == b[0]
  {
    if k > 0 { assert a[0] == a[..k][0] && b[0] == b[..k][0]; }
  }

  // The number an operand stands for: n, m and y are 0, 1 and 2.
  function Number(cfg: Config, op: Operand, env: Env): Option<int> {
    if IsLogical(OperandType(cfg, op)) then Some(TriOf(op, env).v)
    else cfg.parseNum(OperandType(cfg, op), TextOf(op, env).v)
  }

  // Operands are compared as numbers if both are, and not both are strings.
  predicate AsNumbers(cfg: Config, a: Operand, b: Operand, env: Env) {
    && !(OperandType(cfg, a).String? && OperandType(cfg, b).String?)
    && Number(cfg, a, env).Some? && Number(cfg, b, env).Some?
  }

  ghost predicate Smaller(cfg: Config, a: Operand, b: Operand, env: Env) {
    if AsNumbers(cfg, a, b, env) then Number(cfg, a, env).value < Number(cfg, b, env).value
    else TextLess(TextOf(a, env).v, TextOf(b, env).v)
  }

  ghost predicate Equals(cfg: Config, a: Operand, b: Operand, env: Env) {
    if AsNumbers(cfg, a, b, env) then Number(cfg, a, env) == Number(cfg, b, env)
    else TextOf(a, env).v == TextOf(b, env).v
  }

  // The six relations belong to one total order.
  lemma CompareLaws(cfg: Config, rel: Relation, a: Operand, b: Operand, env: Env)
    ensures ExprVal(cfg, Compare(rel, a, b), env) in {0, 2}
    ensures
      ExprVal(cfg, Compare(rel, a, b), env) == 2 <==>
        match rel
        case Equal => Equals(cfg, a, b, env)
        case Unequal => !Equals(cfg, a, b, env)
        case Less => Smaller(cfg, a, b, env)
        case LessEqual => !Smaller(cfg, b, a, env)
        case Greater => Smaller(cfg, b, a, env)
        case GreaterEqual => !Smaller(cfg, a, b, env)
    ensures Equals(cfg, a, b, env) <==> !Smaller(cfg, a, b, env) && !Smaller(cfg, b, a, env)
    ensures !(Smaller(cfg, a, b, env) && Smaller(cfg, b, a, env))
  {
    hide StrCmp, TextLess;
    StrCmpIs(TextOf(a, env).v, TextOf(b, env).v);
  }

  // ----- visibility -----

  // v is the greatest value of the expressions, n if there is none.
  ghost predicate GreatestOf(cfg: Config, es: seq<Expr>, env: Env, v: Tri) {
    && (forall k :: 0 <= k < |es| ==> ExprVal(cfg, es[k], env) <= v)
    && (v == 0 || exists k :: 0 <= k < |es| && ExprVal(cfg, es[k], env) == v)
  }

  lemma {:induction false} PromptsGreatest(cfg: Config, es: seq<Expr>, k: nat, env: Env)
    requires k <= |es|
    ensures GreatestOf(cfg, es[k..], env, PromptsEv(cfg, es, k, env).v)
    decreases |es| - k
  {
    if k < |es| {
      PromptsGreatest(cfg, es, k + 1, env);
      var v, w := PromptsEv(cfg, es, k, env).v, PromptsEv(cfg, es, k + 1, env).v;
      assert forall j :: 0 < j < |es[k..]| ==> es[k..][j] == es[k + 1..][j - 1];
      if v == w && v != 0 {
        var j :| 0 <= j < |es[k + 1..]| && ExprVal(cfg, es[k + 1..][j], env) == v;
        assert es[k..][j + 1] == es[k + 1..][j];
      } else {
        assert es[k..][0] == es[k];
      }
    }
  }

  predicate ModulesOn(cfg: Config, env: Env) { cfg.modules.Some? && Val(env, cfg.modules.value) != 0 }

  // The item can be m: it is tristate, modules are on and it is not in a choice of mode y.
  predicate CanBeM(cfg: Config, typ: SymType, choice: Option<nat>, env: Env) {
    typ == Tristate && ModulesOn(cfg, env) && (choice.Some? ==> ModeOf(env, choice.value) != 2)
  }

  // The choice hides a symbol that cannot be m unless its mode is y, and in mode y those that
  // could only be m.
  predicate HiddenBy(cfg: Config, s: Symbol, g: Tri, env: Env) {
    s.choice.Some? &&
    var mode := ModeOf(env, s.choice.value);
    if mode == 2 then s.typ == Tristate && g == 1
    else ChoiceOf(cfg, s.choice.value).typ == Tristate && s.typ != Tristate
  }

  lemma VisibilityLaw(cfg: Config, u: User, env: Env, i: nat) returns (g: Tri)
    requires Solves(cfg, u, env)
    ensures GreatestOf(cfg, SymOf(cfg, i).prompts, env, g)
    ensures
      var s := SymOf(cfg, i);
      Vis(env, i) == if HiddenBy(cfg, s, g, env) then 0
                     else if g == 1 && !CanBeM(cfg, s.typ, s.choice, env) then 2
                     else g
  {
    var es := SymOf(cfg, i).prompts;
    PromptsGreatest(cfg, es, 0, env);
    assert es[0..] == es;
    g := PromptsEv(cfg, es, 0, env).v;
    assert env(SymVis(i)) == Step(cfg, u, SymVis(i), env).v;
  }

  lemma ChoiceVisibilityLaw(cfg: Config, u: User, env: Env, c: nat) returns (g: Tri)
    requires Solves(cfg, u, env)
    ensures GreatestOf(cfg, ChoiceOf(cfg, c).prompts, env, g)
    ensures ToTri(env(ChoiceVis(c))) == if g == 1 && !CanBeM(cfg, ChoiceOf(cfg, c).typ, None, env) then 2 else g
  {
    var es := ChoiceOf(cfg, c).prompts;
    PromptsGreatest(cfg, es, 0, env);
    assert es[0..] == es;
    g := PromptsEv(cfg, es, 0, env).v;
    assert env(ChoiceVis(c)) == Step(cfg, u, ChoiceVis(c), env).v;
  }

  // ----- values of symbols -----

  // k is the first of the conditions that holds.
  ghost predicate FirstHolds(cfg: Config, conds: seq<Expr>, env: Env, k: nat) {
    k < |conds| && ExprVal(cfg, conds[k], env) != 0 && forall j :: 0 <= j < k ==> ExprVal(cfg, conds[j], env) == 0
  }

  lemma {:induction false} FirstIs(cfg: Config, es: seq<Expr>, k: nat, env: Env)
    requires k <= |es| && forall j :: 0 <= j < k ==> ExprVal(cfg, es[j], env) == 0
    ensures
      var f := FirstEv(cfg, es, k, env).v;
      if f.0 < |es| then FirstHolds(cfg, es, env, f.0) && f.1 == ExprVal(cfg, es[f.0], env)
      else forall j :: 0 <= j < |es| ==> ExprVal(cfg, es[j], env) == 0
    decreases |es| - k
  {
    if k < |es| && ExprVal(cfg, es[k], env) == 0 { FirstIs(cfg, es, k + 1, env); }
  }

  // What the defaults give: the first whose condition holds, limited by the condition
  ghost predicate ByDefault(cfg: Config, s: Symbol, env: Env, d: Tri) {
    if forall j :: 0 <= j < |s.defaults| ==> ExprVal(cfg, s.defaults[j].cond, env) == 0 then d == 0
    else
      exists k: nat ::
        && FirstHolds(cfg, Conds(s.defaults), env, k) && k < |s.defaults|
        && Lesser(d, ExprVal(cfg, s.defaults[k].value, env), ExprVal(cfg, s.defaults[k].cond, env))
  }

  // What 'imply' gives: nothing, unless the dependencies are met
  function Implied(cfg: Config, s: Symbol, env: Env): Tri {
    if ExprVal(cfg, s.directDep, env) == 0 then 0 else ExprVal(cfg, s.weakRevDep, env)
  }

  // The user has set a symbol that is visible.
  predicate UserSet(u: User, env: Env, i: nat) { Vis(env, i) != 0 && UserTri(u, i).Some? }

  // x is what the user set, limited by the visibility, or what the defaults and 'imply' give.
  ghost predicate Own(cfg: Config, u: User, env: Env, i: nat, x: Tri) {
    if UserSet(u, env, i) then Lesser(x, UserTri(u, i).value, Vis(env, i))
    else exists d: Tri :: ByDefault(cfg, SymOf(cfg, i), env, d) && Greater(x, d, Implied(cfg, SymOf(cfg, i), env))
  }

  // m becomes y where there is no m, and where y is implied.
  function Raised(cfg: Config, s: Symbol, env: Env, x: Tri): Tri {
    if x == 1 && (!CanBeM(cfg, s.typ, s.choice, env) || ExprVal(cfg, s.weakRevDep, env) == 2) then 2 else x
  }

  lemma DefaultIs(cfg: Config, s: Symbol, env: Env)
    ensures ByDefault(cfg, s, env, DefaultTriEv(cfg, s, env).v)
  {
    FirstIs(cfg, Conds(s.defaults), 0, env);
    var k := FirstEv(cfg, Conds(s.defaults), 0, env).v.0;
    if k < |s.defaults| {
      assert Conds(s.defaults)[k] == s.defaults[k].cond;
    } else {
      assert forall j :: 0 <= j < |s.defaults| ==> Conds(s.defaults)[j] == s.defaults[j].cond;
    }
  }

  lemma FallbackIs(cfg: Config, s: Symbol, env: Env)
    ensures exists d: Tri :: ByDefault(cfg, s, env, d) && Greater(FallbackEv(cfg, s, env).v, d, Implied(cfg, s, env))
  {
    hide ByDefault, DefaultTriEv;
    DefaultIs(cfg, s, env);
    assert Greater(FallbackEv(cfg, s, env).v, DefaultTriEv(cfg, s, env).v, Implied(cfg, s, env));
  }

  // The value of a bool or tristate symbol outside choices: the greater of its own and of what
  // selects it, with m raised.
  lemma PlainLaw(cfg: Config, u: User, env: Env, i: nat) returns (x: Tri, y: Tri)
    requires Solves(cfg, u, env) && IsLogical(SymOf(cfg, i).typ) && SymOf(cfg, i).choice.None?
    ensures Own(cfg, u, env, i, x) && Greater(y, x, ExprVal(cfg, SymOf(cfg, i).revDep, env))
    ensures Val(env, i) == Raised(cfg, SymOf(cfg, i), env, y)
  {
    hide FallbackEv, ByDefault;
    var s := SymOf(cfg, i);
    assert env(SymTri(i)) == Step(cfg, u, SymTri(i), env).v;
    FallbackIs(cfg, s, env);
    x := if UserSet(u, env, i) then Min(UserTri(u, i).value, Vis(env, i)) else FallbackEv(cfg, s, env).v;
    y := Max(ExprVal(cfg, s.revDep, env), x);
    assert SelectedEv(cfg, s, Ev(x, {}), env).v == y;
    assert PromotedEv(cfg, s, Ev(y, {}), env).v == Raised(cfg, s, env, y);
  }

  // So a selected symbol is never below what selects it; one that the user has set, not selected,
  // is what the user set as far as it is visible; and one with neither, no default that holds and
  // nothing that implies it is n.
  lemma PlainLaws(cfg: Config, u: User, env: Env, i: nat)
    requires Solves(cfg, u, env) && IsLogical(SymOf(cfg, i).typ) && SymOf(cfg, i).choice.None?
    ensures Val(env, i) >= ExprVal(cfg, SymOf(cfg, i).revDep, env)
    ensures UserSet(u, env, i) && ExprVal(cfg, SymOf(cfg, i).revDep, env) == 0 ==>
        var t, vis := UserTri(u, i).value, Vis(env, i);
        Val(env, i) == Raised(cfg, SymOf(cfg, i), env, if t < vis then t else vis)
    ensures
      var s := SymOf(cfg, i);
      (&& !UserSet(u, env, i) && ExprVal(cfg, s.revDep, env) == 0 && Implied(cfg, s, env) == 0
       && (forall j :: 0 <= j < |s.defaults| ==> ExprVal(cfg, s.defaults[j].cond, env) == 0)) ==> Val(env, i) == 0
  {
    var x, y := PlainLaw(cfg, u, env, i);
  }

  // ----- choices -----

  // The mode of a choice: at least m if it is not optional, else what the user set, and never
  // above its visibility; m is raised to y where there is no m.
  lemma ModeLaw(cfg: Config, u: User, env: Env, c: nat)
    requires Solves(cfg, u, env) && UserOk(cfg, u) && c < |cfg.choices|
    ensures
      var ch, vis := cfg.choices[c], ToTri(env(ChoiceVis(c)));
      var wanted: Tri := if u.mode[c].Some? then u.mode[c].value else 0;
      var least: Tri := if wanted == 0 && !ch.optional then 1 else wanted;
      exists m: Tri :: Lesser(m, least, vis) &&
        ModeOf(env, c) == if m == 1 && !CanBeM(cfg, ch.typ, None, env) && IsLogical(ch.typ) then 2 else m
  {
    assert env(ChoiceTri(c)) == Step(cfg, u, ChoiceTri(c), env).v;
    var ch, vis := cfg.choices[c], ToTri(env(ChoiceVis(c)));
    var wanted: Tri := if u.mode[c].Some? then u.mode[c].value else 0;
    var least: Tri := if wanted == 0 && !ch.optional then 1 else wanted;
    assert Lesser(Min(least, vis), least, vis);
  }

  // k is the first default of a choice whose condition holds and whose symbol is visible.
  ghost predicate FirstDefault(cfg: Config, ds: seq<ChoiceDefault>, env: Env, k: nat) {
    && k < |ds| && ExprVal(cfg, ds[k].cond, env) != 0 && Vis(env, ds[k].sym) != 0
    && forall j :: 0 <= j < k ==> ExprVal(cfg, ds[j].cond, env) == 0 || Vis(env, ds[j].sym) == 0
  }

  ghost predicate FirstShown(ss: seq<nat>, env: Env, k: nat) {
    k < |ss| && Vis(env, ss[k]) != 0 && forall j :: 0 <= j < k ==> Vis(env, ss[j]) == 0
  }

  ghost predicate DefaultSelects(cfg: Config, ds: seq<ChoiceDefault>, env: Env, i: nat) {
    exists k: nat :: FirstDefault(cfg, ds, env, k) && ds[k].sym == i
  }

  ghost predicate NoDefault(cfg: Config, ds: seq<ChoiceDefault>, env: Env) {
    forall j :: 0 <= j < |ds| ==> ExprVal(cfg, ds[j].cond, env) == 0 || Vis(env, ds[j].sym) == 0
  }

  ghost predicate FirstShows(ss: seq<nat>, env: Env, i: nat) {
    exists k: nat :: FirstShown(ss, env, k) && ss[k] == i
  }

  ghost predicate NoneShown(ss: seq<nat>, env: Env) { forall j :: 0 <= j < |ss| ==> Vis(env, ss[j]) == 0 }

  lemma {:induction false} FirstDefaultIs(cfg: Config, ds: seq<ChoiceDefault>, k: nat, env: Env)
    requires k <= |ds| && NoDefault(cfg, ds[..k], env)
    ensures
      var f := FirstDefaultSymEv(cfg, ds, k, env).v;
      if f.Some? then DefaultSelects(cfg, ds, env, f.value) else NoDefault(cfg, ds, env)
    decreases |ds| - k
  {
    if k < |ds| {
      assert forall j :: 0 <= j < k ==> ds[..k][j] == ds[j];
      if ExprVal(cfg, ds[k].cond, env) != 0 && Vis(env, ds[k].sym) != 0 {
        assert FirstDefault(cfg, ds, env, k);
      } else {
        assert ds[..k + 1] == ds[..k] + [ds[k]];
        FirstDefaultIs(cfg, ds, k + 1, env);
      }
    } else {
      assert ds[..k] == ds;
    }
  }

  lemma {:induction false} FirstShownIs(ss: seq<nat>, k: nat, env: Env)
    requires k <= |ss| && NoneShown(ss[..k], env)
    ensures
      var f := FirstVisibleEv(ss, k, env).v;
      if f.Some? then FirstShows(ss, env, f.value) else NoneShown(ss, env)
    decreases |ss| - k
  {
    if k < |ss| {
      assert forall j :: 0 <= j < k ==> ss[..k][j] == ss[j];
      if Vis(env, ss[k]) != 0 {
        assert FirstShown(ss, env, k);
      } else {
        assert ss[..k + 1] == ss[..k] + [ss[k]];
        FirstShownIs(ss, k + 1, env);
      }
    } else {
      assert ss[..k] == ss;
    }
  }

  // What is selected where the user has not picked a visible symbol
  ghost predicate Falls(cfg: Config, ch: Choice, env: Env, sel: Option<nat>) {
    if !NoDefault(cfg, ch.defaults, env) then sel.Some? && DefaultSelects(cfg, ch.defaults, env, sel.value)
    else if !NoneShown(ch.syms, env) then sel.Some? && FirstShows(ch.syms, env, sel.value)
    else sel == None
  }

  lemma FallsTo(cfg: Config, c: nat, env: Env)
    requires c < |cfg.choices|
    ensures Falls(cfg, cfg.choices[c], env, DefaultSelEv(cfg, c, env).v)
    ensures
      var sel := DefaultSelEv(cfg, c, env).v;
      sel.Some? ==> Vis(env, sel.value) != 0
  {
    FirstDefaultIs(cfg, cfg.choices[c].defaults, 0, env);
    FirstShownIs(cfg.choices[c].syms, 0, env);
    hide ExprVal, FirstDefaultSymEv, FirstVisibleEv;
  }

  // The selection of a choice: none but in mode y; then the symbol the user picked if it is
  // visible, else the first default that holds and is visible, else the first visible symbol.
  lemma SelectionLaw(cfg: Config, u: User, env: Env, c: nat)
    requires Solves(cfg, u, env) && UserOk(cfg, u) && c < |cfg.choices|
    ensures
      var sel := Selection(env, c);
      if ModeOf(env, c) != 2 then sel == None
      else if u.pick[c].Some? && Vis(env, u.pick[c].value) != 0 then sel == u.pick[c]
      else Falls(cfg, cfg.choices[c], env, sel)
    ensures Selection(env, c).Some? ==> Vis(env, Selection(env, c).value) != 0
  {
    hide Falls, DefaultSelEv;
    assert env(ChoiceSel(c)) == Step(cfg, u, ChoiceSel(c), env).v;
    FallsTo(cfg, c, env);
  }

  // In a choice of mode y exactly its selection is y, and all others are n. In any other mode
  // none is y, and those are m that are visible as m and that the user has set.
  lemma MemberLaw(cfg: Config, u: User, env: Env, i: nat)
    requires Solves(cfg, u, env) && UserOk(cfg, u) && MembersOk(cfg)
    requires IsLogical(SymOf(cfg, i).typ) && SymOf(cfg, i).choice.Some?
    ensures
      var c := SymOf(cfg, i).choice.value;
      if ModeOf(env, c) == 2 then Val(env, i) == if Selection(env, c) == Some(i) then 2 else 0
      else Val(env, i) == if Vis(env, i) == 1 && UserTri(u, i).Some? && UserTri(u, i).value != 0 then 1 else 0
  {
    var s := SymOf(cfg, i);
    var c := s.choice.value;
    hide Falls, GreatestOf;
    var g := VisibilityLaw(cfg, u, env, i);
    SelectionLaw(cfg, u, env, c);
    assert env(SymTri(i)) == Step(cfg, u, SymTri(i), env).v;
  }

  // Where there is no m, nothing is m: no visibility and no value.
  lemma NoM(cfg: Config, u: User, env: Env, i: nat)
    requires Solves(cfg, u, env) && !CanBeM(cfg, SymOf(cfg, i).typ, SymOf(cfg, i).choice, env)
    ensures Vis(env, i) != 1 && Val(env, i) != 1
  {
    var g := VisibilityLaw(cfg, u, env, i);
    assert env(SymTri(i)) == Step(cfg, u, SymTri(i), env).v;
    if IsLogical(SymOf(cfg, i).typ) && SymOf(cfg, i).choice.None? { var x, y := PlainLaw(cfg, u, env, i); }
  }

  // ----- texts and numbers -----

  // The text that the first default that holds gives, if one holds; a default that is no symbol
  // gives the empty text.
  ghost predicate DefaultText(cfg: Config, s: Symbol, env: Env, d: Option<string>) {
    if forall j :: 0 <= j < |s.defaults| ==> ExprVal(cfg, s.defaults[j].cond, env) == 0 then d == None
    else
      exists k: nat ::
        && FirstHolds(cfg, Conds(s.defaults), env, k) && k < |s.defaults|
        && d == Some(if s.defaults[k].value.Leaf? then TextOf(s.defaults[k].value.op, env).v else "")
  }

  lemma DefaultTextIs(cfg: Config, s: Symbol, env: Env)
    ensures DefaultText(cfg, s, env, DefaultTextEv(cfg, s, env).v)
  {
    FirstIs(cfg, Conds(s.defaults), 0, env);
    var k := FirstEv(cfg, Conds(s.defaults), 0, env).v.0;
    if k < |s.defaults| {
      assert Conds(s.defaults)[k] == s.defaults[k].cond;
    } else {
      assert forall j :: 0 <= j < |s.defaults| ==> Conds(s.defaults)[j] == s.defaults[j].cond;
    }
  }

  // The user has given a text to a symbol that is visible.
  predicate UserTexted(u: User, env: Env, i: nat) { Vis(env, i) != 0 && UserText(u, i).Some? }

  // The text of a symbol that is no number: n, m or y, its name if it has no type, what the user
  // gave, or its default.
  lemma TextLaw(cfg: Config, u: User, env: Env, i: nat)
    requires Solves(cfg, u, env)
    ensures
      var s := SymOf(cfg, i);
      && (IsLogical(s.typ) ==> Text(env, i) == TriText(Val(env, i)))
      && (s.typ.Unknown? ==> Text(env, i) == s.name)
      && (s.typ.String? && UserTexted(u, env, i) ==> Text(env, i) == UserText(u, i).value)
      && (s.typ.String? && !UserTexted(u, env, i) ==>
           exists d: Option<string> ::
             DefaultText(cfg, s, env, d) && Text(env, i) == (if d.Some? then d.value else ""))
  {
    hide DefaultText, DefaultTextEv;
    assert env(SymStr(i)) == Step(cfg, u, SymStr(i), env).v;
    DefaultTextIs(cfg, SymOf(cfg, i), env);
  }

  // The bounds of the first range whose condition holds, as numbers
  ghost predicate ActiveRange(cfg: Config, s: Symbol, env: Env, r: Option<(int, int)>) {
    if forall j :: 0 <= j < |s.ranges| ==> ExprVal(cfg, s.ranges[j].cond, env) == 0 then r == None
    else
      exists k: nat ::
        && FirstHolds(cfg, RangeConds(s.ranges), env, k) && k < |s.ranges|
        && r == Some((NumOrZero(cfg, s.typ, TextOf(s.ranges[k].low, env).v),
                      NumOrZero(cfg, s.typ, TextOf(s.ranges[k].high, env).v)))
  }

  ghost predicate Within(n: int, r: Option<(int, int)>) { r.Some? ==> r.value.0 <= n <= r.value.1 }

  lemma RangeIs(cfg: Config, s: Symbol, env: Env) returns (r: Option<(int, int)>)
    ensures ActiveRange(cfg, s, env, r)
    ensures
      var e := RangeEv(cfg, s, env).v;
      && (r.Some? <==> e.Some?)
      && (r.Some? ==> r.value == (NumOrZero(cfg, s.typ, e.value.0), NumOrZero(cfg, s.typ, e.value.1)))
  {
    FirstIs(cfg, RangeConds(s.ranges), 0, env);
    var k := FirstEv(cfg, RangeConds(s.ranges), 0, env).v.0;
    if k < |s.ranges| {
      assert RangeConds(s.ranges)[k] == s.ranges[k].cond;
      r := Some((NumOrZero(cfg, s.typ, TextOf(s.ranges[k].low, env).v),
                 NumOrZero(cfg, s.typ, TextOf(s.ranges[k].high, env).v)));
    } else {
      assert forall j :: 0 <= j < |s.ranges| ==> RangeConds(s.ranges)[j] == s.ranges[j].cond;
      r := None;
    }
  }

  // The text of an int or hex symbol: what the user gave if that is a number in the active range;
  // else the default if it is in range, and the nearer bound if it is not.
  lemma NumberLaw(cfg: Config, u: User, env: Env, i: nat) returns (r: Option<(int, int)>, d: Option<string>)
    requires Solves(cfg, u, env) && SymOf(cfg, i).typ in {Int, Hex}
    ensures ActiveRange(cfg, SymOf(cfg, i), env, r) && DefaultText(cfg, SymOf(cfg, i), env, d)
    ensures
      var typ := SymOf(cfg, i).typ;
      var text := if d.Some? then d.value else "";
      var n, given := NumOrZero(cfg, typ, text), UserText(u, i);
      Text(env, i) ==
        if UserTexted(u, env, i) && cfg.parseNum(typ, given.value).Some? &&
           Within(cfg.parseNum(typ, given.value).value, r) then given.value
        else if Within(n, r) then text
        else cfg.printNum(typ, if n < r.value.0 then r.value.0 else r.value.1)
  {
    hide DefaultText, DefaultTextEv, ActiveRange, RangeEv;
    var s := SymOf(cfg, i);
    assert env(SymStr(i)) == Step(cfg, u, SymStr(i), env).v;
    r := RangeIs(cfg, s, env);
    d := DefaultTextEv(cfg, s, env).v;
    DefaultTextIs(cfg, s, env);
  }

  // So the number is in the active range, if that is not empty and numbers read back as printed.
  lemma NumberInRange(cfg: Config, u: User, env: Env, i: nat) returns (r: Option<(int, int)>)
    requires Solves(cfg, u, env) && SymOf(cfg, i).typ in {Int, Hex}
    requires forall n :: cfg.parseNum(SymOf(cfg, i).typ, cfg.printNum(SymOf(cfg, i).typ, n)) == Some(n)
    ensures ActiveRange(cfg, SymOf(cfg, i), env, r)
    ensures r.Some? && r.value.0 <= r.value.1 ==> Within(NumOrZero(cfg, SymOf(cfg, i).typ, Text(env, i)), r)
  {
    hide DefaultText, ActiveRange;
    var d: Option<string>;
    r, d := NumberLaw(cfg, u, env, i);
  }
}

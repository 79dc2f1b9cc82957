// The Kconfig value engine of tools/kconfiglib.py: what each symbol and choice
// property evaluates to, and which other properties that evaluation reads.
//
// Every property is written once, against an environment that supplies the values
// of the properties it reads. The result carries the set of properties actually
// read, so that short-circuit evaluation is visible: an operand that is skipped is
// not in the set.
module KconfigModel {
  import opened Options

  datatype SymType = Unknown | Bool | Tristate | String | Int | Hex
  datatype Relation = Equal | Unequal | Less | LessEqual | Greater | GreaterEqual

  // n, m, y
  type Tri = t: int | 0 <= t <= 2

  // A constant or undefined symbol never changes value and is kept as a literal.
  datatype Operand = Literal(typ: SymType, tri: Tri, text: string) | Ref(sym: nat)

  datatype Expr =
    | Leaf(op: Operand)
    | Mode(choice: nat)
    | And(l: Expr, r: Expr)
    | Or(l: Expr, r: Expr)
    | Not(e: Expr)
    | Compare(rel: Relation, a: Operand, b: Operand)

  datatype Default = Default(value: Expr, cond: Expr)
  datatype Range = Range(low: Operand, high: Operand, cond: Expr)
  datatype ChoiceDefault = ChoiceDefault(sym: nat, cond: Expr)

  // 'prompts' holds the conditions of the menu nodes that have a prompt.
  datatype Symbol = Symbol(
    typ: SymType, name: string, prompts: seq<Expr>, defaults: seq<Default>, ranges: seq<Range>,
    revDep: Expr, weakRevDep: Expr, directDep: Expr, choice: Option<nat>)

  datatype Choice = Choice(
    typ: SymType, optional: bool, prompts: seq<Expr>, defaults: seq<ChoiceDefault>, syms: seq<nat>)

  // Parsing and printing numbers, in base 10 for int and 16 for hex, are parameters.
  datatype Config = Config(
    syms: seq<Symbol>, choices: seq<Choice>, modules: Option<nat>,
    parseNum: (SymType, string) -> Option<int>, printNum: (SymType, int) -> string)

  datatype UserValue = Unset | SetTri(tri: Tri) | SetText(text: string)

  // Symbol.user_value, Choice.user_value and Choice.user_selection
  datatype User = User(sym: seq<UserValue>, mode: seq<Option<Tri>>, pick: seq<Option<nat>>)

  datatype Item = SymItem(sym: nat) | ChoiceItem(choice: nat)

  datatype Node =
    | SymVis(i: nat) | SymTri(i: nat) | SymStr(i: nat)
    | ChoiceVis(c: nat) | ChoiceTri(c: nat) | ChoiceSel(c: nat)

  datatype Value = TriVal(t: Tri) | TextVal(s: string) | SelVal(sel: Option<nat>)

  type Env = Node -> Value

  // A value together with the properties read to obtain it.
  datatype Ev<T> = Ev(v: T, seen: set<Node>)

  function Owner(n: Node): Item {
    match n
    case SymVis(i) => SymItem(i)
    case SymTri(i) => SymItem(i)
    case SymStr(i) => SymItem(i)
    case ChoiceVis(c) => ChoiceItem(c)
    case ChoiceTri(c) => ChoiceItem(c)
    case ChoiceSel(c) => ChoiceItem(c)
  }

  // The node of Symbol._cached_vis or Choice._cached_vis
  function VisNode(x: Item): Node {
    match x
    case SymItem(i) => SymVis(i)
    case ChoiceItem(c) => ChoiceVis(c)
  }

  function ToTri(v: Value): Tri { if v.TriVal? then v.t else 0 }
  function ToText(v: Value): string { if v.TextVal? then v.s else "" }
  function ToSel(v: Value): Option<nat> { if v.SelVal? then v.sel else None }

  function Min(a: Tri, b: Tri): Tri { if a < b then a else b }
  function Max(a: Tri, b: Tri): Tri { if a < b then b else a }
  function TriText(t: Tri): string { if t == 0 then "n" else if t == 1 then "m" else "y" }
  predicate IsLogical(typ: SymType) { typ.Bool? || typ.Tristate? }

  function StrCmp(a: string, b: string): int {
    if a == [] then (if b == [] then 0 else -1)
    else if b == [] then 1
    else if a[0] < b[0] then -1
    else if a[0] > b[0] then 1
    else StrCmp(a[1..], b[1..])
  }

  predicate Holds(rel: Relation, comp: int) {
    match rel
    case Equal => comp == 0
    case Unequal => comp != 0
    case Less => comp < 0
    case LessEqual => comp <= 0
    case Greater => comp > 0
    case GreaterEqual => comp >= 0
  }

  function SymOf(cfg: Config, i: nat): Symbol {
    if i < |cfg.syms| then cfg.syms[i]
    else var n := Leaf(Literal(Tristate, 0, "n")); Symbol(Unknown, "", [], [], [], n, n, n, None)
  }

  function ChoiceOf(cfg: Config, c: nat): Choice {
    if c < |cfg.choices| then cfg.choices[c] else Choice(Bool, false, [], [], [])
  }

  // ----- reading operands -----

  function OperandType(cfg: Config, op: Operand): SymType {
    if op.Literal? then op.typ else SymOf(cfg, op.sym).typ
  }

  function TriOf(op: Operand, env: Env): Ev<Tri> {
    if op.Literal? then Ev(op.tri, {}) else Ev(ToTri(env(SymTri(op.sym))), {SymTri(op.sym)})
  }

  function TextOf(op: Operand, env: Env): Ev<string> {
    if op.Literal? then Ev(op.text, {}) else Ev(ToText(env(SymStr(op.sym))), {SymStr(op.sym)})
  }

  // _sym_to_num
  function NumOf(cfg: Config, op: Operand, env: Env): Ev<Option<int>> {
    if IsLogical(OperandType(cfg, op)) then
      var t := TriOf(op, env); Ev(Some(t.v), t.seen)
    else
      var s := TextOf(op, env); Ev(cfg.parseNum(OperandType(cfg, op), s.v), s.seen)
  }

  // The relation case of expr_value
  function CompareEv(cfg: Config, rel: Relation, a: Operand, b: Operand, env: Env): Ev<Tri> {
    var byText := (seen: set<Node>) =>
      var x := TextOf(a, env); var y := TextOf(b, env);
      Ev(if Holds(rel, StrCmp(x.v, y.v)) then 2 else 0, seen + x.seen + y.seen);
    if OperandType(cfg, a).String? && OperandType(cfg, b).String? then byText({})
    else
      var x := NumOf(cfg, a, env);
      if x.v.None? then byText(x.seen)
      else
        var y := NumOf(cfg, b, env);
        if y.v.None? then byText(x.seen + y.seen)
        else Ev(if Holds(rel, x.v.value - y.v.value) then 2 else 0, x.seen + y.seen)
  }

  // expr_value
  function ExprEv(cfg: Config, e: Expr, env: Env): Ev<Tri> {
    match e
    case Leaf(op) => TriOf(op, env)
    case Mode(c) => Ev(ToTri(env(ChoiceTri(c))), {ChoiceTri(c)})
    case And(l, r) =>
      var x := ExprEv(cfg, l, env);
      if x.v == 0 then x
      else var y := ExprEv(cfg, r, env); Ev(Min(x.v, y.v), x.seen + y.seen)
    case Or(l, r) =>
      var x := ExprEv(cfg, l, env);
      if x.v == 2 then x
      else var y := ExprEv(cfg, r, env); Ev(Max(x.v, y.v), x.seen + y.seen)
    case Not(f) => var x := ExprEv(cfg, f, env); Ev(2 - x.v, x.seen)
    case Compare(rel, a, b) => CompareEv(cfg, rel, a, b, env)
  }

  // ----- shared parts of the properties -----

  // The largest of the prompt conditions from index k on
  function PromptsEv(cfg: Config, es: seq<Expr>, k: nat, env: Env): Ev<Tri>
    requires k <= |es|
    decreases |es| - k
  {
    if k == |es| then Ev(0, {})
    else
      var x := ExprEv(cfg, es[k], env);
      var y := PromptsEv(cfg, es, k + 1, env);
      Ev(Max(x.v, y.v), x.seen + y.seen)
  }

  // The first condition from index k on that is not n: its index (or the length) and value
  function FirstEv(cfg: Config, es: seq<Expr>, k: nat, env: Env): (r: Ev<(nat, Tri)>)
    requires k <= |es|
    ensures k <= r.v.0 <= |es|
    decreases |es| - k
  {
    if k == |es| then Ev((k, 0), {})
    else
      var x := ExprEv(cfg, es[k], env);
      if x.v != 0 then Ev((k, x.v), x.seen)
      else var y := FirstEv(cfg, es, k + 1, env); Ev(y.v, x.seen + y.seen)
  }

  function ModulesEv(cfg: Config, env: Env): Ev<Tri> {
    if cfg.modules.None? then Ev(0, {}) else TriOf(Ref(cfg.modules.value), env)
  }

  // Symbol.type is BOOL, for a bool or tristate symbol
  function ActsAsBoolEv(cfg: Config, typ: SymType, choice: Option<nat>, env: Env): Ev<bool> {
    if typ != Tristate then Ev(typ == Bool, {})
    else
      var c := if choice.None? then Ev(0, {}) else ExprEv(cfg, Mode(choice.value), env);
      if c.v == 2 then Ev(true, c.seen)
      else var m := ModulesEv(cfg, env); Ev(m.v == 0, c.seen + m.seen)
  }

  // Symbol.type or Choice.type is TRISTATE
  function StaysTristateEv(cfg: Config, typ: SymType, choice: Option<nat>, env: Env): Ev<bool> {
    if typ != Tristate then Ev(false, {})
    else var b := ActsAsBoolEv(cfg, typ, choice, env); Ev(!b.v, b.seen)
  }

  function Conds(ds: seq<Default>): (r: seq<Expr>) ensures |r| == |ds|
  { seq(|ds|, k requires 0 <= k < |ds| => ds[k].cond) }

  function RangeConds(rs: seq<Range>): (r: seq<Expr>) ensures |r| == |rs|
  { seq(|rs|, k requires 0 <= k < |rs| => rs[k].cond) }

  // The constants of the sample configurations
  const NO := Leaf(Literal(Tristate, 0, "n"))
  const MODULE := Leaf(Literal(Tristate, 1, "m"))
  const YES := Leaf(Literal(Tristate, 2, "y"))

  lemma OnePrompt(cfg: Config, e: Expr, env: Env)
    ensures PromptsEv(cfg, [e], 0, env) == ExprEv(cfg, e, env)
  {
    assert PromptsEv(cfg, [e], 1, env) == Ev(0, {});
  }

  // ----- symbol properties -----

  // The mode of its choice hides a symbol whose prompts evaluate to vis
  function HiddenEv(cfg: Config, s: Symbol, vis: Tri, env: Env): Ev<bool> {
    if s.choice.None? then Ev(false, {})
    else
      var c := s.choice.value;
      if ChoiceOf(cfg, c).typ == Tristate && s.typ != Tristate then
        Ev(ToTri(env(ChoiceTri(c))) != 2, {ChoiceTri(c)})
      else if s.typ == Tristate && vis == 1 then
        Ev(ToTri(env(ChoiceTri(c))) == 2, {ChoiceTri(c)})
      else Ev(false, {})
  }

  // _visibility
  function SymVisEv(cfg: Config, i: nat, env: Env): Ev<Tri> {
    var s := SymOf(cfg, i);
    var p := PromptsEv(cfg, s.prompts, 0, env);
    var h := HiddenEv(cfg, s, p.v, env);
    if h.v then Ev(0, p.seen + h.seen)
    else PromoteEv(cfg, p.v, p.seen + h.seen, s.typ, s.choice, env)
  }

  function PromoteEv(cfg: Config, vis: Tri, seen: set<Node>, typ: SymType, choice: Option<nat>,
                     env: Env): Ev<Tri> {
    if vis != 1 then Ev(vis, seen)
    else
      var t := StaysTristateEv(cfg, typ, choice, env);
      Ev(if t.v then 1 else 2, seen + t.seen)
  }

  function UserTri(u: User, i: nat): Option<Tri> {
    if i < |u.sym| && u.sym[i].SetTri? then Some(u.sym[i].tri) else None
  }

  function UserText(u: User, i: nat): Option<string> {
    if i < |u.sym| && u.sym[i].SetText? then Some(u.sym[i].text) else None
  }

  function DefaultTriEv(cfg: Config, s: Symbol, env: Env): Ev<Tri> {
    var f := FirstEv(cfg, Conds(s.defaults), 0, env);
    if f.v.0 == |s.defaults| then Ev(0, f.seen)
    else
      var d := ExprEv(cfg, s.defaults[f.v.0].value, env);
      Ev(Min(d.v, f.v.1), f.seen + d.seen)
  }

  // Defaults, then 'imply', for a symbol without a usable user value
  function FallbackEv(cfg: Config, s: Symbol, env: Env): Ev<Tri> {
    var d := DefaultTriEv(cfg, s, env);
    var w := ExprEv(cfg, s.weakRevDep, env);
    if w.v == 0 then Ev(d.v, d.seen + w.seen)
    else
      var dd := ExprEv(cfg, s.directDep, env);
      Ev(if dd.v != 0 then Max(w.v, d.v) else d.v, d.seen + w.seen + dd.seen)
  }

  // 'select' on top of the value x
  function SelectedEv(cfg: Config, s: Symbol, x: Ev<Tri>, env: Env): Ev<Tri> {
    var r := ExprEv(cfg, s.revDep, env);
    if r.v == 0 then Ev(x.v, x.seen + r.seen)
    else
      var dd := ExprEv(cfg, s.directDep, env);
      Ev(Max(r.v, x.v), x.seen + r.seen + dd.seen)
  }

  // m becomes y for bools and for symbols implied with y
  function PromotedEv(cfg: Config, s: Symbol, x: Ev<Tri>, env: Env): Ev<Tri> {
    if x.v != 1 then x
    else
      var b := ActsAsBoolEv(cfg, s.typ, s.choice, env);
      if b.v then Ev(2, x.seen + b.seen)
      else
        var w := ExprEv(cfg, s.weakRevDep, env);
        Ev(if w.v == 2 then 2 else 1, x.seen + b.seen + w.seen)
  }

  // Symbol.tri_value of a bool or tristate symbol outside choices
  function PlainTriEv(cfg: Config, u: User, i: nat, env: Env): Ev<Tri> {
    var s := SymOf(cfg, i);
    var vis := ToTri(env(SymVis(i)));
    var x := if vis != 0 && UserTri(u, i).Some? then Ev(Min(UserTri(u, i).value, vis), {})
             else FallbackEv(cfg, s, env);
    PromotedEv(cfg, s, SelectedEv(cfg, s, x, env), env)
  }

  // Symbol.tri_value
  function SymTriEv(cfg: Config, u: User, i: nat, env: Env): Ev<Tri> {
    var s := SymOf(cfg, i);
    if !IsLogical(s.typ) then Ev(0, {})
    else
      var vis := ToTri(env(SymVis(i)));
      if s.choice.None? then
        var p := PlainTriEv(cfg, u, i, env); Ev(p.v, {SymVis(i)} + p.seen)
      else if vis == 2 then
        Ev(if ToSel(env(ChoiceSel(s.choice.value))) == Some(i) then 2 else 0,
           {SymVis(i), ChoiceSel(s.choice.value)})
      else if vis != 0 && UserTri(u, i).Some? && UserTri(u, i).value != 0 then Ev(1, {SymVis(i)})
      else Ev(0, {SymVis(i)})
  }

  // The text of the first default whose condition holds; None if there is none
  function DefaultTextEv(cfg: Config, s: Symbol, env: Env): Ev<Option<string>> {
    var f := FirstEv(cfg, Conds(s.defaults), 0, env);
    if f.v.0 == |s.defaults| then Ev(None, f.seen)
    else
      var v := s.defaults[f.v.0].value;
      if v.Leaf? then var t := TextOf(v.op, env); Ev(Some(t.v), f.seen + t.seen)
      else Ev(Some(""), f.seen)
  }

  // The bounds of the first range whose condition holds
  function RangeEv(cfg: Config, s: Symbol, env: Env): Ev<Option<(string, string)>> {
    var f := FirstEv(cfg, RangeConds(s.ranges), 0, env);
    if f.v.0 == |s.ranges| then Ev(None, f.seen)
    else
      var low := TextOf(s.ranges[f.v.0].low, env);
      var high := TextOf(s.ranges[f.v.0].high, env);
      Ev(Some((low.v, high.v)), f.seen + low.seen + high.seen)
  }

  // A text that is no number counts as 0, like the empty one in strtoll.
  function NumOrZero(cfg: Config, typ: SymType, text: string): int {
    var n := cfg.parseNum(typ, text); if n.Some? then n.value else 0
  }

  predicate InRange(cfg: Config, typ: SymType, n: int, r: Option<(string, string)>) {
    r.Some? ==> NumOrZero(cfg, typ, r.value.0) <= n <= NumOrZero(cfg, typ, r.value.1)
  }

  // A well-formed user value in the active range is used.
  predicate Accepts(cfg: Config, typ: SymType, text: string, r: Option<(string, string)>) {
    var n := cfg.parseNum(typ, text); n.Some? && InRange(cfg, typ, n.value, r)
  }

  // A default outside the active range is replaced by the bound it misses.
  function Clamp(cfg: Config, typ: SymType, d: Option<string>, r: Option<(string, string)>): string {
    var text := if d.Some? then d.value else "";
    if r.None? then text
    else
      var n, low, high := NumOrZero(cfg, typ, text), NumOrZero(cfg, typ, r.value.0), NumOrZero(cfg, typ, r.value.1);
      if n < low then cfg.printNum(typ, low) else if n > high then cfg.printNum(typ, high) else text
  }

  function NumTextEv(cfg: Config, u: User, i: nat, env: Env): Ev<string> {
    var s := SymOf(cfg, i);
    var r := RangeEv(cfg, s, env);
    if ToTri(env(SymVis(i))) != 0 && UserText(u, i).Some? &&
       Accepts(cfg, s.typ, UserText(u, i).value, r.v) then
      Ev(UserText(u, i).value, r.seen)
    else
      var d := DefaultTextEv(cfg, s, env);
      Ev(Clamp(cfg, s.typ, d.v, r.v), r.seen + d.seen)
  }

  function StringTextEv(cfg: Config, u: User, i: nat, env: Env): Ev<string> {
    if ToTri(env(SymVis(i))) != 0 && UserText(u, i).Some? then Ev(UserText(u, i).value, {})
    else
      var d := DefaultTextEv(cfg, SymOf(cfg, i), env);
      Ev(if d.v.Some? then d.v.value else "", d.seen)
  }

  // Symbol.str_value
  function SymStrEv(cfg: Config, u: User, i: nat, env: Env): Ev<string> {
    var s := SymOf(cfg, i);
    match s.typ
    case Unknown => Ev(s.name, {})
    case Bool => Ev(TriText(ToTri(env(SymTri(i)))), {SymTri(i)})
    case Tristate => Ev(TriText(ToTri(env(SymTri(i)))), {SymTri(i)})
    case String => var x := StringTextEv(cfg, u, i, env); Ev(x.v, {SymVis(i)} + x.seen)
    case Int => var x := NumTextEv(cfg, u, i, env); Ev(x.v, {SymVis(i)} + x.seen)
    case Hex => var x := NumTextEv(cfg, u, i, env); Ev(x.v, {SymVis(i)} + x.seen)
  }

  // ----- choice properties -----

  function ChoiceVisEv(cfg: Config, c: nat, env: Env): Ev<Tri> {
    var ch := ChoiceOf(cfg, c);
    var p := PromptsEv(cfg, ch.prompts, 0, env);
    PromoteEv(cfg, p.v, p.seen, ch.typ, None, env)
  }

  // Choice.tri_value, the only property that is not cached
  function ChoiceTriEv(cfg: Config, u: User, c: nat, env: Env): Ev<Tri> {
    var ch := ChoiceOf(cfg, c);
    var base: Tri := if ch.optional then 0 else 1;
    var wanted := if c < |u.mode| && u.mode[c].Some? then Max(base, u.mode[c].value) else base;
    var val := Min(wanted, ToTri(env(ChoiceVis(c))));
    if val != 1 then Ev(val, {ChoiceVis(c)})
    else
      var b := ActsAsBoolEv(cfg, ch.typ, None, env);
      Ev(if b.v then 2 else 1, {ChoiceVis(c)} + b.seen)
  }

  function FirstDefaultSymEv(cfg: Config, ds: seq<ChoiceDefault>, k: nat, env: Env): Ev<Option<nat>>
    requires k <= |ds|
    decreases |ds| - k
  {
    if k == |ds| then Ev(None, {})
    else
      var x := ExprEv(cfg, ds[k].cond, env);
      if x.v != 0 && ToTri(env(SymVis(ds[k].sym))) != 0 then
        Ev(Some(ds[k].sym), x.seen + {SymVis(ds[k].sym)})
      else
        var y := FirstDefaultSymEv(cfg, ds, k + 1, env);
        Ev(y.v, x.seen + (if x.v != 0 then {SymVis(ds[k].sym)} else {}) + y.seen)
  }

  function FirstVisibleEv(ss: seq<nat>, k: nat, env: Env): Ev<Option<nat>>
    requires k <= |ss|
    decreases |ss| - k
  {
    if k == |ss| then Ev(None, {})
    else if ToTri(env(SymVis(ss[k]))) != 0 then Ev(Some(ss[k]), {SymVis(ss[k])})
    else var y := FirstVisibleEv(ss, k + 1, env); Ev(y.v, {SymVis(ss[k])} + y.seen)
  }

  // Choice._selection_from_defaults
  function DefaultSelEv(cfg: Config, c: nat, env: Env): Ev<Option<nat>> {
    var d := FirstDefaultSymEv(cfg, ChoiceOf(cfg, c).defaults, 0, env);
    if d.v.Some? then d
    else var f := FirstVisibleEv(ChoiceOf(cfg, c).syms, 0, env); Ev(f.v, d.seen + f.seen)
  }

  // Choice._selection
  function ChoiceSelEv(cfg: Config, u: User, c: nat, env: Env): Ev<Option<nat>> {
    if ToTri(env(ChoiceTri(c))) != 2 then Ev(None, {ChoiceTri(c)})
    else if c < |u.pick| && u.pick[c].Some? then
      var p := u.pick[c].value;
      if ToTri(env(SymVis(p))) != 0 then Ev(Some(p), {ChoiceTri(c), SymVis(p)})
      else var d := DefaultSelEv(cfg, c, env); Ev(d.v, {ChoiceTri(c), SymVis(p)} + d.seen)
    else var d := DefaultSelEv(cfg, c, env); Ev(d.v, {ChoiceTri(c)} + d.seen)
  }

  // ----- one evaluation step -----

  function Step(cfg: Config, u: User, n: Node, env: Env): Ev<Value> {
    match n
    case SymVis(i) => var x := SymVisEv(cfg, i, env); Ev(TriVal(x.v), x.seen)
    case SymTri(i) => var x := SymTriEv(cfg, u, i, env); Ev(TriVal(x.v), x.seen)
    case SymStr(i) => var x := SymStrEv(cfg, u, i, env); Ev(TextVal(x.v), x.seen)
    case ChoiceVis(c) => var x := ChoiceVisEv(cfg, c, env); Ev(TriVal(x.v), x.seen)
    case ChoiceTri(c) => var x := ChoiceTriEv(cfg, u, c, env); Ev(TriVal(x.v), x.seen)
    case ChoiceSel(c) => var x := ChoiceSelEv(cfg, u, c, env); Ev(SelVal(x.v), x.seen)
  }

  ghost predicate Agree(e1: Env, e2: Env, seen: set<Node>) {
    forall n :: n in seen ==> e1(n) == e2(n)
  }

  lemma {:induction false} ExprCong(cfg: Config, e: Expr, e1: Env, e2: Env)
    requires Agree(e1, e2, ExprEv(cfg, e, e1).seen)
    ensures ExprEv(cfg, e, e2) == ExprEv(cfg, e, e1)
  {
    match e
    case Leaf(op) =>
    case Mode(c) =>
    case And(l, r) => ExprCong(cfg, l, e1, e2); if ExprEv(cfg, l, e1).v != 0 { ExprCong(cfg, r, e1, e2); }
    case Or(l, r) => ExprCong(cfg, l, e1, e2); if ExprEv(cfg, l, e1).v != 2 { ExprCong(cfg, r, e1, e2); }
    case Not(f) => ExprCong(cfg, f, e1, e2);
    case Compare(rel, a, b) => CompareCong(cfg, rel, a, b, e1, e2);
  }

  lemma CompareCong(cfg: Config, rel: Relation, a: Operand, b: Operand, e1: Env, e2: Env)
    requires Agree(e1, e2, CompareEv(cfg, rel, a, b, e1).seen)
    ensures CompareEv(cfg, rel, a, b, e2) == CompareEv(cfg, rel, a, b, e1)
  {
    hide NumOf, TextOf, Holds, StrCmp;
    var text := OperandType(cfg, a).String? && OperandType(cfg, b).String?;
    var x, y := NumOf(cfg, a, e1), NumOf(cfg, b, e1);
    if !text { NumCong(cfg, a, e1, e2); }
    if !text && x.v.Some? { NumCong(cfg, b, e1, e2); }
    if text || x.v.None? || y.v.None? { TextCongOf(a, e1, e2); TextCongOf(b, e1, e2); }
  }

  lemma NumCong(cfg: Config, op: Operand, e1: Env, e2: Env)
    requires Agree(e1, e2, NumOf(cfg, op, e1).seen)
    ensures NumOf(cfg, op, e2) == NumOf(cfg, op, e1)
  {}

  lemma TextCongOf(op: Operand, e1: Env, e2: Env)
    requires Agree(e1, e2, TextOf(op, e1).seen)
    ensures TextOf(op, e2) == TextOf(op, e1)
  {}

  lemma PromptsCong(cfg: Config, es: seq<Expr>, k: nat, e1: Env, e2: Env)
    requires k <= |es| && Agree(e1, e2, PromptsEv(cfg, es, k, e1).seen)
    ensures PromptsEv(cfg, es, k, e2) == PromptsEv(cfg, es, k, e1)
    decreases |es| - k
  {
    if k < |es| { ExprCong(cfg, es[k], e1, e2); PromptsCong(cfg, es, k + 1, e1, e2); }
  }

  lemma FirstCong(cfg: Config, es: seq<Expr>, k: nat, e1: Env, e2: Env)
    requires k <= |es| && Agree(e1, e2, FirstEv(cfg, es, k, e1).seen)
    ensures FirstEv(cfg, es, k, e2) == FirstEv(cfg, es, k, e1)
    decreases |es| - k
  {
    if k < |es| {
      ExprCong(cfg, es[k], e1, e2);
      if ExprEv(cfg, es[k], e1).v == 0 { FirstCong(cfg, es, k + 1, e1, e2); }
    }
  }

  lemma FallbackCong(cfg: Config, s: Symbol, e1: Env, e2: Env)
    requires Agree(e1, e2, FallbackEv(cfg, s, e1).seen)
    ensures FallbackEv(cfg, s, e2) == FallbackEv(cfg, s, e1)
  {
    FirstCong(cfg, Conds(s.defaults), 0, e1, e2);
    var k := FirstEv(cfg, Conds(s.defaults), 0, e1).v.0;
    if k < |s.defaults| { ExprCong(cfg, s.defaults[k].value, e1, e2); }
    ExprCong(cfg, s.weakRevDep, e1, e2);
    if ExprEv(cfg, s.weakRevDep, e1).v != 0 { ExprCong(cfg, s.directDep, e1, e2); }
  }

  lemma DefaultTextCong(cfg: Config, s: Symbol, e1: Env, e2: Env)
    requires Agree(e1, e2, DefaultTextEv(cfg, s, e1).seen)
    ensures DefaultTextEv(cfg, s, e2) == DefaultTextEv(cfg, s, e1)
  {
    FirstCong(cfg, Conds(s.defaults), 0, e1, e2);
  }

  lemma DefaultSymCong(cfg: Config, ds: seq<ChoiceDefault>, k: nat, e1: Env, e2: Env)
    requires k <= |ds| && Agree(e1, e2, FirstDefaultSymEv(cfg, ds, k, e1).seen)
    ensures FirstDefaultSymEv(cfg, ds, k, e2) == FirstDefaultSymEv(cfg, ds, k, e1)
    decreases |ds| - k
  {
    if k < |ds| {
      ExprCong(cfg, ds[k].cond, e1, e2);
      if ExprEv(cfg, ds[k].cond, e1).v == 0 || ToTri(e1(SymVis(ds[k].sym))) == 0 {
        DefaultSymCong(cfg, ds, k + 1, e1, e2);
      }
    }
  }

  lemma VisibleCong(ss: seq<nat>, k: nat, e1: Env, e2: Env)
    requires k <= |ss| && Agree(e1, e2, FirstVisibleEv(ss, k, e1).seen)
    ensures FirstVisibleEv(ss, k, e2) == FirstVisibleEv(ss, k, e1)
    decreases |ss| - k
  {
  }

  lemma DefaultSelCong(cfg: Config, c: nat, e1: Env, e2: Env)
    requires Agree(e1, e2, DefaultSelEv(cfg, c, e1).seen)
    ensures DefaultSelEv(cfg, c, e2) == DefaultSelEv(cfg, c, e1)
  {
    DefaultSymCong(cfg, ChoiceOf(cfg, c).defaults, 0, e1, e2);
    if FirstDefaultSymEv(cfg, ChoiceOf(cfg, c).defaults, 0, e1).v.None? {
      VisibleCong(ChoiceOf(cfg, c).syms, 0, e1, e2);
    }
  }

  lemma PlainCong(cfg: Config, u: User, i: nat, e1: Env, e2: Env)
    requires Agree(e1, e2, PlainTriEv(cfg, u, i, e1).seen) && e1(SymVis(i)) == e2(SymVis(i))
    ensures PlainTriEv(cfg, u, i, e2) == PlainTriEv(cfg, u, i, e1)
  {
    hide FallbackEv, SelectedEv, PromotedEv;
    var s := SymOf(cfg, i);
    var own := ToTri(e1(SymVis(i))) != 0 && UserTri(u, i).Some?;
    var x := if own then Ev(Min(UserTri(u, i).value, ToTri(e1(SymVis(i)))), {}) else FallbackEv(cfg, s, e1);
    var y := SelectedEv(cfg, s, x, e1);
    SelectedSeen(cfg, s, x, e1);
    PromotedSeen(cfg, s, y, e1);
    if !own { FallbackCong(cfg, s, e1, e2); }
    SelectedCong(cfg, s, x, e1, e2);
    PromotedCong(cfg, s, y, e1, e2);
  }

  lemma SelectedSeen(cfg: Config, s: Symbol, x: Ev<Tri>, env: Env)
    ensures x.seen <= SelectedEv(cfg, s, x, env).seen
  {}

  lemma PromotedSeen(cfg: Config, s: Symbol, x: Ev<Tri>, env: Env)
    ensures x.seen <= PromotedEv(cfg, s, x, env).seen
  {}

  lemma SelectedCong(cfg: Config, s: Symbol, x: Ev<Tri>, e1: Env, e2: Env)
    requires Agree(e1, e2, SelectedEv(cfg, s, x, e1).seen)
    ensures SelectedEv(cfg, s, x, e2) == SelectedEv(cfg, s, x, e1)
  {
    ExprCong(cfg, s.revDep, e1, e2);
    if ExprEv(cfg, s.revDep, e1).v != 0 { ExprCong(cfg, s.directDep, e1, e2); }
  }

  lemma PromotedCong(cfg: Config, s: Symbol, x: Ev<Tri>, e1: Env, e2: Env)
    requires Agree(e1, e2, PromotedEv(cfg, s, x, e1).seen)
    ensures PromotedEv(cfg, s, x, e2) == PromotedEv(cfg, s, x, e1)
  {
    if x.v == 1 && !ActsAsBoolEv(cfg, s.typ, s.choice, e1).v { ExprCong(cfg, s.weakRevDep, e1, e2); }
  }

  lemma TextCong(cfg: Config, u: User, i: nat, e1: Env, e2: Env)
    requires Agree(e1, e2, SymStrEv(cfg, u, i, e1).seen)
    ensures SymStrEv(cfg, u, i, e2) == SymStrEv(cfg, u, i, e1)
  {
    var s := SymOf(cfg, i);
    if s.typ.Int? || s.typ.Hex? {
      var r := RangeEv(cfg, s, e1);
      var f := FirstEv(cfg, RangeConds(s.ranges), 0, e1);
      assert f.seen <= r.seen <= SymStrEv(cfg, u, i, e1).seen;
      FirstCong(cfg, RangeConds(s.ranges), 0, e1, e2);
      assert RangeEv(cfg, s, e2) == r;
      if !(ToTri(e1(SymVis(i))) != 0 && UserText(u, i).Some? &&
           Accepts(cfg, s.typ, UserText(u, i).value, r.v)) {
        DefaultTextCong(cfg, s, e1, e2);
      }
    } else if s.typ.String? {
      if !(ToTri(e1(SymVis(i))) != 0 && UserText(u, i).Some?) { DefaultTextCong(cfg, s, e1, e2); }
    }
  }

  // Evaluation depends on nothing but what it reports having read.
  lemma StepCong(cfg: Config, u: User, n: Node, e1: Env, e2: Env)
    requires Agree(e1, e2, Step(cfg, u, n, e1).seen)
    ensures Step(cfg, u, n, e2) == Step(cfg, u, n, e1)
  {
    match n
    case SymVis(i) => SymVisCong(cfg, i, e1, e2);
    case SymTri(i) =>
      var s := SymOf(cfg, i);
      if IsLogical(s.typ) && s.choice.None? { PlainCong(cfg, u, i, e1, e2); }
    case SymStr(i) => TextCong(cfg, u, i, e1, e2);
    case ChoiceVis(c) => ChoiceVisCong(cfg, c, e1, e2);
    case ChoiceTri(c) =>
    case ChoiceSel(c) => SelectionCong(cfg, u, c, e1, e2);
  }

  lemma SymVisCong(cfg: Config, i: nat, e1: Env, e2: Env)
    requires Agree(e1, e2, SymVisEv(cfg, i, e1).seen)
    ensures SymVisEv(cfg, i, e2) == SymVisEv(cfg, i, e1)
  {
    var s := SymOf(cfg, i);
    assert PromptsEv(cfg, s.prompts, 0, e1).seen <= SymVisEv(cfg, i, e1).seen;
    PromptsCong(cfg, s.prompts, 0, e1, e2);
  }

  lemma ChoiceVisCong(cfg: Config, c: nat, e1: Env, e2: Env)
    requires Agree(e1, e2, ChoiceVisEv(cfg, c, e1).seen)
    ensures ChoiceVisEv(cfg, c, e2) == ChoiceVisEv(cfg, c, e1)
  {
    assert PromptsEv(cfg, ChoiceOf(cfg, c).prompts, 0, e1).seen <= ChoiceVisEv(cfg, c, e1).seen;
    PromptsCong(cfg, ChoiceOf(cfg, c).prompts, 0, e1, e2);
  }

  lemma SelectionCong(cfg: Config, u: User, c: nat, e1: Env, e2: Env)
    requires Agree(e1, e2, ChoiceSelEv(cfg, u, c, e1).seen)
    ensures ChoiceSelEv(cfg, u, c, e2) == ChoiceSelEv(cfg, u, c, e1)
  {
    if ToTri(e1(ChoiceTri(c))) == 2 &&
       !(c < |u.pick| && u.pick[c].Some? && ToTri(e1(SymVis(u.pick[c].value))) != 0) {
      DefaultSelCong(cfg, c, e1, e2);
    }
  }
}

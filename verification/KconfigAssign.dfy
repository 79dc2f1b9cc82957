// Which values the user can give a symbol or choice (tools/kconfiglib.py, _assignable), and what
// becomes of the values when the user gives one.
module KconfigAssign {
  import opened Options
  import opened KconfigModel
  import opened KconfigCoherence
  import opened KconfigValues

  // Symbol._assignable
  function SymAssignable(cfg: Config, i: nat, env: Env): set<Tri> {
    var s, vis := SymOf(cfg, i), ToTri(env(SymVis(i)));
    var rev, weak := ExprEv(cfg, s.revDep, env).v, ExprEv(cfg, s.weakRevDep, env).v;
    if !IsLogical(s.typ) || vis == 0 then {}
    else if vis == 2 then
      if s.choice.Some? || rev == 2 then {2}
      else
        var noM := ActsAsBoolEv(cfg, s.typ, s.choice, env).v || weak == 2;
        if rev == 0 then (if noM then {0, 2} else {0, 1, 2}) else if noM then {2} else {1, 2}
    else if rev == 0 then (if weak != 2 then {0, 1} else {0, 2})
    else if rev == 2 then {2}
    else {1}
  }

  // Choice._assignable
  function ChoiceAssignable(cfg: Config, c: nat, env: Env): set<Tri> {
    var ch, vis := ChoiceOf(cfg, c), ToTri(env(ChoiceVis(c)));
    if vis == 0 then {}
    else if vis == 2 then
      var noM := ActsAsBoolEv(cfg, ch.typ, None, env).v;
      if !ch.optional then (if noM then {2} else {1, 2}) else if noM then {0, 2} else {0, 1, 2}
    else if ch.optional then {0, 1} else {1}
  }

  // ----- what a user value leaves alone -----

  // What lies below the first property that a change concerns is as before.
  lemma {:induction false} BelowSame(cfg: Config, u: User, u2: User, rank: Node -> nat, top: nat, n: Node)
    requires Acyclic(cfg, rank) && UserOk(cfg, u) && UserOk(cfg, u2) && rank(n) < top
    requires forall m, env :: rank(m) < top ==> Step(cfg, u2, m, env) == Step(cfg, u, m, env)
    ensures Eval(cfg, u2, rank, n) == Eval(cfg, u, rank, n)
    decreases rank(n)
  {
    hide Step;
    var f, f2 := Fresh(cfg, u, rank), Fresh(cfg, u2, rank);
    EvalUnfold(cfg, u, rank, n);
    EvalUnfold(cfg, u2, rank, n);
    forall m | m in Step(cfg, u, n, f).seen ensures f(m) == f2(m) { BelowSame(cfg, u, u2, rank, top, m); }
    StepCong(cfg, u, n, f, f2);
  }

  lemma ExprSame(cfg: Config, u: User, u2: User, rank: Node -> nat, top: nat, e: Expr)
    requires Acyclic(cfg, rank) && UserOk(cfg, u) && UserOk(cfg, u2)
    requires forall m, env :: rank(m) < top ==> Step(cfg, u2, m, env) == Step(cfg, u, m, env)
    requires forall m :: m in ExprEv(cfg, e, Fresh(cfg, u, rank)).seen ==> rank(m) < top
    ensures ExprEv(cfg, e, Fresh(cfg, u2, rank)) == ExprEv(cfg, e, Fresh(cfg, u, rank))
  {
    hide Step, ExprEv;
    var f, f2 := Fresh(cfg, u, rank), Fresh(cfg, u2, rank);
    forall m | m in ExprEv(cfg, e, f).seen ensures f(m) == f2(m) { BelowSame(cfg, u, u2, rank, top, m); }
    ExprCong(cfg, e, f, f2);
  }

  // ----- symbols outside choices -----

  function Given(u: User, i: nat, t: Tri): User
    requires i < |u.sym|
  {
    u.(sym := u.sym[i := SetTri(t)])
  }

  // Everything that a bool or tristate symbol can be computed from stands below it.
  lemma PlainReads(cfg: Config, u: User, rank: Node -> nat, i: nat, env: Env)
    requires Acyclic(cfg, rank) && UserOk(cfg, u) && i < |cfg.syms|
    requires IsLogical(SymOf(cfg, i).typ) && SymOf(cfg, i).choice.None?
    ensures rank(SymVis(i)) < rank(SymTri(i)) < rank(SymStr(i))
    ensures forall m :: m in ExprEv(cfg, SymOf(cfg, i).revDep, env).seen ==> rank(m) < rank(SymTri(i))
    ensures forall m :: m in ExprEv(cfg, SymOf(cfg, i).weakRevDep, env).seen ==> rank(m) < rank(SymTri(i))
    ensures
      Vis(env, i) != 0 && ExprVal(cfg, SymOf(cfg, i).revDep, env) < 2 ==>
        forall m :: m in ActsAsBoolEv(cfg, SymOf(cfg, i).typ, None, env).seen ==> rank(m) < rank(SymTri(i))
  {
    var s := SymOf(cfg, i);
    var unset, given := u.(sym := u.sym[i := Unset]), Given(u, i, 1);
    hide ExprEv, ActsAsBoolEv, DefaultTriEv;
    assert SymVis(i) in Step(cfg, u, SymTri(i), env).seen && SymTri(i) in Step(cfg, u, SymStr(i), env).seen;
    FallbackSeen(cfg, s, env);
    PlainSeen(cfg, unset, i, env);
    PlainSeen(cfg, given, i, env);
    assert PlainTriEv(cfg, unset, i, env).seen <= Step(cfg, unset, SymTri(i), env).seen;
    assert PlainTriEv(cfg, given, i, env).seen <= Step(cfg, given, SymTri(i), env).seen;
  }

  lemma FallbackSeen(cfg: Config, s: Symbol, env: Env)
    ensures ExprEv(cfg, s.weakRevDep, env).seen <= FallbackEv(cfg, s, env).seen
  {
    hide ExprEv, DefaultTriEv;
  }

  lemma PlainSeen(cfg: Config, u: User, i: nat, env: Env)
    ensures
      var s, p := SymOf(cfg, i), PlainTriEv(cfg, u, i, env);
      && ExprEv(cfg, s.revDep, env).seen <= p.seen
      && (UserTri(u, i).None? ==> FallbackEv(cfg, s, env).seen <= p.seen)
      && (UserTri(u, i) == Some(1) && Vis(env, i) != 0 && ExprEv(cfg, s.revDep, env).v < 2 ==>
           ActsAsBoolEv(cfg, s.typ, s.choice, env).seen <= p.seen)
  {
    hide ExprEv, ActsAsBoolEv, FallbackEv;
  }

  // A user value of i concerns nothing below the value of i.
  lemma GivenLocal(cfg: Config, u: User, rank: Node -> nat, i: nat, t: Tri)
    requires Acyclic(cfg, rank) && UserOk(cfg, u) && i < |cfg.syms|
    requires IsLogical(SymOf(cfg, i).typ) && SymOf(cfg, i).choice.None?
    ensures UserOk(cfg, Given(u, i, t))
    ensures forall m, env :: rank(m) < rank(SymTri(i)) ==> Step(cfg, Given(u, i, t), m, env) == Step(cfg, u, m, env)
  {
    hide Step;
    var u2 := Given(u, i, t);
    PlainReads(cfg, u, rank, i, _ => TriVal(0));
    forall m, env | rank(m) < rank(SymTri(i)) ensures Step(cfg, u2, m, env) == Step(cfg, u, m, env) {
      if m == SymVis(i) { VisNoUser(cfg, u, u2, i, env); } else { UserLocal(cfg, u, u2, m, env); }
    }
  }

  lemma VisNoUser(cfg: Config, u: User, u2: User, i: nat, env: Env)
    ensures Step(cfg, u2, SymVis(i), env) == Step(cfg, u, SymVis(i), env)
  {}

  // Giving i a value leaves all that its value is computed from as it is.
  lemma GivenSame(cfg: Config, u: User, rank: Node -> nat, i: nat, t: Tri)
    requires Acyclic(cfg, rank) && UserOk(cfg, u) && i < |cfg.syms|
    requires IsLogical(SymOf(cfg, i).typ) && SymOf(cfg, i).choice.None?
    ensures UserOk(cfg, Given(u, i, t))
    ensures
      var s, f, f2 := SymOf(cfg, i), Fresh(cfg, u, rank), Fresh(cfg, Given(u, i, t), rank);
      && Vis(f2, i) == Vis(f, i)
      && ExprEv(cfg, s.revDep, f2) == ExprEv(cfg, s.revDep, f)
      && ExprEv(cfg, s.weakRevDep, f2) == ExprEv(cfg, s.weakRevDep, f)
      && (Vis(f, i) != 0 && ExprVal(cfg, s.revDep, f) < 2 ==>
           CanBeM(cfg, s.typ, None, f2) == CanBeM(cfg, s.typ, None, f))
  {
    hide Step, ExprEv;
    var s, f, u2, top := SymOf(cfg, i), Fresh(cfg, u, rank), Given(u, i, t), rank(SymTri(i));
    PlainReads(cfg, u, rank, i, f);
    GivenLocal(cfg, u, rank, i, t);
    BelowSame(cfg, u, u2, rank, top, SymVis(i));
    ExprSame(cfg, u, u2, rank, top, s.revDep);
    ExprSame(cfg, u, u2, rank, top, s.weakRevDep);
    if s.typ == Tristate && cfg.modules.Some? && Vis(f, i) != 0 && ExprVal(cfg, s.revDep, f) < 2 {
      BelowSame(cfg, u, u2, rank, top, SymTri(cfg.modules.value));
    }
  }

  // Visible as m, selected as m and implied with y: the one case in which what is assignable is
  // not what the symbol takes.
  predicate Torn(cfg: Config, i: nat, env: Env) {
    var s := SymOf(cfg, i);
    Vis(env, i) == 1 && ExprVal(cfg, s.revDep, env) == 1 && ExprVal(cfg, s.weakRevDep, env) == 2
  }

  // The assignable values of a visible symbol are exactly those that it takes on when they are
  // given to it, if and only if it is not torn.
  lemma AssignableExact(cfg: Config, u: User, rank: Node -> nat, i: nat)
    requires Acyclic(cfg, rank) && UserOk(cfg, u) && i < |cfg.syms|
    requires IsLogical(SymOf(cfg, i).typ) && SymOf(cfg, i).choice.None? && Vis(Fresh(cfg, u, rank), i) != 0
    ensures
      var f := Fresh(cfg, u, rank);
      (forall t :: t in SymAssignable(cfg, i, f) <==> Val(Fresh(cfg, Given(u, i, t), rank), i) == t)
      <==> !Torn(cfg, i, f)
  {
    hide Acyclic, Fresh, Eval;
    var f := Fresh(cfg, u, rank);
    forall t: Tri ensures Val(Fresh(cfg, Given(u, i, t), rank), i) == Taken(cfg, i, f, t) {
      TakenIs(cfg, u, rank, i, t);
    }
    FreshSolves(cfg, u, rank);
    VisibleM(cfg, u, f, i);
    AssignableTaken(cfg, i, f);
    assert Taken(cfg, i, f, 0) in {0, 1, 2};
  }

  // What becomes of a value given to a visible symbol
  function Taken(cfg: Config, i: nat, env: Env, t: Tri): Tri {
    var s := SymOf(cfg, i);
    Raised(cfg, s, env, Max(Min(t, Vis(env, i)), ExprVal(cfg, s.revDep, env)))
  }

  lemma TakenIs(cfg: Config, u: User, rank: Node -> nat, i: nat, t: Tri)
    requires Acyclic(cfg, rank) && UserOk(cfg, u) && i < |cfg.syms|
    requires IsLogical(SymOf(cfg, i).typ) && SymOf(cfg, i).choice.None? && Vis(Fresh(cfg, u, rank), i) != 0
    ensures Val(Fresh(cfg, Given(u, i, t), rank), i) == Taken(cfg, i, Fresh(cfg, u, rank), t)
  {
    hide Acyclic, Fresh, Eval, CanBeM;
    var u2 := Given(u, i, t);
    GivenSame(cfg, u, rank, i, t);
    FreshSolves(cfg, u2, rank);
    var x, y := PlainLaw(cfg, u2, Fresh(cfg, u2, rank), i);
  }

  lemma VisibleM(cfg: Config, u: User, env: Env, i: nat)
    requires Solves(cfg, u, env)
    ensures Vis(env, i) == 1 ==> CanBeM(cfg, SymOf(cfg, i).typ, SymOf(cfg, i).choice, env)
  {
    if !CanBeM(cfg, SymOf(cfg, i).typ, SymOf(cfg, i).choice, env) { NoM(cfg, u, env, i); }
  }

  lemma AssignableTaken(cfg: Config, i: nat, env: Env)
    requires IsLogical(SymOf(cfg, i).typ) && SymOf(cfg, i).choice.None? && Vis(env, i) != 0
    requires Vis(env, i) == 1 ==> CanBeM(cfg, SymOf(cfg, i).typ, None, env)
    ensures !Torn(cfg, i, env) ==> forall t :: t in SymAssignable(cfg, i, env) <==> Taken(cfg, i, env, t) == t
    ensures Torn(cfg, i, env) ==> 1 in SymAssignable(cfg, i, env) && Taken(cfg, i, env, 1) != 1
  {
    hide ExprEv;
    assert ActsAsBoolEv(cfg, SymOf(cfg, i).typ, None, env).v <==> !CanBeM(cfg, SymOf(cfg, i).typ, None, env);
  }

  // ----- modes of choices -----

  function InMode(u: User, c: nat, t: Tri): User
    requires c < |u.mode|
  {
    u.(mode := u.mode[c := Some(t)])
  }

  lemma ModeReads(cfg: Config, u: User, rank: Node -> nat, c: nat, env: Env)
    requires Acyclic(cfg, rank) && UserOk(cfg, u) && c < |cfg.choices|
    ensures rank(ChoiceVis(c)) < rank(ChoiceTri(c)) < rank(ChoiceSel(c))
    ensures
      ToTri(env(ChoiceVis(c))) != 0 && cfg.choices[c].typ == Tristate && cfg.modules.Some? ==>
        rank(SymTri(cfg.modules.value)) < rank(ChoiceTri(c))
  {
    var inM := InMode(u, c, 1);
    assert ChoiceVis(c) in Step(cfg, u, ChoiceTri(c), env).seen && ChoiceTri(c) in Step(cfg, u, ChoiceSel(c), env).seen;
    if ToTri(env(ChoiceVis(c))) != 0 && cfg.choices[c].typ == Tristate && cfg.modules.Some? {
      assert SymTri(cfg.modules.value) in Step(cfg, inM, ChoiceTri(c), env).seen;
    }
  }

  lemma ModeSame(cfg: Config, u: User, rank: Node -> nat, c: nat, t: Tri)
    requires Acyclic(cfg, rank) && UserOk(cfg, u) && c < |cfg.choices|
    requires ToTri(Fresh(cfg, u, rank)(ChoiceVis(c))) != 0
    ensures UserOk(cfg, InMode(u, c, t))
    ensures
      var f, f2 := Fresh(cfg, u, rank), Fresh(cfg, InMode(u, c, t), rank);
      f2(ChoiceVis(c)) == f(ChoiceVis(c)) &&
      CanBeM(cfg, cfg.choices[c].typ, None, f2) == CanBeM(cfg, cfg.choices[c].typ, None, f)
  {
    hide Step;
    var f, u2, top := Fresh(cfg, u, rank), InMode(u, c, t), rank(ChoiceTri(c));
    ModeReads(cfg, u, rank, c, f);
    forall m, env | rank(m) < top ensures Step(cfg, u2, m, env) == Step(cfg, u, m, env) {
      if m == ChoiceVis(c) { ChoiceVisNoUser(cfg, u, u2, c, env); } else { UserLocal(cfg, u, u2, m, env); }
    }
    BelowSame(cfg, u, u2, rank, top, ChoiceVis(c));
    if cfg.choices[c].typ == Tristate && cfg.modules.Some? {
      BelowSame(cfg, u, u2, rank, top, SymTri(cfg.modules.value));
    }
  }

  lemma ChoiceVisNoUser(cfg: Config, u: User, u2: User, c: nat, env: Env)
    ensures Step(cfg, u2, ChoiceVis(c), env) == Step(cfg, u, ChoiceVis(c), env)
  {}

  // The assignable modes of a visible choice are exactly those that it takes on.
  lemma ChoiceAssignableExact(cfg: Config, u: User, rank: Node -> nat, c: nat, t: Tri)
    requires Acyclic(cfg, rank) && UserOk(cfg, u) && c < |cfg.choices| && IsLogical(cfg.choices[c].typ)
    requires ToTri(Fresh(cfg, u, rank)(ChoiceVis(c))) != 0
    ensures t in ChoiceAssignable(cfg, c, Fresh(cfg, u, rank)) <==> ModeOf(Fresh(cfg, InMode(u, c, t), rank), c) == t
  {
    hide Acyclic, Fresh, Eval, GreatestOf;
    var f, u2 := Fresh(cfg, u, rank), InMode(u, c, t);
    ModeSame(cfg, u, rank, c, t);
    FreshSolves(cfg, u, rank);
    FreshSolves(cfg, u2, rank);
    var g := ChoiceVisibilityLaw(cfg, u, f, c);
    ModeLaw(cfg, u2, Fresh(cfg, u2, rank), c);
    assert ActsAsBoolEv(cfg, cfg.choices[c].typ, None, f).v <==> !CanBeM(cfg, cfg.choices[c].typ, None, f);
  }

  // ----- symbols of choices -----

  // The user sets symbol i of choice c to y.
  function Picked(u: User, c: nat, i: nat): User
    requires i < |u.sym| && c < |u.pick|
  {
    u.(sym := u.sym[i := SetTri(2)], pick := u.pick[c := Some(i)])
  }

  lemma PickReads(cfg: Config, u: User, rank: Node -> nat, c: nat, i: nat)
    requires Acyclic(cfg, rank) && UserOk(cfg, u) && i < |cfg.syms| && c < |cfg.choices| && UserOk(cfg, Picked(u, c, i))
    requires IsLogical(SymOf(cfg, i).typ) && SymOf(cfg, i).choice == Some(c)
    ensures rank(ChoiceTri(c)) < rank(ChoiceSel(c)) && rank(SymVis(i)) < rank(ChoiceSel(c))
    ensures rank(ChoiceSel(c)) < rank(SymTri(i)) < rank(SymStr(i))
  {
    var env: Env := m => TriVal(2);
    assert ChoiceTri(c) in Step(cfg, u, ChoiceSel(c), env).seen;
    assert SymVis(i) in Step(cfg, Picked(u, c, i), ChoiceSel(c), env).seen;
    assert ChoiceSel(c) in Step(cfg, u, SymTri(i), env).seen && SymTri(i) in Step(cfg, u, SymStr(i), env).seen;
  }

  lemma PickLocal(cfg: Config, u: User, u2: User, c: nat, i: nat, m: Node, env: Env)
    requires UserOk(cfg, u) && i < |cfg.syms| && c < |cfg.choices|
    requires u2 == Picked(u, c, i) && UserOk(cfg, u2) && m != ChoiceSel(c) && m != SymTri(i) && m != SymStr(i)
    ensures Step(cfg, u2, m, env) == Step(cfg, u, m, env)
  {
    if Owner(m) != SymItem(i) && Owner(m) != ChoiceItem(c) { UserLocal(cfg, u, u2, m, env); }
  }

  // Setting a visible symbol of a choice of mode y makes it the selection: it is y from then on,
  // and every other symbol of the choice is n.
  lemma PickTaken(cfg: Config, u: User, rank: Node -> nat, c: nat, i: nat)
    requires Acyclic(cfg, rank) && MembersOk(cfg) && UserOk(cfg, u) && i < |cfg.syms|
    requires IsLogical(SymOf(cfg, i).typ) && SymOf(cfg, i).choice == Some(c)
    requires ModeOf(Fresh(cfg, u, rank), c) == 2 && Vis(Fresh(cfg, u, rank), i) != 0
    ensures c < |cfg.choices| && UserOk(cfg, Picked(u, c, i))
    ensures
      var f2 := Fresh(cfg, Picked(u, c, i), rank);
      && Selection(f2, c) == Some(i) && Val(f2, i) == 2
      && forall j :: j != i && IsLogical(SymOf(cfg, j).typ) && SymOf(cfg, j).choice == Some(c) ==> Val(f2, j) == 0
  {
    hide Step;
    var u2, top := Picked(u, c, i), rank(ChoiceSel(c));
    PickReads(cfg, u, rank, c, i);
    forall m, env | rank(m) < top ensures Step(cfg, u2, m, env) == Step(cfg, u, m, env) {
      PickLocal(cfg, u, u2, c, i, m, env);
    }
    BelowSame(cfg, u, u2, rank, top, ChoiceTri(c));
    BelowSame(cfg, u, u2, rank, top, SymVis(i));
    PickedIs(cfg, u, u2, rank, c, i);
  }

  lemma PickedIs(cfg: Config, u: User, u2: User, rank: Node -> nat, c: nat, i: nat)
    requires Acyclic(cfg, rank) && MembersOk(cfg) && UserOk(cfg, u2) && i < |cfg.syms| && c < |cfg.choices|
    requires IsLogical(SymOf(cfg, i).typ) && SymOf(cfg, i).choice == Some(c) && u2.pick[c] == Some(i)
    requires ModeOf(Fresh(cfg, u2, rank), c) == 2 && Vis(Fresh(cfg, u2, rank), i) != 0
    ensures
      var f2 := Fresh(cfg, u2, rank);
      && Selection(f2, c) == Some(i) && Val(f2, i) == 2
      && forall j :: j != i && IsLogical(SymOf(cfg, j).typ) && SymOf(cfg, j).choice == Some(c) ==> Val(f2, j) == 0
  {
    hide Acyclic, Fresh, Eval, Falls;
    var f2 := Fresh(cfg, u2, rank);
    FreshSolves(cfg, u2, rank);
    SelectionLaw(cfg, u2, f2, c);
    forall j | IsLogical(SymOf(cfg, j).typ) && SymOf(cfg, j).choice == Some(c)
      ensures Val(f2, j) == if j == i then 2 else 0
    {
      MemberLaw(cfg, u2, f2, j);
    }
  }

  // ----- a torn symbol -----

  // A driver that a module selects and a built-in part implies, shown as far as the module is set
  function TornConfig(): Config {
    Config(
      [ Symbol(Bool, "MODULES", [], [Default(YES, YES)], [], NO, NO, YES, None),
        Symbol(Tristate, "PART", [], [Default(YES, YES)], [], NO, NO, YES, None),
        Symbol(Tristate, "MODULE", [], [Default(MODULE, YES)], [], NO, NO, YES, None),
        Symbol(Tristate, "DRIVER", [Leaf(Ref(2))], [], [], Leaf(Ref(2)), Leaf(Ref(1)), YES, None) ],
      [], Some(0), (t, s) => None, (t, n) => "")
  }

  function TornRank(n: Node): nat {
    match n
    case SymVis(i) => if i == 3 then 4 else 0
    case SymTri(i) => if i == 0 then 1 else if i == 3 then 5 else 2
    case SymStr(i) => 6
    case ChoiceVis(c) => 7
    case ChoiceTri(c) => 8
    case ChoiceSel(c) => 9
  }

  lemma TornReads(u: User, n: Node, env: Env)
    requires UserOk(TornConfig(), u)
    ensures forall m :: m in Step(TornConfig(), u, n, env).seen ==> TornRank(m) < TornRank(n)
  {
    var cfg := TornConfig();
    OnePrompt(cfg, Leaf(Ref(2)), env);
    if n.SymTri? { TornValue(u, n.i, env); }
  }

  lemma TornValue(u: User, i: nat, env: Env)
    ensures forall m :: m in Step(TornConfig(), u, SymTri(i), env).seen ==> TornRank(m) < TornRank(SymTri(i))
  {
    hide FallbackEv;
    if i < 4 { TornFallback(i, env); }
  }

  lemma TornFallback(i: nat, env: Env)
    requires i < 4
    ensures
      var f := FallbackEv(TornConfig(), SymOf(TornConfig(), i), env);
      && f.seen == (if i < 3 then {} else {SymTri(1)})
      && (i < 3 ==> f.v == if i == 2 then 1 else 2)
  {
    var cfg, s := TornConfig(), SymOf(TornConfig(), i);
    if i < 3 {
      assert Conds(s.defaults) == [YES];
    } else {
      assert Conds(s.defaults) == [];
    }
  }

  // Its value is y, and stays y when m is given to it, although m is what is said to be assignable.
  lemma TornReached(u: User)
    requires UserOk(TornConfig(), u)
    ensures Acyclic(TornConfig(), TornRank) && Torn(TornConfig(), 3, Fresh(TornConfig(), u, TornRank))
    ensures SymAssignable(TornConfig(), 3, Fresh(TornConfig(), u, TornRank)) == {1}
    ensures forall t :: Val(Fresh(TornConfig(), Given(u, 3, t), TornRank), 3) == 2
  {
    var cfg, f := TornConfig(), Fresh(TornConfig(), u, TornRank);
    hide Step, Fresh, Eval;
    forall v: User, n, env, m | UserOk(cfg, v) && m in Step(cfg, v, n, env).seen ensures TornRank(m) < TornRank(n) {
      TornReads(v, n, env);
    }
    FreshSolves(cfg, u, TornRank);
    TornValues(u, f);
    forall t ensures Val(Fresh(cfg, Given(u, 3, t), TornRank), 3) == 2 { TakenIs(cfg, u, TornRank, 3, t); }
  }

  lemma TornValues(u: User, env: Env)
    requires UserOk(TornConfig(), u) && Solves(TornConfig(), u, env)
    ensures Val(env, 0) == 2 && Val(env, 1) == 2 && Val(env, 2) == 1 && Vis(env, 3) == 1
  {
    var cfg := TornConfig();
    forall i: nat | i < 3 ensures Vis(env, i) == 0 { assert env(SymVis(i)) == Step(cfg, u, SymVis(i), env).v; }
    forall i: nat | i < 3 ensures env(SymTri(i)) == Step(cfg, u, SymTri(i), env).v {}
    TornFallback(0, env);
    TornFallback(1, env);
    TornFallback(2, env);
    OnePrompt(cfg, Leaf(Ref(2)), env);
    assert env(SymVis(3)) == Step(cfg, u, SymVis(3), env).v;
  }
}

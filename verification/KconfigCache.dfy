// The memoising Kconfig engine: cached property reads, user changes, invalidation.
//
// One map holds all the _cached_* attributes: an entry for SymVis(i) is the _cached_vis of
// symbol i, and so on. A missing entry is the attribute's "not calculated" value.
module KconfigCache {
  import opened Options
  import opened Lists
  import opened KconfigModel
  import opened KconfigCoherence
  import opened KconfigAssign

  // Storing a value computed from live properties keeps the cache coherent.
  lemma StoreCoherent(cfg: Config, u: User, rank: Node -> nat, cache: Cache, n: Node, v: Value)
    requires Acyclic(cfg, rank) && UserOk(cfg, u) && Coherent(cfg, u, rank, cache) && !n.ChoiceTri?
    requires v == Step(cfg, u, n, Fresh(cfg, u, rank)).v
    requires forall m :: m in Step(cfg, u, n, Fresh(cfg, u, rank)).seen ==> Live(cfg, u, rank, cache, m)
    requires Step(cfg, u, n, Fresh(cfg, u, rank)).seen == {} || VisNode(Owner(n)) in cache[n := v]
    ensures Coherent(cfg, u, rank, cache[n := v])
    ensures forall m :: Live(cfg, u, rank, cache, m) ==> Live(cfg, u, rank, cache[n := v], m)
  {
    EvalUnfold(cfg, u, rank, n);
  }

  class Kconfig {
    const cfg: Config
    ghost const rank: Node -> nat
    var user: User
    var cache: Cache
    var dependents: map<Item, set<Item>>

    ghost function E(): Env reads this { Fresh(cfg, user, rank) }

    ghost predicate L(n: Node) reads this { Live(cfg, user, rank, cache, n) }

    ghost predicate Lives(s: set<Node>) reads this { forall m :: m in s ==> L(m) }

    ghost predicate Below(s: set<Node>, bound: nat) { forall m :: m in s ==> rank(m) < bound }

    function DependentsOf(y: Item): set<Item> reads this {
      if y in dependents then dependents[y] else {}
    }

    ghost predicate DependentsBuilt() reads this {
      forall x, y :: x in DependentsOf(y) <==> Mentions(cfg, x, y)
    }

    ghost predicate Valid() reads this {
      && MembersOk(cfg) && UserOk(cfg, user) && Acyclic(cfg, rank)
      && DependentsBuilt() && Coherent(cfg, user, rank, cache)
    }

    // Whatever a user change invalidates next, the cache stays coherent.
    ghost predicate Ready() reads this { DefaultsLinked(cfg, user, rank, cache) }

    lemma AlwaysReady()
      requires Valid() && WellFormed(cfg)
      ensures Ready()
    {
      TrackedLinked(cfg, user, rank, cache);
    }

    constructor (cfg: Config, ghost rank: Node -> nat)
      requires MembersOk(cfg) && Acyclic(cfg, rank)
      ensures user == User(seq(|cfg.syms|, _ => Unset), seq(|cfg.choices|, _ => None), seq(|cfg.choices|, _ => None))
      ensures Valid() && cache == map[] && this.cfg == cfg && this.rank == rank
    {
      this.cfg := cfg;
      this.rank := rank;
      user := User(seq(|cfg.syms|, _ => Unset), seq(|cfg.choices|, _ => None), seq(|cfg.choices|, _ => None));
      cache := map[];
      dependents := map[];
      new;
      BuildDep();
    }

    // ----- dependency sets -----

    method Register(x: Item, y: Item)
      modifies this`dependents
      ensures forall z :: DependentsOf(z) == old(DependentsOf(z)) + (if z == y then {x} else {})
    {
      dependents := dependents[y := DependentsOf(y) + {x}];
    }

    method DependOnOperand(x: Item, op: Operand)
      modifies this`dependents
      ensures forall z :: DependentsOf(z) == old(DependentsOf(z)) + (if z in OperandItems(op) then {x} else {})
    {
      if op.Ref? { Register(x, SymItem(op.sym)); }
    }

    // _make_depend_on
    method MakeDependOn(x: Item, e: Expr)
      modifies this`dependents
      ensures forall z :: DependentsOf(z) == old(DependentsOf(z)) + (if z in ExprItems(e) then {x} else {})
      decreases e
    {
      match e
      case Leaf(op) => DependOnOperand(x, op);
      case Mode(c) => Register(x, ChoiceItem(c));
      case And(l, r) => MakeDependOn(x, l); MakeDependOn(x, r);
      case Or(l, r) => MakeDependOn(x, l); MakeDependOn(x, r);
      case Not(f) => MakeDependOn(x, f);
      case Compare(_, a, b) => DependOnOperand(x, a); DependOnOperand(x, b);
    }

    method DependOnAll(x: Item, es: seq<Expr>)
      modifies this`dependents
      ensures forall w, z :: w in DependentsOf(z) <==> w in old(DependentsOf(z)) || (w == x && InSome(z, es))
    {
      for k := 0 to |es|
        invariant forall w, z :: w in DependentsOf(z) <==> w in old(DependentsOf(z)) || (w == x && InSome(z, es[..k]))
      {
        MakeDependOn(x, es[k]);
        assert forall z :: InSome(z, es[..k + 1]) <==> InSome(z, es[..k]) || z in ExprItems(es[k]) by {
          forall z ensures InSome(z, es[..k + 1]) <==> InSome(z, es[..k]) || z in ExprItems(es[k]) {
            if InSome(z, es[..k]) {
              var j :| 0 <= j < k && z in ExprItems(es[..k][j]);
              assert es[..k + 1][j] == es[j];
            }
            if z in ExprItems(es[k]) { assert es[..k + 1][k] == es[k]; }
            if InSome(z, es[..k + 1]) {
              var j :| 0 <= j < k + 1 && z in ExprItems(es[..k + 1][j]);
              if j < k { assert es[..k][j] == es[j]; }
            }
          }
        }
      }
      assert es[..|es|] == es;
    }

    function DefaultValues(i: nat): seq<Expr> {
      var ds := SymOf(cfg, i).defaults; seq(|ds|, k requires 0 <= k < |ds| => ds[k].value)
    }

    function RangeLows(i: nat): seq<Expr> {
      var rs := SymOf(cfg, i).ranges; seq(|rs|, k requires 0 <= k < |rs| => Leaf(rs[k].low))
    }

    function RangeHighs(i: nat): seq<Expr> {
      var rs := SymOf(cfg, i).ranges; seq(|rs|, k requires 0 <= k < |rs| => Leaf(rs[k].high))
    }

    lemma SymbolMentions(i: nat, z: Item)
      ensures Mentions(cfg, SymItem(i), z) <==>
                var s := SymOf(cfg, i);
                || InSome(z, s.prompts) || InSome(z, Conds(s.defaults)) || InSome(z, DefaultValues(i))
                || z in ExprItems(s.revDep) || z in ExprItems(s.weakRevDep)
                || InSome(z, RangeLows(i)) || InSome(z, RangeHighs(i)) || InSome(z, RangeConds(s.ranges))
                || z in ExprItems(s.directDep)
    {
      var s := SymOf(cfg, i);
      if k :| 0 <= k < |s.defaults| && z in ExprItems(s.defaults[k].value) {
        assert z in ExprItems(DefaultValues(i)[k]);
      }
      if k :| 0 <= k < |s.ranges| && z in OperandItems(s.ranges[k].low) + OperandItems(s.ranges[k].high) {
        assert z in ExprItems(RangeLows(i)[k]) || z in ExprItems(RangeHighs(i)[k]);
      }
    }

    // Symbol i's part of _build_dep
    method DependOnSymbol(i: nat)
      requires i < |cfg.syms|
      modifies this`dependents
      ensures forall w, z :: w in DependentsOf(z) <==>
                w in old(DependentsOf(z)) || (w == SymItem(i) && Mentions(cfg, w, z))
    {
      DependOnProperties(SymItem(i), cfg.syms[i].prompts, Conds(cfg.syms[i].defaults), DefaultValues(i));
      label properties:
      var s := cfg.syms[i];
      MakeDependOn(SymItem(i), s.revDep);
      MakeDependOn(SymItem(i), s.weakRevDep);
      MakeDependOn(SymItem(i), s.directDep);
      label deps:
      DependOnProperties(SymItem(i), RangeLows(i), RangeHighs(i), RangeConds(s.ranges));
      forall z { SymbolMentions(i, z); }
    }

    method DependOnProperties(x: Item, es: seq<Expr>, fs: seq<Expr>, gs: seq<Expr>)
      modifies this`dependents
      ensures forall w, z :: w in DependentsOf(z) <==>
                w in old(DependentsOf(z)) || (w == x && (InSome(z, es) || InSome(z, fs) || InSome(z, gs)))
    {
      DependOnAll(x, es);
      DependOnAll(x, fs);
      DependOnAll(x, gs);
    }

    method DependOnChoice(c: nat)
      requires c < |cfg.choices|
      modifies this`dependents
      ensures forall w, z :: w in DependentsOf(z) <==>
                w in old(DependentsOf(z)) || (w == ChoiceItem(c) && Mentions(cfg, w, z))
    {
      var ch := cfg.choices[c];
      var x := ChoiceItem(c);
      DependOnAll(x, ch.prompts);
      var conds := seq(|ch.defaults|, k requires 0 <= k < |ch.defaults| => ch.defaults[k].cond);
      DependOnAll(x, conds);
      label listed:
      for k := 0 to |ch.syms|
        invariant forall w, z :: w in DependentsOf(z) <==>
                    w in old@listed(DependentsOf(z)) || (w == x && z.SymItem? && z.sym in ch.syms[..k])
      {
        Register(x, SymItem(ch.syms[k]));
      }
      assert ch.syms[..|ch.syms|] == ch.syms;
      assert forall z :: InSome(z, conds) <==>
               exists k :: 0 <= k < |ch.defaults| && z in ExprItems(ch.defaults[k].cond) by {
        forall z, k | 0 <= k < |ch.defaults| && z in ExprItems(ch.defaults[k].cond) ensures InSome(z, conds) {
          assert z in ExprItems(conds[k]);
        }
      }
    }

    // Kconfig._build_dep followed by Kconfig._add_choice_deps
    method BuildDep()
      requires dependents == map[]
      modifies this`dependents
      ensures DependentsBuilt()
    {
      for i := 0 to |cfg.syms|
        invariant forall x, y :: x in DependentsOf(y) <==> x.SymItem? && x.sym < i && Mentions(cfg, x, y)
      {
        DependOnSymbol(i);
      }
      for c := 0 to |cfg.choices|
        invariant forall x, y :: x in DependentsOf(y) <==>
                    ((x.SymItem? && x.sym < |cfg.syms|) || (x.ChoiceItem? && x.choice < c)) && Mentions(cfg, x, y)
      {
        DependOnChoice(c);
      }
    }

    // ----- invalidation -----

    // _invalidate
    method InvalidateItem(x: Item)
      modifies this`cache
      ensures cache == map n | n in old(cache) && Owner(n) != x :: old(cache)[n]
    {
      cache := map n | n in cache && Owner(n) != x :: cache[n];
    }

    // The cached visibilities
    ghost function Flags(c: Cache): set<Node> { set n | n in c && n == VisNode(Owner(n)) }

    // _rec_invalidate
    method RecInvalidate(x: Item)
      requires DependentsBuilt()
      modifies this`cache
      ensures Cut(cfg, old(cache), cache) && Cleared(cfg, cache, x) && OnlyReached(cfg, old(cache), cache, x)
      decreases |Flags(cache)|, if VisNode(x) in cache then 0 else 1
    {
      hide Cleared, Cut, OnlyReached, Mentions, Link, Flags, Progress;
      if IsModulesItem(x) {
        cache := map[];
        AllCleared(old(cache), x);
      } else {
        InvalidateItem(x);
        Started(old(cache), x);
        var todo := DependentsOf(x);
        assert DependentsOf(x) - todo == {};
        while todo != {}
          invariant todo <= DependentsOf(x) && Progress(old(cache), cache, x, DependentsOf(x) - todo)
          decreases todo
        {
          var y :| y in todo;
          ghost var mid, done := cache, DependentsOf(x) - todo;
          if VisNode(y) in cache {
            FewerFlags(old(cache), cache, x, done);
            LinkHere(old(cache), cache, x, y, done);
            RecInvalidate(y);
            Composed(old(cache), mid, cache, x, y, done);
          } else {
            Skipped(old(cache), cache, x, y, done);
          }
          todo := todo - {y};
          assert DependentsOf(x) - todo == done + {y};
        }
        assert DependentsOf(x) - {} == DependentsOf(x);
        Finished(old(cache), x);
      }
    }

    // Where the loop of _rec_invalidate stands: the dependents in `done` have no cached visibility
    ghost predicate Progress(before: Cache, now: Cache, x: Item, done: set<Item>) {
      && Submap(now, before) && (forall n :: Owner(n) == x ==> n !in now)
      && (forall y :: y == x || Kept(before, now, y) || Cleared(cfg, now, y))
      && OnlyReached(cfg, before, now, x)
      && (forall y :: y in done ==> VisNode(y) !in now)
    }

    lemma AllCleared(before: Cache, x: Item)
      requires IsModules(cfg, x)
      ensures Cut(cfg, before, map[]) && Cleared(cfg, map[], x) && OnlyReached(cfg, before, map[], x)
    {
      LinkedSelf(cfg, before, x);
    }

    lemma Started(before: Cache, x: Item)
      ensures Progress(before, map n | n in before && Owner(n) != x :: before[n], x, {})
    {
      LinkedSelf(cfg, before, x);
    }

    lemma Skipped(before: Cache, now: Cache, x: Item, y: Item, done: set<Item>)
      requires Progress(before, now, x, done) && VisNode(y) !in now
      ensures Progress(before, now, x, done + {y})
    {}

    lemma LinkHere(before: Cache, now: Cache, x: Item, y: Item, done: set<Item>)
      requires DependentsBuilt() && Progress(before, now, x, done) && y in DependentsOf(x) && VisNode(y) in now
      ensures Link(cfg, before, y, x)
    {}

    lemma Composed(before: Cache, mid: Cache, now: Cache, x: Item, y: Item, done: set<Item>)
      requires Progress(before, mid, x, done) && Link(cfg, before, y, x)
      requires Cut(cfg, mid, now) && Cleared(cfg, now, y) && OnlyReached(cfg, mid, now, y)
      ensures Progress(before, now, x, done + {y})
    {
      hide Mentions, Link, OnlyReached;
      OnlyReachedOn(cfg, before, mid, now, y, x);
      forall z | z != x ensures Kept(before, now, z) || Cleared(cfg, now, z) {
        if Cleared(cfg, mid, z) { assert Cleared(cfg, now, z); } else { assert Kept(before, mid, z); }
      }
      assert Owner(VisNode(y)) == y;
    }

    lemma Finished(before: Cache, x: Item)
      requires DependentsBuilt() && !IsModules(cfg, x) && Progress(before, cache, x, DependentsOf(x))
      ensures Cut(cfg, before, cache) && Cleared(cfg, cache, x) && OnlyReached(cfg, before, cache, x)
    {}

    lemma FewerFlags(before: Cache, now: Cache, x: Item, done: set<Item>)
      requires Progress(before, now, x, done)
      ensures |Flags(now)| <= |Flags(before)| && (VisNode(x) in before ==> |Flags(now)| < |Flags(before)|)
    {
      assert Owner(VisNode(x)) == x;
      assert Flags(now) <= Flags(before) - {VisNode(x)};
      SubsetSize(Flags(now), Flags(before) - {VisNode(x)});
    }

    predicate IsModulesItem(x: Item) ensures IsModulesItem(x) <==> IsModules(cfg, x) {
      cfg.modules.Some? && x == SymItem(cfg.modules.value)
    }

    // ----- reading -----
    //
    // Each reader returns what recomputation gives, leaves everything it read cached, and
    // keeps what was cached.

    method OperandTri(op: Operand, ghost bound: nat) returns (v: Tri)
      requires Valid() && Below(TriOf(op, E()).seen, bound)
      modifies this`cache
      ensures Valid() && (forall m :: old(L(m)) ==> L(m))
      ensures v == TriOf(op, E()).v && Lives(TriOf(op, E()).seen)
      decreases bound, 0
    {
      if op.Literal? { v := op.tri; } else { v := SymTriValue(op.sym); }
    }

    method OperandText(op: Operand, ghost bound: nat) returns (v: string)
      requires Valid() && Below(TextOf(op, E()).seen, bound)
      modifies this`cache
      ensures Valid() && (forall m :: old(L(m)) ==> L(m))
      ensures v == TextOf(op, E()).v && Lives(TextOf(op, E()).seen)
      decreases bound, 0
    {
      if op.Literal? { v := op.text; } else { v := SymStrValue(op.sym); }
    }

    method OperandNum(op: Operand, ghost bound: nat) returns (v: Option<int>)
      requires Valid() && Below(NumOf(cfg, op, E()).seen, bound)
      modifies this`cache
      ensures Valid() && (forall m :: old(L(m)) ==> L(m))
      ensures v == NumOf(cfg, op, E()).v && Lives(NumOf(cfg, op, E()).seen)
      decreases bound, 1
    {
      if IsLogical(OperandType(cfg, op)) {
        var t := OperandTri(op, bound); v := Some(t);
      } else {
        var s := OperandText(op, bound); v := cfg.parseNum(OperandType(cfg, op), s);
      }
    }

    method CompareText(rel: Relation, a: Operand, b: Operand, ghost bound: nat) returns (v: Tri)
      requires Valid() && Below(TextOf(a, E()).seen + TextOf(b, E()).seen, bound)
      modifies this`cache
      ensures Valid() && (forall m :: old(L(m)) ==> L(m))
      ensures v == (if Holds(rel, StrCmp(TextOf(a, E()).v, TextOf(b, E()).v)) then 2 else 0)
      ensures Lives(TextOf(a, E()).seen + TextOf(b, E()).seen)
      decreases bound, 1
    {
      var x := OperandText(a, bound);
      var y := OperandText(b, bound);
      v := if Holds(rel, StrCmp(x, y)) then 2 else 0;
    }

    method CompareValue(rel: Relation, a: Operand, b: Operand, ghost bound: nat) returns (v: Tri)
      requires Valid() && Below(CompareEv(cfg, rel, a, b, E()).seen, bound)
      modifies this`cache
      ensures Valid() && (forall m :: old(L(m)) ==> L(m))
      ensures v == CompareEv(cfg, rel, a, b, E()).v && Lives(CompareEv(cfg, rel, a, b, E()).seen)
      decreases bound, 2
    {
      if OperandType(cfg, a).String? && OperandType(cfg, b).String? {
        v := CompareText(rel, a, b, bound);
        return;
      }
      var x := OperandNum(a, bound);
      if x.None? {
        v := CompareText(rel, a, b, bound);
        return;
      }
      var y := OperandNum(b, bound);
      if y.None? {
        v := CompareText(rel, a, b, bound);
      } else {
        v := if Holds(rel, x.value - y.value) then 2 else 0;
      }
    }

    // expr_value
    method ExprValue(e: Expr, ghost bound: nat) returns (v: Tri)
      requires Valid() && Below(ExprEv(cfg, e, E()).seen, bound)
      modifies this`cache
      ensures Valid() && (forall m :: old(L(m)) ==> L(m))
      ensures v == ExprEv(cfg, e, E()).v && Lives(ExprEv(cfg, e, E()).seen)
      decreases bound, 3, e
    {
      match e
      case Leaf(op) => v := OperandTri(op, bound);
      case Mode(c) => v := ChoiceTriValue(c);
      case And(l, r) =>
        v := ExprValue(l, bound);
        if v != 0 { var w := ExprValue(r, bound); v := Min(v, w); }
      case Or(l, r) =>
        v := ExprValue(l, bound);
        if v != 2 { var w := ExprValue(r, bound); v := Max(v, w); }
      case Not(f) => v := ExprValue(f, bound); v := 2 - v;
      case Compare(rel, a, b) => v := CompareValue(rel, a, b, bound);
    }

    method MaxPrompt(es: seq<Expr>, ghost bound: nat) returns (v: Tri)
      requires Valid() && Below(PromptsEv(cfg, es, 0, E()).seen, bound)
      modifies this`cache
      ensures Valid() && (forall m :: old(L(m)) ==> L(m))
      ensures v == PromptsEv(cfg, es, 0, E()).v && Lives(PromptsEv(cfg, es, 0, E()).seen)
      decreases bound, 4
    {
      v := 0;
      for k := 0 to |es|
        invariant Valid() && (forall m :: old(L(m)) ==> L(m))
        invariant PromptsEv(cfg, es, 0, E()).v == Max(v, PromptsEv(cfg, es, k, E()).v)
        invariant PromptsEv(cfg, es, k, E()).seen <= PromptsEv(cfg, es, 0, E()).seen
        invariant forall m :: m in PromptsEv(cfg, es, 0, E()).seen ==> m in PromptsEv(cfg, es, k, E()).seen || L(m)
      {
        var w := ExprValue(es[k], bound);
        v := Max(v, w);
      }
    }

    // The 'for ... if expr_value(cond): ... break' loops over defaults and ranges
    method FirstActive(es: seq<Expr>, ghost bound: nat) returns (at: nat, v: Tri)
      requires Valid() && Below(FirstEv(cfg, es, 0, E()).seen, bound)
      modifies this`cache
      ensures Valid() && (forall m :: old(L(m)) ==> L(m))
      ensures (at, v) == FirstEv(cfg, es, 0, E()).v && Lives(FirstEv(cfg, es, 0, E()).seen)
      decreases bound, 4
    {
      at := 0;
      while at < |es|
        invariant at <= |es|
        invariant Valid() && (forall m :: old(L(m)) ==> L(m))
        invariant FirstEv(cfg, es, 0, E()).v == FirstEv(cfg, es, at, E()).v
        invariant FirstEv(cfg, es, at, E()).seen <= FirstEv(cfg, es, 0, E()).seen
        invariant forall m :: m in FirstEv(cfg, es, 0, E()).seen ==> m in FirstEv(cfg, es, at, E()).seen || L(m)
      {
        v := ExprValue(es[at], bound);
        if v != 0 { return; }
        at := at + 1;
      }
      v := 0;
    }

    method ActsAsBool(typ: SymType, choice: Option<nat>, ghost bound: nat) returns (b: bool)
      requires Valid() && Below(ActsAsBoolEv(cfg, typ, choice, E()).seen, bound)
      modifies this`cache
      ensures Valid() && (forall m :: old(L(m)) ==> L(m))
      ensures b == ActsAsBoolEv(cfg, typ, choice, E()).v && Lives(ActsAsBoolEv(cfg, typ, choice, E()).seen)
      decreases bound, 4
    {
      if typ != Tristate { return typ == Bool; }
      if choice.Some? {
        var c := ExprValue(Mode(choice.value), bound);
        if c == 2 { return true; }
      }
      if cfg.modules.None? { return true; }
      var m := OperandTri(Ref(cfg.modules.value), bound);
      b := m == 0;
    }

    method Promote(vis: Tri, typ: SymType, choice: Option<nat>, ghost seen: set<Node>,
        ghost bound: nat) returns (v: Tri)
      requires Valid() && Below(PromoteEv(cfg, vis, seen, typ, choice, E()).seen, bound) && Lives(seen)
      modifies this`cache
      ensures Valid() && (forall m :: old(L(m)) ==> L(m))
      ensures v == PromoteEv(cfg, vis, seen, typ, choice, E()).v
      ensures Lives(PromoteEv(cfg, vis, seen, typ, choice, E()).seen)
      decreases bound, 5
    {
      v := vis;
      if vis == 1 {
        if typ != Tristate { return 2; }
        var b := ActsAsBool(typ, choice, bound);
        if b { v := 2; }
      }
    }

    ghost predicate StepBelow(n: Node) reads this { Below(Step(cfg, user, n, E()).seen, rank(n)) }

    // Symbol.visibility
    method SymVisibility(i: nat) returns (v: Tri)
      requires Valid()
      modifies this`cache
      ensures Valid() && (forall m :: old(L(m)) ==> L(m))
      ensures v == ToTri(E()(SymVis(i))) && L(SymVis(i))
      decreases rank(SymVis(i)), 7
    {
      EvalUnfold(cfg, user, rank, SymVis(i));
      if SymVis(i) in cache { return ToTri(cache[SymVis(i)]); }
      v := ComputeSymVis(i);
      StoreCoherent(cfg, user, rank, cache, SymVis(i), TriVal(v));
      cache := cache[SymVis(i) := TriVal(v)];
    }

    method Hidden(s: Symbol, vis: Tri, ghost bound: nat) returns (h: bool)
      requires Valid() && Below(HiddenEv(cfg, s, vis, E()).seen, bound)
      modifies this`cache
      ensures Valid() && (forall m :: old(L(m)) ==> L(m))
      ensures h == HiddenEv(cfg, s, vis, E()).v && Lives(HiddenEv(cfg, s, vis, E()).seen)
      decreases bound, 4
    {
      if s.choice.None? { return false; }
      if ChoiceOf(cfg, s.choice.value).typ == Tristate && s.typ != Tristate {
        var mode := ChoiceTriValue(s.choice.value);
        return mode != 2;
      }
      if s.typ == Tristate && vis == 1 {
        var mode := ChoiceTriValue(s.choice.value);
        return mode == 2;
      }
      return false;
    }

    // _visibility, for a symbol
    method ComputeSymVis(i: nat) returns (v: Tri)
      requires Valid()
      modifies this`cache
      ensures Valid() && (forall m :: old(L(m)) ==> L(m))
      ensures v == SymVisEv(cfg, i, E()).v && Lives(SymVisEv(cfg, i, E()).seen)
      decreases rank(SymVis(i)), 6
    {
      ghost var b := rank(SymVis(i));
      var s := SymOf(cfg, i);
      assert StepBelow(SymVis(i));
      ghost var p := PromptsEv(cfg, s.prompts, 0, E());
      ghost var h := HiddenEv(cfg, s, p.v, E());
      assert p.seen + h.seen <= SymVisEv(cfg, i, E()).seen;
      v := MaxPrompt(s.prompts, b);
      var hidden := Hidden(s, v, b);
      if hidden { return 0; }
      v := Promote(v, s.typ, s.choice, p.seen + h.seen, b);
    }

    method DefaultTri(s: Symbol, ghost bound: nat) returns (v: Tri)
      requires Valid() && Below(DefaultTriEv(cfg, s, E()).seen, bound)
      modifies this`cache
      ensures Valid() && (forall m :: old(L(m)) ==> L(m))
      ensures v == DefaultTriEv(cfg, s, E()).v && Lives(DefaultTriEv(cfg, s, E()).seen)
      decreases bound, 5
    {
      var k, c := FirstActive(Conds(s.defaults), bound);
      if k == |s.defaults| { return 0; }
      var d := ExprValue(s.defaults[k].value, bound);
      v := Min(d, c);
    }

    method Fallback(s: Symbol, ghost bound: nat) returns (v: Tri)
      requires Valid() && Below(FallbackEv(cfg, s, E()).seen, bound)
      modifies this`cache
      ensures Valid() && (forall m :: old(L(m)) ==> L(m))
      ensures v == FallbackEv(cfg, s, E()).v && Lives(FallbackEv(cfg, s, E()).seen)
      decreases bound, 6
    {
      v := DefaultTri(s, bound);
      var w := ExprValue(s.weakRevDep, bound);
      if w != 0 {
        var d := ExprValue(s.directDep, bound);
        if d != 0 { v := Max(w, v); }
      }
    }

    // The non-choice branch of Symbol.tri_value
    method PlainTri(i: nat, vis: Tri, ghost bound: nat) returns (v: Tri)
      requires Valid() && Below(PlainTriEv(cfg, user, i, E()).seen, bound) && vis == ToTri(E()(SymVis(i)))
      modifies this`cache
      ensures Valid() && (forall m :: old(L(m)) ==> L(m))
      ensures v == PlainTriEv(cfg, user, i, E()).v && Lives(PlainTriEv(cfg, user, i, E()).seen)
      decreases bound, 7
    {
      hide Valid, FallbackEv, ActsAsBoolEv, ExprEv;
      var s := SymOf(cfg, i);
      ghost var x: Ev<Tri> := if vis != 0 && UserTri(user, i).Some? then Ev(Min(UserTri(user, i).value, vis), {})
                              else FallbackEv(cfg, s, E());
      ghost var y := SelectedEv(cfg, s, x, E());
      assert x.seen <= y.seen <= PlainTriEv(cfg, user, i, E()).seen;
      if vis != 0 && UserTri(user, i).Some? {
        v := Min(UserTri(user, i).value, vis);
      } else {
        v := Fallback(s, bound);
      }
      var r := ExprValue(s.revDep, bound);
      if r != 0 {
        var d := ExprValue(s.directDep, bound);
        v := Max(r, v);
      }
      assert v == y.v && Lives(y.seen);
      if v == 1 {
        var b := ActsAsBool(s.typ, s.choice, bound);
        if b { return 2; }
        var w := ExprValue(s.weakRevDep, bound);
        if w == 2 { v := 2; }
      }
    }

    // Symbol.tri_value
    method SymTriValue(i: nat) returns (v: Tri)
      requires Valid()
      modifies this`cache
      ensures Valid() && (forall m :: old(L(m)) ==> L(m))
      ensures v == ToTri(E()(SymTri(i))) && L(SymTri(i))
      decreases rank(SymTri(i)), 10
    {
      EvalUnfold(cfg, user, rank, SymTri(i));
      if SymTri(i) in cache { return ToTri(cache[SymTri(i)]); }
      v := ComputeSymTri(i);
      StoreCoherent(cfg, user, rank, cache, SymTri(i), TriVal(v));
      cache := cache[SymTri(i) := TriVal(v)];
    }

    method ComputeSymTri(i: nat) returns (v: Tri)
      requires Valid()
      modifies this`cache
      ensures Valid() && (forall m :: old(L(m)) ==> L(m))
      ensures v == SymTriEv(cfg, user, i, E()).v && Lives(SymTriEv(cfg, user, i, E()).seen)
      ensures SymTriEv(cfg, user, i, E()).seen == {} || SymVis(i) in cache
      decreases rank(SymTri(i)), 9
    {
      hide MembersOk, UserOk, DependentsBuilt, Coherent, Acyclic, PlainTriEv;
      BelowHere(SymTri(i));
      var s := SymOf(cfg, i);
      v := 0;
      if IsLogical(s.typ) {
        assert SymVis(i) in SymTriEv(cfg, user, i, E()).seen;
        var vis := SymVisibility(i);
        if s.choice.None? {
          v := PlainTri(i, vis, rank(SymTri(i)));
        } else if vis == 2 {
          assert ChoiceSel(s.choice.value) in SymTriEv(cfg, user, i, E()).seen;
          var sel := ChoiceSelection(s.choice.value);
          v := if sel == Some(i) then 2 else 0;
        } else if vis != 0 && UserTri(user, i).Some? && UserTri(user, i).value != 0 {
          v := 1;
        }
      }
    }

    lemma BelowHere(n: Node)
      requires Valid()
      ensures StepBelow(n)
    {}

    method DefaultText(s: Symbol, ghost bound: nat) returns (v: Option<string>)
      requires Valid() && Below(DefaultTextEv(cfg, s, E()).seen, bound)
      modifies this`cache
      ensures Valid() && (forall m :: old(L(m)) ==> L(m))
      ensures v == DefaultTextEv(cfg, s, E()).v && Lives(DefaultTextEv(cfg, s, E()).seen)
      decreases bound, 5
    {
      var k, c := FirstActive(Conds(s.defaults), bound);
      if k == |s.defaults| { return None; }
      if s.defaults[k].value.Leaf? {
        var t := OperandText(s.defaults[k].value.op, bound);
        v := Some(t);
      } else {
        v := Some("");
      }
    }

    method ActiveRange(s: Symbol, ghost bound: nat) returns (v: Option<(string, string)>)
      requires Valid() && Below(RangeEv(cfg, s, E()).seen, bound)
      modifies this`cache
      ensures Valid() && (forall m :: old(L(m)) ==> L(m))
      ensures v == RangeEv(cfg, s, E()).v && Lives(RangeEv(cfg, s, E()).seen)
      decreases bound, 5
    {
      var k, c := FirstActive(RangeConds(s.ranges), bound);
      if k == |s.ranges| { return None; }
      var low := OperandText(s.ranges[k].low, bound);
      var high := OperandText(s.ranges[k].high, bound);
      v := Some((low, high));
    }

    method NumText(i: nat, vis: Tri, ghost bound: nat) returns (v: string)
      requires Valid() && Below(NumTextEv(cfg, user, i, E()).seen, bound) && vis == ToTri(E()(SymVis(i)))
      modifies this`cache
      ensures Valid() && (forall m :: old(L(m)) ==> L(m))
      ensures v == NumTextEv(cfg, user, i, E()).v && Lives(NumTextEv(cfg, user, i, E()).seen)
      decreases bound, 6
    {
      var s := SymOf(cfg, i);
      assert RangeEv(cfg, s, E()).seen <= NumTextEv(cfg, user, i, E()).seen;
      var r := ActiveRange(s, bound);
      if vis != 0 && UserText(user, i).Some? && Accepts(cfg, s.typ, UserText(user, i).value, r) {
        return UserText(user, i).value;
      }
      var d := DefaultText(s, bound);
      v := Clamp(cfg, s.typ, d, r);
    }

    // Symbol.str_value
    method SymStrValue(i: nat) returns (v: string)
      requires Valid()
      modifies this`cache
      ensures Valid() && (forall m :: old(L(m)) ==> L(m))
      ensures v == ToText(E()(SymStr(i))) && L(SymStr(i))
      decreases rank(SymStr(i)), 9
    {
      EvalUnfold(cfg, user, rank, SymStr(i));
      if SymStr(i) in cache { return ToText(cache[SymStr(i)]); }
      v := ComputeSymStr(i);
      StoreCoherent(cfg, user, rank, cache, SymStr(i), TextVal(v));
      cache := cache[SymStr(i) := TextVal(v)];
    }

    method ComputeSymStr(i: nat) returns (v: string)
      requires Valid()
      modifies this`cache
      ensures Valid() && (forall m :: old(L(m)) ==> L(m))
      ensures v == SymStrEv(cfg, user, i, E()).v && Lives(SymStrEv(cfg, user, i, E()).seen)
      ensures SymStrEv(cfg, user, i, E()).seen == {} || SymVis(i) in cache
      decreases rank(SymStr(i)), 8
    {
      assert StepBelow(SymStr(i));
      var s := SymOf(cfg, i);
      if IsLogical(s.typ) {
        assert SymTri(i) in SymStrEv(cfg, user, i, E()).seen;
        var t := SymTriValue(i);
        return TriText(t);
      }
      if s.typ.Unknown? { return s.name; }
      assert SymVis(i) in SymStrEv(cfg, user, i, E()).seen;
      var vis := SymVisibility(i);
      if s.typ.String? {
        assert StringTextEv(cfg, user, i, E()).seen <= SymStrEv(cfg, user, i, E()).seen;
        if vis != 0 && UserText(user, i).Some? { return UserText(user, i).value; }
        var d := DefaultText(s, rank(SymStr(i)));
        v := if d.Some? then d.value else "";
      } else {
        assert NumTextEv(cfg, user, i, E()).seen <= SymStrEv(cfg, user, i, E()).seen;
        v := NumText(i, vis, rank(SymStr(i)));
      }
    }

    // Choice.visibility
    method ChoiceVisibility(c: nat) returns (v: Tri)
      requires Valid()
      modifies this`cache
      ensures Valid() && (forall m :: old(L(m)) ==> L(m))
      ensures v == ToTri(E()(ChoiceVis(c))) && L(ChoiceVis(c))
      decreases rank(ChoiceVis(c)), 7
    {
      EvalUnfold(cfg, user, rank, ChoiceVis(c));
      if ChoiceVis(c) in cache { return ToTri(cache[ChoiceVis(c)]); }
      assert StepBelow(ChoiceVis(c));
      var ch := ChoiceOf(cfg, c);
      ghost var seen := PromptsEv(cfg, ch.prompts, 0, E()).seen;
      assert seen <= ChoiceVisEv(cfg, c, E()).seen;
      v := MaxPrompt(ch.prompts, rank(ChoiceVis(c)));
      v := Promote(v, ch.typ, None, seen, rank(ChoiceVis(c)));
      StoreCoherent(cfg, user, rank, cache, ChoiceVis(c), TriVal(v));
      cache := cache[ChoiceVis(c) := TriVal(v)];
    }

    // Choice.tri_value
    method ChoiceTriValue(c: nat) returns (v: Tri)
      requires Valid()
      modifies this`cache
      ensures Valid() && (forall m :: old(L(m)) ==> L(m))
      ensures v == ToTri(E()(ChoiceTri(c))) && L(ChoiceTri(c))
      decreases rank(ChoiceTri(c)), 7
    {
      EvalUnfold(cfg, user, rank, ChoiceTri(c));
      assert StepBelow(ChoiceTri(c));
      var ch := ChoiceOf(cfg, c);
      v := if ch.optional then 0 else 1;
      if c < |user.mode| && user.mode[c].Some? { v := Max(v, user.mode[c].value); }
      assert ChoiceVis(c) in ChoiceTriEv(cfg, user, c, E()).seen;
      var vis := ChoiceVisibility(c);
      v := Min(v, vis);
      if v == 1 {
        var b := ActsAsBool(ch.typ, None, rank(ChoiceTri(c)));
        if b { v := 2; }
      }
      ModeReadsStored(c);
    }

    lemma ModeReadsStored(c: nat)
      requires Valid() && Lives(ChoiceTriEv(cfg, user, c, E()).seen)
      ensures L(ChoiceTri(c))
    {
      TypeSeen(cfg, ChoiceOf(cfg, c).typ, None, E());
      forall k | k in Step(cfg, user, ChoiceTri(c), E()).seen ensures k in cache {
        assert L(k) && !k.ChoiceTri?;
      }
    }

    // Choice._selection_from_defaults
    method DefaultSelection(c: nat, ghost bound: nat) returns (v: Option<nat>)
      requires Valid() && Below(DefaultSelEv(cfg, c, E()).seen, bound)
      modifies this`cache
      ensures Valid() && (forall m :: old(L(m)) ==> L(m))
      ensures v == DefaultSelEv(cfg, c, E()).v && Lives(DefaultSelEv(cfg, c, E()).seen)
      decreases bound, 6
    {
      var ch := ChoiceOf(cfg, c);
      v := FirstDefaultSym(ch.defaults, bound);
      if v.None? { v := FirstVisible(ch.syms, bound); }
    }

    method FirstDefaultSym(ds: seq<ChoiceDefault>, ghost bound: nat) returns (v: Option<nat>)
      requires Valid() && Below(FirstDefaultSymEv(cfg, ds, 0, E()).seen, bound)
      modifies this`cache
      ensures Valid() && (forall m :: old(L(m)) ==> L(m))
      ensures v == FirstDefaultSymEv(cfg, ds, 0, E()).v && Lives(FirstDefaultSymEv(cfg, ds, 0, E()).seen)
      decreases bound, 5
    {
      hide Valid, ExprEv;
      for k := 0 to |ds|
        invariant Valid() && (forall m :: old(L(m)) ==> L(m))
        invariant FirstDefaultSymEv(cfg, ds, 0, E()).v == FirstDefaultSymEv(cfg, ds, k, E()).v
        invariant FirstDefaultSymEv(cfg, ds, k, E()).seen <= FirstDefaultSymEv(cfg, ds, 0, E()).seen
        invariant forall m :: m in FirstDefaultSymEv(cfg, ds, 0, E()).seen ==>
                    m in FirstDefaultSymEv(cfg, ds, k, E()).seen || L(m)
      {
        var x := ExprValue(ds[k].cond, bound);
        if x != 0 {
          assert SymVis(ds[k].sym) in FirstDefaultSymEv(cfg, ds, k, E()).seen;
          var vis := SymVisibility(ds[k].sym);
          if vis != 0 { return Some(ds[k].sym); }
        }
      }
      v := None;
    }

    method FirstVisible(ss: seq<nat>, ghost bound: nat) returns (v: Option<nat>)
      requires Valid() && Below(FirstVisibleEv(ss, 0, E()).seen, bound)
      modifies this`cache
      ensures Valid() && (forall m :: old(L(m)) ==> L(m))
      ensures v == FirstVisibleEv(ss, 0, E()).v && Lives(FirstVisibleEv(ss, 0, E()).seen)
      decreases bound, 5
    {
      for k := 0 to |ss|
        invariant Valid() && (forall m :: old(L(m)) ==> L(m))
        invariant FirstVisibleEv(ss, 0, E()).v == FirstVisibleEv(ss, k, E()).v
        invariant FirstVisibleEv(ss, k, E()).seen <= FirstVisibleEv(ss, 0, E()).seen
        invariant forall m :: m in FirstVisibleEv(ss, 0, E()).seen ==> m in FirstVisibleEv(ss, k, E()).seen || L(m)
      {
        assert SymVis(ss[k]) in FirstVisibleEv(ss, k, E()).seen;
        var vis := SymVisibility(ss[k]);
        if vis != 0 { return Some(ss[k]); }
      }
      v := None;
    }

    // Choice.selection
    method ChoiceSelection(c: nat) returns (v: Option<nat>)
      requires Valid()
      modifies this`cache
      ensures Valid() && (forall m :: old(L(m)) ==> L(m))
      ensures v == ToSel(E()(ChoiceSel(c))) && L(ChoiceSel(c))
      decreases rank(ChoiceSel(c)), 8
    {
      hide MembersOk, UserOk, Acyclic, Coherent, ChoiceSelEv;
      EvalUnfold(cfg, user, rank, ChoiceSel(c));
      CachedIs(ChoiceSel(c));
      if ChoiceSel(c) in cache { return ToSel(cache[ChoiceSel(c)]); }
      v := ComputeSelection(c);
      EvalUnfold(cfg, user, rank, ChoiceSel(c));
      assert E()(ChoiceSel(c)) == SelVal(v);
      StoreCoherent(cfg, user, rank, cache, ChoiceSel(c), SelVal(v));
      cache := cache[ChoiceSel(c) := SelVal(v)];
    }

    lemma CachedIs(n: Node)
      requires Valid()
      ensures n in cache ==> L(n) && cache[n] == E()(n)
    {}

    // Choice._selection
    method ComputeSelection(c: nat) returns (v: Option<nat>)
      requires Valid()
      modifies this`cache
      ensures Valid() && (forall m :: old(L(m)) ==> L(m))
      ensures v == ChoiceSelEv(cfg, user, c, E()).v && Lives(ChoiceSelEv(cfg, user, c, E()).seen)
      ensures ChoiceVis(c) in cache
      decreases rank(ChoiceSel(c)), 7
    {
      hide MembersOk, UserOk, DependentsBuilt, Coherent, Acyclic, DefaultSelEv;
      BelowHere(ChoiceSel(c));
      assert ChoiceTri(c) in ChoiceSelEv(cfg, user, c, E()).seen;
      var t := ChoiceTriValue(c);
      assert ChoiceVis(c) in Step(cfg, user, ChoiceTri(c), E()).seen;
      assert ChoiceVis(c) in cache;
      if t != 2 { return None; }
      if c < |user.pick| && user.pick[c].Some? {
        assert SymVis(user.pick[c].value) in ChoiceSelEv(cfg, user, c, E()).seen;
        var vis := SymVisibility(user.pick[c].value);
        if vis != 0 { return user.pick[c]; }
      }
      assert DefaultSelEv(cfg, c, E()).seen <= ChoiceSelEv(cfg, user, c, E()).seen;
      v := DefaultSelection(c, rank(ChoiceSel(c)));
    }

    // ----- what can be assigned -----

    // Some bound is above the ranks of a set.
    lemma {:induction false} BoundOf(s: set<Node>) returns (bound: nat)
      ensures Below(s, bound)
      decreases |s|
    {
      bound := 0;
      if s != {} {
        var m :| m in s;
        bound := BoundOf(s - {m});
        if bound <= rank(m) { bound := rank(m) + 1; }
      }
    }

    method TopValue(e: Expr) returns (v: Tri)
      requires Valid()
      modifies this`cache
      ensures Valid() && (forall m :: old(L(m)) ==> L(m)) && v == ExprEv(cfg, e, E()).v
    {
      ghost var bound := BoundOf(ExprEv(cfg, e, E()).seen);
      v := ExprValue(e, bound);
    }

    method TypeIsBool(typ: SymType, choice: Option<nat>) returns (b: bool)
      requires Valid()
      modifies this`cache
      ensures Valid() && (forall m :: old(L(m)) ==> L(m)) && b == ActsAsBoolEv(cfg, typ, choice, E()).v
    {
      ghost var bound := BoundOf(ActsAsBoolEv(cfg, typ, choice, E()).seen);
      b := ActsAsBool(typ, choice, bound);
    }

    // Symbol._assignable
    method AssignableOf(i: nat) returns (r: set<Tri>)
      requires Valid()
      modifies this`cache
      ensures Valid() && (forall m :: old(L(m)) ==> L(m)) && r == SymAssignable(cfg, i, E())
    {
      hide Valid, ExprEv, ActsAsBoolEv;
      var s := SymOf(cfg, i);
      if !IsLogical(s.typ) { return {}; }
      var vis := SymVisibility(i);
      if vis == 0 { return {}; }
      var rev := TopValue(s.revDep);
      if vis == 2 {
        if s.choice.Some? || rev == 2 { return {2}; }
        var noM := TypeIsBool(s.typ, s.choice);
        if !noM {
          var weak := TopValue(s.weakRevDep);
          noM := weak == 2;
        }
        if rev == 0 { return if noM then {0, 2} else {0, 1, 2}; }
        return if noM then {2} else {1, 2};
      }
      if rev == 0 {
        var weak := TopValue(s.weakRevDep);
        return if weak != 2 then {0, 1} else {0, 2};
      }
      r := if rev == 2 then {2} else {1};
    }

    // Choice._assignable
    method ModesOf(c: nat) returns (r: set<Tri>)
      requires Valid()
      modifies this`cache
      ensures Valid() && (forall m :: old(L(m)) ==> L(m)) && r == ChoiceAssignable(cfg, c, E())
    {
      hide Valid, ExprEv, ActsAsBoolEv;
      var ch := ChoiceOf(cfg, c);
      var vis := ChoiceVisibility(c);
      if vis == 0 { return {}; }
      if vis == 1 { return if ch.optional then {0, 1} else {1}; }
      var noM := TypeIsBool(ch.typ, None);
      if !ch.optional { return if noM then {2} else {1, 2}; }
      r := if noM then {0, 2} else {0, 1, 2};
    }

    // ----- user changes -----

    predicate ValidFor(typ: SymType, value: UserValue) {
      match value
      case Unset => false
      case SetTri(t) => typ == Tristate || (typ == Bool && t != 1)
      case SetText(s) =>
        typ == String || (typ == Int && cfg.parseNum(Int, s).Some?) ||
        (typ == Hex && cfg.parseNum(Hex, s).Some? && cfg.parseNum(Hex, s).value >= 0)
    }

    // _rec_invalidate_if_has_prompt
    method RecInvalidateIfHasPrompt(i: nat)
      requires DependentsBuilt()
      modifies this`cache
      ensures Cut(cfg, old(cache), cache) && OnlyReached(cfg, old(cache), cache, SymItem(i))
      ensures Cleared(cfg, cache, SymItem(i)) || SymOf(cfg, i).prompts == []
    {
      if SymOf(cfg, i).prompts != [] { RecInvalidate(SymItem(i)); }
    }

    // The item whose cached values a new value of symbol i concerns
    function Changed(i: nat, value: UserValue): Item {
      if SymOf(cfg, i).choice.Some? && value == SetTri(2) then ChoiceItem(SymOf(cfg, i).choice.value) else SymItem(i)
    }

    // Symbol.set_value
    method SetSymValue(i: nat, value: UserValue) returns (ok: bool)
      requires Valid() && i < |cfg.syms|
      modifies this`user, this`cache
      ensures old(Ready()) ==> Valid()
      ensures Submap(cache, old(cache)) && OnlyReached(cfg, old(cache), cache, Changed(i, value))
      ensures ok <==> ValidFor(cfg.syms[i].typ, value) || (old(user).sym[i] == value && cfg.syms[i].choice.None?)
      ensures !ok ==> user == old(user)
      ensures ok ==> user.sym == old(user).sym[i := value] && user.mode == old(user).mode
      ensures ok && SymOf(cfg, i).choice.Some? && value == SetTri(2) ==>
                user.pick == old(user).pick[SymOf(cfg, i).choice.value := Some(i)]
      ensures ok && !(SymOf(cfg, i).choice.Some? && value == SetTri(2)) ==> user.pick == old(user).pick
    {
      var s := cfg.syms[i];
      assert SymOf(cfg, i) == s;
      if user.sym[i] == value && s.choice.None? { return true; }
      if !ValidFor(s.typ, value) { return false; }
      ghost var u := user;
      user := user.(sym := user.sym[i := value]);
      if s.choice.Some? && value == SetTri(2) {
        var c := s.choice.value;
        user := user.(pick := user.pick[c := Some(i)]);
        RecInvalidate(ChoiceItem(c));
        if old(Ready()) { ChoiceChangeSound(cfg, u, user, rank, old(cache), cache, c); }
      } else {
        RecInvalidateIfHasPrompt(i);
        if old(Ready()) { SymbolChangeSound(cfg, u, user, rank, old(cache), cache, i); }
      }
      ok := true;
    }

    // Symbol.unset_value
    method UnsetSymValue(i: nat)
      requires Valid() && i < |cfg.syms|
      modifies this`user, this`cache
      ensures (old(Ready()) ==> Valid()) && user == old(user).(sym := old(user).sym[i := Unset])
    {
      if user.sym[i] != Unset {
        ghost var u := user;
        user := user.(sym := user.sym[i := Unset]);
        RecInvalidateIfHasPrompt(i);
        if old(Ready()) { SymbolChangeSound(cfg, u, user, rank, old(cache), cache, i); }
      }
    }

    // Choice.set_value
    method SetChoiceValue(c: nat, t: Tri) returns (ok: bool)
      requires Valid() && c < |cfg.choices|
      modifies this`user, this`cache
      ensures old(Ready()) ==> Valid()
      ensures ok <==> ValidFor(cfg.choices[c].typ, SetTri(t)) || old(user).mode[c] == Some(t)
      ensures user == if ok then old(user).(mode := old(user).mode[c := Some(t)]) else old(user)
    {
      if user.mode[c] == Some(t) { return true; }
      if !ValidFor(cfg.choices[c].typ, SetTri(t)) { return false; }
      ghost var u := user;
      user := user.(mode := user.mode[c := Some(t)]);
      RecInvalidate(ChoiceItem(c));
      if old(Ready()) { ChoiceChangeSound(cfg, u, user, rank, old(cache), cache, c); }
      ok := true;
    }

    // Choice.unset_value
    method UnsetChoiceValue(c: nat)
      requires Valid() && c < |cfg.choices|
      modifies this`user, this`cache
      ensures old(Ready()) ==> Valid()
      ensures user == old(user).(mode := old(user).mode[c := None], pick := old(user).pick[c := None])
    {
      if user.mode[c].Some? || user.pick[c].Some? {
        ghost var u := user;
        user := user.(mode := user.mode[c := None], pick := user.pick[c := None]);
        RecInvalidate(ChoiceItem(c));
        if old(Ready()) { ChoiceChangeSound(cfg, u, user, rank, old(cache), cache, c); }
      }
    }
  }
}

// What it means for evaluation that a configuration has passed the loop check: which reads the check
// does not see, and when evaluation still ends.
module KconfigLoops {
  import opened Options
  import opened KconfigModel
  import opened KconfigCoherence
  import opened KconfigReads
  import opened KconfigOrder
  import opened LoopCheck
  import opened LoopOrder

  // ----- Reads the check does not see -----

  // The mode of choice c is read from outside it, by an item in whose properties no symbol of c is
  // written: the dependents of choices are not searched. A menu in a choice can do that.
  ghost predicate Outside(cfg: Config, x: Item, c: nat) {
    && x != ChoiceItem(c) && !(x.SymItem? && SymOf(cfg, x.sym).choice == Some(c))
    && forall y | y in ChoiceOf(cfg, c).syms :: !Written(cfg, x, SymItem(y))
  }

  ghost predicate Stray(cfg: Config, n: Node, m: Node) {
    // a tristate item looks at MODULES
    || (ForType(cfg, Owner(n), m) && !Written(cfg, Owner(n), Owner(m)))
    || (m.ChoiceTri? && Outside(cfg, Owner(n), m.c))
    // the prompt of a choice asks for its own mode
    || (n.ChoiceVis? && m == ChoiceTri(n.c))
    // a default symbol that is not in the choice
    || (ReadsDefault(cfg, n, m) && m.i !in ChoiceOf(cfg, n.c).syms && !Written(cfg, Owner(n), Owner(m)))
  }

  lemma WrittenReadLower(cfg: Config, g: Graph, done: seq<Item>, n: Node, m: Node)
    requires Sorted(cfg, g, done) && Written(cfg, Owner(n), Owner(m)) && (m.ChoiceTri? || Owner(m).SymItem?)
    requires !n.ChoiceTri?
    ensures BaseRank(g, done, m) < BaseRank(g, done, n) || Stray(cfg, n, m)
  {
    hide Written, Sorted;
    match Owner(m)
    case SymItem(y) => WrittenLower(cfg, g, done, Owner(n), y);
    case ChoiceItem(c) =>
      if Owner(n) != ChoiceItem(c) {
        if Owner(n).SymItem? && SymOf(cfg, Owner(n).sym).choice == Some(c) {
          InChoiceLevel(cfg, g, done, Owner(n).sym, c);
        } else if !Outside(cfg, Owner(n), c) {
          var y :| y in ChoiceOf(cfg, c).syms && Written(cfg, Owner(n), SymItem(y));
          WrittenLower(cfg, g, done, Owner(n), y);
          SameLevel(cfg, g, done, c, y);
        }
      }
  }

  lemma InChoiceLevel(cfg: Config, g: Graph, done: seq<Item>, i: nat, c: nat)
    requires Sorted(cfg, g, done) && SymOf(cfg, i).choice == Some(c)
    ensures Level(g, done, SymItem(i)) == Level(g, done, ChoiceItem(c))
  {
    SameLevel(cfg, g, done, c, i);
  }

  lemma TextLower(cfg: Config, g: Graph, done: seq<Item>, n: Node, m: Node)
    requires Sorted(cfg, g, done) && Reads(cfg, Owner(n), m) && !n.ChoiceTri?
    ensures BaseRank(g, done, m) < BaseRank(g, done, n) || Stray(cfg, n, m)
  {
    hide Written, Sorted, BaseRank;
    if Written(cfg, Owner(n), Owner(m)) { WrittenReadLower(cfg, g, done, n, m); }
  }

  // In the order of the check every read goes down, except for those the check does not see.
  lemma StepReadsLower(cfg: Config, g: Graph, done: seq<Item>, u: User, n: Node, env: Env, m: Node)
    requires Sorted(cfg, g, done) && UserOk(cfg, u) && m in Step(cfg, u, n, env).seen
    ensures BaseRank(g, done, m) < BaseRank(g, done, n) || Stray(cfg, n, m)
  {
    if n.ChoiceVis? || n.ChoiceTri? || n.ChoiceSel? { ChoiceReadsLower(cfg, g, done, u, n, env, m); }
    else { SymReadsLower(cfg, g, done, u, n, env, m); }
  }

  lemma SymReadsLower(cfg: Config, g: Graph, done: seq<Item>, u: User, n: Node, env: Env, m: Node)
    requires Sorted(cfg, g, done) && m in Step(cfg, u, n, env).seen && (n.SymVis? || n.SymTri? || n.SymStr?)
    ensures BaseRank(g, done, m) < BaseRank(g, done, n) || Stray(cfg, n, m)
  {
    hide Step, Stray, Reads, Level;
    VisReads(cfg, u, n.i, env);
    TriReads(cfg, u, n.i, env);
    StrReads(cfg, u, n.i, env);
    if Reads(cfg, Owner(n), m) { TextLower(cfg, g, done, n, m); }
    else if SymOf(cfg, n.i).choice.Some? { InChoiceLevel(cfg, g, done, n.i, SymOf(cfg, n.i).choice.value); }
  }

  lemma ChoiceReadsLower(cfg: Config, g: Graph, done: seq<Item>, u: User, n: Node, env: Env, m: Node)
    requires Sorted(cfg, g, done) && UserOk(cfg, u) && m in Step(cfg, u, n, env).seen
    requires n.ChoiceVis? || n.ChoiceTri? || n.ChoiceSel?
    ensures BaseRank(g, done, m) < BaseRank(g, done, n) || Stray(cfg, n, m)
  {
    hide Step, Level, Written;
    match n
    case ChoiceVis(c) =>
      ChoiceVisReads(cfg, u, c, env);
      TextLower(cfg, g, done, n, m);
    case ChoiceTri(c) =>
      ChoiceTriReads(cfg, u, c, env);
      if m != ChoiceVis(c) { TypeReadLower(cfg, g, done, n, m); }
    case ChoiceSel(c) =>
      SelReads(cfg, u, c, env);
      if Reads(cfg, Owner(n), m) { TextLower(cfg, g, done, n, m); }
      else if SymOfChoice(cfg, c, m) { SameLevel(cfg, g, done, c, m.i); }
      else if Written(cfg, Owner(n), Owner(m)) { WrittenReadLower(cfg, g, done, n, m); }
  }

  lemma TypeReadLower(cfg: Config, g: Graph, done: seq<Item>, n: Node, m: Node)
    requires Sorted(cfg, g, done) && ForType(cfg, Owner(n), m)
    ensures BaseRank(g, done, m) < BaseRank(g, done, n) || Stray(cfg, n, m)
  {
    hide Written, Sorted;
    if Written(cfg, Owner(n), Owner(m)) { WrittenLower(cfg, g, done, Owner(n), Owner(m).sym); }
  }

  // ----- When an order of evaluation exists -----

  // What is read by a read that the check does not see may need the reader.
  ghost predicate StrayLoop(cfg: Config, n: Node, m: Node) {
    MayRead(cfg, n, m) && Stray(cfg, n, m) && Needs(cfg, m, n)
  }

  lemma LowerOrStray(cfg: Config, g: Graph, done: seq<Item>, n: Node, m: Node)
    requires Sorted(cfg, g, done) && MayRead(cfg, n, m)
    ensures BaseRank(g, done, m) < BaseRank(g, done, n) || Stray(cfg, n, m)
  {
    hide Step, Stray, BaseRank, Sorted;
    var u, env: Env :| UserOk(cfg, u) && m in Step(cfg, u, n, env).seen;
    StepReadsLower(cfg, g, done, u, n, env, m);
  }

  // A path of reads goes down, or takes a read the check does not see.
  lemma {:induction false} PathLowerOrStray(cfg: Config, g: Graph, done: seq<Item>, path: seq<Node>)
    returns (n: Node, m: Node)
    requires Sorted(cfg, g, done) && ReadPath(cfg, path)
    ensures
      || BaseRank(g, done, path[|path| - 1]) + |path| <= BaseRank(g, done, path[0]) + 1
      || (MayRead(cfg, n, m) && Stray(cfg, n, m) && Needs(cfg, path[0], n) && Needs(cfg, m, path[|path| - 1]))
  {
    hide MayRead, Stray, BaseRank, Sorted;
    n, m := path[0], path[0];
    if |path| > 1 {
      var front, last := path[..|path| - 1], path[|path| - 1];
      var prev := front[|front| - 1];
      n, m := PathLowerOrStray(cfg, g, done, front);
      LowerOrStray(cfg, g, done, prev, last);
      NeedsRead(cfg, prev, last);
      if MayRead(cfg, n, m) && Stray(cfg, n, m) && Needs(cfg, path[0], n) && Needs(cfg, m, prev) {
        NeedsOn(cfg, m, prev, last);
      } else if Stray(cfg, prev, last) {
        n, m := prev, last;
        assert PathFrom(cfg, front, path[0], prev);
        NeedsSelf(cfg, last);
      }
    }
  }

  // For a configuration that passes the loop check, an order of evaluation exists exactly if no
  // read that the check does not see may lead back to its reader.
  lemma EvaluationOrder(cfg: Config, g: Graph, done: seq<Item>)
    requires Sorted(cfg, g, done)
    ensures Ranked(cfg) <==> !exists n, m :: StrayLoop(cfg, n, m)
  {
    hide MayRead, Stray, Sorted, Ranked, Needs;
    RankedExact(cfg);
    if n, m :| StrayLoop(cfg, n, m) { assert NeedsItself(cfg, n); }
    if o :| NeedsItself(cfg, o) {
      var n, m := SelfNeedIsStray(cfg, g, done, o);
    }
  }

  lemma SelfNeedIsStray(cfg: Config, g: Graph, done: seq<Item>, o: Node) returns (n: Node, m: Node)
    requires Sorted(cfg, g, done) && NeedsItself(cfg, o)
    ensures StrayLoop(cfg, n, m)
  {
    hide MayRead, Stray, Sorted, BaseRank;
    var r :| MayRead(cfg, o, r) && Needs(cfg, r, o);
    var back :| PathFrom(cfg, back, r, o);
    var path := [o] + back;
    forall k | 0 < k < |path| ensures MayRead(cfg, path[k - 1], path[k]) {
      if k > 1 { assert MayRead(cfg, back[k - 2], back[k - 1]); }
    }
    n, m := PathLowerOrStray(cfg, g, done, path);
    NeedsOn(cfg, m, o, n);
  }

  // The only read the check does not see is that of MODULES for a type.
  ghost predicate OnlyModules(cfg: Config) {
    forall n, m | MayRead(cfg, n, m) && Stray(cfg, n, m) :: Unrecorded(cfg, m)
  }

  ghost predicate Unrecorded(cfg: Config, m: Node) { cfg.modules.Some? && m == SymTri(cfg.modules.value) }

  lemma StepLowerOrModules(cfg: Config, g: Graph, done: seq<Item>, u: User, n: Node, env: Env, m: Node)
    requires Sorted(cfg, g, done) && OnlyModules(cfg) && UserOk(cfg, u) && m in Step(cfg, u, n, env).seen
    ensures BaseRank(g, done, m) < BaseRank(g, done, n) || Unrecorded(cfg, m)
  {
    hide Step, Stray, BaseRank, Sorted;
    assert MayRead(cfg, n, m);
    StepReadsLower(cfg, g, done, u, n, env, m);
  }

  // A sign of an order that can be read off the configuration: `cone` holds MODULES, whatever its
  // members mention and the default symbols of its choices, and nothing tristate.
  ghost predicate ModulesApart(cfg: Config, cone: set<Item>) {
    && (cfg.modules.Some? ==> InCone(cfg, cone, SymItem(cfg.modules.value)))
    && (forall x, y | x in cone && Mentions(cfg, x, y) :: InCone(cfg, cone, y))
    && (forall c, k | ChoiceItem(c) in cone && 0 <= k < |ChoiceOf(cfg, c).defaults| ::
         InCone(cfg, cone, SymItem(ChoiceOf(cfg, c).defaults[k].sym)))
    && forall x | x in cone :: TypeOf(cfg, x) != Tristate
  }

  ghost predicate InCone(cfg: Config, cone: set<Item>, x: Item) { x in cone || !Defined(cfg, x) }

  lemma ConeRead(cfg: Config, cone: set<Item>, n: Node, m: Node)
    requires MembersOk(cfg) && ModulesApart(cfg, cone) && MayRead(cfg, n, m) && InCone(cfg, cone, Owner(n))
    ensures InCone(cfg, cone, Owner(m))
  {
    hide Step, MembersOk, Mentions;
    var u, env: Env :| UserOk(cfg, u) && m in Step(cfg, u, n, env).seen;
    if Owner(n) in cone {
      StepTracked(cfg, u, n, env);
    } else {
      UndefinedReads(cfg, u, n, env, m);
    }
  }

  lemma {:induction false} ConePath(cfg: Config, cone: set<Item>, path: seq<Node>)
    requires MembersOk(cfg) && ModulesApart(cfg, cone) && ReadPath(cfg, path) && InCone(cfg, cone, Owner(path[0]))
    ensures InCone(cfg, cone, Owner(path[|path| - 1]))
  {
    hide MembersOk, MayRead, ModulesApart, InCone;
    if |path| > 1 {
      ConePath(cfg, cone, path[..|path| - 1]);
      ConeRead(cfg, cone, path[|path| - 2], path[|path| - 1]);
    }
  }

  lemma ApartIsRanked(cfg: Config, g: Graph, done: seq<Item>, cone: set<Item>)
    requires Sorted(cfg, g, done) && OnlyModules(cfg) && ModulesApart(cfg, cone)
    ensures Ranked(cfg)
  {
    hide Ranked, MayRead, Written;
    EvaluationOrder(cfg, g, done);
    if n, m :| StrayLoop(cfg, n, m) {
      var path :| PathFrom(cfg, path, m, n);
      ConePath(cfg, cone, path);
    }
  }

  // ----- When evaluation ends -----

  // The value of a property, if the recursion that computes it is no deeper than `depth`
  ghost function Run(cfg: Config, u: User, depth: nat, n: Node): Option<Value>
    decreases depth, 0
  {
    if depth == 0 then None
    else
      var x := Step(cfg, u, n, Computed(cfg, u, depth - 1));
      if forall m | m in x.seen :: Run(cfg, u, depth - 1, m).Some? then Some(x.v) else None
  }

  ghost function Computed(cfg: Config, u: User, depth: nat): Env
    decreases depth, 1
  {
    n => var x := Run(cfg, u, depth, n); if x.Some? then x.value else TriVal(0)
  }

  ghost predicate Ends(cfg: Config, u: User, n: Node) { exists depth :: Run(cfg, u, depth, n).Some? }

  ghost predicate AllEnd(cfg: Config, u: User) { forall n :: Ends(cfg, u, n) }

  lemma {:induction false} RunDeeper(cfg: Config, u: User, depth: nat, more: nat, n: Node)
    requires Run(cfg, u, depth, n).Some? && depth <= more
    ensures Run(cfg, u, more, n) == Run(cfg, u, depth, n)
    decreases depth
  {
    hide Step;
    var env, env2 := Computed(cfg, u, depth - 1), Computed(cfg, u, more - 1);
    forall m | m in Step(cfg, u, n, env).seen ensures Run(cfg, u, more - 1, m) == Run(cfg, u, depth - 1, m) {
      RunDeeper(cfg, u, depth - 1, more - 1, m);
    }
    StepCong(cfg, u, n, env, env2);
  }

  // Where an order of evaluation exists, recursion ends, and with the value of that order.
  lemma {:induction false} RankedEnds(cfg: Config, u: User, rank: Node -> nat, n: Node)
    requires KconfigCoherence.Acyclic(cfg, rank) && UserOk(cfg, u)
    ensures Run(cfg, u, rank(n) + 1, n) == Some(Eval(cfg, u, rank, n))
    decreases rank(n)
  {
    hide Step;
    var values, env := Fresh(cfg, u, rank), Computed(cfg, u, rank(n));
    EvalUnfold(cfg, u, rank, n);
    forall m | m in Step(cfg, u, n, values).seen ensures Run(cfg, u, rank(n), m) == Some(values(m)) {
      RankedEnds(cfg, u, rank, m);
      RunDeeper(cfg, u, rank(m) + 1, rank(n), m);
    }
    StepCong(cfg, u, n, values, env);
  }

  // Evaluation in the order of the loop check: None if it comes upon a read that does not go down
  ghost function Walk(cfg: Config, u: User, g: Graph, done: seq<Item>, n: Node): Option<Value>
    decreases BaseRank(g, done, n), 1
  {
    var x := Step(cfg, u, n, Lower(cfg, u, g, done, BaseRank(g, done, n)));
    if forall m | m in x.seen ::
         BaseRank(g, done, m) < BaseRank(g, done, n) && Walk(cfg, u, g, done, m).Some?
    then Some(x.v) else None
  }

  ghost function Lower(cfg: Config, u: User, g: Graph, done: seq<Item>, bound: nat): Env
    decreases bound, 0
  {
    n => if BaseRank(g, done, n) >= bound then TriVal(0)
         else var x := Walk(cfg, u, g, done, n); if x.Some? then x.value else TriVal(0)
  }

  // Computing MODULES in that order asks for MODULES.
  ghost predicate AsksBack(cfg: Config, u: User, g: Graph, done: seq<Item>) {
    exists m :: Unrecorded(cfg, m) && Walk(cfg, u, g, done, m).None?
  }

  lemma {:induction false} WalkEnds(cfg: Config, u: User, g: Graph, done: seq<Item>, n: Node)
    requires Walk(cfg, u, g, done, n).Some?
    ensures Run(cfg, u, BaseRank(g, done, n) + 1, n) == Walk(cfg, u, g, done, n)
    decreases BaseRank(g, done, n)
  {
    hide Step, BaseRank;
    var b := BaseRank(g, done, n);
    var low, env := Lower(cfg, u, g, done, b), Computed(cfg, u, b);
    forall m | m in Step(cfg, u, n, low).seen ensures Run(cfg, u, b, m) == Some(low(m)) {
      WalkEnds(cfg, u, g, done, m);
      RunDeeper(cfg, u, BaseRank(g, done, m) + 1, b, m);
    }
    StepCong(cfg, u, n, low, env);
  }

  // If MODULES asks for itself, whatever the walk cannot compute never ends.
  lemma {:induction false} NoWalkNoEnd(cfg: Config, g: Graph, done: seq<Item>, u: User, depth: nat, n: Node)
    requires Sorted(cfg, g, done) && OnlyModules(cfg) && UserOk(cfg, u)
    requires AsksBack(cfg, u, g, done) && Walk(cfg, u, g, done, n).None?
    ensures Run(cfg, u, depth, n).None?
    decreases depth
  {
    if depth > 0 && Run(cfg, u, depth, n).Some? {
      AllWalked(cfg, g, done, u, depth, n);
      var b := BaseRank(g, done, n);
      StepCong(cfg, u, n, Computed(cfg, u, depth - 1), Lower(cfg, u, g, done, b));
    }
  }

  // What an evaluation reads that ends, the walk computes, to the same value.
  lemma {:induction false} AllWalked(cfg: Config, g: Graph, done: seq<Item>, u: User, depth: nat, n: Node)
    requires Sorted(cfg, g, done) && OnlyModules(cfg) && UserOk(cfg, u) && AsksBack(cfg, u, g, done)
    requires depth > 0 && Run(cfg, u, depth, n).Some?
    ensures forall m | m in Step(cfg, u, n, Computed(cfg, u, depth - 1)).seen ::
              && BaseRank(g, done, m) < BaseRank(g, done, n)
              && Walk(cfg, u, g, done, m) == Some(Computed(cfg, u, depth - 1)(m))
    decreases depth, 0
  {
    hide Step, BaseRank;
    var env := Computed(cfg, u, depth - 1);
    forall m | m in Step(cfg, u, n, env).seen
      ensures BaseRank(g, done, m) < BaseRank(g, done, n) && Walk(cfg, u, g, done, m) == Some(env(m))
    {
      if Walk(cfg, u, g, done, m).None? { NoWalkNoEnd(cfg, g, done, u, depth - 1, m); }
      WalkEnds(cfg, u, g, done, m);
      RunDeeper(cfg, u, BaseRank(g, done, m) + 1, BaseRank(g, done, m) + depth + 1, m);
      RunDeeper(cfg, u, depth - 1, BaseRank(g, done, m) + depth + 1, m);
      StepLowerOrModules(cfg, g, done, u, n, env, m);
    }
  }

  // Once MODULES can be computed, so can everything.
  lemma {:induction false} OthersEnd(cfg: Config, g: Graph, done: seq<Item>, u: User, n: Node, depth: nat)
    requires Sorted(cfg, g, done) && OnlyModules(cfg) && UserOk(cfg, u)
    requires forall m | Unrecorded(cfg, m) :: Run(cfg, u, depth, m).Some?
    ensures Run(cfg, u, depth + BaseRank(g, done, n) + 1, n).Some?
    decreases BaseRank(g, done, n)
  {
    hide Step, BaseRank;
    var d := depth + BaseRank(g, done, n);
    var env := Computed(cfg, u, d);
    forall m | m in Step(cfg, u, n, env).seen ensures Run(cfg, u, d, m).Some? {
      StepLowerOrModules(cfg, g, done, u, n, env, m);
      if Unrecorded(cfg, m) {
        RunDeeper(cfg, u, depth, d, m);
      } else {
        OthersEnd(cfg, g, done, u, m, depth);
        RunDeeper(cfg, u, depth + BaseRank(g, done, m) + 1, d, m);
      }
    }
  }

  lemma StuckNeverEnds(cfg: Config, g: Graph, done: seq<Item>, u: User, m: Node)
    requires Sorted(cfg, g, done) && OnlyModules(cfg) && UserOk(cfg, u)
    requires Unrecorded(cfg, m) && Walk(cfg, u, g, done, m).None?
    ensures !Ends(cfg, u, m)
  {
    hide Run, Walk;
    forall depth ensures Run(cfg, u, depth, m).None? {
      NoWalkNoEnd(cfg, g, done, u, depth, m);
    }
  }

  lemma WalkedAllEnd(cfg: Config, g: Graph, done: seq<Item>, u: User)
    requires Sorted(cfg, g, done) && OnlyModules(cfg) && UserOk(cfg, u) && !AsksBack(cfg, u, g, done)
    ensures AllEnd(cfg, u)
  {
    hide Run, Walk, BaseRank;
    var depth := 6 * |done| + 12;
    forall m | Unrecorded(cfg, m) ensures Run(cfg, u, depth, m).Some? {
      WalkEnds(cfg, u, g, done, m);
      RunDeeper(cfg, u, BaseRank(g, done, m) + 1, depth, m);
    }
    forall n ensures Ends(cfg, u, n) {
      OthersEnd(cfg, g, done, u, n, depth);
    }
  }

  // For a configuration that passes the loop check, every evaluation ends exactly if computing
  // MODULES does not ask for MODULES.
  lemma EvaluationEnds(cfg: Config, g: Graph, done: seq<Item>, u: User)
    requires Sorted(cfg, g, done) && OnlyModules(cfg) && UserOk(cfg, u)
    ensures AllEnd(cfg, u) <==> !AsksBack(cfg, u, g, done)
  {
    hide Walk, Ends;
    if AsksBack(cfg, u, g, done) {
      var m :| Unrecorded(cfg, m) && Walk(cfg, u, g, done, m).None?;
      StuckNeverEnds(cfg, g, done, u, m);
    } else {
      WalkedAllEnd(cfg, g, done, u);
    }
  }

  // The check of a configuration, and what it means if nothing is reported
  method CheckLoops(cfg: Config, g: Graph) returns (r: Search, ghost done: seq<Item>)
    requires ChoicesOk(cfg) && GraphOf(cfg, g)
    ensures r == Clear || (r.Raised? && Cycle(g, r.path))
    ensures r == Clear ==> (LoopCheck.Acyclic(g) <==> !Backward(g))
    ensures r == Clear && !Backward(g) ==> Sorted(cfg, g, done)
    ensures r == Clear && !Backward(g) ==> (Ranked(cfg) <==> !exists n, m :: StrayLoop(cfg, n, m))
    ensures r == Clear && !Backward(g) && OnlyModules(cfg) ==>
              forall u | UserOk(cfg, u) :: AllEnd(cfg, u) <==> !AsksBack(cfg, u, g, done)
  {
    GraphIsOk(cfg, g);
    var check := new DepCheck(g);
    r := check.CheckAll();
    done := check.colors.done;
    Passed(cfg, g, r, done);
  }

  lemma Passed(cfg: Config, g: Graph, r: Search, done: seq<Item>)
    requires ChoicesOk(cfg) && GraphOf(cfg, g) && GraphOk(g)
    requires r == SearchAll(g, 0, UNSEEN).0 && done == SearchAll(g, 0, UNSEEN).1.done
    ensures r == Clear || (r.Raised? && Cycle(g, r.path))
    ensures r == Clear ==> (LoopCheck.Acyclic(g) <==> !Backward(g))
    ensures r == Clear && !Backward(g) ==> Sorted(cfg, g, done)
    ensures r == Clear && !Backward(g) ==> (Ranked(cfg) <==> !exists n, m :: StrayLoop(cfg, n, m))
    ensures r == Clear && !Backward(g) && OnlyModules(cfg) ==>
              forall u | UserOk(cfg, u) :: AllEnd(cfg, u) <==> !AsksBack(cfg, u, g, done)
  {
    hide Ranked, Backward, LoopCheck.Acyclic, ChoicesOk, GraphOf, Ordered, AllEnd, OnlyModules;
    CheckExact(g);
    if r == Clear && !Backward(g) {
      EvaluationOrder(cfg, g, done);
      if OnlyModules(cfg) {
        forall u | UserOk(cfg, u) ensures AllEnd(cfg, u) <==> !AsksBack(cfg, u, g, done) {
          EvaluationEnds(cfg, g, done, u);
        }
      }
    }
  }
}

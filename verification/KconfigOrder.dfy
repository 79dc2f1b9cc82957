// When the properties of a configuration can be put in an order in which they can be evaluated:
// exactly if none of them may be read while it is computed.
module KconfigOrder {
  import opened Options
  import opened KconfigModel
  import opened KconfigCoherence
  import opened KconfigReads

  // Some evaluation of n reads m.
  ghost predicate MayRead(cfg: Config, n: Node, m: Node) {
    exists u, env: Env :: UserOk(cfg, u) && m in Step(cfg, u, n, env).seen
  }

  ghost predicate ReadPath(cfg: Config, path: seq<Node>) {
    path != [] && forall k | 0 < k < |path| :: MayRead(cfg, path[k - 1], path[k])
  }

  ghost predicate PathFrom(cfg: Config, path: seq<Node>, n: Node, m: Node) {
    ReadPath(cfg, path) && path[0] == n && path[|path| - 1] == m
  }

  // m may be needed to compute n, or is n.
  ghost predicate Needs(cfg: Config, n: Node, m: Node) { exists path :: PathFrom(cfg, path, n, m) }

  // What n reads may need n.
  ghost predicate NeedsItself(cfg: Config, n: Node) { exists m :: MayRead(cfg, n, m) && Needs(cfg, m, n) }

  ghost predicate Ranked(cfg: Config) { exists rank: Node -> nat :: Acyclic(cfg, rank) }

  lemma NeedsSelf(cfg: Config, n: Node)
    ensures Needs(cfg, n, n)
  {
    assert PathFrom(cfg, [n], n, n);
  }

  lemma NeedsOn(cfg: Config, n: Node, m: Node, o: Node)
    requires Needs(cfg, n, m) && Needs(cfg, m, o)
    ensures Needs(cfg, n, o)
  {
    hide MayRead;
    var a :| PathFrom(cfg, a, n, m);
    var b :| PathFrom(cfg, b, m, o);
    var path := a + b[1..];
    forall k | 0 < k < |path| ensures MayRead(cfg, path[k - 1], path[k]) {
      if k < |a| { assert MayRead(cfg, a[k - 1], a[k]); } else { assert MayRead(cfg, b[k - |a|], b[k - |a| + 1]); }
    }
    assert path[|path| - 1] == o;
    assert PathFrom(cfg, path, n, o);
  }

  lemma NeedsRead(cfg: Config, n: Node, m: Node)
    requires MayRead(cfg, n, m)
    ensures Needs(cfg, n, m)
  {
    hide MayRead;
    assert PathFrom(cfg, [n, m], n, m);
  }

  lemma {:induction false} PathFalls(cfg: Config, rank: Node -> nat, path: seq<Node>)
    requires Acyclic(cfg, rank) && ReadPath(cfg, path)
    ensures rank(path[|path| - 1]) <= rank(path[0])
  {
    if |path| > 1 {
      PathFalls(cfg, rank, path[..|path| - 1]);
      assert MayRead(cfg, path[|path| - 2], path[|path| - 1]);
    }
  }

  // ----- The order -----

  function Nodes(cfg: Config): set<Node> {
    (set i: nat | i < |cfg.syms| :: SymVis(i)) + (set i: nat | i < |cfg.syms| :: SymTri(i)) +
    (set i: nat | i < |cfg.syms| :: SymStr(i)) + (set c: nat | c < |cfg.choices| :: ChoiceVis(c)) +
    (set c: nat | c < |cfg.choices| :: ChoiceTri(c)) + (set c: nat | c < |cfg.choices| :: ChoiceSel(c))
  }

  lemma NodesAre(cfg: Config, n: Node)
    ensures n in Nodes(cfg) <==> Defined(cfg, Owner(n))
  {}

  // What n may need apart from itself
  ghost function Below(cfg: Config, n: Node): set<Node> { set m | m in Nodes(cfg) && Needs(cfg, n, m) && m != n }

  ghost function ReachRank(cfg: Config, n: Node): nat { if n in Nodes(cfg) then 6 + |Below(cfg, n)| else Part(n) }

  // An undefined symbol or choice reads nothing but itself.
  lemma UndefinedReads(cfg: Config, u: User, n: Node, env: Env, m: Node)
    requires !Defined(cfg, Owner(n)) && UserOk(cfg, u) && m in Step(cfg, u, n, env).seen
    ensures Owner(m) == Owner(n) && Part(m) < Part(n)
  {}

  lemma ReachFalls(cfg: Config, u: User, n: Node, env: Env, m: Node)
    requires UserOk(cfg, u) && m in Step(cfg, u, n, env).seen && forall o :: !NeedsItself(cfg, o)
    ensures ReachRank(cfg, m) < ReachRank(cfg, n)
  {
    hide Step, Nodes, Needs, UserOk;
    assert MayRead(cfg, n, m);
    NodesAre(cfg, n);
    NodesAre(cfg, m);
    if n !in Nodes(cfg) {
      UndefinedReads(cfg, u, n, env, m);
    } else if m in Nodes(cfg) {
      LessBelow(cfg, n, m);
    }
  }

  lemma LessBelow(cfg: Config, n: Node, m: Node)
    requires MayRead(cfg, n, m) && m in Nodes(cfg) && forall o :: !NeedsItself(cfg, o)
    ensures |Below(cfg, m)| < |Below(cfg, n)|
  {
    hide MayRead, Nodes, Needs;
    NeedsSelf(cfg, m);
    NeedsRead(cfg, n, m);
    assert !Needs(cfg, m, n) by { assert !NeedsItself(cfg, n); }
    forall o | o in Below(cfg, m) ensures o in Below(cfg, n) {
      NeedsOn(cfg, n, m, o);
    }
    FewerNodes(Below(cfg, m), Below(cfg, n), m);
  }

  lemma FewerNodes(a: set<Node>, b: set<Node>, x: Node)
    requires a <= b && x in b && x !in a
    ensures |a| < |b|
  {
    SubsetNodes(a, b - {x});
  }

  lemma {:induction false} SubsetNodes(a: set<Node>, b: set<Node>)
    requires a <= b
    ensures |a| <= |b|
  {
    if a != {} {
      var x :| x in a;
      SubsetNodes(a - {x}, b - {x});
    }
  }

  // A termination measure for evaluation exists exactly if no property may be read while it is
  // computed. No condition on the configuration is needed.
  lemma RankedExact(cfg: Config)
    ensures Ranked(cfg) <==> !exists n :: NeedsItself(cfg, n)
  {
    if n :| NeedsItself(cfg, n) {
      var m :| MayRead(cfg, n, m) && Needs(cfg, m, n);
      var path :| PathFrom(cfg, path, m, n);
      forall rank: Node -> nat ensures !Acyclic(cfg, rank) {
        if Acyclic(cfg, rank) { PathFalls(cfg, rank, path); }
      }
    } else {
      var rank: Node -> nat := n => ReachRank(cfg, n);
      forall u: User, n: Node, env: Env, m: Node | UserOk(cfg, u) && m in Step(cfg, u, n, env).seen
        ensures rank(m) < rank(n)
      {
        ReachFalls(cfg, u, n, env, m);
      }
      assert Acyclic(cfg, rank);
    }
  }
}

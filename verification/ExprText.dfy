// Kconfig expressions as text (tools/kconfiglib.py): expr_str and the recursive-descent parser, on
// tokens. Parsing what was printed gives an expression with the same value.
module ExprText {
  import opened Options
  import opened KconfigModel

  datatype Token = Sym(op: Operand) | Rel(rel: Relation) | NotSign | AndSign | OrSign | Open | Close

  // ----- expr_str -----

  // A choice has no form that the parser reads back.
  predicate Parsable(e: Expr) {
    match e
    case Leaf(_) => true
    case Mode(_) => false
    case And(l, r) => Parsable(l) && Parsable(r)
    case Or(l, r) => Parsable(l) && Parsable(r)
    case Not(f) => Parsable(f)
    case Compare(_, _, _) => true
  }

  function Enclosed(ts: seq<Token>): seq<Token> { [Open] + ts + [Close] }

  // expr_str and _parenthesize
  function Print(e: Expr): seq<Token>
    requires Parsable(e)
  {
    match e
    case Leaf(op) => [Sym(op)]
    case And(l, r) =>
      (if l.Or? then Enclosed(Print(l)) else Print(l)) + [AndSign] + (if r.Or? then Enclosed(Print(r)) else Print(r))
    case Or(l, r) =>
      (if l.And? then Enclosed(Print(l)) else Print(l)) + [OrSign] + (if r.And? then Enclosed(Print(r)) else Print(r))
    case Not(f) => if f.Leaf? then [NotSign] + Print(f) else [NotSign] + Enclosed(Print(f))
    case Compare(rel, a, b) => [Sym(a), Rel(rel), Sym(b)]
  }

  // ----- _parse_expr, _parse_and_expr, _parse_factor -----

  // An expression and the tokens behind it, or a syntax error
  type Parsed = Option<(Expr, seq<Token>)>

  // With transform_m, the constant m stands for m && MODULES.
  datatype Rewrite = Rewrite(m: Operand, modules: Operand)

  function SymbolExpr(op: Operand, rw: Option<Rewrite>): Expr {
    if rw.Some? && op == rw.value.m then And(Leaf(op), Leaf(rw.value.modules)) else Leaf(op)
  }

  function ParseExpr(ts: seq<Token>, rw: Option<Rewrite>): (r: Parsed)
    ensures r.Some? ==> |r.value.1| < |ts|
    decreases |ts|, 2
  {
    match ParseAnd(ts, rw)
    case None => None
    case Some((e, rest)) =>
      if rest == [] || rest[0] != OrSign then Some((e, rest))
      else
        match ParseExpr(rest[1..], rw)
        case None => None
        case Some((f, rest')) => Some((Or(e, f), rest'))
  }

  function ParseAnd(ts: seq<Token>, rw: Option<Rewrite>): (r: Parsed)
    ensures r.Some? ==> |r.value.1| < |ts|
    decreases |ts|, 1
  {
    match ParseFactor(ts, rw)
    case None => None
    case Some((e, rest)) =>
      if rest == [] || rest[0] != AndSign then Some((e, rest))
      else
        match ParseAnd(rest[1..], rw)
        case None => None
        case Some((f, rest')) => Some((And(e, f), rest'))
  }

  function ParseFactor(ts: seq<Token>, rw: Option<Rewrite>): (r: Parsed)
    ensures r.Some? ==> |r.value.1| < |ts|
    decreases |ts|, 0
  {
    if ts == [] then None
    else
      match ts[0]
      case Sym(op) =>
        if |ts| < 2 || !ts[1].Rel? then Some((SymbolExpr(op, rw), ts[1..]))
        else if |ts| < 3 || !ts[2].Sym? then None
        else Some((Compare(ts[1].rel, op, ts[2].op), ts[3..]))
      case NotSign =>
        (match ParseFactor(ts[1..], rw)
         case None => None
         case Some((e, rest)) => Some((Not(e), rest)))
      case Open =>
        (match ParseExpr(ts[1..], rw)
         case None => None
         case Some((e, rest)) => if rest != [] && rest[0] == Close then Some((e, rest[1..])) else None)
      case _ => None
  }

  // ----- The right-nested form -----

  function AndJoin(e: Expr, f: Expr): Expr { if e.And? then And(e.l, AndJoin(e.r, f)) else And(e, f) }

  function OrJoin(e: Expr, f: Expr): Expr { if e.Or? then Or(e.l, OrJoin(e.r, f)) else Or(e, f) }

  // A && B && C nests to the right, however the operands were paired, and so does ||.
  function Norm(e: Expr): Expr {
    match e
    case And(l, r) => AndJoin(Norm(l), Norm(r))
    case Or(l, r) => OrJoin(Norm(l), Norm(r))
    case Not(f) => Not(Norm(f))
    case _ => e
  }

  predicate RightNested(e: Expr) {
    match e
    case And(l, r) => !l.And? && RightNested(l) && RightNested(r)
    case Or(l, r) => !l.Or? && RightNested(l) && RightNested(r)
    case Not(f) => RightNested(f)
    case _ => true
  }

  lemma {:induction false} NormKind(e: Expr)
    ensures Norm(e).And? == e.And? && Norm(e).Or? == e.Or? && Norm(e).Leaf? == e.Leaf?
  {}

  lemma {:induction false} AndJoinNested(e: Expr, f: Expr)
    requires RightNested(e) && RightNested(f)
    ensures RightNested(AndJoin(e, f))
  {
    if e.And? { AndJoinNested(e.r, f); }
  }

  lemma {:induction false} OrJoinNested(e: Expr, f: Expr)
    requires RightNested(e) && RightNested(f)
    ensures RightNested(OrJoin(e, f))
  {
    if e.Or? { OrJoinNested(e.r, f); }
  }

  lemma {:induction false} NormNested(e: Expr)
    ensures RightNested(Norm(e))
  {
    match e
    case And(l, r) => NormNested(l); NormNested(r); AndJoinNested(Norm(l), Norm(r));
    case Or(l, r) => NormNested(l); NormNested(r); OrJoinNested(Norm(l), Norm(r));
    case Not(f) => NormNested(f);
    case _ =>
  }

  // Right-nested expressions, and only those, are left as they are.
  lemma {:induction false} NormFixes(e: Expr)
    ensures RightNested(e) <==> Norm(e) == e
  {
    NormNested(e);
    if RightNested(e) {
      match e
      case And(l, r) => NormFixes(l); NormFixes(r);
      case Or(l, r) => NormFixes(l); NormFixes(r);
      case Not(f) => NormFixes(f);
      case _ =>
    }
  }

  lemma {:induction false} AndJoinAssoc(a: Expr, b: Expr, c: Expr)
    ensures AndJoin(AndJoin(a, b), c) == AndJoin(a, AndJoin(b, c))
  {
    if a.And? { AndJoinAssoc(a.r, b, c); }
  }

  lemma {:induction false} OrJoinAssoc(a: Expr, b: Expr, c: Expr)
    ensures OrJoin(OrJoin(a, b), c) == OrJoin(a, OrJoin(b, c))
  {
    if a.Or? { OrJoinAssoc(a.r, b, c); }
  }

  // ----- Same value, reading the same operands -----

  lemma {:induction false} AndJoinValue(cfg: Config, env: Env, e: Expr, f: Expr)
    ensures ExprEv(cfg, AndJoin(e, f), env) == ExprEv(cfg, And(e, f), env)
  {
    if e.And? {
      AndJoinValue(cfg, env, e.r, f);
      var x, y, z := ExprEv(cfg, e.l, env), ExprEv(cfg, e.r, env), ExprEv(cfg, f, env);
      assert x.seen + (y.seen + z.seen) == x.seen + y.seen + z.seen;
    }
  }

  lemma {:induction false} OrJoinValue(cfg: Config, env: Env, e: Expr, f: Expr)
    ensures ExprEv(cfg, OrJoin(e, f), env) == ExprEv(cfg, Or(e, f), env)
  {
    if e.Or? {
      OrJoinValue(cfg, env, e.r, f);
      var x, y, z := ExprEv(cfg, e.l, env), ExprEv(cfg, e.r, env), ExprEv(cfg, f, env);
      assert x.seen + (y.seen + z.seen) == x.seen + y.seen + z.seen;
    }
  }

  // The right-nested form has the same value in every assignment and reads the same operands.
  lemma {:induction false} NormValue(cfg: Config, env: Env, e: Expr)
    ensures ExprEv(cfg, Norm(e), env) == ExprEv(cfg, e, env)
  {
    match e
    case And(l, r) =>
      NormValue(cfg, env, l);
      NormValue(cfg, env, r);
      AndJoinValue(cfg, env, Norm(l), Norm(r));
    case Or(l, r) =>
      NormValue(cfg, env, l);
      NormValue(cfg, env, r);
      OrJoinValue(cfg, env, Norm(l), Norm(r));
    case Not(f) => NormValue(cfg, env, f);
    case _ =>
  }

  // ----- Parsing what was printed -----

  // Tokens that may follow a complete operand of && or ||
  predicate EndsAnd(rest: seq<Token>) { rest == [] || !(rest[0] == AndSign || rest[0].Rel?) }

  predicate EndsOr(rest: seq<Token>) { EndsAnd(rest) && (rest == [] || rest[0] != OrSign) }

  function AndPart(e: Expr): seq<Token>
    requires Parsable(e)
  {
    if e.Or? then Enclosed(Print(e)) else Print(e)
  }

  function OrPart(e: Expr): seq<Token>
    requires Parsable(e)
  {
    if e.And? then Enclosed(Print(e)) else Print(e)
  }

  lemma Regroup(a: seq<Token>, s: seq<Token>, b: seq<Token>, more: seq<Token>)
    ensures a + s + b + s + more == a + s + (b + s + more)
    ensures a + s + b + more == a + s + (b + more)
  {}

  lemma Behind(a: seq<Token>, t: Token, more: seq<Token>)
    ensures a + [t] + more == a + ([t] + more) && ([t] + more)[0] == t && ([t] + more)[1..] == more
  {}

  lemma {:induction false} ParseEnclosed(e: Expr, rest: seq<Token>)
    requires Parsable(e)
    ensures ParseFactor(Enclosed(Print(e)) + rest, None) == Some((Norm(e), rest))
    decreases e, 6
  {
    var ts := Enclosed(Print(e)) + rest;
    assert ts[0] == Open && ts[1..] == Print(e) + ([Close] + rest);
    WholeExpr(e, [Close] + rest);
    assert ([Close] + rest)[1..] == rest;
  }

  // Anything but a printed && or || is a factor.
  lemma {:induction false} FactorOf(e: Expr, rest: seq<Token>)
    requires Parsable(e) && !e.And? && !e.Or? && (rest == [] || !rest[0].Rel?)
    ensures ParseFactor(Print(e) + rest, None) == Some((Norm(e), rest))
    decreases e, 1
  {
    var ts := Print(e) + rest;
    match e
    case Leaf(op) => assert ts[1..] == rest;
    case Compare(rel, a, b) => assert ts[3..] == rest;
    case Not(f) =>
      if f.Leaf? {
        assert ts[1..] == Print(f) + rest;
        FactorOf(f, rest);
      } else {
        assert ts[1..] == Enclosed(Print(f)) + rest;
        ParseEnclosed(f, rest);
      }
  }

  lemma {:induction false} AndAtom(e: Expr, rest: seq<Token>)
    requires Parsable(e) && !e.And? && (rest == [] || !rest[0].Rel?)
    ensures ParseFactor(AndPart(e) + rest, None) == Some((Norm(e), rest))
    decreases e, 7
  {
    if e.Or? { ParseEnclosed(e, rest); } else { FactorOf(e, rest); }
  }

  lemma {:induction false} OrAtom(e: Expr, rest: seq<Token>)
    requires Parsable(e) && !e.Or? && (rest == [] || !rest[0].Rel?)
    ensures ParseFactor(OrPart(e) + rest, None) == Some((Norm(e), rest))
    decreases e, 7
  {
    if e.And? { ParseEnclosed(e, rest); } else { FactorOf(e, rest); }
  }

  // An operand of &&, with more operands behind it
  lemma {:induction false} AndThen(e: Expr, more: seq<Token>, f: Expr, rest: seq<Token>)
    requires Parsable(e) && ParseAnd(more, None) == Some((f, rest))
    ensures ParseAnd(AndPart(e) + [AndSign] + more, None) == Some((AndJoin(Norm(e), f), rest))
    decreases e, 8
  {
    NormKind(e);
    if e.And? {
      var inner := AndPart(e.r) + [AndSign] + more;
      AndThen(e.r, more, f, rest);
      AndThen(e.l, inner, AndJoin(Norm(e.r), f), rest);
      Regroup(AndPart(e.l), [AndSign], AndPart(e.r), more);
      AndJoinAssoc(Norm(e.l), Norm(e.r), f);
    } else {
      Behind(AndPart(e), AndSign, more);
      AndAtom(e, [AndSign] + more);
    }
  }

  // The last operand of &&
  lemma {:induction false} AndLast(e: Expr, rest: seq<Token>)
    requires Parsable(e) && EndsAnd(rest)
    ensures ParseAnd(AndPart(e) + rest, None) == Some((Norm(e), rest))
    decreases e, 9
  {
    if e.And? {
      AndLast(e.r, rest);
      AndThen(e.l, AndPart(e.r) + rest, Norm(e.r), rest);
      Regroup(AndPart(e.l), [AndSign], AndPart(e.r), rest);
    } else {
      AndAtom(e, rest);
    }
  }

  // The same for ||, whose operands are && expressions in parentheses or factors
  lemma {:induction false} OrOperand(e: Expr, rest: seq<Token>)
    requires Parsable(e) && !e.Or? && EndsAnd(rest)
    ensures ParseAnd(OrPart(e) + rest, None) == Some((Norm(e), rest))
    decreases e, 8
  {
    OrAtom(e, rest);
  }

  lemma {:induction false} OrThen(e: Expr, more: seq<Token>, f: Expr, rest: seq<Token>)
    requires Parsable(e) && ParseExpr(more, None) == Some((f, rest))
    ensures ParseExpr(OrPart(e) + [OrSign] + more, None) == Some((OrJoin(Norm(e), f), rest))
    decreases e, 9
  {
    NormKind(e);
    if e.Or? {
      var inner := OrPart(e.r) + [OrSign] + more;
      OrThen(e.r, more, f, rest);
      OrThen(e.l, inner, OrJoin(Norm(e.r), f), rest);
      Regroup(OrPart(e.l), [OrSign], OrPart(e.r), more);
      OrJoinAssoc(Norm(e.l), Norm(e.r), f);
    } else {
      Behind(OrPart(e), OrSign, more);
      OrOperand(e, [OrSign] + more);
    }
  }

  lemma {:induction false} OrLast(e: Expr, rest: seq<Token>)
    requires Parsable(e) && EndsOr(rest)
    ensures ParseExpr(OrPart(e) + rest, None) == Some((Norm(e), rest))
    decreases e, 10
  {
    if e.Or? {
      OrLast(e.r, rest);
      OrThen(e.l, OrPart(e.r) + rest, Norm(e.r), rest);
      Regroup(OrPart(e.l), [OrSign], OrPart(e.r), rest);
    } else {
      OrOperand(e, rest);
    }
  }

  lemma {:induction false} WholeExpr(e: Expr, rest: seq<Token>)
    requires Parsable(e) && EndsOr(rest)
    ensures ParseExpr(Print(e) + rest, None) == Some((Norm(e), rest))
    decreases e, 5
  {
    if e.And? {
      AndLast(e.r, rest);
      AndThen(e.l, AndPart(e.r) + rest, Norm(e.r), rest);
      Regroup(AndPart(e.l), [AndSign], AndPart(e.r), rest);
    } else if e.Or? {
      OrLast(e.r, rest);
      OrThen(e.l, OrPart(e.r) + rest, Norm(e.r), rest);
      Regroup(OrPart(e.l), [OrSign], OrPart(e.r), rest);
    } else {
      FactorOf(e, rest);
    }
  }

  // Parsing expr_str(e) reads all of it and gives the right-nested form of e, with the same value
  // in every assignment; e itself comes back exactly if it was right-nested.
  lemma PrintThenParse(cfg: Config, env: Env, e: Expr)
    requires Parsable(e)
    ensures ParseExpr(Print(e), None) == Some((Norm(e), []))
    ensures ExprEv(cfg, Norm(e), env) == ExprEv(cfg, e, env)
    ensures ParseExpr(Print(e), None) == Some((e, [])) <==> RightNested(e)
  {
    WholeExpr(e, []);
    assert Print(e) + [] == Print(e);
    NormValue(cfg, env, e);
    NormFixes(e);
  }

  // ----- the grammar -----

  // expr: and_expr ['||' expr]
  ghost predicate IsExpr(ts: seq<Token>, e: Expr)
    decreases |ts|, 2
  {
    IsAnd(ts, e) ||
    (e.Or? && exists k :: 0 <= k < |ts| && ts[k] == OrSign && IsAnd(ts[..k], e.l) && IsExpr(ts[k + 1..], e.r))
  }

  // and_expr: factor ['&&' and_expr]
  ghost predicate IsAnd(ts: seq<Token>, e: Expr)
    decreases |ts|, 1
  {
    IsFactor(ts, e) ||
    (e.And? && exists k :: 0 <= k < |ts| && ts[k] == AndSign && IsFactor(ts[..k], e.l) && IsAnd(ts[k + 1..], e.r))
  }

  // factor: <symbol> [<relation> <symbol>] | '!' factor | '(' expr ')'
  ghost predicate IsFactor(ts: seq<Token>, e: Expr)
    decreases |ts|, 0
  {
    || (e.Leaf? && ts == [Sym(e.op)])
    || (e.Compare? && ts == [Sym(e.a), Rel(e.rel), Sym(e.b)])
    || (e.Not? && ts != [] && ts[0] == NotSign && IsFactor(ts[1..], e.e))
    || (|ts| >= 2 && ts[0] == Open && ts[|ts| - 1] == Close && IsExpr(ts[1..|ts| - 1], e))
  }

  // The tokens that a parse has used up
  ghost predicate Uses(ts: seq<Token>, rest: seq<Token>) { |rest| <= |ts| && ts[|ts| - |rest|..] == rest }

  function Used(ts: seq<Token>, rest: seq<Token>): seq<Token> { if |rest| <= |ts| then ts[..|ts| - |rest|] else [] }

  // What the parser reads is what the grammar says.
  lemma {:induction false} ExprSound(ts: seq<Token>)
    ensures
      var r := ParseExpr(ts, None);
      r.Some? ==> Uses(ts, r.value.1) && IsExpr(Used(ts, r.value.1), r.value.0)
    decreases |ts|, 2
  {
    AndSound(ts);
    var a := ParseAnd(ts, None);
    if a.Some? && a.value.1 != [] && a.value.1[0] == OrSign {
      var more := a.value.1[1..];
      ExprSound(more);
      var r := ParseExpr(more, None);
      if r.Some? { UsedTwice(ts, a.value.1, r.value.1, OrSign); }
    }
  }

  lemma {:induction false} AndSound(ts: seq<Token>)
    ensures
      var r := ParseAnd(ts, None);
      r.Some? ==> Uses(ts, r.value.1) && IsAnd(Used(ts, r.value.1), r.value.0)
    decreases |ts|, 1
  {
    FactorSound(ts);
    var a := ParseFactor(ts, None);
    if a.Some? && a.value.1 != [] && a.value.1[0] == AndSign {
      var more := a.value.1[1..];
      AndSound(more);
      var r := ParseAnd(more, None);
      if r.Some? { UsedTwice(ts, a.value.1, r.value.1, AndSign); }
    }
  }

  // An operand, a sign and what follows it
  lemma UsedTwice(ts: seq<Token>, rest: seq<Token>, last: seq<Token>, sign: Token)
    requires Uses(ts, rest) && rest != [] && rest[0] == sign && Uses(rest[1..], last)
    ensures Uses(ts, last)
    ensures
      var u, k := Used(ts, last), |ts| - |rest|;
      k < |u| && u[k] == sign && u[..k] == Used(ts, rest) && u[k + 1..] == Used(rest[1..], last)
  {
    var k := |ts| - |rest|;
    assert rest[1..] == ts[k + 1..];
    assert ts[|ts| - |last|..] == ts[k + 1..][|rest| - 1 - |last|..];
    assert ts[..|ts| - |last|][k + 1..] == ts[k + 1..][..|rest| - 1 - |last|];
  }

  lemma {:induction false} FactorSound(ts: seq<Token>)
    ensures
      var r := ParseFactor(ts, None);
      r.Some? ==> Uses(ts, r.value.1) && IsFactor(Used(ts, r.value.1), r.value.0)
    decreases |ts|, 0
  {
    if ts != [] {
      match ts[0]
      case Sym(op) => SymSound(ts);
      case NotSign =>
        FactorSound(ts[1..]);
        var r := ParseFactor(ts[1..], None);
        if r.Some? { UsedBehind(ts, r.value.1); }
      case Open =>
        ExprSound(ts[1..]);
        var r := ParseExpr(ts[1..], None);
        if r.Some? && r.value.1 != [] && r.value.1[0] == Close { UsedInside(ts, r.value.1); }
      case _ =>
    }
  }

  lemma SymSound(ts: seq<Token>)
    requires ts != [] && ts[0].Sym?
    ensures
      var r := ParseFactor(ts, None);
      r.Some? ==> Uses(ts, r.value.1) && IsFactor(Used(ts, r.value.1), r.value.0)
  {
    if |ts| >= 3 && ts[1].Rel? && ts[2].Sym? {
      assert Used(ts, ts[3..]) == [ts[0], ts[1], ts[2]];
    } else {
      assert Used(ts, ts[1..]) == [ts[0]];
    }
  }

  lemma UsedBehind(ts: seq<Token>, rest: seq<Token>)
    requires ts != [] && Uses(ts[1..], rest)
    ensures Uses(ts, rest) && Used(ts, rest) != [] && Used(ts, rest)[0] == ts[0]
    ensures Used(ts, rest)[1..] == Used(ts[1..], rest)
  {}

  lemma UsedInside(ts: seq<Token>, rest: seq<Token>)
    requires ts != [] && Uses(ts[1..], rest) && rest != []
    ensures
      var u := Used(ts, rest[1..]);
      && Uses(ts, rest[1..]) && |u| >= 2 && u[0] == ts[0] && u[|u| - 1] == rest[0]
      && u[1..|u| - 1] == Used(ts[1..], rest)
  {
    var u := Used(ts, rest[1..]);
    assert ts[1..][|ts| - 1 - |rest|..] == rest;
    assert u[|u| - 1] == ts[|ts| - |rest|] == ts[1..][|ts| - 1 - |rest|..][0];
    assert ts[|ts| - |rest| + 1..] == ts[1..][|ts| - 1 - |rest|..][1..];
  }

  // And all that the grammar says is read.
  lemma {:induction false} ExprComplete(ts: seq<Token>, e: Expr, rest: seq<Token>)
    requires IsExpr(ts, e) && EndsOr(rest)
    ensures ParseExpr(ts + rest, None) == Some((e, rest))
    decreases |ts|, 2
  {
    if IsAnd(ts, e) {
      AndComplete(ts, e, rest);
    } else {
      var k :| 0 <= k < |ts| && ts[k] == OrSign && IsAnd(ts[..k], e.l) && IsExpr(ts[k + 1..], e.r);
      var more := ts[k..] + rest;
      Split(ts, k, rest);
      AndComplete(ts[..k], e.l, more);
      ExprComplete(ts[k + 1..], e.r, rest);
    }
  }

  lemma Split(ts: seq<Token>, k: nat, rest: seq<Token>)
    requires k < |ts|
    ensures ts + rest == ts[..k] + (ts[k..] + rest) && (ts[k..] + rest)[0] == ts[k]
    ensures (ts[k..] + rest)[1..] == ts[k + 1..] + rest
  {}

  lemma {:induction false} AndComplete(ts: seq<Token>, e: Expr, rest: seq<Token>)
    requires IsAnd(ts, e) && EndsAnd(rest)
    ensures ParseAnd(ts + rest, None) == Some((e, rest))
    decreases |ts|, 1
  {
    if IsFactor(ts, e) {
      FactorComplete(ts, e, rest);
    } else {
      var k :| 0 <= k < |ts| && ts[k] == AndSign && IsFactor(ts[..k], e.l) && IsAnd(ts[k + 1..], e.r);
      var more := ts[k..] + rest;
      Split(ts, k, rest);
      FactorComplete(ts[..k], e.l, more);
      AndComplete(ts[k + 1..], e.r, rest);
    }
  }

  lemma {:induction false} FactorComplete(ts: seq<Token>, e: Expr, rest: seq<Token>)
    requires IsFactor(ts, e) && (rest == [] || !rest[0].Rel?)
    ensures ParseFactor(ts + rest, None) == Some((e, rest))
    decreases |ts|, 0
  {
    if e.Leaf? && ts == [Sym(e.op)] {
      assert (ts + rest)[1..] == rest;
    } else if e.Compare? && ts == [Sym(e.a), Rel(e.rel), Sym(e.b)] {
      assert (ts + rest)[3..] == rest;
    } else if e.Not? && ts != [] && ts[0] == NotSign && IsFactor(ts[1..], e.e) {
      assert (ts + rest)[1..] == ts[1..] + rest;
      FactorComplete(ts[1..], e.e, rest);
    } else {
      var inner := ts[1..|ts| - 1];
      assert (ts + rest)[1..] == inner + ([Close] + rest) && ([Close] + rest)[1..] == rest;
      ExprComplete(inner, e, [Close] + rest);
    }
  }

  // The parser reads a whole text as an expression exactly if the grammar derives it; so no text has
  // two readings, and all others are refused.
  lemma ParsesGrammar(ts: seq<Token>, e: Expr)
    ensures ParseExpr(ts, None) == Some((e, [])) <==> IsExpr(ts, e)
  {
    if ParseExpr(ts, None) == Some((e, [])) {
      ExprSound(ts);
      assert Used(ts, []) == ts;
    }
    if IsExpr(ts, e) {
      ExprComplete(ts, e, []);
      assert ts + [] == ts;
    }
  }

  // ----- transform_m -----

  // m && MODULES for every m that is not an operand of a relation
  function WithModules(e: Expr, rw: Rewrite): Expr {
    match e
    case Leaf(op) => SymbolExpr(op, Some(rw))
    case And(l, r) => And(WithModules(l, rw), WithModules(r, rw))
    case Or(l, r) => Or(WithModules(l, rw), WithModules(r, rw))
    case Not(f) => Not(WithModules(f, rw))
    case _ => e
  }

  function Transformed(p: Parsed, rw: Rewrite): Parsed {
    match p
    case None => None
    case Some((e, rest)) => Some((WithModules(e, rw), rest))
  }

  // Rewriting while parsing is rewriting the parsed expression.
  lemma {:induction false} TransformExpr(ts: seq<Token>, rw: Rewrite)
    ensures ParseExpr(ts, Some(rw)) == Transformed(ParseExpr(ts, None), rw)
    decreases |ts|, 2
  {
    TransformAnd(ts, rw);
    var p := ParseAnd(ts, None);
    if p.Some? && p.value.1 != [] && p.value.1[0] == OrSign { TransformExpr(p.value.1[1..], rw); }
  }

  lemma {:induction false} TransformAnd(ts: seq<Token>, rw: Rewrite)
    ensures ParseAnd(ts, Some(rw)) == Transformed(ParseAnd(ts, None), rw)
    decreases |ts|, 1
  {
    TransformFactor(ts, rw);
    var p := ParseFactor(ts, None);
    if p.Some? && p.value.1 != [] && p.value.1[0] == AndSign { TransformAnd(p.value.1[1..], rw); }
  }

  lemma {:induction false} TransformFactor(ts: seq<Token>, rw: Rewrite)
    ensures ParseFactor(ts, Some(rw)) == Transformed(ParseFactor(ts, None), rw)
    decreases |ts|, 0
  {
    if ts != [] && ts[0] == NotSign { TransformFactor(ts[1..], rw); }
    if ts != [] && ts[0] == Open { TransformExpr(ts[1..], rw); }
  }

  // ----- The parser as it runs, on a token list and an index -----

  class Parser {
    const tokens: seq<Token>
    const rw: Option<Rewrite>
    var next: nat

    constructor (tokens: seq<Token>, rw: Option<Rewrite>)
      ensures this.tokens == tokens && this.rw == rw && next == 0
    {
      this.tokens, this.rw, next := tokens, rw, 0;
    }

    ghost function Rest(): seq<Token>
      requires next <= |tokens|
      reads this
    {
      tokens[next..]
    }

    // The outcome of a parsing function
    ghost predicate Reads(p: Parsed, r: Option<Expr>)
      reads this
    {
      match p
      case None => r == None
      case Some((e, rest)) => r == Some(e) && next <= |tokens| && Rest() == rest
    }

    // _check_token
    method Check(t: Token) returns (found: bool)
      requires next <= |tokens|
      modifies `next
      ensures found <==> old(Rest()) != [] && old(Rest())[0] == t
      ensures next <= |tokens| && Rest() == if found then old(Rest())[1..] else old(Rest())
    {
      found := next < |tokens| && tokens[next] == t;
      if found { next := next + 1; }
    }

    method Expression() returns (r: Option<Expr>)
      requires next <= |tokens|
      modifies `next
      ensures Reads(ParseExpr(old(Rest()), rw), r)
      decreases |tokens| - next, 2
    {
      r := AndExpression();
      if r == None { return; }
      var more := Check(OrSign);
      if more {
        var f := Expression();
        r := if f == None then None else Some(Or(r.value, f.value));
      }
    }

    method AndExpression() returns (r: Option<Expr>)
      requires next <= |tokens|
      modifies `next
      ensures Reads(ParseAnd(old(Rest()), rw), r)
      decreases |tokens| - next, 1
    {
      r := Factor();
      if r == None { return; }
      var more := Check(AndSign);
      if more {
        var f := AndExpression();
        r := if f == None then None else Some(And(r.value, f.value));
      }
    }

    method Factor() returns (r: Option<Expr>)
      requires next <= |tokens|
      modifies `next
      ensures Reads(ParseFactor(old(Rest()), rw), r)
      decreases |tokens| - next, 0
    {
      if next == |tokens| { return None; }
      var t := tokens[next];
      next := next + 1;
      if t.Sym? {
        if next == |tokens| || !tokens[next].Rel? { return Some(SymbolExpr(t.op, rw)); }
        next := next + 1;
        if next == |tokens| || !tokens[next].Sym? { return None; }
        next := next + 1;
        return Some(Compare(tokens[next - 2].rel, t.op, tokens[next - 1].op));
      }
      if t == NotSign {
        r := Factor();
        if r.Some? { r := Some(Not(r.value)); }
        return;
      }
      if t == Open {
        r := Expression();
        if r.Some? {
          var closed := Check(Close);
          if closed { return; }
        }
      }
      r := None;
    }
  }
}

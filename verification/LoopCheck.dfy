// _check_dep_loop_sym and _check_dep_loop_choice (tools/kconfiglib.py): a depth-first search with
// three colours over the dependents of the symbols, which enters a choice through one of its
// symbols and leaves it through the others.
module LoopCheck {
  import opened Options
  import opened KconfigModel

  // What _build_dep has left in Symbol._dependents, the choice of each symbol, and the symbols of
  // each choice. The dependents of a choice are never looked at.
  datatype Graph = Graph(deps: seq<seq<Item>>, choice: seq<Option<nat>>, members: seq<seq<nat>>)

  predicate Known(g: Graph, x: Item) {
    match x
    case SymItem(s) => s < |g.deps|
    case ChoiceItem(c) => c < |g.members|
  }

  ghost predicate GraphOk(g: Graph) {
    && |g.choice| == |g.deps|
    && (forall s, y | 0 <= s < |g.deps| && y in g.deps[s] :: Known(g, y))
    && (forall s | 0 <= s < |g.choice| && g.choice[s].Some? ::
         g.choice[s].value < |g.members| && s in g.members[g.choice[s].value])
    && forall c, i | 0 <= c < |g.members| && 0 <= i < |g.members[c]| ::
         g.members[c][i] < |g.choice| && g.choice[g.members[c][i]] == Some(c)
  }

  lemma IsMember(g: Graph, c: nat, s: nat)
    requires GraphOk(g) && c < |g.members| && s in g.members[c]
    ensures s < |g.deps| && g.choice[s] == Some(c)
  {
    var i :| 0 <= i < |g.members[c]| && g.members[c][i] == s;
  }

  lemma ChoiceKnown(g: Graph, s: nat)
    requires GraphOk(g) && s < |g.deps|
    ensures s < |g.choice| && (g.choice[s].Some? ==> g.choice[s].value < |g.members|)
  {}

  // ----- Loops -----

  // y depends on x.
  predicate Depends(g: Graph, x: Item, y: Item) { x.SymItem? && x.sym < |g.deps| && y in g.deps[x.sym] }

  // From a symbol to its choice, or from a choice to one of its symbols
  predicate Inner(g: Graph, x: Item, y: Item) {
    match x
    case SymItem(s) => s < |g.choice| && g.choice[s].Some? && y == ChoiceItem(g.choice[s].value)
    case ChoiceItem(c) => c < |g.members| && y.SymItem? && y.sym in g.members[c]
  }

  predicate Edge(g: Graph, x: Item, y: Item) { Depends(g, x, y) || Inner(g, x, y) }

  ghost predicate Apart(path: seq<Item>) { forall i, j | 0 <= i < j < |path| :: path[i] != path[j] }

  // Each element leads to the one before it: loops are recorded on the way back from the recursive
  // calls.
  ghost predicate BackPath(g: Graph, path: seq<Item>) {
    forall k | 0 < k < |path| :: Edge(g, path[k], path[k - 1])
  }

  // Going to the choice of a symbol and straight back is no loop.
  ghost predicate Cycle(g: Graph, path: seq<Item>) {
    && path != [] && Apart(path) && BackPath(g, path) && Edge(g, path[0], path[|path| - 1])
    && (|path| == 2 ==> Depends(g, path[0], path[1]) || Depends(g, path[1], path[0]))
  }

  ghost predicate Acyclic(g: Graph) { forall path :: !Cycle(g, path) }

  // Without going through the choice again, a symbol of a choice leads to one listed before it.
  ghost predicate Backward(g: Graph) { exists c: nat, i: nat, j: nat, path :: LeadsBack(g, c, i, j, path) }

  ghost predicate LeadsBack(g: Graph, c: nat, i: nat, j: nat, path: seq<Item>) {
    && c < |g.members| && i < j < |g.members[c]| && |path| > 1
    && Apart(path) && BackPath(g, path) && ChoiceItem(c) !in path
    && path[0] == SymItem(g.members[c][i]) && path[|path| - 1] == SymItem(g.members[c][j])
  }

  // ----- The search -----

  datatype Search = Clear | Loop(path: seq<Item>) | Raised(path: seq<Item>)

  // The items with _visited == 1, and those with _visited == 2 in the order they got there
  datatype Colors = Colors(open: set<Item>, done: seq<Item>)

  function Open(k: Colors, x: Item): Colors { k.(open := k.open + {x}) }
  function Close(k: Colors, x: Item): Colors { Colors(k.open - {x}, k.done + [x]) }

  function Items(g: Graph): set<Item> {
    (set s: nat | s < |g.deps| :: SymItem(s)) + (set c: nat | c < |g.members| :: ChoiceItem(c))
  }

  ghost function Seen(k: Colors): set<Item> { k.open + set x | x in k.done }
  ghost function Unseen(g: Graph, k: Colors): nat { |Items(g) - Seen(k)| }

  ghost predicate Grows(k: Colors, e: Colors) { k.done <= e.done && Seen(k) <= Seen(e) }

  lemma FewerUnseen(g: Graph, k: Colors, e: Colors)
    requires Seen(k) <= Seen(e)
    ensures Unseen(g, e) <= Unseen(g, k)
    ensures forall x | Known(g, x) && x in Seen(e) && x !in Seen(k) :: Unseen(g, e) < Unseen(g, k)
  {
    var a, b := Items(g) - Seen(e), Items(g) - Seen(k);
    SubsetCard(a, b);
    forall x | Known(g, x) && x in Seen(e) && x !in Seen(k) ensures |a| < |b| {
      assert x in b && a <= b - {x};
      SubsetCard(a, b - {x});
    }
  }

  lemma {:induction false} SubsetCard(a: set<Item>, b: set<Item>)
    requires a <= b
    ensures |a| <= |b|
  {
    if a != {} {
      var x :| x in a;
      SubsetCard(a - {x}, b - {x});
    }
  }

  // _found_dep_loop
  function Found(r: Search, cur: Item): Search {
    if !r.Loop? || r.path == [] then r
    else if cur != r.path[0] then Loop(r.path + [cur])
    else Raised(r.path)
  }

  ghost function SearchSym(g: Graph, s: nat, ignore: bool, k: Colors): (r: (Search, Colors))
    requires GraphOk(g) && s < |g.deps|
    ensures Grows(k, r.1)
    decreases Unseen(g, k), 0, 0
  {
    var x := SymItem(s);
    if x in k.done then (Clear, k)
    else if x in k.open then (Loop([x]), k)
    else
      FewerUnseen(g, k, Open(k, x));
      var a := SearchDeps(g, s, 0, Open(k, x));
      FewerUnseen(g, Open(k, x), a.1);
      if a.0 != Clear then (Found(a.0, x), a.1)
      else if ignore || g.choice[s].None? then (Clear, Close(a.1, x))
      else
        var b := SearchChoice(g, g.choice[s].value, Some(s), a.1);
        if b.0 != Clear then (Found(b.0, x), b.1) else (Clear, Close(b.1, x))
  }

  // The loop over the dependents of s, from the one at j on
  ghost function SearchDeps(g: Graph, s: nat, j: nat, k: Colors): (r: (Search, Colors))
    requires GraphOk(g) && s < |g.deps| && j <= |g.deps[s]|
    ensures Grows(k, r.1)
    decreases Unseen(g, k), 1, |g.deps[s]| - j
  {
    if j == |g.deps[s]| then (Clear, k)
    else
      var y := g.deps[s][j];
      assert Known(g, y);
      var a := if y.ChoiceItem? then SearchChoice(g, y.choice, None, k) else SearchSym(g, y.sym, false, k);
      FewerUnseen(g, k, a.1);
      if a.0 != Clear then a else SearchDeps(g, s, j + 1, a.1)
  }

  ghost function SearchChoice(g: Graph, c: nat, skip: Option<nat>, k: Colors): (r: (Search, Colors))
    requires GraphOk(g) && c < |g.members|
    ensures Grows(k, r.1)
    decreases Unseen(g, k), 0, 0
  {
    var x := ChoiceItem(c);
    if x in k.done then (Clear, k)
    else if x in k.open then (Loop([x]), k)
    else
      FewerUnseen(g, k, Open(k, x));
      var a := SearchMembers(g, c, skip, 0, Open(k, x));
      if a.0 != Clear then (Found(a.0, x), a.1) else (Clear, Close(a.1, x))
  }

  // The loop over the symbols of c, from the one at j on
  ghost function SearchMembers(g: Graph, c: nat, skip: Option<nat>, j: nat, k: Colors): (r: (Search, Colors))
    requires GraphOk(g) && c < |g.members| && j <= |g.members[c]|
    ensures Grows(k, r.1)
    decreases Unseen(g, k), 1, |g.members[c]| - j
  {
    if j == |g.members[c]| then (Clear, k)
    else
      var s := g.members[c][j];
      IsMember(g, c, s);
      if skip == Some(s) then SearchMembers(g, c, skip, j + 1, k)
      else
        var a := SearchSym(g, s, true, k);
        FewerUnseen(g, k, a.1);
        if a.0 != Clear then a else SearchMembers(g, c, skip, j + 1, a.1)
  }

  // The loop over the defined symbols
  ghost function SearchAll(g: Graph, s: nat, k: Colors): (r: (Search, Colors))
    requires GraphOk(g) && s <= |g.deps|
    decreases |g.deps| - s
  {
    if s == |g.deps| then (Clear, k)
    else
      var a := SearchSym(g, s, false, k);
      if a.0 != Clear then a else SearchAll(g, s + 1, a.1)
  }

  // ----- One step at a time -----

  lemma SymUnfolds(g: Graph, s: nat, ignore: bool, k: Colors)
    requires GraphOk(g) && s < |g.deps|
    ensures
      var x := SymItem(s);
      SearchSym(g, s, ignore, k) ==
      if x in k.done then (Clear, k)
      else if x in k.open then (Loop([x]), k)
      else
        var a := SearchDeps(g, s, 0, Open(k, x));
        if a.0 != Clear then (Found(a.0, x), a.1)
        else if ignore || g.choice[s].None? then (Clear, Close(a.1, x))
        else
          var b := SearchChoice(g, g.choice[s].value, Some(s), a.1);
          if b.0 != Clear then (Found(b.0, x), b.1) else (Clear, Close(b.1, x))
  {
    hide SearchDeps, SearchChoice;
  }

  lemma ChoiceUnfolds(g: Graph, c: nat, skip: Option<nat>, k: Colors)
    requires GraphOk(g) && c < |g.members|
    ensures
      var x := ChoiceItem(c);
      SearchChoice(g, c, skip, k) ==
      if x in k.done then (Clear, k)
      else if x in k.open then (Loop([x]), k)
      else
        var a := SearchMembers(g, c, skip, 0, Open(k, x));
        if a.0 != Clear then (Found(a.0, x), a.1) else (Clear, Close(a.1, x))
  {
    hide SearchMembers;
  }

  lemma DepsStep(g: Graph, s: nat, j: nat, k: Colors)
    requires GraphOk(g) && s < |g.deps| && j <= |g.deps[s]|
    ensures j == |g.deps[s]| ==> SearchDeps(g, s, j, k) == (Clear, k)
    ensures j < |g.deps[s]| ==>
              && Known(g, g.deps[s][j])
              && SearchDeps(g, s, j, k) ==
                 var y := g.deps[s][j];
                 var a := if y.ChoiceItem? then SearchChoice(g, y.choice, None, k) else SearchSym(g, y.sym, false, k);
                 if a.0 != Clear then a else SearchDeps(g, s, j + 1, a.1)
  {
    hide SearchSym, SearchChoice;
    if j < |g.deps[s]| { assert g.deps[s][j] in g.deps[s]; }
  }

  lemma MembersStep(g: Graph, c: nat, skip: Option<nat>, j: nat, k: Colors)
    requires GraphOk(g) && c < |g.members| && j <= |g.members[c]|
    ensures j == |g.members[c]| ==> SearchMembers(g, c, skip, j, k) == (Clear, k)
    ensures j < |g.members[c]| ==>
              && g.members[c][j] < |g.deps|
              && SearchMembers(g, c, skip, j, k) ==
                 var s := g.members[c][j];
                 if skip == Some(s) then SearchMembers(g, c, skip, j + 1, k)
                 else
                   var a := SearchSym(g, s, true, k);
                   if a.0 != Clear then a else SearchMembers(g, c, skip, j + 1, a.1)
  {
    hide SearchSym;
  }

  lemma OpenFewer(g: Graph, k: Colors, x: Item)
    requires Known(g, x) && x !in k.open && x !in k.done
    ensures Unseen(g, Open(k, x)) < Unseen(g, k)
  {
    FewerUnseen(g, k, Open(k, x));
  }

  const UNSEEN := Colors({}, [])

  // The search with the _visited fields of the source
  class DepCheck {
    const graph: Graph
    // Symbol._visited and Choice._visited
    const symVisited: array<nat>
    const choiceVisited: array<nat>
    ghost var colors: Colors

    constructor (graph: Graph)
      requires GraphOk(graph)
      ensures Painted() && this.graph == graph && colors == UNSEEN && fresh(symVisited) && fresh(choiceVisited)
    {
      this.graph := graph;
      symVisited := new nat[|graph.deps|](_ => 0);
      choiceVisited := new nat[|graph.members|](_ => 0);
      colors := UNSEEN;
    }

    ghost function ColorOf(x: Item): nat
      reads `colors
    {
      if x in colors.done then 2 else if x in colors.open then 1 else 0
    }

    ghost predicate Painted()
      reads this, symVisited, choiceVisited
    {
      && GraphOk(graph) && symVisited.Length == |graph.deps| && choiceVisited.Length == |graph.members|
      && symVisited != choiceVisited
      && (forall s: nat | s < symVisited.Length :: symVisited[s] == ColorOf(SymItem(s)))
      && forall c: nat | c < choiceVisited.Length :: choiceVisited[c] == ColorOf(ChoiceItem(c))
    }

    // _check_dep_loop_sym
    method CheckSym(s: nat, ignoreChoice: bool) returns (r: Search)
      requires Painted() && s < |graph.deps|
      modifies symVisited, choiceVisited, `colors
      ensures Painted() && (r, colors) == SearchSym(graph, s, ignoreChoice, old(colors))
      decreases Unseen(graph, colors), 1
    {
      hide GraphOk, Unseen, Seen, Found, SearchSym, SearchDeps, SearchChoice;
      ChoiceKnown(graph, s);
      SymUnfolds(graph, s, ignoreChoice, colors);
      if symVisited[s] == 0 {
        OpenFewer(graph, colors, SymItem(s));
        symVisited[s], colors := 1, Open(colors, SymItem(s));
        ghost var started := colors;
        var loop := CheckDeps(s);
        if loop != Clear { return Found(loop, SymItem(s)); }
        if graph.choice[s].Some? && !ignoreChoice {
          FewerUnseen(graph, started, colors);
          loop := CheckChoice(graph.choice[s].value, Some(s));
          if loop != Clear { return Found(loop, SymItem(s)); }
        }
        symVisited[s], colors := 2, Close(colors, SymItem(s));
        return Clear;
      }
      if symVisited[s] == 2 { return Clear; }
      return Loop([SymItem(s)]);
    }

    // Its loop over the dependents
    method CheckDeps(s: nat) returns (r: Search)
      requires Painted() && s < |graph.deps|
      modifies symVisited, choiceVisited, `colors
      ensures Painted() && (r, colors) == SearchDeps(graph, s, 0, old(colors)) && Seen(old(colors)) <= Seen(colors)
      decreases Unseen(graph, colors), 2
    {
      hide GraphOk, Unseen, Seen, SearchSym, SearchDeps, SearchChoice;
      ghost var before := colors;
      var j := 0;
      while j < |graph.deps[s]|
        invariant j <= |graph.deps[s]| && Painted()
        invariant SearchDeps(graph, s, j, colors) == SearchDeps(graph, s, 0, before)
        invariant Seen(before) <= Seen(colors)
      {
        var dep := graph.deps[s][j];
        DepsStep(graph, s, j, colors);
        FewerUnseen(graph, before, colors);
        if dep.ChoiceItem? { r := CheckChoice(dep.choice, None); } else { r := CheckSym(dep.sym, false); }
        if r != Clear { return; }
        j := j + 1;
      }
      DepsStep(graph, s, j, colors);
      r := Clear;
    }

    // _check_dep_loop_choice
    method CheckChoice(c: nat, skip: Option<nat>) returns (r: Search)
      requires Painted() && c < |graph.members|
      modifies symVisited, choiceVisited, `colors
      ensures Painted() && (r, colors) == SearchChoice(graph, c, skip, old(colors))
      decreases Unseen(graph, colors), 1
    {
      hide GraphOk, Unseen, Seen, Found, SearchChoice, SearchMembers;
      ChoiceUnfolds(graph, c, skip, colors);
      if choiceVisited[c] == 0 {
        OpenFewer(graph, colors, ChoiceItem(c));
        choiceVisited[c], colors := 1, Open(colors, ChoiceItem(c));
        var loop := CheckMembers(c, skip);
        if loop != Clear { return Found(loop, ChoiceItem(c)); }
        choiceVisited[c], colors := 2, Close(colors, ChoiceItem(c));
        return Clear;
      }
      if choiceVisited[c] == 2 { return Clear; }
      return Loop([ChoiceItem(c)]);
    }

    // Its loop over the symbols of the choice
    method CheckMembers(c: nat, skip: Option<nat>) returns (r: Search)
      requires Painted() && c < |graph.members|
      modifies symVisited, choiceVisited, `colors
      ensures Painted() && (r, colors) == SearchMembers(graph, c, skip, 0, old(colors))
      decreases Unseen(graph, colors), 2
    {
      hide GraphOk, Unseen, Seen, SearchSym, SearchMembers;
      ghost var before := colors;
      var j := 0;
      while j < |graph.members[c]|
        invariant j <= |graph.members[c]| && Painted()
        invariant SearchMembers(graph, c, skip, j, colors) == SearchMembers(graph, c, skip, 0, before)
        invariant Seen(before) <= Seen(colors)
      {
        var s := graph.members[c][j];
        MembersStep(graph, c, skip, j, colors);
        if skip != Some(s) {
          FewerUnseen(graph, before, colors);
          r := CheckSym(s, true);
          if r != Clear { return; }
        }
        j := j + 1;
      }
      MembersStep(graph, c, skip, j, colors);
      r := Clear;
    }

    // The loop over the defined symbols in Kconfig.__init__
    method CheckAll() returns (r: Search)
      requires Painted() && colors == UNSEEN
      modifies symVisited, choiceVisited, `colors
      ensures Painted() && (r, colors) == SearchAll(graph, 0, UNSEEN)
    {
      var s := 0;
      while s < |graph.deps|
        invariant s <= |graph.deps| && Painted() && SearchAll(graph, s, colors) == SearchAll(graph, 0, UNSEEN)
      {
        r := CheckSym(s, false);
        if r != Clear { return; }
        s := s + 1;
      }
      r := Clear;
    }
  }
}

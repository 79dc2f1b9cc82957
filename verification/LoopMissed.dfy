// A loop through a choice that the dependency check does not see. The choice has the symbols V, Y
// and W; Z outside depends on W, and Y on Z. The search enters the choice through V, finishes Y on
// its behalf, and meets it again on the way from W.
module LoopMissed {
  import opened Options
  import opened KconfigModel
  import opened LoopCheck
  import opened LoopReports
  import opened LoopOrder

  const V := SymItem(0)
  const Y := SymItem(1)
  const W := SymItem(2)
  const Z := SymItem(3)
  const C := ChoiceItem(0)

  const MISSED := Graph([[], [], [Z], [Y]], [Some(0), Some(0), Some(0), None], [[0, 1, 2]])

  lemma MissedOk()
    ensures GraphOk(MISSED)
  {}

  // Y leads to W through the choice, W to Z, and Z to Y.
  lemma MissedLoop()
    ensures Cycle(MISSED, [Y, Z, W, C])
  {
    var path := [Y, Z, W, C];
    assert path[0] == Y && path[1] == Z && path[2] == W && path[3] == C;
  }

  // The search of Y and of W on behalf of the choice
  lemma SearchesY()
    ensures SearchSym(MISSED, 1, true, Colors({V, C}, [])) == (Clear, Colors({V, C}, [Y]))
  {
    MissedOk();
    SymUnfolds(MISSED, 1, true, Colors({V, C}, []));
    DepsStep(MISSED, 1, 0, Colors({V, C, Y}, []));
    assert {V, C} + {Y} == {V, C, Y} && {V, C, Y} - {Y} == {V, C} && [] + [Y] == [Y];
  }

  lemma SearchesW()
    ensures SearchSym(MISSED, 2, true, Colors({V, C}, [Y])) == (Clear, Colors({V, C}, [Y, Z, W]))
  {
    hide SearchSym, SearchDeps, SearchChoice;
    MissedOk();
    var k := Colors({V, C, W, Z}, [Y]);
    SymUnfolds(MISSED, 2, true, Colors({V, C}, [Y]));
    DepsStep(MISSED, 2, 0, Colors({V, C, W}, [Y]));
    SymUnfolds(MISSED, 3, false, Colors({V, C, W}, [Y]));
    DepsStep(MISSED, 3, 0, k);
    SymUnfolds(MISSED, 1, false, k);
    DepsStep(MISSED, 3, 1, k);
    DepsStep(MISSED, 2, 1, Colors({V, C, W}, [Y, Z]));
    assert {V, C} + {W} == {V, C, W} && {V, C, W} + {Z} == k.open;
    assert k.open - {Z} == {V, C, W} && {V, C, W} - {W} == {V, C};
    assert [Y] + [Z] == [Y, Z] && [Y, Z] + [W] == [Y, Z, W];
  }

  lemma SearchesV()
    ensures SearchSym(MISSED, 0, false, UNSEEN) == (Clear, Colors({}, [Y, Z, W, C, V]))
  {
    hide SearchSym, SearchDeps, SearchChoice, SearchMembers;
    MissedOk();
    SymUnfolds(MISSED, 0, false, UNSEEN);
    DepsStep(MISSED, 0, 0, Colors({V}, []));
    ChoiceUnfolds(MISSED, 0, Some(0), Colors({V}, []));
    MembersStep(MISSED, 0, Some(0), 0, Colors({V, C}, []));
    MembersStep(MISSED, 0, Some(0), 1, Colors({V, C}, []));
    SearchesY();
    MembersStep(MISSED, 0, Some(0), 2, Colors({V, C}, [Y]));
    SearchesW();
    MembersStep(MISSED, 0, Some(0), 3, Colors({V, C}, [Y, Z, W]));
    assert {} + {V} == {V} && {V} + {C} == {V, C} && {V, C} - {C} == {V} && {V} - {V} == {};
    assert [Y, Z, W] + [C] == [Y, Z, W, C] && [Y, Z, W, C] + [V] == [Y, Z, W, C, V];
  }

  // The check reports nothing, although there is a loop.
  lemma LoopIsMissed()
    ensures GraphOk(MISSED) && SearchAll(MISSED, 0, UNSEEN).0 == Clear
    ensures Cycle(MISSED, [Y, Z, W, C]) && Backward(MISSED)
  {
    hide SearchSym;
    var k := Colors({}, [Y, Z, W, C, V]);
    MissedOk();
    MissedLoop();
    SearchesV();
    SymUnfolds(MISSED, 1, false, k);
    SymUnfolds(MISSED, 2, false, k);
    SymUnfolds(MISSED, 3, false, k);
    assert SearchAll(MISSED, 4, k).0 == Clear;
    assert SearchAll(MISSED, 3, k).0 == Clear;
    assert SearchAll(MISSED, 2, k).0 == Clear;
    assert SearchAll(MISSED, 1, k).0 == Clear;
    CheckExact(MISSED);
  }
}

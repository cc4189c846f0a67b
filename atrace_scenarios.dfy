/**
 * Two complete runs of the interpreter of src/atrace/__init__.py on
 * concrete traces, worked out event by event: the program of
 * tests/test_functions.py `test_function`, and a function that assigns `x`
 * on its first line.
 */
module AtraceScenarios {
  import opened PyModel
  import opened TraceModel
  import opened Diffing
  import opened AtraceHistory
  import opened AtraceHistoryLemmas

  const M := ModuleScope
  const Empty: Symbols := []
  const GuardActivation := Activation(Empty, Some(GuardLoc))

  // ---------------------------------------------------------------------
  // `test_function`: `def double(a): result = a * 2; return result`, `x = double(3)`

  const A3: Symbols := [("a", Int(3))]
  const A3R6: Symbols := [("a", Int(3)), ("result", Int(6))]
  const X6: Symbols := [("x", Int(6))]
  const ModuleAt9 := Activation(Empty, Some(Loc(M, 9)))

  /** The trace the tracer records for the program. */
  const DoubleTrace: Trace :=
    [ (Loc(M, 0), Call(Empty, Empty)),
      (Loc(M, 1), Line(Empty, Empty)),
      (Loc(M, 4), Line(Empty, Empty)),
      (Loc(M, 9), Line(Empty, Empty)),
      (Loc("double", 4), Call(Empty, A3)),
      (Loc("double", 5), Line(Empty, A3)),
      (Loc("double", 6), Line(Empty, A3R6)),
      (Loc("double", 6), Return(Empty, A3R6, Int(6))),
      (Loc(M, 9), Return(X6, Empty, NoneValue)) ]

  /** The replay state before each event, and after the last. */
  const DoubleStates: seq<Replay> :=
    [ Start,
      Replay(Empty, [GuardActivation, Activation(Empty, None)]),
      Replay(Empty, [GuardActivation, Activation(Empty, Some(Loc(M, 1)))]),
      Replay(Empty, [GuardActivation, Activation(Empty, Some(Loc(M, 4)))]),
      Replay(Empty, [GuardActivation, ModuleAt9]),
      Replay(Empty, [GuardActivation, ModuleAt9, Activation(A3, None)]),
      Replay(Empty, [GuardActivation, ModuleAt9, Activation(A3, Some(Loc("double", 5)))]),
      Replay(Empty, [GuardActivation, ModuleAt9, Activation(A3R6, Some(Loc("double", 6)))]),
      Replay(Empty, [GuardActivation, ModuleAt9]),
      Replay(X6, [GuardActivation]) ]

  /** What each event yields. */
  const DoubleYields: seq<UnpackedHistory> :=
    [ [Assign(Loc(M, 0), [])],
      [],
      [Assign(Loc(M, 1), [])],
      [Assign(Loc(M, 4), [])],
      [Assign(Loc("double", 4), [(Var("double", "a"), Val(Int(3)))])],
      [],
      [Assign(Loc("double", 5), [(Var("double", "result"), Val(Int(6)))])],
      [Assign(Loc("double", 6), [])],
      [Assign(Loc(M, 9), [(Var(M, "x"), Val(Int(6)))])] ]

  const DoubleUnpacked: UnpackedHistory :=
    [ Assign(Loc(M, 0), []),
      Assign(Loc(M, 1), []),
      Assign(Loc(M, 4), []),
      Assign(Loc("double", 4), [(Var("double", "a"), Val(Int(3)))]),
      Assign(Loc("double", 5), [(Var("double", "result"), Val(Int(6)))]),
      Assign(Loc("double", 6), []),
      Assign(Loc(M, 9), [(Var(M, "x"), Val(Int(6)))]) ]

  /** How many unpacked items the first `k` events yield. */
  const DoubleMarks: seq<nat> := [0, 1, 1, 2, 3, 4, 4, 5, 6, 7]

  /** The joined history after the zero-line filter. */
  const DoubleNonZero: History :=
    [ Item(Loc(M, 1), [], None),
      Item(Loc(M, 4), [], None),
      Item(Loc("double", 4), [(Var("double", "a"), Val(Int(3)))], None),
      Item(Loc("double", 5), [(Var("double", "result"), Val(Int(6)))], None),
      Item(Loc("double", 6), [], None),
      Item(Loc(M, 9), [(Var(M, "x"), Val(Int(6)))], None) ]

  lemma DoubleStep0() ensures Step(DoubleStates[0], DoubleTrace[0].0, DoubleTrace[0].1) == Ok((DoubleStates[1], DoubleYields[0])) {
    assert Start.activations + [Activation(Empty, None)] == DoubleStates[1].activations;
  }
  lemma DoubleStep1() ensures Step(DoubleStates[1], DoubleTrace[1].0, DoubleTrace[1].1) == Ok((DoubleStates[2], DoubleYields[1])) {
    assert DoubleStates[1].activations[..1] + [Activation(Empty, Some(Loc(M, 1)))] == DoubleStates[2].activations;
  }
  lemma DoubleStep2() ensures Step(DoubleStates[2], DoubleTrace[2].0, DoubleTrace[2].1) == Ok((DoubleStates[3], DoubleYields[2])) {
    assert DiffOf(M, Empty, Empty) == [];
    assert DoubleStates[2].activations[..1] + [Activation(Empty, Some(Loc(M, 4)))] == DoubleStates[3].activations;
  }
  lemma DoubleStep3() ensures Step(DoubleStates[3], DoubleTrace[3].0, DoubleTrace[3].1) == Ok((DoubleStates[4], DoubleYields[3])) {
    assert DiffOf(M, Empty, Empty) == [];
    assert DoubleStates[3].activations[..1] + [ModuleAt9] == DoubleStates[4].activations;
  }
  lemma DoubleStep4() ensures Step(DoubleStates[4], DoubleTrace[4].0, DoubleTrace[4].1) == Ok((DoubleStates[5], DoubleYields[4])) {
    assert DoubleStates[4].activations + [Activation(A3, None)] == DoubleStates[5].activations;
  }
  lemma DoubleStep5() ensures Step(DoubleStates[5], DoubleTrace[5].0, DoubleTrace[5].1) == Ok((DoubleStates[6], DoubleYields[5])) {
    assert DoubleStates[5].activations[..2] + [Activation(A3, Some(Loc("double", 5)))] == DoubleStates[6].activations;
  }
  lemma DoubleDiff6() ensures DiffOf("double", A3, A3R6) == [(Var("double", "result"), Val(Int(6)))] {
    assert A3R6[..1] == A3;
    assert Changed("double", A3, A3) == [];
    assert "a" in Keys(A3R6);
  }
  lemma DoubleStep6() ensures Step(DoubleStates[6], DoubleTrace[6].0, DoubleTrace[6].1) == Ok((DoubleStates[7], DoubleYields[6])) {
    DoubleDiff6();
    assert DiffOf(M, Empty, Empty) == [];
    assert DoubleStates[6].activations[..2] + [Activation(A3R6, Some(Loc("double", 6)))] == DoubleStates[7].activations;
  }
  lemma DoubleStep7() ensures Step(DoubleStates[7], DoubleTrace[7].0, DoubleTrace[7].1) == Ok((DoubleStates[8], DoubleYields[7])) {
    DiffOfSame("double", A3R6);
    assert DiffOf(M, Empty, Empty) == [];
    assert DoubleStates[7].activations[..2] == DoubleStates[8].activations;
  }
  lemma DoubleStep8() ensures Step(DoubleStates[8], DoubleTrace[8].0, DoubleTrace[8].1) == Ok((DoubleStates[9], DoubleYields[8])) {
    assert DiffOf(M, Empty, Empty) == [];
    assert DiffOf(M, Empty, X6) == DoubleYields[8][0].assignments;
    assert DoubleStates[8].activations[..1] == DoubleStates[9].activations;
  }

  lemma {:induction false} DoubleStepAt(i: nat)
    requires i < 9
    ensures Step(DoubleStates[i], DoubleTrace[i].0, DoubleTrace[i].1) == Ok((DoubleStates[i + 1], DoubleYields[i]))
    ensures DoubleUnpacked[..DoubleMarks[i]] + DoubleYields[i] == DoubleUnpacked[..DoubleMarks[i + 1]]
  {
    if i == 0 { DoubleStep0(); } else if i == 1 { DoubleStep1(); } else if i == 2 { DoubleStep2(); }
    else if i == 3 { DoubleStep3(); } else if i == 4 { DoubleStep4(); } else if i == 5 { DoubleStep5(); }
    else if i == 6 { DoubleStep6(); } else if i == 7 { DoubleStep7(); } else { DoubleStep8(); }
  }

  lemma {:induction false} DoubleRunPrefix(k: nat)
    requires k <= 9
    ensures Run(DoubleTrace[..k]) == Ok((DoubleStates[k], DoubleUnpacked[..DoubleMarks[k]]))
  {
    if k > 0 {
      DoubleRunPrefix(k - 1);
      RunSnoc(DoubleTrace, k - 1);
      DoubleStepAt(k - 1);
    }
  }

  lemma {:induction false} DoubleJoinedNonZero()
    ensures FilterZeroLines(Join(DoubleUnpacked)) == DoubleNonZero
  {
    JoinWithoutText(DoubleUnpacked);
    var h := Join(DoubleUnpacked)[1..];
    assert h == DoubleNonZero;
    FilterAll(h, (item: HistoryItem) => item.loc.lineNo != 0);
  }

  lemma {:induction false} DoubleNoFunctions()
    ensures FilterFunctionAssignment(DoubleNonZero) == DoubleNonZero
  {
    var h := DoubleNonZero;
    forall k | 0 <= k < |h|
      ensures RemoveFunctions(h[k].assignments) == h[k].assignments
    {
      SelectAll(h[k].assignments, (_: Var, val: Assigned) => !IsCallableAssigned(val));
    }
  }

  /** `_filter_no_effect` on a history whose items 2, 3 and 5 alone have an effect */
  lemma {:induction false} EffectivePattern(h: History)
    requires |h| == 6 && !HasEffect(h[0]) && !HasEffect(h[1]) && HasEffect(h[2]) && HasEffect(h[3]) && !HasEffect(h[4]) && HasEffect(h[5])
    ensures Filter(h, HasEffect) == [h[2], h[3], h[5]]
  {
    assert h[6..] == [];
    FilterKeepFrom(h, HasEffect, 5, []);
    FilterDropFrom(h, HasEffect, 4, [h[5]]);
    FilterKeepFrom(h, HasEffect, 3, [h[5]]);
    FilterKeepFrom(h, HasEffect, 2, [h[3]] + [h[5]]);
    FilterDropFrom(h, HasEffect, 1, [h[2]] + ([h[3]] + [h[5]]));
    FilterSkip(h, HasEffect, 1);
  }

  lemma {:induction false} DoubleEffective()
    ensures FilterNoEffect(DoubleNonZero) == [DoubleNonZero[2], DoubleNonZero[3], DoubleNonZero[5]]
  {
    EffectivePattern(DoubleNonZero);
  }

  /**
   * With the filters `_dump_report` uses, the history of `test_function` is
   * the parameter binding, the local assignment and the global assignment.
   */
  lemma {:induction false} DoubleHistory()
    ensures HistoryOf(DoubleTrace, FUNCTION_ASSIGNMENT | NO_EFFECT) ==
            Ok([ Item(Loc("double", 4), [(Var("double", "a"), Val(Int(3)))], None),
                 Item(Loc("double", 5), [(Var("double", "result"), Val(Int(6)))], None),
                 Item(Loc(M, 9), [(Var(M, "x"), Val(Int(6)))], None) ])
  {
    DoubleRunPrefix(9);
    assert DoubleTrace[..9] == DoubleTrace;
    assert DoubleUnpacked[..7] == DoubleUnpacked;
    DoubleJoinedNonZero();
    DoubleNoFunctions();
    DoubleEffective();
  }

  // ---------------------------------------------------------------------
  // A function whose first line assigns `x = 0` and which then returns.

  const X0: Symbols := [("x", Int(0))]

  const AssignTrace: Trace :=
    [ (Loc("fn", 0), Call(Empty, Empty)),
      (Loc("fn", 1), Line(Empty, Empty)),
      (Loc("fn", 3), Line(Empty, X0)),
      (Loc("fn", 3), Return(Empty, X0, NoneValue)) ]

  const AssignStates: seq<Replay> :=
    [ Start,
      Replay(Empty, [GuardActivation, Activation(Empty, None)]),
      Replay(Empty, [GuardActivation, Activation(Empty, Some(Loc("fn", 1)))]),
      Replay(Empty, [GuardActivation, Activation(X0, Some(Loc("fn", 3)))]),
      Replay(Empty, [GuardActivation]) ]

  const AssignYields: seq<UnpackedHistory> :=
    [ [Assign(Loc("fn", 0), [])],
      [],
      [Assign(Loc("fn", 1), [(Var("fn", "x"), Val(Int(0)))])],
      [Assign(Loc("fn", 3), [])] ]

  const AssignUnpacked: UnpackedHistory :=
    [ Assign(Loc("fn", 0), []),
      Assign(Loc("fn", 1), [(Var("fn", "x"), Val(Int(0)))]),
      Assign(Loc("fn", 3), []) ]

  const AssignMarks: seq<nat> := [0, 1, 1, 2, 3]

  lemma {:induction false} AssignStepAt(i: nat)
    requires i < 4
    ensures Step(AssignStates[i], AssignTrace[i].0, AssignTrace[i].1) == Ok((AssignStates[i + 1], AssignYields[i]))
    ensures AssignUnpacked[..AssignMarks[i]] + AssignYields[i] == AssignUnpacked[..AssignMarks[i + 1]]
  {
    if i == 0 {
      assert Start.activations + [Activation(Empty, None)] == AssignStates[1].activations;
    } else if i == 1 {
      assert AssignStates[1].activations[..1] + [Activation(Empty, Some(Loc("fn", 1)))] == AssignStates[2].activations;
    } else if i == 2 {
      assert DiffOf(M, Empty, Empty) == [];
      assert DiffOf("fn", Empty, X0) == AssignYields[2][0].assignments;
      assert AssignStates[2].activations[..1] + [Activation(X0, Some(Loc("fn", 3)))] == AssignStates[3].activations;
    } else {
      assert DiffOf(M, Empty, Empty) == [];
      DiffOfSame("fn", X0);
      assert AssignStates[3].activations[..1] == AssignStates[4].activations;
    }
  }

  lemma {:induction false} AssignRunPrefix(k: nat)
    requires k <= 4
    ensures Run(AssignTrace[..k]) == Ok((AssignStates[k], AssignUnpacked[..AssignMarks[k]]))
  {
    if k > 0 {
      AssignRunPrefix(k - 1);
      RunSnoc(AssignTrace, k - 1);
      AssignStepAt(k - 1);
    }
  }

  const AssignNonZero: History :=
    [ Item(Loc("fn", 1), [(Var("fn", "x"), Val(Int(0)))], None),
      Item(Loc("fn", 3), [], None) ]

  lemma {:induction false} AssignJoinedNonZero()
    ensures FilterZeroLines(Join(AssignUnpacked)) == AssignNonZero
  {
    JoinWithoutText(AssignUnpacked);
    var h := Join(AssignUnpacked)[1..];
    assert h == AssignNonZero;
    FilterAll(h, (item: HistoryItem) => item.loc.lineNo != 0);
  }

  lemma {:induction false} AssignEffective()
    ensures FilterNoEffect(AssignNonZero) == [AssignNonZero[0]]
  {
    var h := AssignNonZero;
    assert Filter(h[1..], HasEffect) == [] by { assert h[1..][1..] == []; }
  }

  /**
   * The assignment `x = 0` is credited to line 1, the line that ran it (the
   * `Line` event of line 3 reveals it), and the empty items at the call
   * and the return are filtered out.
   */
  lemma {:induction false} AssignHistory()
    ensures HistoryOf(AssignTrace, NO_EFFECT) == Ok([Item(Loc("fn", 1), [(Var("fn", "x"), Val(Int(0)))], None)])
  {
    AssignRunPrefix(4);
    assert AssignTrace[..4] == AssignTrace;
    assert AssignUnpacked[..3] == AssignUnpacked;
    AssignJoinedNonZero();
    AssignEffective();
  }
}

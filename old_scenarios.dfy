/**
 * The `test_function` run of tests/test_functions.py through the
 * interpreter of src/atrace/analyzer.py, which is the one that test calls:
 * nine unpacked items, one per event, which `pack_history` reduces to the
 * three the test expects.
 */
module OldScenarios {
  import opened PyModel
  import opened TraceModel
  import opened Diffing
  import opened AtraceHistory
  import opened AtraceHistoryLemmas
  import opened AtraceScenarios
  import opened OldAnalyzer

  const OldGuard := OldActivation(Empty, GuardLoc)
  const OldModuleAt9 := OldActivation(Empty, Loc(M, 9))

  const OldDoubleStates: seq<OldReplay> :=
    [ OldStart,
      OldReplay(Empty, [OldGuard, OldActivation(Empty, Loc(M, 0))]),
      OldReplay(Empty, [OldGuard, OldActivation(Empty, Loc(M, 1))]),
      OldReplay(Empty, [OldGuard, OldActivation(Empty, Loc(M, 4))]),
      OldReplay(Empty, [OldGuard, OldModuleAt9]),
      OldReplay(Empty, [OldGuard, OldModuleAt9, OldActivation(A3, Loc("double", 4))]),
      OldReplay(Empty, [OldGuard, OldModuleAt9, OldActivation(A3, Loc("double", 5))]),
      OldReplay(Empty, [OldGuard, OldModuleAt9, OldActivation(A3R6, Loc("double", 6))]),
      OldReplay(Empty, [OldGuard, OldModuleAt9]),
      OldReplay(X6, [OldGuard]) ]

  /** One item per event; the item of the first line of `double` is at its `def` line. */
  const OldDoubleUnpacked: UnpackedHistory :=
    [ Assign(Loc(M, 0), []),
      Assign(Loc(M, 0), []),
      Assign(Loc(M, 1), []),
      Assign(Loc(M, 4), []),
      Assign(Loc("double", 4), [(Var("double", "a"), Val(Int(3)))]),
      Assign(Loc("double", 4), []),
      Assign(Loc("double", 5), [(Var("double", "result"), Val(Int(6)))]),
      Assign(Loc("double", 6), []),
      Assign(Loc(M, 9), [(Var(M, "x"), Val(Int(6)))]) ]

  lemma OldDoubleStep0() ensures OldStep(OldDoubleStates[0], DoubleTrace[0].0, DoubleTrace[0].1) == Ok((OldDoubleStates[1], [OldDoubleUnpacked[0]])) {
    assert OldStart.activations + [OldActivation(Empty, Loc(M, 0))] == OldDoubleStates[1].activations;
  }
  lemma OldDoubleStep1() ensures OldStep(OldDoubleStates[1], DoubleTrace[1].0, DoubleTrace[1].1) == Ok((OldDoubleStates[2], [OldDoubleUnpacked[1]])) {
    assert DiffOf(M, Empty, Empty) == [];
    assert OldDoubleStates[1].activations[..1] + [OldActivation(Empty, Loc(M, 1))] == OldDoubleStates[2].activations;
  }
  lemma OldDoubleStep2() ensures OldStep(OldDoubleStates[2], DoubleTrace[2].0, DoubleTrace[2].1) == Ok((OldDoubleStates[3], [OldDoubleUnpacked[2]])) {
    assert DiffOf(M, Empty, Empty) == [];
    assert OldDoubleStates[2].activations[..1] + [OldActivation(Empty, Loc(M, 4))] == OldDoubleStates[3].activations;
  }
  lemma OldDoubleStep3() ensures OldStep(OldDoubleStates[3], DoubleTrace[3].0, DoubleTrace[3].1) == Ok((OldDoubleStates[4], [OldDoubleUnpacked[3]])) {
    assert DiffOf(M, Empty, Empty) == [];
    assert OldDoubleStates[3].activations[..1] + [OldModuleAt9] == OldDoubleStates[4].activations;
  }
  lemma OldDoubleStep4() ensures OldStep(OldDoubleStates[4], DoubleTrace[4].0, DoubleTrace[4].1) == Ok((OldDoubleStates[5], [OldDoubleUnpacked[4]])) {
    assert OldDoubleStates[4].activations + [OldActivation(A3, Loc("double", 4))] == OldDoubleStates[5].activations;
  }
  lemma OldDoubleStep5() ensures OldStep(OldDoubleStates[5], DoubleTrace[5].0, DoubleTrace[5].1) == Ok((OldDoubleStates[6], [OldDoubleUnpacked[5]])) {
    DiffOfSame("double", A3);
    assert DiffOf(M, Empty, Empty) == [];
    assert OldDoubleStates[5].activations[..2] + [OldActivation(A3, Loc("double", 5))] == OldDoubleStates[6].activations;
  }
  lemma OldDoubleStep6() ensures OldStep(OldDoubleStates[6], DoubleTrace[6].0, DoubleTrace[6].1) == Ok((OldDoubleStates[7], [OldDoubleUnpacked[6]])) {
    assert A3R6[..1] == A3;
    assert Changed("double", A3, A3) == [];
    assert "a" in Keys(A3R6);
    assert DiffOf("double", A3, A3R6) == OldDoubleUnpacked[6].assignments;
    assert DiffOf(M, Empty, Empty) == [];
    assert OldDoubleStates[6].activations[..2] + [OldActivation(A3R6, Loc("double", 6))] == OldDoubleStates[7].activations;
  }
  lemma OldDoubleStep7() ensures OldStep(OldDoubleStates[7], DoubleTrace[7].0, DoubleTrace[7].1) == Ok((OldDoubleStates[8], [OldDoubleUnpacked[7]])) {
    DiffOfSame("double", A3R6);
    assert DiffOf(M, Empty, Empty) == [];
    assert OldDoubleStates[7].activations[..2] == OldDoubleStates[8].activations;
  }
  lemma OldDoubleStep8() ensures OldStep(OldDoubleStates[8], DoubleTrace[8].0, DoubleTrace[8].1) == Ok((OldDoubleStates[9], [OldDoubleUnpacked[8]])) {
    assert DiffOf(M, Empty, Empty) == [];
    assert DiffOf(M, Empty, X6) == OldDoubleUnpacked[8].assignments;
    assert OldDoubleStates[8].activations[..1] == OldDoubleStates[9].activations;
  }

  lemma {:induction false} OldDoubleStepAt(i: nat)
    requires i < 9
    ensures OldStep(OldDoubleStates[i], DoubleTrace[i].0, DoubleTrace[i].1) == Ok((OldDoubleStates[i + 1], [OldDoubleUnpacked[i]]))
  {
    if i == 0 { OldDoubleStep0(); } else if i == 1 { OldDoubleStep1(); } else if i == 2 { OldDoubleStep2(); }
    else if i == 3 { OldDoubleStep3(); } else if i == 4 { OldDoubleStep4(); } else if i == 5 { OldDoubleStep5(); }
    else if i == 6 { OldDoubleStep6(); } else if i == 7 { OldDoubleStep7(); } else { OldDoubleStep8(); }
  }

  lemma {:induction false} OldDoubleRunPrefix(k: nat)
    requires k <= 9
    ensures OldRun(DoubleTrace[..k]) == Ok((OldDoubleStates[k], OldDoubleUnpacked[..k]))
  {
    if k > 0 {
      OldDoubleRunPrefix(k - 1);
      OldRunSnoc(DoubleTrace, k - 1);
      OldDoubleStepAt(k - 1);
      PrefixSnoc(OldDoubleUnpacked, k - 1);
    }
  }

  const OldDoubleJoined: History :=
    [ Item(Loc(M, 0), [], None),
      Item(Loc(M, 0), [], None),
      Item(Loc(M, 1), [], None),
      Item(Loc(M, 4), [], None),
      Item(Loc("double", 4), [(Var("double", "a"), Val(Int(3)))], None),
      Item(Loc("double", 4), [], None),
      Item(Loc("double", 5), [(Var("double", "result"), Val(Int(6)))], None),
      Item(Loc("double", 6), [], None),
      Item(Loc(M, 9), [(Var(M, "x"), Val(Int(6)))], None) ]

  /** Both items at the `def` line of `double` stay: nothing is merged without output. */
  lemma {:induction false} OldDoubleJoin()
    ensures Join(OldDoubleUnpacked) == OldDoubleJoined
  {
    JoinWithoutText(OldDoubleUnpacked);
  }

  lemma {:induction false} OldDoubleEffectiveTail()
    ensures Filter(OldDoubleJoined[4..], HasEffect) == [OldDoubleJoined[4], OldDoubleJoined[6], OldDoubleJoined[8]]
  {
    var h := OldDoubleJoined;
    assert h[9..] == [];
    FilterKeepFrom(h, HasEffect, 8, []);
    FilterDropFrom(h, HasEffect, 7, [h[8]]);
    FilterKeepFrom(h, HasEffect, 6, [h[8]]);
    FilterDropFrom(h, HasEffect, 5, [h[6]] + [h[8]]);
    FilterKeepFrom(h, HasEffect, 4, [h[6]] + [h[8]]);
  }

  lemma {:induction false} OldDoubleEffective()
    ensures FilterNoEffect(OldDoubleJoined) == [OldDoubleJoined[4], OldDoubleJoined[6], OldDoubleJoined[8]]
  {
    FilterSkip(OldDoubleJoined, HasEffect, 4);
    OldDoubleEffectiveTail();
  }

  /**
   * `trace_to_history` of src/atrace/analyzer.py on the trace of
   * `test_function` is exactly the history the test expects: the parameter,
   * the local assignment and the global assignment.
   */
  lemma {:induction false} OldDoubleHistory()
    ensures OldHistoryOf(DoubleTrace) ==
            Ok([ Item(Loc("double", 4), [(Var("double", "a"), Val(Int(3)))], None),
                 Item(Loc("double", 5), [(Var("double", "result"), Val(Int(6)))], None),
                 Item(Loc(M, 9), [(Var(M, "x"), Val(Int(6)))], None) ])
  {
    OldDoubleRunPrefix(9);
    assert DoubleTrace[..9] == DoubleTrace;
    assert OldDoubleUnpacked[..9] == OldDoubleUnpacked;
    OldDoubleJoin();
    OldDoubleEffective();
  }
}

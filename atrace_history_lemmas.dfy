/**
 * What the interpreter of src/atrace/__init__.py guarantees: the shape of
 * the simulated stack, what each event reports and where, that no printed
 * text is lost or reordered, that coalescing keeps every assignment, and
 * what the filters leave in the history.
 */
module AtraceHistoryLemmas {
  import opened PyModel
  import opened TraceModel
  import opened Diffing
  import opened AtraceHistory

  // ---------------------------------------------------------------------
  // The stack

  /** The stack holds the guard plus one activation per call not yet returned. */
  lemma {:induction false} StackDepth(t: Trace)
    requires Run(t).Ok?
    ensures |Run(t).value.0.activations| == 1 + Calls(t) - Returns(t)
    decreases |t|
  {
    if t != [] {
      StackDepth(t[..|t| - 1]);
    }
  }

  /** Every `Line` and `Return` of `t` comes while a call is open above the guard. */
  predicate AboveGuard(t: Trace) {
    forall k :: 0 <= k < |t| && (t[k].1.Line? || t[k].1.Return?) ==> Returns(t[..k]) < Calls(t[..k])
  }

  /**
   * While every `Line` and `Return` belongs to an open call, the replay
   * never fails, and the bottom of the stack is still the guard activation,
   * with no locals and `(guard, 0)` as its pending location, under one
   * activation per open call.
   */
  lemma {:induction false} GuardStaysAtBottom(t: Trace)
    requires AboveGuard(t)
    ensures Run(t).Ok? && Returns(t) <= Calls(t)
    ensures |Run(t).value.0.activations| == 1 + Calls(t) - Returns(t)
    ensures Run(t).value.0.activations[0] == Activation([], Some(GuardLoc))
    decreases |t|
  {
    if t != [] {
      var i := |t| - 1;
      var front := t[..i];
      forall k | 0 <= k < |front| && (front[k].1.Line? || front[k].1.Return?)
        ensures Returns(front[..k]) < Calls(front[..k])
      {
        assert front[..k] == t[..k];
      }
      GuardStaysAtBottom(front);
      assert t[..i + 1] == t;
      var (r, h) := Run(front).value;
      if t[i].1.Call? {
        RunCall(t, i, r, h);
      } else if t[i].1.Line? || t[i].1.Return? {
        RunLineOrReturn(t, i, r, h);
      } else {
        RunOther(t, i, r, h);
      }
    }
  }

  /** A trace that never returns more often than it calls is replayed without error. */
  lemma {:induction false} BalancedTraceReplays(t: Trace)
    requires Balanced(t)
    ensures Run(t).Ok?
    decreases |t|
  {
    if t != [] {
      var front := t[..|t| - 1];
      forall k | 0 <= k < |front|
        ensures Returns(front[..k]) <= Calls(front[..k])
      {
        assert front[..k] == t[..k];
      }
      BalancedTraceReplays(front);
      StackDepth(front);
      assert t[..|front|] == front;
    }
  }

  /** After the guard itself has been popped, the next `Line` raises `IndexError`. */
  lemma {:induction false} LineAfterGuardPopFails(t: Trace, loc: Loc, globs: Symbols, locs: Symbols)
    requires Run(t).Ok? && Returns(t) == Calls(t) + 1
    ensures Run(t + [(loc, Line(globs, locs))]) == Err(IndexError)
  {
    StackDepth(t);
    assert (t + [(loc, Line(globs, locs))])[..|t|] == t;
  }

  // ---------------------------------------------------------------------
  // What one event reports

  /**
   * The entry for `w` in what a `Line` or `Return` reports: the change of a
   * global if there is one (`|` lets the right operand win), else the change
   * of a local of the current function.
   */
  function RevealedEntry(scope: string, localsBefore: Symbols, localsAfter: Symbols,
                         globalsBefore: Symbols, globalsAfter: Symbols, w: Var): Option<Assigned> {
    var g := Expected(ModuleScope, globalsBefore, globalsAfter, w);
    if g.Some? then g else Expected(scope, localsBefore, localsAfter, w)
  }

  /** The snapshots involved in a `Line` or `Return` step are dictionaries. */
  predicate StepSnapshots(r: Replay, globs: Symbols, locs: Symbols) {
    r.activations != [] && IsDict(r.activations[|r.activations| - 1].locals) &&
    IsDict(r.currentGlobals) && IsDict(globs) && IsDict(locs)
  }

  lemma {:induction false} RevealedGet(r: Replay, loc: Loc, globs: Symbols, locs: Symbols, w: Var)
    requires StepSnapshots(r, globs, locs)
    ensures Get(Revealed(r, loc, globs, locs), w) ==
            RevealedEntry(loc.functionName, r.activations[|r.activations| - 1].locals, locs, r.currentGlobals, globs, w)
  {
    var top := r.activations[|r.activations| - 1];
    DiffGet(loc.functionName, top.locals, locs, w);
    DiffGet(ModuleScope, r.currentGlobals, globs, w);
    GetUnion(DiffOf(loc.functionName, top.locals, locs), DiffOf(ModuleScope, r.currentGlobals, globs), w);
  }

  /**
   * A `Call` reports, at the call's own location, exactly the bound
   * parameters in the callee's scope; it pushes an activation that awaits
   * nothing and leaves the globals alone.
   */
  lemma {:induction false} CallReportsParameters(r: Replay, loc: Loc, globs: Symbols, locs: Symbols, w: Var)
    requires IsDict(locs)
    ensures Step(r, loc, Call(globs, locs)).Ok?
    ensures var (r', y) := Step(r, loc, Call(globs, locs)).value;
            |y| == 1 && y[0].Assign? && y[0].loc == loc &&
            Get(y[0].assignments, w) ==
              (if w.scope == loc.functionName && Get(locs, w.name).Some? then Some(Val(Get(locs, w.name).value)) else None) &&
            r'.currentGlobals == r.currentGlobals && r'.activations == r.activations + [Activation(locs, None)]
  {
    DiffGet(loc.functionName, [], locs, w);
  }

  /**
   * A `Line` reports the effect of the line the top activation was waiting
   * on (nothing if it waits on none) and the top activation then waits on
   * this line, with the new locals; the globals become the new snapshot.
   */
  lemma {:induction false} LineReportsAwaitedLine(r: Replay, loc: Loc, globs: Symbols, locs: Symbols, w: Var)
    requires StepSnapshots(r, globs, locs)
    ensures Step(r, loc, Line(globs, locs)).Ok?
    ensures var n := |r.activations| - 1;
            var top := r.activations[n];
            var (r', y) := Step(r, loc, Line(globs, locs)).value;
            (y == [] <==> top.locAwaitingAssignments.None?) &&
            (y != [] ==> |y| == 1 && y[0].Assign? && y[0].loc == top.locAwaitingAssignments.value &&
                         Get(y[0].assignments, w) == RevealedEntry(loc.functionName, top.locals, locs, r.currentGlobals, globs, w)) &&
            r' == Replay(globs, r.activations[..n] + [Activation(locs, Some(loc))])
  {
    RevealedGet(r, loc, globs, locs, w);
  }

  /**
   * A `Return` reports like a `Line`, then pops the top activation: the
   * caller's activation is on top again, unchanged.
   */
  lemma {:induction false} ReturnPopsActivation(r: Replay, loc: Loc, globs: Symbols, locs: Symbols, v: Value, w: Var)
    requires StepSnapshots(r, globs, locs)
    ensures Step(r, loc, Return(globs, locs, v)).Ok?
    ensures var n := |r.activations| - 1;
            var top := r.activations[n];
            var (r', y) := Step(r, loc, Return(globs, locs, v)).value;
            (y == [] <==> top.locAwaitingAssignments.None?) &&
            (y != [] ==> |y| == 1 && y[0].Assign? && y[0].loc == top.locAwaitingAssignments.value &&
                         Get(y[0].assignments, w) == RevealedEntry(loc.functionName, top.locals, locs, r.currentGlobals, globs, w)) &&
            r' == Replay(globs, r.activations[..n])
  {
    RevealedGet(r, loc, globs, locs, w);
  }

  /** A variable whose value did not change between two lines is not reported again. */
  lemma {:induction false} UnchangedNotReported(r: Replay, loc: Loc, globs: Symbols, locs: Symbols, name: string)
    requires StepSnapshots(r, globs, locs)
    requires Get(r.activations[|r.activations| - 1].locals, name) == Get(locs, name)
    requires Get(r.currentGlobals, name) == Get(globs, name)
    ensures Get(Revealed(r, loc, globs, locs), Var(loc.functionName, name)) == None
    ensures Get(Revealed(r, loc, globs, locs), Var(ModuleScope, name)) == None
  {
    RevealedGet(r, loc, globs, locs, Var(loc.functionName, name));
    RevealedGet(r, loc, globs, locs, Var(ModuleScope, name));
  }

  // ---------------------------------------------------------------------
  // Output is kept, in order

  lemma {:induction false} StepOutput(r: Replay, loc: Loc, e: Event)
    requires Step(r, loc, e).Ok?
    ensures UnpackedOutput(Step(r, loc, e).value.1) == if e.Output? then e.text else []
  {
    var y := Step(r, loc, e).value.1;
    if e.Output? {
      assert y == [Text(loc, e.text)];
      assert y[1..] == [];
    } else if y != [] {
      assert y[1..] == [];
    }
  }

  /** The texts of the unpacked history are the texts printed, in order. */
  lemma {:induction false} UnpackKeepsOutput(t: Trace)
    requires Unpack(t).Ok?
    ensures UnpackedOutput(Unpack(t).value) == TraceOutput(t)
    decreases |t|
  {
    if t == [] {
    } else {
      var front := t[..|t| - 1];
      var (loc, e) := t[|t| - 1];
      UnpackKeepsOutput(front);
      var (r, h) := Run(front).value;
      StepOutput(r, loc, e);
      UnpackedOutputAppend(h, Step(r, loc, e).value.1);
    }
  }

  /** Text items sit where the program printed: none at line 0 if nothing was printed at line 0. */
  lemma {:induction false} UnpackTextLocation(t: Trace)
    requires Unpack(t).Ok?
    requires forall i :: 0 <= i < |t| && t[i].1.Output? ==> t[i].0.lineNo != 0
    ensures forall k :: 0 <= k < |Unpack(t).value| && Unpack(t).value[k].Text? ==> Unpack(t).value[k].loc.lineNo != 0
    decreases |t|
  {
    if t != [] {
      var front := t[..|t| - 1];
      var (loc, e) := t[|t| - 1];
      forall i | 0 <= i < |front| && front[i].1.Output?
        ensures front[i].0.lineNo != 0
      {
        assert front[i] == t[i];
      }
      UnpackTextLocation(front);
      var (r, h) := Run(front).value;
      var y := Step(r, loc, e).value.1;
      assert Unpack(t).value == h + y;
      forall k | 0 <= k < |y| && y[k].Text?
        ensures y[k].loc.lineNo != 0
      {
        assert e.Output? && y[k].loc == loc;
      }
    }
  }

  lemma {:induction false} JoinRunOutput(loc: Loc, run: UnpackedHistory, pending: Option<string>)
    ensures HistoryOutput(JoinRun(loc, run, pending)) == pending.GetOr([]) + UnpackedOutput(run)
    decreases |run|
  {
    if run == [] {
      if HasText(pending) {
        assert JoinRun(loc, run, pending)[1..] == [];
      }
    } else if run[0].Text? {
      JoinRunOutput(loc, run[1..], Some(pending.GetOr([]) + run[0].text));
    } else {
      var rest := JoinRun(loc, run[1..], None);
      JoinRunOutput(loc, run[1..], None);
      assert ([Item(loc, run[0].assignments, pending)] + rest)[1..] == rest;
    }
  }

  /** Coalescing neither loses, duplicates nor reorders printed text. */
  lemma {:induction false} JoinKeepsOutput(u: UnpackedHistory)
    ensures HistoryOutput(Join(u)) == UnpackedOutput(u)
    decreases |u|
  {
    if u != [] {
      var n := RunLength(u, u[0].loc);
      JoinRunOutput(u[0].loc, u[..n], None);
      JoinKeepsOutput(u[n..]);
      HistoryOutputAppend(JoinRun(u[0].loc, u[..n], None), Join(u[n..]));
      assert u == u[..n] + u[n..];
      UnpackedOutputAppend(u[..n], u[n..]);
    }
  }

  /** An item of a group carries output only if the group holds a text item. */
  lemma {:induction false} JoinRunSilent(loc: Loc, run: UnpackedHistory)
    requires forall k :: 0 <= k < |run| ==> !run[k].Text?
    ensures forall k :: 0 <= k < |JoinRun(loc, run, None)| ==> JoinRun(loc, run, None)[k].output == None
    decreases |run|
  {
    if run != [] {
      JoinRunSilent(loc, run[1..]);
    }
  }

  /** Each item of `Join(u)` has the location of its group, and output only if its group printed. */
  lemma {:induction false} JoinLineSilent(u: UnpackedHistory)
    requires forall k :: 0 <= k < |u| && u[k].Text? ==> u[k].loc.lineNo != 0
    ensures forall k :: 0 <= k < |Join(u)| && Join(u)[k].loc.lineNo == 0 ==> Join(u)[k].output == None
    decreases |u|
  {
    if u != [] {
      var loc := u[0].loc;
      var n := RunLength(u, loc);
      RunLengthBounds(u, loc);
      var first := JoinRun(loc, u[..n], None);
      forall k | 0 <= k < |u[n..]| && u[n..][k].Text?
        ensures u[n..][k].loc.lineNo != 0
      {
        assert u[n..][k] == u[n + k];
      }
      JoinLineSilent(u[n..]);
      JoinRunLocation(loc, u[..n], None);
      if loc.lineNo == 0 {
        forall k | 0 <= k < n
          ensures !u[..n][k].Text?
        {
          assert u[..n][k] == u[k];
        }
        JoinRunSilent(loc, u[..n]);
      }
      forall k | 0 <= k < |Join(u)| && Join(u)[k].loc.lineNo == 0
        ensures Join(u)[k].output == None
      {
        if k >= |first| {
          assert Join(u)[k] == Join(u[n..])[k - |first|];
        }
      }
    }
  }

  /** Every item of a group is at the group's location. */
  lemma {:induction false} JoinRunLocation(loc: Loc, run: UnpackedHistory, pending: Option<string>)
    ensures forall k :: 0 <= k < |JoinRun(loc, run, pending)| ==> JoinRun(loc, run, pending)[k].loc == loc
    decreases |run|
  {
    if run != [] {
      if run[0].Text? {
        JoinRunLocation(loc, run[1..], Some(pending.GetOr([]) + run[0].text));
      } else {
        JoinRunLocation(loc, run[1..], None);
      }
    }
  }

  lemma {:induction false} ZeroLinesKeepOutput(h: History)
    requires forall k :: 0 <= k < |h| && h[k].loc.lineNo == 0 ==> h[k].output == None
    ensures HistoryOutput(FilterZeroLines(h)) == HistoryOutput(h)
    decreases |h|
  {
    if h != [] {
      ZeroLinesKeepOutput(h[1..]);
      assert FilterZeroLines(h) == if h[0].loc.lineNo != 0 then [h[0]] + FilterZeroLines(h[1..]) else FilterZeroLines(h[1..]);
      if h[0].loc.lineNo != 0 {
        assert ([h[0]] + FilterZeroLines(h[1..]))[1..] == FilterZeroLines(h[1..]);
      }
    }
  }

  lemma {:induction false} SameOutputs(a: History, b: History)
    requires |a| == |b| && forall k :: 0 <= k < |a| ==> a[k].output == b[k].output
    ensures HistoryOutput(a) == HistoryOutput(b)
    decreases |a|
  {
    if a != [] {
      SameOutputs(a[1..], b[1..]);
    }
  }

  lemma {:induction false} NoEffectKeepsOutput(h: History)
    ensures HistoryOutput(FilterNoEffect(h)) == HistoryOutput(h)
    decreases |h|
  {
    if h != [] {
      NoEffectKeepsOutput(h[1..]);
      assert FilterNoEffect(h) == if HasEffect(h[0]) then [h[0]] + FilterNoEffect(h[1..]) else FilterNoEffect(h[1..]);
      if HasEffect(h[0]) {
        assert ([h[0]] + FilterNoEffect(h[1..]))[1..] == FilterNoEffect(h[1..]);
      }
    }
  }

  /**
   * Everything the program printed reaches the history, in order and
   * without loss, whatever the filters, unless it was printed at line 0.
   */
  lemma {:induction false} HistoryKeepsOutput(t: Trace, filters: Filters)
    requires HistoryOf(t, filters).Ok?
    requires forall i :: 0 <= i < |t| && t[i].1.Output? ==> t[i].0.lineNo != 0
    ensures HistoryOutput(HistoryOf(t, filters).value) == TraceOutput(t)
  {
    var u := Unpack(t).value;
    UnpackKeepsOutput(t);
    UnpackTextLocation(t);
    JoinKeepsOutput(u);
    JoinLineSilent(u);
    var joined := Join(u);
    ZeroLinesKeepOutput(joined);
    var r0 := FilterZeroLines(joined);
    var r1 := if FUNCTION_ASSIGNMENT & filters != 0 then FilterFunctionAssignment(r0) else r0;
    SameOutputs(r0, r1);
    NoEffectKeepsOutput(r1);
  }

  // ---------------------------------------------------------------------
  // Coalescing keeps every assignment

  /** The non-empty assignments of an unpacked history, with their locations, in order. */
  function AssignmentRecords(u: UnpackedHistory): seq<(Loc, Assignments)> {
    if u == [] then []
    else (if u[0].Assign? && u[0].assignments != [] then [(u[0].loc, u[0].assignments)] else []) + AssignmentRecords(u[1..])
  }

  /** The non-empty assignments of a history, with their locations, in order. */
  function ItemRecords(h: History): seq<(Loc, Assignments)> {
    if h == [] then []
    else (if h[0].assignments != [] then [(h[0].loc, h[0].assignments)] else []) + ItemRecords(h[1..])
  }

  lemma {:induction false} ItemRecordsAppend(a: History, b: History)
    ensures ItemRecords(a + b) == ItemRecords(a) + ItemRecords(b)
    decreases |a|
  {
    if a == [] {
      assert a + b == b;
    } else {
      assert (a + b)[1..] == a[1..] + b;
      ItemRecordsAppend(a[1..], b);
    }
  }

  lemma {:induction false} AssignmentRecordsAppend(a: UnpackedHistory, b: UnpackedHistory)
    ensures AssignmentRecords(a + b) == AssignmentRecords(a) + AssignmentRecords(b)
    decreases |a|
  {
    if a == [] {
      assert a + b == b;
    } else {
      assert (a + b)[1..] == a[1..] + b;
      AssignmentRecordsAppend(a[1..], b);
    }
  }

  lemma {:induction false} JoinRunRecords(loc: Loc, run: UnpackedHistory, pending: Option<string>)
    requires forall k :: 0 <= k < |run| ==> run[k].loc == loc
    ensures ItemRecords(JoinRun(loc, run, pending)) == AssignmentRecords(run)
    decreases |run|
  {
    if run == [] {
      if HasText(pending) {
        assert JoinRun(loc, run, pending)[1..] == [];
      }
    } else if run[0].Text? {
      JoinRunRecords(loc, run[1..], Some(pending.GetOr([]) + run[0].text));
    } else {
      var rest := JoinRun(loc, run[1..], None);
      JoinRunRecords(loc, run[1..], None);
      assert ([Item(loc, run[0].assignments, pending)] + rest)[1..] == rest;
    }
  }

  /** Coalescing keeps every non-empty assignment record, at its location, in order, and adds none. */
  lemma {:induction false} JoinKeepsAssignments(u: UnpackedHistory)
    ensures ItemRecords(Join(u)) == AssignmentRecords(u)
    decreases |u|
  {
    if u != [] {
      var n := RunLength(u, u[0].loc);
      RunLengthBounds(u, u[0].loc);
      forall k | 0 <= k < |u[..n]|
        ensures u[..n][k].loc == u[0].loc
      {
        assert u[..n][k] == u[k];
      }
      JoinRunRecords(u[0].loc, u[..n], None);
      JoinKeepsAssignments(u[n..]);
      ItemRecordsAppend(JoinRun(u[0].loc, u[..n], None), Join(u[n..]));
      assert u == u[..n] + u[n..];
      AssignmentRecordsAppend(u[..n], u[n..]);
    }
  }

  lemma {:induction false} JoinRunWithoutText(loc: Loc, run: UnpackedHistory)
    requires forall i :: 0 <= i < |run| ==> run[i].Assign?
    ensures JoinRun(loc, run, None) == seq(|run|, i requires 0 <= i < |run| => Item(loc, run[i].assignments, None))
    decreases |run|
  {
    if run != [] {
      JoinRunWithoutText(loc, run[1..]);
    }
  }

  /**
   * Without output there is nothing to coalesce: every assignment record
   * becomes one item of its own, at its location, even when neighbouring
   * records share a location.
   */
  lemma {:induction false} JoinWithoutText(u: UnpackedHistory)
    requires forall i :: 0 <= i < |u| ==> u[i].Assign?
    ensures Join(u) == seq(|u|, i requires 0 <= i < |u| => Item(u[i].loc, u[i].assignments, None))
    decreases |u|
  {
    if u != [] {
      var n := RunLength(u, u[0].loc);
      RunLengthBounds(u, u[0].loc);
      JoinRunWithoutText(u[0].loc, u[..n]);
      JoinWithoutText(u[n..]);
    }
  }

  // ---------------------------------------------------------------------
  // What the filters leave

  /**
   * The history has no item at line 0; with `FUNCTION_ASSIGNMENT` it assigns
   * no callable; with `NO_EFFECT` every item assigns or prints something.
   */
  lemma {:induction false} HistoryFiltered(t: Trace, filters: Filters)
    requires HistoryOf(t, filters).Ok?
    ensures var h := HistoryOf(t, filters).value;
            (forall k :: 0 <= k < |h| ==> h[k].loc.lineNo != 0) &&
            (FUNCTION_ASSIGNMENT & filters != 0 ==>
               forall k, m :: 0 <= k < |h| && 0 <= m < |h[k].assignments| ==> !IsCallableAssigned(h[k].assignments[m].1)) &&
            (NO_EFFECT & filters != 0 ==> forall k :: 0 <= k < |h| ==> HasEffect(h[k]))
  {
    var h := HistoryOf(t, filters).value;
    var r0 := FilterZeroLines(Join(Unpack(t).value));
    var r1 := if FUNCTION_ASSIGNMENT & filters != 0 then FilterFunctionAssignment(r0) else r0;
    assert forall k :: 0 <= k < |r1| ==> r1[k].loc.lineNo != 0;
    if NO_EFFECT & filters != 0 {
      forall k | 0 <= k < |h|
        ensures h[k].loc.lineNo != 0
        ensures FUNCTION_ASSIGNMENT & filters != 0 ==>
                forall m :: 0 <= m < |h[k].assignments| ==> !IsCallableAssigned(h[k].assignments[m].1)
      {
        SubsequenceMembers(h, r1, h[k]);
      }
    }
  }

  /**
   * The no-effect filter must run after the function filter: an item whose
   * only assignment is a function has an effect before the function filter
   * and none after it.
   */
  lemma FilterOrderMatters()
    ensures exists h: History :: FilterNoEffect(FilterFunctionAssignment(h)) != FilterFunctionAssignment(FilterNoEffect(h))
  {
    var h := [Item(Loc(ModuleScope, 1), [(Var(ModuleScope, "f"), Val(Function("f")))], None)];
    assert FilterFunctionAssignment(h)[0].assignments == [];
    assert FilterNoEffect(FilterFunctionAssignment(h)) == [];
    assert FilterNoEffect(h) == h;
  }
}

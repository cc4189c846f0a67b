/**
 * Part 2 of src/atrace/__init__.py: interpreting a raw trace.
 *
 * `_trace_to_unpacked_history` replays the trace over a simulated stack of
 * activations and reports each line's assignments when the next event
 * shows their effect; `_join_outputs` coalesces consecutive items of one
 * location; the filters and `trace_to_history` finish the history.
 *
 * Each loop is a method proved equal to a specification function (`Run`,
 * `Join`), and the properties of the interpreter are lemmas about those
 * functions.
 */
module AtraceHistory {
  import opened PyModel
  import opened TraceModel
  import opened Diffing

  // ---------------------------------------------------------------------
  // The simulated stack

  /**
   * `Activation`: a simulated call frame, with the locals last seen in it and
   * the line whose assignments it still has to report.
   */
  datatype Activation = Activation(locals: Symbols, locAwaitingAssignments: Option<Loc>)

  /** The replay state between two events: `current_globals` and the stack. */
  datatype Replay = Replay(currentGlobals: Symbols, activations: seq<Activation>)

  /** The bottom activation, whose pending location is line 0 of "guard". */
  const GuardLoc: Loc := Loc("guard", 0)

  const Start: Replay := Replay([], [Activation([], Some(GuardLoc))])

  /** The assignments a `Line` or `Return` reveals: local changes, then global ones (`|`). */
  function Revealed(r: Replay, loc: Loc, globs: Symbols, locs: Symbols): Assignments
    requires r.activations != []
  {
    Union(DiffOf(loc.functionName, r.activations[|r.activations| - 1].locals, locs),
          DiffOf(ModuleScope, r.currentGlobals, globs))
  }

  /** A `Line` (`isLine`) or a `Return` event: report, update the top activation, maybe pop it. */
  function LineOrReturn(r: Replay, loc: Loc, globs: Symbols, locs: Symbols, isLine: bool): Result<(Replay, UnpackedHistory)> {
    if r.activations == [] then Err(IndexError)
    else
      var n := |r.activations| - 1;
      var awaiting := r.activations[n].locAwaitingAssignments;
      var yielded := if awaiting.Some? then [Assign(awaiting.value, Revealed(r, loc, globs, locs))] else [];
      var stack := if isLine then r.activations[..n] + [Activation(locs, Some(loc))] else r.activations[..n];
      Ok((Replay(globs, stack), yielded))
  }

  /** The effect of one event on the replay state, and what it yields. */
  function Step(r: Replay, loc: Loc, event: Event): Result<(Replay, UnpackedHistory)> {
    match event
    case Call(_, locs) =>
      Ok((Replay(r.currentGlobals, r.activations + [Activation(locs, None)]),
          [Assign(loc, DiffOf(loc.functionName, [], locs))]))
    case Line(globs, locs) => LineOrReturn(r, loc, globs, locs, true)
    case Return(globs, locs, _) => LineOrReturn(r, loc, globs, locs, false)
    case ExceptionOccurred(_, _, _, _, _) => Ok((r, []))
    case Output(text) => Ok((r, [Text(loc, text)]))
  }

  /** The replay state after a trace, and everything yielded on the way. */
  function Run(t: Trace): Result<(Replay, UnpackedHistory)>
    decreases |t|
  {
    if t == [] then Ok((Start, []))
    else
      match Run(t[..|t| - 1])
      case Err(e) => Err(e)
      case Ok((r, h)) =>
        match Step(r, t[|t| - 1].0, t[|t| - 1].1)
        case Err(e) => Err(e)
        case Ok((r', y)) => Ok((r', h + y))
  }

  /** The unpacked history of a trace, or the error that interrupts the replay. */
  function Unpack(t: Trace): Result<UnpackedHistory> {
    match Run(t)
    case Err(e) => Err(e)
    case Ok((_, h)) => Ok(h)
  }

  /** Once the replay fails, it fails with the same error whatever follows. */
  lemma {:induction false} RunErrPrefix(t: Trace, k: nat)
    requires k <= |t| && Run(t[..k]).Err?
    ensures Run(t) == Run(t[..k])
    decreases |t|
  {
    if k < |t| {
      assert t[..|t| - 1][..k] == t[..k];
      RunErrPrefix(t[..|t| - 1], k);
    } else {
      assert t[..k] == t;
    }
  }

  /** `Run` on one more event of the trace */
  lemma {:induction false} RunSnoc(t: Trace, i: nat)
    requires i < |t|
    ensures Run(t[..i + 1]) ==
            if Run(t[..i]).Err? then Run(t[..i])
            else
              var s := Step(Run(t[..i]).value.0, t[i].0, t[i].1);
              if s.Err? then Err(s.error) else Ok((s.value.0, Run(t[..i]).value.1 + s.value.1))
  {
    assert t[..i + 1][..i] == t[..i];
  }

  /** A `Call` pushes a fresh activation and yields the bound parameters. */
  lemma {:induction false} RunCall(t: Trace, i: nat, r: Replay, h: UnpackedHistory)
    requires i < |t| && t[i].1.Call? && Run(t[..i]) == Ok((r, h))
    ensures Run(t[..i + 1]) ==
            Ok((Replay(r.currentGlobals, r.activations + [Activation(t[i].1.locals, None)]),
                h + [Assign(t[i].0, DiffOf(t[i].0.functionName, [], t[i].1.locals))]))
  {
    RunSnoc(t, i);
  }

  /** A `Line` or `Return` on an empty stack fails with `IndexError`. */
  lemma {:induction false} RunEmptyStack(t: Trace, i: nat, r: Replay, h: UnpackedHistory)
    requires i < |t| && (t[i].1.Line? || t[i].1.Return?) && Run(t[..i]) == Ok((r, h)) && r.activations == []
    ensures Run(t[..i + 1]) == Err(IndexError)
  {
    RunSnoc(t, i);
  }

  /** A `Line` or `Return`: the revealed assignments, if a location awaits them; then the new top, or a pop. */
  lemma {:induction false} RunLineOrReturn(t: Trace, i: nat, r: Replay, h: UnpackedHistory)
    requires i < |t| && (t[i].1.Line? || t[i].1.Return?) && Run(t[..i]) == Ok((r, h)) && r.activations != []
    ensures var n := |r.activations| - 1;
            var loc := t[i].0;
            var awaiting := r.activations[n].locAwaitingAssignments;
            Run(t[..i + 1]) ==
            Ok((Replay(t[i].1.globals,
                       if t[i].1.Line? then r.activations[..n] + [Activation(t[i].1.locals, Some(loc))]
                       else r.activations[..n]),
                h + if awaiting.Some? then [Assign(awaiting.value, Revealed(r, loc, t[i].1.globals, t[i].1.locals))] else []))
  {
    RunSnoc(t, i);
  }

  /** An `Output` yields its text at its location; other events change nothing. */
  lemma {:induction false} RunOther(t: Trace, i: nat, r: Replay, h: UnpackedHistory)
    requires i < |t| && (t[i].1.Output? || t[i].1.ExceptionOccurred?) && Run(t[..i]) == Ok((r, h))
    ensures Run(t[..i + 1]) == Ok((r, h + if t[i].1.Output? then [Text(t[i].0, t[i].1.text)] else []))
  {
    RunSnoc(t, i);
  }

  /**
   * The `Line` / `Return` case of `_trace_to_unpacked_history` on a
   * non-empty stack: what it yields and the new globals and stack. Writing a
   * field of the top activation is replacing the top of the stack.
   */
  method ReplayLineOrReturn(currentGlobals: Symbols, activations: seq<Activation>, loc: Loc, globs: Symbols, locs: Symbols, isLine: bool)
    returns (newGlobals: Symbols, newActivations: seq<Activation>, yielded: UnpackedHistory)
    requires activations != []
    ensures LineOrReturn(Replay(currentGlobals, activations), loc, globs, locs, isLine) == Ok((Replay(newGlobals, newActivations), yielded))
  {
    var n := |activations| - 1;
    var activation := activations[n];
    var localAssignments := Diff(loc.functionName, activation.locals, locs);
    var globalAssignments := Diff(ModuleScope, currentGlobals, globs);
    var assignments := Union(localAssignments, globalAssignments);
    yielded := [];
    if activation.locAwaitingAssignments.Some? {
      yielded := [Assign(activation.locAwaitingAssignments.value, assignments)];
    }
    activation := activation.(locals := locs);
    newActivations := activations[..n] + [activation];
    newGlobals := globs;
    if isLine {
      activation := activation.(locAwaitingAssignments := Some(loc));
      newActivations := activations[..n] + [activation];
    } else {
      newActivations := activations[..n];
    }
  }

  /** `_trace_to_unpacked_history`, with the yields collected into a list */
  method TraceToUnpackedHistory(trace: Trace) returns (result: Result<UnpackedHistory>)
    ensures result == Unpack(trace)
  {
    var history: UnpackedHistory := [];
    var currentGlobals: Symbols := [];
    var activations: seq<Activation> := [Activation([], Some(GuardLoc))];
    var i := 0;
    while i < |trace|
      invariant 0 <= i <= |trace|
      invariant Run(trace[..i]) == Ok((Replay(currentGlobals, activations), history))
    {
      var (loc, event) := trace[i];
      if event.Call? {
        RunCall(trace, i, Replay(currentGlobals, activations), history);
        activations := activations + [Activation(event.locals, None)];
        var localAssignments := Diff(loc.functionName, [], event.locals);
        history := history + [Assign(loc, localAssignments)];
      } else if event.Line? || event.Return? {
        if activations == [] {
          RunEmptyStack(trace, i, Replay(currentGlobals, activations), history);
          RunErrPrefix(trace, i + 1);
          return Err(IndexError);
        }
        RunSnoc(trace, i);
        var yielded;
        currentGlobals, activations, yielded := ReplayLineOrReturn(currentGlobals, activations, loc, event.globals, event.locals, event.Line?);
        history := history + yielded;
      } else if event.Output? {
        RunOther(trace, i, Replay(currentGlobals, activations), history);
        history := history + [Text(loc, event.text)];
      } else {
        RunOther(trace, i, Replay(currentGlobals, activations), history);
        assert history + [] == history;
      }
      i := i + 1;
    }
    assert trace[..i] == trace;
    result := Ok(history);
  }

  // ---------------------------------------------------------------------
  // Coalescing the items of one location

  /** The length of the leading run of items at `loc` (one `groupby` group). */
  function RunLength(u: UnpackedHistory, loc: Loc): (n: nat)
    ensures n <= |u|
    ensures u != [] && u[0].loc == loc ==> n >= 1
  {
    if u == [] || u[0].loc != loc then 0 else 1 + RunLength(u[1..], loc)
  }

  /** The run is the longest prefix of items at `loc`. */
  lemma {:induction false} RunLengthBounds(u: UnpackedHistory, loc: Loc)
    ensures forall k :: 0 <= k < RunLength(u, loc) ==> u[k].loc == loc
    ensures RunLength(u, loc) < |u| ==> u[RunLength(u, loc)].loc != loc
  {
    if u != [] && u[0].loc == loc {
      RunLengthBounds(u[1..], loc);
    }
  }

  /** What the inner loop of `_join_outputs` yields for the rest of a group, given the pending output. */
  function JoinRun(loc: Loc, run: UnpackedHistory, pending: Option<string>): History
    decreases |run|
  {
    if run == [] then (if HasText(pending) then [Item(loc, [], pending)] else [])
    else
      if run[0].Text? then JoinRun(loc, run[1..], Some(pending.GetOr([]) + run[0].text))
      else [Item(loc, run[0].assignments, pending)] + JoinRun(loc, run[1..], None)
  }

  /** What `_join_outputs` yields: one `JoinRun` per group of equal locations. */
  function Join(u: UnpackedHistory): History
    decreases |u|
  {
    if u == [] then []
    else
      var n := RunLength(u, u[0].loc);
      JoinRun(u[0].loc, u[..n], None) + Join(u[n..])
  }

  /** `Join` of a non-empty history: its first group, then the rest. */
  lemma {:induction false} JoinFirst(v: UnpackedHistory)
    requires v != []
    ensures var n := RunLength(v, v[0].loc);
            Join(v) == JoinRun(v[0].loc, v[..n], None) + Join(v[n..])
  {
  }

  /** `Join` on a suffix: the group starting at `i`, then the rest. */
  lemma {:induction false} JoinAt(u: UnpackedHistory, i: nat)
    requires i < |u|
    ensures var k := i + RunLength(u[i..], u[i].loc);
            i < k <= |u| && Join(u[i..]) == JoinRun(u[i].loc, u[i..k], None) + Join(u[k..])
  {
    var v := u[i..];
    assert v[0] == u[i];
    var n := RunLength(v, u[i].loc);
    JoinFirst(v);
    assert v[..n] == u[i..i + n];
    assert v[n..] == u[i + n..];
  }

  /** The items of the group at `start` followed by the join of what comes after it */
  lemma {:induction false} JoinSplit(u: UnpackedHistory, start: nat, end: nat, items: History)
    requires start < |u|
    requires end == start + RunLength(u[start..], u[start].loc)
    requires items == JoinRun(u[start].loc, u[start..end], None)
    ensures start < end <= |u| && Join(u[start..]) == items + Join(u[end..])
  {
    JoinAt(u, start);
  }

  /** The group starting at `i` ends at `k`: all of `u[i..k]` is at `loc`, and `u[k]` is not. */
  lemma {:induction false} GroupBounds(u: UnpackedHistory, i: nat, j: nat)
    requires i <= j <= |u| && i < |u|
    ensures var k := i + RunLength(u[i..], u[i].loc);
            j <= k ==> (j < k <==> j < |u| && u[j].loc == u[i].loc)
  {
    var k := i + RunLength(u[i..], u[i].loc);
    RunLengthBounds(u[i..], u[i].loc);
    if j <= k && j < |u| {
      assert u[j] == u[i..][j - i];
    }
  }

  /** One step of the inner loop of `_join_outputs`. */
  lemma {:induction false} JoinRunStep(loc: Loc, u: UnpackedHistory, j: nat, k: nat, pending: Option<string>)
    requires j < k <= |u|
    ensures JoinRun(loc, u[j..k], pending) ==
            if u[j].Text? then JoinRun(loc, u[j + 1..k], Some(pending.GetOr([]) + u[j].text))
            else [Item(loc, u[j].assignments, pending)] + JoinRun(loc, u[j + 1..k], None)
  {
    assert u[j..k][0] == u[j];
    assert u[j..k][1..] == u[j + 1..k];
  }

  /**
   * One `groupby` group of `_join_outputs`: the items from `start` on that
   * share its location, with their texts collected as pending output.
   */
  method JoinGroup(unpacked: UnpackedHistory, start: nat) returns (items: History, end: nat)
    requires start < |unpacked|
    ensures end == start + RunLength(unpacked[start..], unpacked[start].loc)
    ensures items == JoinRun(unpacked[start].loc, unpacked[start..end], None)
    ensures start < end <= |unpacked| && Join(unpacked[start..]) == items + Join(unpacked[end..])
  {
    var loc := unpacked[start].loc;
    ghost var k := start + RunLength(unpacked[start..], loc);
    items := [];
    var pendingOutput: Option<string> := None;
    end := start;
    GroupBounds(unpacked, start, end);
    while end < |unpacked| && unpacked[end].loc == loc
      invariant start <= end <= k
      invariant end <= k ==> (end < k <==> end < |unpacked| && unpacked[end].loc == loc)
      invariant items + JoinRun(loc, unpacked[end..k], pendingOutput) == JoinRun(loc, unpacked[start..k], None)
    {
      JoinRunStep(loc, unpacked, end, k, pendingOutput);
      ghost var rest := unpacked[end + 1..k];
      var item := unpacked[end];
      if item.Text? {
        pendingOutput := Some(pendingOutput.GetOr([]) + item.text);
      } else {
        var joinedItem := Item(loc, item.assignments, pendingOutput);
        ConcatAssoc(items, [joinedItem], JoinRun(loc, rest, None));
        items := items + [joinedItem];
        pendingOutput := None;
      }
      assert items + JoinRun(loc, rest, pendingOutput) == JoinRun(loc, unpacked[start..k], None);
      end := end + 1;
      GroupBounds(unpacked, start, end);
    }
    assert unpacked[end..k] == [];
    if HasText(pendingOutput) {
      items := items + [Item(loc, [], pendingOutput)];
    }
    JoinSplit(unpacked, start, end, items);
  }

  /** `_join_outputs`, with the yields collected into a list */
  method JoinOutputs(unpacked: UnpackedHistory) returns (joined: History)
    ensures joined == Join(unpacked)
  {
    joined := [];
    var start := 0;
    assert unpacked[start..] == unpacked;
    while start < |unpacked|
      invariant 0 <= start <= |unpacked|
      invariant joined + Join(unpacked[start..]) == Join(unpacked)
    {
      var items, end := JoinGroup(unpacked, start);
      ConcatAssoc(joined, items, Join(unpacked[end..]));
      joined := joined + items;
      start := end;
    }
  }

  // ---------------------------------------------------------------------
  // Filters

  /** `_filter_zero_lines`: drops the items at line 0. */
  function FilterZeroLines(h: History): (r: History)
    ensures IsSubsequence(r, h)
    ensures forall k :: 0 <= k < |r| ==> r[k].loc.lineNo != 0
    ensures forall k :: 0 <= k < |h| && h[k].loc.lineNo != 0 ==> h[k] in r
  {
    Filter(h, (item: HistoryItem) => item.loc.lineNo != 0)
  }

  /** `_filter_no_effect`: keeps the items that assign or print something. */
  function FilterNoEffect(h: History): (r: History)
    ensures IsSubsequence(r, h)
    ensures forall k :: 0 <= k < |r| ==> HasEffect(r[k])
    ensures forall k :: 0 <= k < |h| && HasEffect(h[k]) ==> h[k] in r
  {
    Filter(h, HasEffect)
  }

  /** `_filter_zero_lines` keeps every item off line 0 as often as it occurs. */
  lemma {:induction false} FilterZeroLinesCounts(h: History)
    ensures forall x :: multiset(FilterZeroLines(h))[x] == if x.loc.lineNo != 0 then multiset(h)[x] else 0
  {
    FilterCounts(h, (item: HistoryItem) => item.loc.lineNo != 0);
  }

  /** `_filter_no_effect` keeps every item with an effect as often as it occurs. */
  lemma {:induction false} FilterNoEffectCounts(h: History)
    ensures forall x :: multiset(FilterNoEffect(h))[x] == if HasEffect(x) then multiset(h)[x] else 0
  {
    FilterCounts(h, HasEffect);
  }

  /** `callable(val)`; `UNASSIGN` is a plain object and is not callable. */
  predicate IsCallableAssigned(a: Assigned) {
    a.Val? && IsCallable(a.value)
  }

  /** `_remove_functions`: the entries whose value is not callable, in order. */
  function RemoveFunctions(assignments: Assignments): (r: Assignments)
    ensures IsSubsequence(r, assignments)
    ensures forall k :: 0 <= k < |r| ==> !IsCallableAssigned(r[k].1)
    ensures forall k :: 0 <= k < |assignments| && !IsCallableAssigned(assignments[k].1) ==> assignments[k] in r
  {
    Select(assignments, (_: Var, val: Assigned) => !IsCallableAssigned(val))
  }

  /**
   * `_remove_functions` keeps exactly the entries whose value is not
   * callable, each with its value, and the result is again a dictionary.
   */
  lemma {:induction false} RemoveFunctionsGet(assignments: Assignments, w: Var)
    requires IsDict(assignments)
    ensures Get(RemoveFunctions(assignments), w) ==
            if Get(assignments, w).Some? && !IsCallableAssigned(Get(assignments, w).value) then Get(assignments, w) else None
    ensures IsDict(RemoveFunctions(assignments))
  {
    GetSelect(assignments, (_: Var, val: Assigned) => !IsCallableAssigned(val), w);
    SelectIsDict(assignments, (_: Var, val: Assigned) => !IsCallableAssigned(val));
  }

  /** `_filter_function_assignment`: every item kept, with its callable assignments removed. */
  function FilterFunctionAssignment(h: History): (r: History)
    ensures |r| == |h|
    ensures forall k :: 0 <= k < |h| ==> r[k].loc == h[k].loc && r[k].output == h[k].output
    ensures forall k :: 0 <= k < |h| ==> IsSubsequence(r[k].assignments, h[k].assignments)
    ensures forall k, m :: 0 <= k < |r| && 0 <= m < |r[k].assignments| ==> !IsCallableAssigned(r[k].assignments[m].1)
    ensures forall k :: 0 <= k < |h| ==> r[k].assignments == RemoveFunctions(h[k].assignments)
  {
    seq(|h|, k requires 0 <= k < |h| => Item(h[k].loc, RemoveFunctions(h[k].assignments), h[k].output))
  }

  /** `Filters`, an `IntFlag` of two bits. */
  type Filters = bv2

  const NONE: Filters := 0
  const NO_EFFECT: Filters := 1
  const FUNCTION_ASSIGNMENT: Filters := 2

  /** The last three steps of `trace_to_history`, applied to the joined history. */
  function ApplyFilters(joined: History, filters: Filters): History {
    var result := FilterZeroLines(joined);
    var result := if FUNCTION_ASSIGNMENT & filters != 0 then FilterFunctionAssignment(result) else result;
    if NO_EFFECT & filters != 0 then FilterNoEffect(result) else result
  }

  /** The history `trace_to_history` returns, or the error it raises. */
  function HistoryOf(trace: Trace, filters: Filters): Result<History> {
    match Unpack(trace)
    case Err(e) => Err(e)
    case Ok(unpacked) => Ok(ApplyFilters(Join(unpacked), filters))
  }

  /** `trace_to_history` */
  method TraceToHistory(trace: Trace, filters: Filters) returns (result: Result<History>)
    ensures result == HistoryOf(trace, filters)
  {
    var unpacked := TraceToUnpackedHistory(trace);
    if unpacked.Err? {
      return Err(unpacked.error);
    }
    var joined := JoinOutputs(unpacked.value);
    var history := FilterZeroLines(joined);
    if FUNCTION_ASSIGNMENT & filters != 0 {
      history := FilterFunctionAssignment(history);
    }
    if NO_EFFECT & filters != 0 {
      history := FilterNoEffect(history);
    }
    result := Ok(history);
  }
}

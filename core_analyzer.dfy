/**
 * src/atrace/core/analyzer.py: the list-building copy of the interpreter
 * of src/atrace/__init__.py. Where that file yields, this one appends to a
 * list; the algorithm is the same, so each method here is proved against
 * the same specification functions (`Unpack`, `Join`, `HistoryOf`), which
 * makes the two copies agree on every trace.
 */
module CoreAnalyzer {
  import opened PyModel
  import opened TraceModel
  import opened Diffing
  import opened AtraceHistory

  /**
   * The `Line` / `Return` case of `_trace_to_unpacked_history` on a
   * non-empty stack: the diffs against the top activation and the current
   * globals, the report at the awaiting location, then the new top or the pop.
   */
  method LineOrReturnCase(currentGlobals: Symbols, activations: seq<Activation>, loc: Loc,
                          globs: Symbols, locs: Symbols, isLine: bool)
    returns (newGlobals: Symbols, newActivations: seq<Activation>, yielded: UnpackedHistory)
    requires activations != []
    ensures LineOrReturn(Replay(currentGlobals, activations), loc, globs, locs, isLine) ==
            Ok((Replay(newGlobals, newActivations), yielded))
  {
    var n := |activations| - 1;
    var activation := activations[n];
    var localAssignments := Diff(loc.functionName, activation.locals, locs);
    var globalAssignments := Diff(ModuleScope, currentGlobals, globs);
    var assignments := Union(localAssignments, globalAssignments);
    yielded := [];
    if activation.locAwaitingAssignments.Some? {
      yielded := [Assign(activation.locAwaitingAssignments.value, assignments)];
    }
    newGlobals := globs;
    if isLine {
      newActivations := activations[..n] + [Activation(locs, Some(loc))];
    } else {
      newActivations := activations[..n];
    }
  }

  /** `_trace_to_unpacked_history`, appending to `history` */
  method TraceToUnpackedHistory(trace: Trace) returns (result: Result<UnpackedHistory>)
    ensures result == Unpack(trace)
  {
    var history: UnpackedHistory := [];
    var currentGlobals: Symbols := [];
    var activations: seq<Activation> := [Activation([], Some(GuardLoc))];
    for i := 0 to |trace|
      invariant Run(trace[..i]) == Ok((Replay(currentGlobals, activations), history))
    {
      var (loc, event) := trace[i];
      RunSnoc(trace, i);
      if event.Call? {
        var localAssignments := Diff(loc.functionName, [], event.locals);
        activations := activations + [Activation(event.locals, None)];
        history := history + [Assign(loc, localAssignments)];
      } else if event.Line? || event.Return? {
        if activations == [] {
          RunErrPrefix(trace, i + 1);
          return Err(IndexError);
        }
        var yielded;
        currentGlobals, activations, yielded :=
          LineOrReturnCase(currentGlobals, activations, loc, event.globals, event.locals, event.Line?);
        history := history + yielded;
      } else if event.Output? {
        history := history + [Text(loc, event.text)];
      } else {
        assert history + [] == history;
      }
    }
    assert trace[..|trace|] == trace;
    result := Ok(history);
  }

  /** `_join_outputs`, appending to `joined`; the same code as `AtraceHistory.JoinOutputs`, as the two files repeat it */
  method JoinOutputs(unpacked: UnpackedHistory) returns (joined: History)
    ensures joined == Join(unpacked)
  {
    joined := [];
    var start := 0;
    assert unpacked[start..] == unpacked;
    while start < |unpacked|
      invariant 0 <= start <= |unpacked|
      invariant joined + Join(unpacked[start..]) == Join(unpacked)
    {
      var items, end := JoinGroup(unpacked, start);
      ConcatAssoc(joined, items, Join(unpacked[end..]));
      joined := joined + items;
      start := end;
    }
  }

  /** `trace_to_history`: zero lines always go, then the function filter, then the no-effect filter. */
  method TraceToHistory(trace: Trace, filters: Filters) returns (result: Result<History>)
    ensures result == HistoryOf(trace, filters)
  {
    var unpacked := TraceToUnpackedHistory(trace);
    if unpacked.Err? {
      return Err(unpacked.error);
    }
    var joined := JoinOutputs(unpacked.value);
    var history := FilterZeroLines(joined);
    if FUNCTION_ASSIGNMENT & filters != 0 {
      history := FilterFunctionAssignment(history);
    }
    if NO_EFFECT & filters != 0 {
      history := FilterNoEffect(history);
    }
    return Ok(history);
  }
}

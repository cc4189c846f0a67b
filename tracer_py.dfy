/**
 * src/atrace/tracer.py: the tracer of the earlier module layout. It differs
 * from the one in src/atrace/__init__.py in two places: `ignore_variable`
 * also drops callables, and the lurking test is `not filename_of_interest`
 * (falsiness) instead of `is None`, so an empty file name counts as "not
 * started yet". `copy_carefully`, `ignore_function` and the rest in
 * `Tracing` are the same code in both files.
 */
module TracerPy {
  import opened PyModel
  import opened TraceModel
  import opened Tracing
  import AtraceTracing

  /** `ignore_variable`: dunder names, callables and modules */
  predicate IgnoreVariable(name: string, value: Value) {
    StartsWith(name, "__") || IsCallable(value) || IsModule(value)
  }

  /** `filtered_variables`; written as `AtraceTracing.FilteredVariables` is, with this file's `IgnoreVariable` */
  function FilteredVariables(variables: Symbols): (r: Symbols)
    ensures IsSubsequence(r, variables)
    ensures forall i :: 0 <= i < |r| ==> !IgnoreVariable(r[i].0, r[i].1)
  {
    Select(variables, (name: string, value: Value) => !IgnoreVariable(name, value))
  }

  /** The filter keeps exactly the entries that are not ignored, with their values: a sub-dictionary. */
  lemma {:induction false} FilteredVariablesGet(variables: Symbols, name: string)
    requires IsDict(variables)
    ensures Get(FilteredVariables(variables), name) ==
            if Get(variables, name).Some? && !IgnoreVariable(name, Get(variables, name).value) then Get(variables, name) else None
    ensures IsDict(FilteredVariables(variables))
  {
    GetSelect(variables, (n: string, v: Value) => !IgnoreVariable(n, v), name);
    SelectIsDict(variables, (n: string, v: Value) => !IgnoreVariable(n, v));
  }

  /** A function bound to an ordinary name is dropped here and kept by the tracer of src/atrace/__init__.py. */
  lemma {:induction false} OnlyThisFilterDropsCallables(name: string, f: string)
    requires !StartsWith(name, "__")
    ensures IgnoreVariable(name, Function(f))
    ensures !AtraceTracing.IgnoreVariable(name, Function(f))
  {
  }

  /** `not self.filename_of_interest` */
  predicate Lurking(s: TracerState) {
    s.filenameOfInterest.None? || s.filenameOfInterest.value == ""
  }

  function CapturedGlobals(frame: Frame, copy: Copier): Symbols {
    CarefulCopy(FilteredVariables(frame.globals), copy)
  }

  function CapturedLocals(frame: Frame, copy: Copier): Symbols {
    if frame.localsAreGlobals then [] else CarefulCopy(FilteredVariables(frame.locals), copy)
  }

  /** One call of `trace_vars`: the new state and whether the frame stays traced. */
  function TraceVarsStep(s: TracerState, frame: Frame, event: string, arg: TraceArg, copy: Copier): (TracerState, bool)
    requires event == "exception" ==> arg.ExcInfo?
  {
    if Lurking(s) && frame.coName != CoName then (s, false)
    else
      var s1 := if Lurking(s) then s.(filenameOfInterest := Some(frame.coFilename), capturingOutput := true) else s;
      if frame.coFilename != s1.filenameOfInterest.value then (s1, false)
      else if IgnoreFunction(frame.coName) then (s1, false)
      else
        var recorded := RecordedEvent(event, CapturedGlobals(frame, copy), CapturedLocals(frame, copy), arg);
        var s2 := if recorded.Some? then s1.(trace := s1.trace + [(Loc(frame.coName, frame.lineNo), recorded.value)]) else s1;
        if event == "return" && frame.coFilename == s2.filenameOfInterest.value && frame.coName == CoName then (Unloaded(s2), false)
        else (s2, true)
  }

  class Tracer {
    var filenameOfInterest: Option<string>
    var trace: Trace
    var capturingOutput: bool
    var installed: bool
    var delivered: seq<Trace>

    function State(): TracerState
      reads this
    {
      TracerState(filenameOfInterest, trace, capturingOutput, installed, delivered)
    }

    constructor ()
      ensures State() == Initial
    {
      filenameOfInterest := None;
      trace := [];
      capturingOutput := false;
      installed := true;
      delivered := [];
    }

    /** `unload` */
    method Unload()
      modifies this
      ensures State() == Unloaded(old(State()))
    {
      installed := false;
      capturingOutput := false;
      delivered := delivered + [trace];
    }

    /** The capture of the snapshots and the append of a recorded event. */
    method Record(frame: Frame, event: string, arg: TraceArg, copy: Copier)
      requires event == "exception" ==> arg.ExcInfo?
      modifies this
      ensures var recorded := RecordedEvent(event, CapturedGlobals(frame, copy), CapturedLocals(frame, copy), arg);
              State() == if recorded.Some? then old(State()).(trace := old(trace) + [(Loc(frame.coName, frame.lineNo), recorded.value)]) else old(State())
    {
      var globs := CopyCarefully(FilteredVariables(frame.globals), copy);
      var locs: Symbols := [];
      if !frame.localsAreGlobals {
        locs := CopyCarefully(FilteredVariables(frame.locals), copy);
      }
      var traceEvent := RecordedEvent(event, globs, locs, arg);
      if traceEvent.Some? {
        trace := trace + [(Loc(frame.coName, frame.lineNo), traceEvent.value)];
      }
    }

    /** `trace_vars` */
    method TraceVars(frame: Frame, event: string, arg: TraceArg, copy: Copier) returns (keepTracing: bool)
      requires event == "exception" ==> arg.ExcInfo?
      modifies this
      ensures (State(), keepTracing) == TraceVarsStep(old(State()), frame, event, arg, copy)
    {
      if filenameOfInterest.None? || filenameOfInterest.value == "" {
        if frame.coName == CoName {
          filenameOfInterest := Some(frame.coFilename);
          capturingOutput := true;
        } else {
          return false;
        }
      }
      if frame.coFilename != filenameOfInterest.value {
        return false;
      }
      if IgnoreFunction(frame.coName) {
        return false;
      }
      Record(frame, event, arg, copy);
      if event == "return" && frame.coFilename == filenameOfInterest.value && frame.coName == CoName {
        Unload();
        return false;
      }
      return true;
    }
  }

  // ---------------------------------------------------------------------
  // Properties of `trace_vars`

  /** While the file name is falsy, a frame that is not a module frame records nothing and is not traced. */
  lemma {:induction false} LurksWhileFalsy(s: TracerState, frame: Frame, event: string, arg: TraceArg, copy: Copier)
    requires event == "exception" ==> arg.ExcInfo?
    requires Lurking(s) && frame.coName != CoName
    ensures TraceVarsStep(s, frame, event, arg, copy) == (s, false)
  {
  }

  /**
   * A module frame met while lurking fixes the file of interest and starts
   * capturing the output; its `call` event is recorded, and the tracer
   * stays attached to that frame.
   */
  lemma {:induction false} StartsAtModuleFrame(s: TracerState, frame: Frame, event: string, arg: TraceArg, copy: Copier)
    requires event == "exception" ==> arg.ExcInfo?
    requires Lurking(s) && frame.coName == CoName
    ensures var (s', _) := TraceVarsStep(s, frame, event, arg, copy);
            s'.filenameOfInterest == Some(frame.coFilename) &&
            (s'.installed ==> s'.capturingOutput)
    ensures var (s', keep) := TraceVarsStep(s, frame, event, arg, copy);
            event == "call" ==>
              s'.trace == s.trace + [(Loc(CoName, frame.lineNo), Call(CapturedGlobals(frame, copy), CapturedLocals(frame, copy)))] &&
              keep && s'.installed == s.installed && s'.capturingOutput
  {
    ModuleIsNoDunder();
  }

  /**
   * With an empty file name the tracer never leaves the lurking state, so
   * no frame of a function is ever recorded, even one of the traced file;
   * the tracer of src/atrace/__init__.py records that same frame.
   */
  lemma {:induction false} EmptyFileNameSkipsFunctions(s: TracerState, frame: Frame, event: string, arg: TraceArg, copy: Copier)
    requires event == "exception" ==> arg.ExcInfo?
    requires s.filenameOfInterest == Some("") && frame.coFilename == ""
    requires frame.coName != CoName && !StartsWith(frame.coName, "__") && event == "line"
    ensures TraceVarsStep(s, frame, event, arg, copy) == (s, false)
    ensures AtraceTracing.TraceVarsStep(s, frame, event, arg, copy).0.trace ==
            s.trace + [(Loc(frame.coName, frame.lineNo), Line(AtraceTracing.CapturedGlobals(frame, copy), AtraceTracing.CapturedLocals(frame, copy)))]
  {
  }

  /** Once started, frames of other files and dunder functions are neither recorded nor traced. */
  lemma {:induction false} IgnoresForeignAndDunderFrames(s: TracerState, frame: Frame, event: string, arg: TraceArg, copy: Copier)
    requires event == "exception" ==> arg.ExcInfo?
    requires !Lurking(s)
    requires frame.coFilename != s.filenameOfInterest.value || StartsWith(frame.coName, "__")
    ensures TraceVarsStep(s, frame, event, arg, copy) == (s, false)
  {
  }

  /**
   * A module frame met while lurking, or a frame of the traced file once
   * started, appends one entry for `line`, `call`,
   * `return` and `exception` each, at `Loc(co_name, f_lineno)`, and nothing
   * for any other event; module frames record `{}` as locals.
   */
  lemma {:induction false} RecordsTracedFrame(s: TracerState, frame: Frame, event: string, arg: TraceArg, copy: Copier)
    requires event == "exception" ==> arg.ExcInfo?
    requires (Lurking(s) && frame.coName == CoName) || (!Lurking(s) && s.filenameOfInterest == Some(frame.coFilename))
    requires !StartsWith(frame.coName, "__")
    ensures var (s', _) := TraceVarsStep(s, frame, event, arg, copy);
            var globs := CapturedGlobals(frame, copy);
            var locs := CapturedLocals(frame, copy);
            var loc := Loc(frame.coName, frame.lineNo);
            (event == "line" ==> s'.trace == s.trace + [(loc, Line(globs, locs))]) &&
            (event == "call" ==> s'.trace == s.trace + [(loc, Call(globs, locs))]) &&
            (event == "return" ==> s'.trace == s.trace + [(loc, Return(globs, locs, arg.value))]) &&
            (event == "exception" ==> s'.trace == s.trace + [(loc, ExceptionOccurred(globs, locs, arg.exception, arg.value, arg.traceback))]) &&
            (event !in {"line", "call", "return", "exception"} ==> s'.trace == s.trace)
    ensures frame.localsAreGlobals ==> CapturedLocals(frame, copy) == []
  {
  }

  /** The `return` of the traced module's frame unloads the tracer and hands the trace to the callback. */
  lemma {:induction false} UnloadsOnModuleReturn(s: TracerState, frame: Frame, arg: TraceArg, copy: Copier)
    requires Lurking(s) || s.filenameOfInterest == Some(frame.coFilename)
    requires frame.coName == CoName
    ensures var (s', keep) := TraceVarsStep(s, frame, "return", arg, copy);
            !keep && !s'.installed && !s'.capturingOutput &&
            s'.trace == s.trace + [(Loc(CoName, frame.lineNo), Return(CapturedGlobals(frame, copy), CapturedLocals(frame, copy), arg.value))] &&
            s'.delivered == s.delivered + [s'.trace]
  {
    ModuleIsNoDunder();
  }

  /** The trace only grows, by at most one entry per call. */
  lemma {:induction false} TraceOnlyGrows(s: TracerState, frame: Frame, event: string, arg: TraceArg, copy: Copier)
    requires event == "exception" ==> arg.ExcInfo?
    ensures var (s', _) := TraceVarsStep(s, frame, event, arg, copy);
            |s.trace| <= |s'.trace| <= |s.trace| + 1 && s'.trace[..|s.trace|] == s.trace &&
            (s'.delivered == s.delivered || (s'.delivered == s.delivered + [s'.trace] && !s'.installed))
  {
  }
}

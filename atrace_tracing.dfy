/**
 * Part 1 of src/atrace/__init__.py: collecting the trace.
 *
 * `Tracer.trace_vars` is called by the interpreter for every event of
 * every frame. It lurks until the first module-level frame, then records a
 * `(Loc, Event)` pair for each `line`, `call`, `return` and `exception`
 * event of frames of that file, with copies of the filtered globals and
 * locals, and unloads itself when that module's frame returns.
 */
module AtraceTracing {
  import opened PyModel
  import opened TraceModel
  import opened Tracing

  // ---------------------------------------------------------------------
  // Symbols

  /** `ignore_variable`: dunder names and modules (callables are kept here). */
  predicate IgnoreVariable(name: string, value: Value) {
    StartsWith(name, "__") || IsModule(value)
  }

  /** `filtered_variables` */
  function FilteredVariables(variables: Symbols): (r: Symbols)
    ensures IsSubsequence(r, variables)
    ensures forall i :: 0 <= i < |r| ==> !IgnoreVariable(r[i].0, r[i].1)
  {
    Select(variables, (name: string, value: Value) => !IgnoreVariable(name, value))
  }

  /** The filter keeps exactly the entries that are not ignored, with their values. */
  lemma {:induction false} FilteredVariablesGet(variables: Symbols, name: string)
    requires IsDict(variables)
    ensures Get(FilteredVariables(variables), name) ==
            if Get(variables, name).Some? && !IgnoreVariable(name, Get(variables, name).value) then Get(variables, name) else None
    ensures IsDict(FilteredVariables(variables))
  {
    GetSelect(variables, (n: string, v: Value) => !IgnoreVariable(n, v), name);
    SelectIsDict(variables, (n: string, v: Value) => !IgnoreVariable(n, v));
  }

  // ---------------------------------------------------------------------
  // The tracer

  /** The snapshots a recorded frame contributes: module frames have `{}` as locals. */
  function CapturedGlobals(frame: Frame, copy: Copier): Symbols {
    CarefulCopy(FilteredVariables(frame.globals), copy)
  }

  function CapturedLocals(frame: Frame, copy: Copier): Symbols {
    if frame.localsAreGlobals then [] else CarefulCopy(FilteredVariables(frame.locals), copy)
  }

  /**
   * One call of `trace_vars`: the new state, and whether the tracer stays
   * the frame's local trace function (`return self.trace_vars`) or not
   * (`return None`).
   */
  function TraceVarsStep(s: TracerState, frame: Frame, event: string, arg: TraceArg, copy: Copier): (TracerState, bool)
    requires event == "exception" ==> arg.ExcInfo?
  {
    if s.filenameOfInterest.None? && frame.coName != CoName then (s, false)
    else
      var s1 := if s.filenameOfInterest.None? then s.(filenameOfInterest := Some(frame.coFilename), capturingOutput := true) else s;
      if frame.coFilename != s1.filenameOfInterest.value then (s1, false)
      else if IgnoreFunction(frame.coName) then (s1, false)
      else
        var recorded := RecordedEvent(event, CapturedGlobals(frame, copy), CapturedLocals(frame, copy), arg);
        var s2 := if recorded.Some? then s1.(trace := s1.trace + [(Loc(frame.coName, frame.lineNo), recorded.value)]) else s1;
        if event == "return" && frame.coFilename == s2.filenameOfInterest.value && frame.coName == CoName then (Unloaded(s2), false)
        else (s2, true)
  }

  /** `Tracer`, with the interpreter hooks reduced to the `installed` and `capturingOutput` flags. */
  class Tracer {
    var filenameOfInterest: Option<string>
    var trace: Trace
    var capturingOutput: bool
    var installed: bool
    var delivered: seq<Trace>

    function State(): TracerState
      reads this
    {
      TracerState(filenameOfInterest, trace, capturingOutput, installed, delivered)
    }

    constructor ()
      ensures State() == Initial
    {
      filenameOfInterest := None;
      trace := [];
      capturingOutput := false;
      installed := true;
      delivered := [];
    }

    /** `unload`: uninstall, restore `sys.stdout`, hand the trace to the callback. */
    method Unload()
      modifies this
      ensures State() == Unloaded(old(State()))
    {
      installed := false;
      capturingOutput := false;
      delivered := delivered + [trace];
    }

    /** The capture of the snapshots and the append of a recorded event. */
    method Record(frame: Frame, event: string, arg: TraceArg, copy: Copier)
      requires event == "exception" ==> arg.ExcInfo?
      modifies this
      ensures var recorded := RecordedEvent(event, CapturedGlobals(frame, copy), CapturedLocals(frame, copy), arg);
              State() == if recorded.Some? then old(State()).(trace := old(trace) + [(Loc(frame.coName, frame.lineNo), recorded.value)]) else old(State())
    {
      var globs := CopyCarefully(FilteredVariables(frame.globals), copy);
      var locs: Symbols := [];
      if !frame.localsAreGlobals {
        locs := CopyCarefully(FilteredVariables(frame.locals), copy);
      }
      var traceEvent := RecordedEvent(event, globs, locs, arg);
      if traceEvent.Some? {
        trace := trace + [(Loc(frame.coName, frame.lineNo), traceEvent.value)];
      }
    }

    /** `trace_vars` */
    method TraceVars(frame: Frame, event: string, arg: TraceArg, copy: Copier) returns (keepTracing: bool)
      requires event == "exception" ==> arg.ExcInfo?
      modifies this
      ensures (State(), keepTracing) == TraceVarsStep(old(State()), frame, event, arg, copy)
    {
      if filenameOfInterest.None? {
        if frame.coName == CoName {
          filenameOfInterest := Some(frame.coFilename);
          capturingOutput := true;
        } else {
          return false;
        }
      }
      if frame.coFilename != filenameOfInterest.value {
        return false;
      }
      if IgnoreFunction(frame.coName) {
        return false;
      }
      Record(frame, event, arg, copy);
      if event == "return" && frame.coFilename == filenameOfInterest.value && frame.coName == CoName {
        Unload();
        return false;
      }
      return true;
    }
  }

  // ---------------------------------------------------------------------
  // Properties of `trace_vars`

  /** Lurking: before the first module frame, nothing is recorded and the frame is not traced. */
  lemma {:induction false} LurksUntilModuleFrame(s: TracerState, frame: Frame, event: string, arg: TraceArg, copy: Copier)
    requires event == "exception" ==> arg.ExcInfo?
    requires s.filenameOfInterest.None? && frame.coName != CoName
    ensures TraceVarsStep(s, frame, event, arg, copy) == (s, false)
  {
  }

  /**
   * The first module frame fixes the file of interest and starts capturing
   * the output; its `call` event is the first entry of the trace, and the
   * tracer stays attached to that frame.
   */
  lemma {:induction false} StartsAtModuleFrame(s: TracerState, frame: Frame, event: string, arg: TraceArg, copy: Copier)
    requires event == "exception" ==> arg.ExcInfo?
    requires s.filenameOfInterest.None? && frame.coName == CoName
    ensures var (s', _) := TraceVarsStep(s, frame, event, arg, copy);
            s'.filenameOfInterest == Some(frame.coFilename) &&
            (s'.installed ==> s'.capturingOutput)
    ensures var (s', keep) := TraceVarsStep(s, frame, event, arg, copy);
            event == "call" ==>
              s'.trace == s.trace + [(Loc(CoName, frame.lineNo), Call(CapturedGlobals(frame, copy), CapturedLocals(frame, copy)))] &&
              keep && s'.installed == s.installed && s'.capturingOutput
  {
    ModuleIsNoDunder();
  }

  /** Once started, frames of other files and dunder functions are neither recorded nor traced. */
  lemma {:induction false} IgnoresForeignAndDunderFrames(s: TracerState, frame: Frame, event: string, arg: TraceArg, copy: Copier)
    requires event == "exception" ==> arg.ExcInfo?
    requires s.filenameOfInterest.Some?
    requires frame.coFilename != s.filenameOfInterest.value || StartsWith(frame.coName, "__")
    ensures TraceVarsStep(s, frame, event, arg, copy) == (s, false)
  {
  }

  /**
   * The first module frame, or any frame of the traced file, appends
   * exactly one entry for each of the four recorded kinds, at `Loc(co_name, f_lineno)`, with the filtered and
   * copied snapshots; any other event appends nothing.
   */
  lemma {:induction false} RecordsTracedFrame(s: TracerState, frame: Frame, event: string, arg: TraceArg, copy: Copier)
    requires event == "exception" ==> arg.ExcInfo?
    requires (s.filenameOfInterest.None? && frame.coName == CoName) || s.filenameOfInterest == Some(frame.coFilename)
    requires !StartsWith(frame.coName, "__")
    ensures var (s', _) := TraceVarsStep(s, frame, event, arg, copy);
            var globs := CapturedGlobals(frame, copy);
            var locs := CapturedLocals(frame, copy);
            var loc := Loc(frame.coName, frame.lineNo);
            (event == "line" ==> s'.trace == s.trace + [(loc, Line(globs, locs))]) &&
            (event == "call" ==> s'.trace == s.trace + [(loc, Call(globs, locs))]) &&
            (event == "return" ==> s'.trace == s.trace + [(loc, Return(globs, locs, arg.value))]) &&
            (event == "exception" ==> s'.trace == s.trace + [(loc, ExceptionOccurred(globs, locs, arg.exception, arg.value, arg.traceback))]) &&
            (event !in {"line", "call", "return", "exception"} ==> s'.trace == s.trace)
  {
  }

  /** A module frame records `{}` as its locals. */
  lemma {:induction false} ModuleFrameHasNoLocals(frame: Frame, copy: Copier)
    requires frame.localsAreGlobals
    ensures CapturedLocals(frame, copy) == []
  {
  }

  /**
   * The trace only grows, by at most one entry per call, and what was
   * recorded is delivered only by the unloading call.
   */
  lemma {:induction false} TraceOnlyGrows(s: TracerState, frame: Frame, event: string, arg: TraceArg, copy: Copier)
    requires event == "exception" ==> arg.ExcInfo?
    ensures var (s', _) := TraceVarsStep(s, frame, event, arg, copy);
            |s.trace| <= |s'.trace| <= |s.trace| + 1 && s'.trace[..|s.trace|] == s.trace &&
            (s'.delivered == s.delivered || (s'.delivered == s.delivered + [s'.trace] && !s'.installed))
  {
  }

  /**
   * The `return` of the traced module's frame unloads the tracer: it is
   * uninstalled, `sys.stdout` is restored, and the callback receives the
   * trace, whose last entry is that `Return`.
   */
  lemma {:induction false} UnloadsOnModuleReturn(s: TracerState, frame: Frame, arg: TraceArg, copy: Copier)
    requires s.filenameOfInterest.None? || s.filenameOfInterest == Some(frame.coFilename)
    requires frame.coName == CoName
    ensures var (s', keep) := TraceVarsStep(s, frame, "return", arg, copy);
            !keep && !s'.installed && !s'.capturingOutput &&
            s'.trace == s.trace + [(Loc(CoName, frame.lineNo), Return(CapturedGlobals(frame, copy), CapturedLocals(frame, copy), arg.value))] &&
            s'.delivered == s.delivered + [s'.trace]
  {
    ModuleIsNoDunder();
  }

  /** Any other traced event keeps the tracer attached to the frame. */
  lemma {:induction false} KeepsTracingOtherwise(s: TracerState, frame: Frame, event: string, arg: TraceArg, copy: Copier)
    requires event == "exception" ==> arg.ExcInfo?
    requires s.filenameOfInterest == Some(frame.coFilename) && !StartsWith(frame.coName, "__")
    requires event != "return" || frame.coName != CoName
    ensures TraceVarsStep(s, frame, event, arg, copy).1
    ensures TraceVarsStep(s, frame, event, arg, copy).0.installed == s.installed
  {
  }
}

/**
 * What the two tracers, src/atrace/__init__.py and src/atrace/tracer.py,
 * have in common: the frame descriptors they read, `ignore_function`,
 * `copy_carefully`, the tracer state and the event built by the `match`.
 *
 * Frames are descriptors holding only what the tracer reads. Deep copying
 * is a capability `copy` that either returns a copy or fails (`None`):
 * `None` stands for `copy.Error` or `TypeError`, the exceptions
 * `copy_carefully` catches.
 */
module Tracing {
  import opened PyModel
  import opened TraceModel
  import opened Diffing

  /** What the tracer reads of a frame: `f_code.co_name`, `co_filename`, `f_lineno`, `f_globals`, `f_locals`. */
  datatype Frame = Frame(coName: string, coFilename: string, lineNo: int,
                         globals: Symbols, locals: Symbols, localsAreGlobals: bool)

  /** The `arg` of a trace call: a value (the return value for `return`), or the triple of an `exception` event. */
  datatype TraceArg = Arg(value: Value) | ExcInfo(exception: Value, value: Value, traceback: Value)

  /** A deep copy attempt: the copy, or `None` where `deepcopy` raises `copy.Error` or `TypeError`. */
  type Copier = Value -> Option<Value>

  // ---------------------------------------------------------------------
  // Symbols

  /** `ignore_function` */
  predicate IgnoreFunction(name: string) {
    StartsWith(name, "__")
  }

  /** What `copy_carefully` stores for one value. */
  function CopiedValue(copy: Copier, v: Value): Value {
    if copy(v).Some? then copy(v).value else v
  }

  /** `copy_carefully` as a specification: each entry in turn stored with its copied value. */
  function CarefulCopy(symbols: Symbols, copy: Copier): Symbols
    decreases |symbols|
  {
    if symbols == [] then []
    else
      var n := |symbols| - 1;
      Put(CarefulCopy(symbols[..n], copy), symbols[n].0, CopiedValue(copy, symbols[n].1))
  }

  /** `copy_carefully`, with its loop */
  method CopyCarefully(symbols: Symbols, copy: Copier) returns (res: Symbols)
    ensures res == CarefulCopy(symbols, copy)
  {
    res := [];
    for i := 0 to |symbols|
      invariant res == CarefulCopy(symbols[..i], copy)
    {
      var (k, v) := symbols[i];
      var vCopy := v;
      var attempt := copy(v);
      if attempt.Some? {
        vCopy := attempt.value;
      }
      assert symbols[..i + 1][..i] == symbols[..i];
      res := Put(res, k, vCopy);
    }
    assert symbols[..|symbols|] == symbols;
  }

  /** The copy has the same names, in the same order, and is again a dictionary. */
  lemma {:induction false} CarefulCopyKeys(symbols: Symbols, copy: Copier)
    requires IsDict(symbols)
    ensures Keys(CarefulCopy(symbols, copy)) == Keys(symbols)
    ensures IsDict(CarefulCopy(symbols, copy))
    decreases |symbols|
  {
    if symbols != [] {
      FrontIsDict(symbols);
      CarefulCopyKeys(symbols[..|symbols| - 1], copy);
      CarefulCopyLastKey(symbols, copy);
    }
    SameKeysIsDict(CarefulCopy(symbols, copy), symbols);
  }

  /** Copying the last entry adds its name after those of the front. */
  lemma {:induction false} CarefulCopyLastKey(symbols: Symbols, copy: Copier)
    requires symbols != [] && IsDict(symbols)
    requires Keys(CarefulCopy(symbols[..|symbols| - 1], copy)) == Keys(symbols[..|symbols| - 1])
    ensures Keys(CarefulCopy(symbols, copy)) == Keys(symbols)
  {
    var n := |symbols| - 1;
    var front := symbols[..n];
    FrontIsDict(symbols);
    assert Keys(CarefulCopy(symbols, copy)) == Keys(front) + [symbols[n].0];
    KeysSnoc(symbols);
  }

  /** Each name's value in the copy is the copy of its value, or the original where copying fails. */
  lemma {:induction false} CarefulCopyGet(symbols: Symbols, copy: Copier, name: string)
    requires IsDict(symbols)
    ensures Get(CarefulCopy(symbols, copy), name) ==
            if Get(symbols, name).Some? then Some(CopiedValue(copy, Get(symbols, name).value)) else None
    decreases |symbols|
  {
    if symbols != [] {
      var n := |symbols| - 1;
      var front := symbols[..n];
      FrontIsDict(symbols);
      CarefulCopyGet(front, copy, name);
      GetPut(CarefulCopy(front, copy), symbols[n].0, CopiedValue(copy, symbols[n].1), name);
      GetFront(symbols, name);
    }
  }

  // ---------------------------------------------------------------------
  // The tracer state

  const CoName: string := ModuleScope

  lemma ModuleIsNoDunder()
    ensures !IgnoreFunction(CoName)
  {
    assert CoName[..2] == "<m";
  }

  /**
   * The tracer's state: `filename_of_interest`, the trace, whether
   * `sys.stdout` is the output logger, whether the trace function is
   * installed, and the traces handed to `done_callback`.
   */
  datatype TracerState = TracerState(filenameOfInterest: Option<string>, trace: Trace,
                                     capturingOutput: bool, installed: bool, delivered: seq<Trace>)

  /** What `Tracer.__init__` leaves: lurking, installed, nothing recorded. */
  const Initial: TracerState := TracerState(None, [], false, true, [])

  /** The event of the `match event`, if the name is one of the four recorded kinds. */
  function RecordedEvent(event: string, globs: Symbols, locs: Symbols, arg: TraceArg): Option<Event>
    requires event == "exception" ==> arg.ExcInfo?
  {
    if event == "line" then Some(Line(globs, locs))
    else if event == "call" then Some(Call(globs, locs))
    else if event == "return" then Some(Return(globs, locs, arg.value))
    else if event == "exception" then Some(ExceptionOccurred(globs, locs, arg.exception, arg.value, arg.traceback))
    else None
  }

  /** `unload` */
  function Unloaded(s: TracerState): TracerState {
    s.(installed := false, capturingOutput := false, delivered := s.delivered + [s.trace])
  }
}

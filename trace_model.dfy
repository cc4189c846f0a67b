/**
 * The data that flows through atrace: the raw trace recorded by the tracer
 * and the history the interpreters make of it.
 */
module TraceModel {
  import opened PyModel

  /** The scope name CPython gives to a module's top-level code. */
  const ModuleScope: string := "<module>"

  /** A variable table snapshot: variable name to value, in insertion order. */
  type Symbols = Dict<string, Value>

  datatype Loc = Loc(functionName: string, lineNo: int)

  /** One recorded event; every variant but `Output` carries snapshots. */
  datatype Event =
    | Line(globals: Symbols, locals: Symbols)
    | Call(globals: Symbols, locals: Symbols)
    | Return(globals: Symbols, locals: Symbols, returnValue: Value)
    | ExceptionOccurred(globals: Symbols, locals: Symbols, exception: Value, value: Value, traceback: Value)
    | Output(text: string)

  type Trace = seq<(Loc, Event)>

  datatype Var = Var(scope: string, name: string)

  /** An assignment is a value, or `UNASSIGN` for a name that disappeared. */
  datatype Assigned = Val(value: Value) | Unassign

  type Assignments = Dict<Var, Assigned>

  /** One element of an unpacked history: `(loc, assignments)` or `(loc, text)`. */
  datatype Unpacked = Assign(loc: Loc, assignments: Assignments) | Text(loc: Loc, text: string)

  type UnpackedHistory = seq<Unpacked>

  /** `(loc, assignments, output)`, where `output` is `None` or a string. */
  datatype HistoryItem = Item(loc: Loc, assignments: Assignments, output: Option<string>)

  type History = seq<HistoryItem>

  /** Every snapshot in the trace is a dictionary (no name twice). */
  predicate WellFormedEvent(e: Event) {
    match e
    case Output(_) => true
    case _ => IsDict(e.globals) && IsDict(e.locals)
  }

  predicate WellFormedTrace(t: Trace) {
    forall i :: 0 <= i < |t| ==> WellFormedEvent(t[i].1)
  }

  /** The texts of the `Output` events of a trace, concatenated in order. */
  function TraceOutput(t: Trace): string {
    if t == [] then [] else TraceOutput(t[..|t| - 1]) + (if t[|t| - 1].1.Output? then t[|t| - 1].1.text else [])
  }

  /** The texts of an unpacked history, concatenated in order. */
  function UnpackedOutput(u: UnpackedHistory): string {
    if u == [] then [] else (if u[0].Text? then u[0].text else []) + UnpackedOutput(u[1..])
  }

  /** The outputs of a history, concatenated in order. */
  function HistoryOutput(h: History): string {
    if h == [] then [] else h[0].output.GetOr([]) + HistoryOutput(h[1..])
  }

  lemma {:induction false} UnpackedOutputAppend(a: UnpackedHistory, b: UnpackedHistory)
    ensures UnpackedOutput(a + b) == UnpackedOutput(a) + UnpackedOutput(b)
  {
    if a == [] {
      assert a + b == b;
    } else {
      assert (a + b)[1..] == a[1..] + b;
      UnpackedOutputAppend(a[1..], b);
    }
  }

  lemma {:induction false} HistoryOutputAppend(a: History, b: History)
    ensures HistoryOutput(a + b) == HistoryOutput(a) + HistoryOutput(b)
  {
    if a == [] {
      assert a + b == b;
    } else {
      assert (a + b)[1..] == a[1..] + b;
      HistoryOutputAppend(a[1..], b);
    }
  }

  /** Python truthiness of an `output` field: not `None` and not empty. */
  predicate HasText(output: Option<string>) {
    output.Some? && output.value != []
  }

  /** `if assignments or output`: the item assigns something or prints something. */
  predicate HasEffect(item: HistoryItem) {
    item.assignments != [] || HasText(item.output)
  }

  /** The number of `Call` events in a trace. */
  function Calls(t: Trace): nat {
    if t == [] then 0 else Calls(t[..|t| - 1]) + (if t[|t| - 1].1.Call? then 1 else 0)
  }

  /** The number of `Return` events in a trace. */
  function Returns(t: Trace): nat {
    if t == [] then 0 else Returns(t[..|t| - 1]) + (if t[|t| - 1].1.Return? then 1 else 0)
  }

  /** No prefix of the trace has more returns than calls before any event. */
  predicate Balanced(t: Trace) {
    forall k :: 0 <= k < |t| ==> Returns(t[..k]) <= Calls(t[..k])
  }
}

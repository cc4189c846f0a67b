# atrace, modelled in Dafny

atrace traces a Python module as it runs. It then shows which line assigned which variable, and what each line printed.

The library works in three stages:
1. **Tracing.** A trace function records a flat trace of `(Loc, Event)` pairs. Each event carries filtered, deep-copied snapshots of the globals and the locals.
2. **Interpreting.** The trace is replayed against a simulated stack of activations. This turns it into a *history* of `(loc, assignments, output)` items: each assignment is credited to the line that performed it, and printed text is coalesced with the assignments of its line.
3. **Reporting.** The history is projected onto table data: a `line` column, one column per variable and an optional `output` column. The small tools around it number the lines, scroll a window over them, schedule the frames of an animation and count executions per line.

This project models the logic of those stages in Dafny and proves what the code promises about it.

Module layout:

| module | models |
|---|---|
| `PyModel` | the Python semantics the code relies on: `Option`, errors, a small value type, `str(int)`, `str.strip`, `str.splitlines`, insertion-ordered dicts (`d[k] = v`, `a \| b`, comprehensions), list comprehensions |
| `TraceModel` | `Loc`, the events, `Var`, `UNASSIGN`, unpacked histories and histories |
| `Diffing` | `diff`, which is the same code in all three interpreters |
| `Tracing`, `AtraceTracing`, `TracerPy` | `copy_carefully` and the tracer state; the tracer of `src/atrace/__init__.py`; the tracer of `src/atrace/tracer.py` |
| `AtraceHistory`, `AtraceHistoryLemmas`, `AtraceScenarios` | the interpreter of `src/atrace/__init__.py`, its properties, and two traces worked out event by event |
| `CoreAnalyzer` | the list-appending copy of that interpreter in `src/atrace/core/analyzer.py` |
| `OldAnalyzer`, `OldScenarios` | the earlier interpreter in `src/atrace/analyzer.py`, how it relates to the current one, and the `test_function` run |
| `Reporter`, `ReporterScenarios` | `history_to_table_data`, and the histories of `tests/test_reporter.py` |
| `ToolSupport` | `add_line_numbers`, `visible_lines` and `animate` |
| `Histogram`, `ToolsHistogram` | `line_histogram` and `display_code_with_bars` of `src/atrace/histogram.py` and `src/atrace/tools/histogram.py` |

Modelling choices:
- **Loops are methods.** Python code that loops is a Dafny method with a loop. Each such method is proved equal to a specification function: `Diff` to `DiffOf`, `TraceToUnpackedHistory` to `Unpack`, `JoinOutputs` to `Join`, `HistoryToTableData` to `Headers` and `Rows`, `LineHistogram` to `HistogramOf`. The properties are lemmas about those functions.
- **The tracer is a class.** `Tracer` has fields that its methods update.
- **Dicts are association lists.** A Python dict is a list of pairs in insertion order, so column order and `UNASSIGN` order can be stated. `IsDict` (no key twice) is a precondition only of lemmas.
- **Errors are results.** A `Line` after the guard activation has been popped raises `IndexError`; `max` of an empty histogram raises `ValueError`. Both are `Err` results, not preconditions.
- **Python values are a small datatype.** A value is `None`, an int, a string, a function, a module or another object (given by its `repr`). `IsNone`, `IsCallable` and `IsModule` test the case; `IsCallable` holds exactly of functions. `ToString` is `str(v)`: the decimal digits of an int, `"<function f>"` for a function and `"<module 'm'>"` for a module (the address and the origin Python adds are omitted), the `repr` of an object.
  - `copy.deepcopy` is a parameter `copy: Value -> Option<Value>`, where `None` means `deepcopy` raised `copy.Error` or `TypeError`, the two exceptions `copy_carefully` catches.
  - A frame is a descriptor holding what `trace_vars` reads: `co_name`, `co_filename`, `f_lineno`, `f_globals`, `f_locals`, and whether `f_locals is f_globals`.
- **Terminal height is a parameter.** `display_height` is passed in. The `generate_display` calls and the `time.sleep` lengths of `animate` are recorded, not performed.

An assignment is credited to the line that ran it. For the trace `fn:0 Call, fn:1 Line, fn:3 Line {x: 0}, fn:3 Return` with `NO_EFFECT`, the `Line` of line 3 reveals `x = 0`, and the location awaiting it is `(fn, 1)`. So the history is `((fn, 1), {x: 0})`, as `AtraceScenarios.AssignHistory` proves.

## Model

| member | source | states |
|---|---|---|
| `PyModel.ToString` | src/atrace/reporter.py:79-85 | `str(value)` of each kind of value: `"None"`, the decimal text of an int, the string itself, `<function name>` and `<module 'name'>` (the address `at 0x...` and the origin `from '...'` are omitted), an object's `repr` |
| `PyModel.IntToString` | src/atrace/reporter.py:73 | `str(line_no)`: a leading `-` exactly for negative numbers, then decimal digits whose value is the number's magnitude |
| `PyModel.IntToStringInjective` | src/atrace/reporter.py:73 | distinct line numbers print as distinct texts |
| `PyModel.NatToString` | src/atrace/reporter.py:73 | `str(n)` for `n >= 0` is all decimal digits, with a leading `0` only for zero, and the value of those digits is `n` |
| `PyModel.IsSpace` | src/atrace/reporter.py:91 | the characters `str.strip` removes: those for which `str.isspace()` holds |
| `PyModel.StripStart` | src/atrace/reporter.py:91 | `lstrip`: a suffix of the text; everything dropped is white space and the result does not start with white space |
| `PyModel.StripEnd` | src/atrace/reporter.py:91 | `rstrip`: a prefix of the text; everything dropped is white space and the result does not end with white space |
| `PyModel.Strip` | src/atrace/reporter.py:91 | `output.strip()`: a contiguous piece of the text whose dropped ends are all white space and which neither starts nor ends with white space; it is empty exactly when the text is all white space |
| `PyModel.StripEnds` | src/atrace/reporter.py:91 | the piece `strip` keeps sits between two all-white-space ends, and it is empty only for all-white-space text |
| `PyModel.SplitLines` | src/atrace/tool_support.py:16 | `source.splitlines()`: a line ends at each line boundary, `\r\n` counts once, and no empty line follows a final boundary |
| `PyModel.SplitLinesFromNoBreaks` | src/atrace/tool_support.py:16 | no line that `splitlines` produces contains a line boundary |
| `PyModel.SplitLinesFromJoin` | src/atrace/tool_support.py:16 | for text whose only breaks are `\n`, joining the lines with `\n` gives the text back, less a final `\n` |
| `PyModel.Keys` | src/atrace/__init__.py:290 | `d.keys()` lists the keys in insertion order, one per entry |
| `PyModel.Get` | src/atrace/__init__.py:286 | a lookup fails exactly for keys not in the dict, and otherwise returns a value stored under that key |
| `PyModel.GetAt` | src/atrace/__init__.py:286 | in a dict, the entry at each position is what a lookup of its key finds |
| `PyModel.Put` | src/atrace/__init__.py:287 | `d[k] = v` keeps an existing key in its position and appends a new key last |
| `PyModel.GetPut` | src/atrace/__init__.py:287 | after `d[k] = v`, `k` maps to `v` and every other key keeps its value |
| `PyModel.PutIsDict` | src/atrace/__init__.py:287 | `d[k] = v` never duplicates a key |
| `PyModel.Union` | src/atrace/__init__.py:320 | `a \| b`: each entry of `b` in turn assigned into `a` |
| `PyModel.GetUnion` | src/atrace/__init__.py:320 | in `a \| b` a key of `b` takes `b`'s value, any other key keeps `a`'s |
| `PyModel.UnionIsDict` | src/atrace/__init__.py:320 | `a \| b` of a dict is a dict |
| `PyModel.Select` | src/atrace/__init__.py:112-116 | a dict comprehension with a condition keeps entries in order, keeps only entries that satisfy the condition, and keeps every entry that does |
| `PyModel.GetSelect` | src/atrace/__init__.py:112-116 | after the comprehension, a key keeps its value if the condition holds for it and is absent otherwise |
| `PyModel.SelectIsDict` | src/atrace/__init__.py:112-116 | the comprehension of a dict is a dict |
| `PyModel.SelectAll` | src/atrace/__init__.py:375 | a comprehension whose condition holds everywhere returns its input |
| `PyModel.Filter` | src/atrace/__init__.py:358-362 | a list comprehension with a condition keeps elements in order, keeps only those that satisfy the condition, and each element that does appears in the result |
| `PyModel.FilterCounts` | src/atrace/__init__.py:358-362 | each element that satisfies the condition is kept as many times as it occurs, and no other element occurs |
| `PyModel.FilterAll` | src/atrace/__init__.py:358-362 | a list comprehension whose condition holds everywhere returns its input |
| `PyModel.SubsequenceKeys` | src/atrace/__init__.py:112-116 | a sub-dictionary's keys are keys of the original |
| `TraceModel.UnpackedOutputAppend` | src/atrace/__init__.py:332-333 | the text of an unpacked history is additive over concatenation |
| `TraceModel.HistoryOutputAppend` | src/atrace/__init__.py:336-351 | the text of a history is additive over concatenation |
| `Diffing.Diff` | src/atrace/__init__.py:281-293 | the two loops of `diff` compute `DiffOf`: the new and changed names in the order of `after`, then the vanished names as `UNASSIGN` in the order of `before` |
| `Diffing.ChangedGet` | src/atrace/__init__.py:285-287 | after the first loop, a variable of this scope maps to its new value exactly when it is in `after` and is new or changed |
| `Diffing.UnassignedGet` | src/atrace/__init__.py:290-291 | the second loop marks `UNASSIGN` exactly on the names in `before` but not in `after`, and leaves other entries unchanged |
| `Diffing.ChangedIsDict` | src/atrace/__init__.py:285-287 | the first loop writes no key twice |
| `Diffing.UnassignedIsDict` | src/atrace/__init__.py:290-291 | the second loop writes no key twice |
| `Diffing.DiffGet` | src/atrace/__init__.py:281-293 | the entry of each variable in `diff` is the new value if new or changed, `UNASSIGN` if it vanished, and nothing if the value is equal or the scope differs; the result is a dict (also src/atrace/core/analyzer.py:45-57 and src/atrace/analyzer.py:44-56) |
| `Diffing.DiffScope` | src/atrace/__init__.py:287-291 | every key of a diff carries the diff's scope |
| `Diffing.DiffOfSame` | src/atrace/__init__.py:281-293 | `diff(s, X, X)` is empty |
| `Diffing.DiffFromEmpty` | src/atrace/__init__.py:313 | `diff(fn, {}, locs)` holds every bound name with its value, and nothing else |
| `Tracing.IgnoreFunction` | src/atrace/__init__.py:119-120 | `ignore_function`: the functions whose name starts with `__` are not traced (same code at src/atrace/tracer.py:94-95) |
| `Tracing.CarefulCopy` | src/atrace/__init__.py:123-137 | what `copy_carefully` builds: each entry in turn stored under its name, with its deep copy or, when `deepcopy` raises `copy.Error` or `TypeError`, its own value |
| `Tracing.RecordedEvent` | src/atrace/__init__.py:206-223 | the `match event`: `line`, `call`, `return` and `exception` each build their event from the snapshots and `arg`; any other event builds none |
| `Tracing.CopyCarefully` | src/atrace/__init__.py:123-137 | the loop of `copy_carefully` computes `CarefulCopy`, entry by entry (same code at src/atrace/tracer.py:98-112) |
| `Tracing.CarefulCopyKeys` | src/atrace/__init__.py:130-137 | the copy has the same names in the same order and is again a dict |
| `Tracing.CarefulCopyGet` | src/atrace/__init__.py:132-136 | each name's value in the copy is the deep copy of its value, or the original value if `deepcopy` raised `copy.Error` or `TypeError` |
| `Tracing.ModuleIsNoDunder` | src/atrace/__init__.py:119-120 | `<module>` is not an ignored function name |
| `AtraceTracing.IgnoreVariable` | src/atrace/__init__.py:107-108 | `ignore_variable`: dunder names and modules are ignored, callables are not |
| `AtraceTracing.FilteredVariables` | src/atrace/__init__.py:111-116 | the kept entries are in order, and none is a dunder name or a module |
| `AtraceTracing.FilteredVariablesGet` | src/atrace/__init__.py:107-116 | a name keeps its value exactly when it is not a dunder name and its value is not a module (callables are kept); the result is a sub-dict |
| `AtraceTracing.TraceVarsStep` | src/atrace/__init__.py:180-238 | one call of `trace_vars`: lurk until the first `<module>` frame, skip other files and dunder functions, record the event, unload on the module's `return` |
| `AtraceTracing.Tracer.constructor` | src/atrace/__init__.py:167-178 | a new tracer is lurking, installed and has an empty trace |
| `AtraceTracing.Tracer.Unload` | src/atrace/__init__.py:240-245 | `unload` uninstalls the tracer, stops capturing output and hands the trace to the callback |
| `AtraceTracing.Tracer.Record` | src/atrace/__init__.py:199-226 | the filtered, careful copies of the frame's globals and locals (`{}` for a module frame) are captured; one entry is appended for a recorded event kind |
| `AtraceTracing.Tracer.TraceVars` | src/atrace/__init__.py:180-238 | one call of `trace_vars` changes the state, and returns whether to keep tracing, exactly as `TraceVarsStep` says |
| `AtraceTracing.LurksUntilModuleFrame` | src/atrace/__init__.py:181-188 | while the file of interest is `None`, a frame that is not `<module>` records nothing and is not traced |
| `AtraceTracing.StartsAtModuleFrame` | src/atrace/__init__.py:181-238 | the first `<module>` frame fixes the file of interest and starts capturing output; its `call` is recorded as the first new entry, `Call` at `(<module>, f_lineno)` with the captured snapshots, and the frame stays traced |
| `AtraceTracing.IgnoresForeignAndDunderFrames` | src/atrace/__init__.py:191-197 | once started, frames of another file or with a `__` name change nothing and are not traced |
| `AtraceTracing.RecordsTracedFrame` | src/atrace/__init__.py:181-226 | the first `<module>` frame, or a frame of the traced file once started, appends exactly one entry at `Loc(co_name, f_lineno)` for a `line`, `call`, `return` or `exception` event, with the captured snapshots and `arg`; any other event appends nothing |
| `AtraceTracing.ModuleFrameHasNoLocals` | src/atrace/__init__.py:200-204 | a module frame records `{}` as its locals |
| `AtraceTracing.TraceOnlyGrows` | src/atrace/__init__.py:180-238 | the trace grows by at most one entry per call, and what was recorded is kept; the trace is delivered only by an unloading call |
| `AtraceTracing.UnloadsOnModuleReturn` | src/atrace/__init__.py:230-236 | the `return` of the traced `<module>` frame records that `Return`, then uninstalls, stops capturing output and delivers the trace, without further tracing |
| `AtraceTracing.KeepsTracingOtherwise` | src/atrace/__init__.py:238 | any other traced event keeps the tracer attached and installed |
| `TracerPy.IgnoreVariable` | src/atrace/tracer.py:82-83 | `ignore_variable`: dunder names, callables and modules are ignored |
| `TracerPy.FilteredVariables` | src/atrace/tracer.py:86-91 | the kept entries are in order, and none is a dunder name, a callable or a module |
| `TracerPy.FilteredVariablesGet` | src/atrace/tracer.py:82-91 | a name keeps its value exactly when `ignore_variable` is false for it; the result is a sub-dict |
| `TracerPy.OnlyThisFilterDropsCallables` | src/atrace/tracer.py:82-83 | a function bound to an ordinary name is dropped here but kept by the tracer of `src/atrace/__init__.py` |
| `TracerPy.TraceVarsStep` | src/atrace/tracer.py:156-213 | one call of this file's `trace_vars`: as in src/atrace/__init__.py, but lurking while the file name is falsy |
| `TracerPy.Tracer.constructor` | src/atrace/tracer.py:143-154 | a new tracer is lurking, installed and has an empty trace |
| `TracerPy.Tracer.Unload` | src/atrace/tracer.py:215-220 | `unload` uninstalls the tracer, stops capturing output and delivers the trace |
| `TracerPy.Tracer.Record` | src/atrace/tracer.py:175-201 | capture and one appended entry for a recorded event kind |
| `TracerPy.Tracer.TraceVars` | src/atrace/tracer.py:156-213 | one call of `trace_vars` changes the state, and returns whether to keep tracing, exactly as this file's `TraceVarsStep` says |
| `TracerPy.LurksWhileFalsy` | src/atrace/tracer.py:157-164 | while the file name is falsy, a non-module frame records nothing and is not traced |
| `TracerPy.StartsAtModuleFrame` | src/atrace/tracer.py:157-213 | a module frame met while lurking fixes the file of interest and starts capturing output; its `call` is recorded as `Call` at `(<module>, f_lineno)` and the frame stays traced |
| `TracerPy.EmptyFileNameSkipsFunctions` | src/atrace/tracer.py:157-164 | with an empty file name, a function frame of the traced file is dropped; the tracer of `src/atrace/__init__.py` records its `line` |
| `TracerPy.IgnoresForeignAndDunderFrames` | src/atrace/tracer.py:167-173 | once started, frames of another file or with a `__` name change nothing and are not traced |
| `TracerPy.RecordsTracedFrame` | src/atrace/tracer.py:157-201 | for a module frame met while lurking, or a frame of the traced file once started: one entry per `line`, `call`, `return` or `exception` event at `Loc(co_name, f_lineno)`, none for other events; module frames record `{}` as locals |
| `TracerPy.UnloadsOnModuleReturn` | src/atrace/tracer.py:205-211 | the `<module>` return records its event, unloads, and returns `None` |
| `TracerPy.TraceOnlyGrows` | src/atrace/tracer.py:156-213 | at most one entry per call, nothing lost, delivery only on unloading |
| `AtraceHistory.LineOrReturn` | src/atrace/__init__.py:316-330 | the `Line`/`Return` case: `IndexError` on an empty stack; else the diffs go to the location the top awaits, if any, and the top then awaits this line (`Line`) or is popped (`Return`) |
| `AtraceHistory.Step` | src/atrace/__init__.py:308-333 | one event of the replay: `Call` pushes and reports the parameters, `Line`/`Return` as `LineOrReturn`, an exception does nothing, `Output` yields its text |
| `AtraceHistory.Run` | src/atrace/__init__.py:305-333 | the replay from the guard activation, event by event, stopping at the first error |
| `AtraceHistory.Unpack` | src/atrace/__init__.py:296-333 | what `_trace_to_unpacked_history` yields, or the error it raises |
| `AtraceHistory.RunErrPrefix` | src/atrace/__init__.py:308-330 | once the replay raises, the rest of the trace does not matter |
| `AtraceHistory.RunCall` | src/atrace/__init__.py:310-314 | a `Call` pushes `Activation(locs, None)` and yields `(loc, diff(fn, {}, locs))` |
| `AtraceHistory.RunEmptyStack` | src/atrace/__init__.py:317 | a `Line` or `Return` on an empty stack raises `IndexError` |
| `AtraceHistory.RunLineOrReturn` | src/atrace/__init__.py:316-330 | a `Line` or `Return` yields the local and `<module>` diffs at the awaited location, if there is one; then it replaces the top activation (`Line`, now awaiting this location) or pops it (`Return`) |
| `AtraceHistory.RunOther` | src/atrace/__init__.py:332-333 | an `Output` yields its text at its own location; an exception event changes nothing |
| `AtraceHistory.ReplayLineOrReturn` | src/atrace/__init__.py:316-330 | the `Line`/`Return` branch of the loop, updating the stack and the globals as `LineOrReturn` says |
| `AtraceHistory.TraceToUnpackedHistory` | src/atrace/__init__.py:296-333 | the loop over the trace yields `Unpack(trace)`: the items of every event in order, or the `IndexError` it raises |
| `AtraceHistory.RunLength` | src/atrace/__init__.py:340 | a `groupby` group has at least one item and fits in the rest of the history |
| `AtraceHistory.RunLengthBounds` | src/atrace/__init__.py:340 | a group is the longest run of equal consecutive locations |
| `AtraceHistory.JoinRun` | src/atrace/__init__.py:341-351 | the inner loop on one group: texts gather into the pending output, which goes with the next assignments item; leftover text becomes an item with no assignments |
| `AtraceHistory.Join` | src/atrace/__init__.py:336-351 | `_join_outputs`: `JoinRun` on each `groupby` group of equal locations, in order |
| `AtraceHistory.JoinAt` | src/atrace/__init__.py:340-351 | joining from a position gives the group that starts there, then the join of what follows it |
| `AtraceHistory.GroupBounds` | src/atrace/__init__.py:340 | inside a group every location equals the first, and the item after the group differs |
| `AtraceHistory.JoinRunStep` | src/atrace/__init__.py:343-348 | a text is added to the pending output; an assignments item is yielded with the pending output, which is then reset |
| `AtraceHistory.JoinGroup` | src/atrace/__init__.py:341-351 | the inner loop of `_join_outputs` handles exactly one group, and what follows is joined independently |
| `AtraceHistory.JoinOutputs` | src/atrace/__init__.py:336-351 | the loop of `_join_outputs` yields `Join(unpacked)` |
| `AtraceHistory.FilterZeroLines` | src/atrace/__init__.py:354-362 | order is kept, each item at a line other than 0 appears in the result, and no item at line 0 is kept |
| `AtraceHistory.FilterZeroLinesCounts` | src/atrace/__init__.py:354-362 | each item at a line other than 0 is kept as many times as it occurs, so repeated equal items all stay |
| `AtraceHistory.FilterNoEffect` | src/atrace/__init__.py:365-371 | order is kept, each item that assigns or prints appears in the result, and no other item is kept |
| `AtraceHistory.FilterNoEffectCounts` | src/atrace/__init__.py:365-371 | each item that assigns or prints is kept as many times as it occurs, so a loop line that prints the same text on each pass keeps every pass |
| `AtraceHistory.RemoveFunctions` | src/atrace/__init__.py:374-375 | the kept entries are in order, none holds a callable, and every entry that holds no callable is kept |
| `AtraceHistory.RemoveFunctionsGet` | src/atrace/__init__.py:374-375 | `_remove_functions` keeps exactly the entries that are not callable, with their values, and gives a dict (same code at src/atrace/core/analyzer.py:141-142) |
| `AtraceHistory.FilterFunctionAssignment` | src/atrace/__init__.py:378-382 | same number of items, same locations and outputs, and each item's assignments are `_remove_functions` of its own: the non-callable entries, in order |
| `AtraceHistory.ApplyFilters` | src/atrace/__init__.py:394-402 | after joining: line-0 items always go, then the function filter if its flag is set, then the no-effect filter if its flag is set |
| `AtraceHistory.HistoryOf` | src/atrace/__init__.py:391-404 | `trace_to_history`: the unpacking error, or the joined and filtered history |
| `AtraceHistory.TraceToHistory` | src/atrace/__init__.py:391-404 | `trace_to_history` unpacks, joins and always drops line 0; then it removes functions, then drops no-effect items, each when its flag is set |
| `AtraceHistoryLemmas.StackDepth` | src/atrace/__init__.py:306-330 | after any trace that replays without error, the stack holds 1 + #Call − #Return activations |
| `AtraceHistoryLemmas.GuardStaysAtBottom` | src/atrace/__init__.py:305-330 | while every `Line` and `Return` belongs to an open call, the replay never fails, the stack holds 1 + #Call − #Return activations, and its bottom is still the guard, with no locals and awaiting `(guard, 0)` |
| `AtraceHistoryLemmas.BalancedTraceReplays` | src/atrace/__init__.py:306-330 | a trace in which no prefix has more returns than calls replays without error |
| `AtraceHistoryLemmas.LineAfterGuardPopFails` | src/atrace/__init__.py:317 | after a `Return` has popped the guard activation, the next `Line` raises `IndexError` |
| `AtraceHistoryLemmas.RevealedGet` | src/atrace/__init__.py:318-320 | what a `Line`/`Return` reveals for a variable: a global's change wins; otherwise a local change in the current function's scope |
| `AtraceHistoryLemmas.CallReportsParameters` | src/atrace/__init__.py:310-314 | a `Call` reports at its own location exactly the bound parameters in the callee's scope, pushes an activation awaiting nothing, and leaves the globals alone |
| `AtraceHistoryLemmas.LineReportsAwaitedLine` | src/atrace/__init__.py:316-328 | a `Line` reports nothing exactly when no location is awaited (first line after a `Call`). Otherwise it reports once, at the awaited location, never its own. Then it awaits itself. Globals changed in a function get scope `<module>`, shadowing locals get the function's scope (tests/test_functions.py:70-108). |
| `AtraceHistoryLemmas.ReturnPopsActivation` | src/atrace/__init__.py:316-330 | a `Return` reports like a `Line`, then pops the top activation |
| `AtraceHistoryLemmas.UnchangedNotReported` | src/atrace/__init__.py:318-320 | a variable whose value did not change is not reported again, for example the parameters already held by a new activation |
| `AtraceHistoryLemmas.StepOutput` | src/atrace/__init__.py:308-333 | the only event that yields text is `Output`, and it yields exactly its text |
| `AtraceHistoryLemmas.UnpackKeepsOutput` | src/atrace/__init__.py:296-333 | the texts of the unpacked history are the `Output` texts of the trace, in order |
| `AtraceHistoryLemmas.UnpackTextLocation` | src/atrace/__init__.py:332-333 | text items sit where the program printed |
| `AtraceHistoryLemmas.JoinRunOutput` | src/atrace/__init__.py:341-351 | one group's items carry the texts of the group, in order, after the pending output |
| `AtraceHistoryLemmas.JoinKeepsOutput` | src/atrace/__init__.py:336-351 | coalescing neither loses, duplicates nor reorders printed text; output on a `Return` line joins that line's item (tests/test_functions.py:215-236) |
| `AtraceHistoryLemmas.JoinRunSilent` | src/atrace/__init__.py:341-348 | a group without text yields items without output |
| `AtraceHistoryLemmas.JoinLineSilent` | src/atrace/__init__.py:336-351 | if nothing was printed at line 0, no joined item at line 0 has output |
| `AtraceHistoryLemmas.JoinRunLocation` | src/atrace/__init__.py:347-351 | every item of a group is at the group's location |
| `AtraceHistoryLemmas.ZeroLinesKeepOutput` | src/atrace/__init__.py:354-362 | dropping silent line-0 items keeps all the output |
| `AtraceHistoryLemmas.NoEffectKeepsOutput` | src/atrace/__init__.py:365-371 | dropping no-effect items keeps all the output |
| `AtraceHistoryLemmas.SameOutputs` | src/atrace/__init__.py:378-382 | histories with the same outputs item by item have the same text, so the function filter keeps the output |
| `AtraceHistoryLemmas.HistoryKeepsOutput` | src/atrace/__init__.py:391-404 | with any filters, the outputs of the history concatenate to the trace's printed text, if nothing printed at line 0 |
| `AtraceHistoryLemmas.JoinRunRecords` | src/atrace/__init__.py:343-348 | a group yields its non-empty assignments, in order, at the group's location |
| `AtraceHistoryLemmas.JoinKeepsAssignments` | src/atrace/__init__.py:336-351 | coalescing keeps every non-empty assignments record, at its location and in order, and adds none; runs at different locations are never merged |
| `AtraceHistoryLemmas.JoinWithoutText` | src/atrace/__init__.py:336-351 | with no output, every assignments item becomes its own history item, even repeated items at one location (the recursive bindings of tests/test_functions.py:115-139) |
| `AtraceHistoryLemmas.HistoryFiltered` | src/atrace/__init__.py:391-404 | no item is at line 0; with `FUNCTION_ASSIGNMENT`, no value is callable; with `NO_EFFECT`, every item assigns or prints |
| `AtraceHistoryLemmas.FilterOrderMatters` | src/atrace/__init__.py:399-402 | some history gives different results when the no-effect filter runs before the function filter, so the no-effect filter must come last |
| `AtraceScenarios.DoubleRunPrefix` | src/atrace/__init__.py:305-333 | the replay of `test_function`'s trace, state by state and yield by yield |
| `AtraceScenarios.DoubleHistory` | src/atrace/__init__.py:391-404 | with `FUNCTION_ASSIGNMENT \| NO_EFFECT`, `test_function`'s trace gives exactly `(double,4) a=3`, `(double,5) result=6`, `(<module>,9) x=6` |
| `AtraceScenarios.AssignRunPrefix` | src/atrace/__init__.py:305-333 | the replay of a function whose first line assigns `x = 0`, event by event |
| `AtraceScenarios.AssignHistory` | src/atrace/__init__.py:316-328 | with `NO_EFFECT`, that trace gives exactly `((fn, 1), {x: 0})`: the assignment is credited to the line that ran it |
| `CoreAnalyzer.LineOrReturnCase` | src/atrace/core/analyzer.py:81-95 | the `Line`/`Return` branch, as `LineOrReturn` says |
| `CoreAnalyzer.TraceToUnpackedHistory` | src/atrace/core/analyzer.py:60-100 | appending to `history` gives the same `Unpack(trace)` as the generator of `src/atrace/__init__.py` |
| `CoreAnalyzer.JoinOutputs` | src/atrace/core/analyzer.py:103-120 | appending to `joined` gives the same `Join(unpacked)` |
| `CoreAnalyzer.TraceToHistory` | src/atrace/core/analyzer.py:158-170 | the same `HistoryOf(trace, filters)`: zero lines always go, then the function filter, then the no-effect filter |
| `OldAnalyzer.OldLineOrReturn` | src/atrace/analyzer.py:80-93 | the `Line`/`Return` case: `IndexError` on an empty stack; else always one report, at the top's `last_loc`, then the top moves to this line or is popped |
| `OldAnalyzer.OldStep` | src/atrace/analyzer.py:72-96 | one event: `Call` pushes an activation whose `last_loc` is the call's location, `Line`/`Return` as `OldLineOrReturn`, an exception matches no case, `Output` yields its text |
| `OldAnalyzer.OldRun` | src/atrace/analyzer.py:69-96 | the replay from the guard activation, event by event, stopping at the first error |
| `OldAnalyzer.OldUnpack` | src/atrace/analyzer.py:59-98 | what `trace_to_unpacked_history` returns, or the error it raises |
| `OldAnalyzer.OldHistoryOf` | src/atrace/analyzer.py:101-129 | `trace_to_history`: the joined history less its items without effect, or the unpacking error |
| `OldAnalyzer.OldRunErrPrefix` | src/atrace/analyzer.py:72-93 | once the replay raises, the rest of the trace does not matter |
| `OldAnalyzer.OldLineOrReturnCase` | src/atrace/analyzer.py:80-93 | the `Line`/`Return` branch, as `OldLineOrReturn` says |
| `OldAnalyzer.TraceToUnpackedHistory` | src/atrace/analyzer.py:59-98 | the loop of `trace_to_unpacked_history` returns `OldUnpack(trace)` |
| `OldAnalyzer.PackHistory` | src/atrace/analyzer.py:101-124 | `pack_history` coalesces like `_join_outputs`, then keeps exactly the items with an effect |
| `OldAnalyzer.TraceToHistory` | src/atrace/analyzer.py:127-129 | `trace_to_history` is `pack_history` of the unpacked history, with no zero-line filter |
| `OldAnalyzer.OneItemPerEvent` | src/atrace/analyzer.py:72-96 | emission is unconditional: every event except an exception yields exactly one item, and the stack has 1 + #Call − #Return activations |
| `OldAnalyzer.CallThenLine` | src/atrace/analyzer.py:74-91 | the first `Line` of a function reports at the `Call` location (`last_loc` starts there); what that line changed goes to the `def` line |
| `OldAnalyzer.LineOrReturnTracks` | src/atrace/analyzer.py:80-93 | the old and current `Line`/`Return` steps fail together; the current step's yield is a subsequence of the old one's |
| `OldAnalyzer.StepTracks` | src/atrace/analyzer.py:72-96 | one event keeps the two replays in step, and the current yield is a subsequence of the old one |
| `OldAnalyzer.CurrentReportsSubsequence` | src/atrace/analyzer.py:59-98 | on every trace both interpreters fail or succeed together, and the current one reports a subsequence of the old one's items |
| `OldAnalyzer.UnpackSubsequence` | src/atrace/analyzer.py:59-98 | the unpacked history of `src/atrace/__init__.py` is a subsequence of this file's |
| `OldScenarios.OldDoubleRunPrefix` | src/atrace/analyzer.py:69-96 | the replay of `test_function`'s trace: one item per event, the first line of `double` reported at its `def` line |
| `OldScenarios.OldDoubleJoin` | src/atrace/analyzer.py:106-117 | both items at the `def` line of `double` stay separate: nothing is merged without output |
| `OldScenarios.OldDoubleEffective` | src/atrace/analyzer.py:119-123 | the no-effect step keeps exactly the three items with assignments |
| `OldScenarios.OldDoubleHistory` | tests/test_functions.py:16-34 | `trace_to_history` of `test_function`'s trace is exactly the expected history |
| `Reporter.ColumnName` | src/atrace/reporter.py:42-43 | the column is `name` for scope `<module>` and `(scope) name` otherwise |
| `Reporter.ColumnNameInjective` | src/atrace/reporter.py:42-43 | two variables get the same column title only if they are equal, when no name contains `(` and no scope contains `)` |
| `Reporter.AddNew` | src/atrace/reporter.py:54-56 | one item's variables only extend `all_variables`, which keeps its prefix |
| `Reporter.AllVariables` | src/atrace/reporter.py:53-56 | `all_variables`: each item's keys added to the columns in turn, when not yet present |
| `Reporter.HasOutput` | src/atrace/reporter.py:57-58 | `history_has_output`: set once some item's output is truthy |
| `Reporter.Headers` | src/atrace/reporter.py:60-65 | `line`, the column names of `all_variables`, and `output` when `history_has_output` |
| `Reporter.CellOf` | src/atrace/reporter.py:76-88 | the `match` on a variable's value: `"None"` for `None`, empty for `UNASSIGN` or an absent variable, `str(value)` otherwise |
| `Reporter.OutputCell` | src/atrace/reporter.py:90-91 | `output.strip() if output else None` |
| `Reporter.Row` | src/atrace/reporter.py:70-91 | `str(line_no)`, one cell per variable, and the output cell when there is an output column |
| `Reporter.Rows` | src/atrace/reporter.py:67-91 | one `Row` per item of the history, in order |
| `Reporter.AddNewMembers` | src/atrace/reporter.py:54-56 | afterwards `all_variables` holds exactly the old ones and the item's, with no duplicates |
| `Reporter.AllVariablesMembers` | src/atrace/reporter.py:53-56 | `all_variables` holds every assigned variable exactly once |
| `Reporter.HasOutputMeaning` | src/atrace/reporter.py:57-58 | `history_has_output` holds exactly when some item's output is truthy |
| `Reporter.ColumnNames` | src/atrace/reporter.py:62-63 | one title per variable, in the same order |
| `Reporter.Cells` | src/atrace/reporter.py:76-88 | one cell per variable, in the same order |
| `Reporter.CollectVariables` | src/atrace/reporter.py:54-56 | the inner loop of the first pass appends each new variable, as `AddNew` says |
| `Reporter.CollectColumns` | src/atrace/reporter.py:53-58 | the first pass computes `AllVariables(history)` and `HasOutput(history)` |
| `Reporter.BuildHeaders` | src/atrace/reporter.py:61-65 | `[line]`, the column names, and `output` when some item has output |
| `Reporter.BuildRow` | src/atrace/reporter.py:70-91 | `str(line_no)`, then one cell per variable, then the output cell when there is an output column |
| `Reporter.BuildRows` | src/atrace/reporter.py:68-91 | one row per item, in order |
| `Reporter.HistoryToTableData` | src/atrace/reporter.py:46-93 | `history_to_table_data` returns `Headers(history)` and `Rows(history)` |
| `Reporter.TableShape` | src/atrace/reporter.py:61-91 | headers are `line`, one title per variable, then `output` when some item printed; one row per item; each row as long as the headers; cell 0 is `str(line_no)` |
| `Reporter.CellOfMeaning` | src/atrace/reporter.py:76-88 | a cell is filled exactly when the item assigns a value (not `UNASSIGN`), with `str(value)`, which is `"None"` for `None` |
| `Reporter.CellShowsAssignment` | src/atrace/reporter.py:76-88 | the cell of row `i` and variable `j` follows those rules for `all_variables[j]` |
| `Reporter.RowCell` | src/atrace/reporter.py:76-88 | cell `1 + j` of a row is the cell of variable `j` |
| `Reporter.EveryAssignmentShown` | src/atrace/reporter.py:53-88 | every assigned value appears in its item's row, under its variable's column |
| `Reporter.OutputColumn` | src/atrace/reporter.py:90-91 | with an output column, an item's last cell is its stripped output if that output is truthy, else empty; without one, no item printed |
| `Reporter.AllVariablesPrefix` | src/atrace/reporter.py:53-56 | the variables of a prefix of a history are a prefix of the history's variables |
| `Reporter.ColumnsInOrderOfAppearance` | src/atrace/reporter.py:53-56 | a column comes before another only if its variable appears no later |
| `Reporter.ForeignAssignments` | src/atrace/reporter.py:11 | the assignments as reporter.py sees them when their `UNASSIGN` is not the one it imports: every other entry as is, the sentinel as a plain object; the keys are unchanged |
| `Reporter.ForeignGet` | src/atrace/reporter.py:11 | a lookup there finds the original value, or the plain object where the original held the sentinel |
| `Reporter.ForeignHistory` | src/atrace/__main__.py:11-13 | the history of `trace_to_history` of src/atrace/__init__.py as the reporter sees it: the same items with the same locations, outputs and keys |
| `Reporter.ForeignColumns` | src/atrace/reporter.py:53-58 | such a history has the same columns and the same output column as the original |
| `Reporter.ForeignCell` | src/atrace/reporter.py:80-87 | with the reporter's own sentinel a vanished variable's cell is empty; with another interpreter's it shows that object's `str` |
| `Reporter.ForeignSentinelShown` | src/atrace/reporter.py:82 | in the table of such a history, a vanished variable's cell shows `str(object())` where the original's is empty |
| `ReporterScenarios.AllAssignmentsTable` | src/atrace/reporter.py:76-88 | for the history of `test_all_assignments`: a value, `None` shown as `"None"`, `UNASSIGN` shown as an empty cell, then a value again |
| `ReporterScenarios.WithScopesTable` | src/atrace/reporter.py:60-91 | for the history of `test_with_scopes`: function variables titled `(double) a`, `(double) result` in order of appearance, then `x`; each row fills only its own variable |
| `ReporterScenarios.JustOneNumberTable` | tests/test_reporter.py:81-92 | a single printing item gives headers `line`, `output` and the row `1`, `1` |
| `ReporterScenarios.SmallExampleHeaders` | tests/test_reporter.py:51-79 | the headers of `test_small_example`: `line`, `x`, `y`, `t`, `(greet) name`, `(greet) message`, `output` |
| `ReporterScenarios.SmallExampleRows` | tests/test_reporter.py:51-79 | the row of the printing item shows only the stripped `x: 3`; the row of the tuple shows `(1, 2)` |
| `ToolSupport.Texts` | src/atrace/tool_support.py:12 | the texts of numbered lines, in order |
| `ToolSupport.AddLineNumbers` | src/atrace/tool_support.py:15-16 | one pair per line of `splitlines`, the lines in order, numbered consecutively from 1 |
| `ToolSupport.AddLineNumbersRecoversSource` | src/atrace/tool_support.py:15-16 | the numbered texts rejoined give the source back (except a final newline) and contain no line break |
| `ToolSupport.SliceIndex` | src/atrace/tool_support.py:33 | a slice bound is clamped to the length, and a negative one counts from the end |
| `ToolSupport.Slice` | src/atrace/tool_support.py:33 | a slice is no longer than its list |
| `ToolSupport.VisibleLines` | src/atrace/tool_support.py:24-33 | `visible_lines`: from `max(0, line_no − display_height)`, or 0 without a current location, up to `min(len, start + display_height)` |
| `ToolSupport.VisibleTopLines` | src/atrace/tool_support.py:27-33 | without a current location, the first `min(len, display_height)` lines |
| `ToolSupport.VisibleWindow` | src/atrace/tool_support.py:27-33 | with a current location, the contiguous slice from `max(0, line_no − h)`, at most `h` and at most `len` long |
| `ToolSupport.VisibleShowsCurrentLine` | src/atrace/tool_support.py:28-33 | if `1 ≤ line_no ≤ len` and `h ≥ 1`, the window contains the current line, which is last once the program has scrolled |
| `ToolSupport.VisibleShowsCurrentNumber` | src/atrace/tool_support.py:15-33 | on numbered source, the line numbered `line_no` is in the window |
| `ToolSupport.NegativeHeightCountsFromEnd` | src/atrace/tool_support.py:31-33 | a negative `display_height` (a terminal of no lines) drops lines from the end, as Python slicing does |
| `ToolSupport.Animate` | src/atrace/tool_support.py:45-61 | `animate` issues the updates of `Schedule` and one pause per item, of an equal share of five seconds |
| `ToolSupport.Schedule` | src/atrace/tool_support.py:50-61 | the `live.update` calls: the prefix ending at each item with that item's location, then the whole history with no location |
| `ToolSupport.Pauses` | src/atrace/tool_support.py:57 | one `time.sleep(ANIMATION_SECONDS / len(history))` per item |
| `ToolSupport.ScheduleShowsGrowingPrefixes` | src/atrace/tool_support.py:50-61 | for `i < n`, the update shows `history[:i+1]` at `history[i]`'s location, then one final update of the full history with no location |
| `ToolSupport.EmptyHistoryAnimatesOnce` | src/atrace/tool_support.py:50-61 | an empty history gets only the final update, so the division by `len(history)` is never reached |
| `ToolSupport.AnimationTakesFiveSeconds` | src/atrace/tool_support.py:38-57 | the pauses add up to `ANIMATION_SECONDS` |
| `ToolSupport.ColumnsStableDuringAnimation` | src/atrace/tool_support.py:51-55 | the columns of every frame are a prefix of the final table's, so columns never move |
| `Histogram.Increment` | src/atrace/histogram.py:18 | `result[n] += 1` on a `defaultdict` adds `n` as the last key if new |
| `Histogram.IncrementGet` | src/atrace/histogram.py:18 | `+= 1` raises that line's count by one, starting from 0, and leaves the others |
| `Histogram.IncrementIsDict` | src/atrace/histogram.py:18 | `+= 1` keeps the keys distinct |
| `Histogram.HistogramOf` | src/atrace/histogram.py:15-19 | the dict `line_histogram` builds: one `+= 1` per item, at its line, in order |
| `Histogram.LineHistogram` | src/atrace/histogram.py:15-19 | the loop of `line_histogram` computes `HistogramOf(history)`; the same loop is at src/atrace/tools/histogram.py:19-23 |
| `Histogram.CountPositive` | src/atrace/histogram.py:15-19 | a line has a positive count exactly when some item is at it |
| `Histogram.CountConcat` | src/atrace/histogram.py:17-18 | counting is additive over concatenation |
| `Histogram.HistogramIsDict` | src/atrace/histogram.py:15-19 | no line number is a key twice |
| `Histogram.HistogramCounts` | src/atrace/histogram.py:15-19 | `line_histogram[n]` is the number of items at line `n`, and `n` is absent when that number is 0 |
| `Histogram.HistogramKeys` | src/atrace/histogram.py:15-19 | the keys are exactly the line numbers present |
| `Histogram.HistogramTotal` | src/atrace/histogram.py:15-19 | the counts sum to `len(history)` |
| `Histogram.HistogramEmpty` | src/atrace/histogram.py:15-19 | only the empty history has an empty histogram |
| `Histogram.MaxExecutions` | src/atrace/histogram.py:26 | `max` of the counts is the largest count and is attained; it raises `ValueError` exactly on an empty histogram |
| `Histogram.MaxExecutionsOfHistogram` | src/atrace/histogram.py:26 | on a non-empty history the maximum count is at least 1 |
| `Histogram.BarRowOf` | src/atrace/histogram.py:40-45 | one row: the line, `str(num_executions)` with 0 for an unseen line, and `Bar(size=max_executions, end=num_executions)` |
| `Histogram.CodeWithBars` | src/atrace/histogram.py:22-47 | the `ValueError` of `max` on an empty histogram, or one `BarRowOf` per numbered line |
| `Histogram.BarRows` | src/atrace/histogram.py:34-45 | one row per numbered line, in order |
| `Histogram.DisplayCodeWithBars` | src/atrace/histogram.py:22-47 | `display_code_with_bars` produces the rows of `CodeWithBars`, or the `ValueError` of `max` |
| `Histogram.CodeWithBarsRows` | src/atrace/histogram.py:25-45 | on a non-empty histogram there is one row per source line, built from its count and the maximum |
| `Histogram.BarRowOfHistogram` | src/atrace/histogram.py:40-45 | line `i + 1`'s row shows its text and `str` of its count (0 for a line that never ran); its bar ends at the count, at most the bar's size |
| `Histogram.BarsOfEmptyHistory` | src/atrace/histogram.py:26 | the chart raises `ValueError` exactly for an empty history |
| `Histogram.BarsOfHistogram` | src/atrace/histogram.py:22-47 | for a non-empty history: one row per line, each with its number, text, count and a bar end at most the size |
| `ToolsHistogram.FiltersNoneDropsOnlyZeroLines` | src/atrace/tools/histogram.py:27 | `Filters.NONE` fails exactly when unpacking does, and otherwise only drops the items at line 0 |
| `ToolsHistogram.CountZeroLines` | src/atrace/tools/histogram.py:27-28 | dropping line-0 items leaves every other line's count unchanged |
| `ToolsHistogram.TraceHistogramCounts` | src/atrace/tools/histogram.py:27-28 | the tool counts each line other than 0 as in the joined history, no-effect items included |
| `ToolsHistogram.DisplayCodeWithBars` | src/atrace/tools/histogram.py:26-59 | `display_code_with_bars(source, trace)` produces the rows of `TraceBars`, or the error raised |
| `ToolsHistogram.TraceBarsErrors` | src/atrace/tools/histogram.py:27-32 | the tool fails exactly when unpacking fails or no item is left, and the latter is `max`'s `ValueError` |
| `ToolsHistogram.TraceBarRow` | src/atrace/tools/histogram.py:52-57 | line `i + 1`'s row shows its text and count (0 if unseen), with a bar end at most `max_executions` |
| `ToolsHistogram.TraceBarsRows` | src/atrace/tools/histogram.py:41-57 | one row per source line, each with its number, text, count and bounded bar end |

## Left out

- The interpreter hooks: `sys.settrace`, `f_trace` attachment and `attached_to_frame`.
  - These are interpreter I/O. They are reduced to the tracer's `installed` flag.
- `OutputLogger`, which appends the `Output` events. It reads `sys._getframe` and swaps `sys.stdout`.
  - These are interpreter I/O. They are reduced to the `capturingOutput` flag.
  - `Output` events enter the model only through the trace given to the interpreter.
- Auto-tracing on import (`_get_importer_frame`, `inspect.stack`) depends on runtime introspection.
- The callback, `done_callback(self.trace)`, is foreign code. The model records each delivered trace instead.
- Python's value semantics are reduced to six kinds of value. `copy.deepcopy` is a parameter; `callable`, `isinstance(ModuleType)`, `==` and `str()` are decided by the kind.
- Other exceptions from `copy.deepcopy` (a `RecursionError`, or whatever a user `__deepcopy__` raises) propagate out of `trace_vars` in the source (src/atrace/__init__.py:133-135, src/atrace/tracer.py:107-109). The model does not represent them: the `copy` capability either succeeds or fails with one of the two caught exceptions.
- Callable classes and objects with `__call__` are not represented: `IsCallable` holds only of `Function` values, so an `Object` is never callable, and `_remove_functions` and tracer.py's `ignore_variable` keep it.
- The three `UNASSIGN` sentinels (src/atrace/__init__.py:265, src/atrace/core/analyzer.py:30, src/atrace/analyzer.py:29) are one `Unassign` value in the interpreters. How reporter.py treats another module's sentinel is modelled apart, by `Reporter.ForeignHistory` (see "## Findings").
- Aliasing of the activations is not captured.
  - In the source, `activation = activations[-1]` is an object mutated in place.
  - In the model, activations are values, and updating the top replaces the last element. The only alias in the code is that local, so the results are the same.
- Diffing.Diff: the order of the `UNASSIGN` entries comes from a set difference, whose order Python does not fix. The model takes the order of `before`, one admissible order; the lemmas about diffs state membership, which holds in any order.
- All `rich` rendering is left out, because it is presentation.
  - That covers `table_data_to_table`, `history_to_table`, `history_to_report`, `code.py`, `animated.py`, `animated_histogram.py` and `tools/code_with_trace.py`.
  - It also covers the `Syntax`, `Bar`, `Padding` and `Live` widgets. A bar row records the values the widget is given.
- Floating-point display logic (`color_for_intensity`, `clamp`, the trail scaling) is left out, and so is `value_width` via `math.log10`.
- ToolSupport.Animate: the pauses are exact reals, not Python floats, and `time.sleep` is not performed.
- Localization and the Thonny configuration are left out, because they are I/O. `LINE` and `OUTPUT` are the untranslated strings.
- `display_height` comes from the terminal size. It is a parameter.
- src/atrace/__init__.py:412 imports `print_history` from reporter.py, which defines none, so importing the package raises `ImportError` as the files stand. The model takes that import as resolved.
- The CLI entry points and `compile`/`exec` are process I/O. That covers `__main__.py`, `tools/trace.py`, the `run()` functions and the `__main__` block of `src/atrace/histogram.py`.
- Call sites that do not match the current API are not used as specification:
  - `keep_no_effect=True` (src/atrace/histogram.py:67), and the undefined `trace_code` and `generate_code_and_histogram_display`;
  - `tests/test_simple.py`, and the dict-valued `history_to_table` expectations (`test_with_output` in particular).
  - The histories of `test_all_assignments` and `test_with_scopes` are used only as inputs to `history_to_table_data`.
- No special case is modelled for generator re-entry (tests/test_functions.py:185-204). No trace for it is shown, and the algorithm does not special-case it.
- Well-formed `Call`/`Return` nesting is not assumed. An ill-nested trace follows the code: the `Err(IndexError)` path.
- Reporter.CellOfMeaning: `str(value)` is `ToString` on six kinds of value. A tuple or any other object is an `Object` whose `repr` is given with it, so the text of `str((1, 2))` is taken from the history's value rather than computed.

## Findings

| source | as written | input that shows it | evidently intended | confidence | as-written member | corrected member |
|---|---|---|---|---|---|---|
| src/atrace/tracer.py:157 | `if not self.filename_of_interest:` tests falsiness, so an empty file name counts as "not started yet" | hypothetical, since no call site in the repository creates tracer.py's `Tracer`: a module compiled with `filename=""` (the way src/atrace/tools/histogram.py:75 compiles, though that tool uses the tracer of src/atrace/__init__.py). After its `<module>` frame sets the file name to `""`, a `line` event of one of its functions is dropped and that frame is not traced | `is None`, as src/atrace/__init__.py:181 writes it, so that functions of that module are traced | medium; not executed | `TracerPy.EmptyFileNameSkipsFunctions` | `AtraceTracing.RecordsTracedFrame` |
| src/atrace/reporter.py:11 | reporter.py imports `UNASSIGN` from src/atrace/core/analyzer.py:30 and tests `value is UNASSIGN` (line 82). But src/atrace/__main__.py:6-13 gives it the history of `trace_to_history` of src/atrace/__init__.py, whose vanished variables carry the other `object()` of src/atrace/__init__.py:265 | once `from .reporter import print_history` (src/atrace/__init__.py:412) resolves (reporter.py defines no `print_history`, so as the files stand the package raises `ImportError` before any table is drawn): `python -m atrace` on a program whose module level runs `x = 1` then `del x`: the item of the `del` line maps `x` to the sentinel of src/atrace/__init__.py, `is UNASSIGN` fails, and the cell shows `<object object at 0x...>` instead of staying empty | one sentinel shared by the interpreters and the reporter, so a vanished variable's cell is empty; tests/test_reporter.py:4 builds its history with the `UNASSIGN` of src/atrace/analyzer.py and expects an empty cell for it (lines 14 and 20), a second instance of the same mismatch | medium; not executed | `Reporter.ForeignSentinelShown` | `Reporter.CellShowsAssignment` |

/**
 * src/atrace/analyzer.py: the earlier interpreter, which tests/test_functions.py
 * still exercises. Its activations remember the last location seen in
 * them instead of an optional location awaiting assignments, so every
 * `Line` and `Return` reports something, and the first line of a function
 * reports at the function's `Call` location. `pack_history` coalesces and
 * drops items without effect in one go, and no zero-line filter exists.
 */
module OldAnalyzer {
  import opened PyModel
  import opened TraceModel
  import opened Diffing
  import opened AtraceHistory
  import CoreAnalyzer

  /** `Activation(locals, last_loc)` */
  datatype OldActivation = OldActivation(locals: Symbols, lastLoc: Loc)

  datatype OldReplay = OldReplay(currentGlobals: Symbols, activations: seq<OldActivation>)

  /** No globals, and the guard activation at line 0 of "guard". */
  const OldStart: OldReplay := OldReplay([], [OldActivation([], GuardLoc)])

  /** A `Line` (`isLine`) or `Return`: always one report, at the top's last location. */
  function OldLineOrReturn(r: OldReplay, loc: Loc, globs: Symbols, locs: Symbols, isLine: bool): Result<(OldReplay, UnpackedHistory)> {
    if r.activations == [] then Err(IndexError)
    else
      var n := |r.activations| - 1;
      var top := r.activations[n];
      var assignments := Union(DiffOf(loc.functionName, top.locals, locs), DiffOf(ModuleScope, r.currentGlobals, globs));
      var stack := if isLine then r.activations[..n] + [OldActivation(locs, loc)] else r.activations[..n];
      Ok((OldReplay(globs, stack), [Assign(top.lastLoc, assignments)]))
  }

  /** One event; an exception event matches no case of the `match` and is ignored. */
  function OldStep(r: OldReplay, loc: Loc, event: Event): Result<(OldReplay, UnpackedHistory)> {
    match event
    case Call(_, locs) =>
      Ok((OldReplay(r.currentGlobals, r.activations + [OldActivation(locs, loc)]),
          [Assign(loc, DiffOf(loc.functionName, [], locs))]))
    case Line(globs, locs) => OldLineOrReturn(r, loc, globs, locs, true)
    case Return(globs, locs, _) => OldLineOrReturn(r, loc, globs, locs, false)
    case ExceptionOccurred(_, _, _, _, _) => Ok((r, []))
    case Output(text) => Ok((r, [Text(loc, text)]))
  }

  function OldRun(t: Trace): Result<(OldReplay, UnpackedHistory)>
    decreases |t|
  {
    if t == [] then Ok((OldStart, []))
    else
      match OldRun(t[..|t| - 1])
      case Err(e) => Err(e)
      case Ok((r, h)) =>
        match OldStep(r, t[|t| - 1].0, t[|t| - 1].1)
        case Err(e) => Err(e)
        case Ok((r', y)) => Ok((r', h + y))
  }

  function OldUnpack(t: Trace): Result<UnpackedHistory> {
    match OldRun(t)
    case Err(e) => Err(e)
    case Ok((_, h)) => Ok(h)
  }

  /** The history `trace_to_history` of this file returns: coalesced, then only items with an effect. */
  function OldHistoryOf(t: Trace): Result<History> {
    match OldUnpack(t)
    case Err(e) => Err(e)
    case Ok(u) => Ok(FilterNoEffect(Join(u)))
  }

  lemma {:induction false} OldRunSnoc(t: Trace, i: nat)
    requires i < |t|
    ensures OldRun(t[..i + 1]) ==
            if OldRun(t[..i]).Err? then OldRun(t[..i])
            else
              var s := OldStep(OldRun(t[..i]).value.0, t[i].0, t[i].1);
              if s.Err? then Err(s.error) else Ok((s.value.0, OldRun(t[..i]).value.1 + s.value.1))
  {
    assert t[..i + 1][..i] == t[..i];
  }

  lemma {:induction false} OldRunErrPrefix(t: Trace, k: nat)
    requires k <= |t| && OldRun(t[..k]).Err?
    ensures OldRun(t) == OldRun(t[..k])
    decreases |t|
  {
    if k < |t| {
      assert t[..|t| - 1][..k] == t[..k];
      OldRunErrPrefix(t[..|t| - 1], k);
    } else {
      assert t[..k] == t;
    }
  }

  // ---------------------------------------------------------------------
  // The methods

  method OldLineOrReturnCase(currentGlobals: Symbols, activations: seq<OldActivation>, loc: Loc,
                             globs: Symbols, locs: Symbols, isLine: bool)
    returns (newGlobals: Symbols, newActivations: seq<OldActivation>, yielded: UnpackedHistory)
    requires activations != []
    ensures OldLineOrReturn(OldReplay(currentGlobals, activations), loc, globs, locs, isLine) ==
            Ok((OldReplay(newGlobals, newActivations), yielded))
  {
    var n := |activations| - 1;
    var activation := activations[n];
    var localAssignments := Diff(loc.functionName, activation.locals, locs);
    var globalAssignments := Diff(ModuleScope, currentGlobals, globs);
    var assignments := Union(localAssignments, globalAssignments);
    yielded := [Assign(activation.lastLoc, assignments)];
    newGlobals := globs;
    if isLine {
      newActivations := activations[..n] + [OldActivation(locs, loc)];
    } else {
      newActivations := activations[..n];
    }
  }

  /** `trace_to_unpacked_history` */
  method TraceToUnpackedHistory(trace: Trace) returns (result: Result<UnpackedHistory>)
    ensures result == OldUnpack(trace)
  {
    var history: UnpackedHistory := [];
    var currentGlobals: Symbols := [];
    var activations: seq<OldActivation> := [OldActivation([], GuardLoc)];
    for i := 0 to |trace|
      invariant OldRun(trace[..i]) == Ok((OldReplay(currentGlobals, activations), history))
    {
      var (loc, event) := trace[i];
      OldRunSnoc(trace, i);
      if event.Call? {
        activations := activations + [OldActivation(event.locals, loc)];
        var localAssignments := Diff(loc.functionName, [], event.locals);
        history := history + [Assign(loc, localAssignments)];
      } else if event.Line? || event.Return? {
        if activations == [] {
          OldRunErrPrefix(trace, i + 1);
          return Err(IndexError);
        }
        var yielded;
        currentGlobals, activations, yielded :=
          OldLineOrReturnCase(currentGlobals, activations, loc, event.globals, event.locals, event.Line?);
        history := history + yielded;
      } else if event.Output? {
        history := history + [Text(loc, event.text)];
      } else {
        assert history + [] == history;
      }
    }
    assert trace[..|trace|] == trace;
    result := Ok(history);
  }

  /**
   * `pack_history`. Its `groupby` loop is the loop of `_join_outputs` in
   * src/atrace/core/analyzer.py, line for line, and is that method here.
   */
  method PackHistory(unpacked: UnpackedHistory) returns (filtered: History)
    ensures filtered == FilterNoEffect(Join(unpacked))
  {
    var coalesced := CoreAnalyzer.JoinOutputs(unpacked);
    filtered := FilterNoEffect(coalesced);
  }

  /** `trace_to_history` */
  method TraceToHistory(trace: Trace) returns (result: Result<History>)
    ensures result == OldHistoryOf(trace)
  {
    var unpacked := TraceToUnpackedHistory(trace);
    if unpacked.Err? {
      return Err(unpacked.error);
    }
    var history := PackHistory(unpacked.value);
    return Ok(history);
  }

  // ---------------------------------------------------------------------
  // Properties

  /** The events that are not exceptions. */
  function Reporting(t: Trace): nat
    decreases |t|
  {
    if t == [] then 0
    else Reporting(t[..|t| - 1]) + if t[|t| - 1].1.ExceptionOccurred? then 0 else 1
  }

  /** Every event but an exception yields exactly one unpacked item. */
  lemma {:induction false} OneItemPerEvent(t: Trace)
    requires OldRun(t).Ok?
    ensures |OldRun(t).value.1| == Reporting(t)
    ensures |OldRun(t).value.0.activations| == 1 + Calls(t) - Returns(t)
    decreases |t|
  {
    if t != [] {
      var i := |t| - 1;
      assert t[..i + 1] == t;
      OldRunSnoc(t, i);
      if OldRun(t[..i]).Err? {
        assert false;
      }
      OneItemPerEvent(t[..i]);
    }
  }

  /**
   * The first line of a function reports at the function's `Call` location:
   * whatever that line's execution changed is attributed to the `def` line.
   */
  lemma {:induction false} CallThenLine(r: OldReplay, callLoc: Loc, g: Symbols, params: Symbols, lineLoc: Loc, globs: Symbols, locs: Symbols)
    ensures var first := OldStep(r, callLoc, Call(g, params));
            first.Ok? &&
            OldStep(first.value.0, lineLoc, Line(globs, locs)) ==
            Ok((OldReplay(globs, r.activations + [OldActivation(locs, lineLoc)]),
                [Assign(callLoc, Union(DiffOf(lineLoc.functionName, params, locs), DiffOf(ModuleScope, r.currentGlobals, globs)))]))
  {
    var stack := r.activations + [OldActivation(params, callLoc)];
    assert stack[..|stack| - 1] == r.activations;
  }

  // ---------------------------------------------------------------------
  // The current interpreter reports a subsequence of what this one reports

  /**
   * A replay state of src/atrace/__init__.py tracks one of this file: the
   * same globals, the same stack of locals, and each location awaiting
   * assignments is the activation's last location.
   */
  predicate Tracks(r: Replay, o: OldReplay) {
    r.currentGlobals == o.currentGlobals && StackTracks(r.activations, o.activations)
  }

  /** Frame by frame the same locals, and a pending location is the old frame's last one. */
  predicate StackTracks(a: seq<Activation>, b: seq<OldActivation>) {
    |a| == |b| &&
    forall i :: 0 <= i < |a| ==>
      a[i].locals == b[i].locals &&
      (a[i].locAwaitingAssignments.Some? ==> a[i].locAwaitingAssignments.value == b[i].lastLoc)
  }

  lemma {:induction false} StackTracksPrefix(a: seq<Activation>, b: seq<OldActivation>, n: nat)
    requires StackTracks(a, b) && n <= |a|
    ensures StackTracks(a[..n], b[..n])
  {
  }

  lemma {:induction false} StackTracksPush(a: seq<Activation>, b: seq<OldActivation>, x: Activation, y: OldActivation)
    requires StackTracks(a, b) && x.locals == y.locals && (x.locAwaitingAssignments.Some? ==> x.locAwaitingAssignments.value == y.lastLoc)
    ensures StackTracks(a + [x], b + [y])
  {
    var a', b' := a + [x], b + [y];
    forall i | 0 <= i < |a'|
      ensures a'[i].locals == b'[i].locals
      ensures a'[i].locAwaitingAssignments.Some? ==> a'[i].locAwaitingAssignments.value == b'[i].lastLoc
    {
      if i < |a| {
        assert a'[i] == a[i] && b'[i] == b[i];
      }
    }
  }

  lemma {:induction false} SubsequenceEmpty<T>(b: seq<T>)
    ensures IsSubsequence([], b)
    decreases |b|
  {
    if b != [] {
      SubsequenceEmpty(b[1..]);
    }
  }

  lemma {:induction false} SubsequenceRefl<T>(a: seq<T>)
    ensures IsSubsequence(a, a)
    decreases |a|
  {
    if a != [] {
      SubsequenceRefl(a[1..]);
    }
  }

  lemma {:induction false} SubsequenceConcat<T>(a: seq<T>, b: seq<T>, c: seq<T>, d: seq<T>)
    requires IsSubsequence(a, b) && IsSubsequence(c, d)
    ensures IsSubsequence(a + c, b + d)
    decreases |b|
  {
    if b == [] {
      assert a + c == c && b + d == d;
    } else {
      assert (b + d)[1..] == b[1..] + d;
      if a != [] && a[0] == b[0] && IsSubsequence(a[1..], b[1..]) {
        SubsequenceConcat(a[1..], b[1..], c, d);
        assert (a + c)[1..] == a[1..] + c;
      } else {
        SubsequenceConcat(a, b[1..], c, d);
      }
    }
  }

  /** A `Line` or `Return` keeps the tracking and yields a subsequence of the old yield. */
  lemma {:induction false} LineOrReturnTracks(r: Replay, o: OldReplay, loc: Loc, globs: Symbols, locs: Symbols, isLine: bool)
    requires Tracks(r, o)
    ensures var s, os := LineOrReturn(r, loc, globs, locs, isLine), OldLineOrReturn(o, loc, globs, locs, isLine);
            s.Ok? == os.Ok? &&
            (s.Ok? ==> Tracks(s.value.0, os.value.0) && IsSubsequence(s.value.1, os.value.1))
  {
    var s := LineOrReturn(r, loc, globs, locs, isLine);
    var os := OldLineOrReturn(o, loc, globs, locs, isLine);
    if s.Ok? {
      var n := |r.activations| - 1;
      assert r.activations[n].locals == o.activations[n].locals;
      if r.activations[n].locAwaitingAssignments.Some? {
        SubsequenceRefl(s.value.1);
      } else {
        SubsequenceEmpty(os.value.1);
      }
      StackTracksPrefix(r.activations, o.activations, n);
      if isLine {
        StackTracksPush(r.activations[..n], o.activations[..n], Activation(locs, Some(loc)), OldActivation(locs, loc));
      }
    }
  }

  /** One event keeps the tracking and yields a subsequence of the old yield. */
  lemma {:induction false} StepTracks(r: Replay, o: OldReplay, loc: Loc, e: Event)
    requires Tracks(r, o)
    ensures Step(r, loc, e).Ok? == OldStep(o, loc, e).Ok?
    ensures Step(r, loc, e).Ok? ==>
            Tracks(Step(r, loc, e).value.0, OldStep(o, loc, e).value.0) &&
            IsSubsequence(Step(r, loc, e).value.1, OldStep(o, loc, e).value.1)
  {
    var s := Step(r, loc, e);
    var os := OldStep(o, loc, e);
    if e.Call? || e.Output? {
      SubsequenceRefl(s.value.1);
    } else if e.ExceptionOccurred? {
      SubsequenceEmpty(os.value.1);
    } else {
      LineOrReturnTracks(r, o, loc, e.globals, e.locals, e.Line?);
    }
  }

  /**
   * On every trace both interpreters fail or succeed together, and the
   * current one reports a subsequence of the old one's items: it only drops
   * the reports of a function's first line, which the old one attributes to
   * the `def` line.
   */
  lemma {:induction false} CurrentReportsSubsequence(t: Trace)
    ensures Run(t).Ok? == OldRun(t).Ok?
    ensures Run(t).Ok? ==> Tracks(Run(t).value.0, OldRun(t).value.0) &&
                           IsSubsequence(Run(t).value.1, OldRun(t).value.1)
    decreases |t|
  {
    if t == [] {
      SubsequenceRefl<Unpacked>([]);
    } else {
      var i := |t| - 1;
      assert t[..i + 1] == t;
      CurrentReportsSubsequence(t[..i]);
      RunSnoc(t, i);
      OldRunSnoc(t, i);
      if Run(t[..i]).Ok? {
        var r := Run(t[..i]).value;
        var o := OldRun(t[..i]).value;
        StepTracks(r.0, o.0, t[i].0, t[i].1);
        if Step(r.0, t[i].0, t[i].1).Ok? {
          SubsequenceConcat(r.1, o.1, Step(r.0, t[i].0, t[i].1).value.1, OldStep(o.0, t[i].0, t[i].1).value.1);
        }
      }
    }
  }

  lemma {:induction false} UnpackSubsequence(t: Trace)
    ensures Unpack(t).Ok? == OldUnpack(t).Ok?
    ensures Unpack(t).Ok? ==> IsSubsequence(Unpack(t).value, OldUnpack(t).value)
  {
    CurrentReportsSubsequence(t);
  }
}

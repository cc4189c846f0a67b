/**
 * src/atrace/tools/histogram.py: the histogram tool of the `atrace.tools`
 * package. Its `line_histogram` is the same loop as the one of
 * src/atrace/histogram.py, modelled once as `Histogram.LineHistogram`; its
 * `display_code_with_bars` takes the trace itself, turns it into a history
 * with `Filters.NONE` and then draws the same table. The width of the value
 * column, computed with `math.log10`, is not modelled.
 */
module ToolsHistogram {
  import opened PyModel
  import opened TraceModel
  import opened AtraceHistory
  import CoreAnalyzer
  import Histogram

  /** The items `trace_to_history(trace, filters=Filters.NONE)` keeps: all but those at line 0 */
  lemma {:induction false} FiltersNoneDropsOnlyZeroLines(trace: Trace)
    ensures HistoryOf(trace, NONE).Err? <==> Unpack(trace).Err?
    ensures Unpack(trace).Ok? ==> HistoryOf(trace, NONE) == Ok(FilterZeroLines(Join(Unpack(trace).value)))
  {
  }

  /** Dropping the line-0 items leaves the count of every other line as it was. */
  lemma {:induction false} CountZeroLines(h: History, n: int)
    ensures Histogram.Count(FilterZeroLines(h), n) == if n == 0 then 0 else Histogram.Count(h, n)
  {
    if h != [] {
      CountZeroLines(h[1..], n);
      assert h == [h[0]] + h[1..];
      Histogram.CountConcat([h[0]], h[1..], n);
      if h[0].loc.lineNo != 0 {
        assert FilterZeroLines(h) == [h[0]] + FilterZeroLines(h[1..]);
        Histogram.CountConcat([h[0]], FilterZeroLines(h[1..]), n);
      } else {
        assert FilterZeroLines(h) == FilterZeroLines(h[1..]);
      }
    }
  }

  /**
   * The counts the tool draws: every item of the joined history counts at
   * its line, those that change nothing included, and line 0 is never a key.
   */
  lemma {:induction false} TraceHistogramCounts(trace: Trace, n: int)
    requires Unpack(trace).Ok?
    ensures var joined := Join(Unpack(trace).value);
            var counts := Histogram.HistogramOf(HistoryOf(trace, NONE).value);
            Get(counts, n) == if n != 0 && Histogram.Count(joined, n) > 0 then Some(Histogram.Count(joined, n)) else None
  {
    var joined := Join(Unpack(trace).value);
    FiltersNoneDropsOnlyZeroLines(trace);
    Histogram.HistogramCounts(FilterZeroLines(joined), n);
    CountZeroLines(joined, n);
  }

  /** The table the tool prints for a trace, or the error raised on the way */
  function TraceBars(source: string, trace: Trace): Result<seq<Histogram.BarRow>> {
    match HistoryOf(trace, NONE)
    case Err(e) => Err(e)
    case Ok(history) => Histogram.CodeWithBars(source, Histogram.HistogramOf(history))
  }

  /** `display_code_with_bars(source, trace)`, with the table's rows as its result */
  method DisplayCodeWithBars(source: string, trace: Trace) returns (result: Result<seq<Histogram.BarRow>>)
    ensures result == TraceBars(source, trace)
  {
    var history := CoreAnalyzer.TraceToHistory(trace, NONE);
    if history.Err? {
      return Err(history.error);
    }
    var executionsPerLine := Histogram.LineHistogram(history.value);
    result := Histogram.DisplayCodeWithBars(source, executionsPerLine);
  }

  /**
   * The tool fails when the trace cannot be replayed, and `max` raises
   * `ValueError` when no item is left at a line other than 0.
   */
  lemma {:induction false} TraceBarsErrors(source: string, trace: Trace)
    ensures TraceBars(source, trace).Err? <==>
            Unpack(trace).Err? || FilterZeroLines(Join(Unpack(trace).value)) == []
    ensures Unpack(trace).Ok? && FilterZeroLines(Join(Unpack(trace).value)) == [] ==>
            TraceBars(source, trace) == Err(ValueError)
  {
    FiltersNoneDropsOnlyZeroLines(trace);
    if Unpack(trace).Ok? {
      Histogram.BarsOfEmptyHistory(source, FilterZeroLines(Join(Unpack(trace).value)));
    }
  }

  /** The row of line `i + 1`, when the tool does not fail */
  lemma {:induction false} TraceBarRow(source: string, trace: Trace, i: nat)
    requires TraceBars(source, trace).Ok? && i < |SplitLines(source)|
    ensures var row := TraceBars(source, trace).value[i];
            var joined := Join(Unpack(trace).value);
            row.lineNumber == i + 1 && row.line == SplitLines(source)[i] &&
            row.end == Histogram.Count(joined, i + 1) &&
            row.value == IntToString(Histogram.Count(joined, i + 1)) &&
            row.end <= row.size
  {
    var joined := Join(Unpack(trace).value);
    var history := FilterZeroLines(joined);
    FiltersNoneDropsOnlyZeroLines(trace);
    TraceBarsErrors(source, trace);
    Histogram.BarRowOfHistogram(source, history, i);
    CountZeroLines(joined, i + 1);
  }

  /**
   * Otherwise there is a row per source line, numbered from 1, that shows
   * how many items of the joined history are at that line, and no bar is
   * longer than the table's bar size.
   */
  lemma {:induction false} TraceBarsRows(source: string, trace: Trace)
    requires TraceBars(source, trace).Ok?
    ensures var rows := TraceBars(source, trace).value;
            var joined := Join(Unpack(trace).value);
            |rows| == |SplitLines(source)| &&
            forall i :: 0 <= i < |rows| ==>
              rows[i].lineNumber == i + 1 &&
              rows[i].line == SplitLines(source)[i] &&
              rows[i].end == Histogram.Count(joined, i + 1) &&
              rows[i].value == IntToString(Histogram.Count(joined, i + 1)) &&
              rows[i].end <= rows[i].size
  {
    var history := FilterZeroLines(Join(Unpack(trace).value));
    FiltersNoneDropsOnlyZeroLines(trace);
    TraceBarsErrors(source, trace);
    Histogram.BarsOfHistogram(source, history);
    forall i | 0 <= i < |SplitLines(source)| {
      TraceBarRow(source, trace, i);
    }
  }
}

/**
 * src/atrace/histogram.py: how often each line ran, and the rows of the
 * bar chart `display_code_with_bars` draws beside the program.
 *
 * `line_histogram` counts in a `defaultdict(int)`, which keeps its keys in
 * the order they were first incremented; the model is a dictionary with
 * that order. Syntax highlighting and the drawing of the bars are left to
 * `rich` and not modelled: a row records what it is given.
 */
module Histogram {
  import opened PyModel
  import opened TraceModel
  import opened ToolSupport

  /** `ExecutionsPerLine`: line number to number of executions */
  type ExecutionsPerLine = Dict<int, int>

  /**
   * `result[n] += 1` on a `defaultdict(int)`: the count of `n` goes up by
   * one where it stands, or `n` is added at the end with count 1.
   */
  function Increment(counts: ExecutionsPerLine, n: int): (r: ExecutionsPerLine)
    ensures Keys(r) == if n in Keys(counts) then Keys(counts) else Keys(counts) + [n]
  {
    if counts == [] then [(n, 1)]
    else if counts[0].0 == n then [(n, counts[0].1 + 1)] + counts[1..]
    else [counts[0]] + Increment(counts[1..], n)
  }

  /** The dictionary `line_histogram` builds: one increment per item, in order */
  function HistogramOf(history: History): ExecutionsPerLine {
    if history == [] then [] else Increment(HistogramOf(history[..|history| - 1]), history[|history| - 1].loc.lineNo)
  }

  /** `line_histogram` */
  method LineHistogram(history: History) returns (result: ExecutionsPerLine)
    ensures result == HistogramOf(history)
  {
    result := [];
    for i := 0 to |history|
      invariant result == HistogramOf(history[..i])
    {
      assert history[..i + 1][..i] == history[..i];
      result := Increment(result, history[i].loc.lineNo);
    }
    assert history[..|history|] == history;
  }

  // ---------------------------------------------------------------------
  // What the histogram says

  /** The number of items of `history` at line `n` */
  function Count(history: History, n: int): nat {
    if history == [] then 0
    else Count(history[..|history| - 1], n) + (if history[|history| - 1].loc.lineNo == n then 1 else 0)
  }

  /** A line is counted exactly when some item is at it. */
  lemma {:induction false} CountPositive(history: History, n: int)
    ensures Count(history, n) > 0 <==> exists i | 0 <= i < |history| :: history[i].loc.lineNo == n
  {
    if history != [] {
      var front := history[..|history| - 1];
      CountPositive(front, n);
      assert forall i | 0 <= i < |front| :: front[i] == history[i];
    }
  }

  /** Counting distributes over concatenation. */
  lemma {:induction false} CountConcat(a: History, b: History, n: int)
    ensures Count(a + b, n) == Count(a, n) + Count(b, n)
  {
    if b != [] {
      CountConcat(a, b[..|b| - 1], n);
      assert (a + b)[..|a + b| - 1] == a + b[..|b| - 1];
    } else {
      assert a + b == a;
    }
  }

  /** A `+= 1` keeps the keys distinct. */
  lemma {:induction false} IncrementIsDict(counts: ExecutionsPerLine, n: int)
    requires IsDict(counts)
    ensures IsDict(Increment(counts, n))
  {
    if counts != [] && counts[0].0 != n {
      IncrementIsDict(counts[1..], n);
      var r := Increment(counts, n);
      assert Keys(r) == [counts[0].0] + Keys(Increment(counts[1..], n));
      assert forall i :: 0 <= i < |r| ==> r[i].0 == Keys(r)[i];
    }
  }

  /** No line number is a key twice. */
  lemma {:induction false} HistogramIsDict(history: History)
    ensures IsDict(HistogramOf(history))
  {
    if history != [] {
      var front := history[..|history| - 1];
      var last := history[|history| - 1].loc.lineNo;
      HistogramIsDict(front);
      IncrementIsDict(HistogramOf(front), last);
    }
  }

  /** One `+= 1` changes the count of that line only, and a missing line counts as 0. */
  lemma {:induction false} IncrementGet(counts: ExecutionsPerLine, line: int, n: int)
    ensures Get(Increment(counts, line), n) == if n == line then Some(Get(counts, line).GetOr(0) + 1) else Get(counts, n)
  {
    if counts != [] && counts[0].0 != line {
      IncrementGet(counts[1..], line, n);
    }
  }

  /**
   * `line_histogram(history)[n]` is the number of items at line `n`, and
   * the lines that no item is at are not keys.
   */
  lemma {:induction false} HistogramCounts(history: History, n: int)
    ensures Get(HistogramOf(history), n) == if Count(history, n) > 0 then Some(Count(history, n)) else None
  {
    if history != [] {
      var front := history[..|history| - 1];
      var last := history[|history| - 1].loc.lineNo;
      HistogramCounts(front, n);
      HistogramCounts(front, last);
      IncrementGet(HistogramOf(front), last, n);
    }
  }

  /** The keys are exactly the line numbers of the items. */
  lemma {:induction false} HistogramKeys(history: History, n: int)
    ensures n in Keys(HistogramOf(history)) <==> exists i | 0 <= i < |history| :: history[i].loc.lineNo == n
  {
    HistogramCounts(history, n);
    CountPositive(history, n);
  }

  function Total(counts: ExecutionsPerLine): int {
    if counts == [] then 0 else counts[0].1 + Total(counts[1..])
  }

  lemma {:induction false} TotalIncrement(counts: ExecutionsPerLine, n: int)
    ensures Total(Increment(counts, n)) == Total(counts) + 1
  {
    if counts != [] && counts[0].0 != n {
      TotalIncrement(counts[1..], n);
    }
  }

  /** Every item is counted once: the counts add up to the length of the history. */
  lemma {:induction false} HistogramTotal(history: History)
    ensures Total(HistogramOf(history)) == |history|
  {
    if history != [] {
      var front := history[..|history| - 1];
      var last := history[|history| - 1].loc.lineNo;
      HistogramTotal(front);
      TotalIncrement(HistogramOf(front), last);
    }
  }

  // ---------------------------------------------------------------------
  // `display_code_with_bars`

  /** `max(executions_per_line.values())`, which raises `ValueError` on an empty dictionary */
  function MaxExecutions(counts: ExecutionsPerLine): (r: Result<int>)
    ensures r.Err? <==> counts == []
    ensures r.Err? ==> r.error == ValueError
    ensures r.Ok? ==> (forall i :: 0 <= i < |counts| ==> counts[i].1 <= r.value) &&
                      (exists i | 0 <= i < |counts| :: counts[i].1 == r.value)
  {
    if counts == [] then Err(ValueError)
    else
      match MaxExecutions(counts[1..])
      case Err(_) => Ok(counts[0].1)
      case Ok(m) =>
        var r := if counts[0].1 < m then m else counts[0].1;
        assert forall i :: 1 <= i < |counts| ==> counts[i] == counts[1..][i - 1];
        Ok(r)
  }

  /** One row of the table: the line, the text `str(num_executions)`, and `Bar(size, begin=0, end)` */
  datatype BarRow = BarRow(lineNumber: int, line: string, value: string, size: int, end: int)

  function BarRowOf(numbered: (int, string), executionsPerLine: ExecutionsPerLine, maxExecutions: int): BarRow {
    var numExecutions := Get(executionsPerLine, numbered.0).GetOr(0);
    BarRow(numbered.0, numbered.1, IntToString(numExecutions), maxExecutions, numExecutions)
  }

  /** The rows `display_code_with_bars` adds, or the error `max` raises */
  function CodeWithBars(source: string, executionsPerLine: ExecutionsPerLine): Result<seq<BarRow>> {
    var numbered := AddLineNumbers(source);
    match MaxExecutions(executionsPerLine)
    case Err(e) => Err(e)
    case Ok(m) => Ok(seq(|numbered|, i requires 0 <= i < |numbered| => BarRowOf(numbered[i], executionsPerLine, m)))
  }

  /** The loop over the numbered lines that fills the table */
  method BarRows(numberedLines: NumberedLines, executionsPerLine: ExecutionsPerLine, maxExecutions: int) returns (rows: seq<BarRow>)
    ensures rows == seq(|numberedLines|, i requires 0 <= i < |numberedLines| => BarRowOf(numberedLines[i], executionsPerLine, maxExecutions))
  {
    rows := [];
    for i := 0 to |numberedLines|
      invariant rows == seq(i, k requires 0 <= k < i => BarRowOf(numberedLines[k], executionsPerLine, maxExecutions))
    {
      var (lineNumber, line) := numberedLines[i];
      var numExecutions := Get(executionsPerLine, lineNumber).GetOr(0);
      rows := rows + [BarRow(lineNumber, line, IntToString(numExecutions), maxExecutions, numExecutions)];
    }
  }

  /** `display_code_with_bars`, with the table's rows as its result */
  method DisplayCodeWithBars(source: string, executionsPerLine: ExecutionsPerLine) returns (result: Result<seq<BarRow>>)
    ensures result == CodeWithBars(source, executionsPerLine)
  {
    var numberedLines := AddLineNumbers(source);
    var maxExecutions := MaxExecutions(executionsPerLine);
    if maxExecutions.Err? {
      return Err(maxExecutions.error);
    }
    var rows := BarRows(numberedLines, executionsPerLine, maxExecutions.value);
    return Ok(rows);
  }

  /** Only the empty history has an empty histogram. */
  lemma {:induction false} HistogramEmpty(history: History)
    ensures HistogramOf(history) == [] <==> history == []
  {
    HistogramTotal(history);
  }

  /** On a non-empty history the longest bar is that of a line that ran, so it is at least 1. */
  lemma {:induction false} MaxExecutionsOfHistogram(history: History)
    requires history != []
    ensures MaxExecutions(HistogramOf(history)).Ok?
    ensures MaxExecutions(HistogramOf(history)).value >= 1
  {
    var counts := HistogramOf(history);
    HistogramEmpty(history);
    var m := MaxExecutions(counts).value;
    var j :| 0 <= j < |counts| && counts[j].1 == m;
    HistogramIsDict(history);
    GetAt(counts, j);
    HistogramCounts(history, counts[j].0);
  }

  /** The rows of the chart, when `max` does not raise */
  lemma {:induction false} CodeWithBarsRows(source: string, counts: ExecutionsPerLine)
    requires counts != []
    ensures var numbered := AddLineNumbers(source);
            var r := CodeWithBars(source, counts);
            r.Ok? && |r.value| == |numbered| &&
            forall i :: 0 <= i < |numbered| ==> r.value[i] == BarRowOf(numbered[i], counts, MaxExecutions(counts).value)
  {
  }

  /** The row of line `i + 1` on the histogram of a non-empty `history` */
  lemma {:induction false} BarRowOfHistogram(source: string, history: History, i: nat)
    requires history != [] && i < |AddLineNumbers(source)|
    ensures var row := CodeWithBars(source, HistogramOf(history)).value[i];
            row.lineNumber == i + 1 && row.line == SplitLines(source)[i] &&
            row.end == Count(history, i + 1) &&
            row.value == IntToString(Count(history, i + 1)) &&
            row.end <= row.size
  {
    var counts := HistogramOf(history);
    var numbered := AddLineNumbers(source);
    HistogramEmpty(history);
    MaxExecutionsOfHistogram(history);
    CodeWithBarsRows(source, counts);
    var m := MaxExecutions(counts).value;
    assert numbered[i] == (i + 1, SplitLines(source)[i]);
    HistogramCounts(history, i + 1);
    var found := Get(counts, i + 1);
    if found.Some? {
      assert (i + 1, found.value) in counts;
      var j :| 0 <= j < |counts| && counts[j] == (i + 1, found.value);
      assert counts[j].1 <= m;
    }
  }

  /** `max` raises exactly on the empty history, whose histogram is empty. */
  lemma {:induction false} BarsOfEmptyHistory(source: string, history: History)
    ensures CodeWithBars(source, HistogramOf(history)).Err? <==> history == []
    ensures history == [] ==> CodeWithBars(source, HistogramOf(history)) == Err(ValueError)
  {
    HistogramEmpty(history);
  }

  /**
   * On the histogram of a non-empty history, the chart has a row per source
   * line, numbered from 1; each shows how often its line ran (0 for a line
   * that never ran), and no bar is longer than the bar of the line that ran
   * most.
   */
  lemma {:induction false} BarsOfHistogram(source: string, history: History)
    requires history != []
    ensures var rows := CodeWithBars(source, HistogramOf(history)).value;
            |rows| == |SplitLines(source)| &&
            forall i :: 0 <= i < |rows| ==>
              rows[i].lineNumber == i + 1 &&
              rows[i].line == SplitLines(source)[i] &&
              rows[i].end == Count(history, i + 1) &&
              rows[i].value == IntToString(Count(history, i + 1)) &&
              rows[i].end <= rows[i].size
  {
    HistogramEmpty(history);
    CodeWithBarsRows(source, HistogramOf(history));
    forall i | 0 <= i < |CodeWithBars(source, HistogramOf(history)).value| {
      BarRowOfHistogram(source, history, i);
    }
  }
}

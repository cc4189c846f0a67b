/**
 * src/atrace/tool_support.py: numbering the lines of the traced program,
 * the window of lines a terminal of `display_height` lines shows, and the
 * schedule of display updates of `animate`.
 *
 * The terminal height and the rendering callback are parameters: the model
 * records the arguments of each `generate_display` call and the length of
 * each `time.sleep`.
 */
module ToolSupport {
  import opened PyModel
  import opened TraceModel
  import Reporter

  /** `NumberedLines`: `(line number, text)` pairs */
  type NumberedLines = seq<(int, string)>

  function Texts(numbered: NumberedLines): (texts: seq<string>)
    ensures |texts| == |numbered|
    ensures forall i :: 0 <= i < |numbered| ==> texts[i] == numbered[i].1
  {
    seq(|numbered|, i requires 0 <= i < |numbered| => numbered[i].1)
  }

  /** `add_line_numbers`: the lines of `source.splitlines()`, numbered from 1 */
  function AddLineNumbers(source: string): (numbered: NumberedLines)
    ensures |numbered| == |SplitLines(source)|
    ensures Texts(numbered) == SplitLines(source)
    ensures forall i :: 0 <= i < |numbered| ==> numbered[i].0 == i + 1
  {
    var lines := SplitLines(source);
    seq(|lines|, i requires 0 <= i < |lines| => (i + 1, lines[i]))
  }

  /**
   * The numbered texts are the program's lines: none holds a line break,
   * and joined with "\n" they give the source back, less a final newline
   * (for a source whose only line break is "\n").
   */
  lemma {:induction false} AddLineNumbersRecoversSource(source: string)
    requires forall k :: 0 <= k < |source| ==> source[k] == '\n' || !IsLineBreak(source[k])
    ensures var texts := Texts(AddLineNumbers(source));
            JoinLines(texts) == (if source != [] && source[|source| - 1] == '\n' then source[..|source| - 1] else source) &&
            forall i, k :: 0 <= i < |texts| && 0 <= k < |texts[i]| ==> !IsLineBreak(texts[i][k])
  {
    SplitLinesFromJoin(source, []);
    SplitLinesFromNoBreaks(source, []);
  }

  // ---------------------------------------------------------------------
  // Scrolling support

  function Max(a: int, b: int): int { if a < b then b else a }
  function Min(a: int, b: int): int { if a < b then a else b }

  /** A bound of a Python slice, resolved against the length: negative counts from the end. */
  function SliceIndex(k: int, length: nat): (r: nat)
    ensures r <= length
    ensures 0 <= k <= length ==> r == k
    ensures k > length ==> r == length
    ensures k < 0 ==> r == Max(0, length + k)
  {
    if k < 0 then (if length + k < 0 then 0 else length + k)
    else if k > length then length
    else k
  }

  /** `s[i:j]` */
  function Slice<T>(s: seq<T>, i: int, j: int): (r: seq<T>)
    ensures |r| <= |s|
  {
    var a := SliceIndex(i, |s|);
    var b := SliceIndex(j, |s|);
    if a < b then s[a..b] else []
  }

  /** `visible_lines`, with `display_height` as a parameter */
  function VisibleLines(numberedLines: NumberedLines, currentLoc: Option<Loc>, displayHeight: int): NumberedLines {
    var startIdx := if currentLoc.Some? then Max(0, currentLoc.value.lineNo - displayHeight) else 0;
    var endIdx := Min(|numberedLines|, startIdx + displayHeight);
    Slice(numberedLines, startIdx, endIdx)
  }

  /** Without a current location the window is the top of the program. */
  lemma {:induction false} VisibleTopLines(numberedLines: NumberedLines, displayHeight: int)
    requires displayHeight >= 0
    ensures VisibleLines(numberedLines, None, displayHeight) == numberedLines[..Min(|numberedLines|, displayHeight)]
  {
  }

  /**
   * With a current location the window is the contiguous run of at most
   * `display_height` lines that ends at that line (or starts at the top),
   * cut off at the end of the program.
   */
  lemma {:induction false} VisibleWindow(numberedLines: NumberedLines, loc: Loc, displayHeight: int)
    requires displayHeight >= 0
    ensures var r := VisibleLines(numberedLines, Some(loc), displayHeight);
            var start := Max(0, loc.lineNo - displayHeight);
            |r| <= displayHeight && |r| <= |numberedLines| &&
            (start < |numberedLines| ==> r == numberedLines[start..Min(|numberedLines|, start + displayHeight)]) &&
            (start >= |numberedLines| ==> r == [])
  {
  }

  /**
   * A current line of the program is always visible, and once the program
   * has scrolled it is the bottom line of the window.
   */
  lemma {:induction false} VisibleShowsCurrentLine(numberedLines: NumberedLines, loc: Loc, displayHeight: int)
    requires 1 <= loc.lineNo <= |numberedLines| && displayHeight >= 1
    ensures var r := VisibleLines(numberedLines, Some(loc), displayHeight);
            numberedLines[loc.lineNo - 1] in r &&
            (loc.lineNo >= displayHeight ==> r[|r| - 1] == numberedLines[loc.lineNo - 1])
  {
    var start := Max(0, loc.lineNo - displayHeight);
    var r := VisibleLines(numberedLines, Some(loc), displayHeight);
    VisibleWindow(numberedLines, loc, displayHeight);
    assert r == numberedLines[start..Min(|numberedLines|, start + displayHeight)];
    assert r[loc.lineNo - 1 - start] == numberedLines[loc.lineNo - 1];
  }

  /** The line numbered with the current location's number is in the window. */
  lemma {:induction false} VisibleShowsCurrentNumber(source: string, loc: Loc, displayHeight: int)
    requires 1 <= loc.lineNo <= |AddLineNumbers(source)| && displayHeight >= 1
    ensures exists k | 0 <= k < |VisibleLines(AddLineNumbers(source), Some(loc), displayHeight)| ::
              VisibleLines(AddLineNumbers(source), Some(loc), displayHeight)[k].0 == loc.lineNo
  {
    var numbered := AddLineNumbers(source);
    VisibleShowsCurrentLine(numbered, loc, displayHeight);
    assert numbered[loc.lineNo - 1].0 == loc.lineNo;
  }

  /**
   * A negative height makes the end bound count from the end of the
   * program, as Python slicing does: with height -1 every line but the last
   * is shown.
   */
  lemma {:induction false} NegativeHeightCountsFromEnd(numberedLines: NumberedLines, displayHeight: int)
    requires -|numberedLines| <= displayHeight < 0
    ensures VisibleLines(numberedLines, None, displayHeight) == numberedLines[..|numberedLines| + displayHeight]
  {
  }

  // ---------------------------------------------------------------------
  // Animation support

  const ANIMATION_SECONDS := 5

  /** The arguments of one `generate_display` call shown by `live.update` */
  datatype Update = Update(numberedLines: NumberedLines, history: History, currentLoc: Option<Loc>)

  /**
   * The updates of `animate`: the prefix ending at each item with that
   * item's location, then the whole history with no location.
   */
  function Schedule(numberedLines: NumberedLines, history: History): seq<Update> {
    seq(|history| + 1, i requires 0 <= i <= |history| =>
      if i < |history| then Update(numberedLines, history[..i + 1], Some(history[i].loc))
      else Update(numberedLines, history, None))
  }

  /** The pauses of `animate`: one per item, of an equal share of the animation time */
  function Pauses(history: History): seq<real>
    requires history != []
  {
    seq(|history|, _ => ANIMATION_SECONDS as real / |history| as real)
  }

  /** `animate`, with the updates and the pauses recorded instead of shown */
  method Animate(numberedLines: NumberedLines, history: History) returns (updates: seq<Update>, pauses: seq<real>)
    ensures updates == Schedule(numberedLines, history)
    ensures |pauses| == |history|
    ensures history != [] ==> pauses == Pauses(history)
  {
    updates := [];
    pauses := [];
    for index := 0 to |history|
      invariant updates == Schedule(numberedLines, history)[..index]
      invariant |pauses| == index
      invariant history != [] ==> pauses == Pauses(history)[..index]
    {
      var historyUpToNow := history[..index + 1];
      var currentLoc := history[index].loc;
      updates := updates + [Update(numberedLines, historyUpToNow, Some(currentLoc))];
      pauses := pauses + [ANIMATION_SECONDS as real / |history| as real];
    }
    updates := updates + [Update(numberedLines, history, None)];
    assert updates == Schedule(numberedLines, history);
  }

  /**
   * One update per item plus a final one. Every update shows a prefix of the
   * history that is one item longer than the one before, each current
   * location is the last item's location, and the final update shows
   * everything with no current line.
   */
  lemma {:induction false} ScheduleShowsGrowingPrefixes(numberedLines: NumberedLines, history: History)
    ensures var s := Schedule(numberedLines, history);
            |s| == |history| + 1 &&
            (forall i :: 0 <= i < |s| ==> s[i].numberedLines == numberedLines && s[i].history == history[..Min(i + 1, |history|)]) &&
            (forall i :: 0 <= i < |history| ==> s[i].currentLoc == Some(s[i].history[|s[i].history| - 1].loc)) &&
            s[|history|] == Update(numberedLines, history, None)
  {
    var s := Schedule(numberedLines, history);
    assert s[|history|].history == history[..|history|];
  }

  /** An empty history animates as the single final update, with no pause. */
  lemma {:induction false} EmptyHistoryAnimatesOnce(numberedLines: NumberedLines)
    ensures Schedule(numberedLines, []) == [Update(numberedLines, [], None)]
  {
  }

  function Total(pauses: seq<real>): real {
    if pauses == [] then 0.0 else pauses[0] + Total(pauses[1..])
  }

  lemma {:induction false} TotalOfEqual(n: nat, d: real)
    ensures Total(seq(n, _ => d)) == n as real * d
  {
    if n > 0 {
      var s := seq(n, _ => d);
      TotalOfEqual(n - 1, d);
      assert s[1..] == seq(n - 1, _ => d);
      assert Total(s) == d + (n - 1) as real * d;
      assert (n - 1) as real * d + d == ((n - 1) as real + 1.0) * d;
    }
  }

  /** The pauses add up to `ANIMATION_SECONDS`, whatever the length of the history. */
  lemma {:induction false} AnimationTakesFiveSeconds(history: History)
    requires history != []
    ensures Total(Pauses(history)) == ANIMATION_SECONDS as real
  {
    TotalOfEqual(|history|, ANIMATION_SECONDS as real / |history| as real);
  }

  /**
   * The table columns of every update are a prefix of those of the final
   * one, so the columns of an animated table never move.
   */
  lemma {:induction false} ColumnsStableDuringAnimation(numberedLines: NumberedLines, history: History, i: nat)
    requires i <= |history|
    ensures var shown := Reporter.AllVariables(Schedule(numberedLines, history)[i].history);
            |shown| <= |Reporter.AllVariables(history)| && Reporter.AllVariables(history)[..|shown|] == shown
  {
    var s := Schedule(numberedLines, history);
    if i < |history| {
      Reporter.AllVariablesPrefix(history, i + 1);
    } else {
      Reporter.AllVariablesPrefix(history, |history|);
      assert history[..|history|] == history;
    }
  }
}

/**
 * src/atrace/reporter.py: from a history to the cells of the report table.
 *
 * The table has a `line` column, one column per variable in order of first
 * appearance, and an `output` column when some item printed something. A
 * cell is empty (`None`) where the item does not assign that variable or
 * unassigns it; the drawing of the table by `rich` is not modelled.
 */
module Reporter {
  import opened PyModel
  import opened TraceModel

  /** The column titles `_("line")` and `_("output")` (the untranslated texts). */
  const LINE := "line"
  const OUTPUT := "output"

  /** A cell: the text shown, or `None` for an empty cell. */
  type Cell = Option<string>

  /** `variable_to_column_name` */
  function ColumnName(v: Var): (name: string)
    ensures v.scope == ModuleScope ==> name == v.name
    ensures v.scope != ModuleScope ==> name == "(" + v.scope + ") " + v.name
  {
    if v.scope == ModuleScope then v.name else "(" + v.scope + ") " + v.name
  }

  predicate Distinct<T(==)>(s: seq<T>) {
    forall i, j :: 0 <= i < j < |s| ==> s[i] != s[j]
  }

  // ---------------------------------------------------------------------
  // The columns

  /** `vars` followed by each of `ks` not yet among them, in the order of `ks` */
  function AddNew(vars: seq<Var>, ks: seq<Var>): (r: seq<Var>)
    ensures |vars| <= |r| && r[..|vars|] == vars
  {
    if ks == [] then vars
    else
      var p := AddNew(vars, ks[..|ks| - 1]);
      if ks[|ks| - 1] in p then p else p + [ks[|ks| - 1]]
  }

  /** What `AddNew` adds is exactly the keys not yet present, each once. */
  lemma {:induction false} AddNewMembers(vars: seq<Var>, ks: seq<Var>)
    ensures forall v :: v in AddNew(vars, ks) <==> v in vars || v in ks
    ensures Distinct(vars) ==> Distinct(AddNew(vars, ks))
  {
    if ks != [] {
      var front := ks[..|ks| - 1];
      AddNewMembers(vars, front);
      assert ks == front + [ks[|ks| - 1]];
    }
  }

  /** `Var` occurs among the assignments of one of the items of `h` */
  predicate AssignedIn(h: History, v: Var) {
    exists i | 0 <= i < |h| :: v in Keys(h[i].assignments)
  }

  /** `all_variables` */
  function AllVariables(h: History): (vars: seq<Var>) {
    if h == [] then [] else AddNew(AllVariables(h[..|h| - 1]), Keys(h[|h| - 1].assignments))
  }

  /** `all_variables` holds every assigned variable exactly once. */
  lemma {:induction false} AllVariablesMembers(h: History)
    ensures Distinct(AllVariables(h))
    ensures forall v :: v in AllVariables(h) <==> AssignedIn(h, v)
  {
    if h != [] {
      var front := h[..|h| - 1];
      var last := Keys(h[|h| - 1].assignments);
      AllVariablesMembers(front);
      AddNewMembers(AllVariables(front), last);
      forall v ensures AssignedIn(h, v) <==> AssignedIn(front, v) || v in last {
        if AssignedIn(front, v) {
          var i :| 0 <= i < |front| && v in Keys(front[i].assignments);
          assert h[i] == front[i];
        }
        if AssignedIn(h, v) && v !in last {
          var i :| 0 <= i < |h| && v in Keys(h[i].assignments);
          assert front[i] == h[i];
        }
      }
    }
  }

  /** `history_has_output` */
  predicate HasOutput(h: History) {
    h != [] && (HasOutput(h[..|h| - 1]) || HasText(h[|h| - 1].output))
  }

  /** `history_has_output` is set exactly when some item's output is truthy. */
  lemma {:induction false} HasOutputMeaning(h: History)
    ensures HasOutput(h) <==> exists i | 0 <= i < |h| :: HasText(h[i].output)
  {
    if h != [] {
      var front := h[..|h| - 1];
      HasOutputMeaning(front);
      assert forall i | 0 <= i < |front| :: front[i] == h[i];
    }
  }

  /** The titles of the variable columns, one per variable and in the same order */
  function ColumnNames(vars: seq<Var>): (names: seq<string>)
    ensures |names| == |vars|
    ensures forall j :: 0 <= j < |vars| ==> names[j] == ColumnName(vars[j])
  {
    if vars == [] then [] else ColumnNames(vars[..|vars| - 1]) + [ColumnName(vars[|vars| - 1])]
  }

  /** The header row */
  function Headers(h: History): seq<string> {
    [LINE] + ColumnNames(AllVariables(h)) + (if HasOutput(h) then [OUTPUT] else [])
  }

  // ---------------------------------------------------------------------
  // The rows

  /** The cell of a variable: `"None"` for `None`, empty for a missing or unassigned variable, else `str(value)`. */
  function CellOf(assignments: Assignments, v: Var): Cell {
    var found := Get(assignments, v);
    if found.None? || found.value.Unassign? then None
    else if found.value.value.NoneValue? then Some("None")
    else Some(ToString(found.value.value))
  }

  /** The cell of the output column */
  function OutputCell(output: Option<string>): Cell {
    if HasText(output) then Some(Strip(output.value)) else None
  }

  /** The cells of the variable columns of one item, one per variable and in the same order */
  function Cells(assignments: Assignments, vars: seq<Var>): (cells: seq<Cell>)
    ensures |cells| == |vars|
    ensures forall j :: 0 <= j < |vars| ==> cells[j] == CellOf(assignments, vars[j])
  {
    if vars == [] then [] else Cells(assignments, vars[..|vars| - 1]) + [CellOf(assignments, vars[|vars| - 1])]
  }

  /** The row of one item */
  function Row(item: HistoryItem, vars: seq<Var>, hasOutput: bool): seq<Cell> {
    [Some(IntToString(item.loc.lineNo))]
    + Cells(item.assignments, vars)
    + (if hasOutput then [OutputCell(item.output)] else [])
  }

  function Rows(h: History): seq<seq<Cell>> {
    var vars := AllVariables(h);
    var hasOutput := HasOutput(h);
    seq(|h|, i requires 0 <= i < |h| => Row(h[i], vars, hasOutput))
  }

  // ---------------------------------------------------------------------
  // `history_to_table_data`

  /** The inner loop of the first pass: `all_variables.append` of each new variable */
  method CollectVariables(allVariables: seq<Var>, keys: seq<Var>) returns (r: seq<Var>)
    ensures r == AddNew(allVariables, keys)
  {
    r := allVariables;
    for j := 0 to |keys|
      invariant r == AddNew(allVariables, keys[..j])
    {
      assert keys[..j + 1][..j] == keys[..j];
      if keys[j] !in r {
        r := r + [keys[j]];
      }
    }
    assert keys[..|keys|] == keys;
  }

  /** The body of the second pass for one item */
  method BuildRow(item: HistoryItem, allVariables: seq<Var>, hasOutput: bool) returns (row: seq<Cell>)
    ensures row == Row(item, allVariables, hasOutput)
  {
    row := [Some(IntToString(item.loc.lineNo))];
    for j := 0 to |allVariables|
      invariant row == [Some(IntToString(item.loc.lineNo))] + Cells(item.assignments, allVariables[..j])
    {
      assert allVariables[..j + 1][..j] == allVariables[..j];
      var variable := allVariables[j];
      var content: Cell := None;
      var found := Get(item.assignments, variable);
      if found.Some? {
        var value := found.value;
        if value.Val? && value.value.NoneValue? {
          content := Some("None");
        } else if value.Unassign? {
          content := None;
        } else {
          content := Some(ToString(value.value));
        }
      }
      assert content == CellOf(item.assignments, variable);
      ConcatAssoc([Some(IntToString(item.loc.lineNo))], Cells(item.assignments, allVariables[..j]), [content]);
      row := row + [content];
    }
    assert allVariables[..|allVariables|] == allVariables;
    if hasOutput {
      row := row + [if HasText(item.output) then Some(Strip(item.output.value)) else None];
    }
  }

  /** The first pass: `all_variables` and `history_has_output` */
  method CollectColumns(history: History) returns (allVariables: seq<Var>, historyHasOutput: bool)
    ensures allVariables == AllVariables(history)
    ensures historyHasOutput == HasOutput(history)
  {
    allVariables := [];
    historyHasOutput := false;
    for i := 0 to |history|
      invariant allVariables == AllVariables(history[..i])
      invariant historyHasOutput == HasOutput(history[..i])
    {
      assert history[..i + 1][..i] == history[..i];
      allVariables := CollectVariables(allVariables, Keys(history[i].assignments));
      if HasText(history[i].output) {
        historyHasOutput := true;
      }
    }
    assert history[..|history|] == history;
  }

  /** "Build headers" */
  method BuildHeaders(allVariables: seq<Var>, historyHasOutput: bool) returns (headers: seq<string>)
    ensures headers == [LINE] + ColumnNames(allVariables) + (if historyHasOutput then [OUTPUT] else [])
  {
    headers := [LINE];
    for j := 0 to |allVariables|
      invariant headers == [LINE] + ColumnNames(allVariables[..j])
    {
      assert ColumnNames(allVariables[..j + 1]) == ColumnNames(allVariables[..j]) + [ColumnName(allVariables[j])];
      headers := headers + [ColumnName(allVariables[j])];
    }
    assert allVariables[..|allVariables|] == allVariables;
    if historyHasOutput {
      headers := headers + [OUTPUT];
    }
  }

  /** "Build rows" */
  method BuildRows(history: History, allVariables: seq<Var>, historyHasOutput: bool) returns (rows: seq<seq<Cell>>)
    ensures rows == seq(|history|, i requires 0 <= i < |history| => Row(history[i], allVariables, historyHasOutput))
  {
    rows := [];
    for i := 0 to |history|
      invariant |rows| == i
      invariant forall k :: 0 <= k < i ==> rows[k] == Row(history[k], allVariables, historyHasOutput)
    {
      var row := BuildRow(history[i], allVariables, historyHasOutput);
      rows := rows + [row];
    }
  }

  /** `history_to_table_data` */
  method HistoryToTableData(history: History) returns (headers: seq<string>, rows: seq<seq<Cell>>)
    ensures headers == Headers(history)
    ensures rows == Rows(history)
  {
    var allVariables, historyHasOutput := CollectColumns(history);
    headers := BuildHeaders(allVariables, historyHasOutput);
    rows := BuildRows(history, allVariables, historyHasOutput);
  }

  // ---------------------------------------------------------------------
  // Properties of the table

  /**
   * The header row is `line`, a title per variable, and `output` exactly
   * when some item printed something; there is one row per item, every row
   * as wide as the header, starting with the item's line number.
   */
  lemma {:induction false} TableShape(h: History)
    ensures var headers := Headers(h);
            var vars := AllVariables(h);
            |headers| == 1 + |vars| + (if HasOutput(h) then 1 else 0) &&
            headers[0] == LINE &&
            (forall j :: 0 <= j < |vars| ==> headers[1 + j] == ColumnName(vars[j])) &&
            (HasOutput(h) ==> headers[|headers| - 1] == OUTPUT)
    ensures |Rows(h)| == |h|
    ensures forall i :: 0 <= i < |h| ==> |Rows(h)[i]| == |Headers(h)|
    ensures forall i :: 0 <= i < |h| ==> Rows(h)[i][0] == Some(IntToString(h[i].loc.lineNo))
  {
  }

  /** Only an assigned value fills a cell, with its `str`. */
  lemma {:induction false} CellOfMeaning(assignments: Assignments, v: Var)
    ensures var cell := CellOf(assignments, v);
            var found := Get(assignments, v);
            (cell.Some? <==> found.Some? && found.value.Val?) &&
            (cell.Some? ==> cell.value == ToString(found.value.value))
  {
  }

  /**
   * The cell of variable `j` in row `i` is filled exactly when the item
   * assigns that variable a value (not `UNASSIGN`), and then shows `str` of
   * that value (which reads `None` for `None`).
   */
  lemma {:induction false} CellShowsAssignment(h: History, i: nat, j: nat)
    requires i < |h| && j < |AllVariables(h)|
    ensures var v := AllVariables(h)[j];
            var cell := Rows(h)[i][1 + j];
            (cell.Some? <==> Get(h[i].assignments, v).Some? && Get(h[i].assignments, v).value.Val?) &&
            (cell.Some? ==> cell.value == ToString(Get(h[i].assignments, v).value.value))
  {
    var vars := AllVariables(h);
    RowCell(h[i], vars, HasOutput(h), j);
    CellOfMeaning(h[i].assignments, vars[j]);
  }

  lemma {:induction false} RowCell(item: HistoryItem, vars: seq<Var>, hasOutput: bool, j: nat)
    requires j < |vars|
    ensures Row(item, vars, hasOutput)[1 + j] == CellOf(item.assignments, vars[j])
  {
  }

  /**
   * No assignment is lost: a variable an item assigns a value has its own
   * column, titled by `variable_to_column_name`, whose cell in that item's
   * row shows the value.
   */
  lemma {:induction false} EveryAssignmentShown(h: History, i: nat, v: Var, x: Value)
    requires i < |h| && Get(h[i].assignments, v) == Some(Val(x))
    ensures exists j | 0 <= j < |AllVariables(h)| ::
              AllVariables(h)[j] == v && Headers(h)[1 + j] == ColumnName(v) && Rows(h)[i][1 + j] == Some(ToString(x))
  {
    assert AssignedIn(h, v);
    AllVariablesMembers(h);
    var vars := AllVariables(h);
    var j :| 0 <= j < |vars| && vars[j] == v;
    CellShowsAssignment(h, i, j);
    TableShape(h);
  }

  /**
   * The output column holds the stripped output of the items that printed
   * something and is empty elsewhere; without any output there is no
   * such column.
   */
  lemma {:induction false} OutputColumn(h: History, i: nat)
    requires i < |h|
    ensures var row := Rows(h)[i];
            (HasOutput(h) ==> row[|row| - 1] == (if HasText(h[i].output) then Some(Strip(h[i].output.value)) else None)) &&
            (!HasOutput(h) ==> |row| == 1 + |AllVariables(h)| && !HasText(h[i].output))
  {
    HasOutputMeaning(h);
  }

  /**
   * The columns of a prefix of the history come first and in the same
   * order: a variable's column never moves when more items follow.
   */
  lemma {:induction false} AllVariablesPrefix(h: History, k: nat)
    requires k <= |h|
    ensures var p := AllVariables(h[..k]);
            |p| <= |AllVariables(h)| && AllVariables(h)[..|p|] == p
    decreases |h| - k
  {
    if k < |h| {
      AllVariablesPrefix(h, k + 1);
      var front := h[..k + 1];
      assert front[..|front| - 1] == h[..k];
      var a := AllVariables(h[..k]);
      var b := AllVariables(front);
      assert b == AddNew(a, Keys(front[k].assignments));
      assert b[..|a|] == a;
      assert AllVariables(h)[..|a|] == b[..|a|];
    } else {
      assert h[..k] == h;
    }
  }

  /**
   * Order of first appearance: if a variable's column comes after another's,
   * then any prefix of the history that assigns the later one also assigns
   * the earlier one.
   */
  lemma {:induction false} ColumnsInOrderOfAppearance(h: History, p: nat, q: nat, k: nat)
    requires p < q < |AllVariables(h)| && k <= |h|
    requires AssignedIn(h[..k], AllVariables(h)[q])
    ensures AssignedIn(h[..k], AllVariables(h)[p])
  {
    var vars := AllVariables(h);
    var pre := AllVariables(h[..k]);
    AllVariablesPrefix(h, k);
    AllVariablesMembers(h);
    AllVariablesMembers(h[..k]);
    var m :| 0 <= m < |pre| && pre[m] == vars[q];
    assert vars[m] == pre[m];
    assert m == q;
    assert vars[p] == pre[p];
  }

  // ---------------------------------------------------------------------
  // A history whose `UNASSIGN` is not the one reporter.py imports

  /**
   * An assignment as `history_to_table_data` sees it when the history was
   * made by an interpreter whose `UNASSIGN` is another `object()` than the
   * one reporter.py imports from src/atrace/core/analyzer.py: the test
   * `value is UNASSIGN` fails, and the sentinel is an ordinary object whose
   * `str` is `repr`.
   */
  function AsForeign(a: Assigned, repr: string): Assigned {
    if a.Unassign? then Val(Object(repr)) else a
  }

  function ForeignAssignments(assignments: Assignments, repr: string): (r: Assignments)
    ensures Keys(r) == Keys(assignments)
  {
    if assignments == [] then []
    else [(assignments[0].0, AsForeign(assignments[0].1, repr))] + ForeignAssignments(assignments[1..], repr)
  }

  lemma {:induction false} ForeignGet(assignments: Assignments, repr: string, v: Var)
    ensures Get(ForeignAssignments(assignments, repr), v) ==
            if Get(assignments, v).Some? then Some(AsForeign(Get(assignments, v).value, repr)) else None
  {
    if assignments != [] && assignments[0].0 != v {
      ForeignGet(assignments[1..], repr, v);
    }
  }

  /** The history of src/atrace/__init__.py or src/atrace/analyzer.py as reporter.py sees it */
  function ForeignHistory(h: History, repr: string): (r: History)
    ensures |r| == |h|
    ensures forall i :: 0 <= i < |h| ==> r[i].loc == h[i].loc && r[i].output == h[i].output
    ensures forall i :: 0 <= i < |h| ==> Keys(r[i].assignments) == Keys(h[i].assignments)
  {
    seq(|h|, i requires 0 <= i < |h| => Item(h[i].loc, ForeignAssignments(h[i].assignments, repr), h[i].output))
  }

  /** The foreign sentinel changes no column: the same variables, and the same output flag. */
  lemma {:induction false} ForeignColumns(h: History, repr: string)
    ensures AllVariables(ForeignHistory(h, repr)) == AllVariables(h)
    ensures HasOutput(ForeignHistory(h, repr)) == HasOutput(h)
    decreases |h|
  {
    if h != [] {
      var front := h[..|h| - 1];
      var f := ForeignHistory(h, repr);
      assert f[..|f| - 1] == ForeignHistory(front, repr);
      ForeignColumns(front, repr);
    }
  }

  /**
   * As written, a variable that vanishes from an item of such a history is
   * shown as `str(object())` (`<object object at 0x...>`), where the same
   * item with the reporter's own `UNASSIGN` shows an empty cell.
   */
  lemma {:induction false} ForeignSentinelShown(h: History, i: nat, j: nat, repr: string)
    requires i < |h| && j < |AllVariables(h)|
    requires Get(h[i].assignments, AllVariables(h)[j]) == Some(Unassign)
    ensures Rows(h)[i][1 + j] == None
    ensures |AllVariables(ForeignHistory(h, repr))| == |AllVariables(h)|
    ensures Rows(ForeignHistory(h, repr))[i][1 + j] == Some(repr)
  {
    var f := ForeignHistory(h, repr);
    var v := AllVariables(h)[j];
    ForeignColumns(h, repr);
    RowCell(h[i], AllVariables(h), HasOutput(h), j);
    assert f[i].assignments == ForeignAssignments(h[i].assignments, repr);
    ForeignCell(h[i].assignments, v, repr);
    RowCell(f[i], AllVariables(f), HasOutput(f), j);
  }

  /** The cell of a vanished variable, with the reporter's own sentinel and with another one */
  lemma {:induction false} ForeignCell(assignments: Assignments, v: Var, repr: string)
    requires Get(assignments, v) == Some(Unassign)
    ensures CellOf(assignments, v) == None
    ensures CellOf(ForeignAssignments(assignments, repr), v) == Some(repr)
  {
    ForeignGet(assignments, repr, v);
    assert ToString(Object(repr)) == repr;
  }

  /**
   * Titles do not collide between variables whose names cannot contain
   * `(` and whose scopes cannot contain `)`, as with Python identifiers
   * and code object names like `<lambda>` and `<module>`.
   */
  lemma {:induction false} ColumnNameInjective(a: Var, b: Var)
    requires '(' !in a.name && '(' !in b.name && ')' !in a.scope && ')' !in b.scope
    requires ColumnName(a) == ColumnName(b)
    ensures a == b
  {
    var s := ColumnName(a);
    if a.scope == ModuleScope && b.scope == ModuleScope {
    } else if a.scope == ModuleScope {
      OpensWithParenthesis(b.scope, b.name);
    } else if b.scope == ModuleScope {
      OpensWithParenthesis(a.scope, a.name);
    } else {
      assert s == "(" + a.scope + ") " + a.name;
      assert s == "(" + b.scope + ") " + b.name;
      ClosingParenthesis(a.scope, a.name);
      ClosingParenthesis(b.scope, b.name);
      assert |a.scope| == |b.scope|;
      assert a.scope == s[1..1 + |a.scope|] == b.scope;
      assert a.name == s[3 + |a.scope|..] == b.name;
    }
  }

  lemma {:induction false} OpensWithParenthesis(scope: string, name: string)
    ensures var s := "(" + scope + ") " + name;
            s != [] && s[0] in s && s[0] == '('
  {
  }

  /** In `(scope) name`, the first `)` closes the scope. */
  lemma {:induction false} ClosingParenthesis(scope: string, name: string)
    requires ')' !in scope
    ensures var s := "(" + scope + ") " + name;
            s[1 + |scope|] == ')' && forall k :: 0 <= k < 1 + |scope| ==> s[k] != ')'
  {
    var s := "(" + scope + ") " + name;
    forall k | 1 <= k < 1 + |scope| ensures s[k] != ')' {
      assert s[k] == scope[k - 1];
    }
  }
}

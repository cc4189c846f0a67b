/**
 * The tables of tests/test_reporter.py, as cells: what `history_to_table_data`
 * hands to `rich` for each of the test histories.
 */
module ReporterScenarios {
  import opened PyModel
  import opened TraceModel
  import opened Reporter

  /** One item more: its new variables follow, in the order of its dictionary. */
  lemma {:induction false} AllVariablesSnoc(h: History, item: HistoryItem)
    ensures AllVariables(h + [item]) == AddNew(AllVariables(h), Keys(item.assignments))
    ensures HasOutput(h + [item]) == (HasOutput(h) || HasText(item.output))
  {
    assert (h + [item])[..|h|] == h;
  }

  /** An item assigning one variable */
  lemma {:induction false} StepOne(h: History, item: HistoryItem, vars: seq<Var>, k: Var)
    requires AllVariables(h) == vars && Keys(item.assignments) == [k]
    ensures AllVariables(h + [item]) == if k in vars then vars else vars + [k]
    ensures HasOutput(h + [item]) == (HasOutput(h) || HasText(item.output))
  {
    AllVariablesSnoc(h, item);
    assert [k][..0] == [];
  }

  /** An item assigning two new variables */
  lemma {:induction false} StepTwo(h: History, item: HistoryItem, vars: seq<Var>, k1: Var, k2: Var)
    requires AllVariables(h) == vars && Keys(item.assignments) == [k1, k2] && k1 !in vars && k2 !in vars && k1 != k2
    ensures AllVariables(h + [item]) == vars + [k1, k2]
    ensures HasOutput(h + [item]) == (HasOutput(h) || HasText(item.output))
  {
    AllVariablesSnoc(h, item);
    assert [k1, k2][..1] == [k1];
    assert [k1][..0] == [];
    assert AddNew(vars, [k1]) == vars + [k1];
    assert k2 !in vars + [k1];
  }

  /** An item assigning nothing */
  lemma {:induction false} StepNone(h: History, item: HistoryItem)
    requires Keys(item.assignments) == []
    ensures AllVariables(h + [item]) == AllVariables(h)
    ensures HasOutput(h + [item]) == (HasOutput(h) || HasText(item.output))
  {
    AllVariablesSnoc(h, item);
  }

  /** The rows one by one */
  lemma {:induction false} RowsAt(h: History, i: nat)
    requires i < |h|
    ensures |Rows(h)| == |h|
    ensures Rows(h)[i] == Row(h[i], AllVariables(h), HasOutput(h))
  {
  }

  /** The header row of a history without output */
  lemma {:induction false} HeadersWithoutOutput(h: History, vars: seq<Var>, names: seq<string>)
    requires AllVariables(h) == vars && !HasOutput(h) && ColumnNames(vars) == names
    ensures Headers(h) == [LINE] + names
  {
  }

  const M := ModuleScope
  const X := Var(M, "x")

  /** `test_all_assignments`: a value, `None`, `UNASSIGN` and a value again. */
  const AllAssignments: History :=
    [ Item(Loc(M, 3), [(X, Val(Int(1)))], None),
      Item(Loc(M, 4), [(X, Val(NoneValue))], None),
      Item(Loc(M, 5), [(X, Unassign)], None),
      Item(Loc(M, 6), [(X, Val(Int(2)))], None) ]

  /** Every item of `h` assigns `v` alone and prints nothing. */
  predicate OneVariableShape(h: History, v: Var) {
    forall i | 0 <= i < |h| :: Keys(h[i].assignments) == [v] && !HasText(h[i].output)
  }

  lemma {:induction false} OneVariableColumns(h: History, v: Var, k: nat)
    requires OneVariableShape(h, v) && 1 <= k <= |h|
    ensures AllVariables(h[..k]) == [v] && !HasOutput(h[..k])
  {
    PrefixSnoc(h, k - 1);
    if k == 1 {
      StepOne(h[..0], h[0], [], v);
    } else {
      OneVariableColumns(h, v, k - 1);
      StepOne(h[..k - 1], h[k - 1], [v], v);
    }
  }

  /** The row of an item in a table of one variable and no output */
  lemma {:induction false} RowOfOne(item: HistoryItem, v: Var)
    ensures Row(item, [v], false) == [Some(IntToString(item.loc.lineNo)), CellOf(item.assignments, v)]
  {
    RowCell(item, [v], false, 0);
  }

  lemma {:induction false} Digit(d: nat)
    requires d < 10
    ensures IntToString(d) == ["0123456789"[d]]
  {
  }

  lemma AllAssignmentsRow0()
    ensures Row(AllAssignments[0], [X], false) == [Some("3"), Some("1")]
  {
    RowOfOne(AllAssignments[0], X);
    Digit(3); Digit(1);
  }

  lemma AllAssignmentsRow1()
    ensures Row(AllAssignments[1], [X], false) == [Some("4"), Some("None")]
  {
    RowOfOne(AllAssignments[1], X);
    Digit(4);
  }

  lemma AllAssignmentsRow2()
    ensures Row(AllAssignments[2], [X], false) == [Some("5"), None]
  {
    RowOfOne(AllAssignments[2], X);
    Digit(5);
  }

  lemma AllAssignmentsRow3()
    ensures Row(AllAssignments[3], [X], false) == [Some("6"), Some("2")]
  {
    RowOfOne(AllAssignments[3], X);
    Digit(6); Digit(2);
  }

  lemma AllAssignmentsColumns()
    ensures AllVariables(AllAssignments) == [X] && !HasOutput(AllAssignments)
  {
    OneVariableColumns(AllAssignments, X, 4);
    assert AllAssignments[..4] == AllAssignments;
  }

  /** `None` shows as the text `None`; `UNASSIGN` leaves the cell empty. */
  lemma AllAssignmentsTable()
    ensures Headers(AllAssignments) == [LINE, "x"]
    ensures |Rows(AllAssignments)| == 4
    ensures Rows(AllAssignments)[0] == [Some("3"), Some("1")]
    ensures Rows(AllAssignments)[1] == [Some("4"), Some("None")]
    ensures Rows(AllAssignments)[2] == [Some("5"), None]
    ensures Rows(AllAssignments)[3] == [Some("6"), Some("2")]
  {
    AllAssignmentsColumns();
    HeadersWithoutOutput(AllAssignments, [X], ["x"]);
    var h := AllAssignments;
    RowsAt(h, 0); RowsAt(h, 1); RowsAt(h, 2); RowsAt(h, 3);
    AllAssignmentsRow0(); AllAssignmentsRow1(); AllAssignmentsRow2(); AllAssignmentsRow3();
  }

  const A := Var("double", "a")
  const Result := Var("double", "result")

  /** `test_with_scopes` */
  const WithScopes: History :=
    [ Item(Loc("double", 4), [(A, Val(Int(3)))], None),
      Item(Loc("double", 5), [(Result, Val(Int(6)))], None),
      Item(Loc(M, 9), [(X, Val(Int(6)))], None) ]

  /** The row of an item in a table of three variables and no output */
  lemma {:induction false} RowOfThree(item: HistoryItem, v0: Var, v1: Var, v2: Var)
    ensures Row(item, [v0, v1, v2], false) ==
            [Some(IntToString(item.loc.lineNo)), CellOf(item.assignments, v0), CellOf(item.assignments, v1), CellOf(item.assignments, v2)]
  {
    var vars := [v0, v1, v2];
    RowCell(item, vars, false, 0);
    RowCell(item, vars, false, 1);
    RowCell(item, vars, false, 2);
  }

  /** Each item of `test_with_scopes` assigns one new variable. */
  lemma WithScopesColumns()
    ensures AllVariables(WithScopes) == [A, Result, X] && !HasOutput(WithScopes)
  {
    var h := WithScopes;
    var vs := [A, Result, X];
    assert Keys(h[0].assignments) == [A] && Keys(h[1].assignments) == [Result] && Keys(h[2].assignments) == [X];
    FreshColumns(h, vs, 3);
    assert h[..3] == h && vs[..3] == vs;
  }

  /** Items that each assign one variable never assigned before */
  lemma {:induction false} FreshColumns(h: History, vs: seq<Var>, k: nat)
    requires |h| == |vs| && Distinct(vs) && k <= |h|
    requires forall i | 0 <= i < |h| :: Keys(h[i].assignments) == [vs[i]] && !HasText(h[i].output)
    ensures AllVariables(h[..k]) == vs[..k] && !HasOutput(h[..k])
  {
    if k > 0 {
      FreshColumns(h, vs, k - 1);
      assert vs[k - 1] !in vs[..k - 1];
      FreshStep(h, vs, k);
    }
  }

  lemma {:induction false} FreshStep(h: History, vs: seq<Var>, k: nat)
    requires 1 <= k <= |h| == |vs|
    requires AllVariables(h[..k - 1]) == vs[..k - 1] && !HasOutput(h[..k - 1])
    requires Keys(h[k - 1].assignments) == [vs[k - 1]] && !HasText(h[k - 1].output) && vs[k - 1] !in vs[..k - 1]
    ensures AllVariables(h[..k]) == vs[..k] && !HasOutput(h[..k])
  {
    PrefixSnoc(h, k - 1);
    PrefixSnoc(vs, k - 1);
    StepOne(h[..k - 1], h[k - 1], vs[..k - 1], vs[k - 1]);
  }

  lemma WithScopesHeaders()
    ensures ColumnNames([A, Result, X]) == ["(double) a", "(double) result", "x"]
  {
    var names := ColumnNames([A, Result, X]);
    assert names[0] == "(double) a";
    assert names[1] == "(double) result";
    assert names[2] == "x";
  }

  lemma WithScopesRow0()
    ensures Row(WithScopes[0], [A, Result, X], false) == [Some("4"), Some("3"), None, None]
  {
    RowOfThree(WithScopes[0], A, Result, X);
    Digit(4); Digit(3);
  }

  lemma WithScopesRow1()
    ensures Row(WithScopes[1], [A, Result, X], false) == [Some("5"), None, Some("6"), None]
  {
    RowOfThree(WithScopes[1], A, Result, X);
    Digit(5); Digit(6);
  }

  lemma WithScopesRow2()
    ensures Row(WithScopes[2], [A, Result, X], false) == [Some("9"), None, None, Some("6")]
  {
    RowOfThree(WithScopes[2], A, Result, X);
    Digit(9); Digit(6);
  }

  lemma {:induction false} ConcatFour<T>(x: T, a: T, b: T, c: T)
    ensures [x] + [a, b, c] == [x, a, b, c]
  {
  }

  lemma WithScopesHeaderRow()
    ensures Headers(WithScopes) == [LINE, "(double) a", "(double) result", "x"]
  {
    WithScopesColumns();
    WithScopesHeaders();
    HeadersWithoutOutput(WithScopes, [A, Result, X], ["(double) a", "(double) result", "x"]);
    ConcatFour(LINE, "(double) a", "(double) result", "x");
  }

  /** Function variables are titled with their scope, in order of appearance. */
  lemma WithScopesTable()
    ensures Headers(WithScopes) == [LINE, "(double) a", "(double) result", "x"]
    ensures |Rows(WithScopes)| == 3
    ensures Rows(WithScopes)[0] == [Some("4"), Some("3"), None, None]
    ensures Rows(WithScopes)[1] == [Some("5"), None, Some("6"), None]
    ensures Rows(WithScopes)[2] == [Some("9"), None, None, Some("6")]
  {
    WithScopesColumns();
    WithScopesHeaderRow();
    var h := WithScopes;
    RowsAt(h, 0); RowsAt(h, 1); RowsAt(h, 2);
    WithScopesRow0(); WithScopesRow1(); WithScopesRow2();
  }

  /** The row of an item that prints, in a table without variables */
  lemma {:induction false} RowOfOutput(item: HistoryItem)
    ensures Row(item, [], true) == [Some(IntToString(item.loc.lineNo)), OutputCell(item.output)]
  {
  }

  /** A line of text without surrounding white space, printed with its newline */
  lemma {:induction false} StripLine(s: string)
    requires s != [] && !IsSpace(s[0]) && !IsSpace(s[|s| - 1])
    ensures Strip(s + "\n") == s
  {
    var t := s + "\n";
    assert StripStart(t) == t;
    assert t[..|t| - 1] == s;
    assert StripEnd(t) == StripEnd(s);
  }

  lemma StripOne()
    ensures Strip("1\n") == "1"
  {
    var t := "1\n";
    assert StripStart(t) == t;
    assert t[..1] == "1";
    assert StripEnd(t) == StripEnd("1");
  }

  lemma JustOneNumberTable()
    ensures Headers([Item(Loc(M, 1), [], Some("1\n"))]) == [LINE, OUTPUT]
    ensures Rows([Item(Loc(M, 1), [], Some("1\n"))]) == [[Some("1"), Some("1")]]
  {
    var h := [Item(Loc(M, 1), [], Some("1\n"))];
    StepNone([], h[0]);
    assert [] + [h[0]] == h;
    RowOfOutput(h[0]);
    StripOne();
    Digit(1);
  }

  const Y := Var(M, "y")
  const T := Var(M, "t")
  const Name := Var("greet", "name")
  const Message := Var("greet", "message")

  /** `test_small_example` */
  const SmallExample: History :=
    [ Item(Loc(M, 3), [(X, Val(Int(1))), (Y, Val(Int(3)))], None),
      Item(Loc(M, 6), [(X, Val(Int(2)))], None),
      Item(Loc(M, 6), [(X, Val(Int(3)))], None),
      Item(Loc(M, 8), [], Some("x: 3\n")),
      Item(Loc(M, 10), [(T, Val(Object("(1, 2)")))], None),
      Item(Loc("greet", 13), [(Name, Val(Str("Bob")))], None),
      Item(Loc("greet", 14), [(Message, Val(Str("Hello Bob!")))], None),
      Item(Loc(M, 18), [], Some("Hello Bob!\n")) ]

  /**
   * What the columns of `test_small_example` depend on: the keys each item
   * assigns and which items print something.
   */
  predicate SmallExampleShape(h: History) {
    |h| == 8 &&
    Keys(h[0].assignments) == [X, Y] && Keys(h[1].assignments) == [X] && Keys(h[2].assignments) == [X] &&
    Keys(h[3].assignments) == [] && Keys(h[4].assignments) == [T] && Keys(h[5].assignments) == [Name] &&
    Keys(h[6].assignments) == [Message] && Keys(h[7].assignments) == [] &&
    !HasText(h[0].output) && !HasText(h[1].output) && !HasText(h[2].output) && HasText(h[3].output)
  }

  lemma SmallExampleHasShape()
    ensures SmallExampleShape(SmallExample)
  {
  }

  lemma {:induction false} ShapeFirstLines(h: History, k: nat)
    requires SmallExampleShape(h) && 1 <= k <= 3
    ensures AllVariables(h[..k]) == [X, Y] && !HasOutput(h[..k])
  {
    PrefixSnoc(h, k - 1);
    if k == 1 {
      StepTwo(h[..0], h[0], [], X, Y);
    } else {
      ShapeFirstLines(h, k - 1);
      StepOne(h[..k - 1], h[k - 1], [X, Y], X);
    }
  }

  lemma {:induction false} ShapeUpToOutput(h: History)
    requires SmallExampleShape(h)
    ensures AllVariables(h[..4]) == [X, Y] && HasOutput(h[..4])
  {
    ShapeFirstLines(h, 3);
    PrefixSnoc(h, 3);
    StepNone(h[..3], h[3]);
  }

  lemma {:induction false} ShapeUpToT(h: History)
    requires SmallExampleShape(h)
    ensures AllVariables(h[..5]) == [X, Y, T] && HasOutput(h[..5])
  {
    ShapeUpToOutput(h);
    PrefixSnoc(h, 4);
    StepOne(h[..4], h[4], [X, Y], T);
  }

  lemma {:induction false} ShapeUpToName(h: History)
    requires SmallExampleShape(h)
    ensures AllVariables(h[..6]) == [X, Y, T, Name] && HasOutput(h[..6])
  {
    ShapeUpToT(h);
    PrefixSnoc(h, 5);
    StepOne(h[..5], h[5], [X, Y, T], Name);
  }

  lemma {:induction false} ShapeUpToMessage(h: History)
    requires SmallExampleShape(h)
    ensures AllVariables(h[..7]) == [X, Y, T, Name, Message] && HasOutput(h[..7])
  {
    ShapeUpToName(h);
    PrefixSnoc(h, 6);
    StepOne(h[..6], h[6], [X, Y, T, Name], Message);
  }

  lemma {:induction false} ShapeColumns(h: History)
    requires SmallExampleShape(h)
    ensures AllVariables(h) == [X, Y, T, Name, Message] && HasOutput(h)
  {
    ShapeUpToMessage(h);
    PrefixSnoc(h, 7);
    StepNone(h[..7], h[7]);
    assert h[..8] == h;
  }

  lemma SmallExampleColumns()
    ensures AllVariables(SmallExample) == [X, Y, T, Name, Message] && HasOutput(SmallExample)
  {
    SmallExampleHasShape();
    ShapeColumns(SmallExample);
  }

  lemma {:induction false} NamesOfFive(v0: Var, v1: Var, v2: Var, v3: Var, v4: Var)
    ensures ColumnNames([v0, v1, v2, v3, v4]) == [ColumnName(v0), ColumnName(v1), ColumnName(v2), ColumnName(v3), ColumnName(v4)]
  {
    assert [v0, v1, v2, v3, v4][..4] == [v0, v1, v2, v3];
    assert [v0, v1, v2, v3][..3] == [v0, v1, v2];
    assert [v0, v1, v2][..2] == [v0, v1];
    assert [v0, v1][..1] == [v0];
    assert [v0][..0] == [];
  }

  lemma SmallExampleNames()
    ensures ColumnNames([X, Y, T, Name, Message]) == ["x", "y", "t", "(greet) name", "(greet) message"]
  {
    NamesOfFive(X, Y, T, Name, Message);
    assert ColumnName(Name) == "(greet) name";
    assert ColumnName(Message) == "(greet) message";
  }

  /** The header row of the report in `test_small_example`. */
  lemma SmallExampleHeaders()
    ensures Headers(SmallExample) == [LINE, "x", "y", "t", "(greet) name", "(greet) message", OUTPUT]
  {
    SmallExampleColumns();
    SmallExampleNames();
  }

  /** An output row shows the stripped text last; a tuple shows as its `str`. */
  lemma SmallExampleRows()
    ensures Rows(SmallExample)[3] == [Some("8"), None, None, None, None, None, Some("x: 3")]
    ensures Rows(SmallExample)[4] == [Some("10"), None, None, Some("(1, 2)"), None, None, None]
  {
    SmallExampleColumns();
    RowsAt(SmallExample, 3);
    RowsAt(SmallExample, 4);
    SmallExampleOutputRow();
    SmallExampleTupleRow();
  }

  lemma {:induction false} CellsOfFive(a: Assignments, v0: Var, v1: Var, v2: Var, v3: Var, v4: Var)
    ensures Cells(a, [v0, v1, v2, v3, v4]) == [CellOf(a, v0), CellOf(a, v1), CellOf(a, v2), CellOf(a, v3), CellOf(a, v4)]
  {
    assert [v0, v1, v2, v3, v4][..4] == [v0, v1, v2, v3];
    assert [v0, v1, v2, v3][..3] == [v0, v1, v2];
    assert [v0, v1, v2][..2] == [v0, v1];
    assert [v0, v1][..1] == [v0];
    assert [v0][..0] == [];
  }

  lemma {:induction false} ConcatSeven<T>(l: T, c0: T, c1: T, c2: T, c3: T, c4: T, o: T)
    ensures [l] + [c0, c1, c2, c3, c4] + [o] == [l, c0, c1, c2, c3, c4, o]
  {
  }

  /** The row of an item in a table of five variables and an output column */
  lemma {:induction false} RowOfFive(item: HistoryItem, v0: Var, v1: Var, v2: Var, v3: Var, v4: Var)
    ensures var a := item.assignments;
            Row(item, [v0, v1, v2, v3, v4], true) ==
            [Some(IntToString(item.loc.lineNo)), CellOf(a, v0), CellOf(a, v1), CellOf(a, v2), CellOf(a, v3), CellOf(a, v4),
             OutputCell(item.output)]
  {
    var a := item.assignments;
    CellsOfFive(a, v0, v1, v2, v3, v4);
    ConcatSeven(Some(IntToString(item.loc.lineNo)), CellOf(a, v0), CellOf(a, v1), CellOf(a, v2), CellOf(a, v3), CellOf(a, v4),
                OutputCell(item.output));
  }

  lemma StripXThree()
    ensures Strip("x: 3\n") == "x: 3"
  {
    StripLine("x: 3");
    assert "x: 3" + "\n" == "x: 3\n";
  }

  /** None of the five variables is assigned by an item that assigns nothing. */
  lemma {:induction false} NoCells(assignments: Assignments, vars: seq<Var>)
    requires assignments == [] && |vars| == 5
    ensures CellOf(assignments, vars[0]) == None && CellOf(assignments, vars[1]) == None &&
            CellOf(assignments, vars[2]) == None && CellOf(assignments, vars[3]) == None &&
            CellOf(assignments, vars[4]) == None
  {
  }

  lemma SmallExampleOutputRow()
    ensures Row(Item(Loc(M, 8), [], Some("x: 3\n")), [X, Y, T, Name, Message], true) ==
            [Some("8"), None, None, None, None, None, Some("x: 3")]
  {
    var item := Item(Loc(M, 8), [], Some("x: 3\n"));
    RowOfFive(item, X, Y, T, Name, Message);
    NoCells(item.assignments, [X, Y, T, Name, Message]);
    StripXThree();
    Digit(8);
  }

  lemma TupleCells()
    ensures var a: Assignments := [(T, Val(Object("(1, 2)")))];
            CellOf(a, X) == None && CellOf(a, Y) == None && CellOf(a, T) == Some("(1, 2)") &&
            CellOf(a, Name) == None && CellOf(a, Message) == None
  {
  }

  lemma SmallExampleTupleRow()
    ensures Row(Item(Loc(M, 10), [(T, Val(Object("(1, 2)")))], None), [X, Y, T, Name, Message], true) ==
            [Some("10"), None, None, Some("(1, 2)"), None, None, None]
  {
    var item := Item(Loc(M, 10), [(T, Val(Object("(1, 2)")))], None);
    RowOfFive(item, X, Y, T, Name, Message);
    TupleCells();
    Ten();
  }

  lemma Ten()
    ensures IntToString(10) == "10"
  {
    assert NatToString(1) == "1";
    assert DigitChar(0) == '0';
    assert NatToString(10) == NatToString(1) + [DigitChar(0)];
  }
}

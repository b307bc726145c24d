/**
 * How parsetab.py turns its stored columns into the two-level tables the driver indexes, and
 * that the result is exactly the Action and Goto of the model.
 */
module MicroAsmLoad {
  import opened Wrappers
  import opened MicroAsmTables

  /** One entry of an items dictionary: a symbol, the states listed for it and their entries. */
  datatype Column = Column(symbol: Symbol, states: seq<nat>, entries: seq<int>)

  type Table = map<nat, map<Symbol, int>>

  function Lookup(table: Table, s: nat, x: Symbol): Option<int> {
    if s in table && x in table[s] then Some(table[s][x]) else None
  }

  /** Some column lists entry y for state s and symbol x; zip stops at the shorter list. */
  ghost predicate Listed(items: seq<Column>, s: nat, x: Symbol, y: int) {
    exists i, k :: ListedAt(items, i, k, s, x, y)
  }

  ghost predicate ListedAt(items: seq<Column>, i: nat, k: nat, s: nat, x: Symbol, y: int) {
    && i < |items| && k < |items[i].states| && k < |items[i].entries|
    && items[i].symbol == x && items[i].states[k] == s && items[i].entries[k] == y
  }

  ghost predicate NoClash(items: seq<Column>) {
    forall s, x, y, z :: Listed(items, s, x, y) && Listed(items, s, x, z) ==> y == z
  }

  /** Entries listed before row k of column i. */
  ghost predicate ListedBefore(items: seq<Column>, i: nat, k: nat, s: nat, x: Symbol, y: int) {
    exists j: nat, l: nat :: (j < i || (j == i && l < k)) && ListedAt(items, j, l, s, x, y)
  }

  ghost predicate Filled(table: Table, items: seq<Column>, i: nat, k: nat) {
    forall s, x, y :: Lookup(table, s, x) == Some(y) <==> ListedBefore(items, i, k, s, x, y)
  }

  /** The nested loops that fill the table, for columns in any order. */
  method BuildTable(items: seq<Column>) returns (table: Table)
    requires NoClash(items)
    ensures forall s, x, y :: Lookup(table, s, x) == Some(y) <==> Listed(items, s, x, y)
  {
    table := map[];
    for i := 0 to |items|
      invariant Filled(table, items, i, 0)
    {
      var column := items[i];
      var n := if |column.states| < |column.entries| then |column.states| else |column.entries|;
      for k := 0 to n
        invariant Filled(table, items, i, k)
      {
        var s, y := column.states[k], column.entries[k];
        ghost var before := table;
        if s !in table {
          table := table[s := map[]];
        }
        var row: map<Symbol, int> := table[s];
        table := table[s := row[column.symbol := y]];
        FillOne(before, table, items, i, k);
      }
      assert Filled(table, items, i + 1, 0);
    }
  }

  lemma FillOne(before: Table, after: Table, items: seq<Column>, i: nat, k: nat)
    requires NoClash(items) && Filled(before, items, i, k)
    requires i < |items| && k < |items[i].states| && k < |items[i].entries|
    requires forall s, x :: Lookup(after, s, x) ==
               if s == items[i].states[k] && x == items[i].symbol then Some(items[i].entries[k])
               else Lookup(before, s, x)
    ensures Filled(after, items, i, k + 1)
  {
    var s0, x0, y0 := items[i].states[k], items[i].symbol, items[i].entries[k];
    assert ListedAt(items, i, k, s0, x0, y0);
    forall s, x, y ensures Lookup(after, s, x) == Some(y) <==> ListedBefore(items, i, k + 1, s, x, y) {
      if s == s0 && x == x0 && ListedBefore(items, i, k + 1, s, x, y) {
        assert Listed(items, s, x, y) && Listed(items, s, x, y0);
      }
      assert ListedBefore(items, i, k + 1, s, x, y) <==>
        ListedBefore(items, i, k, s, x, y) || ListedAt(items, i, k, s, x, y);
    }
  }

  const LBRACE_ACTIONS := Column(LBRACE,
    [9, 13],
    [11, 11])
  const RPAREN_ACTIONS := Column(RPAREN,
    [40],
    [44])
  const ROM_ACTIONS := Column(ROM,
    [6],
    [9])
  const SEMI_ACTIONS := Column(SEMI,
    [11, 12, 14, 15, 18, 19, 21, 22, 25, 27, 28, 31, 33, 34, 35, 37, 38, 41, 43, 44],
    [-17, 24, -17, -16, -15, -12, 34, -21, 39, -11, -13, -20, -18, -19, -14, -23, -29, -22, -30, 45])
  const NEWLINE_ACTIONS := Column(NEWLINE,
    [11, 14, 15, 16, 17, 18, 19, 21, 22, 28, 29, 30, 31, 33, 34, 35, 36, 37, 38, 41, 42, 43],
    [-17, -17, -16, 29, -24, -15, -12, 33, -21, -13, -26, -25, -20, -18, -19, -14, -27, -23, -29, -22, -28,
     -30])
  const LPAREN_ACTIONS := Column(LPAREN,
    [13],
    [26])
  const RBRACE_ACTIONS := Column(RBRACE,
    [14, 19, 28, 33, 34, 35],
    [27, -12, -13, -18, -19, -14])
  const COLON_ACTIONS := Column(COLON,
    [22, 31, 32],
    [36, 36, 42])
  const DOT_ACTIONS := Column(DOT,
    [11, 14, 19, 28, 33, 34, 35],
    [23, 23, -12, -13, -18, -19, -14])
  const MACROOP_ACTIONS := Column(MACROOP,
    [6],
    [10])
  const EXTERN_ACTIONS := Column(EXTERN,
    [11, 14, 16, 17, 19, 28, 29, 30, 33, 34, 35, 36, 42],
    [20, 20, 20, -24, -12, -13, -26, -25, -18, -19, -14, -27, -28])
  const PARAMS_ACTIONS := Column(PARAMS,
    [22, 31, 38],
    [37, 41, 43])
  const ID_ACTIONS := Column(ID,
    [10, 11, 14, 16, 17, 19, 20, 23, 26, 28, 29, 30, 33, 34, 35, 36, 42],
    [13, 22, 22, 31, -24, -12, 32, 38, 40, -13, -26, -25, -18, -19, -14, -27, -28])
  const DEF_ACTIONS := Column(DEF,
    [0, 1, 2, 3, 7, 8, 24, 39, 45],
    [6, -7, 6, -6, -4, -5, -8, -10, -9])
  const END_ACTIONS := Column(END,
    [0, 1, 2, 3, 4, 5, 7, 8, 24, 39, 45],
    [-2, -7, -3, -6, 0, -1, -4, -5, -8, -10, -9])

  const ACTION_ITEMS: seq<Column> := [
    LBRACE_ACTIONS, RPAREN_ACTIONS, ROM_ACTIONS, SEMI_ACTIONS, NEWLINE_ACTIONS, LPAREN_ACTIONS,
    RBRACE_ACTIONS, COLON_ACTIONS, DOT_ACTIONS, MACROOP_ACTIONS, EXTERN_ACTIONS, PARAMS_ACTIONS,
    ID_ACTIONS, DEF_ACTIONS, END_ACTIONS
  ]

  const MACROOP_DEF_GOTOS := Column(MACROOP_DEF,
    [0, 2],
    [1, 1])
  const STATEMENTS_GOTOS := Column(STATEMENTS,
    [11],
    [14])
  const STATEMENT_GOTOS := Column(STATEMENT,
    [11, 14],
    [19, 28])
  const DIRECTIVE_GOTOS := Column(DIRECTIVE,
    [11, 14],
    [15, 15])
  const ROM_OR_MACROS_GOTOS := Column(ROM_OR_MACROS,
    [0],
    [2])
  const LABELS_GOTOS := Column(LABELS,
    [11, 14],
    [16, 16])
  const END_OF_STATEMENT_GOTOS := Column(END_OF_STATEMENT,
    [21],
    [35])
  const MICROOP_GOTOS := Column(MICROOP,
    [11, 14],
    [18, 18])
  const LABEL_GOTOS := Column(LABEL,
    [11, 14, 16],
    [17, 17, 30])
  const ROM_BLOCK_GOTOS := Column(ROM_BLOCK,
    [0, 2],
    [3, 3])
  const FILE_GOTOS := Column(FILE,
    [0],
    [4])
  const CONTENT_OF_STATEMENT_GOTOS := Column(CONTENT_OF_STATEMENT,
    [11, 14],
    [21, 21])
  const OPT_ROM_OR_MACROS_GOTOS := Column(OPT_ROM_OR_MACROS,
    [0],
    [5])
  const BLOCK_GOTOS := Column(BLOCK,
    [9, 13],
    [12, 25])
  const ROM_OR_MACRO_GOTOS := Column(ROM_OR_MACRO,
    [0, 2],
    [7, 8])

  const GOTO_ITEMS: seq<Column> := [
    MACROOP_DEF_GOTOS, STATEMENTS_GOTOS, STATEMENT_GOTOS, DIRECTIVE_GOTOS, ROM_OR_MACROS_GOTOS,
    LABELS_GOTOS, END_OF_STATEMENT_GOTOS, MICROOP_GOTOS, LABEL_GOTOS, ROM_BLOCK_GOTOS, FILE_GOTOS,
    CONTENT_OF_STATEMENT_GOTOS, OPT_ROM_OR_MACROS_GOTOS, BLOCK_GOTOS, ROM_OR_MACRO_GOTOS
  ]

  /** What parsetab.py stores for an action. */
  function Code(m: Move): Option<int> {
    match m
    case Shift(s) => Some(s)
    case Reduce(p) => Some(-(p as int))
    case Accept => Some(0)
    case Error => None
  }

  function GotoCode(s: nat, x: Symbol): Option<int> {
    if Edge(s, x).Some? then Some(Edge(s, x).value) else None
  }

  ghost predicate RowAgrees(c: Column, k: nat)
    requires k < |c.states| && k < |c.entries|
  {
    Code(Action(c.states[k], c.symbol)) == Some(c.entries[k])
  }

  /** The column lists every action for its symbol and nothing else. */
  ghost predicate Agrees(c: Column) {
    && |c.states| == |c.entries|
    && (forall k: nat | k < |c.states| :: RowAgrees(c, k))
    && (forall s | Code(Action(s, c.symbol)) != None :: s in c.states)
  }

  ghost predicate GotoAgrees(c: Column) {
    && |c.states| == |c.entries|
    && (forall k | 0 <= k < |c.states| :: GotoCode(c.states[k], c.symbol) == Some(c.entries[k]))
    && (forall s | GotoCode(s, c.symbol) != None :: s in c.states)
  }

  lemma SemiRows1(k: nat)
    requires k < 8
    ensures RowAgrees(SEMI_ACTIONS, k)
  {
    match k
    case 0 => case 1 => case 2 => case 3 => case 4 => case 5 => case 6 => case _ =>
  }

  lemma SemiRows2(k: nat)
    requires 8 <= k < 16
    ensures RowAgrees(SEMI_ACTIONS, k)
  {
    match k
    case 8 => case 9 => case 10 => case 11 => case 12 => case 13 => case 14 => case _ =>
  }

  lemma SemiRows3(k: nat)
    requires 16 <= k < 20
    ensures RowAgrees(SEMI_ACTIONS, k)
  {
    match k
    case 16 => case 17 => case 18 => case _ =>
  }

  lemma SemiStates(s: nat)
    ensures Code(Action(s, SEMI)) != None ==> s in SEMI_ACTIONS.states
  {
  }

  lemma SemiAgrees()
    ensures Agrees(SEMI_ACTIONS)
  {
    hide Action, Code, RowAgrees;
    forall k: nat | k < 20 ensures RowAgrees(SEMI_ACTIONS, k) {
      if k < 8 {
        SemiRows1(k);
      } else if k < 16 {
        SemiRows2(k);
      } else {
        SemiRows3(k);
      }
    }
    forall s | Code(Action(s, SEMI)) != None ensures s in SEMI_ACTIONS.states {
      SemiStates(s);
    }
  }

  lemma NewlineRows1(k: nat)
    requires k < 8
    ensures RowAgrees(NEWLINE_ACTIONS, k)
  {
    match k
    case 0 => case 1 => case 2 => case 3 => case 4 => case 5 => case 6 => case _ =>
  }

  lemma NewlineRows2(k: nat)
    requires 8 <= k < 16
    ensures RowAgrees(NEWLINE_ACTIONS, k)
  {
    match k
    case 8 => case 9 => case 10 => case 11 => case 12 => case 13 => case 14 => case _ =>
  }

  lemma NewlineRows3(k: nat)
    requires 16 <= k < 22
    ensures RowAgrees(NEWLINE_ACTIONS, k)
  {
    match k
    case 16 => case 17 => case 18 => case 19 => case 20 => case _ =>
  }

  lemma NewlineStates(s: nat)
    ensures Code(Action(s, NEWLINE)) != None ==> s in NEWLINE_ACTIONS.states
  {
  }

  lemma NewlineAgrees()
    ensures Agrees(NEWLINE_ACTIONS)
  {
    hide Action, Code, RowAgrees;
    forall k: nat | k < 22 ensures RowAgrees(NEWLINE_ACTIONS, k) {
      if k < 8 {
        NewlineRows1(k);
      } else if k < 16 {
        NewlineRows2(k);
      } else {
        NewlineRows3(k);
      }
    }
    forall s | Code(Action(s, NEWLINE)) != None ensures s in NEWLINE_ACTIONS.states {
      NewlineStates(s);
    }
  }

  lemma RbraceRows(k: nat)
    requires k < 6
    ensures RowAgrees(RBRACE_ACTIONS, k)
  {
    match k
    case 0 => case 1 => case 2 => case 3 => case 4 => case _ =>
  }

  lemma RbraceStates(s: nat)
    ensures Code(Action(s, RBRACE)) != None ==> s in RBRACE_ACTIONS.states
  {
  }

  lemma RbraceAgrees()
    ensures Agrees(RBRACE_ACTIONS)
  {
    hide Action, Code, RowAgrees;
    forall k: nat | k < 6 ensures RowAgrees(RBRACE_ACTIONS, k) {
      RbraceRows(k);
    }
    forall s | Code(Action(s, RBRACE)) != None ensures s in RBRACE_ACTIONS.states {
      RbraceStates(s);
    }
  }

  lemma DotRows(k: nat)
    requires k < 7
    ensures RowAgrees(DOT_ACTIONS, k)
  {
    match k
    case 0 => case 1 => case 2 => case 3 => case 4 => case 5 => case _ =>
  }

  lemma DotStates(s: nat)
    ensures Code(Action(s, DOT)) != None ==> s in DOT_ACTIONS.states
  {
  }

  lemma DotAgrees()
    ensures Agrees(DOT_ACTIONS)
  {
    hide Action, Code, RowAgrees;
    forall k: nat | k < 7 ensures RowAgrees(DOT_ACTIONS, k) {
      DotRows(k);
    }
    forall s | Code(Action(s, DOT)) != None ensures s in DOT_ACTIONS.states {
      DotStates(s);
    }
  }

  lemma ExternRows1(k: nat)
    requires k < 8
    ensures RowAgrees(EXTERN_ACTIONS, k)
  {
    match k
    case 0 => case 1 => case 2 => case 3 => case 4 => case 5 => case 6 => case _ =>
  }

  lemma ExternRows2(k: nat)
    requires 8 <= k < 13
    ensures RowAgrees(EXTERN_ACTIONS, k)
  {
    match k
    case 8 => case 9 => case 10 => case 11 => case _ =>
  }

  lemma ExternStates(s: nat)
    ensures Code(Action(s, EXTERN)) != None ==> s in EXTERN_ACTIONS.states
  {
  }

  lemma ExternAgrees()
    ensures Agrees(EXTERN_ACTIONS)
  {
    hide Action, Code, RowAgrees;
    forall k: nat | k < 13 ensures RowAgrees(EXTERN_ACTIONS, k) {
      if k < 8 {
        ExternRows1(k);
      } else {
        ExternRows2(k);
      }
    }
    forall s | Code(Action(s, EXTERN)) != None ensures s in EXTERN_ACTIONS.states {
      ExternStates(s);
    }
  }

  lemma IdRows1(k: nat)
    requires k < 8
    ensures RowAgrees(ID_ACTIONS, k)
  {
    match k
    case 0 => case 1 => case 2 => case 3 => case 4 => case 5 => case 6 => case _ =>
  }

  lemma IdRows2(k: nat)
    requires 8 <= k < 16
    ensures RowAgrees(ID_ACTIONS, k)
  {
    match k
    case 8 => case 9 => case 10 => case 11 => case 12 => case 13 => case 14 => case _ =>
  }

  lemma IdRows3(k: nat)
    requires 16 <= k < 17
    ensures RowAgrees(ID_ACTIONS, k)
  {
    match k
     case _ =>
  }

  lemma IdStates(s: nat)
    ensures Code(Action(s, ID)) != None ==> s in ID_ACTIONS.states
  {
  }

  lemma IdAgrees()
    ensures Agrees(ID_ACTIONS)
  {
    hide Action, Code, RowAgrees;
    forall k: nat | k < 17 ensures RowAgrees(ID_ACTIONS, k) {
      if k < 8 {
        IdRows1(k);
      } else if k < 16 {
        IdRows2(k);
      } else {
        IdRows3(k);
      }
    }
    forall s | Code(Action(s, ID)) != None ensures s in ID_ACTIONS.states {
      IdStates(s);
    }
  }

  lemma DefRows1(k: nat)
    requires k < 8
    ensures RowAgrees(DEF_ACTIONS, k)
  {
    match k
    case 0 => case 1 => case 2 => case 3 => case 4 => case 5 => case 6 => case _ =>
  }

  lemma DefRows2(k: nat)
    requires 8 <= k < 9
    ensures RowAgrees(DEF_ACTIONS, k)
  {
    match k
     case _ =>
  }

  lemma DefStates(s: nat)
    ensures Code(Action(s, DEF)) != None ==> s in DEF_ACTIONS.states
  {
  }

  lemma DefAgrees()
    ensures Agrees(DEF_ACTIONS)
  {
    hide Action, Code, RowAgrees;
    forall k: nat | k < 9 ensures RowAgrees(DEF_ACTIONS, k) {
      if k < 8 {
        DefRows1(k);
      } else {
        DefRows2(k);
      }
    }
    forall s | Code(Action(s, DEF)) != None ensures s in DEF_ACTIONS.states {
      DefStates(s);
    }
  }

  lemma EndRows1(k: nat)
    requires k < 8
    ensures RowAgrees(END_ACTIONS, k)
  {
    match k
    case 0 => case 1 => case 2 => case 3 => case 4 => case 5 => case 6 => case _ =>
  }

  lemma EndRows2(k: nat)
    requires 8 <= k < 11
    ensures RowAgrees(END_ACTIONS, k)
  {
    match k
    case 8 => case 9 => case _ =>
  }

  lemma EndStates(s: nat)
    ensures Code(Action(s, END)) != None ==> s in END_ACTIONS.states
  {
  }

  lemma EndAgrees()
    ensures Agrees(END_ACTIONS)
  {
    hide Action, Code, RowAgrees;
    forall k: nat | k < 11 ensures RowAgrees(END_ACTIONS, k) {
      if k < 8 {
        EndRows1(k);
      } else {
        EndRows2(k);
      }
    }
    forall s | Code(Action(s, END)) != None ensures s in END_ACTIONS.states {
      EndStates(s);
    }
  }

  lemma ShortColumnsAgree1()
    ensures Agrees(LBRACE_ACTIONS) && Agrees(RPAREN_ACTIONS)
  {
  }

  lemma ShortColumnsAgree2()
    ensures Agrees(ROM_ACTIONS) && Agrees(LPAREN_ACTIONS)
  {
  }

  lemma ShortColumnsAgree3()
    ensures Agrees(COLON_ACTIONS) && Agrees(MACROOP_ACTIONS)
  {
  }

  lemma ShortColumnsAgree4()
    ensures Agrees(PARAMS_ACTIONS)
  {
  }

  lemma GotoColumnsAgree1()
    ensures GotoAgrees(MACROOP_DEF_GOTOS) && GotoAgrees(STATEMENTS_GOTOS) && GotoAgrees(STATEMENT_GOTOS)
  {
  }

  lemma GotoColumnsAgree2()
    ensures GotoAgrees(DIRECTIVE_GOTOS) && GotoAgrees(ROM_OR_MACROS_GOTOS) && GotoAgrees(LABELS_GOTOS)
  {
  }

  lemma GotoColumnsAgree3()
    ensures GotoAgrees(END_OF_STATEMENT_GOTOS) && GotoAgrees(MICROOP_GOTOS) && GotoAgrees(LABEL_GOTOS)
  {
  }

  lemma GotoColumnsAgree4()
    ensures GotoAgrees(ROM_BLOCK_GOTOS) && GotoAgrees(FILE_GOTOS) && GotoAgrees(CONTENT_OF_STATEMENT_GOTOS)
  {
  }

  lemma GotoColumnsAgree5()
    ensures GotoAgrees(OPT_ROM_OR_MACROS_GOTOS) && GotoAgrees(BLOCK_GOTOS) &&
            GotoAgrees(ROM_OR_MACRO_GOTOS)
  {
  }

  lemma ActionColumn(i: nat)
    requires i < |ACTION_ITEMS|
    ensures ACTION_ITEMS[i].symbol == i && Agrees(ACTION_ITEMS[i])
  {
    hide Agrees;
    ShortColumnsAgree1();
    ShortColumnsAgree2();
    ShortColumnsAgree3();
    ShortColumnsAgree4();
    SemiAgrees();
    NewlineAgrees();
    RbraceAgrees();
    DotAgrees();
    ExternAgrees();
    IdAgrees();
    DefAgrees();
    EndAgrees();
    match i
    case 0 => case 1 => case 2 => case 3 => case 4 => case 5 => case 6 => case 7 => case 8 =>
    case 9 => case 10 => case 11 => case 12 => case 13 => case _ =>
  }

  function GotoIndex(x: Symbol): (i: nat)
    ensures i < 15
  {
    match x
    case MACROOP_DEF => 0 case STATEMENTS => 1 case STATEMENT => 2 case DIRECTIVE => 3 case ROM_OR_MACROS => 4
    case LABELS => 5 case END_OF_STATEMENT => 6 case MICROOP => 7 case LABEL => 8 case ROM_BLOCK => 9
    case FILE => 10 case CONTENT_OF_STATEMENT => 11 case OPT_ROM_OR_MACROS => 12 case BLOCK => 13
    case _ => 14
  }

  lemma GotoColumn(i: nat)
    requires i < |GOTO_ITEMS|
    ensures GotoIndex(GOTO_ITEMS[i].symbol) == i && !IsTerminal(GOTO_ITEMS[i].symbol) && GotoAgrees(GOTO_ITEMS[i])
  {
    hide GotoAgrees;
    GotoColumnsAgree1();
    GotoColumnsAgree2();
    GotoColumnsAgree3();
    GotoColumnsAgree4();
    GotoColumnsAgree5();
    match i
    case 0 => case 1 => case 2 => case 3 => case 4 => case 5 => case 6 => case 7 => case 8 =>
    case 9 => case 10 => case 11 => case 12 => case 13 => case _ =>
  }

  lemma ActionRow(i: nat, k: nat)
    requires i < |ACTION_ITEMS| && k < |ACTION_ITEMS[i].states|
    ensures IsTerminal(i) && ACTION_ITEMS[i].symbol == i && |ACTION_ITEMS[i].states| == |ACTION_ITEMS[i].entries|
    ensures Code(Action(ACTION_ITEMS[i].states[k], i)) == Some(ACTION_ITEMS[i].entries[k])
  {
    ActionColumn(i);
    assert RowAgrees(ACTION_ITEMS[i], k);
  }

  /** The listed action entries are the model's actions. */
  lemma ActionItemsAreModel(s: nat, x: Symbol, y: int)
    ensures Listed(ACTION_ITEMS, s, x, y) <==> IsTerminal(x) && Code(Action(s, x)) == Some(y)
  {
    hide Action, Code;
    if i: nat, k: nat :| ListedAt(ACTION_ITEMS, i, k, s, x, y) {
      ActionRow(i, k);
    }
    if IsTerminal(x) && Code(Action(s, x)) == Some(y) {
      ActionColumn(x);
      var k: nat :| k < |ACTION_ITEMS[x].states| && ACTION_ITEMS[x].states[k] == s;
      ActionRow(x, k);
      assert ListedAt(ACTION_ITEMS, x, k, s, x, y);
    }
  }

  lemma GotoAt(s: nat, x: Symbol)
    requires !IsTerminal(x) && Edge(s, x).Some?
    ensures GOTO_ITEMS[GotoIndex(x)].symbol == x
  {
  }

  lemma GotoItemsAreModel(s: nat, x: Symbol, y: int)
    ensures Listed(GOTO_ITEMS, s, x, y) <==> !IsTerminal(x) && GotoCode(s, x) == Some(y)
  {
    hide GotoIndex, Edge;
    if i, k :| ListedAt(GOTO_ITEMS, i, k, s, x, y) {
      GotoColumn(i);
    }
    if !IsTerminal(x) && GotoCode(s, x) == Some(y) {
      GotoAt(s, x);
      var i := GotoIndex(x);
      GotoColumn(i);
      var c := GOTO_ITEMS[i];
      var k :| 0 <= k < |c.states| && c.states[k] == s;
      assert ListedAt(GOTO_ITEMS, i, k, s, x, y);
    }
  }

  /** The same columns in another order, as a dictionary may iterate over them. */
  ghost predicate Reordered(items: seq<Column>, stored: seq<Column>) {
    multiset(items) == multiset(stored)
  }

  lemma ReorderedLists(items: seq<Column>, stored: seq<Column>, s: nat, x: Symbol, y: int)
    requires Reordered(items, stored) && Listed(items, s, x, y)
    ensures Listed(stored, s, x, y)
  {
    var i: nat, k: nat :| ListedAt(items, i, k, s, x, y);
    assert items[i] in multiset(items);
    assert items[i] in stored;
    var j: nat :| j < |stored| && stored[j] == items[i];
    assert ListedAt(stored, j, k, s, x, y);
  }

  /** Loading the stored columns, in whatever order, gives the tables of the model. */
  method LoadTables(actionItems: seq<Column>, gotoItems: seq<Column>) returns (action: Table, goto: Table)
    requires Reordered(actionItems, ACTION_ITEMS) && Reordered(gotoItems, GOTO_ITEMS)
    ensures forall s, x :: Lookup(action, s, x) == if IsTerminal(x) then Code(Action(s, x)) else None
    ensures forall s, x :: Lookup(goto, s, x) == if IsTerminal(x) then None else GotoCode(s, x)
  {
    hide Action, Code, GotoCode, Reordered, ACTION_ITEMS, GOTO_ITEMS;
    forall s, x, y ensures Listed(actionItems, s, x, y) <==> IsTerminal(x) && Code(Action(s, x)) == Some(y) {
      ActionsListed(actionItems, s, x, y);
    }
    forall s, x, y ensures Listed(gotoItems, s, x, y) <==> !IsTerminal(x) && GotoCode(s, x) == Some(y) {
      GotosListed(gotoItems, s, x, y);
    }
    action := BuildTable(actionItems);
    goto := BuildTable(gotoItems);
    forall s, x ensures Lookup(action, s, x) == if IsTerminal(x) then Code(Action(s, x)) else None {
      var want := if IsTerminal(x) then Code(Action(s, x)) else None;
      assert Lookup(action, s, x).Some? ==> Listed(actionItems, s, x, Lookup(action, s, x).value);
      assert want.Some? ==> Listed(actionItems, s, x, want.value);
    }
    forall s, x ensures Lookup(goto, s, x) == if IsTerminal(x) then None else GotoCode(s, x) {
      var want := if IsTerminal(x) then None else GotoCode(s, x);
      assert Lookup(goto, s, x).Some? ==> Listed(gotoItems, s, x, Lookup(goto, s, x).value);
      assert want.Some? ==> Listed(gotoItems, s, x, want.value);
    }
  }

  lemma ActionsListed(items: seq<Column>, s: nat, x: Symbol, y: int)
    requires Reordered(items, ACTION_ITEMS)
    ensures Listed(items, s, x, y) <==> IsTerminal(x) && Code(Action(s, x)) == Some(y)
  {
    hide Action, Code, Listed;
    ActionItemsAreModel(s, x, y);
    if Listed(items, s, x, y) {
      ReorderedLists(items, ACTION_ITEMS, s, x, y);
    }
    if Listed(ACTION_ITEMS, s, x, y) {
      ReorderedLists(ACTION_ITEMS, items, s, x, y);
    }
  }

  lemma GotosListed(items: seq<Column>, s: nat, x: Symbol, y: int)
    requires Reordered(items, GOTO_ITEMS)
    ensures Listed(items, s, x, y) <==> !IsTerminal(x) && GotoCode(s, x) == Some(y)
  {
    hide GotoCode, Listed;
    GotoItemsAreModel(s, x, y);
    if Listed(items, s, x, y) {
      ReorderedLists(items, GOTO_ITEMS, s, x, y);
    }
    if Listed(GOTO_ITEMS, s, x, y) {
      ReorderedLists(GOTO_ITEMS, items, s, x, y);
    }
  }
}

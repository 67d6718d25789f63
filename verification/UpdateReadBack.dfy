/** What SQL reads in the update of one instance, and which rows it then changes. */
module UpdateReadBack {
  import opened Wrappers
  import opened SqlExpression
  import opened SqlPredicate
  import opened SqlLexer
  import opened SqlParser
  import opened SqlMeaning
  import opened SqlQuery
  import opened PrimaryKeyQuery
  import opened RowStatements
  import opened StatementParser
  import opened StatementReadBack

  /** The columns that are no keys, with their values. */
  function NonKeys(cells: Cells): seq<(string, Value)> {
    if cells == [] then []
    else (if cells[0].0.primaryKey then [] else [(Flat(cells[0].0.name), cells[0].1)]) + NonKeys(cells[1..])
  }

  lemma OwnKeyIsFormed(cells: Cells, rowValues: bool)
    requires KeyCells(cells) != []
    ensures WellFormed(OwnKey(cells, rowValues))
  {
    hide WellFormed, KeyQuery, Readable;
    KeyQueryReads(Names(KeyCells(cells)), [CellValues(KeyCells(cells))], rowValues);
  }

  function Updates(name: Characters, schema: Option<Characters>, cells: Cells, rowValues: bool): Statement
    requires KeyCells(cells) != []
  {
    OwnKeyIsFormed(cells, rowValues);
    Update(FlatSchema(schema), Flat(name), NonKeys(cells), Read(OwnKey(cells, rowValues)))
  }

  function AssignmentTokens(cell: (SQLColumn, Value)): seq<Token> {
    [Name(Flat(cell.0.name)), Symbol(Eq)] + [Param(cell.1)]
  }

  function SetTokens(cells: Cells, started: bool): seq<Token> {
    if cells == [] then []
    else
      (if started then [Comma] else []) + (if cells[0].0.primaryKey then [] else AssignmentTokens(cells[0]))
      + SetTokens(cells[1..], started || !cells[0].0.primaryKey)
  }

  function UpdateTokens(name: Characters, schema: Option<Characters>, cells: Cells, rowValues: bool): seq<Token>
    requires KeyCells(cells) != []
  {
    [Keyword("UPDATE")] + TableTokens(name, schema) + [Keyword("SET")] + SetTokens(cells, false) + [Keyword("WHERE")]
    + Tokens(OwnKey(cells, rowValues))
  }

  // ---------- which updates are statements ----------

  predicate NoKeys(cells: Cells) {
    forall i :: 0 <= i < |cells| ==> !cells[i].0.primaryKey
  }

  /** No key column comes behind a column that is none. */
  predicate KeysComeFirst(cells: Cells) {
    forall i, j :: 0 <= i < j < |cells| && cells[j].0.primaryKey ==> cells[i].0.primaryKey
  }

  lemma KeysComeFirstStep(cells: Cells)
    requires cells != []
    ensures KeysComeFirst(cells) <==> if cells[0].0.primaryKey then KeysComeFirst(cells[1..]) else NoKeys(cells[1..])
    ensures NoKeys(cells) <==> !cells[0].0.primaryKey && NoKeys(cells[1..])
  {
    var rest := cells[1..];
    assert forall i :: 0 < i < |cells| ==> cells[i] == rest[i - 1];
    assert forall i :: 0 <= i < |rest| ==> rest[i] == cells[i + 1];
  }

  function Continued(ts: seq<Token>): Option<(seq<(string, Value)>, seq<Token>)> {
    if ts != [] && ts[0] == Comma then ParseAssignments(ts[1..]) else Some(([], ts))
  }

  lemma AssignmentFirst(cell: (SQLColumn, Value), ts: seq<Token>)
    ensures ParseAssignments(AssignmentTokens(cell) + ts) == First((Flat(cell.0.name), cell.1), Continued(ts))
  {
    var all := AssignmentTokens(cell) + ts;
    assert all[3..] == ts;
    assert ts != [] ==> all[4..] == ts[1..];
  }

  lemma NoAssignment(ts: seq<Token>)
    requires ts != [] && !ts[0].Name?
    ensures ParseAssignments(ts) == None
  {
  }

  lemma ContinuedBehind(ts: seq<Token>)
    ensures Continued([Comma] + ts) == ParseAssignments(ts)
    ensures ts != [] && ts[0] != Comma ==> Continued(ts) == Some(([], ts))
  {
    assert ([Comma] + ts)[1..] == ts;
  }

  lemma SetTokensAre(cells: Cells, started: bool)
    ensures cells == [] ==> SetTokens(cells, started) == []
    ensures cells != [] ==>
      SetTokens(cells, started)
      == (if started then [Comma] else []) + (if cells[0].0.primaryKey then [] else AssignmentTokens(cells[0]))
         + SetTokens(cells[1..], started || !cells[0].0.primaryKey)
  {
    hide AssignmentTokens;
  }

  lemma NonKeysAre(cells: Cells)
    ensures cells == [] ==> NonKeys(cells) == []
    ensures cells != [] && cells[0].0.primaryKey ==> NonKeys(cells) == NonKeys(cells[1..])
    ensures cells != [] && !cells[0].0.primaryKey ==> NonKeys(cells) == [(Flat(cells[0].0.name), cells[0].1)] + NonKeys(cells[1..])
  {
    hide Flat;
  }

  lemma SetTokensStep(cells: Cells, started: bool, tail: seq<Token>)
    requires cells != []
    ensures var rest := SetTokens(cells[1..], started || !cells[0].0.primaryKey) + tail;
            SetTokens(cells, started) + tail
            == (if started then [Comma] else []) + if cells[0].0.primaryKey then rest else AssignmentTokens(cells[0]) + rest
  {
    hide AssignmentTokens, SetTokens;
    SetTokensAre(cells, started);
    var separator := if started then [Comma] else [];
    var own := if cells[0].0.primaryKey then [] else AssignmentTokens(cells[0]);
    var rest := SetTokens(cells[1..], started || !cells[0].0.primaryKey);
    Associate(separator + own, rest, tail);
    Associate(separator, own, rest + tail);
    assert cells[0].0.primaryKey ==> own + (rest + tail) == rest + tail;
  }

  lemma FirstOfSets(cells: Cells, tail: seq<Token>)
    requires tail != [] && tail[0] == Keyword("WHERE")
    ensures var ts := SetTokens(cells, true) + tail; ts != [] && (ts[0] == Comma || ts[0] == Keyword("WHERE"))
  {
    hide AssignmentTokens;
  }

  /** Behind an assignment, every further column has to have one too. */
  lemma {:induction false} SetsContinue(cells: Cells, tail: seq<Token>)
    requires tail != [] && tail[0] == Keyword("WHERE")
    ensures Continued(SetTokens(cells, true) + tail) == if NoKeys(cells) then Some((NonKeys(cells), tail)) else None
  {
    hide AssignmentTokens, SetTokens, NonKeys, ParseAssignments, Continued, NoKeys, KeysComeFirst, Flat;
    NonKeysAre(cells);
    if cells == [] {
      SetTokensAre(cells, true);
      ContinuedBehind(tail);
      NoCellsNoKeys();
      assert [] + tail == tail;
    } else {
      var rest := SetTokens(cells[1..], true) + tail;
      KeysComeFirstStep(cells);
      SetTokensStep(cells, true, tail);
      if cells[0].0.primaryKey {
        ContinuedBehind(rest);
        FirstOfSets(cells[1..], tail);
        NoAssignment(rest);
      } else {
        ContinuedBehind(AssignmentTokens(cells[0]) + rest);
        AssignmentFirst(cells[0], rest);
        SetsContinue(cells[1..], tail);
      }
    }
  }

  lemma NoCellsNoKeys()
    ensures NoKeys([]) && KeysComeFirst([])
  {
  }

  /** The assignments read back exactly if there are some and no key comes behind one of them. */
  lemma {:induction false} SetsRead(cells: Cells, tail: seq<Token>)
    requires tail != [] && tail[0] == Keyword("WHERE")
    ensures ParseAssignments(SetTokens(cells, false) + tail)
         == if KeysComeFirst(cells) && NonKeys(cells) != [] then Some((NonKeys(cells), tail)) else None
  {
    hide AssignmentTokens, SetTokens, NonKeys, ParseAssignments, Continued, NoKeys, KeysComeFirst, Flat;
    NonKeysAre(cells);
    if cells == [] {
      SetTokensAre(cells, false);
      NoAssignment(tail);
      assert [] + tail == tail;
    } else {
      KeysComeFirstStep(cells);
      SetTokensStep(cells, false, tail);
      var rest := SetTokens(cells[1..], !cells[0].0.primaryKey) + tail;
      assert [] + rest == rest && [] + (AssignmentTokens(cells[0]) + rest) == AssignmentTokens(cells[0]) + rest;
      if cells[0].0.primaryKey {
        SetsRead(cells[1..], tail);
      } else {
        AssignmentFirst(cells[0], rest);
        SetsContinue(cells[1..], tail);
      }
    }
  }

  // ---------- from text to tokens ----------

  lemma UpdateHeadReads(name: Characters, schema: Option<Characters>)
    ensures PartsReadAny(Piece("UPDATE " + TableName(name, schema) + " SET "),
                         [Keyword("UPDATE")] + TableTokens(name, schema) + [Keyword("SET")], LegibleTable(name, schema))
  {
    hide PartsRead, PartsReadAny, TableName, TableTokens, LegibleTable, IsReserved, Piece;
    var table, tokens, ok := TableName(name, schema), TableTokens(name, schema), LegibleTable(name, schema);
    WordPieceReads("UPDATE");
    WordPieceReads("SET");
    assert "UPDATE" + " " == "UPDATE " && " " + "SET" + " " == " SET ";
    TableNameReads(name, schema);
    PieceThen("UPDATE ", [Keyword("UPDATE")], true, table, tokens, ok);
    PieceThen("UPDATE " + table, [Keyword("UPDATE")] + tokens, ok, " SET ", [Keyword("SET")], true);
  }

  lemma AssignmentRead(cell: (SQLColumn, Value))
    ensures PartsRead(AssignmentParts(cell), AssignmentTokens(cell), Legible(cell.0.name, MARK))
  {
    hide PartsRead, PartsReadAny, Reads, ReadsAny, Quoted, Legible, Flat, Piece;
    var name, ok := Quoted(cell.0.name, MARK), Legible(cell.0.name, MARK);
    ColumnRead(cell.0.name);
    EqualsPieceReads();
    PieceThen(name, [Name(Flat(cell.0.name))], ok, " = ", [Symbol(Eq)], true);
    assert [Name(Flat(cell.0.name))] + [Symbol(Eq)] == [Name(Flat(cell.0.name)), Symbol(Eq)];
    ValueRead(cell.1);
    PartsThen(Piece(name + " = "), [Name(Flat(cell.0.name)), Symbol(Eq)], ok, RepParts(Val(cell.1)), [Param(cell.1)], true);
  }

  /** The columns that an update sets have sound names. */
  predicate LegibleSets(cells: Cells) {
    forall c :: c in cells && !c.0.primaryKey ==> Legible(c.0.name, MARK)
  }

  lemma LegibleSetsStep(cells: Cells)
    requires cells != []
    ensures LegibleSets(cells) <==> (cells[0].0.primaryKey || Legible(cells[0].0.name, MARK)) && LegibleSets(cells[1..])
    ensures LegibleCells(cells) <==> Legible(cells[0].0.name, MARK) && LegibleCells(cells[1..])
  {
    hide Legible;
    assert cells == [cells[0]] + cells[1..];
  }

  lemma {:induction false} SetPartsRead(cells: Cells, started: bool)
    ensures PartsRead(SetParts(cells, started), SetTokens(cells, started), LegibleSets(cells))
    ensures started && cells != [] ==> StartsAtBoundary(SetParts(cells, started))
  {
    hide PartsRead, PartsReadAny, StartsAtBoundary, AssignmentParts, AssignmentTokens, LegibleSets, Legible;
    NothingIsRead();
    if cells == [] {
      NoCells();
    } else {
      PiecesRead();
      AssignmentRead(cells[0]);
      LegibleSetsStep(cells);
      var key := cells[0].0.primaryKey;
      var rest, restTokens := SetParts(cells[1..], started || !key), SetTokens(cells[1..], started || !key);
      SetPartsRead(cells[1..], started || !key);
      var separator, comma := if started then Piece(", ") else [], if started then [Comma] else [];
      var own, tokens := if key then [] else AssignmentParts(cells[0]), if key then [] else AssignmentTokens(cells[0]);
      var ok, oks := key || Legible(cells[0].0.name, MARK), LegibleSets(cells[1..]);
      Associate(separator, own, rest);
      Associate(comma, tokens, restTokens);
      if started {
        StartOfPiece(", ", own + rest);
      }
      if key {
        assert own + rest == rest && tokens + restTokens == restTokens;
      } else if |cells| > 1 {
        PartsThen(own, tokens, ok, rest, restTokens, oks);
      } else {
        NoCells();
        assert own + rest == own && tokens + restTokens == tokens;
      }
      PartsThen(separator, comma, true, own + rest, tokens + restTokens, ok && oks);
    }
  }

  lemma NoCells()
    ensures LegibleSets([]) && LegibleCells([])
  {
  }

  lemma {:induction false} KeyCellsIn(cells: Cells)
    ensures forall c :: c in KeyCells(cells) <==> c in cells && c.0.primaryKey
  {
    if cells != [] {
      KeyCellsIn(cells[1..]);
      assert cells == [cells[0]] + cells[1..];
    }
  }

  lemma LegibleNamesOfKeys(keys: Cells)
    ensures AllLegible(Names(keys)) <==> LegibleCells(keys)
  {
    hide Legible;
    var names := Names(keys);
    forall c | c in keys && AllLegible(names)
      ensures Legible(c.0.name, MARK)
    {
      var i :| 0 <= i < |keys| && keys[i] == c;
      assert names[i] in names;
    }
  }

  lemma EqualsIsReadable(column: Characters, v: Value)
    ensures Readable(Equals(Column(column), Val(v))) <==> Legible(column, MARK)
  {
    hide Legible;
  }

  lemma TupleIsReadable(columns: seq<Characters>, i: nat)
    requires i < |columns| && ReadableRep(Tuple(Columns(columns)))
    ensures Legible(columns[i], MARK)
  {
    hide Legible;
    assert Columns(columns)[i] == Column(columns[i]);
    assert ReadableRep(Columns(columns)[i]);
  }

  /** The query for one instance can be read only if every key column can. */
  lemma ReadableIsLegible(columns: seq<Characters>, key: seq<Value>, rowValues: bool)
    requires columns != [] && |key| == |columns|
    ensures Readable(KeyQuery(columns, [key], rowValues)) <==> AllLegible(columns)
  {
    hide Legible, Equals, ReadableRep;
    KeyQueryReads(columns, [key], rowValues);
    var p := KeyQuery(columns, [key], rowValues);
    forall i | 0 <= i < |columns| && Readable(p)
      ensures Legible(columns[i], MARK)
    {
      EqualsIsReadable(columns[i], key[i]);
      if |columns| == 1 {
        assert p == Equals(Column(columns[0]), Val(key[0]));
      } else if rowValues {
        TupleIsReadable(columns, i);
      } else {
        var ps := Equalities(columns, key);
        assert p == Compound(Or, Conjunctions(columns, [key])) && Conjunctions(columns, [key])[0] == Compound(And, ps);
        assert Readable(Compound(And, ps));
        assert ps[i] in ps;
      }
    }
  }

  lemma OwnKeyIsReadable(cells: Cells, rowValues: bool)
    requires KeyCells(cells) != []
    ensures LegibleSets(cells) && Readable(OwnKey(cells, rowValues)) <==> LegibleCells(cells)
  {
    hide Legible, Readable, KeyQuery;
    var keys := KeyCells(cells);
    ReadableIsLegible(Names(keys), CellValues(keys), rowValues);
    LegibleNamesOfKeys(keys);
    KeyCellsIn(cells);
  }

  lemma LexOfUpdate(name: Characters, schema: Option<Characters>, cells: Cells, rowValues: bool)
    requires KeyCells(cells) != []
    ensures var parts, ts := UpdateParts(TableName(name, schema), cells, rowValues), UpdateTokens(name, schema, cells, rowValues);
            if LegibleTable(name, schema) && LegibleCells(cells) then Lex(Sql(parts), Bindings(parts)) == Some(ts)
            else !Begins(ts, Lex(Sql(parts), Bindings(parts)))
  {
    hide Lex, PartsRead, PartsReadAny, Parts, Tokens, OwnKey, SetParts, SetTokens, TableName, TableTokens, StartsAtBoundary,
         LegibleTable, LegibleCells, LegibleSets, Readable, IsReserved, Begins;
    var head := Piece("UPDATE " + TableName(name, schema) + " SET ");
    var headTokens := [Keyword("UPDATE")] + TableTokens(name, schema) + [Keyword("SET")];
    var p, sets, tokens, where_ := OwnKey(cells, rowValues), SetParts(cells, false), SetTokens(cells, false), Piece(" WHERE ");
    var ok, oks := LegibleTable(name, schema), LegibleSets(cells);
    UpdateHeadReads(name, schema);
    SetPartsRead(cells, false);
    WordPieceReads("WHERE");
    assert " " + "WHERE" + " " == " WHERE ";
    StartOfPiece(" WHERE ", []);
    PredicateRead(p);
    OwnKeyIsReadable(cells, rowValues);
    PartsThen(head, headTokens, ok, sets, tokens, oks);
    PartsThen(head + sets, headTokens + tokens, ok && oks, where_, [Keyword("WHERE")], true);
    PartsThen(head + sets + where_, headTokens + tokens + [Keyword("WHERE")], ok && oks, Parts(p), Tokens(p), Readable(p));
    WholeText(UpdateParts(TableName(name, schema), cells, rowValues), UpdateTokens(name, schema, cells, rowValues),
              ok && oks && Readable(p));
  }

  lemma ParseOfUpdate(name: Characters, schema: Option<Characters>, cells: Cells, rowValues: bool)
    requires KeyCells(cells) != []
    ensures ParseTokens(UpdateTokens(name, schema, cells, rowValues))
         == if KeysComeFirst(cells) && NonKeys(cells) != [] then Some(Updates(name, schema, cells, rowValues)) else None
  {
    hide ParseTable, ParseAssignments, ParseChain, ParseNot, SetTokens, TableTokens, Tokens, OwnKey, KeysComeFirst, NonKeys, Flat,
         WellFormed;
    OwnKeyIsFormed(cells, rowValues);
    var p := OwnKey(cells, rowValues);
    var condition := Tokens(p);
    var tail := [Keyword("WHERE")] + condition;
    var sets := SetTokens(cells, false) + tail;
    var ts := TableTokens(name, schema) + ([Keyword("SET")] + sets);
    assert UpdateTokens(name, schema, cells, rowValues) == [Keyword("UPDATE")] + ts;
    assert ([Keyword("UPDATE")] + ts)[1..] == ts && ([Keyword("SET")] + sets)[1..] == sets && tail[1..] == condition;
    TableRead(name, schema, [Keyword("SET")] + sets);
    SetsRead(cells, tail);
    ParseOfTokens(p);
  }

  lemma LeavesOfAssignment(cell: (SQLColumn, Value))
    ensures Leaves(AssignmentTokens(cell)) == [Name(Flat(cell.0.name)), Param(cell.1)]
  {
    hide Flat, Leaves;
    LeavesOfComma();
    var ts := AssignmentTokens(cell);
    assert ts[0..] == ts && ts[3..] == [];
    LeafStep(ts, 0);
    LeafStep(ts, 1);
    LeafStep(ts, 2);
  }

  lemma {:induction false} LeavesOfSets(cells: Cells, started: bool)
    ensures Leaves(SetTokens(cells, started)) == AssignmentLeaves(NonKeys(cells))
  {
    hide Leaves, AssignmentTokens;
    LeavesOfComma();
    if cells != [] {
      var key := cells[0].0.primaryKey;
      var separator, own, rest := if started then [Comma] else [], if key then [] else AssignmentTokens(cells[0]), SetTokens(cells[1..], started || !key);
      LeavesOfAssignment(cells[0]);
      LeavesOfSets(cells[1..], started || !key);
      LeavesOfAppend(separator, own);
      LeavesOfAppend(separator + own, rest);
      assert key || NonKeys(cells)[1..] == NonKeys(cells[1..]);
      assert key ==> NonKeys(cells) == NonKeys(cells[1..]);
    }
  }

  lemma LeavesOfHead(name: Characters, schema: Option<Characters>)
    ensures Leaves([Keyword("UPDATE")] + TableTokens(name, schema) + [Keyword("SET")]) == TableLeaves(FlatSchema(schema), Flat(name))
  {
    hide Leaves, TableTokens, TableLeaves, Flat;
    LeavesOfTable(name, schema);
    LeavesOfKeyword("UPDATE");
    LeavesOfKeyword("SET");
    var table := TableTokens(name, schema);
    LeavesOfAppend([Keyword("UPDATE")], table);
    LeavesOfAppend([Keyword("UPDATE")] + table, [Keyword("SET")]);
    assert [] + Leaves(table) + [] == Leaves(table);
  }

  lemma LeavesOfUpdate(name: Characters, schema: Option<Characters>, cells: Cells, rowValues: bool)
    requires KeyCells(cells) != []
    ensures Leaves(UpdateTokens(name, schema, cells, rowValues)) == StatementLeaves(Updates(name, schema, cells, rowValues))
  {
    hide Leaves, Tokens, SetTokens, TableTokens, OwnKey, NonKeys, WellFormed, TableLeaves, AssignmentLeaves, ExprLeaves, Flat;
    OwnKeyIsFormed(cells, rowValues);
    ParseOfTokens(OwnKey(cells, rowValues));
    LeavesOfHead(name, schema);
    LeavesOfSets(cells, false);
    LeavesOfKeyword("WHERE");
    var head, sets := [Keyword("UPDATE")] + TableTokens(name, schema) + [Keyword("SET")], SetTokens(cells, false);
    LeavesOfAppend(head, sets);
    LeavesOfAppend(head + sets, [Keyword("WHERE")]);
    LeavesOfAppend(head + sets + [Keyword("WHERE")], Tokens(OwnKey(cells, rowValues)));
    assert Leaves(head) + Leaves(sets) + [] == Leaves(head) + Leaves(sets);
  }

  /** The text of an update, read with its bindings, sets the columns that are no keys to their
      values in the rows with the key of the instance. It does so if and only if there is such a
      column, no key column comes behind one, and every name is legible; with legible names it is no
      statement at all otherwise. */
  lemma UpdateIsRead(name: Characters, schema: Option<Characters>, cells: Cells, rowValues: bool)
    requires KeyCells(cells) != []
    ensures var parts := Piece("") + StatementParts(TableName(name, schema), cells, ToUpdate, rowValues);
            ParseStatement(Sql(parts), Bindings(parts)) == Some(Updates(name, schema, cells, rowValues))
            <==> LegibleTable(name, schema) && LegibleCells(cells) && KeysComeFirst(cells) && NonKeys(cells) != []
    ensures var parts := Piece("") + StatementParts(TableName(name, schema), cells, ToUpdate, rowValues);
            LegibleTable(name, schema) && LegibleCells(cells) && !(KeysComeFirst(cells) && NonKeys(cells) != [])
            ==> ParseStatement(Sql(parts), Bindings(parts)) == None
  {
    hide Lex, ParseStatement, Sql, Bindings, UpdateParts, UpdateTokens, KeysComeFirst, NonKeys, LegibleTable, LegibleCells, TableName,
         Updates, Leaves, Begins, ParseTokens, StatementLeaves, Piece;
    var parts := UpdateParts(TableName(name, schema), cells, rowValues);
    EmptyStart(parts);
    LexOfUpdate(name, schema, cells, rowValues);
    ParseOfUpdate(name, schema, cells, rowValues);
    LeavesOfUpdate(name, schema, cells, rowValues);
    ReadFromTokens(parts, UpdateTokens(name, schema, cells, rowValues), LegibleTable(name, schema) && LegibleCells(cells),
                   KeysComeFirst(cells) && NonKeys(cells) != [], Updates(name, schema, cells, rowValues));
  }
  /** A key column behind the others leaves a comma in front of WHERE. */
  lemma KeyColumnLast()
    ensures var cells := [(SQLColumn(["n"], false, false, None), Text("x")), (SQLColumn(["i"], true, false, None), Long(1))];
            && KeyCells(cells) != []
            && var parts := Piece("") + StatementParts(TableName(["t"], None), cells, ToUpdate, true);
            && ParseStatement(Sql(parts), Bindings(parts)) == None
  {
    hide ParseStatement, Sql, Bindings, UpdateParts, TableName;
    var cells := [(SQLColumn(["n"], false, false, None), Text("x")), (SQLColumn(["i"], true, false, None), Long(1))];
    assert cells[1..][0].0.primaryKey;
    assert KeyCells(cells) != [];
    UpdateIsRead(["t"], None, cells, true);
    assert !cells[0].0.primaryKey && cells[1].0.primaryKey;
  }

  // ---------- what an update does ----------

  /** The value of a column after assignments, the last of which counts. */
  function Assigned(sets: seq<(string, Value)>, c: string, before: Value): Value {
    if sets == [] then before else Assigned(sets[1..], c, if sets[0].0 == c then Stored(sets[0].1) else before)
  }

  /** A row after the statement: changed if the condition holds of it. */
  function Executed(engine: Engine, s: Statement, row: TableRow): TableRow
    requires s.Update?
  {
    if Eval(engine, row, s.condition) == Yes then c => Assigned(s.assignments, c, row(c)) else row
  }

  /** The row has the values of the instance in all primary key columns; a null asks for a null, except
      among several columns that are compared as tuples, where nothing is equal to it. */
  ghost predicate HasKey(engine: Engine, cells: Cells, rowValues: bool, row: TableRow) {
    forall i :: 0 <= i < |cells| && cells[i].0.primaryKey ==>
      var (column, value) := cells[i];
      if value == Null && !(rowValues && exists j :: 0 <= j < |cells| && j != i && cells[j].0.primaryKey)
      then row(Flat(column.name)) == Null
      else CompareValues(engine, Eq, row(Flat(column.name)), Stored(value)) == Yes
  }

  lemma {:induction false} SeveralKeys(cells: Cells)
    ensures |KeyCells(cells)| > 0 <==> exists i :: 0 <= i < |cells| && cells[i].0.primaryKey
    ensures |KeyCells(cells)| > 1 <==> exists i, j :: 0 <= i < j < |cells| && cells[i].0.primaryKey && cells[j].0.primaryKey
  {
    if cells != [] {
      var rest := cells[1..];
      SeveralKeys(rest);
      assert forall i :: 0 < i < |cells| ==> cells[i] == rest[i - 1];
      assert forall i :: 0 <= i < |rest| ==> rest[i] == cells[i + 1];
    }
  }

  predicate CellFits(engine: Engine, cell: (SQLColumn, Value), tuples: bool, row: TableRow) {
    if cell.1 == Null && !tuples then row(Flat(cell.0.name)) == Null
    else CompareValues(engine, Eq, row(Flat(cell.0.name)), Stored(cell.1)) == Yes
  }

  lemma KeyCellsFit(engine: Engine, keys: Cells, tuples: bool, row: TableRow)
    ensures (forall c :: c in keys ==> CellFits(engine, c, tuples, row))
       <==> if tuples then Matches(engine, Names(keys), CellValues(keys), row)
            else MatchesNulls(engine, Names(keys), CellValues(keys), row)
  {
    hide CompareValues, Flat, Stored;
    NullMatchesNothing(engine, row);
    var names, values := Names(keys), CellValues(keys);
    assert forall k :: 0 <= k < |keys| ==> names[k] == keys[k].0.name && values[k] == keys[k].1;
    if forall c :: c in keys ==> CellFits(engine, c, tuples, row) {
      forall k | 0 <= k < |keys|
        ensures CellFits(engine, keys[k], tuples, row)
      {
        assert keys[k] in keys;
      }
    }
  }

  lemma OtherKeys(cells: Cells, i: nat)
    requires i < |cells| && cells[i].0.primaryKey
    ensures |KeyCells(cells)| > 1 <==> exists j :: 0 <= j < |cells| && j != i && cells[j].0.primaryKey
  {
    hide KeyCells;
    SeveralKeys(cells);
  }

  lemma HasKeyIs(engine: Engine, cells: Cells, rowValues: bool, row: TableRow)
    ensures var keys := KeyCells(cells);
            HasKey(engine, cells, rowValues, row)
            <==> if |keys| > 1 && rowValues then Matches(engine, Names(keys), CellValues(keys), row)
                 else MatchesNulls(engine, Names(keys), CellValues(keys), row)
  {
    hide HasKey, CellFits, KeyCells, Matches, MatchesNulls, Names, CellValues;
    var keys := KeyCells(cells);
    var tuples := |keys| > 1 && rowValues;
    KeyCellsFit(engine, keys, tuples, row);
    KeysByIndex(engine, cells, tuples, row);
    forall i | 0 <= i < |cells| && cells[i].0.primaryKey
      ensures |keys| > 1 <==> exists j :: 0 <= j < |cells| && j != i && cells[j].0.primaryKey
    {
      OtherKeys(cells, i);
    }
    HasKeyByCells(engine, cells, rowValues, tuples, row);
  }

  lemma KeysByIndex(engine: Engine, cells: Cells, tuples: bool, row: TableRow)
    ensures (forall c :: c in KeyCells(cells) ==> CellFits(engine, c, tuples, row))
       <==> forall i :: 0 <= i < |cells| && cells[i].0.primaryKey ==> CellFits(engine, cells[i], tuples, row)
  {
    hide CellFits, KeyCells;
    KeyCellsIn(cells);
  }

  lemma HasKeyByCells(engine: Engine, cells: Cells, rowValues: bool, tuples: bool, row: TableRow)
    requires forall i :: 0 <= i < |cells| && cells[i].0.primaryKey ==>
               (tuples <==> rowValues && exists j :: 0 <= j < |cells| && j != i && cells[j].0.primaryKey)
    ensures HasKey(engine, cells, rowValues, row)
       <==> forall i :: 0 <= i < |cells| && cells[i].0.primaryKey ==> CellFits(engine, cells[i], tuples, row)
  {
    hide CompareValues, Flat, Stored;
  }

  lemma NullMatchesNothing(engine: Engine, row: TableRow)
    ensures Stored(Null) == Null && forall x :: CompareValues(engine, Eq, x, Null) == Unknown
  {
  }

  lemma {:induction false} AssignedOther(cells: Cells, c: string, before: Value)
    requires forall i :: 0 <= i < |cells| && !cells[i].0.primaryKey ==> Flat(cells[i].0.name) != c
    ensures Assigned(NonKeys(cells), c, before) == before
  {
    hide Flat;
    if cells != [] {
      AssignedOther(cells[1..], c, before);
      assert !cells[0].0.primaryKey ==> NonKeys(cells)[1..] == NonKeys(cells[1..]);
      assert cells[0].0.primaryKey ==> NonKeys(cells) == NonKeys(cells[1..]);
    }
  }

  lemma {:induction false} AssignedOwn(cells: Cells, i: nat, before: Value)
    requires i < |cells| && Distinct(Names(cells)) && !cells[i].0.primaryKey
    ensures Assigned(NonKeys(cells), Flat(cells[i].0.name), before) == Stored(cells[i].1)
  {
    hide Flat;
    var c := Flat(cells[i].0.name);
    DistinctRest(cells);
    if i > 0 {
      assert Names(cells)[0] == cells[0].0.name && Names(cells)[i] == cells[i].0.name;
      AssignedOwn(cells[1..], i - 1, before);
    } else {
      AssignedOther(cells[1..], c, Stored(cells[0].1));
    }
    assert !cells[0].0.primaryKey ==> NonKeys(cells)[1..] == NonKeys(cells[1..]);
    assert cells[0].0.primaryKey ==> NonKeys(cells) == NonKeys(cells[1..]);
  }

  lemma DistinctRest(cells: Cells)
    requires cells != [] && Distinct(Names(cells))
    ensures Distinct(Names(cells[1..]))
    ensures forall j :: 0 <= j < |cells| - 1 ==> Flat(cells[1..][j].0.name) != Flat(cells[0].0.name)
  {
    hide Flat;
    var names, rest := Names(cells), Names(cells[1..]);
    assert forall j :: 0 <= j < |rest| ==> rest[j] == names[j + 1];
    assert names[0] == cells[0].0.name;
    assert forall j :: 0 <= j < |rest| ==> rest[j] == cells[1..][j].0.name;
    forall j | 0 <= j < |rest|
      ensures Flat(rest[j]) != Flat(names[0])
    {
      assert Flat(names[0]) != Flat(names[j + 1]);
    }
  }

  /** The condition of an update holds of the rows that have the key of the instance. */
  lemma ConditionHolds(engine: Engine, row: TableRow, cells: Cells, rowValues: bool)
    requires KeyCells(cells) != [] && LegibleCells(cells)
    ensures WellFormed(OwnKey(cells, rowValues))
    ensures Eval(engine, row, Read(OwnKey(cells, rowValues))) == Yes <==> HasKey(engine, cells, rowValues, row)
  {
    hide Eval, Parse, Parts, Read, WellFormed, Readable, KeyQuery, LegibleCells, AllLegible, Matches, MatchesNulls, Legible, HasKey;
    var columns, key := Names(KeyCells(cells)), CellValues(KeyCells(cells));
    OwnKeyIsFormed(cells, rowValues);
    OwnKeyIsReadable(cells, rowValues);
    KeyCellsIn(cells);
    LegibleKeyCells(cells);
    LegibleNamesOfKeys(KeyCells(cells));
    KeyQuerySelects(engine, row, columns, [key], rowValues);
    ParseOfPredicate(OwnKey(cells, rowValues));
    assert [key][0] == key && key in [key];
    HasKeyIs(engine, cells, rowValues, row);
  }

  lemma LegibleKeyCells(cells: Cells)
    requires LegibleCells(cells)
    ensures LegibleCells(KeyCells(cells))
  {
    hide Legible;
    KeyCellsIn(cells);
  }

  /** What an update does to any row of the table: nothing unless the row has the key of the instance;
      otherwise it sets each column that is no key to the value of the instance, a text up to its
      first NUL, and leaves the keys and all other columns as they are. */
  lemma UpdateTouches(engine: Engine, row: TableRow, name: Characters, schema: Option<Characters>, cells: Cells, rowValues: bool)
    requires KeyCells(cells) != [] && LegibleTable(name, schema) && LegibleCells(cells) && Distinct(Names(cells))
    requires KeysComeFirst(cells) && NonKeys(cells) != []
    ensures var parts := Piece("") + StatementParts(TableName(name, schema), cells, ToUpdate, rowValues);
            var s := ParseStatement(Sql(parts), Bindings(parts));
            && s.Some? && s.value.Update?
            && s.value.schema == FlatSchema(schema) && s.value.table == Flat(name)
            && var after := Executed(engine, s.value, row);
            && (!HasKey(engine, cells, rowValues, row) ==> after == row)
            && (HasKey(engine, cells, rowValues, row) ==>
                  && (forall i :: 0 <= i < |cells| ==>
                        after(Flat(cells[i].0.name)) == if cells[i].0.primaryKey then row(Flat(cells[i].0.name)) else Stored(cells[i].1))
                  && (forall c :: c !in FlatNames(cells) ==> after(c) == row(c)))
  {
    hide ParseStatement, Sql, Bindings, StatementParts, TableName, LegibleTable, LegibleCells, KeysComeFirst, NonKeys, Piece, Eval,
         Read, OwnKey, WellFormed, HasKey, Flat, Distinct, FlatNames, Assigned;
    UpdateIsRead(name, schema, cells, rowValues);
    ConditionHolds(engine, row, cells, rowValues);
    forall i | 0 <= i < |cells|
      ensures Assigned(NonKeys(cells), Flat(cells[i].0.name), row(Flat(cells[i].0.name)))
           == if cells[i].0.primaryKey then row(Flat(cells[i].0.name)) else Stored(cells[i].1)
    {
      AssignedCell(cells, i, row(Flat(cells[i].0.name)));
    }
    forall c | c !in FlatNames(cells)
      ensures Assigned(NonKeys(cells), c, row(c)) == row(c)
    {
      AssignedElsewhere(cells, c, row(c));
    }
  }

  lemma AssignedCell(cells: Cells, i: nat, before: Value)
    requires i < |cells| && Distinct(Names(cells))
    ensures Assigned(NonKeys(cells), Flat(cells[i].0.name), before) == if cells[i].0.primaryKey then before else Stored(cells[i].1)
  {
    hide Flat, Assigned, NonKeys;
    var names := Names(cells);
    if cells[i].0.primaryKey {
      assert forall j :: 0 <= j < |cells| ==> names[j] == cells[j].0.name;
      AssignedOther(cells, Flat(cells[i].0.name), before);
    } else {
      AssignedOwn(cells, i, before);
    }
  }

  lemma {:induction false} NamesIn(cells: Cells)
    ensures forall i :: 0 <= i < |cells| ==> Flat(cells[i].0.name) in FlatNames(cells)
  {
    hide Flat;
    if cells != [] {
      NamesIn(cells[1..]);
      assert forall i :: 0 < i < |cells| ==> cells[i] == cells[1..][i - 1];
    }
  }

  lemma AssignedElsewhere(cells: Cells, c: string, before: Value)
    requires c !in FlatNames(cells)
    ensures Assigned(NonKeys(cells), c, before) == before
  {
    hide Flat, Assigned, NonKeys, FlatNames;
    NamesIn(cells);
    AssignedOther(cells, c, before);
  }
}

/** INSERT, UPDATE and upsert statements for one instance (insertUpdateSQL in SQLCodable.swift). */
module RowStatements {
  import opened Wrappers
  import opened SqlExpression
  import opened SqlPredicate
  import opened SqlQuery
  import opened PrimaryKeyQuery

  /** The columns of a table with the values that an instance has in them. */
  type Cells = seq<(SQLColumn, Value)>

  /** What the statement is for: the upsert argument is nil, false or true. */
  datatype Purpose = ToUpdate | ToInsert | ToUpsert

  datatype Refusal = NoKeyColumns | NoUpsertSyntax

  // ---------- the parts of a statement ----------

  /** An insert leaves out nulls, so that column defaults apply, and keys that are to be assigned. */
  predicate LeftOut(cell: (SQLColumn, Value)) {
    (cell.0.primaryKey && cell.0.autoincrement && cell.1 == Long(0)) || cell.1 == Null
  }

  function Kept(cells: Cells): Cells {
    if cells == [] then []
    else (if LeftOut(cells[0]) then [] else [cells[0]]) + Kept(cells[1..])
  }

  function KeyCells(cells: Cells): Cells {
    if cells == [] then []
    else (if cells[0].0.primaryKey then [cells[0]] else []) + KeyCells(cells[1..])
  }

  function Names(cells: Cells): (names: seq<Characters>)
    ensures |names| == |cells|
  {
    seq(|cells|, i requires 0 <= i < |cells| => cells[i].0.name)
  }

  function CellValues(cells: Cells): (vs: seq<Value>)
    ensures |vs| == |cells|
  {
    seq(|cells|, i requires 0 <= i < |cells| => cells[i].1)
  }

  /** The query for the instance itself. */
  function OwnKey(cells: Cells, rowValues: bool): Predicate
    requires KeyCells(cells) != []
  {
    KeyQuery(Names(KeyCells(cells)), [CellValues(KeyCells(cells))], rowValues)
  }

  function AssignmentParts(cell: (SQLColumn, Value)): seq<Part> {
    Piece(Quoted(cell.0.name, MARK) + " = ") + RepParts(Val(cell.1))
  }

  /** The assignments of an update; the separator is written once there has been an assignment,
      before it is known whether the next column has one. */
  function SetParts(cells: Cells, started: bool): seq<Part> {
    if cells == [] then []
    else
      (if started then Piece(", ") else []) + (if cells[0].0.primaryKey then [] else AssignmentParts(cells[0]))
      + SetParts(cells[1..], started || !cells[0].0.primaryKey)
  }

  function ValueParts(cells: Cells, first: bool): seq<Part> {
    if cells == [] then []
    else (if first then [] else Piece(", ")) + RepParts(Val(cells[0].1)) + ValueParts(cells[1..], false)
  }

  function UpdateParts(table: string, cells: Cells, rowValues: bool): seq<Part>
    requires KeyCells(cells) != []
  {
    Piece("UPDATE " + table + " SET ") + SetParts(cells, false) + Piece(" WHERE ") + Parts(OwnKey(cells, rowValues))
  }

  function InsertParts(table: string, cells: Cells): seq<Part> {
    Piece("INSERT INTO " + table + " ") + Piece("(") + Piece(ColumnList(QuotedNames(cells), true)) + Piece(")")
    + Piece(" VALUES ") + Piece("(") + ValueParts(cells, true) + Piece(")")
  }

  function QuotedNames(cells: Cells): (names: seq<string>)
    ensures |names| == |cells|
  {
    seq(|cells|, i requires 0 <= i < |cells| => Quoted(cells[i].0.name, MARK))
  }

  /** A column set to the value that could not be inserted. */
  function ExcludedText(cell: (SQLColumn, Value)): string {
    Quoted(cell.0.name, MARK) + " = " + ColumnName(cell.0, Some("EXCLUDED"))
  }

  function ExcludedParts(cells: Cells, first: bool): seq<Part> {
    if cells == [] then []
    else (if first then [] else Piece(", ")) + Piece(ExcludedText(cells[0])) + ExcludedParts(cells[1..], false)
  }

  /** What an upsert does if there is a row with the same keys. */
  function ConflictParts(keys: Cells, kept: Cells): seq<Part> {
    Piece(" ON CONFLICT(") + Piece(ColumnList(QuotedNames(keys), true)) + Piece(") DO UPDATE SET ") + ExcludedParts(kept, true)
  }

  /** Whether an insert ends in an ON CONFLICT clause. */
  predicate HasConflict(cells: Cells, purpose: Purpose) {
    purpose == ToUpsert && KeyCells(cells) != []
  }

  function StatementParts(table: string, cells: Cells, purpose: Purpose, rowValues: bool): seq<Part>
    requires purpose == ToUpdate ==> KeyCells(cells) != []
  {
    if purpose == ToUpdate then UpdateParts(table, cells, rowValues)
    else InsertParts(table, Kept(cells)) + if HasConflict(cells, purpose) then ConflictParts(KeyCells(cells), Kept(cells)) else []
  }

  // ---------- the code ----------

  lemma KeyCellsStep(cells: Cells, i: nat)
    requires i < |cells|
    ensures KeyCells(cells[i..]) == (if cells[i].0.primaryKey then [cells[i]] else []) + KeyCells(cells[i + 1..])
  {
    assert cells[i..][0] == cells[i] && cells[i..][1..] == cells[i + 1..];
  }

  function Remaining(cells: Cells, update: bool): Cells {
    if update then cells else Kept(cells)
  }

  lemma CellsEnd(cells: Cells, update: bool)
    ensures Remaining(cells[|cells|..], update) == []
    ensures SetParts(cells[|cells|..], true) == [] && SetParts(cells[|cells|..], false) == []
    ensures ValueParts(cells[|cells|..], true) == [] && ValueParts(cells[|cells|..], false) == []
    ensures ExcludedParts(cells[|cells|..], true) == [] && ExcludedParts(cells[|cells|..], false) == []
  {
  }

  lemma RemainingStep(cells: Cells, i: nat, update: bool)
    requires i < |cells|
    ensures !update && LeftOut(cells[i]) ==> Remaining(cells[i..], update) == Remaining(cells[i + 1..], update)
    ensures update || !LeftOut(cells[i]) ==>
      forall done: Cells :: done + Remaining(cells[i..], update) == (done + [cells[i]]) + Remaining(cells[i + 1..], update)
  {
    hide LeftOut;
    assert cells[i..][0] == cells[i] && cells[i..][1..] == cells[i + 1..];
    assert cells[i..] == [cells[i]] + cells[i + 1..];
  }

  method FilterCells(cells: Cells, update: bool) returns (kept: Cells)
    ensures kept == Remaining(cells, update)
  {
    hide Remaining;
    CellsEnd(cells, update);
    kept := [];
    assert cells[0..] == cells;
    for i := 0 to |cells|
      invariant kept + Remaining(cells[i..], update) == Remaining(cells, update)
    {
      RemainingStep(cells, i, update);
      if !update {
        if cells[i].0.primaryKey && cells[i].0.autoincrement && cells[i].1 == Long(0) {
          continue;
        }
        if cells[i].1 == Null {
          continue;
        }
      }
      kept := kept + [cells[i]];
    }
  }

  method AppendAssignment(cell: (SQLColumn, Value), expression: SQLExpression)
    modifies expression
    ensures expression.parts == old(expression.parts) + AssignmentParts(cell)
  {
    var quoted := Quote(cell.0.name, MARK);
    expression.AppendSql(quoted + " = ");
    ApplyRep(Val(cell.1), expression);
  }

  lemma SetStep(cells: Cells, i: nat, started: bool)
    requires i < |cells|
    ensures SetParts(cells[i..], started)
         == (if started then Piece(", ") else []) + (if cells[i].0.primaryKey then [] else AssignmentParts(cells[i]))
            + SetParts(cells[i + 1..], started || !cells[i].0.primaryKey)
  {
    hide AssignmentParts, Piece;
    assert cells[i..][0] == cells[i] && cells[i..][1..] == cells[i + 1..];
  }

  lemma ValueStep(cells: Cells, i: nat)
    requires i < |cells|
    ensures ValueParts(cells[i..], i == 0)
         == (if i == 0 then [] else Piece(", ")) + RepParts(Val(cells[i].1)) + ValueParts(cells[i + 1..], false)
  {
    hide RepParts, Piece;
    assert cells[i..][0] == cells[i] && cells[i..][1..] == cells[i + 1..];
  }

  lemma ExcludedStep(cells: Cells, i: nat)
    requires i < |cells|
    ensures ExcludedParts(cells[i..], i == 0)
         == (if i == 0 then [] else Piece(", ")) + Piece(ExcludedText(cells[i])) + ExcludedParts(cells[i + 1..], false)
  {
    hide ExcludedText, Piece;
    assert cells[i..][0] == cells[i] && cells[i..][1..] == cells[i + 1..];
  }

  /** The loop of an update: the separator depends on the number of assignments so far. */
  method AppendAssignments(cells: Cells, expression: SQLExpression)
    modifies expression
    ensures expression.parts == old(expression.parts) + SetParts(cells, false)
  {
    hide AssignmentParts, SetParts, Piece;
    CellsEnd(cells, true);
    var updateValueCount := 0;
    assert cells[0..] == cells;
    for i := 0 to |cells|
      invariant updateValueCount >= 0
      invariant expression.parts + SetParts(cells[i..], updateValueCount > 0) == old(expression.parts) + SetParts(cells, false)
    {
      SetStep(cells, i, updateValueCount > 0);
      PieceIs(", ");
      ghost var before := expression.parts;
      ghost var separator := if updateValueCount > 0 then Piece(", ") else [];
      ghost var assignment := if cells[i].0.primaryKey then [] else AssignmentParts(cells[i]);
      ghost var started := updateValueCount > 0 || !cells[i].0.primaryKey;
      Regroup(before, separator, assignment, SetParts(cells[i + 1..], started));
      if updateValueCount > 0 {
        expression.AppendSql(", ");
      }
      if !cells[i].0.primaryKey {
        AppendAssignment(cells[i], expression);
        updateValueCount := updateValueCount + 1;
      }
      assert expression.parts == before + separator + assignment;
    }
  }

  /** The loop of an insert. */
  method AppendValues(cells: Cells, expression: SQLExpression)
    modifies expression
    ensures expression.parts == old(expression.parts) + ValueParts(cells, true)
  {
    hide RepParts, ValueParts, Piece;
    CellsEnd(cells, false);
    var updateValueCount := 0;
    assert cells[0..] == cells;
    for i := 0 to |cells|
      invariant updateValueCount == i
      invariant expression.parts + ValueParts(cells[i..], i == 0) == old(expression.parts) + ValueParts(cells, true)
    {
      ValueStep(cells, i);
      PieceIs(", ");
      ghost var separator := if i == 0 then [] else Piece(", ");
      Regroup(expression.parts, separator, RepParts(Val(cells[i].1)), ValueParts(cells[i + 1..], false));
      if updateValueCount > 0 {
        expression.AppendSql(", ");
      }
      ApplyRep(Val(cells[i].1), expression);
      updateValueCount := updateValueCount + 1;
    }
  }

  /** The loop of an ON CONFLICT clause. */
  method AppendExcluded(cells: Cells, expression: SQLExpression)
    modifies expression
    ensures expression.parts == old(expression.parts) + ExcludedParts(cells, true)
  {
    hide ExcludedParts, ExcludedText, Piece;
    CellsEnd(cells, false);
    assert cells[0..] == cells;
    for index := 0 to |cells|
      invariant expression.parts + ExcludedParts(cells[index..], index == 0) == old(expression.parts) + ExcludedParts(cells, true)
    {
      ExcludedStep(cells, index);
      PieceIs(", ");
      PieceIs(ExcludedText(cells[index]));
      ghost var separator := if index == 0 then [] else Piece(", ");
      Regroup(expression.parts, separator, Piece(ExcludedText(cells[index])), ExcludedParts(cells[index + 1..], false));
      if index != 0 {
        expression.AppendSql(", ");
      }
      AppendExcludedColumn(cells[index], expression);
    }
  }

  method AppendExcludedColumn(cell: (SQLColumn, Value), expression: SQLExpression)
    modifies expression
    ensures expression.parts == old(expression.parts) + Piece(ExcludedText(cell))
  {
    hide Piece;
    var quoted := Quote(cell.0.name, MARK);
    PieceIs(ExcludedText(cell));
    expression.AppendSql(quoted + " = " + ColumnName(cell.0, Some("EXCLUDED")));
  }

  method PrimaryKey(cells: Cells) returns (keys: Cells)
    ensures keys == KeyCells(cells)
  {
    keys := [];
    for i := 0 to |cells|
      invariant keys + KeyCells(cells[i..]) == KeyCells(cells)
    {
      KeyCellsStep(cells, i);
      if cells[i].0.primaryKey {
        keys := keys + [cells[i]];
      }
    }
  }

  /** The code. An update of a table without a primary key is refused, and an upsert into one with a
      primary key where the library is too old for ON CONFLICT. */
  method InsertUpdateSQL(name: Characters, schema: Option<Characters>, cells: Cells, purpose: Purpose, rowValues: bool, upsertSyntax: bool)
    returns (refusal: Option<Refusal>, expression: SQLExpression)
    ensures fresh(expression)
    ensures refusal == if purpose == ToUpdate && KeyCells(cells) == [] then Some(NoKeyColumns)
                       else if HasConflict(cells, purpose) && !upsertSyntax then Some(NoUpsertSyntax)
                       else None
    ensures refusal == None ==>
      expression.parts == Piece("") + StatementParts(TableName(name, schema), cells, purpose, rowValues)
  {
    hide UpdateParts, InsertParts, ConflictParts, TableName;
    var table := TableName(name, schema);
    var kept := FilterCells(cells, purpose == ToUpdate);
    var keys := PrimaryKey(cells);
    expression := new SQLExpression("", []);
    refusal := None;
    if purpose == ToUpdate {
      refusal := AppendUpdate(table, cells, rowValues, expression);
    } else {
      AppendInsert(table, kept, expression);
      if purpose == ToUpsert && keys != [] {
        if !upsertSyntax {
          return Some(NoUpsertSyntax), expression;
        }
        AppendConflict(keys, kept, expression);
      }
    }
  }

  method AppendUpdate(table: string, cells: Cells, rowValues: bool, expression: SQLExpression) returns (refusal: Option<Refusal>)
    modifies expression
    ensures refusal == if KeyCells(cells) == [] then Some(NoKeyColumns) else None
    ensures refusal == None ==> expression.parts == old(expression.parts) + UpdateParts(table, cells, rowValues)
  {
    hide SetParts, Parts, KeyCells, KeyQuery;
    expression.AppendSql("UPDATE " + table + " SET ");
    AppendAssignments(cells, expression);
    expression.AppendSql(" WHERE ");
    var keys := PrimaryKey(cells);
    var outcome := FindByPrimaryKeys(table, Names(keys), [CellValues(keys)], rowValues);
    if outcome.NoPrimaryKeys? {
      return Some(NoKeyColumns);
    }
    Apply(outcome.query, expression);
    return None;
  }

  method AppendInsert(table: string, cells: Cells, expression: SQLExpression)
    modifies expression
    ensures expression.parts == old(expression.parts) + InsertParts(table, cells)
  {
    hide ValueParts, ColumnList, QuotedNames, Piece;
    PieceIs("INSERT INTO " + table + " ");
    PieceIs("(");
    PieceIs(")");
    PieceIs(" VALUES ");
    PieceIs(ColumnList(QuotedNames(cells), true));
    expression.AppendSql("INSERT INTO " + table + " ");
    expression.AppendSql("(");
    expression.AppendSql(ColumnList(QuotedNames(cells), true));
    expression.AppendSql(")");
    expression.AppendSql(" VALUES ");
    expression.AppendSql("(");
    AppendValues(cells, expression);
    expression.AppendSql(")");
  }

  method AppendConflict(keys: Cells, kept: Cells, expression: SQLExpression)
    modifies expression
    ensures expression.parts == old(expression.parts) + ConflictParts(keys, kept)
  {
    hide ExcludedParts, ColumnList, QuotedNames, Piece;
    PieceIs(" ON CONFLICT(");
    PieceIs(ColumnList(QuotedNames(keys), true));
    PieceIs(") DO UPDATE SET ");
    expression.AppendSql(" ON CONFLICT(");
    expression.AppendSql(ColumnList(QuotedNames(keys), true));
    expression.AppendSql(") DO UPDATE SET ");
    AppendExcluded(kept, expression);
  }
}

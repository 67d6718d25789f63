/** What the insert or the upsert of one instance does to the rows of its table. */
module InsertTouches {
  import opened Wrappers
  import opened SqlExpression
  import opened SqlPredicate
  import opened SqlMeaning
  import opened SqlQuery
  import opened PrimaryKeyQuery
  import opened RowStatements
  import opened StatementParser
  import opened StatementReadBack
  import opened UpdateReadBack
  import opened InsertReadBack

  // ---------- the statements ----------

  /** The value that an insert gives to a column. */
  function Given(columns: seq<string>, values: seq<Value>, c: string, otherwise: Value): Value
    requires |columns| == |values|
  {
    if columns == [] then otherwise
    else if columns[0] == c then Stored(values[0])
    else Given(columns[1..], values[1..], c, otherwise)
  }

  /** The row that is inserted; other columns get what the table provides for them. */
  function NewRow(s: Statement, defaults: TableRow): TableRow
    requires s.Insert? && |s.columns| == |s.values|
  {
    c => Given(s.columns, s.values, c, defaults(c))
  }

  /** The rows are equal in the columns, of which there are some; nothing is equal to null. */
  predicate Conflicts(engine: Engine, columns: seq<string>, a: TableRow, b: TableRow) {
    columns != [] && forall c :: c in columns ==> CompareValues(engine, Eq, a(c), b(c)) == Yes
  }

  function Replaced(replaced: seq<(string, string)>, excluded: TableRow, c: string, before: Value): Value {
    if replaced == [] then before
    else Replaced(replaced[1..], excluded, c, if replaced[0].0 == c then excluded(replaced[0].1) else before)
  }

  /** A row after the ON CONFLICT clause, in a conflict with the row that was to be inserted. */
  function Merged(conflict: Conflict, excluded: TableRow, row: TableRow): TableRow {
    c => Replaced(conflict.replaced, excluded, c, row(c))
  }

  /** The table after the statement, if it succeeds; keys are the primary key columns of the table. */
  function Inserted(engine: Engine, keys: seq<string>, defaults: TableRow, s: Statement, table: seq<TableRow>): Option<seq<TableRow>>
    requires s.Insert? && |s.columns| == |s.values|
  {
    var row := NewRow(s, defaults);
    if forall i :: 0 <= i < |table| ==> !Conflicts(engine, keys, table[i], row) then Some(table + [row])
    else if s.conflict.None? then None
    else
      var conflict := s.conflict.value;
      Some(seq(|table|, i requires 0 <= i < |table| =>
        if Conflicts(engine, conflict.target, table[i], row) then Merged(conflict, row, table[i]) else table[i]))
  }

  // ---------- the columns of an instance ----------

  lemma KeptStep(cells: Cells)
    requires cells != []
    ensures Kept(cells) == if LeftOut(cells[0]) then Kept(cells[1..]) else [cells[0]] + Kept(cells[1..])
  {
    hide LeftOut;
  }

  lemma NamesOf(cell: (SQLColumn, Value), cells: Cells)
    ensures FlatNames([cell] + cells) == [Flat(cell.0.name)] + FlatNames(cells)
    ensures CellValues([cell] + cells) == [cell.1] + CellValues(cells)
  {
    hide Flat;
    assert ([cell] + cells)[1..] == cells;
  }

  /** The names of what is kept are those of the columns that are not left out. */
  lemma {:induction false} KeptNames(cells: Cells, c: string)
    ensures c in FlatNames(Kept(cells)) <==> exists i :: 0 <= i < |cells| && !LeftOut(cells[i]) && Flat(cells[i].0.name) == c
  {
    hide LeftOut, Flat, Kept, FlatNames;
    NoneKept();
    if cells != [] {
      KeptStep(cells);
      KeptNames(cells[1..], c);
      NamesOf(cells[0], Kept(cells[1..]));
      assert forall i :: 0 < i < |cells| ==> cells[i] == cells[1..][i - 1];
      assert forall i :: 0 <= i < |cells| - 1 ==> cells[1..][i] == cells[i + 1];
    }
  }

  lemma NoneKept()
    ensures Kept([]) == [] && FlatNames([]) == []
  {
  }

  lemma {:induction false} NamesAre(cells: Cells, c: string)
    ensures c in FlatNames(cells) <==> exists i :: 0 <= i < |cells| && Flat(cells[i].0.name) == c
  {
    hide Flat;
    if cells != [] {
      NamesAre(cells[1..], c);
      assert forall i :: 0 < i < |cells| ==> cells[i] == cells[1..][i - 1];
      assert forall i :: 0 <= i < |cells| - 1 ==> cells[1..][i] == cells[i + 1];
    }
  }

  lemma GivenFirst(name: string, v: Value, names: seq<string>, values: seq<Value>, c: string, otherwise: Value)
    requires |names| == |values|
    ensures Given([name] + names, [v] + values, c, otherwise) == if name == c then Stored(v) else Given(names, values, c, otherwise)
  {
    assert ([name] + names)[1..] == names && ([v] + values)[1..] == values;
  }

  lemma {:induction false} GivenKept(cells: Cells, i: nat, otherwise: Value)
    requires i < |cells| && Distinct(Names(cells)) && !LeftOut(cells[i])
    ensures |FlatNames(Kept(cells))| == |CellValues(Kept(cells))|
    ensures Given(FlatNames(Kept(cells)), CellValues(Kept(cells)), Flat(cells[i].0.name), otherwise) == Stored(cells[i].1)
  {
    hide LeftOut, Flat, Kept, FlatNames, CellValues, Given, Stored, Distinct;
    var c, rest := Flat(cells[i].0.name), cells[1..];
    NamesAreAsMany(Kept(cells));
    NamesAreAsMany(Kept(rest));
    DistinctRest(cells);
    KeptStep(cells);
    NamesOf(cells[0], Kept(rest));
    GivenFirst(Flat(cells[0].0.name), cells[0].1, FlatNames(Kept(rest)), CellValues(Kept(rest)), c, otherwise);
    if i > 0 {
      GivenKept(rest, i - 1, otherwise);
      assert rest[i - 1] == cells[i];
    }
  }

  lemma {:induction false} GivenOther(names: seq<string>, values: seq<Value>, c: string, otherwise: Value)
    requires |names| == |values| && c !in names
    ensures Given(names, values, c, otherwise) == otherwise
  {
    if names != [] {
      assert names == [names[0]] + names[1..];
      GivenOther(names[1..], values[1..], c, otherwise);
    }
  }

  /** A replacement takes each kept column from the row that was to be inserted, and no other. */
  lemma {:induction false} ReplacedIs(cells: Cells, excluded: TableRow, c: string, before: Value)
    ensures Replaced(Replacements(cells), excluded, c, before) == if c in FlatNames(cells) then excluded(c) else before
  {
    hide Flat;
    if cells != [] {
      var name := Flat(cells[0].0.name);
      ReplacedIs(cells[1..], excluded, c, if name == c then excluded(name) else before);
      assert Replacements(cells)[1..] == Replacements(cells[1..]);
    }
  }

  lemma LeftOutName(cells: Cells, i: nat)
    requires i < |cells| && Distinct(Names(cells))
    ensures Flat(cells[i].0.name) in FlatNames(Kept(cells)) <==> !LeftOut(cells[i])
  {
    hide LeftOut, Flat, Kept, FlatNames;
    var c, names := Flat(cells[i].0.name), Names(cells);
    KeptNames(cells, c);
    assert forall j :: 0 <= j < |cells| ==> names[j] == cells[j].0.name;
  }

  lemma OtherName(cells: Cells, c: string)
    requires c !in FlatNames(cells)
    ensures c !in FlatNames(Kept(cells))
  {
    hide LeftOut, Flat, Kept, FlatNames;
    KeptNames(cells, c);
    NamesAre(cells, c);
  }

  // ---------- what they do ----------

  /** The values of the instance, and those of another row in the columns that are none of the instance,
      where the instance has a null, and where it has a zero for a key that is to be assigned. */
  ghost predicate Holds(cells: Cells, elsewhere: TableRow, row: TableRow) {
    && (forall i :: 0 <= i < |cells| ==>
          var (column, value) := cells[i];
          var c := Flat(column.name);
          row(c) == if value == Null || (column.primaryKey && column.autoincrement && value == Long(0)) then elsewhere(c)
                    else Stored(value))
    && (forall c :: c !in FlatNames(cells) ==> row(c) == elsewhere(c))
  }

  lemma LeftOutIs(cell: (SQLColumn, Value))
    ensures LeftOut(cell) <==> cell.1 == Null || (cell.0.primaryKey && cell.0.autoincrement && cell.1 == Long(0))
  {
  }

  /** Enough for a row to hold an instance. */
  lemma HoldsIf(cells: Cells, elsewhere: TableRow, row: TableRow)
    requires forall i :: 0 <= i < |cells| ==>
               row(Flat(cells[i].0.name)) == if LeftOut(cells[i]) then elsewhere(Flat(cells[i].0.name)) else Stored(cells[i].1)
    requires forall c :: c !in FlatNames(cells) ==> row(c) == elsewhere(c)
    ensures Holds(cells, elsewhere, row)
  {
    hide LeftOut, Flat, Stored, FlatNames;
    forall i | 0 <= i < |cells|
      ensures LeftOut(cells[i]) <==> cells[i].1 == Null || (cells[i].0.primaryKey && cells[i].0.autoincrement && cells[i].1 == Long(0))
    {
      LeftOutIs(cells[i]);
    }
  }

  lemma NewRowHolds(name: Characters, schema: Option<Characters>, cells: Cells, purpose: Purpose, defaults: TableRow)
    requires Distinct(Names(cells))
    ensures var s := Inserts(name, schema, cells, purpose);
            |s.columns| == |s.values| && Holds(cells, defaults, NewRow(s, defaults))
  {
    hide LeftOut, Flat, Kept, KeyCells, FlatNames, CellValues, Replacements, Given, Stored, Distinct;
    NamesAreAsMany(Kept(cells));
    var names, values := FlatNames(Kept(cells)), CellValues(Kept(cells));
    forall i | 0 <= i < |cells|
      ensures Given(names, values, Flat(cells[i].0.name), defaults(Flat(cells[i].0.name)))
           == if LeftOut(cells[i]) then defaults(Flat(cells[i].0.name)) else Stored(cells[i].1)
    {
      LeftOutName(cells, i);
      if LeftOut(cells[i]) {
        GivenOther(names, values, Flat(cells[i].0.name), defaults(Flat(cells[i].0.name)));
      } else {
        GivenKept(cells, i, defaults(Flat(cells[i].0.name)));
      }
    }
    forall c | c !in FlatNames(cells)
      ensures Given(names, values, c, defaults(c)) == defaults(c)
    {
      OtherName(cells, c);
      GivenOther(names, values, c, defaults(c));
    }
    HoldsIf(cells, defaults, NewRow(Inserts(name, schema, cells, purpose), defaults));
  }

  lemma MergedHolds(conflict: Conflict, cells: Cells, defaults: TableRow, excluded: TableRow, row: TableRow)
    requires Distinct(Names(cells)) && conflict.replaced == Replacements(Kept(cells)) && Holds(cells, defaults, excluded)
    ensures Holds(cells, row, Merged(conflict, excluded, row))
  {
    hide LeftOut, Flat, Kept, FlatNames, Replacements, Replaced, Stored, Distinct;
    forall i | 0 <= i < |cells|
      ensures Replaced(conflict.replaced, excluded, Flat(cells[i].0.name), row(Flat(cells[i].0.name)))
           == if LeftOut(cells[i]) then row(Flat(cells[i].0.name)) else Stored(cells[i].1)
    {
      LeftOutName(cells, i);
      LeftOutIs(cells[i]);
      ReplacedIs(Kept(cells), excluded, Flat(cells[i].0.name), row(Flat(cells[i].0.name)));
    }
    forall c | c !in FlatNames(cells)
      ensures Replaced(conflict.replaced, excluded, c, row(c)) == row(c)
    {
      OtherName(cells, c);
      ReplacedIs(Kept(cells), excluded, c, row(c));
    }
    HoldsIf(cells, row, Merged(conflict, excluded, row));
  }

  lemma KeyNames(cells: Cells, c: string)
    ensures c in FlatNames(KeyCells(cells)) <==> exists i :: 0 <= i < |cells| && cells[i].0.primaryKey && Flat(cells[i].0.name) == c
  {
    hide Flat, FlatNames;
    KeyCellsIn(cells);
    NamesAre(KeyCells(cells), c);
    var keys := KeyCells(cells);
    if i :| 0 <= i < |keys| && Flat(keys[i].0.name) == c {
      assert keys[i] in keys;
    }
    if i :| 0 <= i < |cells| && cells[i].0.primaryKey && Flat(cells[i].0.name) == c {
      assert cells[i] in keys;
    }
  }

  /** The names of the primary key columns, in any order. */
  ghost predicate AreKeys(cells: Cells, keys: seq<string>) {
    forall c :: c in keys <==> exists i :: 0 <= i < |cells| && cells[i].0.primaryKey && Flat(cells[i].0.name) == c
  }

  lemma SameConflicts(engine: Engine, cells: Cells, keys: seq<string>, a: TableRow, b: TableRow)
    requires AreKeys(cells, keys)
    ensures Conflicts(engine, FlatNames(KeyCells(cells)), a, b) <==> Conflicts(engine, keys, a, b)
  {
    hide CompareValues, Flat, KeyCells, FlatNames;
    var target := FlatNames(KeyCells(cells));
    forall c: string
      ensures c in target <==> c in keys
    {
      KeyNames(cells, c);
    }
    assert target != [] ==> target[0] in keys;
    assert keys != [] ==> keys[0] in target;
  }

  /** What an insert or an upsert does to a table. If no row has the key of the new one, the new row is
      added, with the values of the instance and defaults for what is left out. Otherwise an insert
      fails, and an upsert gives the rows with that key the values of the instance, except those that
      are left out, and leaves all other rows as they are. */
  lemma InsertTouches(engine: Engine, table: seq<TableRow>, defaults: TableRow, name: Characters, schema: Option<Characters>,
                      cells: Cells, purpose: Purpose, keys: seq<string>)
    requires purpose != ToUpdate && LegibleInsert(name, schema, cells, purpose) && Kept(cells) != [] && Distinct(Names(cells))
    requires AreKeys(cells, keys)
    ensures var parts := Piece("") + StatementParts(TableName(name, schema), cells, purpose, true);
            var s := Inserts(name, schema, cells, purpose);
            && ParseStatement(Sql(parts), Bindings(parts)) == Some(s)
            && s.schema == FlatSchema(schema) && s.table == Flat(name)
            && |s.columns| == |s.values|
            && var row := NewRow(s, defaults);
            && var after := Inserted(engine, keys, defaults, s, table);
            && Holds(cells, defaults, row)
            && if forall i :: 0 <= i < |table| ==> !Conflicts(engine, keys, table[i], row) then after == Some(table + [row])
               else if purpose == ToInsert then after == None
               else
                 && after.Some? && |after.value| == |table|
                 && forall i :: 0 <= i < |table| ==>
                      if Conflicts(engine, keys, table[i], row) then Holds(cells, table[i], after.value[i])
                      else after.value[i] == table[i]
  {
    hide ParseStatement, Sql, Bindings, StatementParts, TableName, Piece, LegibleInsert, Kept, KeyCells, CellValues, FlatNames,
         Replacements, Holds, NewRow, Merged, Conflicts, Distinct, AreKeys, Flat;
    InsertIsRead(name, schema, cells, purpose);
    NewRowHolds(name, schema, cells, purpose, defaults);
    var s := Inserts(name, schema, cells, purpose);
    var row := NewRow(s, defaults);
    NoConflictWithoutKeys(engine, cells, table, row);
    forall i | 0 <= i < |table|
      ensures Conflicts(engine, FlatNames(KeyCells(cells)), table[i], row) <==> Conflicts(engine, keys, table[i], row)
    {
      SameConflicts(engine, cells, keys, table[i], row);
    }
    if s.conflict.Some? {
      forall i | 0 <= i < |table|
        ensures Holds(cells, table[i], Merged(s.conflict.value, row, table[i]))
      {
        MergedHolds(s.conflict.value, cells, defaults, row, table[i]);
      }
    }
  }

  lemma NoConflictWithoutKeys(engine: Engine, cells: Cells, table: seq<TableRow>, row: TableRow)
    ensures KeyCells(cells) == [] ==> forall i :: 0 <= i < |table| ==> !Conflicts(engine, FlatNames(KeyCells(cells)), table[i], row)
  {
    NoneKept();
  }

  // ---------- when the row then is the instance ----------

  /** The row has the values of the instance in all its columns. */
  predicate IsInstance(cells: Cells, row: TableRow) {
    forall i :: 0 <= i < |cells| ==> row(Flat(cells[i].0.name)) == cells[i].1
  }

  lemma SomeKeys(cells: Cells)
    requires KeyCells(cells) != []
    ensures FlatNames(KeyCells(cells)) != []
  {
    hide Flat;
  }

  /** A row with the key of another conflicts with it, unless the key has a null. */
  lemma SameKeyConflicts(engine: Engine, cells: Cells, defaults: TableRow, added: TableRow, row: TableRow)
    requires Reflexive(engine) && KeyCells(cells) != [] && Holds(cells, defaults, added)
    requires forall i :: 0 <= i < |cells| && cells[i].0.primaryKey ==>
               !LeftOut(cells[i]) && row(Flat(cells[i].0.name)) == added(Flat(cells[i].0.name))
    ensures Conflicts(engine, FlatNames(KeyCells(cells)), row, added)
  {
    hide Flat, FlatNames, Stored, KeyCells;
    SomeKeys(cells);
    forall c | c in FlatNames(KeyCells(cells))
      ensures CompareValues(engine, Eq, row(c), added(c)) == Yes
    {
      KeyNames(cells, c);
      var i :| 0 <= i < |cells| && cells[i].0.primaryKey && Flat(cells[i].0.name) == c;
      StoredIs(cells[i].1);
    }
  }

  /** A row that conflicts with the instance and is changed otherwise than the instance says. */
  lemma Counterexample(engine: Engine, cells: Cells, defaults: TableRow, added: TableRow, conflict: Conflict, i: nat) returns (row: TableRow)
    requires Reflexive(engine) && KeyCells(cells) != [] && Distinct(Names(cells)) && Holds(cells, defaults, added)
    requires conflict.replaced == Replacements(Kept(cells)) && forall j :: 0 <= j < |cells| && cells[j].0.primaryKey ==> !LeftOut(cells[j])
    requires i < |cells| && (LeftOut(cells[i]) || HasNul(cells[i].1))
    ensures Conflicts(engine, FlatNames(KeyCells(cells)), row, added) && !IsInstance(cells, Merged(conflict, added, row))
  {
    hide Flat, FlatNames, Stored, HasNul, KeyCells, Conflicts, Merged, Distinct;
    var name := Flat(cells[i].0.name);
    var other: Value := if cells[i].1 == Long(1) then Long(2) else Long(1);
    row := c => if c == name && LeftOut(cells[i]) then other else added(c);
    forall j | 0 <= j < |cells| && cells[j].0.primaryKey
      ensures row(Flat(cells[j].0.name)) == added(Flat(cells[j].0.name))
    {
      LeftOutName(cells, i);
      LeftOutName(cells, j);
    }
    SameKeyConflicts(engine, cells, defaults, added, row);
    MergedHolds(conflict, cells, defaults, added, row);
    StoredIs(cells[i].1);
    assert Merged(conflict, added, row)(name) != cells[i].1;
  }

  /** A row that an upsert finds is the instance afterwards, whatever else was in it, if and only if
      the instance has no null and no text of it has a NUL: a null does not replace what is in the
      row. */
  lemma UpsertIsInstance(engine: Engine, defaults: TableRow, name: Characters, schema: Option<Characters>, cells: Cells)
    requires Reflexive(engine) && KeyCells(cells) != [] && Distinct(Names(cells))
    requires forall i :: 0 <= i < |cells| && cells[i].0.primaryKey ==>
               cells[i].1 != Null && !(cells[i].0.autoincrement && cells[i].1 == Long(0))
    ensures var s := Inserts(name, schema, cells, ToUpsert);
            && |s.columns| == |s.values| && s.conflict.Some?
            && var added := NewRow(s, defaults);
            (forall row :: Conflicts(engine, s.conflict.value.target, row, added) ==> IsInstance(cells, Merged(s.conflict.value, added, row)))
            <==> (forall i :: 0 <= i < |cells| ==> cells[i].1 != Null && !HasNul(cells[i].1))
  {
    hide LeftOut, Flat, FlatNames, CellValues, Replacements, Stored, HasNul, KeyCells, Kept, Conflicts, Merged, NewRow, Distinct,
         IsInstance;
    NewRowHolds(name, schema, cells, ToUpsert, defaults);
    var s := Inserts(name, schema, cells, ToUpsert);
    var conflict, added := s.conflict.value, NewRow(s, defaults);
    forall i | 0 <= i < |cells|
      ensures LeftOut(cells[i]) <==> cells[i].1 == Null
    {
      LeftOutIs(cells[i]);
    }
    if i :| 0 <= i < |cells| && (LeftOut(cells[i]) || HasNul(cells[i].1)) {
      var row := Counterexample(engine, cells, defaults, added, conflict, i);
    } else {
      forall row: TableRow
        ensures IsInstance(cells, Merged(conflict, added, row))
      {
        MergedHolds(conflict, cells, defaults, added, row);
        AllKept(cells, row, Merged(conflict, added, row));
      }
    }
  }

  lemma AllKept(cells: Cells, elsewhere: TableRow, row: TableRow)
    requires Holds(cells, elsewhere, row) && forall i :: 0 <= i < |cells| ==> !LeftOut(cells[i]) && !HasNul(cells[i].1)
    ensures IsInstance(cells, row)
  {
    hide LeftOut, HasNul, Stored, Flat, FlatNames;
    forall i | 0 <= i < |cells|
      ensures row(Flat(cells[i].0.name)) == cells[i].1
    {
      StoredIs(cells[i].1);
      LeftOutIs(cells[i]);
    }
  }

  /** A row with a name in it, and an instance with the same key and none: the name stays. */
  lemma NullIsKept(defaults: TableRow)
    ensures var cells := [(SQLColumn(["i"], true, false, None), Long(1)), (SQLColumn(["n"], false, false, None), Null)];
            var s := Inserts(["t"], None, cells, ToUpsert);
            var row: TableRow := c => if c == "i" then Long(1) else Text("x");
            && |s.columns| == |s.values| && s.conflict.Some?
            && Merged(s.conflict.value, NewRow(s, defaults), row)("n") == Text("x")
  {
    hide Kept, Replacements, FlatNames, CellValues, Merged, NewRow, LeftOut;
    var cells := [(SQLColumn(["i"], true, false, None), Long(1)), (SQLColumn(["n"], false, false, None), Null)];
    var s := Inserts(["t"], None, cells, ToUpsert);
    var row: TableRow := c => if c == "i" then Long(1) else Text("x");
    OneLetter("i");
    OneLetter("n");
    NullIsLeftOut(cells[1]);
    NewRowHolds(["t"], None, cells, ToUpsert, defaults);
    MergedHolds(s.conflict.value, cells, defaults, NewRow(s, defaults), row);
    assert cells[1].0.name == ["n"];
  }

  lemma OneLetter(s: string)
    ensures Flat([s]) == s
  {
    assert [s][1..] == [] && s + [] == s;
  }

  lemma NullIsLeftOut(cell: (SQLColumn, Value))
    requires cell.1 == Null
    ensures LeftOut(cell)
  {
  }

  /** A zero is written where it is no key to be assigned. */
  lemma ZeroIsWritten(defaults: TableRow)
    ensures var cells := [(SQLColumn(["i"], true, false, None), Long(0)), (SQLColumn(["n"], false, false, None), Long(0))];
            var s := Inserts(["t"], None, cells, ToInsert);
            |s.columns| == |s.values| && NewRow(s, defaults)("i") == Long(0) == NewRow(s, defaults)("n")
  {
    hide Kept, Replacements, FlatNames, CellValues, NewRow;
    var cells := [(SQLColumn(["i"], true, false, None), Long(0)), (SQLColumn(["n"], false, false, None), Long(0))];
    OneLetter("i");
    OneLetter("n");
    NewRowHolds(["t"], None, cells, ToInsert, defaults);
    assert cells[0].0.name == ["i"] && cells[1].0.name == ["n"];
  }
}

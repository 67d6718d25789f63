/** SELECT statements (applyClauses and assembleQuery in SQLCodable.swift) and the names they are
    made of (SQLSchema.swift). */
module SqlQuery {
  import opened Wrappers
  import opened SqlExpression
  import opened SqlPredicate
  import opened SqlLexer
  import opened SqlBindings

  /** A column, with the name of the column that it references, if any. */
  datatype SQLColumn = SQLColumn(name: Characters, primaryKey: bool, autoincrement: bool, references: Option<Characters>)

  datatype QualifiedTable = QualifiedTable(name: Characters, columns: seq<SQLColumn>, alias: Option<string>, schema: Option<Characters>)

  datatype JoinKind = LeftJoin | RightJoin | FullJoin | InnerJoin | CrossJoin

  datatype JoinCondition = OnColumn(column: SQLColumn) | OnPredicate(condition: Predicate)

  datatype JoinClause = JoinClause(kind: JoinKind, condition: Option<JoinCondition>)

  datatype Order = Ascending | Descending

  function TableName(name: Characters, schema: Option<Characters>): string {
    if schema.Some? then Quoted(schema.value, MARK) + "." + Quoted(name, MARK) else Quoted(name, MARK)
  }

  function ColumnName(c: SQLColumn, alias: Option<string>): string {
    if alias.Some? then alias.value + "." + Quoted(c.name, MARK) else Quoted(c.name, MARK)
  }

  function JoinText(kind: JoinKind): string {
    match kind
    case LeftJoin => "LEFT OUTER JOIN"
    case RightJoin => "RIGHT OUTER JOIN"
    case FullJoin => "FULL OUTER JOIN"
    case InnerJoin => "INNER JOIN"
    case CrossJoin => "CROSS JOIN"
  }

  function OrderText(o: Order): string {
    if o == Ascending then "ASC" else "DESC"
  }

  /** A number in decimal, as Swift writes it. */
  function Decimal(n: int): string {
    if n < 0 then "-" + Digits(-n) else Digits(n)
  }

  function Digits(n: nat): string {
    (if n < 10 then [] else Digits(n / 10)) + ["0123456789"[n % 10]]
  }

  lemma {:induction false} NumberOfDigits(n: nat)
    ensures Digits(n) != [] && Numeral(Digits(n)) == n
  {
    var s := Digits(n);
    if n >= 10 {
      NumberOfDigits(n / 10);
      assert s[..|s| - 1] == Digits(n / 10);
    }
    assert forall d :: 0 <= d < 10 ==> "0123456789"[d] as nat == '0' as nat + d;
  }

  // ---------- the parts of a query ----------

  function ColumnList(names: seq<string>, first: bool): string {
    if names == [] then [] else (if first then "" else ", ") + names[0] + ColumnList(names[1..], false)
  }

  /** The columns of all the tables, qualified by their aliases. */
  function SelectColumns(tables: seq<QualifiedTable>): seq<string> {
    if tables == [] then [] else ColumnNames(tables[0].columns, tables[0].alias) + SelectColumns(tables[1..])
  }

  function ColumnNames(columns: seq<SQLColumn>, alias: Option<string>): (names: seq<string>)
    ensures |names| == |columns|
  {
    seq(|columns|, i requires 0 <= i < |columns| => ColumnName(columns[i], alias))
  }

  /** What a table is called in a join condition. */
  function Qualifier(t: QualifiedTable): string {
    if t.alias.Some? then t.alias.value else TableName(t.name, t.schema)
  }

  /** A foreign key is compared with the column it references, whichever side it is on. */
  function ConditionParts(c: JoinCondition, from: QualifiedTable, to: QualifiedTable): seq<Part> {
    match c
    case OnPredicate(p) => Parts(p)
    case OnColumn(column) =>
      if column.references.None? then RepParts(Val(Long(1)))
      else if column in from.columns then
        Parts(Equals(Aliased(Qualifier(to), column.references.value), Aliased(Qualifier(from), column.name)))
      else
        Parts(Equals(Aliased(Qualifier(from), column.references.value), Aliased(Qualifier(to), column.name)))
  }

  function AliasParts(t: QualifiedTable): seq<Part> {
    if t.alias.Some? then Piece(" AS " + t.alias.value) else []
  }

  function OnParts(tables: seq<QualifiedTable>, joins: seq<JoinClause>, i: nat): seq<Part>
    requires i < |tables| <= |joins| + 1
  {
    if i > 0 && joins[i - 1].condition.Some? then
      Piece(" ON ") + ConditionParts(joins[i - 1].condition.value, tables[i - 1], tables[i])
    else []
  }

  function TableParts(tables: seq<QualifiedTable>, joins: seq<JoinClause>, i: nat): seq<Part>
    requires i < |tables| <= |joins| + 1
  {
    (if i > 0 then Piece(" " + JoinText(joins[i - 1].kind) + " ") else [])
    + Piece(TableName(tables[i].name, tables[i].schema)) + AliasParts(tables[i]) + OnParts(tables, joins, i)
  }

  /** The tables before the n-th, each joined to the one before it. */
  function FromParts(tables: seq<QualifiedTable>, joins: seq<JoinClause>, n: nat): seq<Part>
    requires n <= |tables| <= |joins| + 1
  {
    if n == 0 then [] else FromParts(tables, joins, n - 1) + TableParts(tables, joins, n - 1)
  }

  function WhereParts(clauses: seq<Predicate>): seq<Part> {
    if clauses == [] then [] else Piece(" WHERE ") + Parts(Compound(And, clauses))
  }

  function OrderParts(columns: seq<(Representable, Order)>, first: bool): seq<Part> {
    if columns == [] then []
    else
      (if first then [] else Piece(", ")) + RepParts(columns[0].0) + Piece(" " + OrderText(columns[0].1))
      + OrderParts(columns[1..], false)
  }

  function OrderByParts(columns: seq<(Representable, Order)>): seq<Part> {
    if columns == [] then [] else Piece(" ORDER BY ") + OrderParts(columns, true)
  }

  function NumberParts(word: string, n: Option<int>): seq<Part> {
    if n.Some? then Piece(word + Decimal(n.value)) else []
  }

  function ClauseParts(clauses: seq<Predicate>, orderBy: seq<(Representable, Order)>, limit: Option<int>,
                       offset: Option<int>): seq<Part>
  {
    WhereParts(clauses) + OrderByParts(orderBy) + NumberParts(" LIMIT ", limit) + NumberParts(" OFFSET ", offset)
  }

  function SelectText(tables: seq<QualifiedTable>): string {
    "SELECT " + ColumnList(SelectColumns(tables), true) + " FROM "
  }

  function SelectParts(tables: seq<QualifiedTable>, joins: seq<JoinClause>, clauses: seq<Predicate>,
                       orderBy: seq<(Representable, Order)>, limit: Option<int>, offset: Option<int>): seq<Part>
    requires |tables| <= |joins| + 1
  {
    Piece(SelectText(tables)) + FromParts(tables, joins, |tables|) + ClauseParts(clauses, orderBy, limit, offset)
  }

  // ---------- the code ----------

  method ApplyClauses(select: SQLExpression, clauses: seq<Predicate>, orderBy: seq<(Representable, Order)>,
                      limit: Option<int>, offset: Option<int>)
    modifies select
    ensures select.parts == old(select.parts) + ClauseParts(clauses, orderBy, limit, offset)
  {
    hide WhereParts, OrderByParts, NumberParts;
    AppendWhere(select, clauses);
    AppendOrderBy(select, orderBy);
    AppendNumber(select, " LIMIT ", limit);
    AppendNumber(select, " OFFSET ", offset);
  }

  method AppendWhere(select: SQLExpression, clauses: seq<Predicate>)
    modifies select
    ensures select.parts == old(select.parts) + WhereParts(clauses)
  {
    hide Parts;
    if clauses != [] {
      select.AppendSql(" WHERE ");
      Apply(Compound(And, clauses), select);
    }
  }

  method AppendOrderBy(select: SQLExpression, orderBy: seq<(Representable, Order)>)
    modifies select
    ensures select.parts == old(select.parts) + OrderByParts(orderBy)
  {
    hide OrderParts;
    if orderBy != [] {
      select.AppendSql(" ORDER BY ");
      ApplyOrder(select, orderBy);
    }
  }

  method AppendNumber(select: SQLExpression, word: string, n: Option<int>)
    modifies select
    ensures select.parts == old(select.parts) + NumberParts(word, n)
  {
    hide Decimal;
    if n.Some? {
      select.AppendSql(word + Decimal(n.value));
    }
  }

  lemma OrderEnds(columns: seq<(Representable, Order)>)
    ensures OrderParts(columns[|columns|..], true) == [] && OrderParts(columns[|columns|..], false) == []
  {
  }

  lemma OrderStep(columns: seq<(Representable, Order)>, i: nat)
    requires i < |columns|
    ensures OrderParts(columns[i..], i == 0)
         == (if i == 0 then [] else Piece(", ")) + RepParts(columns[i].0) + Piece(" " + OrderText(columns[i].1))
            + OrderParts(columns[i + 1..], false)
  {
    hide RepParts, OrderText;
    assert columns[i..][0] == columns[i] && columns[i..][1..] == columns[i + 1..];
  }

  method ApplyOrder(select: SQLExpression, orderBy: seq<(Representable, Order)>)
    modifies select
    ensures select.parts == old(select.parts) + OrderParts(orderBy, true)
  {
    hide RepParts, OrderParts, OrderText, Piece;
    OrderEnds(orderBy);
    assert orderBy[0..] == orderBy;
    for index := 0 to |orderBy|
      invariant select.parts + OrderParts(orderBy[index..], index == 0) == old(select.parts) + OrderParts(orderBy, true)
    {
      ghost var before := select.parts;
      OrderStep(orderBy, index);
      PieceIs(", ");
      PieceIs(" " + OrderText(orderBy[index].1));
      if index > 0 {
        select.AppendSql(", ");
      }
      ApplyRep(orderBy[index].0, select);
      select.AppendSql(" " + OrderText(orderBy[index].1));
      assert select.parts + OrderParts(orderBy[index + 1..], false) == before + OrderParts(orderBy[index..], index == 0);
    }
  }

  method ApplyJoinCondition(c: JoinCondition, select: SQLExpression, from: QualifiedTable, to: QualifiedTable)
    modifies select
    ensures select.parts == old(select.parts) + ConditionParts(c, from, to)
  {
    hide Parts, RepParts, Qualifier, Equals;
    match c
    case OnPredicate(p) =>
      Apply(p, select);
    case OnColumn(column) =>
      if column.references.Some? {
        var alias1, alias2 := Qualifier(from), Qualifier(to);
        if column in from.columns {
          Apply(Equals(Aliased(alias2, column.references.value), Aliased(alias1, column.name)), select);
        } else {
          Apply(Equals(Aliased(alias1, column.references.value), Aliased(alias2, column.name)), select);
        }
      } else {
        ApplyRep(Val(Long(1)), select);
      }
  }

  method AssembleQuery(tables: seq<QualifiedTable>, joins: seq<JoinClause>, clauses: seq<Predicate>,
                       orderBy: seq<(Representable, Order)>, limit: Option<int>, offset: Option<int>)
    returns (select: SQLExpression)
    requires |tables| <= |joins| + 1
    ensures fresh(select) && select.parts == SelectParts(tables, joins, clauses, orderBy, limit, offset)
  {
    hide ClauseParts, TableParts, ColumnList, ColumnNames;
    var selectColumns := [];
    for i := 0 to |tables|
      invariant selectColumns + SelectColumns(tables[i..]) == SelectColumns(tables)
    {
      assert tables[i..][0] == tables[i] && tables[i..][1..] == tables[i + 1..];
      selectColumns := selectColumns + ColumnNames(tables[i].columns, tables[i].alias);
    }
    assert selectColumns == SelectColumns(tables);
    select := new SQLExpression("SELECT " + ColumnList(selectColumns, true) + " FROM ", []);
    for index := 0 to |tables|
      invariant fresh(select) && select.parts == Piece(SelectText(tables)) + FromParts(tables, joins, index)
    {
      AppendTable(select, tables, joins, index);
      assert FromParts(tables, joins, index + 1) == FromParts(tables, joins, index) + TableParts(tables, joins, index);
    }
    ApplyClauses(select, clauses, orderBy, limit, offset);
  }

  method AppendTable(select: SQLExpression, tables: seq<QualifiedTable>, joins: seq<JoinClause>, index: nat)
    requires index < |tables| <= |joins| + 1
    modifies select
    ensures select.parts == old(select.parts) + TableParts(tables, joins, index)
  {
    hide TableName, JoinText, OnParts, AliasParts;
    var qtable := tables[index];
    if index > 0 {
      select.AppendSql(" " + JoinText(joins[index - 1].kind) + " ");
    }
    select.AppendSql(TableName(qtable.name, qtable.schema));
    AppendAlias(select, qtable);
    AppendOn(select, tables, joins, index);
  }

  method AppendAlias(select: SQLExpression, qtable: QualifiedTable)
    modifies select
    ensures select.parts == old(select.parts) + AliasParts(qtable)
  {
    if qtable.alias.Some? {
      select.AppendSql(" AS " + qtable.alias.value);
    }
  }

  method AppendOn(select: SQLExpression, tables: seq<QualifiedTable>, joins: seq<JoinClause>, index: nat)
    requires index < |tables| <= |joins| + 1
    modifies select
    ensures select.parts == old(select.parts) + OnParts(tables, joins, index)
  {
    hide ConditionParts;
    if index > 0 && joins[index - 1].condition.Some? {
      select.AppendSql(" ON ");
      ApplyJoinCondition(joins[index - 1].condition.value, select, tables[index - 1], tables[index]);
    }
  }

  // ---------- bindings ----------

  /** The names of a table, its schema and its columns are read back as they are. */
  predicate LegibleNames(t: QualifiedTable) {
    && Legible(t.name, MARK)
    && (t.schema.Some? ==> Legible(t.schema.value, MARK))
    && forall c :: c in t.columns ==> LegibleColumn(c)
  }

  predicate LegibleColumn(c: SQLColumn) {
    Legible(c.name, MARK) && (c.references.Some? ==> Legible(c.references.value, MARK))
  }

  ghost predicate ClosedTable(t: QualifiedTable) {
    LegibleNames(t) && (t.alias.Some? ==> Closed(t.alias.value) && Follows(t.alias.value))
  }

  ghost predicate ClosedJoin(j: JoinClause) {
    match j.condition
    case Some(OnPredicate(p)) => NamesClose(p)
    case Some(OnColumn(c)) => LegibleColumn(c)
    case None => true
  }

  lemma TableNameIsClosed(name: Characters, schema: Option<Characters>)
    requires Legible(name, MARK) && (schema.Some? ==> Legible(schema.value, MARK))
    ensures Closed(TableName(name, schema)) && Follows(TableName(name, schema))
  {
    hide Closed;
    QuotedIsClosed(name);
    if schema.Some? {
      QuotedIsClosed(schema.value);
      PlainIsClosed(".");
      ClosedAppend(Quoted(schema.value, MARK), ".");
      ClosedAppend(Quoted(schema.value, MARK) + ".", Quoted(name, MARK));
    }
  }

  lemma ColumnNameIsClosed(c: SQLColumn, alias: Option<string>)
    requires LegibleColumn(c) && (alias.Some? ==> Closed(alias.value))
    ensures Closed(ColumnName(c, alias))
  {
    hide Closed;
    QuotedIsClosed(c.name);
    if alias.Some? {
      PlainIsClosed(".");
      ClosedAppend(alias.value, ".");
      ClosedAppend(alias.value + ".", Quoted(c.name, MARK));
    }
  }

  lemma {:induction false} ColumnListIsClosed(names: seq<string>, first: bool)
    requires forall n :: n in names ==> Closed(n)
    ensures Closed(ColumnList(names, first))
  {
    hide Closed;
    if names == [] {
      PlainIsClosed("");
    } else {
      PlainIsClosed("");
      PlainIsClosed(", ");
      var separator := if first then "" else ", ";
      ColumnListIsClosed(names[1..], false);
      ClosedAppend(separator, names[0]);
      ClosedAppend(separator + names[0], ColumnList(names[1..], false));
    }
  }

  lemma {:induction false} SelectColumnsAreClosed(tables: seq<QualifiedTable>)
    requires forall t :: t in tables ==> ClosedTable(t)
    ensures forall n :: n in SelectColumns(tables) ==> Closed(n)
  {
    hide Closed, ColumnName;
    if tables != [] {
      var t := tables[0];
      assert ClosedTable(t);
      forall i | 0 <= i < |t.columns|
        ensures Closed(ColumnName(t.columns[i], t.alias))
      {
        ColumnNameIsClosed(t.columns[i], t.alias);
      }
      SelectColumnsAreClosed(tables[1..]);
    }
  }

  lemma SelectTextIsClosed(tables: seq<QualifiedTable>)
    requires forall t :: t in tables ==> ClosedTable(t)
    ensures Closed(SelectText(tables)) && Follows(SelectText(tables))
  {
    hide Closed;
    var list := ColumnList(SelectColumns(tables), true);
    SelectColumnsAreClosed(tables);
    ColumnListIsClosed(SelectColumns(tables), true);
    PlainIsClosed("SELECT ");
    PlainIsClosed(" FROM ");
    ClosedAppend("SELECT ", list);
    ClosedAppend("SELECT " + list, " FROM ");
  }

  lemma QualifierIsClosed(t: QualifiedTable)
    requires ClosedTable(t)
    ensures Closed(Qualifier(t)) && Follows(Qualifier(t))
  {
    hide Closed, TableName;
    TableNameIsClosed(t.name, t.schema);
  }

  lemma ConditionIsRegular(c: JoinCondition, from: QualifiedTable, to: QualifiedTable)
    requires ClosedTable(from) && ClosedTable(to)
    requires if c.OnPredicate? then NamesClose(c.condition) else LegibleColumn(c.column)
    ensures Regular(ConditionParts(c, from, to))
  {
    hide Regular, Parts, RepParts, Closed, Qualifier;
    QualifierIsClosed(from);
    QualifierIsClosed(to);
    match c
    case OnPredicate(p) =>
      PredicateIsRegular(p);
    case OnColumn(column) =>
      RepIsRegular(Val(Long(1)));
      if column.references.Some? {
        PredicateIsRegular(Equals(Aliased(Qualifier(to), column.references.value), Aliased(Qualifier(from), column.name)));
        PredicateIsRegular(Equals(Aliased(Qualifier(from), column.references.value), Aliased(Qualifier(to), column.name)));
      }
  }

  lemma OuterJoinsArePlain()
    ensures Plain("LEFT OUTER JOIN") && Plain("RIGHT OUTER JOIN") && Plain("FULL OUTER JOIN")
  {
  }

  lemma OtherJoinsArePlain()
    ensures Plain("INNER JOIN") && Plain("CROSS JOIN")
  {
  }

  lemma JoinTextIsPlain(kind: JoinKind)
    ensures Plain(JoinText(kind))
  {
    hide Plain;
    OuterJoinsArePlain();
    OtherJoinsArePlain();
  }

  lemma JoinTextIsRegular(kind: JoinKind)
    ensures Regular(Piece(" " + JoinText(kind) + " "))
  {
    hide JoinText;
    JoinTextIsPlain(kind);
    PlainIsRegular(" " + JoinText(kind) + " ");
  }

  lemma NothingIsRegular()
    ensures Regular([])
  {
    hide Closed;
  }

  lemma TableIsRegular(tables: seq<QualifiedTable>, joins: seq<JoinClause>, i: nat)
    requires i < |tables| <= |joins| + 1
    requires (forall t :: t in tables ==> ClosedTable(t)) && forall j :: j in joins ==> ClosedJoin(j)
    ensures Regular(TableParts(tables, joins, i))
  {
    hide Closed, Regular, Follows, JoinText, TableName, AliasParts, OnParts;
    var t := tables[i];
    assert ClosedTable(t);
    NothingIsRegular();
    TableNameIsClosed(t.name, t.schema);
    PieceIsRegular(TableName(t.name, t.schema));
    AliasIsRegular(t);
    OnIsRegular(tables, joins, i);
    var join := if i > 0 then Piece(" " + JoinText(joins[i - 1].kind) + " ") else [];
    if i > 0 {
      JoinTextIsRegular(joins[i - 1].kind);
    }
    RegularAppend(join, Piece(TableName(t.name, t.schema)));
    RegularAppend(join + Piece(TableName(t.name, t.schema)), AliasParts(t));
    RegularAppend(join + Piece(TableName(t.name, t.schema)) + AliasParts(t), OnParts(tables, joins, i));
  }

  lemma AliasIsRegular(t: QualifiedTable)
    requires ClosedTable(t)
    ensures Regular(AliasParts(t))
  {
    hide Closed, Regular;
    NothingIsRegular();
    if t.alias.Some? {
      PlainIsClosed(" AS ");
      ClosedAppend(" AS ", t.alias.value);
      PieceIsRegular(" AS " + t.alias.value);
    }
  }

  lemma OnIsRegular(tables: seq<QualifiedTable>, joins: seq<JoinClause>, i: nat)
    requires i < |tables| <= |joins| + 1
    requires (forall t :: t in tables ==> ClosedTable(t)) && forall j :: j in joins ==> ClosedJoin(j)
    ensures Regular(OnParts(tables, joins, i))
  {
    hide Closed, Regular, ConditionParts;
    NothingIsRegular();
    if i > 0 && joins[i - 1].condition.Some? {
      var condition := joins[i - 1].condition.value;
      assert ClosedJoin(joins[i - 1]) && ClosedTable(tables[i - 1]) && ClosedTable(tables[i]);
      PlainIsRegular(" ON ");
      ConditionIsRegular(condition, tables[i - 1], tables[i]);
      RegularAppend(Piece(" ON "), ConditionParts(condition, tables[i - 1], tables[i]));
    }
  }

  lemma {:induction false} FromIsRegular(tables: seq<QualifiedTable>, joins: seq<JoinClause>, n: nat)
    requires n <= |tables| <= |joins| + 1
    requires (forall t :: t in tables ==> ClosedTable(t)) && forall j :: j in joins ==> ClosedJoin(j)
    ensures Regular(FromParts(tables, joins, n))
  {
    hide Closed, TableParts, ClosedTable, ClosedJoin;
    if n > 0 {
      FromIsRegular(tables, joins, n - 1);
      TableIsRegular(tables, joins, n - 1);
    }
  }

  lemma {:induction false} DigitsArePlain(n: nat)
    ensures Plain(Digits(n))
  {
    if n >= 10 {
      DigitsArePlain(n / 10);
    }
  }

  lemma DecimalIsClosed(n: int)
    ensures Closed(Decimal(n))
  {
    hide Digits, Closed;
    if n < 0 {
      DigitsArePlain(-n);
      NumberOfDigits(-n);
      MinusIsClosed(Digits(-n));
    } else {
      DigitsArePlain(n);
      PlainIsClosed(Digits(n));
    }
  }

  lemma NumberIsRegular(word: string, n: Option<int>)
    requires Plain(word) && word != [] && Follows(word)
    ensures Regular(NumberParts(word, n))
  {
    hide Decimal, Closed;
    if n.Some? {
      DecimalIsClosed(n.value);
      PlainIsClosed(word);
      ClosedAppend(word, Decimal(n.value));
      PieceIsRegular(word + Decimal(n.value));
    }
  }

  lemma {:induction false} OrderIsRegular(columns: seq<(Representable, Order)>, first: bool)
    requires forall c :: c in columns ==> NamesCloseInRep(c.0)
    ensures Regular(OrderParts(columns, first))
  {
    hide Closed, RepParts, OrderText;
    if columns != [] {
      PlainIsRegular(", ");
      RepIsRegular(columns[0].0);
      OrderTextIsRegular(columns[0].1);
      OrderIsRegular(columns[1..], false);
    }
  }

  lemma OrderTextIsRegular(o: Order)
    ensures Regular(Piece(" " + OrderText(o)))
  {
    PlainIsRegular(" " + OrderText(o));
  }

  lemma ClausesAreRegular(clauses: seq<Predicate>, orderBy: seq<(Representable, Order)>, limit: Option<int>, offset: Option<int>)
    requires (forall p :: p in clauses ==> NamesClose(p)) && forall c :: c in orderBy ==> NamesCloseInRep(c.0)
    ensures Regular(ClauseParts(clauses, orderBy, limit, offset))
  {
    hide Regular, Closed, Parts, OrderParts, NumberParts;
    NothingIsRegular();
    PlainIsRegular(" WHERE ");
    PlainIsRegular(" ORDER BY ");
    if clauses != [] {
      PredicateIsRegular(Compound(And, clauses));
      RegularAppend(Piece(" WHERE "), Parts(Compound(And, clauses)));
    }
    if orderBy != [] {
      OrderIsRegular(orderBy, true);
      RegularAppend(Piece(" ORDER BY "), OrderParts(orderBy, true));
    }
    NumberIsRegular(" LIMIT ", limit);
    NumberIsRegular(" OFFSET ", offset);
    var a, b := WhereParts(clauses), OrderByParts(orderBy);
    RegularAppend(a, b);
    RegularAppend(a + b, NumberParts(" LIMIT ", limit));
    RegularAppend(a + b + NumberParts(" LIMIT ", limit), NumberParts(" OFFSET ", offset));
  }

  /** In every SELECT that is assembled from legible names and closed aliases, the k-th placeholder
      stands where the k-th binding belongs. */
  lemma SelectBindings(tables: seq<QualifiedTable>, joins: seq<JoinClause>, clauses: seq<Predicate>,
                       orderBy: seq<(Representable, Order)>, limit: Option<int>, offset: Option<int>)
    requires |tables| <= |joins| + 1
    requires (forall t :: t in tables ==> ClosedTable(t)) && forall j :: j in joins ==> ClosedJoin(j)
    requires (forall p :: p in clauses ==> NamesClose(p)) && forall c :: c in orderBy ==> NamesCloseInRep(c.0)
    ensures var parts := SelectParts(tables, joins, clauses, orderBy, limit, offset);
            && Placeholders(Sql(parts), 0, Outside) == Offsets(Carriers(parts, 0))
            && Bindings(parts) == Values(Carriers(parts, 0))
            && Rest(Ends(Sql(parts), Outside))
  {
    hide Regular, Closed, FromParts, ClauseParts, SelectText;
    SelectTextIsClosed(tables);
    PieceIsRegular(SelectText(tables));
    FromIsRegular(tables, joins, |tables|);
    ClausesAreRegular(clauses, orderBy, limit, offset);
    RegularAppend(Piece(SelectText(tables)), FromParts(tables, joins, |tables|));
    RegularAppend(Piece(SelectText(tables)) + FromParts(tables, joins, |tables|), ClauseParts(clauses, orderBy, limit, offset));
    PlaceholdersMatchBindings(SelectParts(tables, joins, clauses, orderBy, limit, offset));
  }
}

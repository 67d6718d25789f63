/** Queries against one table (SQLTableQuery and fetchAll in SQLCodable.swift). */
module TableQueries {
  import opened Wrappers
  import opened SqlExpression
  import opened SqlPredicate
  import opened SqlLexer
  import opened SqlParser
  import opened SqlQuery
  import opened StatementReadBack
  import opened SelectParser
  import opened SelectTokens
  import opened SelectReadBack

  /** A query is a value: each step gives a new one. */
  datatype TableQuery = TableQuery(qtable: QualifiedTable, whereClauses: seq<Predicate>, orderByColumns: seq<(Representable, Order)>,
                                   limit: Option<int>, offset: Option<int>)
  {
    function Where(clause: Option<Predicate>): TableQuery {
      if clause.None? then this else this.(whereClauses := whereClauses + [clause.value])
    }

    function OrderBy(rep: Representable, order: Order): TableQuery {
      this.(orderByColumns := orderByColumns + [(rep, order)])
    }

    function Limit(n: int, offset: Option<int>): TableQuery {
      this.(limit := Some(n), offset := offset)
    }
  }

  function Query(t: QualifiedTable): TableQuery {
    TableQuery(t, [], [], None, None)
  }

  /** What fetchAll asks for. */
  function Fetched(t: QualifiedTable, clause: Option<Predicate>, orderBy: Option<Representable>, order: Order,
                   limit: Option<int>, offset: Option<int>): TableQuery
  {
    var q := Query(t).Where(clause);
    var ordered := if orderBy.Some? then q.OrderBy(orderBy.value, order) else q;
    if limit.Some? then ordered.Limit(limit.value, offset) else ordered
  }

  function QueryParts(q: TableQuery): seq<Part> {
    SelectParts([q.qtable], [], q.whereClauses, q.orderByColumns, q.limit, q.offset)
  }

  method Eval(q: TableQuery) returns (select: SQLExpression)
    ensures fresh(select) && select.parts == QueryParts(q)
  {
    select := AssembleQuery([q.qtable], [], q.whereClauses, q.orderByColumns, q.limit, q.offset);
  }

  method FetchAll(t: QualifiedTable, clause: Option<Predicate>, orderBy: Option<Representable>, order: Order,
                  limit: Option<int>, offset: Option<int>)
    returns (select: SQLExpression)
    ensures fresh(select) && select.parts == QueryParts(Fetched(t, clause, orderBy, order, limit, offset))
  {
    var q := Query(t).Where(clause);
    if orderBy.Some? {
      q := q.OrderBy(orderBy.value, order);
    }
    if limit.Some? {
      q := q.Limit(limit.value, offset);
    }
    select := Eval(q);
  }

  predicate CanBeFetched(t: QualifiedTable, clause: Option<Predicate>, orderBy: Option<Representable>) {
    && t.columns != [] && LegibleTable(t.name, t.schema) && t.alias.None?
    && (forall c :: c in t.columns ==> Legible(c.name, MARK))
    && (clause.Some? ==> Readable(clause.value) && WellFormed(clause.value))
    && (orderBy.Some? ==> ReadableRep(orderBy.value) && WellFormedRep(orderBy.value))
  }

  /** What fetchAll asks for, as SQL reads it: the condition, the order and the limit that were given;
      but the offset is dropped unless there is a limit. */
  lemma FetchIsRead(t: QualifiedTable, clause: Option<Predicate>, orderBy: Option<Representable>, order: Order,
                    limit: Option<int>, offset: Option<int>)
    requires CanBeFetched(t, clause, orderBy)
    ensures var parts := QueryParts(Fetched(t, clause, orderBy, order, limit, offset));
            var s := ParseSelect(Sql(parts), Bindings(parts));
            && s.Some?
            && |s.value.columns| == |t.columns|
            && (forall i :: 0 <= i < |t.columns| ==> s.value.columns[i] == ColumnRef(Flat(t.columns[i].name)))
            && s.value.source == Source(FlatSchema(t.schema), Flat(t.name), None) && s.value.joins == []
            && s.value.condition == (if clause.None? then None else Some(Read(clause.value)))
            && s.value.order == (if orderBy.None? then [] else [(ReadRep(orderBy.value), order)])
            && s.value.limit == limit && s.value.offset == if limit.None? then None else offset
  {
    hide ParseSelect, SelectParts, Sql, Bindings, SelectMeant, LegibleTable, Legible, Readable, ReadableRep, WellFormed, WellFormedRep,
         Formed, LegibleSelect, HasColumns;
    var q := Fetched(t, clause, orderBy, order, limit, offset);
    FetchedIs(t, clause, orderBy, order, limit, offset);
    FetchedIsLegible(t, clause, orderBy, order, limit, offset);
    SelectIsRead([t], [], q.whereClauses, q.orderByColumns, q.limit, q.offset);
    FetchedIsMeant(t, clause, orderBy, order, limit, offset);
  }

  lemma FetchedIs(t: QualifiedTable, clause: Option<Predicate>, orderBy: Option<Representable>, order: Order,
                  limit: Option<int>, offset: Option<int>)
    ensures Fetched(t, clause, orderBy, order, limit, offset)
         == TableQuery(t, if clause.None? then [] else [clause.value], if orderBy.None? then [] else [(orderBy.value, order)],
                       limit, if limit.None? then None else offset)
  {
  }

  lemma FetchedIsLegible(t: QualifiedTable, clause: Option<Predicate>, orderBy: Option<Representable>, order: Order,
                         limit: Option<int>, offset: Option<int>)
    requires CanBeFetched(t, clause, orderBy)
    ensures var q := Fetched(t, clause, orderBy, order, limit, offset);
            && LegibleSelect([t], [], q.whereClauses, q.orderByColumns) && Formed([t], [], q.whereClauses, q.orderByColumns)
            && HasColumns([t]) && HasLimit(q.limit, q.offset)
  {
    hide LegibleTable, Legible, Readable, ReadableRep, WellFormed, WellFormedRep, Fetched;
    FetchedIs(t, clause, orderBy, order, limit, offset);
    assert t in [t];
  }

  lemma FetchedIsMeant(t: QualifiedTable, clause: Option<Predicate>, orderBy: Option<Representable>, order: Order,
                       limit: Option<int>, offset: Option<int>)
    requires CanBeFetched(t, clause, orderBy)
    ensures var q := Fetched(t, clause, orderBy, order, limit, offset);
            && Formed([t], [], q.whereClauses, q.orderByColumns)
            && var s := SelectMeant([t], [], q.whereClauses, q.orderByColumns, q.limit, q.offset);
            && |s.columns| == |t.columns|
            && (forall i :: 0 <= i < |t.columns| ==> s.columns[i] == ColumnRef(Flat(t.columns[i].name)))
            && s.source == Source(FlatSchema(t.schema), Flat(t.name), None) && s.joins == []
            && s.condition == (if clause.None? then None else Some(Read(clause.value)))
            && s.order == (if orderBy.None? then [] else [(ReadRep(orderBy.value), order)])
            && s.limit == limit && s.offset == if limit.None? then None else offset
  {
    hide LegibleTable, Legible, Readable, ReadableRep, WellFormed, WellFormedRep, Fetched, Flat, Read, ReadRep;
    FetchedIs(t, clause, orderBy, order, limit, offset);
    FetchedIsLegible(t, clause, orderBy, order, limit, offset);
    assert [t][1..] == [];
    assert AllColumns([t]) == TableColumns(t) + [] == TableColumns(t);
    MeantColumns(TableColumns(t));
    if orderBy.Some? {
      OneTerm(orderBy.value, order);
    }
  }

  lemma OneTerm(rep: Representable, order: Order)
    requires WellFormedRep(rep)
    ensures FormedOrder([(rep, order)]) && OrderMeant([(rep, order)]) == [(ReadRep(rep), order)]
  {
    hide ReadRep, WellFormedRep;
    var one := [(rep, order)];
    assert one[1..] == [] && OrderMeant([]) == [];
  }

  lemma {:induction false} MeantColumns(cs: seq<(SQLColumn, Option<string>)>)
    ensures |ColumnsMeant(cs)| == |cs| && forall i :: 0 <= i < |cs| ==> ColumnsMeant(cs)[i] == ColumnMeant(cs[i])
  {
    hide ColumnMeant;
    if cs != [] {
      MeantColumns(cs[1..]);
    }
  }
}

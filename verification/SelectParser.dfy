/** Reading SELECT statements with their values: the grammar of SQLite for the statements that are
    assembled. The words that are not reserved are known in upper case only. */
module SelectParser {
  import opened Wrappers
  import opened SqlExpression
  import opened SqlPredicate
  import opened SqlLexer
  import opened SqlParser
  import opened SqlQuery
  import opened StatementParser

  datatype Source = Source(schema: Option<string>, table: string, alias: Option<Token>)

  datatype Joined = Joined(kind: JoinKind, source: Source, condition: Option<Expr>)

  datatype Select = Select(columns: seq<Expr>, source: Source, joins: seq<Joined>, condition: Option<Expr>,
                           order: seq<(Expr, Order)>, limit: Option<int>, offset: Option<int>)

  // ---------- the grammar ----------

  /** Columns with commas between them. */
  function ParseColumns(ts: seq<Token>): (r: Option<(seq<Expr>, seq<Token>)>)
    ensures r.Some? ==> |r.value.1| < |ts|
    decreases |ts|
  {
    if ts == [] || !Identifier(ts[0]) then None else
      var r := ParseColumn(ts);
      if r.Fail? then None
      else if r.rest != [] && r.rest[0] == Comma then First(r.expr, ParseColumns(r.rest[1..]))
      else Some(([r.expr], r.rest))
  }

  function ParseSource(ts: seq<Token>): (r: Option<(Source, seq<Token>)>)
    ensures r.Some? ==> |r.value.1| < |ts|
  {
    var table := ParseTable(ts);
    if table.None? then None else
      var ((schema, name), rest) := table.value;
      if |rest| > 1 && rest[0] == Keyword("AS") && Identifier(rest[1]) then Some((Source(schema, name, Some(rest[1])), rest[2..]))
      else Some((Source(schema, name, None), rest))
  }

  function ParseKind(ts: seq<Token>): (r: Option<(JoinKind, seq<Token>)>)
    ensures r.Some? ==> |r.value.1| < |ts|
  {
    if |ts| > 2 && ts[1] == Word("OUTER") && ts[2] == Keyword("JOIN") then
      if ts[0] == Word("LEFT") then Some((LeftJoin, ts[3..]))
      else if ts[0] == Word("RIGHT") then Some((RightJoin, ts[3..]))
      else if ts[0] == Word("FULL") then Some((FullJoin, ts[3..]))
      else None
    else if |ts| > 1 && ts[1] == Keyword("JOIN") then
      if ts[0] == Word("INNER") then Some((InnerJoin, ts[2..]))
      else if ts[0] == Word("CROSS") then Some((CrossJoin, ts[2..]))
      else None
    else None
  }

  /** An expression behind a keyword, if the keyword is there. */
  function ParseClause(k: string, ts: seq<Token>): (r: Option<(Option<Expr>, seq<Token>)>)
    ensures r.Some? ==> |r.value.1| <= |ts|
  {
    if ts == [] || ts[0] != Keyword(k) then Some((None, ts)) else
      var r := ParseChain(Or, ts[1..]);
      if r.Fail? then None else Some((Some(r.expr), r.rest))
  }

  /** Tables that are joined to the ones before them. */
  function ParseJoins(ts: seq<Token>): Option<(seq<Joined>, seq<Token>)>
    decreases |ts|
  {
    var kind := ParseKind(ts);
    if kind.None? then Some(([], ts)) else
      var source := ParseSource(kind.value.1);
      if source.None? then None else
        var condition := ParseClause("ON", source.value.1);
        if condition.None? then None
        else First(Joined(kind.value.0, source.value.0, condition.value.0), ParseJoins(condition.value.1))
  }

  /** Expressions with directions, and commas between them. */
  function ParseTerms(ts: seq<Token>): Option<(seq<(Expr, Order)>, seq<Token>)>
    decreases |ts|
  {
    var r := ParseChain(Or, ts);
    if r.Fail? || r.rest == [] || (r.rest[0] != Word("ASC") && r.rest[0] != Word("DESC")) then None else
      var term := (r.expr, if r.rest[0] == Word("ASC") then Ascending else Descending);
      if |r.rest| > 1 && r.rest[1] == Comma then First(term, ParseTerms(r.rest[2..]))
      else Some(([term], r.rest[1..]))
  }

  function ParseOrder(ts: seq<Token>): Option<(seq<(Expr, Order)>, seq<Token>)> {
    if |ts| > 1 && ts[0] == Keyword("ORDER") && ts[1] == Word("BY") then ParseTerms(ts[2..]) else Some(([], ts))
  }

  function ParseInteger(ts: seq<Token>): Option<(int, seq<Token>)> {
    if |ts| > 0 && ts[0].Number? then Some((ts[0].number, ts[1..]))
    else if |ts| > 1 && ts[0] == Minus && ts[1].Number? then Some((0 - ts[1].number, ts[2..]))
    else None
  }

  /** A limit, and an offset only behind one. */
  function ParseLimit(ts: seq<Token>): Option<((Option<int>, Option<int>), seq<Token>)> {
    if ts == [] || ts[0] != Keyword("LIMIT") then Some(((None, None), ts)) else
      var limit := ParseInteger(ts[1..]);
      if limit.None? then None
      else if limit.value.1 == [] || limit.value.1[0] != Word("OFFSET") then Some(((Some(limit.value.0), None), limit.value.1))
      else
        var offset := ParseInteger(limit.value.1[1..]);
        if offset.None? then None else Some(((Some(limit.value.0), Some(offset.value.0)), offset.value.1))
  }

  /** What follows the tables. */
  function ParseEnd(columns: seq<Expr>, source: Source, joins: seq<Joined>, ts: seq<Token>): Option<Select> {
    var condition := ParseClause("WHERE", ts);
    if condition.None? then None else
      var order := ParseOrder(condition.value.1);
      if order.None? then None else
        var limits := ParseLimit(order.value.1);
        if limits.None? || limits.value.1 != [] then None
        else Some(Select(columns, source, joins, condition.value.0, order.value.0, limits.value.0.0, limits.value.0.1))
  }

  function ParseSelectTokens(ts: seq<Token>): Option<Select> {
    if ts == [] || ts[0] != Keyword("SELECT") then None else
      var columns := ParseColumns(ts[1..]);
      if columns.None? || columns.value.1 == [] || columns.value.1[0] != Keyword("FROM") then None else
        var source := ParseSource(columns.value.1[1..]);
        if source.None? then None else
          var joins := ParseJoins(source.value.1);
          if joins.None? then None else ParseEnd(columns.value.0, source.value.0, joins.value.0, joins.value.1)
  }

  function ParseSelect(sql: string, values: seq<Value>): Option<Select> {
    var ts := Lex(sql, values);
    if ts.None? then None else ParseSelectTokens(ts.value)
  }

  // ---------- what is read has the leaves of the statement ----------

  function SourceLeaves(s: Source): seq<Token> {
    TableLeaves(s.schema, s.table) + if s.alias.Some? then [s.alias.value] else []
  }

  function KindLeaves(k: JoinKind): seq<Token> {
    match k
    case LeftJoin => [Word("LEFT"), Word("OUTER")]
    case RightJoin => [Word("RIGHT"), Word("OUTER")]
    case FullJoin => [Word("FULL"), Word("OUTER")]
    case InnerJoin => [Word("INNER")]
    case CrossJoin => [Word("CROSS")]
  }

  function OptionLeaves(e: Option<Expr>): seq<Token> {
    if e.Some? then ExprLeaves(e.value) else []
  }

  function JoinLeaves(joins: seq<Joined>): seq<Token> {
    if joins == [] then []
    else KindLeaves(joins[0].kind) + SourceLeaves(joins[0].source) + OptionLeaves(joins[0].condition) + JoinLeaves(joins[1..])
  }

  function TermLeaves(order: seq<(Expr, Order)>): seq<Token> {
    if order == [] then []
    else ExprLeaves(order[0].0) + [Word(if order[0].1 == Ascending then "ASC" else "DESC")] + TermLeaves(order[1..])
  }

  function OrderLeaves(order: seq<(Expr, Order)>): seq<Token> {
    if order == [] then [] else [Word("BY")] + TermLeaves(order)
  }

  function OffsetLeaves(offset: Option<int>): seq<Token> {
    if offset.Some? then [Word("OFFSET")] else []
  }

  function EndLeaves(s: Select): seq<Token> {
    OptionLeaves(s.condition) + OrderLeaves(s.order) + OffsetLeaves(s.offset)
  }

  function SelectLeaves(s: Select): seq<Token> {
    AllLeaves(s.columns) + SourceLeaves(s.source) + JoinLeaves(s.joins) + EndLeaves(s)
  }

  lemma {:induction false} ColumnsKeep(ts: seq<Token>)
    requires ParseColumns(ts).Some?
    ensures var (es, rest) := ParseColumns(ts).value;
            Leaves(ts) == AllLeaves(es) + Leaves(rest)
    decreases |ts|
  {
    hide Leaves, ParseColumn, ExprLeaves;
    ColumnKeeps(ts);
    var r := ParseColumn(ts);
    LeavesOfOne(r.expr);
    assert [] + Leaves(ts) == Leaves(ts);
    if r.rest != [] && r.rest[0] == Comma {
      SkipLeaves(r.rest, 1);
      ColumnsKeep(r.rest[1..]);
      var (es, rest) := ParseColumns(r.rest[1..]).value;
      AllLeavesOfAppend([r.expr], es);
      Associate(ExprLeaves(r.expr), AllLeaves(es), Leaves(rest));
    }
  }

  lemma SourceKeeps(ts: seq<Token>)
    requires ParseSource(ts).Some?
    ensures var (s, rest) := ParseSource(ts).value;
            Leaves(ts) == SourceLeaves(s) + Leaves(rest)
  {
    hide Leaves, ParseTable, TableLeaves;
    TableKeeps(ts);
    var ((schema, name), rest) := ParseTable(ts).value;
    if |rest| > 1 && rest[0] == Keyword("AS") && Identifier(rest[1]) {
      assert rest[0..] == rest;
      LeafStep(rest, 0);
      LeafStep(rest, 1);
      Associate(TableLeaves(schema, name), [rest[1]], Leaves(rest[2..]));
    } else {
      assert TableLeaves(schema, name) + [] == TableLeaves(schema, name);
    }
  }

  lemma TwoLeaves(ts: seq<Token>, n: nat)
    requires 2 <= n <= 3 && n <= |ts| && ts[0].Word? && ts[n - 1] == Keyword("JOIN") && (n == 3 ==> ts[1].Word?)
    ensures Leaves(ts) == (if n == 2 then [ts[0]] else [ts[0], ts[1]]) + Leaves(ts[n..])
  {
    hide Leaves;
    assert ts[0..] == ts;
    LeafStep(ts, 0);
    LeafStep(ts, 1);
    if n == 3 {
      LeafStep(ts, 2);
      Associate([ts[0]], [ts[1]], Leaves(ts[3..]));
    }
  }

  lemma KindKeeps(ts: seq<Token>)
    requires ParseKind(ts).Some?
    ensures var (k, rest) := ParseKind(ts).value;
            Leaves(ts) == KindLeaves(k) + Leaves(rest)
  {
    hide Leaves;
    TwoLeaves(ts, if |ts| > 2 && ts[1] == Word("OUTER") && ts[2] == Keyword("JOIN") then 3 else 2);
  }

  lemma ClauseKeeps(k: string, ts: seq<Token>)
    requires ParseClause(k, ts).Some?
    ensures var (e, rest) := ParseClause(k, ts).value;
            Leaves(ts) == OptionLeaves(e) + Leaves(rest)
  {
    hide Leaves, ParseChain, ExprLeaves;
    if ts != [] && ts[0] == Keyword(k) {
      SkipLeaves(ts, 1);
      ChainKeeps(Or, ts[1..]);
      assert [] + Leaves(ts[1..]) == Leaves(ts[1..]);
    }
  }

  lemma {:induction false} JoinsKeep(ts: seq<Token>)
    requires ParseJoins(ts).Some?
    ensures var (joins, rest) := ParseJoins(ts).value;
            Leaves(ts) == JoinLeaves(joins) + Leaves(rest)
    decreases |ts|
  {
    hide Leaves, ParseKind, ParseSource, ParseClause, KindLeaves, SourceLeaves, OptionLeaves;
    var kind := ParseKind(ts);
    if kind.Some? {
      KindKeeps(ts);
      SourceKeeps(kind.value.1);
      var (source, tail) := ParseSource(kind.value.1).value;
      ClauseKeeps("ON", tail);
      var (condition, more) := ParseClause("ON", tail).value;
      JoinsKeep(more);
      var (joins, rest) := ParseJoins(more).value;
      assert ([Joined(kind.value.0, source, condition)] + joins)[1..] == joins;
      FourLeaves(KindLeaves(kind.value.0), SourceLeaves(source), OptionLeaves(condition), JoinLeaves(joins), Leaves(rest));
    }
  }

  lemma FourLeaves(a: seq<Token>, b: seq<Token>, c: seq<Token>, d: seq<Token>, e: seq<Token>)
    ensures a + (b + (c + (d + e))) == (a + b + c + d) + e
  {
  }

  lemma {:induction false} TermsKeep(ts: seq<Token>)
    requires ParseTerms(ts).Some?
    ensures var (terms, rest) := ParseTerms(ts).value;
            Leaves(ts) == TermLeaves(terms) + Leaves(rest)
    decreases |ts|
  {
    hide Leaves, ParseChain, ExprLeaves;
    ChainKeeps(Or, ts);
    var r := ParseChain(Or, ts);
    assert [] + Leaves(ts) == Leaves(ts);
    assert r.rest[0..] == r.rest;
    LeafStep(r.rest, 0);
    var term := (r.expr, if r.rest[0] == Word("ASC") then Ascending else Descending);
    if |r.rest| > 1 && r.rest[1] == Comma {
      LeafStep(r.rest, 1);
      assert [] + Leaves(r.rest[2..]) == Leaves(r.rest[2..]);
      TermsKeep(r.rest[2..]);
      var (terms, rest) := ParseTerms(r.rest[2..]).value;
      assert ([term] + terms)[1..] == terms;
      Associate(ExprLeaves(r.expr), [r.rest[0]], TermLeaves(terms) + Leaves(rest));
      Associate(ExprLeaves(r.expr) + [r.rest[0]], TermLeaves(terms), Leaves(rest));
    } else {
      assert [term][1..] == [];
      Associate(ExprLeaves(r.expr), [r.rest[0]], Leaves(r.rest[1..]));
      assert ExprLeaves(r.expr) + [r.rest[0]] + [] == ExprLeaves(r.expr) + [r.rest[0]];
    }
  }

  lemma OrderKeeps(ts: seq<Token>)
    requires ParseOrder(ts).Some?
    ensures var (terms, rest) := ParseOrder(ts).value;
            Leaves(ts) == OrderLeaves(terms) + Leaves(rest)
  {
    hide Leaves, TermLeaves;
    if |ts| > 1 && ts[0] == Keyword("ORDER") && ts[1] == Word("BY") {
      assert ts[0..] == ts;
      LeafStep(ts, 0);
      LeafStep(ts, 1);
      TermsKeep(ts[2..]);
      var (terms, rest) := ParseTerms(ts[2..]).value;
      Associate([ts[1]], TermLeaves(terms), Leaves(rest));
    }
  }

  lemma IntegerKeeps(ts: seq<Token>)
    requires ParseInteger(ts).Some?
    ensures Leaves(ts) == Leaves(ParseInteger(ts).value.1)
  {
    hide Leaves;
    if ts[0].Number? {
      SkipLeaves(ts, 1);
    } else {
      SkipLeaves(ts, 2);
    }
  }

  lemma LimitKeeps(ts: seq<Token>)
    requires ParseLimit(ts).Some?
    ensures var (limits, rest) := ParseLimit(ts).value;
            Leaves(ts) == OffsetLeaves(limits.1) + Leaves(rest)
  {
    hide Leaves, ParseInteger;
    if ts != [] && ts[0] == Keyword("LIMIT") {
      SkipLeaves(ts, 1);
      IntegerKeeps(ts[1..]);
      var rest := ParseInteger(ts[1..]).value.1;
      if rest != [] && rest[0] == Word("OFFSET") {
        assert rest[0..] == rest;
        LeafStep(rest, 0);
        IntegerKeeps(rest[1..]);
      }
    }
  }

  lemma EndKeeps(columns: seq<Expr>, source: Source, joins: seq<Joined>, ts: seq<Token>)
    requires ParseEnd(columns, source, joins, ts).Some?
    ensures Leaves(ts) == EndLeaves(ParseEnd(columns, source, joins, ts).value)
  {
    hide Leaves, ParseClause, ParseOrder, ParseLimit, OptionLeaves, OrderLeaves, OffsetLeaves;
    NoLeaves();
    ClauseKeeps("WHERE", ts);
    var (condition, more) := ParseClause("WHERE", ts).value;
    OrderKeeps(more);
    var (order, tail) := ParseOrder(more).value;
    LimitKeeps(tail);
    var (limits, rest) := ParseLimit(tail).value;
    assert OffsetLeaves(limits.1) + [] == OffsetLeaves(limits.1);
    Associate(OptionLeaves(condition), OrderLeaves(order), OffsetLeaves(limits.1));
  }

  /** A SELECT that tokens are read as has their names, words and values, in their order. */
  lemma SelectKeeps(ts: seq<Token>)
    requires ParseSelectTokens(ts).Some?
    ensures Leaves(ts) == SelectLeaves(ParseSelectTokens(ts).value)
  {
    hide Leaves, ParseColumns, ParseSource, ParseJoins, ParseEnd, AllLeaves, SourceLeaves, JoinLeaves, EndLeaves;
    SkipLeaves(ts, 1);
    ColumnsKeep(ts[1..]);
    var (columns, tail) := ParseColumns(ts[1..]).value;
    SkipLeaves(tail, 1);
    SourceKeeps(tail[1..]);
    var (source, more) := ParseSource(tail[1..]).value;
    JoinsKeep(more);
    var (joins, rest) := ParseJoins(more).value;
    EndKeeps(columns, source, joins, rest);
    var s := ParseEnd(columns, source, joins, rest).value;
    EndParts(columns, source, joins, rest);
    FourLeaves(AllLeaves(columns), SourceLeaves(source), JoinLeaves(joins), EndLeaves(s), []);
    assert AllLeaves(columns) + (SourceLeaves(source) + (JoinLeaves(joins) + EndLeaves(s)))
        == AllLeaves(columns) + SourceLeaves(source) + JoinLeaves(joins) + EndLeaves(s);
  }

  lemma EndParts(columns: seq<Expr>, source: Source, joins: seq<Joined>, ts: seq<Token>)
    requires ParseEnd(columns, source, joins, ts).Some?
    ensures var s := ParseEnd(columns, source, joins, ts).value;
            s.columns == columns && s.source == source && s.joins == joins
  {
  }
}

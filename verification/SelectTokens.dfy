/** The SELECT statement that is meant, and the tokens that are read as it. */
module SelectTokens {
  import opened Wrappers
  import opened SqlExpression
  import opened SqlPredicate
  import opened SqlLexer
  import opened SqlParser
  import opened SqlQuery
  import opened StatementParser
  import opened StatementReadBack
  import opened SelectParser

  // ---------- what is meant ----------

  /** The alias is read as one identifier; a table can have no other. */
  predicate SingleAlias(alias: string) {
    AliasRead(alias).Some? && |AliasTokens(alias)| == 1
  }

  function AliasToken(alias: string): Token {
    if SingleAlias(alias) then AliasTokens(alias)[0] else Word(alias)
  }

  function SourceMeant(t: QualifiedTable): Source {
    Source(FlatSchema(t.schema), Flat(t.name), if t.alias.Some? then Some(AliasToken(t.alias.value)) else None)
  }

  /** What stands in front of the columns of a table in a join condition. */
  function SourceQualifier(t: QualifiedTable): (q: seq<Token>)
    ensures t.alias.Some? ==> q == [AliasToken(t.alias.value)]
    ensures t.alias.None? && t.schema.None? ==> q == [Name(Flat(t.name))]
    ensures t.alias.None? && t.schema.Some? ==> q == [Name(Flat(t.schema.value)), Dot, Name(Flat(t.name))]
  {
    if t.alias.Some? then [AliasToken(t.alias.value)] else TableTokens(t.name, t.schema)
  }

  /** The columns of all the tables, with the aliases of their tables. */
  function AllColumns(tables: seq<QualifiedTable>): seq<(SQLColumn, Option<string>)> {
    if tables == [] then [] else TableColumns(tables[0]) + AllColumns(tables[1..])
  }

  function TableColumns(t: QualifiedTable): seq<(SQLColumn, Option<string>)> {
    seq(|t.columns|, i requires 0 <= i < |t.columns| => (t.columns[i], t.alias))
  }

  function ColumnMeant(c: (SQLColumn, Option<string>)): Expr {
    if c.1.Some? then QualifiedRef([AliasToken(c.1.value)], Flat(c.0.name)) else ColumnRef(Flat(c.0.name))
  }

  function ColumnsMeant(cs: seq<(SQLColumn, Option<string>)>): seq<Expr> {
    if cs == [] then [] else [ColumnMeant(cs[0])] + ColumnsMeant(cs[1..])
  }

  predicate FormedCondition(c: Option<JoinCondition>) {
    match c
    case Some(OnPredicate(p)) => WellFormed(p)
    case _ => true
  }

  /** A foreign key equals what it references, in whichever of the two tables the key is. */
  function ConditionMeant(c: JoinCondition, from: QualifiedTable, to: QualifiedTable): Expr
    requires FormedCondition(Some(c))
  {
    match c
    case OnPredicate(p) => Read(p)
    case OnColumn(column) =>
      if column.references.None? then Const(Long(1))
      else
        var (owner, other) := if column in from.columns then (from, to) else (to, from);
        Comparison(QualifiedRef(SourceQualifier(other), Flat(column.references.value)), Eq,
                   QualifiedRef(SourceQualifier(owner), Flat(column.name)))
  }

  /** The conditions from the i-th on have no empty AND, OR or tuple. */
  predicate FormedJoins(joins: seq<JoinClause>, i: nat, n: nat)
    requires 1 <= i <= n <= |joins| + 1
  {
    forall k :: i - 1 <= k < n - 1 ==> FormedCondition(joins[k].condition)
  }

  /** The tables from the i-th on, with what joins each of them to the one before it. */
  function JoinsMeant(tables: seq<QualifiedTable>, joins: seq<JoinClause>, i: nat): seq<Joined>
    requires 1 <= i <= |tables| <= |joins| + 1 && FormedJoins(joins, i, |tables|)
    decreases |tables| - i
  {
    if i == |tables| then [] else [JoinMeant(tables, joins, i)] + JoinsMeant(tables, joins, i + 1)
  }

  function JoinMeant(tables: seq<QualifiedTable>, joins: seq<JoinClause>, i: nat): Joined
    requires 1 <= i < |tables| <= |joins| + 1 && FormedCondition(joins[i - 1].condition)
  {
    var condition := joins[i - 1].condition;
    Joined(joins[i - 1].kind, SourceMeant(tables[i]),
           if condition.None? then None else Some(ConditionMeant(condition.value, tables[i - 1], tables[i])))
  }

  predicate FormedClauses(clauses: seq<Predicate>) {
    forall p :: p in clauses ==> WellFormed(p)
  }

  /** All the clauses together, if there are any. */
  function WhereMeant(clauses: seq<Predicate>): Option<Expr>
    requires FormedClauses(clauses)
  {
    if clauses == [] then None else if |clauses| == 1 then Some(Read(clauses[0])) else Some(Chain(And, ReadAll(clauses)))
  }

  predicate FormedOrder(orderBy: seq<(Representable, Order)>) {
    forall x :: x in orderBy ==> WellFormedRep(x.0)
  }

  function OrderMeant(orderBy: seq<(Representable, Order)>): seq<(Expr, Order)>
    requires FormedOrder(orderBy)
  {
    if orderBy == [] then [] else [(ReadRep(orderBy[0].0), orderBy[0].1)] + OrderMeant(orderBy[1..])
  }

  // ---------- its tokens ----------

  function ColumnTokens(c: (SQLColumn, Option<string>)): seq<Token> {
    (if c.1.Some? then [AliasToken(c.1.value), Dot] else []) + [Name(Flat(c.0.name))]
  }

  function ColumnsTokens(cs: seq<(SQLColumn, Option<string>)>): seq<Token> {
    if cs == [] then [] else ColumnTokens(cs[0]) + if |cs| == 1 then [] else [Comma] + ColumnsTokens(cs[1..])
  }

  function SourceTokens(t: QualifiedTable): seq<Token> {
    TableTokens(t.name, t.schema) + if t.alias.Some? then [Keyword("AS"), AliasToken(t.alias.value)] else []
  }

  function KindTokens(kind: JoinKind): seq<Token> {
    match kind
    case LeftJoin => [Word("LEFT"), Word("OUTER"), Keyword("JOIN")]
    case RightJoin => [Word("RIGHT"), Word("OUTER"), Keyword("JOIN")]
    case FullJoin => [Word("FULL"), Word("OUTER"), Keyword("JOIN")]
    case InnerJoin => [Word("INNER"), Keyword("JOIN")]
    case CrossJoin => [Word("CROSS"), Keyword("JOIN")]
  }

  function KeyTokens(q: seq<Token>, c: string, owner: seq<Token>, key: string): seq<Token> {
    q + [Dot] + [Name(c)] + ([Symbol(Eq)] + (owner + [Dot] + [Name(key)]))
  }

  function ConditionTokens(c: JoinCondition, from: QualifiedTable, to: QualifiedTable): seq<Token> {
    match c
    case OnPredicate(p) => Tokens(p)
    case OnColumn(column) =>
      if column.references.None? then [Param(Long(1))]
      else if column in from.columns then
        KeyTokens(SourceQualifier(to), Flat(column.references.value), SourceQualifier(from), Flat(column.name))
      else
        KeyTokens(SourceQualifier(from), Flat(column.references.value), SourceQualifier(to), Flat(column.name))
  }

  function OnTokens(c: Option<JoinCondition>, from: QualifiedTable, to: QualifiedTable): seq<Token> {
    if c.None? then [] else [Keyword("ON")] + ConditionTokens(c.value, from, to)
  }

  function JoinTokens(tables: seq<QualifiedTable>, joins: seq<JoinClause>, i: nat): seq<Token>
    requires 1 <= i < |tables| <= |joins| + 1
  {
    KindTokens(joins[i - 1].kind) + SourceTokens(tables[i]) + OnTokens(joins[i - 1].condition, tables[i - 1], tables[i])
  }

  function JoinsTokens(tables: seq<QualifiedTable>, joins: seq<JoinClause>, i: nat): seq<Token>
    requires 1 <= i <= |tables| <= |joins| + 1
    decreases |tables| - i
  {
    if i == |tables| then [] else JoinTokens(tables, joins, i) + JoinsTokens(tables, joins, i + 1)
  }

  function WhereTokens(clauses: seq<Predicate>): seq<Token> {
    if clauses == [] then [] else [Keyword("WHERE")] + Tokens(Compound(And, clauses))
  }

  function DirectionToken(o: Order): Token {
    Word(if o.Ascending? then "ASC" else "DESC")
  }

  function TermTokens(orderBy: seq<(Representable, Order)>): seq<Token> {
    if orderBy == [] then []
    else RepTokens(orderBy[0].0) + ([DirectionToken(orderBy[0].1)] + if |orderBy| == 1 then [] else [Comma] + TermTokens(orderBy[1..]))
  }

  function OrderTokens(orderBy: seq<(Representable, Order)>): seq<Token> {
    if orderBy == [] then [] else [Keyword("ORDER"), Word("BY")] + TermTokens(orderBy)
  }

  function IntegerTokens(n: int): seq<Token> {
    if n < 0 then [Minus, Number(-n)] else [Number(n)]
  }

  function LimitTokens(limit: Option<int>): seq<Token> {
    if limit.None? then [] else [Keyword("LIMIT")] + IntegerTokens(limit.value)
  }

  function OffsetTokens(offset: Option<int>): seq<Token> {
    if offset.None? then [] else [Word("OFFSET")] + IntegerTokens(offset.value)
  }

  function EndTokens(clauses: seq<Predicate>, orderBy: seq<(Representable, Order)>, limit: Option<int>, offset: Option<int>): seq<Token> {
    WhereTokens(clauses) + (OrderTokens(orderBy) + (LimitTokens(limit) + OffsetTokens(offset)))
  }

  // ---------- columns and tables ----------

  /** Tokens that follow tables and conditions: no part of either. */
  predicate Onward(ts: seq<Token>) {
    || ts == []
    || (ts[0].Keyword? && ts[0].keyword in ["FROM", "WHERE", "ORDER", "LIMIT"])
    || (ts[0].Word? && |ts| > 1 && ts[1] != Dot)
  }

  lemma OnwardCloses(ts: seq<Token>)
    requires Onward(ts)
    ensures Closes(ts) && NoDot(ts) && (ts == [] || (ts[0] != Keyword("AS") && ts[0] != Keyword("ON") && ts[0] != Comma))
  {
  }

  lemma AliasTokenIs(alias: string)
    ensures Identifier(AliasToken(alias))
  {
    hide Lex;
    if SingleAlias(alias) {
      AliasIsQualifier(alias);
    }
  }

  lemma QualifierIs(t: QualifiedTable)
    ensures IsQualifier(SourceQualifier(t))
  {
    hide AliasToken, Flat;
    if t.alias.Some? {
      AliasTokenIs(t.alias.value);
    }
  }

  lemma ColumnFirst(c: (SQLColumn, Option<string>), rest: seq<Token>)
    requires NoDot(rest)
    ensures var ts := ColumnTokens(c) + rest;
            ts != [] && Identifier(ts[0]) && ParseColumn(ts) == Done(ColumnMeant(c), rest)
  {
    hide AliasToken, Flat;
    var ts := ColumnTokens(c) + rest;
    if c.1.Some? {
      AliasTokenIs(c.1.value);
      var q := [AliasToken(c.1.value)];
      ColumnOfQualified(q, Flat(c.0.name), rest);
      assert ts == q + [Dot] + [Name(Flat(c.0.name))] + rest;
    } else {
      assert ts[0] == Name(Flat(c.0.name)) && ts[1..] == rest;
    }
  }

  lemma ColumnsAre(cs: seq<(SQLColumn, Option<string>)>)
    requires cs != []
    ensures ColumnsTokens(cs) == ColumnTokens(cs[0]) + if |cs| == 1 then [] else [Comma] + ColumnsTokens(cs[1..])
    ensures ColumnsMeant(cs) == [ColumnMeant(cs[0])] + ColumnsMeant(cs[1..]) && ColumnsMeant([]) == []
  {
    hide ColumnTokens, ColumnMeant;
  }

  lemma ColumnsUnfold(cs: seq<(SQLColumn, Option<string>)>, tail: seq<Token>)
    requires cs != []
    ensures ColumnsTokens(cs) + tail
         == ColumnTokens(cs[0]) + if |cs| == 1 then tail else [Comma] + (ColumnsTokens(cs[1..]) + tail)
    ensures ColumnsMeant(cs) == if |cs| == 1 then [ColumnMeant(cs[0])] else [ColumnMeant(cs[0])] + ColumnsMeant(cs[1..])
  {
    hide ColumnTokens, ColumnMeant, ColumnsTokens, ColumnsMeant;
    ColumnsAre(cs);
    var rest := ColumnsTokens(cs[1..]);
    if |cs| == 1 {
      assert cs[1..] == [];
      assert ColumnTokens(cs[0]) + [] == ColumnTokens(cs[0]) && [ColumnMeant(cs[0])] + [] == [ColumnMeant(cs[0])];
    } else {
      Associate(ColumnTokens(cs[0]), [Comma] + rest, tail);
      Associate([Comma], rest, tail);
    }
  }

  lemma {:induction false} ColumnsAreRead(cs: seq<(SQLColumn, Option<string>)>, tail: seq<Token>)
    requires cs != [] && Onward(tail)
    ensures ParseColumns(ColumnsTokens(cs) + tail) == Some((ColumnsMeant(cs), tail))
  {
    hide ColumnTokens, ColumnMeant, ParseColumn, ColumnsTokens, ColumnsMeant;
    OnwardCloses(tail);
    ColumnsUnfold(cs, tail);
    var rest := ColumnsTokens(cs[1..]) + tail;
    if |cs| == 1 {
      ColumnFirst(cs[0], tail);
    } else {
      ColumnsAreRead(cs[1..], tail);
      ColumnFirst(cs[0], [Comma] + rest);
      assert ([Comma] + rest)[1..] == rest;
    }
  }

  lemma SourceIsRead(t: QualifiedTable, tail: seq<Token>)
    requires NoDot(tail) && (tail != [] ==> tail[0] != Keyword("AS"))
    ensures ParseSource(SourceTokens(t) + tail) == Some((SourceMeant(t), tail))
  {
    hide AliasToken, TableTokens, ParseTable, Flat;
    var table := TableTokens(t.name, t.schema);
    if t.alias.Some? {
      var alias := AliasToken(t.alias.value);
      AliasTokenIs(t.alias.value);
      var rest := [Keyword("AS"), alias] + tail;
      TableRead(t.name, t.schema, rest);
      assert SourceTokens(t) + tail == table + rest;
      assert rest[2..] == tail;
    } else {
      TableRead(t.name, t.schema, tail);
      assert SourceTokens(t) + tail == table + tail;
    }
  }

  // ---------- joins ----------

  lemma ChainOfPredicate(p: Predicate, rest: seq<Token>)
    requires Closes(rest)
    ensures ParseChain(Or, Tokens(p) + rest) == Result(p, rest)
  {
    hide ParseNot, ParseChain, Tokens;
    NotOfPredicate(p, rest);
    ChainOfOne(Tokens(p) + rest);
  }

  lemma OnwardOrNot(ts: seq<Token>)
    requires Closes(ts)
    ensures NoDot(ts)
  {
  }

  lemma ChainOfKeys(q: seq<Token>, c: string, owner: seq<Token>, key: string, rest: seq<Token>)
    requires IsQualifier(q) && IsQualifier(owner) && Closes(rest)
    ensures ParseChain(Or, KeyTokens(q, c, owner, key) + rest)
         == Done(Comparison(QualifiedRef(q, c), Eq, QualifiedRef(owner, key)), rest)
  {
    hide ParseChain, ParseOperand, ParseColumn;
    var right := owner + [Dot] + [Name(key)] + rest;
    var tail := [Symbol(Eq)] + right;
    var ts := KeyTokens(q, c, owner, key) + rest;
    assert ts == q + [Dot] + [Name(c)] + tail;
    assert tail[1..] == right;
    OnwardOrNot(rest);
    ColumnOfQualified(q, c, tail);
    ColumnOfQualified(owner, key, rest);
    assert ParseTail(QualifiedRef(q, c), tail) == ParseRight(QualifiedRef(q, c), Eq, right);
    ChainOfOne(ts);
  }

  lemma ConditionIsRead(c: JoinCondition, from: QualifiedTable, to: QualifiedTable, rest: seq<Token>)
    requires Closes(rest)
    ensures ParseChain(Or, ConditionTokens(c, from, to) + rest)
         == if FormedCondition(Some(c)) then Done(ConditionMeant(c, from, to), rest) else Fail
  {
    hide ParseChain, SourceQualifier, Flat, Tokens, Read;
    match c
    case OnPredicate(p) =>
      ChainOfPredicate(p, rest);
    case OnColumn(column) =>
      QualifierIs(from);
      QualifierIs(to);
      if column.references.None? {
        ExprOfRep(Val(Long(1)), rest);
      } else if column in from.columns {
        ChainOfKeys(SourceQualifier(to), Flat(column.references.value), SourceQualifier(from), Flat(column.name), rest);
      } else {
        ChainOfKeys(SourceQualifier(from), Flat(column.references.value), SourceQualifier(to), Flat(column.name), rest);
      }
  }

  lemma KindIsRead(kind: JoinKind, rest: seq<Token>)
    ensures ParseKind(KindTokens(kind) + rest) == Some((kind, rest))
  {
    var ts := KindTokens(kind) + rest;
    assert ts[|KindTokens(kind)|..] == rest;
  }

  lemma OnIsRead(c: Option<JoinCondition>, from: QualifiedTable, to: QualifiedTable, rest: seq<Token>)
    requires Onward(rest)
    ensures ParseClause("ON", OnTokens(c, from, to) + rest)
         == if !FormedCondition(c) then None
            else if c.None? then Some((None, rest))
            else Some((Some(ConditionMeant(c.value, from, to)), rest))
  {
    hide ParseChain, ConditionTokens, ConditionMeant;
    OnwardCloses(rest);
    if c.None? {
      assert OnTokens(c, from, to) + rest == rest;
    } else {
      ConditionIsRead(c.value, from, to, rest);
      assert (OnTokens(c, from, to) + rest)[1..] == ConditionTokens(c.value, from, to) + rest;
    }
  }

  lemma JoinFirst(tables: seq<QualifiedTable>, joins: seq<JoinClause>, i: nat, rest: seq<Token>)
    requires 1 <= i < |tables| <= |joins| + 1 && Onward(rest)
    ensures ParseJoins(JoinTokens(tables, joins, i) + rest)
         == if FormedCondition(joins[i - 1].condition) then First(JoinMeant(tables, joins, i), ParseJoins(rest)) else None
  {
    hide ParseKind, ParseSource, ParseClause, KindTokens, SourceTokens, SourceMeant, ConditionTokens, ConditionMeant, FormedCondition;
    var kind, t, c := joins[i - 1].kind, tables[i], joins[i - 1].condition;
    var on := OnTokens(c, tables[i - 1], t) + rest;
    OnwardCloses(rest);
    assert JoinTokens(tables, joins, i) + rest == KindTokens(kind) + (SourceTokens(t) + on);
    KindIsRead(kind, SourceTokens(t) + on);
    SourceIsRead(t, on);
    OnIsRead(c, tables[i - 1], t, rest);
  }

  lemma JoinOnward(tables: seq<QualifiedTable>, joins: seq<JoinClause>, i: nat, rest: seq<Token>)
    requires 1 <= i < |tables| <= |joins| + 1
    ensures Onward(JoinTokens(tables, joins, i) + rest)
  {
    hide SourceTokens, OnTokens;
    assert (JoinTokens(tables, joins, i) + rest)[..2] == KindTokens(joins[i - 1].kind)[..2];
  }

  lemma {:induction false} JoinsAreRead(tables: seq<QualifiedTable>, joins: seq<JoinClause>, i: nat, tail: seq<Token>)
    requires 1 <= i <= |tables| <= |joins| + 1
    requires Onward(tail) && ParseKind(tail) == None
    ensures Onward(JoinsTokens(tables, joins, i) + tail)
    ensures ParseJoins(JoinsTokens(tables, joins, i) + tail)
         == if FormedJoins(joins, i, |tables|) then Some((JoinsMeant(tables, joins, i), tail)) else None
    decreases |tables| - i
  {
    hide JoinTokens, JoinMeant, ParseKind, FormedCondition, Onward;
    if i == |tables| {
      assert [] + tail == tail;
    } else {
      var rest := JoinsTokens(tables, joins, i + 1) + tail;
      JoinsAreRead(tables, joins, i + 1, tail);
      JoinFirst(tables, joins, i, rest);
      JoinOnward(tables, joins, i, rest);
      Associate(JoinTokens(tables, joins, i), JoinsTokens(tables, joins, i + 1), tail);
      assert FormedJoins(joins, i, |tables|) <==> FormedCondition(joins[i - 1].condition) && FormedJoins(joins, i + 1, |tables|);
    }
  }

  // ---------- what follows the tables ----------

  lemma IntegerIsRead(n: int, rest: seq<Token>)
    ensures ParseInteger(IntegerTokens(n) + rest) == Some((n, rest))
  {
    assert (IntegerTokens(n) + rest)[|IntegerTokens(n)|..] == rest;
  }

  /** An offset without a limit is left over. */
  lemma LimitIsRead(limit: Option<int>, offset: Option<int>)
    ensures ParseLimit(LimitTokens(limit) + OffsetTokens(offset))
         == Some(if limit.None? then ((None, None), OffsetTokens(offset)) else ((limit, offset), []))
    ensures Onward(LimitTokens(limit) + OffsetTokens(offset))
  {
    hide ParseInteger;
    var ts, more := LimitTokens(limit) + OffsetTokens(offset), OffsetTokens(offset);
    if limit.None? {
      assert ts == more;
    } else {
      assert ts[1..] == IntegerTokens(limit.value) + more;
      IntegerIsRead(limit.value, more);
    }
    if offset.Some? {
      assert more[1..] == IntegerTokens(offset.value) + [];
      IntegerIsRead(offset.value, []);
    }
  }

  lemma TermsAre(orderBy: seq<(Representable, Order)>)
    requires orderBy != []
    ensures TermTokens(orderBy)
         == RepTokens(orderBy[0].0) + ([DirectionToken(orderBy[0].1)] + if |orderBy| == 1 then [] else [Comma] + TermTokens(orderBy[1..]))
  {
    hide RepTokens, DirectionToken;
  }

  lemma TermsUnfold(orderBy: seq<(Representable, Order)>, tail: seq<Token>)
    requires orderBy != []
    ensures var (rep, o) := orderBy[0];
            TermTokens(orderBy) + tail
            == RepTokens(rep) + ([DirectionToken(o)] + if |orderBy| == 1 then tail else [Comma] + (TermTokens(orderBy[1..]) + tail))
  {
    hide RepTokens, DirectionToken, TermTokens;
    TermsAre(orderBy);
    var own, o, rest := RepTokens(orderBy[0].0), [DirectionToken(orderBy[0].1)], TermTokens(orderBy[1..]);
    var more := if |orderBy| == 1 then [] else [Comma] + rest;
    Associate(own, o + more, tail);
    Associate(o, more, tail);
    if |orderBy| == 1 {
      assert more + tail == tail;
    } else {
      Associate([Comma], rest, tail);
    }
  }

  lemma OrderUnfolds(orderBy: seq<(Representable, Order)>)
    requires orderBy != []
    ensures FormedOrder(orderBy) <==> WellFormedRep(orderBy[0].0) && FormedOrder(orderBy[1..])
    ensures FormedOrder(orderBy) ==> OrderMeant(orderBy) == [(ReadRep(orderBy[0].0), orderBy[0].1)] + OrderMeant(orderBy[1..])
    ensures |orderBy| == 1 ==> OrderMeant(orderBy[1..]) == []
  {
    hide ReadRep, WellFormedRep;
    assert orderBy == [orderBy[0]] + orderBy[1..];
  }

  /** A term is an expression and its direction. */
  lemma TermFirst(term: (Representable, Order), tail: seq<Token>)
    requires Onward(tail) || (tail != [] && tail[0] == Comma)
    ensures var rest := [DirectionToken(term.1)] + tail;
            ParseChain(Or, RepTokens(term.0) + rest) == RepResult(term.0, rest)
  {
    hide ParseChain, RepTokens, RepResult;
    ExprOfRep(term.0, [DirectionToken(term.1)] + tail);
  }

  lemma {:induction false} TermsAreRead(orderBy: seq<(Representable, Order)>, tail: seq<Token>)
    requires orderBy != [] && Onward(tail)
    ensures ParseTerms(TermTokens(orderBy) + tail) == if FormedOrder(orderBy) then Some((OrderMeant(orderBy), tail)) else None
  {
    hide ParseChain, RepTokens, ReadRep, WellFormedRep, OrderMeant, FormedOrder, TermTokens;
    OnwardCloses(tail);
    TermsUnfold(orderBy, tail);
    OrderUnfolds(orderBy);
    var more := TermTokens(orderBy[1..]) + tail;
    var behind := if |orderBy| == 1 then tail else [Comma] + more;
    var rest := [DirectionToken(orderBy[0].1)] + behind;
    TermFirst(orderBy[0], behind);
    assert rest[1..] == behind;
    if |orderBy| > 1 {
      TermsAreRead(orderBy[1..], tail);
      assert rest[2..] == more;
    } else {
      NoOrder();
      assert orderBy[1..] == [];
      assert WellFormedRep(orderBy[0].0) ==> OrderMeant(orderBy) == [(ReadRep(orderBy[0].0), orderBy[0].1)];
    }
  }

  lemma OrderIsRead(orderBy: seq<(Representable, Order)>, tail: seq<Token>)
    requires Onward(tail) && (tail != [] ==> tail[0] != Keyword("ORDER"))
    ensures ParseOrder(OrderTokens(orderBy) + tail) == if FormedOrder(orderBy) then Some((OrderMeant(orderBy), tail)) else None
    ensures Onward(OrderTokens(orderBy) + tail)
  {
    hide TermTokens, ParseTerms, OrderMeant;
    var ts := OrderTokens(orderBy) + tail;
    if orderBy == [] {
      assert ts == tail;
      NoOrder();
    } else {
      TermsAreRead(orderBy, tail);
      assert ts[2..] == TermTokens(orderBy) + tail;
      assert ts[0] == Keyword("ORDER") && ts[1] == Word("BY");
    }
  }

  lemma NoOrder()
    ensures FormedOrder([]) && OrderMeant([]) == []
  {
  }

  lemma WhereIsRead(clauses: seq<Predicate>, tail: seq<Token>)
    requires Onward(tail) && (tail != [] ==> tail[0] != Keyword("WHERE"))
    ensures ParseClause("WHERE", WhereTokens(clauses) + tail)
         == if FormedClauses(clauses) then Some((WhereMeant(clauses), tail)) else None
    ensures Onward(WhereTokens(clauses) + tail)
  {
    hide ParseChain, Tokens;
    OnwardCloses(tail);
    var ts := WhereTokens(clauses) + tail;
    if clauses == [] {
      assert ts == tail;
    } else {
      ChainOfPredicate(Compound(And, clauses), tail);
      assert ts[1..] == Tokens(Compound(And, clauses)) + tail;
      if |clauses| == 1 && WellFormed(clauses[0]) {
        assert clauses == [clauses[0]] && ReadAll(clauses)[0] == Read(clauses[0]);
      }
    }
  }

  predicate HasLimit(limit: Option<int>, offset: Option<int>) {
    offset.Some? ==> limit.Some?
  }

  lemma EndIsRead(columns: seq<Expr>, source: Source, joined: seq<Joined>, clauses: seq<Predicate>,
                  orderBy: seq<(Representable, Order)>, limit: Option<int>, offset: Option<int>)
    ensures var ts := EndTokens(clauses, orderBy, limit, offset);
            && Onward(ts) && ParseKind(ts) == None
            && ParseEnd(columns, source, joined, ts)
               == if FormedClauses(clauses) && FormedOrder(orderBy) && HasLimit(limit, offset)
                  then Some(Select(columns, source, joined, WhereMeant(clauses), OrderMeant(orderBy), limit, offset)) else None
  {
    hide ParseClause, ParseOrder, ParseLimit, WhereMeant, OrderMeant, FormedClauses, FormedOrder;
    var numbers := LimitTokens(limit) + OffsetTokens(offset);
    LimitIsRead(limit, offset);
    var order := OrderTokens(orderBy) + numbers;
    OrderIsRead(orderBy, numbers);
    WhereIsRead(clauses, order);
    NoKind(clauses, orderBy, limit, offset);
  }

  lemma NoKind(clauses: seq<Predicate>, orderBy: seq<(Representable, Order)>, limit: Option<int>, offset: Option<int>)
    ensures ParseKind(EndTokens(clauses, orderBy, limit, offset)) == None
  {
    hide Tokens, TermTokens;
    var ts := EndTokens(clauses, orderBy, limit, offset);
    if clauses == [] {
      assert ts == OrderTokens(orderBy) + (LimitTokens(limit) + OffsetTokens(offset));
      if orderBy == [] {
        assert ts == LimitTokens(limit) + OffsetTokens(offset);
        if limit.None? {
          assert ts == OffsetTokens(offset);
        }
      }
    }
  }

  // ---------- the whole statement ----------

  /** No AND, no OR and no tuple in the query is empty. */
  predicate Formed(tables: seq<QualifiedTable>, joins: seq<JoinClause>, clauses: seq<Predicate>, orderBy: seq<(Representable, Order)>)
    requires 1 <= |tables| <= |joins| + 1
  {
    FormedJoins(joins, 1, |tables|) && FormedClauses(clauses) && FormedOrder(orderBy)
  }

  function SelectMeant(tables: seq<QualifiedTable>, joins: seq<JoinClause>, clauses: seq<Predicate>,
                       orderBy: seq<(Representable, Order)>, limit: Option<int>, offset: Option<int>): Select
    requires 1 <= |tables| <= |joins| + 1 && Formed(tables, joins, clauses, orderBy)
  {
    Select(ColumnsMeant(AllColumns(tables)), SourceMeant(tables[0]), JoinsMeant(tables, joins, 1), WhereMeant(clauses),
           OrderMeant(orderBy), limit, offset)
  }

  function HeadTokens(tables: seq<QualifiedTable>): seq<Token> {
    [Keyword("SELECT")] + ColumnsTokens(AllColumns(tables)) + [Keyword("FROM")]
  }

  function TokensOfSelect(tables: seq<QualifiedTable>, joins: seq<JoinClause>, clauses: seq<Predicate>,
                        orderBy: seq<(Representable, Order)>, limit: Option<int>, offset: Option<int>): seq<Token>
    requires 1 <= |tables| <= |joins| + 1
  {
    HeadTokens(tables) + (SourceTokens(tables[0]) + (JoinsTokens(tables, joins, 1) + EndTokens(clauses, orderBy, limit, offset)))
  }

  predicate HasColumns(tables: seq<QualifiedTable>) {
    exists t :: t in tables && t.columns != []
  }

  lemma {:induction false} ColumnsThere(tables: seq<QualifiedTable>)
    ensures AllColumns(tables) != [] <==> HasColumns(tables)
  {
    if tables != [] {
      ColumnsThere(tables[1..]);
      assert tables == [tables[0]] + tables[1..];
    }
  }

  /** The tokens are a statement, the one that is meant, exactly if it has a column, an offset comes
      with a limit, and no AND, OR or tuple is empty. */
  lemma SelectOfTokens(tables: seq<QualifiedTable>, joins: seq<JoinClause>, clauses: seq<Predicate>,
                       orderBy: seq<(Representable, Order)>, limit: Option<int>, offset: Option<int>)
    requires 1 <= |tables| <= |joins| + 1
    ensures ParseSelectTokens(TokensOfSelect(tables, joins, clauses, orderBy, limit, offset))
         == if HasColumns(tables) && HasLimit(limit, offset) && Formed(tables, joins, clauses, orderBy)
            then Some(SelectMeant(tables, joins, clauses, orderBy, limit, offset)) else None
  {
    hide ParseColumns, ParseSource, ParseJoins, ParseEnd, ParseKind, ColumnsTokens, ColumnsMeant, SourceTokens, SourceMeant, JoinsTokens,
         JoinsMeant, EndTokens, WhereMeant, OrderMeant, FormedJoins, FormedClauses, FormedOrder, HasColumns, HasLimit, AllColumns, Onward;
    var end := EndTokens(clauses, orderBy, limit, offset);
    var cs := AllColumns(tables);
    var columns, source := ColumnsMeant(cs), SourceMeant(tables[0]);
    var from := SourceTokens(tables[0]) + (JoinsTokens(tables, joins, 1) + end);
    var ts := TokensOfSelect(tables, joins, clauses, orderBy, limit, offset);
    EndIsRead(columns, source, [], clauses, orderBy, limit, offset);
    JoinsAreRead(tables, joins, 1, end);
    OnwardCloses(JoinsTokens(tables, joins, 1) + end);
    SourceIsRead(tables[0], JoinsTokens(tables, joins, 1) + end);
    ColumnsThere(tables);
    var tail := [Keyword("FROM")] + from;
    FromGoesOn(from);
    assert tail[1..] == from;
    assert ts[1..] == ColumnsTokens(cs) + tail;
    if cs != [] {
      ColumnsAreRead(cs, tail);
      if FormedJoins(joins, 1, |tables|) {
        EndIsRead(columns, source, JoinsMeant(tables, joins, 1), clauses, orderBy, limit, offset);
      }
    } else {
      NoColumns(tail);
    }
  }

  lemma FromGoesOn(ts: seq<Token>)
    ensures Onward([Keyword("FROM")] + ts)
  {
  }

  lemma NoColumns(tail: seq<Token>)
    requires tail != [] && tail[0] == Keyword("FROM")
    ensures ParseColumns(ColumnsTokens([]) + tail) == None
  {
    assert ColumnsTokens([]) + tail == tail;
  }

  /** Whatever is read has columns, and an offset only with a limit. */
  lemma ReadHasParts(ts: seq<Token>)
    requires ParseSelectTokens(ts).Some?
    ensures var s := ParseSelectTokens(ts).value; s.columns != [] && HasLimit(s.limit, s.offset)
  {
    hide ParseSource, ParseJoins, ParseClause, ParseOrder, ParseInteger;
    SomeColumns(ts[1..]);
  }

  lemma SomeColumns(ts: seq<Token>)
    requires ParseColumns(ts).Some?
    ensures ParseColumns(ts).value.0 != []
  {
  }
}

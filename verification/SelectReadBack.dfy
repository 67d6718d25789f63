/** What SQL reads in an assembled SELECT statement. */
module SelectReadBack {
  import opened Wrappers
  import opened SqlExpression
  import opened SqlPredicate
  import opened SqlLexer
  import opened SqlParser
  import opened SqlQuery
  import opened StatementParser
  import opened StatementReadBack
  import opened SelectParser
  import opened SelectTokens

  // ---------- words and numbers ----------

  /** The words of a SELECT that are not reserved. */
  predicate SelectWord(w: string) {
    w in ["LEFT", "RIGHT", "FULL", "OUTER", "INNER", "CROSS", "BY", "ASC", "DESC", "OFFSET"]
  }

  lemma SelectWordIsUpper(w: string)
    requires SelectWord(w)
    ensures AllUpper(w)
  {
  }

  lemma SelectWordIsNoOperator(w: string)
    requires SelectWord(w)
    ensures !IsOperatorWord(w)
  {
  }

  lemma SelectWordIsNoStatementWord(w: string)
    requires SelectWord(w)
    ensures !IsStatementWord(w)
  {
  }

  lemma SelectWordIsNotToD(w: string)
    requires SelectWord(w)
    ensures !ReservedToD(w)
  {
  }

  lemma JoinWordIsNotFromE(w: string)
    requires w in ["LEFT", "RIGHT", "FULL", "OUTER", "INNER", "CROSS"]
    ensures !ReservedFromE(w)
  {
  }

  lemma OrderWordIsNotFromE(w: string)
    requires w in ["BY", "ASC", "DESC", "OFFSET"]
    ensures !ReservedFromE(w)
  {
  }

  lemma SelectWordIsNotFromE(w: string)
    requires SelectWord(w)
    ensures !ReservedFromE(w)
  {
    hide ReservedFromE;
    if w in ["LEFT", "RIGHT", "FULL", "OUTER", "INNER", "CROSS"] {
      JoinWordIsNotFromE(w);
    } else {
      OrderWordIsNotFromE(w);
    }
  }

  lemma SelectWordReads(w: string)
    requires SelectWord(w)
    ensures PartsRead(Piece(w), [Word(w)], true)
  {
    hide SelectWord, Reads, IsOperatorWord, IsStatementWord, ReservedToD, ReservedFromE, AllUpper, WordText, Upper;
    SelectWordIsUpper(w);
    UpperIsWord(w);
    SelectWordIsNoOperator(w);
    SelectWordIsNoStatementWord(w);
    SelectWordIsNotToD(w);
    SelectWordIsNotFromE(w);
    WordReads(w);
    PieceReads(w, [Word(w)]);
  }

  lemma SpacedWordReads(w: string)
    requires SelectWord(w)
    ensures PartsRead(Piece(" " + w), [Word(w)], true)
    ensures PartsReadAny(Piece(w + " "), [Word(w)], true) && PartsReadAny(Piece(" " + w + " "), [Word(w)], true)
  {
    hide SelectWord, PartsRead, PartsReadAny, Piece;
    SelectWordReads(w);
    SpacePieceReads();
    PieceThen(" ", [], true, w, [Word(w)], true);
    PieceThen(w, [Word(w)], true, " ", [], true);
    PieceThen(" " + w, [] + [Word(w)], true, " ", [], true);
    assert [] + [Word(w)] == [Word(w)] == [Word(w)] + [];
  }

  lemma OuterReads()
    ensures PartsReadAny(Piece("OUTER JOIN "), [Word("OUTER"), Keyword("JOIN")], true)
  {
    hide PartsRead, PartsReadAny, Piece;
    SpacedWordReads("OUTER");
    WordPieceReads("JOIN");
    PieceThen("OUTER" + " ", [Word("OUTER")], true, "JOIN" + " ", [Keyword("JOIN")], true);
    assert "OUTER" + " " + ("JOIN" + " ") == "OUTER JOIN ";
    assert [Word("OUTER")] + [Keyword("JOIN")] == [Word("OUTER"), Keyword("JOIN")];
  }

  lemma OuterJoinReads(w: string)
    requires w in ["LEFT", "RIGHT", "FULL"]
    ensures PartsReadAny(Piece(" " + w + " " + "OUTER JOIN "), [Word(w), Word("OUTER"), Keyword("JOIN")], true)
  {
    hide PartsRead, PartsReadAny, Piece;
    SpacedWordReads(w);
    OuterReads();
    PieceThen(" " + w + " ", [Word(w)], true, "OUTER JOIN ", [Word("OUTER"), Keyword("JOIN")], true);
    assert [Word(w)] + [Word("OUTER"), Keyword("JOIN")] == [Word(w), Word("OUTER"), Keyword("JOIN")];
  }

  lemma OtherJoinReads(w: string)
    requires w in ["INNER", "CROSS"]
    ensures PartsReadAny(Piece(" " + w + " " + "JOIN "), [Word(w), Keyword("JOIN")], true)
  {
    hide PartsRead, PartsReadAny, Piece;
    SpacedWordReads(w);
    WordPieceReads("JOIN");
    assert "JOIN" + " " == "JOIN ";
    PieceThen(" " + w + " ", [Word(w)], true, "JOIN ", [Keyword("JOIN")], true);
    assert [Word(w)] + [Keyword("JOIN")] == [Word(w), Keyword("JOIN")];
  }

  lemma OuterJoinTexts()
    ensures " " + "LEFT" + " " + "OUTER JOIN " == " " + JoinText(LeftJoin) + " "
    ensures " " + "RIGHT" + " " + "OUTER JOIN " == " " + JoinText(RightJoin) + " "
    ensures " " + "FULL" + " " + "OUTER JOIN " == " " + JoinText(FullJoin) + " "
  {
  }

  lemma OtherJoinTexts()
    ensures " " + "INNER" + " " + "JOIN " == " " + JoinText(InnerJoin) + " "
    ensures " " + "CROSS" + " " + "JOIN " == " " + JoinText(CrossJoin) + " "
  {
  }

  lemma JoinTextReads(kind: JoinKind)
    ensures PartsReadAny(Piece(" " + JoinText(kind) + " "), KindTokens(kind), true)
  {
    hide PartsRead, PartsReadAny, Piece, JoinText;
    OuterJoinTexts();
    OtherJoinTexts();
    match kind
    case LeftJoin => OuterJoinReads("LEFT");
    case RightJoin => OuterJoinReads("RIGHT");
    case FullJoin => OuterJoinReads("FULL");
    case InnerJoin => OtherJoinReads("INNER");
    case CrossJoin => OtherJoinReads("CROSS");
  }

  lemma {:induction false} DigitsAre(n: nat)
    ensures AllDigits(Digits(n)) && Digits(n) != []
  {
    if n >= 10 {
      DigitsAre(n / 10);
    }
    assert forall d :: 0 <= d < 10 ==> Digit("0123456789"[d]);
  }

  lemma LexDigits(s: string, r: string, values: seq<Value>)
    requires s != [] && AllDigits(s) && Boundary(r)
    ensures Lex(s + r, values) == Then(Number(Numeral(s)), Lex(r, values))
  {
    hide Numeral;
    WordLengthOf(s, r);
    assert (s + r)[0] == s[0] && (s + r)[..|s|] == s && (s + r)[|s|..] == r;
    assert FirstStep(s + r) == NumberStep(s + r);
  }

  lemma LexMinus(s: string, values: seq<Value>)
    requires s != [] && Digit(s[0])
    ensures Lex("-" + s, values) == Then(Minus, Lex(s, values))
  {
    hide NumberStep;
    var t := "-" + s;
    assert t[0] == '-' && t[1] == s[0] && t[1..] == s;
    assert FirstStep(t) == Take(Minus, s);
  }

  lemma LexDecimal(n: int, r: string, values: seq<Value>)
    requires Boundary(r)
    ensures Lex(Decimal(n) + r, values) == Prefix(IntegerTokens(n), Lex(r, values))
  {
    hide Lex, Digits, Boundary, Numeral, AllDigits;
    var magnitude := if n < 0 then -n else n;
    var s := Digits(magnitude);
    NumberOfDigits(magnitude);
    DigitsAre(magnitude);
    LexDigits(s, r, values);
    if n < 0 {
      FirstOfDigits(s, r);
      LexMinus(s + r, values);
      Associate("-", s, r);
      if Lex(r, values).Some? {
        Associate([Minus], [Number(magnitude)], Lex(r, values).value);
        assert [Minus] + [Number(magnitude)] == IntegerTokens(n);
      }
    }
  }

  lemma FirstOfDigits(s: string, r: string)
    requires s != [] && AllDigits(s)
    ensures s + r != [] && Digit((s + r)[0])
  {
  }

  lemma DecimalReads(n: int)
    ensures PartsRead(Piece(Decimal(n)), IntegerTokens(n), true)
  {
    hide Lex, Decimal, IntegerTokens;
    forall r: string, values: seq<Value> | Boundary(r)
      ensures Lex(Decimal(n) + r, [] + values) == Prefix(IntegerTokens(n), Lex(r, values))
    {
      assert [] + values == values;
      LexDecimal(n, r, values);
    }
    hide Boundary;
    PieceReads(Decimal(n), IntegerTokens(n));
  }

  // ---------- one text behind another ----------

  /** Parts that can stand directly behind others: they start at a boundary, or are none. */
  ghost predicate Attaches(parts: seq<Part>, ts: seq<Token>, ok: bool) {
    PartsRead(parts, ts, ok) && ((parts == [] && ts == [] && ok) || StartsAtBoundary(parts))
  }

  lemma Attached(a: seq<Part>, ta: seq<Token>, oka: bool, b: seq<Part>, tb: seq<Token>, okb: bool)
    requires PartsRead(a, ta, oka) && Attaches(b, tb, okb)
    ensures PartsRead(a + b, ta + tb, oka && okb)
    ensures Attaches(a, ta, oka) ==> Attaches(a + b, ta + tb, oka && okb)
  {
    hide PartsRead, PartsReadAny, StartsAtBoundary;
    if b == [] && tb == [] && okb {
      assert a + b == a && ta + tb == ta;
    } else {
      PartsThen(a, ta, oka, b, tb, okb);
    }
    if Attaches(a, ta, oka) {
      if a == [] {
        assert a + b == b && (ta == [] ==> ta + tb == tb);
      } else {
        StartsFurther(a, b);
      }
    }
  }

  lemma StartsFurther(a: seq<Part>, b: seq<Part>)
    requires StartsAtBoundary(a)
    ensures StartsAtBoundary(a + b)
  {
    hide Sql;
    SqlOfAppend(a, b);
  }

  /** Nothing that follows makes up for a text that is not read as it should be. */
  lemma StaysMisread(a: seq<Part>, ta: seq<Token>, b: seq<Part>, tb: seq<Token>)
    requires PartsRead(a, ta, false)
    requires (b == [] && tb == []) || StartsAtBoundary(b)
    ensures PartsRead(a + b, ta + tb, false)
  {
    hide Misreads, MisreadsAny, Boundary, Sql, Bindings;
    if b == [] && tb == [] {
      assert a + b == a && ta + tb == ta;
    } else {
      SqlOfAppend(a, b);
      BindingsOfAppend(a, b);
      MisreadsThen(Sql(a), Bindings(a), ta, Sql(b), Bindings(b), tb);
      MisreadsAnywhere(Sql(a) + Sql(b), Bindings(a) + Bindings(b), ta + tb);
    }
  }

  lemma NothingAttaches()
    ensures Attaches([], [], true)
  {
    hide PartsRead, PartsReadAny, StartsAtBoundary;
    NothingIsRead();
  }

  // ---------- columns ----------

  lemma ColumnTextRead(c: (SQLColumn, Option<string>))
    requires c.1.Some? ==> SingleAlias(c.1.value)
    ensures PartsRead(Piece(ColumnName(c.0, c.1)), ColumnTokens(c), Legible(c.0.name, MARK))
  {
    hide Reads, ReadsAny, Misreads, MisreadsAny, Quoted, AliasRead, AliasTokens, Legible, Flat;
    if c.1.Some? {
      var alias, q := c.1.value, Quoted(c.0.name, MARK);
      AliasedRead(alias, c.0.name);
      SqlOfAppend(Piece(alias + "."), Piece(q));
      BindingsOfAppend(Piece(alias + "."), Piece(q));
      PieceText(alias + ".");
      PieceText(q);
      PieceText(alias + "." + q);
      assert AliasTokens(alias) + [Dot] + [Name(Flat(c.0.name))] == ColumnTokens(c);
    } else {
      ColumnRead(c.0.name);
      assert [Name(Flat(c.0.name))] == ColumnTokens(c);
    }
  }

  function ColumnTexts(cs: seq<(SQLColumn, Option<string>)>): (names: seq<string>)
    ensures |names| == |cs|
  {
    seq(|cs|, i requires 0 <= i < |cs| => ColumnName(cs[i].0, cs[i].1))
  }

  lemma {:induction false} TextsOfColumns(tables: seq<QualifiedTable>)
    ensures SelectColumns(tables) == ColumnTexts(AllColumns(tables))
  {
    hide ColumnName;
    if tables != [] {
      TextsOfColumns(tables[1..]);
      var own, rest := TableColumns(tables[0]), AllColumns(tables[1..]);
      assert ColumnTexts(own) == ColumnNames(tables[0].columns, tables[0].alias);
      assert ColumnTexts(own + rest) == ColumnTexts(own) + ColumnTexts(rest);
    }
  }

  predicate LegibleColumns(cs: seq<(SQLColumn, Option<string>)>) {
    forall c :: c in cs ==> Legible(c.0.name, MARK)
  }

  predicate SingleAliases(cs: seq<(SQLColumn, Option<string>)>) {
    forall c :: c in cs ==> c.1.Some? ==> SingleAlias(c.1.value)
  }

  lemma ColumnsStep(cs: seq<(SQLColumn, Option<string>)>)
    requires cs != []
    ensures LegibleColumns(cs) <==> Legible(cs[0].0.name, MARK) && LegibleColumns(cs[1..])
    ensures SingleAliases(cs) ==> SingleAliases(cs[1..]) && (cs[0].1.Some? ==> SingleAlias(cs[0].1.value))
    ensures ColumnTexts(cs)[0] == ColumnName(cs[0].0, cs[0].1) && ColumnTexts(cs)[1..] == ColumnTexts(cs[1..])
  {
    hide Legible, SingleAlias, ColumnName;
    assert cs == [cs[0]] + cs[1..];
  }

  lemma ColumnListUnfolds(names: seq<string>, first: bool)
    ensures ColumnList(names, first)
         == if names == [] then [] else (if first then "" else ", ") + names[0] + ColumnList(names[1..], false)
  {
  }

  lemma ColumnsTokensUnfold(cs: seq<(SQLColumn, Option<string>)>)
    ensures ColumnsTokens(cs) == if cs == [] then [] else ColumnTokens(cs[0]) + Behind(ColumnsTokens(cs[1..]), |cs| > 1)
  {
    hide ColumnTokens;
    if |cs| == 1 {
      assert cs[1..] == [];
    }
  }

  /** Tokens with a comma in front of them, if there is something to separate. */
  function Behind(ts: seq<Token>, comma: bool): seq<Token> {
    if comma then [Comma] + ts else ts
  }

  lemma {:induction false} ColumnListRead(cs: seq<(SQLColumn, Option<string>)>, first: bool)
    requires SingleAliases(cs)
    ensures PartsRead(Piece(ColumnList(ColumnTexts(cs), first)), Behind(ColumnsTokens(cs), !first && cs != []), LegibleColumns(cs))
    ensures !first && cs != [] ==> ColumnList(ColumnTexts(cs), first) != [] && Boundary(ColumnList(ColumnTexts(cs), first))
  {
    hide PartsRead, PartsReadAny, ColumnName, ColumnTokens, ColumnsTokens, ColumnList, ColumnTexts, LegibleColumns, SingleAliases, Legible, Piece;
    ColumnListUnfolds(ColumnTexts(cs), first);
    ColumnsTokensUnfold(cs);
    if cs == [] {
      NoColumnsRead();
    } else {
      ColumnsStep(cs);
      PiecesRead();
      NoColumnsRead();
      var text, tokens, ok := ColumnName(cs[0].0, cs[0].1), ColumnTokens(cs[0]), Legible(cs[0].0.name, MARK);
      var rest, more, oks := ColumnList(ColumnTexts(cs[1..]), false), Behind(ColumnsTokens(cs[1..]), |cs| > 1), LegibleColumns(cs[1..]);
      ColumnTextRead(cs[0]);
      ColumnListRead(cs[1..], false);
      var separator, comma := if first then "" else ", ", if first then [] else [Comma];
      if |cs| > 1 {
        PieceThen(text, tokens, ok, rest, more, oks);
      } else {
        assert cs[1..] == [];
        ColumnListUnfolds(ColumnTexts(cs[1..]), false);
        ColumnsTokensUnfold(cs[1..]);
        assert text + rest == text && tokens + more == tokens;
      }
      PieceThen(separator, comma, true, text + rest, tokens + more, ok && oks);
      Associate(separator, text, rest);
      assert comma + (tokens + more) == Behind(tokens + more, !first);
    }
  }

  lemma NoColumnsRead()
    ensures PartsRead(Piece(""), [], true) && PartsReadAny(Piece(""), [], true) && LegibleColumns([])
  {
    hide Reads, ReadsAny, Lex;
    NothingReads();
    PieceReads("", []);
    AnyIsRead(Piece(""), [], true);
  }

  lemma HeadRead(tables: seq<QualifiedTable>)
    requires SingleAliases(AllColumns(tables))
    ensures PartsReadAny(Piece(SelectText(tables)), HeadTokens(tables), LegibleColumns(AllColumns(tables)))
  {
    hide PartsRead, PartsReadAny, ColumnList, ColumnTexts, ColumnsTokens, AllColumns, SelectColumns, LegibleColumns, SingleAliases, Piece;
    var cs := AllColumns(tables);
    TextsOfColumns(tables);
    var list, tokens, ok := ColumnList(ColumnTexts(cs), true), ColumnsTokens(cs), LegibleColumns(cs);
    WordPieceReads("SELECT");
    WordPieceReads("FROM");
    assert "SELECT" + " " == "SELECT " && " " + "FROM" + " " == " FROM ";
    ColumnListRead(cs, true);
    PieceThen("SELECT ", [Keyword("SELECT")], true, list, tokens, ok);
    PieceThen("SELECT " + list, [Keyword("SELECT")] + tokens, ok, " FROM ", [Keyword("FROM")], true);
  }

  // ---------- tables ----------

  predicate SingleSource(t: QualifiedTable) {
    t.alias.Some? ==> SingleAlias(t.alias.value)
  }

  lemma AliasPartsRead(t: QualifiedTable)
    requires SingleSource(t)
    ensures Attaches(AliasParts(t), if t.alias.Some? then [Keyword("AS"), AliasToken(t.alias.value)] else [], true)
  {
    hide PartsRead, PartsReadAny, StartsAtBoundary, AliasRead, AliasTokens, Piece, Reads;
    NothingAttaches();
    if t.alias.Some? {
      var alias := t.alias.value;
      WordPieceReads("AS");
      assert " " + "AS" + " " == " AS ";
      AliasReads(alias);
      assert AliasTokens(alias) == [AliasToken(alias)];
      PieceReads(alias, [AliasToken(alias)]);
      PieceThen(" AS ", [Keyword("AS")], true, alias, [AliasToken(alias)], true);
      assert [Keyword("AS")] + [AliasToken(alias)] == [Keyword("AS"), AliasToken(alias)];
      StartOfPiece(" AS " + alias, []);
    }
  }

  lemma SourceRead(t: QualifiedTable)
    requires SingleSource(t)
    ensures PartsRead(Piece(TableName(t.name, t.schema)) + AliasParts(t), SourceTokens(t), LegibleTable(t.name, t.schema))
  {
    hide PartsRead, Attaches, TableName, TableTokens, LegibleTable, AliasParts, AliasToken, Piece;
    TableNameReads(t.name, t.schema);
    AliasPartsRead(t);
    Attached(Piece(TableName(t.name, t.schema)), TableTokens(t.name, t.schema), LegibleTable(t.name, t.schema),
             AliasParts(t), if t.alias.Some? then [Keyword("AS"), AliasToken(t.alias.value)] else [], true);
  }

  /** A legible table name reads as a qualifier wherever a column stands behind it. */
  lemma TableNameIsQualifier(name: Characters, schema: Option<Characters>)
    requires LegibleTable(name, schema)
    ensures AliasRead(TableName(name, schema)) == Some(TableTokens(name, schema))
  {
    hide Lex, TableName, LegibleTable, Flat, Reads;
    var text, ts := TableName(name, schema), TableTokens(name, schema);
    TableNameReads(name, schema);
    PieceText(text);
    ReadsAtEnds(text, ts);
  }

  lemma ReadsAtEnds(s: string, ts: seq<Token>)
    requires Reads(s, [], ts)
    ensures Lex(s, []) == Some(ts) && Lex(s + ".", []) == Some(ts + [Dot])
  {
    hide Lex;
    var none: seq<Value>, empty: string, dot: string := [], "", ".";
    LexOfEnds();
    assert none + none == none && s + empty == s && ts + [] == ts && Boundary(empty) && Boundary(dot);
    assert Lex(s + empty, none + none) == Prefix(ts, Lex(empty, none));
    assert Lex(s + dot, none + none) == Prefix(ts, Lex(dot, none));
  }

  lemma QualifierReads(t: QualifiedTable)
    requires SingleSource(t) && LegibleTable(t.name, t.schema)
    ensures AliasRead(Qualifier(t)).Some? && AliasTokens(Qualifier(t)) == SourceQualifier(t)
  {
    hide AliasRead, TableName, LegibleTable;
    if t.alias.None? {
      TableNameIsQualifier(t.name, t.schema);
    }
  }

  predicate LegibleCondition(c: Option<JoinCondition>) {
    match c
    case Some(OnPredicate(p)) => Readable(p)
    case Some(OnColumn(column)) => column.references.Some? ==> Legible(column.references.value, MARK) && Legible(column.name, MARK)
    case None => true
  }

  lemma KeysRead(other: QualifiedTable, c: Characters, owner: QualifiedTable, key: Characters)
    requires SingleSource(other) && LegibleTable(other.name, other.schema) && SingleSource(owner) && LegibleTable(owner.name, owner.schema)
    ensures PartsRead(Parts(Equals(Aliased(Qualifier(other), c), Aliased(Qualifier(owner), key))),
                      KeyTokens(SourceQualifier(other), Flat(c), SourceQualifier(owner), Flat(key)), Legible(c, MARK) && Legible(key, MARK))
  {
    hide PartsRead, Parts, Qualifier, SourceQualifier, AliasRead, AliasTokens, Legible, LegibleTable, Flat, SingleSource;
    QualifierReads(other);
    QualifierReads(owner);
    var p := Compare(Aliased(Qualifier(other), c), Eq, Aliased(Qualifier(owner), key));
    PredicateRead(p);
    Associate(SourceQualifier(other) + [Dot] + [Name(Flat(c))], [Symbol(Eq)], SourceQualifier(owner) + [Dot] + [Name(Flat(key))]);
  }

  lemma ConditionRead(c: JoinCondition, from: QualifiedTable, to: QualifiedTable)
    requires SingleSource(from) && LegibleTable(from.name, from.schema) && SingleSource(to) && LegibleTable(to.name, to.schema)
    ensures PartsRead(ConditionParts(c, from, to), ConditionTokens(c, from, to), LegibleCondition(Some(c)))
  {
    hide PartsRead, Parts, Equals, Tokens, Readable, Qualifier, SourceQualifier, Legible, LegibleTable, Flat, SingleSource, KeyTokens;
    match c
    case OnPredicate(p) =>
      PredicateRead(p);
    case OnColumn(column) =>
      if column.references.None? {
        ValueRead(Long(1));
      } else if column in from.columns {
        KeysRead(to, column.references.value, from, column.name);
      } else {
        KeysRead(from, column.references.value, to, column.name);
      }
  }

  lemma OnRead(tables: seq<QualifiedTable>, joins: seq<JoinClause>, i: nat)
    requires 1 <= i < |tables| <= |joins| + 1
    requires SingleSource(tables[i - 1]) && LegibleTable(tables[i - 1].name, tables[i - 1].schema)
    requires SingleSource(tables[i]) && LegibleTable(tables[i].name, tables[i].schema)
    ensures Attaches(OnParts(tables, joins, i), OnTokens(joins[i - 1].condition, tables[i - 1], tables[i]),
                     LegibleCondition(joins[i - 1].condition))
  {
    hide PartsRead, PartsReadAny, StartsAtBoundary, ConditionParts, ConditionTokens, LegibleTable, SingleSource;
    var c, from, to := joins[i - 1].condition, tables[i - 1], tables[i];
    if c.None? {
      NothingAttaches();
    } else {
      hide LegibleCondition;
      WordPieceReads("ON");
      assert " " + "ON" + " " == " ON ";
      ConditionRead(c.value, from, to);
      PartsThen(Piece(" ON "), [Keyword("ON")], true, ConditionParts(c.value, from, to), ConditionTokens(c.value, from, to),
                LegibleCondition(c));
      StartOfPiece(" ON ", ConditionParts(c.value, from, to));
    }
  }

  lemma OnStarts(tables: seq<QualifiedTable>, joins: seq<JoinClause>, i: nat)
    requires 1 <= i < |tables| <= |joins| + 1
    ensures var parts, ts := OnParts(tables, joins, i), OnTokens(joins[i - 1].condition, tables[i - 1], tables[i]);
            (parts == [] && ts == []) || StartsAtBoundary(parts)
  {
    hide ConditionParts, ConditionTokens, StartsAtBoundary;
    if joins[i - 1].condition.Some? {
      StartOfPiece(" ON ", ConditionParts(joins[i - 1].condition.value, tables[i - 1], tables[i]));
    }
  }

  /** The names of the table and of its join condition are read back. */
  predicate LegibleJoin(tables: seq<QualifiedTable>, joins: seq<JoinClause>, i: nat)
    requires 1 <= i < |tables| <= |joins| + 1
  {
    LegibleTable(tables[i].name, tables[i].schema) && LegibleCondition(joins[i - 1].condition)
  }

  lemma JoinRead(tables: seq<QualifiedTable>, joins: seq<JoinClause>, i: nat)
    requires 1 <= i < |tables| <= |joins| + 1 && SingleSource(tables[i - 1]) && SingleSource(tables[i])
    requires LegibleTable(tables[i - 1].name, tables[i - 1].schema)
    ensures Attaches(TableParts(tables, joins, i), JoinTokens(tables, joins, i), LegibleJoin(tables, joins, i))
  {
    hide PartsRead, PartsReadAny, StartsAtBoundary, TableName, JoinText, KindTokens, SourceTokens, OnParts, OnTokens, AliasParts,
         LegibleTable, LegibleCondition, SingleSource;
    var t, kind := tables[i], joins[i - 1].kind;
    var join, name := Piece(" " + JoinText(kind) + " "), Piece(TableName(t.name, t.schema)) + AliasParts(t);
    var on, onTokens := OnParts(tables, joins, i), OnTokens(joins[i - 1].condition, tables[i - 1], t);
    JoinTextReads(kind);
    SourceRead(t);
    PartsThen(join, KindTokens(kind), true, name, SourceTokens(t), LegibleTable(t.name, t.schema));
    if LegibleTable(t.name, t.schema) {
      OnRead(tables, joins, i);
      Attached(join + name, KindTokens(kind) + SourceTokens(t), true, on, onTokens, LegibleCondition(joins[i - 1].condition));
    } else {
      OnStarts(tables, joins, i);
      StaysMisread(join + name, KindTokens(kind) + SourceTokens(t), on, onTokens);
    }
    StartOfPiece(" " + JoinText(kind) + " ", name + on);
    assert TableParts(tables, joins, i) == join + (name + on) == join + name + on;
  }

  /** The tables from the i-th on. */
  function TablesFrom(tables: seq<QualifiedTable>, joins: seq<JoinClause>, i: nat): seq<Part>
    requires i <= |tables| <= |joins| + 1
    decreases |tables| - i
  {
    if i == |tables| then [] else TableParts(tables, joins, i) + TablesFrom(tables, joins, i + 1)
  }

  lemma {:induction false} FromGoesOn(tables: seq<QualifiedTable>, joins: seq<JoinClause>, i: nat)
    requires i <= |tables| <= |joins| + 1
    ensures FromParts(tables, joins, |tables|) == FromParts(tables, joins, i) + TablesFrom(tables, joins, i)
    decreases |tables| - i
  {
    hide TableParts;
    if i < |tables| {
      FromGoesOn(tables, joins, i + 1);
      Associate(FromParts(tables, joins, i), TableParts(tables, joins, i), TablesFrom(tables, joins, i + 1));
    }
  }

  predicate LegibleJoins(tables: seq<QualifiedTable>, joins: seq<JoinClause>, i: nat)
    requires 1 <= i <= |tables| <= |joins| + 1
  {
    forall k :: i <= k < |tables| ==> LegibleJoin(tables, joins, k)
  }

  predicate SingleSources(tables: seq<QualifiedTable>) {
    forall t :: t in tables ==> SingleSource(t)
  }

  lemma JoinStarts(tables: seq<QualifiedTable>, joins: seq<JoinClause>, i: nat)
    requires 1 <= i <= |tables| <= |joins| + 1
    ensures var parts, ts := TablesFrom(tables, joins, i), JoinsTokens(tables, joins, i);
            (parts == [] && ts == []) || StartsAtBoundary(parts)
  {
    hide StartsAtBoundary, JoinText, TableName, AliasParts, OnParts, JoinTokens;
    if i < |tables| {
      var join, rest := " " + JoinText(joins[i - 1].kind) + " ", Piece(TableName(tables[i].name, tables[i].schema));
      var more := AliasParts(tables[i]) + OnParts(tables, joins, i);
      StartOfPiece(join, rest + more + TablesFrom(tables, joins, i + 1));
      assert TableParts(tables, joins, i) + TablesFrom(tables, joins, i + 1)
          == Piece(join) + (rest + more + TablesFrom(tables, joins, i + 1));
    }
  }

  lemma {:induction false} JoinsRead(tables: seq<QualifiedTable>, joins: seq<JoinClause>, i: nat)
    requires 1 <= i <= |tables| <= |joins| + 1 && SingleSources(tables)
    requires LegibleTable(tables[i - 1].name, tables[i - 1].schema)
    ensures Attaches(TablesFrom(tables, joins, i), JoinsTokens(tables, joins, i), LegibleJoins(tables, joins, i))
    decreases |tables| - i
  {
    hide PartsRead, StartsAtBoundary, TableParts, JoinTokens, LegibleTable, LegibleCondition, SingleSource;
    if i == |tables| {
      NothingAttaches();
    } else {
      JoinRead(tables, joins, i);
      JoinStarts(tables, joins, i);
      JoinStarts(tables, joins, i + 1);
      var a, ta, ok := TableParts(tables, joins, i), JoinTokens(tables, joins, i), LegibleJoin(tables, joins, i);
      var b, tb := TablesFrom(tables, joins, i + 1), JoinsTokens(tables, joins, i + 1);
      if LegibleTable(tables[i].name, tables[i].schema) {
        JoinsRead(tables, joins, i + 1);
        Attached(a, ta, ok, b, tb, LegibleJoins(tables, joins, i + 1));
      } else {
        StaysMisread(a, ta, b, tb);
        StartsFurther(a, b);
      }
    }
  }

  // ---------- what follows the tables ----------

  predicate ReadableClauses(clauses: seq<Predicate>) {
    forall p :: p in clauses ==> Readable(p)
  }

  predicate ReadableOrder(orderBy: seq<(Representable, Order)>) {
    forall x :: x in orderBy ==> ReadableRep(x.0)
  }

  lemma WhereRead(clauses: seq<Predicate>)
    ensures Attaches(WhereParts(clauses), WhereTokens(clauses), ReadableClauses(clauses))
  {
    hide PartsRead, PartsReadAny, StartsAtBoundary, Parts, Tokens;
    if clauses == [] {
      NothingAttaches();
    } else {
      var p := Compound(And, clauses);
      WordPieceReads("WHERE");
      assert " " + "WHERE" + " " == " WHERE ";
      PredicateRead(p);
      PartsThen(Piece(" WHERE "), [Keyword("WHERE")], true, Parts(p), Tokens(p), Readable(p));
      StartOfPiece(" WHERE ", Parts(p));
    }
  }

  lemma TermRead(term: (Representable, Order))
    ensures PartsRead(RepParts(term.0) + Piece(" " + OrderText(term.1)), RepTokens(term.0) + [DirectionToken(term.1)], ReadableRep(term.0))
  {
    hide PartsRead, PartsReadAny, StartsAtBoundary, RepParts, RepTokens, ReadableRep, Piece;
    RepRead(term.0);
    var text := " " + OrderText(term.1);
    SpacedWordReads("ASC");
    SpacedWordReads("DESC");
    StartOfPiece(text, []);
    PartsThen(RepParts(term.0), RepTokens(term.0), ReadableRep(term.0), Piece(text), [DirectionToken(term.1)], true);
  }

  lemma OrderPartsAre(orderBy: seq<(Representable, Order)>, first: bool)
    requires orderBy != []
    ensures OrderParts(orderBy, first)
         == (if first then [] else Piece(", ")) + RepParts(orderBy[0].0) + Piece(" " + OrderText(orderBy[0].1))
            + OrderParts(orderBy[1..], false)
  {
    hide RepParts, OrderText, Piece;
  }

  lemma OrderPartsUnfold(orderBy: seq<(Representable, Order)>, first: bool)
    requires orderBy != []
    ensures OrderParts(orderBy, first)
         == (if first then [] else Piece(", ")) + (RepParts(orderBy[0].0) + Piece(" " + OrderText(orderBy[0].1)))
            + OrderParts(orderBy[1..], false)
  {
    hide RepParts, OrderText, Piece, OrderParts;
    OrderPartsAre(orderBy, first);
    Associate(if first then [] else Piece(", "), RepParts(orderBy[0].0), Piece(" " + OrderText(orderBy[0].1)));
  }

  lemma TermTokensUnfold(orderBy: seq<(Representable, Order)>)
    requires orderBy != []
    ensures TermTokens(orderBy)
         == RepTokens(orderBy[0].0) + [DirectionToken(orderBy[0].1)] + Behind(TermTokens(orderBy[1..]), |orderBy| > 1)
  {
    hide RepTokens, DirectionToken, TermTokens;
    NoTerms();
    TermsAre(orderBy);
    var rest := if |orderBy| == 1 then [] else [Comma] + TermTokens(orderBy[1..]);
    assert |orderBy| == 1 ==> orderBy[1..] == [];
    Associate(RepTokens(orderBy[0].0), [DirectionToken(orderBy[0].1)], rest);
  }

  lemma ReadableOrderStep(orderBy: seq<(Representable, Order)>)
    requires orderBy != []
    ensures ReadableOrder(orderBy) <==> ReadableRep(orderBy[0].0) && ReadableOrder(orderBy[1..])
  {
    hide ReadableRep;
    assert orderBy == [orderBy[0]] + orderBy[1..];
  }

  lemma NoTerms()
    ensures OrderParts([], false) == [] && TermTokens([]) == [] && ReadableOrder([])
  {
  }

  lemma {:induction false} TermsRead(orderBy: seq<(Representable, Order)>, first: bool)
    requires orderBy != []
    ensures PartsRead(OrderParts(orderBy, first), Behind(TermTokens(orderBy), !first), ReadableOrder(orderBy))
    ensures !first ==> StartsAtBoundary(OrderParts(orderBy, first))
  {
    hide PartsRead, PartsReadAny, StartsAtBoundary, OrderParts, TermTokens, RepParts, RepTokens, OrderText, DirectionToken, Piece,
         ReadableRep, ReadableOrder;
    OrderPartsUnfold(orderBy, first);
    TermTokensUnfold(orderBy);
    ReadableOrderStep(orderBy);
    NothingIsRead();
    PiecesRead();
    TermRead(orderBy[0]);
    NoTerms();
    var own, tokens := RepParts(orderBy[0].0) + Piece(" " + OrderText(orderBy[0].1)), RepTokens(orderBy[0].0) + [DirectionToken(orderBy[0].1)];
    var ok, rest, more := ReadableRep(orderBy[0].0), OrderParts(orderBy[1..], false), Behind(TermTokens(orderBy[1..]), |orderBy| > 1);
    var separator, comma := if first then [] else Piece(", "), if first then [] else [Comma];
    if |orderBy| > 1 {
      TermsRead(orderBy[1..], false);
      PartsThen(own, tokens, ok, rest, more, ReadableOrder(orderBy[1..]));
    } else {
      assert orderBy[1..] == [];
      assert own + rest == own && tokens + more == tokens;
    }
    PartsThen(separator, comma, true, own + rest, tokens + more, ReadableOrder(orderBy));
    Associate(separator, own, rest);
    assert comma + (tokens + more) == Behind(tokens + more, !first);
    if !first {
      StartOfPiece(", ", own + rest);
    }
  }

  lemma OrderRead(orderBy: seq<(Representable, Order)>)
    ensures Attaches(OrderByParts(orderBy), OrderTokens(orderBy), ReadableOrder(orderBy))
  {
    hide PartsRead, PartsReadAny, StartsAtBoundary, OrderParts, TermTokens, ReadableRep;
    if orderBy == [] {
      NothingAttaches();
    } else {
      OrderByReads();
      TermsRead(orderBy, true);
      PartsThen(Piece(" ORDER BY "), [Keyword("ORDER"), Word("BY")], true, OrderParts(orderBy, true), TermTokens(orderBy),
                ReadableOrder(orderBy));
      StartOfPiece(" ORDER BY ", OrderParts(orderBy, true));
    }
  }

  lemma OrderByReads()
    ensures PartsReadAny(Piece(" ORDER BY "), [Keyword("ORDER"), Word("BY")], true)
  {
    hide PartsRead, PartsReadAny, Piece;
    WordPieceReads("ORDER");
    SpacedWordReads("BY");
    PieceThen(" " + "ORDER" + " ", [Keyword("ORDER")], true, "BY" + " ", [Word("BY")], true);
    assert " " + "ORDER" + " " + ("BY" + " ") == " ORDER BY ";
    assert [Keyword("ORDER")] + [Word("BY")] == [Keyword("ORDER"), Word("BY")];
  }

  lemma NumbersRead(limit: Option<int>, offset: Option<int>)
    ensures Attaches(NumberParts(" LIMIT ", limit), LimitTokens(limit), true)
    ensures Attaches(NumberParts(" OFFSET ", offset), OffsetTokens(offset), true)
  {
    hide PartsRead, PartsReadAny, StartsAtBoundary, Decimal, IntegerTokens, Piece;
    NothingAttaches();
    if limit.Some? {
      WordPieceReads("LIMIT");
      assert " " + "LIMIT" + " " == " LIMIT ";
      DecimalReads(limit.value);
      PieceThen(" LIMIT ", [Keyword("LIMIT")], true, Decimal(limit.value), IntegerTokens(limit.value), true);
      StartOfPiece(" LIMIT " + Decimal(limit.value), []);
    }
    if offset.Some? {
      SpacedWordReads("OFFSET");
      assert " " + "OFFSET" + " " == " OFFSET ";
      DecimalReads(offset.value);
      PieceThen(" OFFSET ", [Word("OFFSET")], true, Decimal(offset.value), IntegerTokens(offset.value), true);
      StartOfPiece(" OFFSET " + Decimal(offset.value), []);
    }
  }

  lemma EndRead(clauses: seq<Predicate>, orderBy: seq<(Representable, Order)>, limit: Option<int>, offset: Option<int>)
    ensures Attaches(ClauseParts(clauses, orderBy, limit, offset), EndTokens(clauses, orderBy, limit, offset),
                     ReadableClauses(clauses) && ReadableOrder(orderBy))
  {
    hide Attaches, PartsRead, WhereParts, WhereTokens, OrderByParts, OrderTokens, NumberParts, LimitTokens, OffsetTokens, ReadableClauses,
         ReadableOrder;
    WhereRead(clauses);
    OrderRead(orderBy);
    NumbersRead(limit, offset);
    var w, o, l, f := WhereParts(clauses), OrderByParts(orderBy), NumberParts(" LIMIT ", limit), NumberParts(" OFFSET ", offset);
    AttachedTo(l, LimitTokens(limit), true, f, OffsetTokens(offset), true);
    AttachedTo(o, OrderTokens(orderBy), ReadableOrder(orderBy), l + f, LimitTokens(limit) + OffsetTokens(offset), true);
    AttachedTo(w, WhereTokens(clauses), ReadableClauses(clauses), o + (l + f), OrderTokens(orderBy) + (LimitTokens(limit) + OffsetTokens(offset)),
               ReadableOrder(orderBy));
    assert w + o + l + f == w + (o + (l + f));
  }

  lemma AttachedTo(a: seq<Part>, ta: seq<Token>, oka: bool, b: seq<Part>, tb: seq<Token>, okb: bool)
    requires Attaches(a, ta, oka) && Attaches(b, tb, okb)
    ensures Attaches(a + b, ta + tb, oka && okb)
  {
    hide PartsRead, StartsAtBoundary;
    Attached(a, ta, oka, b, tb, okb);
  }

  // ---------- the whole statement ----------

  /** Every name is read back as it is, and every alias of a table as one identifier. */
  predicate LegibleSelect(tables: seq<QualifiedTable>, joins: seq<JoinClause>, clauses: seq<Predicate>,
                          orderBy: seq<(Representable, Order)>)
    requires 1 <= |tables| <= |joins| + 1
  {
    && (forall t :: t in tables ==> SingleSource(t) && LegibleTable(t.name, t.schema) && forall c :: c in t.columns ==> Legible(c.name, MARK))
    && (forall i :: 0 <= i < |tables| - 1 ==> LegibleCondition(joins[i].condition))
    && ReadableClauses(clauses) && ReadableOrder(orderBy)
  }

  lemma {:induction false} LegibleAllColumns(tables: seq<QualifiedTable>)
    ensures LegibleColumns(AllColumns(tables)) <==> forall t :: t in tables ==> forall c :: c in t.columns ==> Legible(c.name, MARK)
    ensures SingleSources(tables) ==> SingleAliases(AllColumns(tables))
  {
    hide Legible, SingleAlias;
    if tables != [] {
      LegibleAllColumns(tables[1..]);
      assert tables == [tables[0]] + tables[1..];
      LegibleTableColumns(tables[0]);
    }
  }

  lemma LegibleTableColumns(t: QualifiedTable)
    ensures LegibleColumns(TableColumns(t)) <==> forall c :: c in t.columns ==> Legible(c.name, MARK)
    ensures SingleSource(t) ==> SingleAliases(TableColumns(t))
  {
    hide Legible, SingleAlias;
    var cs := TableColumns(t);
    assert forall i :: 0 <= i < |cs| ==> cs[i] == (t.columns[i], t.alias);
    assert forall i :: 0 <= i < |cs| ==> cs[i] in cs;
  }

  lemma LegibleByIndex(tables: seq<QualifiedTable>, joins: seq<JoinClause>, clauses: seq<Predicate>, orderBy: seq<(Representable, Order)>)
    requires 1 <= |tables| <= |joins| + 1
    ensures LegibleSelect(tables, joins, clauses, orderBy)
       <==> SingleSources(tables) && LegibleColumns(AllColumns(tables)) && LegibleTable(tables[0].name, tables[0].schema)
            && LegibleJoins(tables, joins, 1) && ReadableClauses(clauses) && ReadableOrder(orderBy)
  {
    hide SingleSource, LegibleTable, LegibleCondition, Legible, ReadableClauses, ReadableOrder, LegibleColumns, AllColumns;
    LegibleAllColumns(tables);
    if LegibleJoins(tables, joins, 1) {
      forall i | 0 <= i < |tables| - 1
        ensures LegibleCondition(joins[i].condition)
      {
        assert LegibleJoin(tables, joins, i + 1);
      }
      forall i | 0 <= i < |tables| && LegibleTable(tables[0].name, tables[0].schema)
        ensures LegibleTable(tables[i].name, tables[i].schema)
      {
        assert i > 0 ==> LegibleJoin(tables, joins, i);
      }
    }
  }

  lemma FromRead(tables: seq<QualifiedTable>, joins: seq<JoinClause>)
    requires 1 <= |tables| <= |joins| + 1 && SingleSources(tables)
    ensures PartsRead(FromParts(tables, joins, |tables|), SourceTokens(tables[0]) + JoinsTokens(tables, joins, 1),
                      LegibleTable(tables[0].name, tables[0].schema) && LegibleJoins(tables, joins, 1))
  {
    hide PartsRead, StartsAtBoundary, TableName, AliasParts, SourceTokens, LegibleTable, LegibleJoins, SingleSource, FromParts;
    var t := tables[0];
    var a, ta, ok := Piece(TableName(t.name, t.schema)) + AliasParts(t), SourceTokens(t), LegibleTable(t.name, t.schema);
    var b, tb := TablesFrom(tables, joins, 1), JoinsTokens(tables, joins, 1);
    SourceRead(t);
    JoinStarts(tables, joins, 1);
    if ok {
      JoinsRead(tables, joins, 1);
      Attached(a, ta, true, b, tb, LegibleJoins(tables, joins, 1));
    } else {
      StaysMisread(a, ta, b, tb);
    }
    FromIs(tables, joins);
  }

  lemma FirstTable(tables: seq<QualifiedTable>, joins: seq<JoinClause>)
    requires 1 <= |tables| <= |joins| + 1
    ensures TableParts(tables, joins, 0) == [] + Piece(TableName(tables[0].name, tables[0].schema)) + AliasParts(tables[0]) + []
    ensures FromParts(tables, joins, 1) == [] + TableParts(tables, joins, 0)
  {
    hide TableName, AliasParts;
    assert FromParts(tables, joins, 0) == [];
  }

  lemma Nothing(a: seq<Part>, b: seq<Part>)
    ensures [] + ([] + a + b + []) == a + b
  {
  }

  lemma FromIs(tables: seq<QualifiedTable>, joins: seq<JoinClause>)
    requires 1 <= |tables| <= |joins| + 1
    ensures FromParts(tables, joins, |tables|)
         == Piece(TableName(tables[0].name, tables[0].schema)) + AliasParts(tables[0]) + TablesFrom(tables, joins, 1)
  {
    hide TableName, AliasParts, TablesFrom, FromParts, TableParts, Piece;
    FromGoesOn(tables, joins, 1);
    FirstTable(tables, joins);
    Nothing(Piece(TableName(tables[0].name, tables[0].schema)), AliasParts(tables[0]));
  }

  /** With aliases that are identifiers, the text is read as the tokens if and only if every name is
      legible. */
  lemma LexOfSelect(tables: seq<QualifiedTable>, joins: seq<JoinClause>, clauses: seq<Predicate>,
                    orderBy: seq<(Representable, Order)>, limit: Option<int>, offset: Option<int>)
    requires 1 <= |tables| <= |joins| + 1 && SingleSources(tables)
    ensures var parts, ts := SelectParts(tables, joins, clauses, orderBy, limit, offset),
                             TokensOfSelect(tables, joins, clauses, orderBy, limit, offset);
            if LegibleSelect(tables, joins, clauses, orderBy) then Lex(Sql(parts), Bindings(parts)) == Some(ts)
            else !Begins(ts, Lex(Sql(parts), Bindings(parts)))
  {
    hide Lex, PartsRead, PartsReadAny, StartsAtBoundary, SelectText, HeadTokens, FromParts, SourceTokens, JoinsTokens, ClauseParts, EndTokens,
         LegibleColumns, AllColumns, LegibleTable, LegibleJoins, SingleSources, ReadableClauses, ReadableOrder, LegibleSelect, Begins,
         Sql, Bindings, Attaches;
    LegibleByIndex(tables, joins, clauses, orderBy);
    LegibleAllColumns(tables);
    HeadRead(tables);
    FromRead(tables, joins);
    EndRead(clauses, orderBy, limit, offset);
    var head, headTokens, okHead := Piece(SelectText(tables)), HeadTokens(tables), LegibleColumns(AllColumns(tables));
    var from, fromTokens := FromParts(tables, joins, |tables|), SourceTokens(tables[0]) + JoinsTokens(tables, joins, 1);
    var okFrom := LegibleTable(tables[0].name, tables[0].schema) && LegibleJoins(tables, joins, 1);
    var end, endTokens := ClauseParts(clauses, orderBy, limit, offset), EndTokens(clauses, orderBy, limit, offset);
    var okEnd := ReadableClauses(clauses) && ReadableOrder(orderBy);
    PartsThen(head, headTokens, okHead, from, fromTokens, okFrom);
    Attached(head + from, headTokens + fromTokens, okHead && okFrom, end, endTokens, okEnd);
    assert TokensOfSelect(tables, joins, clauses, orderBy, limit, offset) == headTokens + fromTokens + endTokens;
    WholeText(head + from + end, headTokens + fromTokens + endTokens, okHead && okFrom && okEnd);
  }

  // ---------- aliases that are none ----------

  lemma ReadWordsAreGood(sql: string, values: seq<Value>)
    ensures var s := ParseSelect(sql, values); s.Some? ==> forall w :: Word(w) in SelectLeaves(s.value) ==> GoodAlias(w)
  {
    hide Lex, ParseSelectTokens, Leaves, SelectLeaves, GoodAlias;
    WordsAreGood(sql, values);
    var ts := Lex(sql, values);
    if ts.Some? && ParseSelectTokens(ts.value).Some? {
      SelectKeeps(ts.value);
      LeavesAreTokens(ts.value);
    }
  }

  lemma NoSingleAlias(alias: string)
    requires !SingleAlias(alias)
    ensures AliasToken(alias) == Word(alias) && !GoodAlias(alias)
  {
    hide GoodAlias, AliasRead;
    if GoodAlias(alias) {
      GoodAliasIsRead(alias);
    }
  }

  lemma {:induction false} AliasIsLeaf(tables: seq<QualifiedTable>, joins: seq<JoinClause>, i: nat, k: nat)
    requires 1 <= i <= k < |tables| <= |joins| + 1 && FormedJoins(joins, i, |tables|) && tables[k].alias.Some?
    ensures AliasToken(tables[k].alias.value) in JoinLeaves(JoinsMeant(tables, joins, i))
    decreases |tables| - i
  {
    hide AliasToken, TableLeaves, KindLeaves, OptionLeaves, ConditionMeant, Flat, FlatSchema, FormedCondition;
    var rest := JoinsMeant(tables, joins, i + 1);
    assert JoinsMeant(tables, joins, i)[1..] == rest;
    if i < k {
      AliasIsLeaf(tables, joins, i + 1, k);
    } else {
      assert AliasToken(tables[k].alias.value) in SourceLeaves(SourceMeant(tables[k]));
    }
  }

  lemma AliasesAreLeaves(tables: seq<QualifiedTable>, joins: seq<JoinClause>, clauses: seq<Predicate>,
                         orderBy: seq<(Representable, Order)>, limit: Option<int>, offset: Option<int>, k: nat)
    requires 1 <= |tables| <= |joins| + 1 && Formed(tables, joins, clauses, orderBy) && k < |tables| && tables[k].alias.Some?
    ensures AliasToken(tables[k].alias.value) in SelectLeaves(SelectMeant(tables, joins, clauses, orderBy, limit, offset))
  {
    hide AliasToken, TableLeaves, JoinLeaves, AllLeaves, EndLeaves, Flat, FlatSchema, JoinsMeant, ColumnsMeant, WhereMeant, OrderMeant,
         FormedJoins, FormedClauses, FormedOrder;
    if k > 0 {
      AliasIsLeaf(tables, joins, 1, k);
    } else {
      assert AliasToken(tables[0].alias.value) in SourceLeaves(SourceMeant(tables[0]));
    }
  }

  /** An assembled SELECT, read with its bindings, has the columns of all tables under the aliases of
      these, each table joined to the one before it as was asked, with the condition that was given or
      the one that its foreign key stands for, all the clauses as one AND, every order term with its
      direction, and the limit and the offset. It is that if and only if every name is legible, every
      alias of a table is an identifier, some table has a column, and an offset comes with a limit.
      Where the names can be read, it is no statement at all otherwise; nor is it with an empty AND, OR
      or tuple in it. */
  lemma SelectIsRead(tables: seq<QualifiedTable>, joins: seq<JoinClause>, clauses: seq<Predicate>,
                     orderBy: seq<(Representable, Order)>, limit: Option<int>, offset: Option<int>)
    requires 1 <= |tables| <= |joins| + 1
    ensures var parts := SelectParts(tables, joins, clauses, orderBy, limit, offset);
            Formed(tables, joins, clauses, orderBy) ==>
              (ParseSelect(Sql(parts), Bindings(parts)) == Some(SelectMeant(tables, joins, clauses, orderBy, limit, offset))
               <==> LegibleSelect(tables, joins, clauses, orderBy) && HasColumns(tables) && HasLimit(limit, offset))
    ensures var parts := SelectParts(tables, joins, clauses, orderBy, limit, offset);
            LegibleSelect(tables, joins, clauses, orderBy)
            && !(Formed(tables, joins, clauses, orderBy) && HasColumns(tables) && HasLimit(limit, offset))
            ==> ParseSelect(Sql(parts), Bindings(parts)) == None
  {
    hide Lex, Sql, Bindings, SelectParts, TokensOfSelect, ParseSelectTokens, SelectMeant, Formed, LegibleSelect, HasColumns, HasLimit, Begins,
         Leaves, SelectLeaves, SingleSource, AliasToken, GoodAlias;
    var parts := SelectParts(tables, joins, clauses, orderBy, limit, offset);
    var o := Lex(Sql(parts), Bindings(parts));
    LegibleAreSingle(tables, joins, clauses, orderBy);
    if SingleSources(tables) {
      LexOfSelect(tables, joins, clauses, orderBy, limit, offset);
      SelectOfTokens(tables, joins, clauses, orderBy, limit, offset);
      if Formed(tables, joins, clauses, orderBy) && o.Some?
         && ParseSelectTokens(o.value) == Some(SelectMeant(tables, joins, clauses, orderBy, limit, offset)) {
        MeantOnly(tables, joins, clauses, orderBy, limit, offset, o.value);
      }
    } else {
      var k :| 0 <= k < |tables| && !SingleSource(tables[k]);
      ReadWordsAreGood(Sql(parts), Bindings(parts));
      NoSingleSource(tables[k]);
      if Formed(tables, joins, clauses, orderBy) {
        AliasesAreLeaves(tables, joins, clauses, orderBy, limit, offset, k);
      }
    }
  }

  lemma NoSingleSource(t: QualifiedTable)
    requires !SingleSource(t)
    ensures t.alias.Some? && AliasToken(t.alias.value) == Word(t.alias.value) && !GoodAlias(t.alias.value)
  {
    hide SingleAlias, AliasToken, GoodAlias;
    NoSingleAlias(t.alias.value);
  }

  lemma LegibleAreSingle(tables: seq<QualifiedTable>, joins: seq<JoinClause>, clauses: seq<Predicate>, orderBy: seq<(Representable, Order)>)
    requires 1 <= |tables| <= |joins| + 1
    ensures LegibleSelect(tables, joins, clauses, orderBy) ==> SingleSources(tables)
  {
    hide SingleSource, LegibleTable, LegibleCondition, ReadableClauses, ReadableOrder, Legible;
  }

  /** Tokens that are read as what is meant have the leaves of the tokens that were meant, and there
      are columns and no lone offset. */
  lemma MeantOnly(tables: seq<QualifiedTable>, joins: seq<JoinClause>, clauses: seq<Predicate>,
                  orderBy: seq<(Representable, Order)>, limit: Option<int>, offset: Option<int>, ts: seq<Token>)
    requires 1 <= |tables| <= |joins| + 1 && Formed(tables, joins, clauses, orderBy)
    requires ParseSelectTokens(ts) == Some(SelectMeant(tables, joins, clauses, orderBy, limit, offset))
    ensures HasColumns(tables) && HasLimit(limit, offset)
    ensures Begins(TokensOfSelect(tables, joins, clauses, orderBy, limit, offset), Some(ts))
  {
    hide TokensOfSelect, ParseSelectTokens, Formed, HasColumns, Leaves, SelectLeaves, JoinsMeant, WhereMeant, OrderMeant, SourceMeant, AllColumns;
    ReadHasParts(ts);
    ColumnsThere(tables);
    var s := SelectMeant(tables, joins, clauses, orderBy, limit, offset);
    assert AllColumns(tables) == [] ==> s.columns == [];
    SelectOfTokens(tables, joins, clauses, orderBy, limit, offset);
    SelectKeeps(ts);
    SelectKeeps(TokensOfSelect(tables, joins, clauses, orderBy, limit, offset));
  }

  /** An offset without a limit: SELECT "a" FROM "t" OFFSET 5 is no statement. */
  lemma OffsetAlone()
    ensures var parts := SelectParts([QualifiedTable(["t"], [SQLColumn(["a"], false, false, None)], None, None)], [], [], [], None, Some(5));
            ParseSelect(Sql(parts), Bindings(parts)) == None
  {
    hide ParseSelect, SelectParts, Sql, Bindings, SelectMeant, Formed;
    var t := QualifiedTable(["t"], [SQLColumn(["a"], false, false, None)], None, None);
    PlainNameIsLegible("t");
    PlainNameIsLegible("a");
    SelectIsRead([t], [], [], [], None, Some(5));
  }

  lemma PlainNameIsLegible(name: string)
    requires |name| == 1 && name[0] != MARK && name[0] != NUL
    ensures Legible([name], MARK)
  {
    assert [name][1..] == [] && Flat([name]) == name + [] == name;
  }
}

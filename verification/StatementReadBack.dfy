/** What SQL reads in the texts and tokens that updates and inserts have in common. */
module StatementReadBack {
  import opened Wrappers
  import opened SqlExpression
  import opened SqlPredicate
  import opened SqlLexer
  import opened SqlParser
  import opened SqlMeaning
  import opened SqlQuery
  import opened PrimaryKeyQuery
  import opened RowStatements
  import opened StatementParser

  // ---------- names ----------

  function FlatSchema(schema: Option<Characters>): Option<string> {
    if schema.None? then None else Some(Flat(schema.value))
  }

  function FlatNames(cells: Cells): seq<string> {
    if cells == [] then [] else [Flat(cells[0].0.name)] + FlatNames(cells[1..])
  }

  function TableTokens(name: Characters, schema: Option<Characters>): seq<Token> {
    (if schema.Some? then [Name(Flat(schema.value)), Dot] else []) + [Name(Flat(name))]
  }

  lemma TableRead(name: Characters, schema: Option<Characters>, tail: seq<Token>)
    requires tail != [] ==> tail[0] != Dot
    ensures ParseTable(TableTokens(name, schema) + tail) == Some(((FlatSchema(schema), Flat(name)), tail))
  {
    hide Flat;
    var ts := TableTokens(name, schema) + tail;
    assert ts[|TableTokens(name, schema)|..] == tail;
  }

  // ---------- from text to tokens ----------

  /** The names of the table and of its schema are read back as they are. */
  predicate LegibleTable(name: Characters, schema: Option<Characters>) {
    Legible(name, MARK) && (schema.Some? ==> Legible(schema.value, MARK))
  }

  predicate LegibleCells(cells: Cells) {
    forall c :: c in cells ==> Legible(c.0.name, MARK)
  }

  /** Two texts written as one piece. */
  lemma PieceThen(s: string, ts: seq<Token>, oks: bool, t: string, us: seq<Token>, okt: bool)
    requires PartsReadAny(Piece(s), ts, oks) || (PartsRead(Piece(s), ts, oks) && t != [] && Boundary(t))
    ensures PartsRead(Piece(t), us, okt) ==> PartsRead(Piece(s + t), ts + us, oks && okt)
    ensures PartsReadAny(Piece(t), us, okt) ==> PartsReadAny(Piece(s + t), ts + us, oks && okt)
  {
    hide Reads, ReadsAny, Misreads, MisreadsAny;
    if t != [] && Boundary(t) {
      StartOfPiece(t, []);
    }
    PartsThen(Piece(s), ts, oks, Piece(t), us, okt);
    PieceText(s);
    PieceText(t);
    PieceText(s + t);
    SqlOfAppend(Piece(s), Piece(t));
    BindingsOfAppend(Piece(s), Piece(t));
    var none: seq<Value> := [];
    assert none + none == none;
  }

  lemma WordPieceReads(k: string)
    requires IsKeyword(k)
    ensures PartsReadAny(Piece(k + " "), [Keyword(k)], true) && PartsReadAny(Piece(" " + k + " "), [Keyword(k)], true)
  {
    hide IsKeyword, Reads, ReadsAny;
    SpacedKeywordReads(k);
    PieceReads(k + " ", [Keyword(k)]);
    PieceReads(" " + k + " ", [Keyword(k)]);
  }

  lemma SpacePieceReads()
    ensures PartsReadAny(Piece(" "), [], true) && PartsReadAny(Piece("."), [Dot], true)
  {
    hide Reads, ReadsAny;
    SpaceReads();
    PunctuationReads();
    PieceReads(" ", []);
    PieceReads(".", [Dot]);
  }

  lemma TableNameReads(name: Characters, schema: Option<Characters>)
    ensures PartsRead(Piece(TableName(name, schema)), TableTokens(name, schema), LegibleTable(name, schema))
  {
    hide PartsRead, PartsReadAny, Quoted, Legible, Flat, Piece;
    ColumnRead(name);
    if schema.Some? {
      ColumnRead(schema.value);
      SpacePieceReads();
      var s, ok := Quoted(schema.value, MARK), Legible(schema.value, MARK);
      PieceThen(s, [Name(Flat(schema.value))], ok, ".", [Dot], true);
      PieceThen(s + ".", [Name(Flat(schema.value))] + [Dot], ok, Quoted(name, MARK), [Name(Flat(name))], Legible(name, MARK));
      assert [Name(Flat(schema.value))] + [Dot] + [Name(Flat(name))] == TableTokens(name, schema);
    } else {
      assert [Name(Flat(name))] == TableTokens(name, schema);
    }
  }

  lemma EqualsPieceReads()
    ensures PartsReadAny(Piece(" = "), [Symbol(Eq)], true)
  {
    hide Reads, ReadsAny;
    OperatorReads(Eq);
    assert " " + OperatorText(Eq) + " " == " = " && OperatorTokens(Eq) == [Symbol(Eq)];
    PieceReads(" = ", [Symbol(Eq)]);
  }

  lemma LeavesOfComma()
    ensures Leaves([Comma]) == [] && Leaves([]) == []
  {
    assert [Comma][1..] == [];
  }

  lemma LeavesOfTable(name: Characters, schema: Option<Characters>)
    ensures Leaves(TableTokens(name, schema)) == TableLeaves(FlatSchema(schema), Flat(name))
  {
    hide Flat, Leaves;
    LeavesOfComma();
    var ts := TableTokens(name, schema);
    assert ts[0..] == ts && ts[|ts|..] == [];
    LeafStep(ts, 0);
    if schema.Some? {
      LeafStep(ts, 1);
      LeafStep(ts, 2);
    }
  }

  lemma LeavesOfKeyword(k: string)
    ensures Leaves([Keyword(k)]) == []
  {
    assert [Keyword(k)][1..] == [];
  }

  /** What a text is read as, told by its tokens: with them, what they parse to; without them nothing
      with the same leaves. */
  lemma ReadFromTokens(parts: seq<Part>, ts: seq<Token>, ok: bool, formed: bool, meant: Statement)
    requires if ok then Lex(Sql(parts), Bindings(parts)) == Some(ts) else !Begins(ts, Lex(Sql(parts), Bindings(parts)))
    requires ParseTokens(ts) == if formed then Some(meant) else None
    requires Leaves(ts) == StatementLeaves(meant)
    ensures ParseStatement(Sql(parts), Bindings(parts)) == Some(meant) <==> ok && formed
    ensures ok && !formed ==> ParseStatement(Sql(parts), Bindings(parts)) == None
  {
    hide Lex, ParseTokens, Leaves, StatementLeaves;
    var o := Lex(Sql(parts), Bindings(parts));
    if o.Some? && ParseTokens(o.value) == Some(meant) {
      TokensKeep(o.value);
    }
  }

  /** The empty text that a statement starts from is neither read nor bound. */
  lemma EmptyStart(parts: seq<Part>)
    ensures Sql(Piece("") + parts) == Sql(parts) && Bindings(Piece("") + parts) == Bindings(parts)
  {
    PieceText("");
    SqlOfAppend(Piece(""), parts);
    BindingsOfAppend(Piece(""), parts);
  }
}

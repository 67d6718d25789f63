/** What SQL reads in the insert or the upsert of one instance. */
module InsertReadBack {
  import opened Wrappers
  import opened SqlExpression
  import opened SqlPredicate
  import opened SqlLexer
  import opened SqlParser
  import opened SqlQuery
  import opened RowStatements
  import opened StatementParser
  import opened StatementReadBack

  /** Each column set to its own excluded value. */
  function Replacements(cells: Cells): seq<(string, string)> {
    if cells == [] then [] else [(Flat(cells[0].0.name), Flat(cells[0].0.name))] + Replacements(cells[1..])
  }

  function Inserts(name: Characters, schema: Option<Characters>, cells: Cells, purpose: Purpose): Statement {
    Insert(FlatSchema(schema), Flat(name), FlatNames(Kept(cells)), CellValues(Kept(cells)),
           if HasConflict(cells, purpose) then Some(Conflict(FlatNames(KeyCells(cells)), Replacements(Kept(cells)))) else None)
  }

  // ---------- the tokens ----------

  function NameTokens(cells: Cells, first: bool): seq<Token> {
    if cells == [] then [] else (if first then [] else [Comma]) + [Name(Flat(cells[0].0.name))] + NameTokens(cells[1..], false)
  }

  function ValueTokens(cells: Cells, first: bool): seq<Token> {
    if cells == [] then [] else (if first then [] else [Comma]) + [Param(cells[0].1)] + ValueTokens(cells[1..], false)
  }

  function ReplacedTokens(name: string): seq<Token> {
    [Name(name), Symbol(Eq)] + [Word("EXCLUDED"), Dot] + [Name(name)]
  }

  function ExcludedTokens(cells: Cells, first: bool): seq<Token> {
    if cells == [] then []
    else (if first then [] else [Comma]) + ReplacedTokens(Flat(cells[0].0.name)) + ExcludedTokens(cells[1..], false)
  }

  function InsertTokens(name: Characters, schema: Option<Characters>, cells: Cells): seq<Token> {
    [Keyword("INSERT"), Keyword("INTO")] + TableTokens(name, schema) + [LPar] + NameTokens(cells, true) + [RPar]
    + [Keyword("VALUES")] + [LPar] + ValueTokens(cells, true) + [RPar]
  }

  function OnConflict(): seq<Token> {
    [Keyword("ON"), Word("CONFLICT"), LPar]
  }

  function DoUpdateSet(): seq<Token> {
    [RPar, Word("DO"), Keyword("UPDATE"), Keyword("SET")]
  }

  function ConflictTokens(keys: Cells, kept: Cells): seq<Token> {
    OnConflict() + NameTokens(keys, true) + DoUpdateSet() + ExcludedTokens(kept, true)
  }

  function InsertOrUpsertTokens(name: Characters, schema: Option<Characters>, cells: Cells, purpose: Purpose): seq<Token> {
    InsertTokens(name, schema, Kept(cells)) + if HasConflict(cells, purpose) then ConflictTokens(KeyCells(cells), Kept(cells)) else []
  }

  // ---------- from tokens to the statement ----------

  lemma NameFirst(name: string, ts: seq<Token>)
    ensures ParseNames([Name(name), Comma] + ts) == First(name, ParseNames(ts))
    ensures ParseNames([Name(name), RPar] + ts) == Some(([name], ts))
  {
    assert ([Name(name), Comma] + ts)[2..] == ts && ([Name(name), RPar] + ts)[2..] == ts;
  }

  lemma FlatNamesAre(cells: Cells)
    requires cells != []
    ensures FlatNames(cells) == [Flat(cells[0].0.name)] + FlatNames(cells[1..])
  {
    hide Flat;
  }

  lemma NamesUnfold(cells: Cells, tail: seq<Token>)
    requires cells != []
    ensures var name, rest := Flat(cells[0].0.name), cells[1..];
            NameTokens(cells, true) + tail
            == if rest == [] then [Name(name)] + tail else [Name(name), Comma] + (NameTokens(rest, true) + tail)
  {
    hide Flat, NameTokens;
    var name, rest := Flat(cells[0].0.name), cells[1..];
    NameTokensAre(cells, true);
    NameTokensAre(rest, false);
    NameTokensAre(rest, true);
    if rest == [] {
      assert NameTokens(cells, true) == [Name(name)];
    } else {
      var next, more := [Name(Flat(rest[0].0.name))], NameTokens(rest[1..], false);
      assert NameTokens(cells, true) == [Name(name), Comma] + (next + more);
      assert NameTokens(rest, true) == next + more;
      Associate([Name(name), Comma], next + more, tail);
    }
  }

  lemma NameTokensAre(cells: Cells, first: bool)
    ensures cells == [] ==> NameTokens(cells, first) == []
    ensures cells != [] ==>
      NameTokens(cells, first) == (if first then [] else [Comma]) + [Name(Flat(cells[0].0.name))] + NameTokens(cells[1..], false)
  {
    hide Flat;
  }

  lemma {:induction false} NamesRead(cells: Cells, tail: seq<Token>)
    ensures ParseNames(NameTokens(cells, true) + ([RPar] + tail)) == if cells == [] then None else Some((FlatNames(cells), tail))
  {
    hide Flat, NameTokens, FlatNames, ParseNames;
    NoNames(tail);
    if cells != [] {
      var name, rest := Flat(cells[0].0.name), cells[1..];
      NamesUnfold(cells, [RPar] + tail);
      FlatNamesAre(cells);
      if rest == [] {
        NameFirst(name, tail);
        assert [Name(name)] + ([RPar] + tail) == [Name(name), RPar] + tail && [name] + [] == [name];
      } else {
        NamesRead(rest, tail);
        NameFirst(name, NameTokens(rest, true) + ([RPar] + tail));
      }
    }
  }

  lemma NoNames(tail: seq<Token>)
    ensures NameTokens([], true) == [] && FlatNames([]) == [] && ParseNames([] + ([RPar] + tail)) == None
  {
  }

  lemma {:induction false} ValuesRead(cells: Cells, tail: seq<Token>)
    ensures ParseValues(ValueTokens(cells, true) + ([RPar] + tail)) == if cells == [] then None else Some((CellValues(cells), tail))
  {
    var ts := ValueTokens(cells, true) + ([RPar] + tail);
    if cells != [] {
      var v, rest := cells[0].1, ValueTokens(cells[1..], true) + ([RPar] + tail);
      assert CellValues(cells) == [v] + CellValues(cells[1..]);
      ValuesRead(cells[1..], tail);
      if |cells| > 1 {
        assert ValueTokens(cells[1..], false) == [Comma] + ValueTokens(cells[1..], true);
        assert ts == [Param(v), Comma] + rest && ts[2..] == rest;
      } else {
        assert ts == [Param(v), RPar] + tail && ts[2..] == tail && CellValues(cells) == [v];
      }
    }
  }

  lemma ReplacedFirst(name: string, ts: seq<Token>)
    ensures ParseReplaced(ReplacedTokens(name)) == Some([(name, name)])
    ensures ParseReplaced(ts).Some? ==>
      ParseReplaced(ReplacedTokens(name) + ([Comma] + ts)) == Some([(name, name)] + ParseReplaced(ts).value)
  {
    assert (ReplacedTokens(name) + ([Comma] + ts))[6..] == ts;
  }

  lemma ExcludedIs(cells: Cells, first: bool)
    ensures cells == [] ==> ExcludedTokens(cells, first) == []
    ensures cells != [] ==>
      ExcludedTokens(cells, first)
      == (if first then [] else [Comma]) + ReplacedTokens(Flat(cells[0].0.name)) + ExcludedTokens(cells[1..], false)
  {
    hide Flat, ReplacedTokens;
  }

  lemma ReplacementsAre(cells: Cells)
    requires cells != []
    ensures var name, rest := Flat(cells[0].0.name), cells[1..];
            Replacements(cells) == if rest == [] then [(name, name)] else [(name, name)] + Replacements(rest)
  {
    hide Flat;
  }

  lemma ExcludedUnfolds(cells: Cells)
    requires cells != []
    ensures var own, rest := ReplacedTokens(Flat(cells[0].0.name)), cells[1..];
            ExcludedTokens(cells, true) == if rest == [] then own else own + ([Comma] + ExcludedTokens(rest, true))
  {
    hide Flat, ReplacedTokens, ExcludedTokens;
    var own, rest := ReplacedTokens(Flat(cells[0].0.name)), cells[1..];
    var none: seq<Token> := [];
    ExcludedIs(cells, true);
    ExcludedIs(rest, false);
    ExcludedIs(rest, true);
    assert none + own == own && own + none == own;
    if rest != [] {
      var next, more := ReplacedTokens(Flat(rest[0].0.name)), ExcludedTokens(rest[1..], false);
      assert none + next == next;
      Associate([Comma], next, more);
    }
  }

  lemma {:induction false} ExcludedRead(cells: Cells)
    requires cells != []
    ensures ParseReplaced(ExcludedTokens(cells, true)) == Some(Replacements(cells))
  {
    hide Flat, ReplacedTokens, ParseReplaced, ExcludedTokens, Replacements;
    var name, rest := Flat(cells[0].0.name), cells[1..];
    ReplacedFirst(name, ExcludedTokens(rest, true));
    ExcludedUnfolds(cells);
    ReplacementsAre(cells);
    if rest != [] {
      ExcludedRead(rest);
    }
  }

  lemma NoConflict()
    ensures ParseConflict([]) == Some(None)
  {
  }

  lemma ConflictRead(keys: Cells, kept: Cells)
    requires keys != [] && kept != []
    ensures ParseConflict(ConflictTokens(keys, kept)) == Some(Some(Conflict(FlatNames(keys), Replacements(kept))))
  {
    hide ParseNames, ParseReplaced, NameTokens, ExcludedTokens, FlatNames, Replacements;
    var ts := ConflictTokens(keys, kept);
    var excluded := ExcludedTokens(kept, true);
    var tail := [Word("DO"), Keyword("UPDATE"), Keyword("SET")] + excluded;
    assert DoUpdateSet() + excluded == [RPar] + tail;
    assert ts == OnConflict() + (NameTokens(keys, true) + ([RPar] + tail));
    assert ts[3..] == NameTokens(keys, true) + ([RPar] + tail) && tail[3..] == excluded;
    NamesRead(keys, tail);
    ExcludedRead(kept);
  }

  lemma InsertTokensAre(name: Characters, schema: Option<Characters>, cells: Cells, purpose: Purpose, ts: seq<Token>, names: seq<Token>,
                        middle: seq<Token>, values: seq<Token>, end: seq<Token>)
    requires ts == TableTokens(name, schema) + ([LPar] + names) && names == NameTokens(Kept(cells), true) + ([RPar] + middle)
    requires middle == [Keyword("VALUES"), LPar] + values && values == ValueTokens(Kept(cells), true) + ([RPar] + end)
    requires end == if HasConflict(cells, purpose) then ConflictTokens(KeyCells(cells), Kept(cells)) else []
    ensures InsertOrUpsertTokens(name, schema, cells, purpose) == [Keyword("INSERT"), Keyword("INTO")] + ts
  {
    hide TableTokens, NameTokens, ValueTokens, ConflictTokens, Kept, KeyCells;
  }

  lemma ParseOfInsert(name: Characters, schema: Option<Characters>, cells: Cells, purpose: Purpose)
    ensures ParseTokens(InsertOrUpsertTokens(name, schema, cells, purpose))
         == if Kept(cells) != [] then Some(Inserts(name, schema, cells, purpose)) else None
  {
    hide ParseTable, ParseNames, ParseValues, ParseConflict, TableTokens, NameTokens, ValueTokens, ConflictTokens, Kept, KeyCells,
         FlatNames, CellValues, Replacements, Flat;
    var kept, keys := Kept(cells), KeyCells(cells);
    var end := if HasConflict(cells, purpose) then ConflictTokens(keys, kept) else [];
    var values := ValueTokens(kept, true) + ([RPar] + end);
    var middle := [Keyword("VALUES"), LPar] + values;
    var names := NameTokens(kept, true) + ([RPar] + middle);
    var ts := TableTokens(name, schema) + ([LPar] + names);
    var all := InsertOrUpsertTokens(name, schema, cells, purpose);
    InsertTokensAre(name, schema, cells, purpose, ts, names, middle, values, end);
    assert all[2..] == ts && ([LPar] + names)[1..] == names && middle[2..] == values;
    TableRead(name, schema, [LPar] + names);
    NamesRead(kept, middle);
    ValuesRead(kept, end);
    NamesAreAsMany(kept);
    NoConflict();
    if kept != [] && keys != [] {
      ConflictRead(keys, kept);
    }
  }

  lemma {:induction false} NamesAreAsMany(cells: Cells)
    ensures |FlatNames(cells)| == |cells|
  {
    hide Flat;
    if cells != [] {
      NamesAreAsMany(cells[1..]);
    }
  }

  // ---------- leaves ----------

  lemma LeavesOfLeaf(t: Token)
    requires t.Name? || t.Param?
    ensures Leaves([t]) == [t]
  {
    assert [t][1..] == [];
  }

  lemma {:induction false} LeavesOfNames(cells: Cells, first: bool)
    ensures Leaves(NameTokens(cells, first)) == NameLeaves(FlatNames(cells))
  {
    hide Leaves, Flat;
    LeavesOfComma();
    if cells != [] {
      var own, separator := [Name(Flat(cells[0].0.name))], if first then [] else [Comma];
      LeavesOfLeaf(own[0]);
      LeavesOfNames(cells[1..], false);
      LeavesOfAppend(separator, own);
      LeavesOfAppend(separator + own, NameTokens(cells[1..], false));
      assert FlatNames(cells)[1..] == FlatNames(cells[1..]);
    }
  }

  lemma {:induction false} LeavesOfValues(cells: Cells, first: bool)
    ensures Leaves(ValueTokens(cells, first)) == ValueLeaves(CellValues(cells))
  {
    hide Leaves;
    LeavesOfComma();
    if cells != [] {
      var own, separator := [Param(cells[0].1)], if first then [] else [Comma];
      LeavesOfLeaf(own[0]);
      LeavesOfValues(cells[1..], false);
      LeavesOfAppend(separator, own);
      LeavesOfAppend(separator + own, ValueTokens(cells[1..], false));
      assert CellValues(cells)[1..] == CellValues(cells[1..]);
    }
  }

  lemma LeavesOfReplaced(name: string)
    ensures Leaves(ReplacedTokens(name)) == [Name(name), Word("EXCLUDED"), Name(name)]
  {
    hide Leaves;
    LeavesOfComma();
    var ts := ReplacedTokens(name);
    assert ts[0..] == ts && ts[5..] == [];
    LeafStep(ts, 0);
    LeafStep(ts, 1);
    LeafStep(ts, 2);
    LeafStep(ts, 3);
    LeafStep(ts, 4);
  }

  lemma {:induction false} LeavesOfExcluded(cells: Cells, first: bool)
    ensures Leaves(ExcludedTokens(cells, first)) == ReplacedLeaves(Replacements(cells))
  {
    hide Leaves, Flat, ReplacedTokens;
    LeavesOfComma();
    if cells != [] {
      var own, separator := ReplacedTokens(Flat(cells[0].0.name)), if first then [] else [Comma];
      LeavesOfReplaced(Flat(cells[0].0.name));
      LeavesOfExcluded(cells[1..], false);
      LeavesOfAppend(separator, own);
      LeavesOfAppend(separator + own, ExcludedTokens(cells[1..], false));
      assert Replacements(cells)[1..] == Replacements(cells[1..]);
    }
  }

  lemma LeavesOfWords()
    ensures Leaves(OnConflict()) == [Word("CONFLICT")] && Leaves(DoUpdateSet()) == [Word("DO")]
    ensures Leaves([LPar]) == [] && Leaves([RPar]) == [] && Leaves([Keyword("INSERT"), Keyword("INTO")]) == []
  {
    hide Leaves;
    LeavesOfComma();
    var a, b, c := OnConflict(), DoUpdateSet(), [Keyword("INSERT"), Keyword("INTO")];
    assert a[0..] == a && a[3..] == [] && b[0..] == b && b[4..] == [] && c[0..] == c && c[2..] == [];
    LeafStep(a, 0);
    LeafStep(a, 1);
    LeafStep(a, 2);
    LeafStep(b, 0);
    LeafStep(b, 1);
    LeafStep(b, 2);
    LeafStep(b, 3);
    LeafStep(c, 0);
    LeafStep(c, 1);
    assert [LPar][0..] == [LPar] && [LPar][1..] == [] && [RPar][0..] == [RPar] && [RPar][1..] == [];
    LeafStep([LPar], 0);
    LeafStep([RPar], 0);
  }

  lemma LeavesOfConflict(keys: Cells, kept: Cells)
    ensures Leaves(ConflictTokens(keys, kept)) == ConflictLeaves(Some(Conflict(FlatNames(keys), Replacements(kept))))
  {
    hide Leaves, NameTokens, ExcludedTokens, OnConflict, DoUpdateSet, FlatNames, Replacements, NameLeaves, ReplacedLeaves;
    var names, excluded := NameTokens(keys, true), ExcludedTokens(kept, true);
    LeavesOfWords();
    LeavesOfNames(keys, true);
    LeavesOfExcluded(kept, true);
    LeavesOfAppend(OnConflict(), names);
    LeavesOfAppend(OnConflict() + names, DoUpdateSet());
    LeavesOfAppend(OnConflict() + names + DoUpdateSet(), excluded);
  }

  lemma LeavesOfInsert(name: Characters, schema: Option<Characters>, kept: Cells)
    ensures Leaves(InsertTokens(name, schema, kept))
         == TableLeaves(FlatSchema(schema), Flat(name)) + NameLeaves(FlatNames(kept)) + ValueLeaves(CellValues(kept))
  {
    hide Leaves, TableTokens, NameTokens, ValueTokens, TableLeaves, NameLeaves, ValueLeaves, FlatNames, CellValues, Flat;
    var words, table, names, values := [Keyword("INSERT"), Keyword("INTO")], TableTokens(name, schema), NameTokens(kept, true), ValueTokens(kept, true);
    LeavesOfWords();
    LeavesOfKeyword("VALUES");
    LeavesOfTable(name, schema);
    LeavesOfNames(kept, true);
    LeavesOfValues(kept, true);
    LeavesOfAppend(words, table);
    LeavesOfAppend(words + table, [LPar]);
    LeavesOfAppend(words + table + [LPar], names);
    var a := words + table + [LPar] + names;
    LeavesOfAppend(a, [RPar]);
    LeavesOfAppend(a + [RPar], [Keyword("VALUES")]);
    LeavesOfAppend(a + [RPar] + [Keyword("VALUES")], [LPar]);
    var b := a + [RPar] + [Keyword("VALUES")] + [LPar];
    assert Leaves(b) == Leaves(table) + Leaves(names);
    LeavesOfAppend(b, values);
    LeavesOfAppend(b + values, [RPar]);
  }

  lemma LeavesOfInserts(name: Characters, schema: Option<Characters>, cells: Cells, purpose: Purpose)
    ensures Leaves(InsertOrUpsertTokens(name, schema, cells, purpose)) == StatementLeaves(Inserts(name, schema, cells, purpose))
  {
    hide Leaves, InsertTokens, ConflictTokens, TableLeaves, NameLeaves, ValueLeaves, ConflictLeaves, FlatNames, CellValues,
         Replacements, Kept, KeyCells, Flat;
    var end := if HasConflict(cells, purpose) then ConflictTokens(KeyCells(cells), Kept(cells)) else [];
    LeavesOfComma();
    LeavesOfInsert(name, schema, Kept(cells));
    LeavesOfConflict(KeyCells(cells), Kept(cells));
    LeavesOfAppend(InsertTokens(name, schema, Kept(cells)), end);
    NoConflictLeaves();
  }

  lemma NoConflictLeaves()
    ensures ConflictLeaves(None) == []
  {
  }

  // ---------- from text to tokens ----------

  lemma LegibleCellsStep(cells: Cells)
    requires cells != []
    ensures LegibleCells(cells) <==> Legible(cells[0].0.name, MARK) && LegibleCells(cells[1..])
    ensures |cells| == 1 ==> LegibleCells(cells[1..])
  {
    hide Legible;
    assert cells == [cells[0]] + cells[1..];
  }

  lemma EmptyPieceReads()
    ensures PartsReadAny(Piece(""), [], true) && PartsRead(Piece(""), [], true)
  {
    hide Reads, ReadsAny;
    NothingReads();
    PieceReads("", []);
    AnyIsRead(Piece(""), [], true);
  }

  lemma CommaPieceReads()
    ensures PartsReadAny(Piece(", "), [Comma], true)
  {
    PiecesRead();
  }

  lemma {:induction false} ColumnListReads(cells: Cells, first: bool)
    ensures PartsRead(Piece(ColumnList(QuotedNames(cells), first)), NameTokens(cells, first), LegibleCells(cells))
    ensures !first && cells != [] ==> Boundary(ColumnList(QuotedNames(cells), first)) && ColumnList(QuotedNames(cells), first) != []
  {
    hide PartsRead, PartsReadAny, Quoted, Piece, LegibleCells, Legible, Flat;
    EmptyPieceReads();
    if cells == [] {
      NoneAreLegible();
    } else {
      var name, text, rest := cells[0].0.name, Quoted(cells[0].0.name, MARK), ColumnList(QuotedNames(cells[1..]), false);
      assert QuotedNames(cells)[0] == text && QuotedNames(cells)[1..] == QuotedNames(cells[1..]);
      var separator, comma := if first then "" else ", ", if first then [] else [Comma];
      CommaPieceReads();
      LegibleCellsStep(cells);
      ColumnRead(name);
      ColumnListReads(cells[1..], false);
      PieceThen(separator, comma, true, text, [Name(Flat(name))], Legible(name, MARK));
      if |cells| > 1 {
        PieceThen(separator + text, comma + [Name(Flat(name))], Legible(name, MARK), rest, NameTokens(cells[1..], false),
                  LegibleCells(cells[1..]));
      } else {
        assert separator + text + [] == separator + text && comma + [Name(Flat(name))] + [] == comma + [Name(Flat(name))];
      }
    }
  }

  lemma NoneAreLegible()
    ensures LegibleCells([])
  {
  }

  lemma {:induction false} ValuePartsRead(cells: Cells, first: bool)
    ensures PartsRead(ValueParts(cells, first), ValueTokens(cells, first), true)
    ensures !first && cells != [] ==> StartsAtBoundary(ValueParts(cells, first))
  {
    hide PartsRead, PartsReadAny, StartsAtBoundary;
    NothingIsRead();
    if cells != [] {
      CommaPieceReads();
      ValueRead(cells[0].1);
      ValuePartsRead(cells[1..], false);
      var own, tokens := RepParts(Val(cells[0].1)), [Param(cells[0].1)];
      var rest, restTokens := ValueParts(cells[1..], false), ValueTokens(cells[1..], false);
      var separator, comma := if first then [] else Piece(", "), if first then [] else [Comma];
      Associate(separator, own, rest);
      Associate(comma, tokens, restTokens);
      if !first {
        StartOfPiece(", ", own + rest);
      }
      if |cells| > 1 {
        PartsThen(own, tokens, true, rest, restTokens, true);
      } else {
        assert own + rest == own && tokens + restTokens == tokens;
      }
      PartsThen(separator, comma, true, own + rest, tokens + restTokens, true);
    }
  }

  lemma InsertHeadReads(name: Characters, schema: Option<Characters>)
    ensures PartsReadAny(Piece("INSERT INTO " + TableName(name, schema) + " "),
                         [Keyword("INSERT"), Keyword("INTO")] + TableTokens(name, schema), LegibleTable(name, schema))
  {
    hide PartsRead, PartsReadAny, TableName, TableTokens, LegibleTable, IsReserved, Piece;
    var table, tokens, ok := TableName(name, schema), TableTokens(name, schema), LegibleTable(name, schema);
    WordPieceReads("INSERT");
    WordPieceReads("INTO");
    SpacePieceReads();
    assert "INSERT" + " " == "INSERT " && "INTO" + " " == "INTO " && "INSERT " + "INTO " == "INSERT INTO ";
    PieceThen("INSERT ", [Keyword("INSERT")], true, "INTO ", [Keyword("INTO")], true);
    assert [Keyword("INSERT")] + [Keyword("INTO")] == [Keyword("INSERT"), Keyword("INTO")];
    TableNameReads(name, schema);
    PieceThen("INSERT INTO ", [Keyword("INSERT"), Keyword("INTO")], true, table, tokens, ok);
    var all := [Keyword("INSERT"), Keyword("INTO")] + tokens;
    PieceThen("INSERT INTO " + table, all, ok, " ", [], true);
    assert all + [] == all;
  }

  lemma InsertRead(name: Characters, schema: Option<Characters>, cells: Cells)
    ensures PartsReadAny(InsertParts(TableName(name, schema), cells), InsertTokens(name, schema, cells),
                         LegibleTable(name, schema) && LegibleCells(cells))
  {
    hide PartsRead, PartsReadAny, TableName, TableTokens, StartsAtBoundary, NameTokens, ValueTokens, ValueParts, ColumnList,
         QuotedNames, LegibleTable, LegibleCells, IsReserved;
    var head, ok := Piece("INSERT INTO " + TableName(name, schema) + " "), LegibleTable(name, schema);
    var headTokens := [Keyword("INSERT"), Keyword("INTO")] + TableTokens(name, schema);
    var list, oks := Piece(ColumnList(QuotedNames(cells), true)), LegibleCells(cells);
    InsertHeadReads(name, schema);
    PiecesRead();
    PartsThen(head, headTokens, ok, Piece("("), [LPar], true);
    ColumnListReads(cells, true);
    Closing(head + Piece("("), headTokens + [LPar], ok, list, NameTokens(cells, true), oks);
    var a, ta := head + Piece("(") + list + Piece(")"), headTokens + [LPar] + NameTokens(cells, true) + [RPar];
    WordPieceReads("VALUES");
    assert " " + "VALUES" + " " == " VALUES ";
    PartsThen(a, ta, ok && oks, Piece(" VALUES "), [Keyword("VALUES")], true);
    PartsThen(a + Piece(" VALUES "), ta + [Keyword("VALUES")], ok && oks, Piece("("), [LPar], true);
    ValuePartsRead(cells, true);
    Closing(a + Piece(" VALUES ") + Piece("("), ta + [Keyword("VALUES")] + [LPar], ok && oks, ValueParts(cells, true),
            ValueTokens(cells, true), true);
  }

  /** The three words of an upsert that are not reserved. */
  lemma FreeWordReads(w: string)
    requires w in ["CONFLICT", "DO", "EXCLUDED"]
    ensures PartsRead(Piece(w), [Word(w)], true)
  {
    hide Reads;
    FreeWord(w);
    WordReads(w);
    PieceReads(w, [Word(w)]);
  }

  lemma FreeWord(w: string)
    requires w in ["CONFLICT", "DO", "EXCLUDED"]
    ensures WordText(w) && WordToken(w) == Word(w)
  {
    assert Upper(w) == w && WordText(w);
    hide Upper, WordText;
    FreeOfKeywords(w);
    FreeOfReserved(w);
  }

  lemma FreeOfKeywords(w: string)
    requires w in ["CONFLICT", "DO", "EXCLUDED"]
    ensures !IsKeyword(w)
  {
  }

  lemma FreeToD(w: string)
    requires w in ["CONFLICT", "DO", "EXCLUDED"]
    ensures !ReservedToD(w)
  {
  }

  lemma FreeFromE(w: string)
    requires w in ["CONFLICT", "DO", "EXCLUDED"]
    ensures !ReservedFromE(w)
  {
  }

  lemma FreeOfReserved(w: string)
    requires w in ["CONFLICT", "DO", "EXCLUDED"]
    ensures !IsReserved(w)
  {
    hide ReservedToD, ReservedFromE;
    FreeToD(w);
    FreeFromE(w);
  }

  lemma ExcludedTextReads(cell: (SQLColumn, Value))
    ensures PartsRead(Piece(ExcludedText(cell)), ReplacedTokens(Flat(cell.0.name)), Legible(cell.0.name, MARK))
  {
    hide PartsRead, PartsReadAny, Quoted, Legible, Flat, Piece;
    var q, name, ok := Quoted(cell.0.name, MARK), [Name(Flat(cell.0.name))], Legible(cell.0.name, MARK);
    ColumnRead(cell.0.name);
    EqualsPieceReads();
    FreeWordReads("EXCLUDED");
    SpacePieceReads();
    PieceThen(q, name, ok, " = ", [Symbol(Eq)], true);
    PieceThen("EXCLUDED", [Word("EXCLUDED")], true, ".", [Dot], true);
    PieceThen("EXCLUDED" + ".", [Word("EXCLUDED")] + [Dot], true, q, name, ok);
    PieceThen(q + " = ", name + [Symbol(Eq)], ok, "EXCLUDED" + "." + q, [Word("EXCLUDED")] + [Dot] + name, ok);
    assert ColumnName(cell.0, Some("EXCLUDED")) == "EXCLUDED" + "." + q;
    assert name + [Symbol(Eq)] + ([Word("EXCLUDED")] + [Dot] + name) == ReplacedTokens(Flat(cell.0.name));
  }

  lemma {:induction false} ExcludedPartsRead(cells: Cells, first: bool)
    ensures PartsRead(ExcludedParts(cells, first), ExcludedTokens(cells, first), LegibleCells(cells))
    ensures !first && cells != [] ==> StartsAtBoundary(ExcludedParts(cells, first))
  {
    hide PartsRead, PartsReadAny, StartsAtBoundary, ExcludedText, ReplacedTokens, LegibleCells, Legible, Flat;
    NothingIsRead();
    if cells == [] {
      NoneAreLegible();
    } else {
      CommaPieceReads();
      LegibleCellsStep(cells);
      ExcludedTextReads(cells[0]);
      ExcludedPartsRead(cells[1..], false);
      var own, tokens, ok := Piece(ExcludedText(cells[0])), ReplacedTokens(Flat(cells[0].0.name)), Legible(cells[0].0.name, MARK);
      var rest, restTokens, oks := ExcludedParts(cells[1..], false), ExcludedTokens(cells[1..], false), LegibleCells(cells[1..]);
      var separator, comma := if first then [] else Piece(", "), if first then [] else [Comma];
      Associate(separator, own, rest);
      Associate(comma, tokens, restTokens);
      if !first {
        StartOfPiece(", ", own + rest);
      }
      if |cells| > 1 {
        PartsThen(own, tokens, ok, rest, restTokens, oks);
      } else {
        assert own + rest == own && tokens + restTokens == tokens;
      }
      PartsThen(separator, comma, true, own + rest, tokens + restTokens, ok && oks);
    }
  }

  lemma OnConflictReads()
    ensures PartsReadAny(Piece(" ON CONFLICT("), OnConflict(), true)
  {
    hide PartsRead, PartsReadAny, Piece, IsReserved, IsOperatorWord;
    PiecesRead();
    WordPieceReads("ON");
    FreeWordReads("CONFLICT");
    PieceThen(" " + "ON" + " ", [Keyword("ON")], true, "CONFLICT", [Word("CONFLICT")], true);
    assert " " + "ON" + " " + "CONFLICT" == " ON CONFLICT";
    PieceThen(" ON CONFLICT", [Keyword("ON")] + [Word("CONFLICT")], true, "(", [LPar], true);
    assert " ON CONFLICT" + "(" == " ON CONFLICT(";
    assert [Keyword("ON")] + [Word("CONFLICT")] + [LPar] == OnConflict();
  }

  lemma DoUpdateSetReads()
    ensures PartsReadAny(Piece(") DO UPDATE SET "), DoUpdateSet(), true)
  {
    hide PartsRead, PartsReadAny, Piece, IsReserved, IsOperatorWord;
    PiecesRead();
    SpacePieceReads();
    WordPieceReads("UPDATE");
    WordPieceReads("SET");
    FreeWordReads("DO");
    assert " " + "UPDATE" + " " == " UPDATE " && "SET" + " " == "SET ";
    PieceThen(")", [RPar], true, " ", [], true);
    assert ")" + " " == ") " && [RPar] + [] == [RPar];
    PieceThen(") ", [RPar], true, "DO", [Word("DO")], true);
    assert ") " + "DO" == ") DO" && [RPar] + [Word("DO")] == [RPar, Word("DO")];
    PieceThen(") DO", [RPar, Word("DO")], true, " UPDATE ", [Keyword("UPDATE")], true);
    assert ") DO" + " UPDATE " == ") DO UPDATE ";
    PieceThen(") DO UPDATE ", [RPar, Word("DO")] + [Keyword("UPDATE")], true, "SET ", [Keyword("SET")], true);
    assert ") DO UPDATE " + "SET " == ") DO UPDATE SET ";
    assert [RPar, Word("DO")] + [Keyword("UPDATE")] + [Keyword("SET")] == DoUpdateSet();
  }

  lemma ConflictPartsRead(keys: Cells, kept: Cells)
    ensures PartsRead(ConflictParts(keys, kept), ConflictTokens(keys, kept), LegibleCells(keys) && LegibleCells(kept))
    ensures StartsAtBoundary(ConflictParts(keys, kept))
  {
    hide PartsRead, PartsReadAny, StartsAtBoundary, NameTokens, ExcludedTokens, ExcludedParts, ColumnList, QuotedNames, LegibleCells,
         OnConflict, DoUpdateSet;
    var on, do_ := Piece(" ON CONFLICT("), Piece(") DO UPDATE SET ");
    var list, names, ok := Piece(ColumnList(QuotedNames(keys), true)), NameTokens(keys, true), LegibleCells(keys);
    OnConflictReads();
    DoUpdateSetReads();
    ColumnListReads(keys, true);
    ExcludedPartsRead(kept, true);
    StartOfPiece(") DO UPDATE SET ", []);
    PartsThen(on, OnConflict(), true, list, names, ok);
    PartsThen(on + list, OnConflict() + names, ok, do_, DoUpdateSet(), true);
    PartsThen(on + list + do_, OnConflict() + names + DoUpdateSet(), ok, ExcludedParts(kept, true), ExcludedTokens(kept, true),
              LegibleCells(kept));
    StartOfPiece(" ON CONFLICT(", list + do_ + ExcludedParts(kept, true));
    assert on + (list + do_ + ExcludedParts(kept, true)) == ConflictParts(keys, kept);
  }

  /** The names that are written are read back as they are. */
  predicate LegibleInsert(name: Characters, schema: Option<Characters>, cells: Cells, purpose: Purpose) {
    LegibleTable(name, schema) && LegibleCells(Kept(cells)) && (HasConflict(cells, purpose) ==> LegibleCells(KeyCells(cells)))
  }

  lemma LexOfInsert(name: Characters, schema: Option<Characters>, cells: Cells, purpose: Purpose)
    requires purpose != ToUpdate
    ensures var parts, ts := StatementParts(TableName(name, schema), cells, purpose, true),
                             InsertOrUpsertTokens(name, schema, cells, purpose);
            if LegibleInsert(name, schema, cells, purpose) then Lex(Sql(parts), Bindings(parts)) == Some(ts)
            else !Begins(ts, Lex(Sql(parts), Bindings(parts)))
  {
    hide Lex, PartsRead, PartsReadAny, StartsAtBoundary, InsertParts, InsertTokens, ConflictParts, ConflictTokens, TableName,
         LegibleTable, LegibleCells, Kept, KeyCells, Begins, Sql, Bindings;
    var kept, keys := Kept(cells), KeyCells(cells);
    var a, ta, ok := InsertParts(TableName(name, schema), kept), InsertTokens(name, schema, kept), LegibleTable(name, schema) && LegibleCells(kept);
    var b, tb := ConflictParts(keys, kept), ConflictTokens(keys, kept);
    InsertRead(name, schema, kept);
    if HasConflict(cells, purpose) {
      ConflictPartsRead(keys, kept);
      PartsThen(a, ta, ok, b, tb, LegibleCells(keys) && LegibleCells(kept));
      WholeText(a + b, ta + tb, ok && LegibleCells(keys) && LegibleCells(kept));
    } else {
      AnyIsRead(a, ta, ok);
      assert a + [] == a && ta + [] == ta;
      WholeText(a, ta, ok);
    }
  }

  /** The text of an insert, read with its bindings, gives each column that is not left out its value;
      that of an upsert also sets each of them to its excluded value where the primary key columns
      conflict. They do so if and only if a column is left and every name is legible; with legible
      names and no column left they are no statements. */
  lemma InsertIsRead(name: Characters, schema: Option<Characters>, cells: Cells, purpose: Purpose)
    requires purpose != ToUpdate
    ensures var parts := Piece("") + StatementParts(TableName(name, schema), cells, purpose, true);
            ParseStatement(Sql(parts), Bindings(parts)) == Some(Inserts(name, schema, cells, purpose))
            <==> LegibleInsert(name, schema, cells, purpose) && Kept(cells) != []
    ensures var parts := Piece("") + StatementParts(TableName(name, schema), cells, purpose, true);
            LegibleInsert(name, schema, cells, purpose) && Kept(cells) == [] ==> ParseStatement(Sql(parts), Bindings(parts)) == None
  {
    hide Lex, ParseStatement, Sql, Bindings, StatementParts, InsertOrUpsertTokens, LegibleInsert, TableName, Inserts, Leaves, Begins,
         ParseTokens, StatementLeaves, Piece, Kept;
    var parts := StatementParts(TableName(name, schema), cells, purpose, true);
    EmptyStart(parts);
    LexOfInsert(name, schema, cells, purpose);
    ParseOfInsert(name, schema, cells, purpose);
    LeavesOfInserts(name, schema, cells, purpose);
    ReadFromTokens(parts, InsertOrUpsertTokens(name, schema, cells, purpose), LegibleInsert(name, schema, cells, purpose),
                   Kept(cells) != [], Inserts(name, schema, cells, purpose));
  }

  /** An instance with nothing but a key that is to be assigned cannot be inserted. */
  lemma NothingToInsert()
    ensures var parts := Piece("") + StatementParts(TableName(["t"], None), [(SQLColumn(["i"], true, true, None), Long(0))], ToInsert, true);
            ParseStatement(Sql(parts), Bindings(parts)) == None
  {
    hide ParseStatement, Sql, Bindings, StatementParts, TableName, Piece;
    var cells := [(SQLColumn(["i"], true, true, None), Long(0))];
    assert cells[1..] == [] && Kept(cells) == [];
    InsertIsRead(["t"], None, cells, ToInsert);
  }
}

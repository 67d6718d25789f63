/** Reading INSERT and UPDATE statements with their values: the grammar of SQLite for the statements
    that are written for one instance. CONFLICT, DO and EXCLUDED are no reserved words; they are known
    in upper case only. */
module StatementParser {
  import opened Wrappers
  import opened SqlExpression
  import opened SqlPredicate
  import opened SqlLexer
  import opened SqlParser

  /** ON CONFLICT (target) DO UPDATE SET: columns that take the values of columns of the row that
      could not be inserted. */
  datatype Conflict = Conflict(target: seq<string>, replaced: seq<(string, string)>)

  datatype Statement =
    | Update(schema: Option<string>, table: string, assignments: seq<(string, Value)>, condition: Expr)
    | Insert(schema: Option<string>, table: string, columns: seq<string>, values: seq<Value>, conflict: Option<Conflict>)

  /** Assignments of placeholders to columns, with commas between them. */
  function ParseAssignments(ts: seq<Token>): Option<(seq<(string, Value)>, seq<Token>)>
    decreases |ts|
  {
    if |ts| > 2 && ts[0].Name? && ts[1] == Symbol(Eq) && ts[2].Param? then
      First((ts[0].name, ts[2].value), if |ts| > 3 && ts[3] == Comma then ParseAssignments(ts[4..]) else Some(([], ts[3..])))
    else None
  }

  function First<T>(x: T, o: Option<(seq<T>, seq<Token>)>): Option<(seq<T>, seq<Token>)> {
    if o.None? then None else Some(([x] + o.value.0, o.value.1))
  }

  /** Column names with commas between them, up to a closing parenthesis. */
  function ParseNames(ts: seq<Token>): Option<(seq<string>, seq<Token>)>
    decreases |ts|
  {
    if |ts| > 1 && ts[0].Name? && ts[1] == Comma then First(ts[0].name, ParseNames(ts[2..]))
    else if |ts| > 1 && ts[0].Name? && ts[1] == RPar then Some(([ts[0].name], ts[2..]))
    else None
  }

  /** Placeholders with commas between them, up to a closing parenthesis. */
  function ParseValues(ts: seq<Token>): Option<(seq<Value>, seq<Token>)>
    decreases |ts|
  {
    if |ts| > 1 && ts[0].Param? && ts[1] == Comma then First(ts[0].value, ParseValues(ts[2..]))
    else if |ts| > 1 && ts[0].Param? && ts[1] == RPar then Some(([ts[0].value], ts[2..]))
    else None
  }

  /** Assignments of excluded columns to columns, with commas between them, up to the end. */
  function ParseReplaced(ts: seq<Token>): Option<seq<(string, string)>>
    decreases |ts|
  {
    if |ts| > 4 && ts[0].Name? && ts[1] == Symbol(Eq) && ts[2] == Word("EXCLUDED") && ts[3] == Dot && ts[4].Name? then
      if |ts| == 5 then Some([(ts[0].name, ts[4].name)])
      else if ts[5] == Comma then
        var rest := ParseReplaced(ts[6..]);
        if rest.None? then None else Some([(ts[0].name, ts[4].name)] + rest.value)
      else None
    else None
  }

  function ParseTable(ts: seq<Token>): Option<((Option<string>, string), seq<Token>)> {
    if |ts| > 2 && ts[0].Name? && ts[1] == Dot && ts[2].Name? then Some(((Some(ts[0].name), ts[2].name), ts[3..]))
    else if |ts| > 0 && ts[0].Name? then Some(((None, ts[0].name), ts[1..]))
    else None
  }

  /** UPDATE table SET assignments WHERE condition, behind its first word. */
  function ParseUpdate(ts: seq<Token>): Option<Statement> {
    var table := ParseTable(ts);
    if table.None? || table.value.1 == [] || table.value.1[0] != Keyword("SET") then None else
      var sets := ParseAssignments(table.value.1[1..]);
      if sets.None? || sets.value.1 == [] || sets.value.1[0] != Keyword("WHERE") then None else
        var condition := ParseChain(Or, sets.value.1[1..]);
        if condition.Fail? || condition.rest != [] then None
        else Some(Update(table.value.0.0, table.value.0.1, sets.value.0, condition.expr))
  }

  /** What may stand at the end of an insert: nothing, or an ON CONFLICT clause. */
  function ParseConflict(ts: seq<Token>): Option<Option<Conflict>> {
    if ts == [] then Some(None)
    else if |ts| > 2 && ts[0] == Keyword("ON") && ts[1] == Word("CONFLICT") && ts[2] == LPar then
      var names := ParseNames(ts[3..]);
      if names.None? then None else
        var rest := names.value.1;
        if |rest| > 2 && rest[0] == Word("DO") && rest[1] == Keyword("UPDATE") && rest[2] == Keyword("SET") then
          var replaced := ParseReplaced(rest[3..]);
          if replaced.None? then None else Some(Some(Conflict(names.value.0, replaced.value)))
        else None
    else None
  }

  /** INSERT INTO table ( names ) VALUES ( values ), behind its first two words. */
  function ParseInsert(ts: seq<Token>): Option<Statement> {
    var table := ParseTable(ts);
    if table.None? || table.value.1 == [] || table.value.1[0] != LPar then None else
      var names := ParseNames(table.value.1[1..]);
      if names.None? || |names.value.1| < 2 || names.value.1[0] != Keyword("VALUES") || names.value.1[1] != LPar then None else
        var values := ParseValues(names.value.1[2..]);
        if values.None? || |values.value.0| != |names.value.0| then None else
          var conflict := ParseConflict(values.value.1);
          if conflict.None? then None
          else Some(Insert(table.value.0.0, table.value.0.1, names.value.0, values.value.0, conflict.value))
  }

  function ParseTokens(ts: seq<Token>): Option<Statement> {
    if ts == [] then None
    else if ts[0] == Keyword("UPDATE") then ParseUpdate(ts[1..])
    else if |ts| > 1 && ts[0] == Keyword("INSERT") && ts[1] == Keyword("INTO") then ParseInsert(ts[2..])
    else None
  }

  function ParseStatement(sql: string, values: seq<Value>): Option<Statement> {
    var ts := Lex(sql, values);
    if ts.None? then None else ParseTokens(ts.value)
  }

  // ---------- what is read has the leaves of the statement ----------

  function TableLeaves(schema: Option<string>, table: string): seq<Token> {
    (if schema.Some? then [Name(schema.value)] else []) + [Name(table)]
  }

  function AssignmentLeaves(sets: seq<(string, Value)>): seq<Token> {
    if sets == [] then [] else [Name(sets[0].0), Param(sets[0].1)] + AssignmentLeaves(sets[1..])
  }

  function NameLeaves(names: seq<string>): seq<Token> {
    if names == [] then [] else [Name(names[0])] + NameLeaves(names[1..])
  }

  function ValueLeaves(values: seq<Value>): seq<Token> {
    if values == [] then [] else [Param(values[0])] + ValueLeaves(values[1..])
  }

  function ReplacedLeaves(replaced: seq<(string, string)>): seq<Token> {
    if replaced == [] then []
    else [Name(replaced[0].0), Word("EXCLUDED"), Name(replaced[0].1)] + ReplacedLeaves(replaced[1..])
  }

  function ConflictLeaves(conflict: Option<Conflict>): seq<Token> {
    match conflict
    case None => []
    case Some(c) => [Word("CONFLICT")] + NameLeaves(c.target) + [Word("DO")] + ReplacedLeaves(c.replaced)
  }

  function StatementLeaves(s: Statement): seq<Token> {
    match s
    case Update(schema, table, assignments, condition) =>
      TableLeaves(schema, table) + AssignmentLeaves(assignments) + ExprLeaves(condition)
    case Insert(schema, table, columns, values, conflict) =>
      TableLeaves(schema, table) + NameLeaves(columns) + ValueLeaves(values) + ConflictLeaves(conflict)
  }

  lemma LeafStep(ts: seq<Token>, n: nat)
    requires n < |ts|
    ensures Leaves(ts[n..]) == (if ts[n].Name? || ts[n].Word? || ts[n].Param? then [ts[n]] else []) + Leaves(ts[n + 1..])
  {
    assert ts[n..][0] == ts[n] && ts[n..][1..] == ts[n + 1..];
  }

  lemma TableKeeps(ts: seq<Token>)
    requires ParseTable(ts).Some?
    ensures var ((schema, table), rest) := ParseTable(ts).value;
            Leaves(ts) == TableLeaves(schema, table) + Leaves(rest)
  {
    hide Leaves;
    assert ts[0..] == ts;
    LeafStep(ts, 0);
    if |ts| > 2 && ts[1] == Dot && ts[2].Name? {
      LeafStep(ts, 1);
      LeafStep(ts, 2);
    }
  }

  lemma {:induction false} AssignmentsKeep(ts: seq<Token>)
    requires ParseAssignments(ts).Some?
    ensures var (sets, rest) := ParseAssignments(ts).value;
            Leaves(ts) == AssignmentLeaves(sets) + Leaves(rest)
    decreases |ts|
  {
    hide Leaves;
    assert ts[0..] == ts;
    LeafStep(ts, 0);
    LeafStep(ts, 1);
    LeafStep(ts, 2);
    var (sets, rest) := ParseAssignments(ts).value;
    if |ts| > 3 && ts[3] == Comma {
      LeafStep(ts, 3);
      AssignmentsKeep(ts[4..]);
      assert sets[1..] == ParseAssignments(ts[4..]).value.0;
    } else {
      assert sets[1..] == [];
    }
  }

  lemma {:induction false} NamesKeep(ts: seq<Token>)
    requires ParseNames(ts).Some?
    ensures var (names, rest) := ParseNames(ts).value;
            Leaves(ts) == NameLeaves(names) + Leaves(rest)
    decreases |ts|
  {
    hide Leaves;
    assert ts[0..] == ts;
    LeafStep(ts, 0);
    LeafStep(ts, 1);
    var (names, rest) := ParseNames(ts).value;
    if ts[1] == Comma {
      NamesKeep(ts[2..]);
      assert names[1..] == ParseNames(ts[2..]).value.0;
    } else {
      assert names[1..] == [];
    }
  }

  lemma {:induction false} ValuesKeep(ts: seq<Token>)
    requires ParseValues(ts).Some?
    ensures var (values, rest) := ParseValues(ts).value;
            Leaves(ts) == ValueLeaves(values) + Leaves(rest)
    decreases |ts|
  {
    hide Leaves;
    assert ts[0..] == ts;
    LeafStep(ts, 0);
    LeafStep(ts, 1);
    var (values, rest) := ParseValues(ts).value;
    if ts[1] == Comma {
      ValuesKeep(ts[2..]);
      assert values[1..] == ParseValues(ts[2..]).value.0;
    } else {
      assert values[1..] == [];
    }
  }

  lemma {:induction false} ReplacedKeep(ts: seq<Token>)
    requires ParseReplaced(ts).Some?
    ensures Leaves(ts) == ReplacedLeaves(ParseReplaced(ts).value)
    decreases |ts|
  {
    hide Leaves;
    NoLeaves();
    assert ts[0..] == ts;
    LeafStep(ts, 0);
    LeafStep(ts, 1);
    LeafStep(ts, 2);
    LeafStep(ts, 3);
    LeafStep(ts, 4);
    var replaced := ParseReplaced(ts).value;
    if |ts| == 5 {
      assert ts[5..] == [] && replaced[1..] == [];
    } else {
      LeafStep(ts, 5);
      ReplacedKeep(ts[6..]);
      assert replaced[1..] == ParseReplaced(ts[6..]).value;
    }
  }

  lemma ConflictWords(ts: seq<Token>)
    requires |ts| > 2 && ts[0].Keyword? && ts[1].Word? && ts[2] == LPar
    ensures Leaves(ts) == [ts[1]] + Leaves(ts[3..])
  {
    hide Leaves;
    assert ts[0..] == ts;
    LeafStep(ts, 0);
    LeafStep(ts, 1);
    LeafStep(ts, 2);
  }

  lemma DoWords(ts: seq<Token>)
    requires |ts| > 2 && ts[0].Word? && ts[1].Keyword? && ts[2].Keyword?
    ensures Leaves(ts) == [ts[0]] + Leaves(ts[3..])
  {
    hide Leaves;
    assert ts[0..] == ts;
    LeafStep(ts, 0);
    LeafStep(ts, 1);
    LeafStep(ts, 2);
  }

  lemma ConflictKeeps(ts: seq<Token>)
    requires ParseConflict(ts).Some?
    ensures Leaves(ts) == ConflictLeaves(ParseConflict(ts).value)
  {
    hide Leaves, ParseNames, ParseReplaced, NameLeaves, ReplacedLeaves;
    NoLeaves();
    if ts != [] {
      ConflictWords(ts);
      NamesKeep(ts[3..]);
      var (names, rest) := ParseNames(ts[3..]).value;
      DoWords(rest);
      ReplacedKeep(rest[3..]);
      var replaced := ReplacedLeaves(ParseReplaced(rest[3..]).value);
      Associate([Word("CONFLICT")], NameLeaves(names), [Word("DO")] + replaced);
      Associate([Word("CONFLICT")] + NameLeaves(names), [Word("DO")], replaced);
    }
  }

  lemma UpdateKeeps(ts: seq<Token>)
    requires ParseUpdate(ts).Some?
    ensures Leaves(ts) == StatementLeaves(ParseUpdate(ts).value)
  {
    hide Leaves, ParseTable, ParseAssignments, ParseChain, ExprLeaves, TableLeaves, AssignmentLeaves;
    TableKeeps(ts);
    var rest := ParseTable(ts).value.1;
    SkipLeaves(rest, 1);
    AssignmentsKeep(rest[1..]);
    var tail := ParseAssignments(rest[1..]).value.1;
    SkipLeaves(tail, 1);
    WholeKeeps(tail[1..]);
    var s := ParseUpdate(ts).value;
    Associate(TableLeaves(s.schema, s.table), AssignmentLeaves(s.assignments), ExprLeaves(s.condition));
  }

  lemma InsertKeeps(ts: seq<Token>)
    requires ParseInsert(ts).Some?
    ensures Leaves(ts) == StatementLeaves(ParseInsert(ts).value)
  {
    hide Leaves, ParseTable, ParseNames, ParseValues, ParseConflict, ConflictLeaves, StatementLeaves, TableLeaves, NameLeaves, ValueLeaves;
    TableKeeps(ts);
    var rest := ParseTable(ts).value.1;
    SkipLeaves(rest, 1);
    NamesKeep(rest[1..]);
    var middle := ParseNames(rest[1..]).value.1;
    SkipLeaves(middle, 2);
    ValuesKeep(middle[2..]);
    var end := ParseValues(middle[2..]).value.1;
    ConflictKeeps(end);
    var s := ParseInsert(ts).value;
    InsertLeaves(s, TableLeaves(s.schema, s.table), Leaves(rest), NameLeaves(s.columns), Leaves(middle), ValueLeaves(s.values), Leaves(end));
  }

  lemma InsertLeaves(s: Statement, table: seq<Token>, rest: seq<Token>, names: seq<Token>, middle: seq<Token>, values: seq<Token>,
                     end: seq<Token>)
    requires s.Insert? && table == TableLeaves(s.schema, s.table) && names == NameLeaves(s.columns) && values == ValueLeaves(s.values)
    requires end == ConflictLeaves(s.conflict) && middle == values + end && rest == names + middle
    ensures table + rest == StatementLeaves(s)
  {
    hide TableLeaves, NameLeaves, ValueLeaves, ConflictLeaves;
    Associate(names, values, end);
    Associate(table, names + values, end);
    Associate(table, names, values);
  }

  /** The statement that tokens are read as has their names, words and values, in their order. */
  lemma TokensKeep(ts: seq<Token>)
    requires ParseTokens(ts).Some?
    ensures Leaves(ts) == StatementLeaves(ParseTokens(ts).value)
  {
    hide Leaves, ParseUpdate, ParseInsert;
    assert ts[0..] == ts;
    LeafStep(ts, 0);
    if ts[0] == Keyword("UPDATE") {
      UpdateKeeps(ts[1..]);
    } else {
      LeafStep(ts, 1);
      InsertKeeps(ts[2..]);
    }
  }
}

/** Reading SQL text back into tokens, values included: the lexical rules of SQLite for the part of
    the language that predicates are written in. */
module SqlLexer {
  import opened Wrappers
  import opened SqlExpression
  import opened SqlPredicate

  datatype Token =
    | Name(name: string)
    | Word(word: string)
    | Param(value: Value)
    | Symbol(op: Operator)
    | Keyword(keyword: string)
    | Number(number: nat)
    | LPar | RPar | Comma | Dot | Minus

  // ---------- the lexical rules ----------

  predicate Digit(c: char) {
    '0' <= c <= '9'
  }

  predicate WordChar(c: char) {
    'a' <= c <= 'z' || 'A' <= c <= 'Z' || Digit(c) || c == '_' || c == '$' || c >= '\U{0080}'
  }

  /** SQLite takes it for a space in front of a word and for a part of the word inside one. */
  const BYTE_ORDER_MARK := '\U{FEFF}'

  predicate WordStart(c: char) {
    WordChar(c) && !Digit(c) && c != '$' && c != BYTE_ORDER_MARK
  }

  /** Where SQLite takes a statement to end; it looks at the first one only. */
  predicate StatementEnd(c: char) {
    c == NUL || c == ';'
  }

  function WordLength(s: string): (n: nat)
    ensures n <= |s|
  {
    if s == [] || !WordChar(s[0]) then 0 else 1 + WordLength(s[1..])
  }

  function UpperChar(c: char): char {
    if 'a' <= c <= 'z' then c - ' ' else c
  }

  function Upper(s: string): string {
    seq(|s|, i requires 0 <= i < |s| => UpperChar(s[i]))
  }

  /** The words that predicates are written with. */
  predicate IsOperatorWord(k: string) {
    k in ["AND", "OR", "NOT", "IS", "NULL", "IN", "LIKE", "BETWEEN"]
  }

  /** The words that the modelled statements are written with. */
  predicate IsStatementWord(k: string) {
    k in ["UPDATE", "SET", "WHERE", "INSERT", "INTO", "VALUES", "ON", "SELECT", "FROM", "AS", "ORDER", "LIMIT", "JOIN"]
  }

  predicate IsKeyword(k: string) {
    IsOperatorWord(k) || IsStatementWord(k)
  }

  /** The other words that SQLite takes for no identifier, or not where an expression starts, unless
      they are quoted. */
  predicate IsReserved(k: string) {
    ReservedToD(k) || ReservedFromE(k)
  }

  predicate ReservedToD(k: string) {
    k in ["ADD", "ALL", "ALTER", "AUTOINCREMENT", "CASE", "CAST", "CHECK", "COLLATE", "COMMIT", "CONSTRAINT", "CREATE",
          "CURRENT_DATE", "CURRENT_TIME", "CURRENT_TIMESTAMP", "DEFAULT", "DEFERRABLE", "DELETE", "DISTINCT", "DROP"]
  }

  predicate ReservedFromE(k: string) {
    k in ["ELSE", "ESCAPE", "EXCEPT", "EXISTS", "FOREIGN", "GROUP", "HAVING", "INDEX", "INTERSECT", "ISNULL",
          "NOTHING", "NOTNULL", "PRIMARY", "RAISE", "REFERENCES", "RETURNING", "TABLE", "THEN", "TO",
          "TRANSACTION", "UNION", "UNIQUE", "USING", "WHEN", "WITH"]
  }

  /** Words that are no aliases. LIKE could be one where no operator can stand, and WITH where no
      parenthesis opens in front of it; this grammar takes neither for one anywhere. */
  predicate Reserved(s: string) {
    IsKeyword(Upper(s)) || IsReserved(Upper(s))
  }

  /** Keywords are recognized whatever their case. */
  function WordToken(w: string): Token {
    if Reserved(w) then Keyword(Upper(w)) else Word(w)
  }

  /** The number that a string of digits stands for. */
  function Numeral(s: string): nat {
    if s == [] then 0
    else 10 * Numeral(s[..|s| - 1]) + (if '0' <= s[|s| - 1] <= '9' then s[|s| - 1] as nat - '0' as nat else 0)
  }

  predicate AllDigits(s: string) {
    forall i :: 0 <= i < |s| ==> Digit(s[i])
  }

  function Then(t: Token, o: Option<seq<Token>>): Option<seq<Token>> {
    if o.None? then None else Some([t] + o.value)
  }

  /** A quoted name that is open at the start of t ends before t does. */
  lemma {:induction false} UnquoteShortens(t: string)
    ensures Unquote(t, MARK).Some? ==> |Unquote(t, MARK).value.1| < |t|
  {
    if t == [] {
    } else if t[0] != MARK {
      UnquoteShortens(t[1..]);
    } else if |t| > 1 && t[1] == MARK {
      UnquoteShortens(t[2..]);
    }
  }

  /** What a text starts with, and what is left of it. */
  datatype Step = Stuck | Skip(rest: string) | Take(token: Token, rest: string)

  /** The longest of the symbols that the text starts with. */
  function SymbolStep(s: string): (r: Step)
    requires s != [] && s[0] in "=<>"
    ensures r.Take? && |r.rest| < |s|
  {
    if |s| > 1 && s[..2] == "<>" then Take(Symbol(Ne), s[2..])
    else if |s| > 1 && s[..2] == "<=" then Take(Symbol(Le), s[2..])
    else if |s| > 1 && s[..2] == ">=" then Take(Symbol(Ge), s[2..])
    else if s[0] == '<' then Take(Symbol(Lt), s[1..])
    else if s[0] == '>' then Take(Symbol(Gt), s[1..])
    else Take(Symbol(Eq), s[1..])
  }

  function NameStep(s: string): (r: Step)
    requires s != [] && s[0] == MARK
    ensures !r.Stuck? ==> |r.rest| < |s|
  {
    UnquoteShortens(s[1..]);
    var name := Unquote(s[1..], MARK);
    if name.None? then Stuck else Take(Name(name.value.0), name.value.1)
  }

  /** The source writes whole numbers in decimal only. */
  function NumberStep(s: string): (r: Step)
    requires s != [] && Digit(s[0])
    ensures !r.Stuck? ==> |r.rest| < |s|
  {
    var n := WordLength(s);
    if AllDigits(s[..n]) then Take(Number(Numeral(s[..n])), s[n..]) else Stuck
  }

  /** A text that starts with no placeholder and does not end the statement. */
  function FirstStep(s: string): (r: Step)
    requires s != []
    ensures !r.Stuck? ==> |r.rest| < |s|
  {
    if s[0] == ' ' then Skip(s[1..])
    else if s[0] == MARK then NameStep(s)
    else if s[0] == '(' then Take(LPar, s[1..])
    else if s[0] == ')' then Take(RPar, s[1..])
    else if s[0] == ',' then Take(Comma, s[1..])
    else if s[0] == '.' then Take(Dot, s[1..])
    else if s[0] in "=<>" then SymbolStep(s)
    else if WordStart(s[0]) then Take(WordToken(s[..WordLength(s)]), s[WordLength(s)..])
    else if Digit(s[0]) then NumberStep(s)
    else if s[0] == '-' && (|s| == 1 || s[1] != '-') then Take(Minus, s[1..])
    else Stuck
  }

  /** The tokens of a text whose placeholders stand for the values, in order. There must be as many
      values as placeholders; a placeholder with a number is none that the source writes. */
  function Lex(s: string, values: seq<Value>): Option<seq<Token>>
    decreases |s|
  {
    if s == [] || StatementEnd(s[0]) then (if values == [] then Some([]) else None)
    else if s[0] == '?' then
      if values == [] || (|s| > 1 && Digit(s[1])) then None else Then(Param(values[0]), Lex(s[1..], values[1..]))
    else
      match FirstStep(s)
      case Stuck => None
      case Skip(rest) => Lex(rest, values)
      case Take(t, rest) => Then(t, Lex(rest, values))
  }

  // ---------- texts that keep their tokens in any context ----------

  function Prefix(ts: seq<Token>, o: Option<seq<Token>>): Option<seq<Token>> {
    if o.None? then None else Some(ts + o.value)
  }

  /** Nothing that the source puts directly behind a name, a placeholder or a word continues it. */
  predicate Boundary(r: string) {
    r == [] || r[0] == ' ' || r[0] == '(' || r[0] == ')' || r[0] == ',' || r[0] == '.'
  }

  /** In front of any text whatsoever, s with the values vs reads as the tokens ts. */
  ghost predicate ReadsAny(s: string, vs: seq<Value>, ts: seq<Token>) {
    forall r: string, values: seq<Value> :: Lex(s + r, vs + values) == Prefix(ts, Lex(r, values))
  }

  /** In front of any text that does not continue it, s with the values vs reads as the tokens ts. */
  ghost predicate Reads(s: string, vs: seq<Value>, ts: seq<Token>) {
    forall r: string, values: seq<Value> :: Boundary(r) ==> Lex(s + r, vs + values) == Prefix(ts, Lex(r, values))
  }

  /** The names, words and values among the tokens. */
  function Leaves(ts: seq<Token>): seq<Token> {
    if ts == [] then []
    else (if ts[0].Name? || ts[0].Word? || ts[0].Param? then [ts[0]] else []) + Leaves(ts[1..])
  }

  lemma LeavesOfFirst(ts: seq<Token>)
    requires ts != []
    ensures Leaves(ts) == (if ts[0].Name? || ts[0].Word? || ts[0].Param? then [ts[0]] else []) + Leaves(ts[1..])
  {
  }

  lemma NoLeaves()
    ensures Leaves([]) == []
  {
  }

  lemma {:induction false} LeavesOfAppend(a: seq<Token>, b: seq<Token>)
    ensures Leaves(a + b) == Leaves(a) + Leaves(b)
  {
    hide Leaves;
    if a == [] {
      NoLeaves();
      assert a + b == b;
    } else {
      assert (a + b)[0] == a[0] && (a + b)[1..] == a[1..] + b;
      LeavesOfFirst(a);
      LeavesOfFirst(a + b);
      LeavesOfAppend(a[1..], b);
      Associate(if a[0].Name? || a[0].Word? || a[0].Param? then [a[0]] else [], Leaves(a[1..]), Leaves(b));
    }
  }

  /** The text read begins with the names, words and values of ts. */
  predicate Begins(ts: seq<Token>, o: Option<seq<Token>>) {
    o.Some? && Leaves(ts) <= Leaves(o.value)
  }

  /** In front of any text that does not continue it, s is not read as the tokens ts: not even their
      names, words and values are. */
  ghost predicate Misreads(s: string, vs: seq<Value>, ts: seq<Token>) {
    forall r: string, values: seq<Value> :: Boundary(r) ==> !Begins(ts, Lex(s + r, vs + values))
  }

  ghost predicate MisreadsAny(s: string, vs: seq<Value>, ts: seq<Token>) {
    forall r: string, values: seq<Value> :: !Begins(ts, Lex(s + r, vs + values))
  }

  lemma ReadsThen(s: string, vs: seq<Value>, ts: seq<Token>, t: string, ws: seq<Value>, us: seq<Token>)
    requires ReadsAny(s, vs, ts) || (Reads(s, vs, ts) && Boundary(t) && t != [])
    requires Reads(t, ws, us)
    ensures Reads(s + t, vs + ws, ts + us)
  {
    hide Lex;
    forall r: string, values: seq<Value> | Boundary(r)
      ensures Lex((s + t) + r, (vs + ws) + values) == Prefix(ts + us, Lex(r, values))
    {
      Associate(s, t, r);
      Associate(vs, ws, values);
      assert Boundary(t) && t != [] ==> Boundary(t + r);
      assert Lex(s + (t + r), vs + (ws + values)) == Prefix(ts, Lex(t + r, ws + values));
      assert Lex(t + r, ws + values) == Prefix(us, Lex(r, values));
      if Lex(r, values).Some? {
        Associate(ts, us, Lex(r, values).value);
      }
    }
  }

  lemma ReadsAnyThen(s: string, vs: seq<Value>, ts: seq<Token>, t: string, ws: seq<Value>, us: seq<Token>)
    requires ReadsAny(s, vs, ts) || (Reads(s, vs, ts) && Boundary(t) && t != [])
    requires ReadsAny(t, ws, us)
    ensures ReadsAny(s + t, vs + ws, ts + us)
  {
    hide Lex;
    forall r: string, values: seq<Value>
      ensures Lex((s + t) + r, (vs + ws) + values) == Prefix(ts + us, Lex(r, values))
    {
      Associate(s, t, r);
      Associate(vs, ws, values);
      assert Boundary(t) && t != [] ==> Boundary(t + r);
      assert Lex(s + (t + r), vs + (ws + values)) == Prefix(ts, Lex(t + r, ws + values));
      assert Lex(t + r, ws + values) == Prefix(us, Lex(r, values));
      if Lex(r, values).Some? {
        Associate(ts, us, Lex(r, values).value);
      }
    }
  }

  lemma SpaceReads()
    ensures ReadsAny(" ", [], [])
  {
    forall r: string, values: seq<Value>
      ensures Lex(" " + r, [] + values) == Prefix([], Lex(r, values))
    {
      assert (" " + r)[1..] == r && [] + values == values;
      assert Lex(r, values).Some? ==> [] + Lex(r, values).value == Lex(r, values).value;
    }
  }

  lemma PunctuationReads()
    ensures ReadsAny("(", [], [LPar]) && ReadsAny(")", [], [RPar]) && ReadsAny(",", [], [Comma]) && ReadsAny(".", [], [Dot])
  {
    forall r: string, values: seq<Value>
      ensures Lex("(" + r, [] + values) == Prefix([LPar], Lex(r, values))
      ensures Lex(")" + r, [] + values) == Prefix([RPar], Lex(r, values))
      ensures Lex("," + r, [] + values) == Prefix([Comma], Lex(r, values))
      ensures Lex("." + r, [] + values) == Prefix([Dot], Lex(r, values))
    {
      assert ("(" + r)[1..] == (")" + r)[1..] == ("," + r)[1..] == ("." + r)[1..] == r && [] + values == values;
    }
  }

  lemma PlaceholderReads(v: Value)
    ensures Reads("?", [v], [Param(v)])
  {
    forall r: string, values: seq<Value> | Boundary(r)
      ensures Lex("?" + r, [v] + values) == Prefix([Param(v)], Lex(r, values))
    {
      assert ("?" + r)[1..] == r && ([v] + values)[1..] == values;
    }
  }

  lemma LexQuoted(name: Characters, r: string, values: seq<Value>)
    requires Boundary(r)
    ensures Legible(name, MARK) ==> Lex(Quoted(name, MARK) + r, values) == Then(Name(Flat(name)), Lex(r, values))
    ensures !Legible(name, MARK) ==> !Begins([Name(Flat(name))], Lex(Quoted(name, MARK) + r, values))
  {
    var s, t := Quoted(name, MARK) + r, MarksDoubled(name, MARK) + [MARK] + r;
    assert s[0] == MARK && s[1..] == t;
    UnquoteOfQuoted(name, MARK, r);
    var read := Unquote(t, MARK);
    assert FirstStep(s) == NameStep(s);
    if !Legible(name, MARK) && read.Some? && Lex(read.value.1, values).Some? {
      var tokens := [Name(read.value.0)] + Lex(read.value.1, values).value;
      assert Lex(s, values).value == tokens && Leaves(tokens)[0] == Name(read.value.0);
      assert Leaves([Name(Flat(name))])[0] == Name(Flat(name));
    }
  }

  lemma NameReads(name: Characters)
    requires Legible(name, MARK)
    ensures Reads(Quoted(name, MARK), [], [Name(Flat(name))])
  {
    hide Lex, Quoted;
    forall r: string, values: seq<Value> | Boundary(r)
      ensures Lex(Quoted(name, MARK) + r, [] + values) == Prefix([Name(Flat(name))], Lex(r, values))
    {
      LexQuoted(name, r, values);
      assert [] + values == values;
    }
  }

  lemma NameMisreads(name: Characters)
    requires !Legible(name, MARK)
    ensures Misreads(Quoted(name, MARK), [], [Name(Flat(name))])
  {
    hide Lex, Quoted;
    forall r: string, values: seq<Value> | Boundary(r)
      ensures !Begins([Name(Flat(name))], Lex(Quoted(name, MARK) + r, [] + values))
    {
      LexQuoted(name, r, values);
      assert [] + values == values;
    }
  }

  predicate WordText(w: string) {
    w != [] && WordStart(w[0]) && forall i :: 0 <= i < |w| ==> WordChar(w[i])
  }

  lemma {:induction false} WordLengthOf(w: string, r: string)
    requires forall i :: 0 <= i < |w| ==> WordChar(w[i])
    requires r == [] || !WordChar(r[0])
    ensures WordLength(w + r) == |w|
  {
    if w == [] {
      assert w + r == r;
    } else {
      assert (w + r)[1..] == w[1..] + r;
      WordLengthOf(w[1..], r);
    }
  }

  /** A word reads as one token in front of anything that is no part of a word. */
  lemma LexWord(w: string, r: string, values: seq<Value>)
    requires WordText(w) && (r == [] || !WordChar(r[0]))
    ensures Lex(w + r, values) == Then(WordToken(w), Lex(r, values))
  {
    hide WordToken;
    WordLengthOf(w, r);
    assert (w + r)[0] == w[0];
    assert (w + r)[..|w|] == w && (w + r)[|w|..] == r;
  }

  lemma WordReads(w: string)
    requires WordText(w)
    ensures Reads(w, [], [WordToken(w)])
  {
    hide Lex, WordToken;
    forall r: string, values: seq<Value> | Boundary(r)
      ensures Lex(w + r, [] + values) == Prefix([WordToken(w)], Lex(r, values))
    {
      LexWord(w, r, values);
      assert [] + values == values;
    }
  }

  lemma NothingReads()
    ensures ReadsAny("", [], [])
  {
    forall r: string, values: seq<Value>
      ensures Lex("" + r, [] + values) == Prefix([], Lex(r, values))
    {
      assert "" + r == r && [] + values == values;
      assert Lex(r, values).Some? ==> [] + Lex(r, values).value == Lex(r, values).value;
    }
  }

  lemma KeywordReads(k: string)
    requires IsKeyword(k)
    ensures Reads(k, [], [Keyword(k)])
  {
    KeywordIsReserved(k);
    hide IsOperatorWord, IsStatementWord, Reads, WordText, Upper;
    WordReads(k);
  }

  lemma KeywordIsReserved(k: string)
    requires IsKeyword(k)
    ensures WordText(k) && Upper(k) == k && Reserved(k)
  {
    KeywordIsUpper(k);
    hide IsOperatorWord, IsStatementWord, IsReserved;
    UpperIsWord(k);
  }

  predicate AllUpper(k: string) {
    k != [] && forall i :: 0 <= i < |k| ==> 'A' <= k[i] <= 'Z'
  }

  lemma OperatorWordIsUpper(k: string)
    requires IsOperatorWord(k)
    ensures AllUpper(k)
  {
  }

  lemma StatementWordIsUpper(k: string)
    requires IsStatementWord(k)
    ensures AllUpper(k)
  {
  }

  lemma KeywordIsUpper(k: string)
    requires IsKeyword(k)
    ensures AllUpper(k)
  {
    hide IsOperatorWord, IsStatementWord, AllUpper;
    if IsOperatorWord(k) {
      OperatorWordIsUpper(k);
    } else {
      StatementWordIsUpper(k);
    }
  }

  lemma UpperIsWord(k: string)
    requires AllUpper(k)
    ensures WordText(k) && Upper(k) == k
  {
  }

  lemma SpacedKeywordReads(k: string)
    requires IsKeyword(k)
    ensures ReadsAny(k + " ", [], [Keyword(k)]) && ReadsAny(" " + k + " ", [], [Keyword(k)])
  {
    hide IsKeyword, Reads, ReadsAny;
    SpaceReads();
    KeywordReads(k);
    ReadsAnyThen(k, [], [Keyword(k)], " ", [], []);
    assert [Keyword(k)] + [] == [Keyword(k)] == [] + [Keyword(k)];
    var none: seq<Value> := [];
    assert none + none == none;
    ReadsAnyThen(" ", [], [], k + " ", [], [Keyword(k)]);
    Associate(" ", k, " ");
  }

  function OperatorTokens(op: Operator): seq<Token> {
    match op
    case Like => [Keyword("LIKE")]
    case NotLike => [Keyword("NOT"), Keyword("LIKE")]
    case _ => [Symbol(op)]
  }

  lemma LexOperator(op: Operator, r: string, values: seq<Value>)
    requires op != Like && op != NotLike
    ensures Lex(OperatorText(op) + (" " + r), values) == Then(Symbol(op), Lex(" " + r, values))
  {
    var s, t := OperatorText(op), " " + r;
    assert (s + t)[0] == s[0] && (s + t)[|s|] == ' ';
    assert (s + t)[..|s|] == s && (s + t)[|s|..] == t;
    assert |s| == 1 ==> (s + t)[..2] == [s[0], ' '];
  }

  lemma SymbolReads(op: Operator)
    requires op != Like && op != NotLike
    ensures ReadsAny(OperatorText(op) + " ", [], [Symbol(op)])
  {
    hide OperatorText;
    forall r: string, values: seq<Value>
      ensures Lex((OperatorText(op) + " ") + r, [] + values) == Prefix([Symbol(op)], Lex(r, values))
    {
      LexOperator(op, r, values);
      Associate(OperatorText(op), " ", r);
      assert (" " + r)[1..] == r && [] + values == values;
    }
  }

  lemma OperatorReads(op: Operator)
    ensures ReadsAny(" " + OperatorText(op) + " ", [], OperatorTokens(op))
  {
    hide Reads, ReadsAny, IsStatementWord;
    var none: seq<Value> := [];
    assert none + none == none;
    if op == Like {
      SpacedKeywordReads("LIKE");
    } else if op == NotLike {
      SpacedKeywordReads("NOT");
      SpacedKeywordReads("LIKE");
      assert " " + "NOT" + " " == " NOT " && "LIKE" + " " == "LIKE ";
      ReadsAnyThen(" NOT ", [], [Keyword("NOT")], "LIKE ", [], [Keyword("LIKE")]);
      assert [Keyword("NOT")] + [Keyword("LIKE")] == OperatorTokens(NotLike);
      assert " NOT " + "LIKE " == " " + OperatorText(NotLike) + " ";
    } else {
      SpaceReads();
      SymbolReads(op);
      ReadsAnyThen(" ", [], [], OperatorText(op) + " ", [], [Symbol(op)]);
      assert [] + [Symbol(op)] == OperatorTokens(op);
      Associate(" ", OperatorText(op), " ");
    }
  }

  lemma NullTestWords()
    ensures IsKeyword("IS") && IsKeyword("NOT") && IsKeyword("NULL")
  {
    hide IsStatementWord;
  }

  lemma NullTestReads(negated: bool)
    ensures Reads(if negated then " IS NOT NULL" else " IS NULL", [], NullTestTokens(negated))
  {
    hide Reads, ReadsAny, IsKeyword;
    var none: seq<Value> := [];
    assert none + none == none;
    NullTestWords();
    SpacedKeywordReads("IS");
    KeywordReads("NULL");
    assert " " + "IS" + " " == " IS " && "NOT" + " " == "NOT ";
    if negated {
      SpacedKeywordReads("NOT");
      ReadsThen("NOT ", [], [Keyword("NOT")], "NULL", [], [Keyword("NULL")]);
      assert "NOT " + "NULL" == "NOT NULL";
      ReadsThen(" IS ", [], [Keyword("IS")], "NOT NULL", [], [Keyword("NOT")] + [Keyword("NULL")]);
      assert " IS " + "NOT NULL" == " IS NOT NULL";
      assert [Keyword("IS")] + ([Keyword("NOT")] + [Keyword("NULL")]) == NullTestTokens(true);
    } else {
      ReadsThen(" IS ", [], [Keyword("IS")], "NULL", [], [Keyword("NULL")]);
      assert " IS " + "NULL" == " IS NULL";
      assert [Keyword("IS")] + [Keyword("NULL")] == NullTestTokens(false);
    }
  }

  lemma BetweenReads(negated: bool)
    ensures ReadsAny(if negated then " NOT BETWEEN " else " BETWEEN ", [], BetweenTokens(negated))
  {
    hide Reads, ReadsAny, IsStatementWord;
    var none: seq<Value> := [];
    assert none + none == none;
    SpacedKeywordReads("BETWEEN");
    assert "BETWEEN" + " " == "BETWEEN " && " " + "BETWEEN" + " " == " BETWEEN " && " " + "NOT" + " " == " NOT ";
    if negated {
      SpacedKeywordReads("NOT");
      ReadsAnyThen(" NOT ", [], [Keyword("NOT")], "BETWEEN ", [], [Keyword("BETWEEN")]);
      assert " NOT " + "BETWEEN " == " NOT BETWEEN ";
      assert [Keyword("NOT")] + [Keyword("BETWEEN")] == BetweenTokens(true);
    }
  }

  // ---------- the tokens of a predicate ----------

  function NullTestTokens(negated: bool): seq<Token> {
    if negated then [Keyword("IS"), Keyword("NOT"), Keyword("NULL")] else [Keyword("IS"), Keyword("NULL")]
  }

  function BetweenTokens(negated: bool): seq<Token> {
    if negated then [Keyword("NOT"), Keyword("BETWEEN")] else [Keyword("BETWEEN")]
  }

  /** An identifier, or two with a dot between them. */
  predicate IsQualifier(ts: seq<Token>) {
    || (|ts| == 1 && (ts[0].Word? || ts[0].Name?))
    || (|ts| == 3 && (ts[0].Word? || ts[0].Name?) && ts[1] == Dot && (ts[2].Word? || ts[2].Name?))
  }

  /** What an alias is read as in front of a dot, if it is a qualifier there; the source writes aliases
      without quoting them, and quoted table names in their place. */
  function AliasRead(alias: string): Option<seq<Token>> {
    var ts := Lex(alias, []);
    if ts.Some? && IsQualifier(ts.value) && Lex(alias + ".", []) == Some(ts.value + [Dot]) then ts else None
  }

  function AliasTokens(alias: string): seq<Token> {
    var ts := AliasRead(alias);
    if ts.Some? then ts.value else [Word(alias)]
  }

  function RepTokens(r: Representable): seq<Token>
    decreases r
  {
    match r
    case Column(name) => [Name(Flat(name))]
    case Aliased(alias, name) => AliasTokens(alias) + [Dot] + [Name(Flat(name))]
    case Val(v) => [Param(v)]
    case Tuple(rs) => [LPar] + ListTokens(rs, true) + [RPar]
  }

  function ListTokens(rs: seq<Representable>, first: bool): seq<Token>
    decreases rs
  {
    if rs == [] then []
    else (if first then [] else [Comma]) + RepTokens(rs[0]) + ListTokens(rs[1..], false)
  }

  function Tokens(p: Predicate): seq<Token>
    decreases p
  {
    match p
    case Compare(lhs, op, rhs) => RepTokens(lhs) + OperatorTokens(op) + RepTokens(rhs)
    case NullTest(rep, negated) => RepTokens(rep) + NullTestTokens(negated)
    case Range(rep, lo, hi, negated) =>
      RepTokens(rep) + BetweenTokens(negated) + RepTokens(lo) + [Keyword("AND")] + RepTokens(lo)
    case In(rep, values) => RepTokens(rep) + [Keyword("IN")] + [LPar] + ListTokens(values, true) + [RPar]
    case Not(q) => [Keyword("NOT")] + [LPar] + Tokens(q) + [RPar]
    case Compound(c, ps) =>
      if |ps| > 1 then [LPar] + ChainTokens(c, ps, true) + [RPar] else ChainTokens(c, ps, true)
  }

  function ChainTokens(c: Conjunction, ps: seq<Predicate>, first: bool): seq<Token>
    decreases ps
  {
    if ps == [] then []
    else (if first then [] else [Keyword(ConjunctionText(c))]) + Tokens(ps[0]) + ChainTokens(c, ps[1..], false)
  }

  /** An alias that reads as a name of its own; the source writes aliases without quoting them. */
  predicate GoodAlias(alias: string) {
    WordText(alias) && !Reserved(alias)
  }

  /** Every name is legible, and every alias can be read as one. */
  predicate ReadableRep(r: Representable)
    decreases r
  {
    match r
    case Column(name) => Legible(name, MARK)
    case Aliased(alias, name) => AliasRead(alias).Some? && Legible(name, MARK)
    case Val(v) => true
    case Tuple(rs) => forall x :: x in rs ==> ReadableRep(x)
  }

  predicate Readable(p: Predicate)
    decreases p
  {
    match p
    case Compare(lhs, op, rhs) => ReadableRep(lhs) && ReadableRep(rhs)
    case NullTest(rep, negated) => ReadableRep(rep)
    case Range(rep, lo, hi, negated) => ReadableRep(rep) && ReadableRep(lo)
    case In(rep, values) => ReadableRep(rep) && forall x :: x in values ==> ReadableRep(x)
    case Not(q) => Readable(q)
    case Compound(c, ps) => forall q :: q in ps ==> Readable(q)
  }

  // ---------- parts that keep their tokens, or lose them ----------

  /** In front of what does not continue them, the parts are read as the tokens if ok, and not even
      as their names, words and values otherwise. */
  ghost predicate PartsRead(parts: seq<Part>, ts: seq<Token>, ok: bool) {
    if ok then Reads(Sql(parts), Bindings(parts), ts) else Misreads(Sql(parts), Bindings(parts), ts)
  }

  /** The same in front of anything. */
  ghost predicate PartsReadAny(parts: seq<Part>, ts: seq<Token>, ok: bool) {
    if ok then ReadsAny(Sql(parts), Bindings(parts), ts) else MisreadsAny(Sql(parts), Bindings(parts), ts)
  }

  predicate StartsAtBoundary(parts: seq<Part>) {
    Sql(parts) != [] && Boundary(Sql(parts))
  }

  lemma MisreadsThen(s: string, vs: seq<Value>, ts: seq<Token>, t: string, ws: seq<Value>, us: seq<Token>)
    requires MisreadsAny(s, vs, ts) || (Misreads(s, vs, ts) && Boundary(t) && t != [])
    ensures MisreadsAny(s + t, vs + ws, ts + us)
  {
    hide Lex, Leaves;
    forall r: string, values: seq<Value>
      ensures !Begins(ts + us, Lex((s + t) + r, (vs + ws) + values))
    {
      Associate(s, t, r);
      Associate(vs, ws, values);
      assert Boundary(t) && t != [] ==> Boundary(t + r);
      assert !Begins(ts, Lex(s + (t + r), vs + (ws + values)));
      LeavesOfAppend(ts, us);
    }
  }

  lemma BeginsBehind(ts: seq<Token>, us: seq<Token>, o: Option<seq<Token>>)
    ensures Begins(ts + us, Prefix(ts, o)) ==> Begins(us, o)
  {
    hide Leaves;
    LeavesOfAppend(ts, us);
    if o.Some? {
      LeavesOfAppend(ts, o.value);
      var a, b, c := Leaves(ts), Leaves(us), Leaves(o.value);
      if a + b <= a + c {
        assert (a + b)[|a|..] == b && (a + c)[|a|..|a| + |b|] == c[..|b|];
      }
    }
  }

  lemma ReadsThenMisreads(s: string, vs: seq<Value>, ts: seq<Token>, t: string, ws: seq<Value>, us: seq<Token>)
    requires ReadsAny(s, vs, ts) || (Reads(s, vs, ts) && Boundary(t) && t != [])
    ensures Misreads(t, ws, us) ==> Misreads(s + t, vs + ws, ts + us)
    ensures MisreadsAny(t, ws, us) ==> MisreadsAny(s + t, vs + ws, ts + us)
  {
    hide Lex, Begins;
    forall r: string, values: seq<Value>
      ensures Begins(ts + us, Lex((s + t) + r, (vs + ws) + values)) ==> Begins(us, Lex(t + r, ws + values))
    {
      Associate(s, t, r);
      Associate(vs, ws, values);
      assert Boundary(t) && t != [] ==> Boundary(t + r);
      assert Lex(s + (t + r), vs + (ws + values)) == Prefix(ts, Lex(t + r, ws + values));
      BeginsBehind(ts, us, Lex(t + r, ws + values));
    }
  }

  lemma PartsThen(a: seq<Part>, ta: seq<Token>, oka: bool, b: seq<Part>, tb: seq<Token>, okb: bool)
    requires PartsReadAny(a, ta, oka) || (PartsRead(a, ta, oka) && StartsAtBoundary(b))
    ensures PartsRead(b, tb, okb) ==> PartsRead(a + b, ta + tb, oka && okb)
    ensures PartsReadAny(b, tb, okb) ==> PartsReadAny(a + b, ta + tb, oka && okb)
  {
    hide Reads, ReadsAny, Misreads, MisreadsAny;
    SqlOfAppend(a, b);
    BindingsOfAppend(a, b);
    var (s, vs, t, ws) := (Sql(a), Bindings(a), Sql(b), Bindings(b));
    if !oka {
      MisreadsThen(s, vs, ta, t, ws, tb);
      MisreadsAnywhere(s + t, vs + ws, ta + tb);
    } else if !okb {
      ReadsThenMisreads(s, vs, ta, t, ws, tb);
    } else {
      if PartsRead(b, tb, okb) {
        ReadsThen(s, vs, ta, t, ws, tb);
      }
      if PartsReadAny(b, tb, okb) {
        ReadsAnyThen(s, vs, ta, t, ws, tb);
      }
    }
  }

  lemma MisreadsAnywhere(s: string, vs: seq<Value>, ts: seq<Token>)
    requires MisreadsAny(s, vs, ts)
    ensures Misreads(s, vs, ts)
  {
    hide Lex;
  }

  lemma AnyIsRead(parts: seq<Part>, ts: seq<Token>, ok: bool)
    requires PartsReadAny(parts, ts, ok)
    ensures PartsRead(parts, ts, ok)
  {
    hide Lex;
  }

  lemma PieceReads(s: string, ts: seq<Token>)
    ensures Reads(s, [], ts) ==> PartsRead(Piece(s), ts, true)
    ensures Misreads(s, [], ts) ==> PartsRead(Piece(s), ts, false)
    ensures ReadsAny(s, [], ts) ==> PartsReadAny(Piece(s), ts, true)
  {
    PieceText(s);
  }

  lemma PiecesRead()
    ensures PartsReadAny(Piece("("), [LPar], true) && PartsReadAny(Piece(")"), [RPar], true)
    ensures PartsReadAny(Piece(", "), [Comma], true)
    ensures PartsReadAny(Piece(" AND "), [Keyword("AND")], true) && PartsReadAny(Piece(" OR "), [Keyword("OR")], true)
    ensures PartsReadAny(Piece("NOT "), [Keyword("NOT")], true) && PartsReadAny(Piece(" IN "), [Keyword("IN")], true)
  {
    hide Reads, ReadsAny, Misreads, IsStatementWord;
    PunctuationReads();
    SeparatorReads();
    SpacedKeywordReads("AND");
    SpacedKeywordReads("OR");
    SpacedKeywordReads("NOT");
    SpacedKeywordReads("IN");
    assert " " + "AND" + " " == " AND " && " " + "OR" + " " == " OR ";
    assert "NOT" + " " == "NOT " && " " + "IN" + " " == " IN ";
    PieceReads("(", [LPar]);
    PieceReads(")", [RPar]);
    PieceReads(", ", [Comma]);
    PieceReads(" AND ", [Keyword("AND")]);
    PieceReads(" OR ", [Keyword("OR")]);
    PieceReads("NOT ", [Keyword("NOT")]);
    PieceReads(" IN ", [Keyword("IN")]);
  }

  lemma SeparatorReads()
    ensures ReadsAny(", ", [], [Comma])
  {
    hide Reads, ReadsAny;
    PunctuationReads();
    SpaceReads();
    var none: seq<Value> := [];
    assert none + none == none && [Comma] + [] == [Comma];
    ReadsAnyThen(",", [], [Comma], " ", [], []);
    assert "," + " " == ", ";
  }

  /** The text of a piece starts the text of whatever begins with that piece. */
  lemma StartOfPiece(s: string, rest: seq<Part>)
    requires s != [] && Boundary(s)
    ensures StartsAtBoundary(Piece(s) + rest) && StartsAtBoundary(Piece(s))
  {
    assert (Piece(s) + rest)[0] == Part(s, None);
    PieceText(s);
  }

  lemma NothingIsRead()
    ensures PartsReadAny([], [], true) && PartsRead([], [], true)
  {
    NothingReads();
    hide Lex;
    AnyIsRead([], [], true);
  }

  // ---------- the proof for predicates ----------

  lemma {:induction false} RepRead(r: Representable)
    ensures PartsRead(RepParts(r), RepTokens(r), ReadableRep(r))
    decreases r
  {
    hide PartsRead, PartsReadAny, StartsAtBoundary;
    match r
    case Column(name) =>
      ColumnRead(name);
    case Aliased(alias, name) =>
      AliasedRead(alias, name);
    case Val(v) =>
      ValueRead(v);
    case Tuple(rs) =>
      PiecesRead();
      ListRead(rs, true);
      Closing(Piece("("), [LPar], true, ListParts(rs, true), ListTokens(rs, true), ReadableRep(r));
  }

  lemma ColumnRead(name: Characters)
    ensures PartsRead(Piece(Quoted(name, MARK)), [Name(Flat(name))], Legible(name, MARK))
  {
    hide Reads, Misreads, Quoted;
    if Legible(name, MARK) {
      NameReads(name);
    } else {
      NameMisreads(name);
    }
    PieceReads(Quoted(name, MARK), [Name(Flat(name))]);
  }

  lemma {:induction false} UnquoteFurther(t: string, mark: char, u: string)
    requires Unquote(t, mark).Some? && (Unquote(t, mark).value.1 == [] ==> u == [] || u[0] != mark)
    ensures Unquote(t + u, mark) == Some((Unquote(t, mark).value.0, Unquote(t, mark).value.1 + u))
  {
    assert (t + u)[0] == t[0];
    if t[0] != mark {
      assert (t + u)[1..] == t[1..] + u;
      UnquoteFurther(t[1..], mark, u);
    } else if |t| > 1 && t[1] == mark {
      assert (t + u)[1] == mark && (t + u)[2..] == t[2..] + u;
      UnquoteFurther(t[2..], mark, u);
    } else {
      assert (t + u)[1..] == t[1..] + u;
      assert |t| > 1 ==> (t + u)[1] == t[1];
      assert |t| == 1 && u != [] ==> (t + u)[1] == u[0];
    }
  }

  lemma {:induction false} WordLengthFurther(s: string, r: string)
    requires WordLength(s) < |s| || r == [] || !WordChar(r[0])
    ensures WordLength(s + r) == WordLength(s)
  {
    if s == [] {
      assert s + r == r;
    } else if WordChar(s[0]) {
      assert (s + r)[0] == s[0] && (s + r)[1..] == s[1..] + r;
      WordLengthFurther(s[1..], r);
    } else {
      assert (s + r)[0] == s[0];
    }
  }

  lemma SymbolFurther(s: string, r: string)
    requires s != [] && s[0] in "=<>" && Boundary(r)
    ensures (s + r)[0] == s[0] && SymbolStep(s + r) == Take(SymbolStep(s).token, SymbolStep(s).rest + r)
  {
    var t := s + r;
    assert t[0] == s[0] && t[1..] == s[1..] + r;
    if |s| > 1 {
      assert t[..2] == s[..2] && t[2..] == s[2..] + r;
    } else if |t| > 1 {
      assert t[..2][1] == r[0];
    }
  }

  lemma NameFurther(s: string, r: string)
    requires s != [] && s[0] == MARK && Boundary(r) && !NameStep(s).Stuck?
    ensures (s + r)[0] == s[0] && NameStep(s + r) == NameStep(s).(rest := NameStep(s).rest + r)
  {
    assert (s + r)[1..] == s[1..] + r;
    UnquoteFurther(s[1..], MARK, r);
  }

  lemma WordFurther(s: string, r: string)
    requires s != [] && Boundary(r)
    ensures var n := WordLength(s); WordLength(s + r) == n && (s + r)[..n] == s[..n] && (s + r)[n..] == s[n..] + r
  {
    WordLengthFurther(s, r);
  }

  lemma FirstFurther(s: string, r: string)
    requires s != [] && Boundary(r) && !FirstStep(s).Stuck?
    ensures (s + r)[0] == s[0] && FirstStep(s + r) == FirstStep(s).(rest := FirstStep(s).rest + r)
  {
    hide SymbolStep, NameStep, WordLength, WordToken, Boundary, AllDigits, Numeral;
    var t := s + r;
    assert t[0] == s[0] && t[1..] == s[1..] + r;
    if s[0] == MARK {
      NameFurther(s, r);
    } else if s[0] in "=<>" {
      SymbolFurther(s, r);
    } else if WordStart(s[0]) || Digit(s[0]) {
      WordFurther(s, r);
    } else if s[0] == '-' {
      MinusFurther(s, r);
    }
  }

  lemma MinusFurther(s: string, r: string)
    requires s != [] && (|s| == 1 || s[1] != '-') && Boundary(r)
    ensures |s + r| == 1 || (s + r)[1] != '-'
  {
  }

  /** A text that has tokens, and does not end the statement, has them in front of what does not
      continue it. */
  lemma {:induction false} LexFurther(s: string, q: seq<Token>, r: string, values: seq<Value>)
    requires Lex(s, []) == Some(q) && Lex(s + ".", []) == Some(q + [Dot]) && Boundary(r)
    ensures Lex(s + r, values) == Prefix(q, Lex(r, values))
    decreases |s|
  {
    hide FirstStep;
    if s == [] {
      assert s + r == r;
      assert Lex(r, values).Some? ==> [] + Lex(r, values).value == Lex(r, values).value;
    } else {
      assert (s + ".")[0] == s[0] && (s + r)[0] == s[0];
      if !StatementEnd(s[0]) && s[0] != '?' {
        FirstFurther(s, r);
        FirstFurther(s, ".");
        var step := FirstStep(s);
        if step.Skip? {
          LexFurther(step.rest, q, r, values);
        } else {
          var tail := Lex(step.rest, []).value;
          assert q == [step.token] + tail;
          assert ([step.token] + Lex(step.rest + ".", []).value)[1..] == (q + [Dot])[1..] == tail + [Dot];
          LexFurther(step.rest, tail, r, values);
          if Lex(r, values).Some? {
            Associate([step.token], tail, Lex(r, values).value);
          }
        }
      }
    }
  }

  lemma AliasReads(alias: string)
    requires AliasRead(alias).Some?
    ensures Reads(alias, [], AliasTokens(alias))
  {
    hide Lex;
    forall r: string, values: seq<Value> | Boundary(r)
      ensures Lex(alias + r, [] + values) == Prefix(AliasTokens(alias), Lex(r, values))
    {
      LexFurther(alias, AliasTokens(alias), r, values);
      assert [] + values == values;
    }
  }

  /** A word that is not reserved is read as itself. */
  lemma GoodAliasIsRead(alias: string)
    requires GoodAlias(alias)
    ensures AliasRead(alias) == Some([Word(alias)])
  {
    hide Lex, WordText, Reserved;
    LexWord(alias, "", []);
    LexWord(alias, ".", []);
    LexOfEnds();
    assert alias + "" == alias && [Word(alias)] + [] == [Word(alias)];
  }

  lemma LexOfEnds()
    ensures Lex("", []) == Some([]) && Lex(".", []) == Some([Dot])
  {
    var text: string, none: seq<Value> := ".", [];
    assert text[1..] == "" && FirstStep(text) == Take(Dot, "");
    assert Lex(text, none) == Then(Dot, Lex("", none));
    assert [Dot] + [] == [Dot];
  }

  lemma AliasedRead(alias: string, name: Characters)
    ensures PartsRead(Piece(alias + ".") + Piece(Quoted(name, MARK)), AliasTokens(alias) + [Dot] + [Name(Flat(name))],
                      AliasRead(alias).Some? && Legible(name, MARK))
  {
    hide Reads, ReadsAny, Misreads, MisreadsAny, GoodAlias, Quoted, AliasRead, AliasTokens;
    var column, tokens := Piece(Quoted(name, MARK)), AliasTokens(alias);
    ColumnRead(name);
    if AliasRead(alias).Some? {
      AliasReads(alias);
      PunctuationReads();
      var none: seq<Value> := [];
      assert none + none == none;
      ReadsAnyThen(alias, [], tokens, ".", [], [Dot]);
      PieceReads(alias + ".", tokens + [Dot]);
      PartsThen(Piece(alias + "."), tokens + [Dot], true, column, [Name(Flat(name))], Legible(name, MARK));
    } else {
      UnreadAlias(alias);
      AliasMisreads(alias, Sql(Piece(alias + ".") + column), Bindings(Piece(alias + ".") + column), Name(Flat(name)));
      assert [Word(alias)] + [Dot] + [Name(Flat(name))] == [Word(alias), Dot, Name(Flat(name))];
    }
  }

  lemma UnreadAlias(alias: string)
    requires AliasRead(alias).None?
    ensures AliasTokens(alias) == [Word(alias)] && !GoodAlias(alias)
  {
    hide GoodAlias, Lex;
    if GoodAlias(alias) {
      GoodAliasIsRead(alias);
    }
  }

  /** Whatever is read, its words can be aliases. */
  lemma {:induction false} WordsAreGood(s: string, values: seq<Value>)
    ensures Lex(s, values).Some? ==> forall w :: Word(w) in Lex(s, values).value ==> GoodAlias(w)
    decreases |s|
  {
    hide GoodAlias, FirstStep;
    if s != [] && !StatementEnd(s[0]) {
      if s[0] == '?' {
        if values != [] {
          WordsAreGood(s[1..], values[1..]);
        }
      } else if !FirstStep(s).Stuck? {
        FirstIsGood(s);
        WordsAreGood(FirstStep(s).rest, values);
      }
    }
  }

  lemma FirstIsGood(s: string)
    requires s != []
    ensures FirstStep(s).Take? && FirstStep(s).token.Word? ==> GoodAlias(FirstStep(s).token.word)
  {
    hide GoodAlias;
    if WordStart(s[0]) {
      WordIsGood(s);
    }
  }

  lemma {:induction false} WordLengthCounts(s: string)
    ensures forall i :: 0 <= i < WordLength(s) ==> WordChar(s[i])
  {
    if s != [] && WordChar(s[0]) {
      WordLengthCounts(s[1..]);
    }
  }

  lemma WordIsGood(s: string)
    requires s != [] && WordStart(s[0])
    ensures WordLength(s) > 0
    ensures var w := s[..WordLength(s)]; WordToken(w).Word? ==> GoodAlias(w)
  {
    WordLengthCounts(s);
  }

  lemma AliasMisreads(alias: string, s: string, vs: seq<Value>, t: Token)
    requires !GoodAlias(alias)
    ensures Misreads(s, vs, [Word(alias), Dot, t])
  {
    hide Lex, GoodAlias;
    forall r: string, values: seq<Value> | Boundary(r)
      ensures !Begins([Word(alias), Dot, t], Lex(s + r, vs + values))
    {
      WordsAreGood(s + r, vs + values);
      var o := Lex(s + r, vs + values);
      if o.Some? {
        LeavesAreTokens(o.value);
        assert Leaves([Word(alias), Dot, t])[0] == Word(alias);
      }
    }
  }

  lemma {:induction false} LeavesAreTokens(ts: seq<Token>)
    ensures forall t :: t in Leaves(ts) ==> t in ts
  {
    if ts != [] {
      LeavesAreTokens(ts[1..]);
    }
  }

  lemma ValueRead(v: Value)
    ensures PartsRead([Part("?", Some(v))], [Param(v)], true)
  {
    PlaceholderReads(v);
    hide Reads;
    var parts, rest: seq<Part> := [Part("?", Some(v))], [];
    assert parts[1..] == rest && Sql(rest) == [] && Bindings(rest) == [];
    assert Sql(parts) == "?" + Sql(rest) == "?";
    assert Bindings(parts) == [v] + Bindings(rest) == [v];
  }

  /** Parts with a closing parenthesis behind them, which ends whatever they end with. */
  lemma Closing(a: seq<Part>, ta: seq<Token>, oka: bool, b: seq<Part>, tb: seq<Token>, okb: bool)
    requires PartsReadAny(a, ta, oka) && PartsRead(b, tb, okb)
    ensures PartsReadAny(a + b + Piece(")"), ta + tb + [RPar], oka && okb)
    ensures PartsRead(a + b + Piece(")"), ta + tb + [RPar], oka && okb)
  {
    hide PartsRead, PartsReadAny, StartsAtBoundary;
    PiecesRead();
    StartOfPiece(")", []);
    PartsThen(a, ta, oka, b, tb, okb);
    PartsThen(a + b, ta + tb, oka && okb, Piece(")"), [RPar], true);
    AnyIsRead(a + b + Piece(")"), ta + tb + [RPar], oka && okb);
  }

  lemma {:induction false} ListRead(rs: seq<Representable>, first: bool)
    ensures PartsRead(ListParts(rs, first), ListTokens(rs, first), forall x :: x in rs ==> ReadableRep(x))
    ensures !first && rs != [] ==> StartsAtBoundary(ListParts(rs, first))
    decreases rs
  {
    hide PartsRead, PartsReadAny, StartsAtBoundary, RepParts, RepTokens, ReadableRep;
    NothingIsRead();
    if rs != [] {
      PiecesRead();
      RepRead(rs[0]);
      ListRead(rs[1..], false);
      var ok, oks := ReadableRep(rs[0]), forall x :: x in rs[1..] ==> ReadableRep(x);
      assert rs == [rs[0]] + rs[1..];
      var separator, comma := if first then [] else Piece(", "), if first then [] else [Comma];
      var rest, tokens := ListParts(rs[1..], false), ListTokens(rs[1..], false);
      PartsThen(separator, comma, true, RepParts(rs[0]), RepTokens(rs[0]), ok);
      if !first {
        StartOfPiece(", ", RepParts(rs[0]) + rest);
        Associate(separator, RepParts(rs[0]), rest);
      }
      if |rs| > 1 {
        PartsThen(separator + RepParts(rs[0]), comma + RepTokens(rs[0]), ok, rest, tokens, oks);
      } else {
        assert separator + RepParts(rs[0]) + [] == separator + RepParts(rs[0]);
        assert comma + RepTokens(rs[0]) + [] == comma + RepTokens(rs[0]);
      }
    }
  }

  lemma {:induction false} PredicateRead(p: Predicate)
    ensures PartsRead(Parts(p), Tokens(p), Readable(p))
    decreases p, 0
  {
    hide PartsRead, PartsReadAny, StartsAtBoundary, RepParts, RepTokens, ReadableRep;
    PiecesRead();
    match p
    case Compare(lhs, op, rhs) =>
      CompareRead(lhs, op, rhs);
    case NullTest(rep, negated) =>
      NullTestRead(rep, negated);
    case Range(rep, lo, hi, negated) =>
      RangeRead(rep, lo, negated);
    case In(rep, values) =>
      InRead(rep, values);
    case Not(q) =>
      PredicateRead(q);
      PartsThen(Piece("NOT "), [Keyword("NOT")], true, Piece("("), [LPar], true);
      Closing(Piece("NOT ") + Piece("("), [Keyword("NOT")] + [LPar], true, Parts(q), Tokens(q), Readable(q));
    case Compound(c, ps) =>
      ChainRead(c, ps, true);
      Closing(Piece("("), [LPar], true, ChainParts(c, ps, true), ChainTokens(c, ps, true), Readable(p));
  }

  lemma CompareRead(lhs: Representable, op: Operator, rhs: Representable)
    ensures PartsRead(RepParts(lhs) + Piece(" " + OperatorText(op) + " ") + RepParts(rhs),
                      RepTokens(lhs) + OperatorTokens(op) + RepTokens(rhs), ReadableRep(lhs) && ReadableRep(rhs))
  {
    hide PartsRead, PartsReadAny, RepParts, RepTokens, StartsAtBoundary, OperatorText, Reads, ReadsAny, ReadableRep;
    var middle := Piece(" " + OperatorText(op) + " ");
    RepRead(lhs);
    RepRead(rhs);
    OperatorReads(op);
    PieceReads(" " + OperatorText(op) + " ", OperatorTokens(op));
    StartOfPiece(" " + OperatorText(op) + " ", []);
    PartsThen(RepParts(lhs), RepTokens(lhs), ReadableRep(lhs), middle, OperatorTokens(op), true);
    PartsThen(RepParts(lhs) + middle, RepTokens(lhs) + OperatorTokens(op), ReadableRep(lhs),
              RepParts(rhs), RepTokens(rhs), ReadableRep(rhs));
  }

  lemma NullTestRead(rep: Representable, negated: bool)
    ensures PartsRead(RepParts(rep) + Piece(if negated then " IS NOT NULL" else " IS NULL"),
                      RepTokens(rep) + NullTestTokens(negated), ReadableRep(rep))
  {
    hide PartsRead, PartsReadAny, RepParts, RepTokens, StartsAtBoundary, Reads, ReadsAny, ReadableRep;
    var test := if negated then " IS NOT NULL" else " IS NULL";
    RepRead(rep);
    NullTestReads(negated);
    PieceReads(test, NullTestTokens(negated));
    StartOfPiece(test, []);
    PartsThen(RepParts(rep), RepTokens(rep), ReadableRep(rep), Piece(test), NullTestTokens(negated), true);
  }

  lemma RangeRead(rep: Representable, lo: Representable, negated: bool)
    ensures PartsRead(RepParts(rep) + Piece(if negated then " NOT BETWEEN " else " BETWEEN ") + RepParts(lo)
                      + Piece(" AND ") + RepParts(lo),
                      RepTokens(rep) + BetweenTokens(negated) + RepTokens(lo) + [Keyword("AND")] + RepTokens(lo),
                      ReadableRep(rep) && ReadableRep(lo))
  {
    hide PartsRead, PartsReadAny, RepParts, RepTokens, StartsAtBoundary, Reads, ReadsAny, ReadableRep;
    var word := if negated then " NOT BETWEEN " else " BETWEEN ";
    var conjunction, ok, okLo := Piece(" AND "), ReadableRep(rep), ReadableRep(lo);
    PiecesRead();
    RepRead(rep);
    RepRead(lo);
    BetweenReads(negated);
    PieceReads(word, BetweenTokens(negated));
    StartOfPiece(word, []);
    StartOfPiece(" AND ", []);
    var a, ta := RepParts(rep) + Piece(word), RepTokens(rep) + BetweenTokens(negated);
    PartsThen(RepParts(rep), RepTokens(rep), ok, Piece(word), BetweenTokens(negated), true);
    PartsThen(a, ta, ok, RepParts(lo), RepTokens(lo), okLo);
    PartsThen(a + RepParts(lo), ta + RepTokens(lo), ok && okLo, conjunction, [Keyword("AND")], true);
    PartsThen(a + RepParts(lo) + conjunction, ta + RepTokens(lo) + [Keyword("AND")], ok && okLo,
              RepParts(lo), RepTokens(lo), okLo);
  }

  lemma InRead(rep: Representable, values: seq<Representable>)
    ensures PartsRead(RepParts(rep) + Piece(" IN ") + Piece("(") + ListParts(values, true) + Piece(")"),
                      RepTokens(rep) + [Keyword("IN")] + [LPar] + ListTokens(values, true) + [RPar],
                      ReadableRep(rep) && forall x :: x in values ==> ReadableRep(x))
  {
    hide PartsRead, PartsReadAny, RepParts, RepTokens, StartsAtBoundary, ListParts, ListTokens, ReadableRep;
    var in_, ok := Piece(" IN "), ReadableRep(rep);
    PiecesRead();
    RepRead(rep);
    ListRead(values, true);
    StartOfPiece(" IN ", []);
    PartsThen(RepParts(rep), RepTokens(rep), ok, in_, [Keyword("IN")], true);
    PartsThen(RepParts(rep) + in_, RepTokens(rep) + [Keyword("IN")], ok, Piece("("), [LPar], true);
    Closing(RepParts(rep) + in_ + Piece("("), RepTokens(rep) + [Keyword("IN")] + [LPar], ok,
            ListParts(values, true), ListTokens(values, true), forall x :: x in values ==> ReadableRep(x));
  }

  lemma {:induction false} ChainRead(c: Conjunction, ps: seq<Predicate>, first: bool)
    ensures PartsRead(ChainParts(c, ps, first), ChainTokens(c, ps, first), forall q :: q in ps ==> Readable(q))
    ensures !first && ps != [] ==> StartsAtBoundary(ChainParts(c, ps, first))
    decreases ps, 1
  {
    hide PartsRead, PartsReadAny, StartsAtBoundary, Parts, Tokens, Readable;
    NothingIsRead();
    if ps != [] {
      PiecesRead();
      PredicateRead(ps[0]);
      ChainRead(c, ps[1..], false);
      var ok, oks := Readable(ps[0]), forall q :: q in ps[1..] ==> Readable(q);
      assert ps == [ps[0]] + ps[1..];
      var text := " " + ConjunctionText(c) + " ";
      assert text == if c == And then " AND " else " OR ";
      var separator, word := if first then [] else Piece(text), if first then [] else [Keyword(ConjunctionText(c))];
      var rest, tokens := ChainParts(c, ps[1..], false), ChainTokens(c, ps[1..], false);
      PartsThen(separator, word, true, Parts(ps[0]), Tokens(ps[0]), ok);
      if !first {
        StartOfPiece(text, Parts(ps[0]) + rest);
        Associate(separator, Parts(ps[0]), rest);
      }
      if |ps| > 1 {
        PartsThen(separator + Parts(ps[0]), word + Tokens(ps[0]), ok, rest, tokens, oks);
      } else {
        assert separator + Parts(ps[0]) + [] == separator + Parts(ps[0]);
        assert word + Tokens(ps[0]) + [] == word + Tokens(ps[0]);
      }
    }
  }

  /** What is read in front of anything is read when nothing follows. */
  lemma WholeText(parts: seq<Part>, ts: seq<Token>, ok: bool)
    requires PartsRead(parts, ts, ok)
    ensures ok ==> Lex(Sql(parts), Bindings(parts)) == Some(ts)
    ensures !ok ==> !Begins(ts, Lex(Sql(parts), Bindings(parts)))
  {
    var text: string, values: seq<Value> := [], [];
    assert Boundary(text);
    assert Sql(parts) + text == Sql(parts) && Bindings(parts) + values == Bindings(parts) && ts + [] == ts;
    if ok {
      assert Lex(Sql(parts) + text, Bindings(parts) + values) == Prefix(ts, Lex(text, values));
    } else {
      assert !Begins(ts, Lex(Sql(parts) + text, Bindings(parts) + values));
    }
  }

  /** Reading the text of a predicate with its bindings gives its tokens, names, values, words and
      parentheses where the predicate has them, if and only if its names and aliases can be read. */
  lemma LexOfPredicate(p: Predicate)
    ensures Lex(Sql(Parts(p)), Bindings(Parts(p))) == Some(Tokens(p)) <==> Readable(p)
    ensures !Readable(p) ==> !Begins(Tokens(p), Lex(Sql(Parts(p)), Bindings(Parts(p))))
  {
    hide Parts, Tokens, Readable, PartsRead, Lex;
    PredicateRead(p);
    WholeText(Parts(p), Tokens(p), Readable(p));
  }
}

/** Which value a placeholder gets. SQLite numbers the question marks outside quoted names from the
    left, as long as no parameter has a name or a number of its own, and binds the k-th value of
    SQLExpression.bindings to the k-th of them. */
module SqlBindings {
  import opened Wrappers
  import opened SqlExpression
  import opened SqlPredicate
  import opened SqlLexer

  // ---------- placeholders in a text ----------

  /** Where SQLite is in a text, as far as it matters to placeholders: in a word, behind a question
      mark, in a quotation with a given closing mark, in a comment of either kind, behind a character
      that may begin one, behind the end of the statement, or elsewhere. */
  datatype Mode = Outside | InWord | Marked | Dash | Slash | Inside(close: char) | Line | Block | Star | Over

  predicate InCode(m: Mode) {
    m == Outside || m == InWord || m == Marked || m == Dash || m == Slash
  }

  function Next(m: Mode, c: char): Mode {
    if m == Over || c == NUL then Over
    else
      match m
      case Inside(close) => if c == close then Outside else m
      case Line => if c == '\n' then Outside else Line
      case Block => if c == '*' then Star else Block
      case Star => if c == '/' then Outside else if c == '*' then Star else Block
      case _ =>
        if c == '-' then (if m == Dash then Line else Dash)
        else if c == '*' && m == Slash then Block
        else if c == '/' then Slash
        else if c == '"' || c == '\'' || c == '`' then Inside(c)
        else if c == '[' then Inside(']')
        else if c == ';' then Over
        else if c == '?' then Marked
        else if WordChar(c) && (c != '$' || m == InWord) && c != BYTE_ORDER_MARK then InWord
        else Outside
  }

  /** A mark that is doubled inside a quotation leaves it and enters it again. */
  function Ends(s: string, m: Mode): Mode {
    if s == [] then m else Ends(s[1..], Next(m, s[0]))
  }

  /** A question mark, or a place where a parameter is given a name or a number. */
  datatype Parameter = Anonymous(at: nat) | Given(at: nat)

  predicate Gives(m: Mode, c: char) {
    InCode(m) && (c == ':' || c == '@' || c == '#' || (c == '$' && m != InWord) || (Digit(c) && m == Marked))
  }

  function Here(c: char, at: nat, m: Mode): seq<Parameter> {
    if c == '?' && InCode(m) then [Anonymous(at)]
    else if Gives(m, c) then [Given(at)]
    else []
  }

  /** The parameters outside quotations and comments, with their positions counted from at. */
  function Placeholders(s: string, at: nat, m: Mode): seq<Parameter> {
    if s == [] then [] else Here(s[0], at, m) + Placeholders(s[1..], at + 1, Next(m, s[0]))
  }

  lemma ScanOfFirst(s: string, at: nat, m: Mode)
    requires s != []
    ensures Ends(s, m) == Ends(s[1..], Next(m, s[0]))
    ensures Placeholders(s, at, m) == Here(s[0], at, m) + Placeholders(s[1..], at + 1, Next(m, s[0]))
  {
    hide Next, Here;
  }

  lemma ScanOfNothing(at: nat, m: Mode)
    ensures Ends([], m) == m && Placeholders([], at, m) == []
  {
  }

  lemma {:induction false} ScanOfAppend(s: string, t: string, at: nat, m: Mode)
    ensures Ends(s + t, m) == Ends(t, Ends(s, m))
    ensures Placeholders(s + t, at, m) == Placeholders(s, at, m) + Placeholders(t, at + |s|, Ends(s, m))
  {
    hide Next, Ends, Placeholders, Here;
    if s == [] {
      ScanOfNothing(at, m);
      assert s + t == t;
    } else {
      assert (s + t)[0] == s[0] && (s + t)[1..] == s[1..] + t;
      ScanOfFirst(s, at, m);
      ScanOfFirst(s + t, at, m);
      ScanOfAppend(s[1..], t, at + 1, Next(m, s[0]));
      Associate(Here(s[0], at, m), Placeholders(s[1..], at + 1, Next(m, s[0])), Placeholders(t, at + |s|, Ends(s, m)));
    }
  }

  /** A text that can stand anywhere: it has no parameter, ends every quotation and comment that it
      begins, and does not end the statement. */
  ghost predicate Closed(s: string) {
    && (Ends(s, Outside) == Outside || Ends(s, Outside) == InWord)
    && forall at: nat :: Placeholders(s, at, Outside) == []
  }

  /** The text can stand behind a question mark. */
  predicate Follows(s: string) {
    s == [] || !Digit(s[0])
  }

  /** A closed text does the same behind a word or a question mark as elsewhere. */
  lemma FromRest(s: string, at: nat, m: Mode)
    requires Closed(s) && s != [] && (m == Outside || m == InWord || (m == Marked && Follows(s)))
    ensures Ends(s, m) == Ends(s, Outside) && Placeholders(s, at, m) == []
  {
    hide Ends, Placeholders;
    ScanOfFirst(s, at, m);
    ScanOfFirst(s, at, Outside);
    assert Placeholders(s, at, Outside) == [];
    assert Here(s[0], at, Outside) == [];
  }

  lemma ClosedAppend(s: string, t: string)
    requires Closed(s) && Closed(t)
    ensures Closed(s + t)
  {
    hide Next, Here, Ends, Placeholders;
    forall at: nat
      ensures Placeholders(s + t, at, Outside) == [] && (Ends(s + t, Outside) == Outside || Ends(s + t, Outside) == InWord)
    {
      ScanOfAppend(s, t, at, Outside);
      if t == [] {
        ScanOfNothing(at + |s|, Ends(s, Outside));
      } else {
        FromRest(t, at + |s|, Ends(s, Outside));
      }
    }
    assert Placeholders(s + t, 0, Outside) == [];
  }

  predicate PlainChar(c: char) {
    && c != '"' && c != '\'' && c != '`' && c != '[' && c != '-' && c != '/'
    && c != '?' && c != ':' && c != '@' && c != '#' && c != '$' && c != ';' && c != NUL
  }

  predicate Plain(s: string) {
    forall i :: 0 <= i < |s| ==> PlainChar(s[i])
  }

  lemma NextOfPlain(m: Mode, c: char, at: nat)
    requires PlainChar(c) && (m == Outside || m == InWord || m == Dash)
    ensures (Next(m, c) == Outside || Next(m, c) == InWord) && Here(c, at, m) == []
  {
  }

  lemma {:induction false} PlainPlaceholders(s: string, at: nat, m: Mode)
    requires Plain(s) && (m == Outside || m == InWord || (m == Dash && s != []))
    ensures (Ends(s, m) == Outside || Ends(s, m) == InWord) && Placeholders(s, at, m) == []
  {
    hide PlainChar, Next, Here;
    if s != [] {
      NextOfPlain(m, s[0], at);
      PlainPlaceholders(s[1..], at + 1, Next(m, s[0]));
    }
  }

  lemma PlainIsClosed(s: string)
    requires Plain(s)
    ensures Closed(s)
  {
    hide Plain, Next, Ends, Placeholders;
    forall at: nat
      ensures Placeholders(s, at, Outside) == []
    {
      PlainPlaceholders(s, at, Outside);
    }
    PlainPlaceholders(s, 0, Outside);
  }

  /** A minus sign alone begins no comment. */
  lemma MinusIsClosed(s: string)
    requires Plain(s) && s != []
    ensures Closed("-" + s)
  {
    hide Plain, Ends, Placeholders;
    assert ("-" + s)[0] == '-' && ("-" + s)[1..] == s;
    forall at: nat
      ensures Placeholders("-" + s, at, Outside) == []
    {
      ScanOfFirst("-" + s, at, Outside);
      PlainPlaceholders(s, at + 1, Dash);
    }
    ScanOfFirst("-" + s, 0, Outside);
    PlainPlaceholders(s, 1, Dash);
  }

  lemma ScanOfChar(c: char, at: nat, m: Mode)
    ensures Ends([c], m) == Next(m, c) && Placeholders([c], at, m) == Here(c, at, m)
  {
    hide Next, Here;
    assert [c][1..] == [];
    ScanOfNothing(at + 1, Next(m, c));
  }

  lemma TwoMarks(at: nat)
    ensures Ends([MARK, MARK], Inside(MARK)) == Inside(MARK) && Placeholders([MARK, MARK], at, Inside(MARK)) == []
  {
    ScanOfAppend([MARK], [MARK], at, Inside(MARK));
    assert [MARK] + [MARK] == [MARK, MARK];
  }

  lemma OneInside(c: char, at: nat)
    requires c != MARK && c != NUL
    ensures Ends([c], Inside(MARK)) == Inside(MARK) && Placeholders([c], at, Inside(MARK)) == []
  {
  }

  lemma {:induction false} DoubledStaysInside(s: string, at: nat)
    requires NUL !in s
    ensures Ends(Doubled(s, MARK), Inside(MARK)) == Inside(MARK) && Placeholders(Doubled(s, MARK), at, Inside(MARK)) == []
  {
    if s != [] {
      hide Ends, Placeholders;
      assert s == [s[0]] + s[1..];
      var first := if s[0] == MARK then [MARK, MARK] else [s[0]];
      if s[0] == MARK {
        TwoMarks(at);
      } else {
        OneInside(s[0], at);
      }
      DoubledStaysInside(s[1..], at + |first|);
      ScanOfAppend(first, Doubled(s[1..], MARK), at, Inside(MARK));
    }
  }

  lemma ScanOfQuoted(name: Characters, at: nat)
    requires Legible(name, MARK)
    ensures Ends(Quoted(name, MARK), Outside) == Outside && Placeholders(Quoted(name, MARK), at, Outside) == []
  {
    hide Ends, Placeholders;
    LooseMarks(name, MARK);
    var d := MarksDoubled(name, MARK);
    ScanOfChar(MARK, at, Outside);
    DoubledStaysInside(Flat(name), at + 1);
    ScanOfChar(MARK, at + 1 + |d|, Inside(MARK));
    ScanOfAppend([MARK], d, at, Outside);
    ScanOfAppend([MARK] + d, [MARK], at, Outside);
  }

  /** Whatever a name contains, question marks and quotation marks included, it is closed once it
      is quoted, unless a mark is part of a longer character. */
  lemma QuotedIsClosed(name: Characters)
    requires Legible(name, MARK)
    ensures Closed(Quoted(name, MARK))
  {
    hide Next, Quoted;
    forall at: nat
      ensures Placeholders(Quoted(name, MARK), at, Outside) == []
    {
      ScanOfQuoted(name, at);
    }
    ScanOfQuoted(name, 0);
  }

  /** With an accented mark in a column name, a question mark behind it becomes a placeholder that no
      value was meant for. */
  lemma StrayPlaceholder()
    ensures var parts := Parts(NullTest(Column(["\"\U{0301}", "?"]), false));
            Bindings(parts) == [] && Placeholders(Sql(parts), 0, Outside) == [Anonymous(3)]
  {
    hide Quoted, Ends, Placeholders, Sql, Bindings;
    StrayText();
    var quoted, test := Quoted(["\"\U{0301}", "?"], MARK), " IS NULL";
    var parts := Piece(quoted) + Piece(test);
    PieceText(quoted);
    PieceText(test);
    SqlOfAppend(Piece(quoted), Piece(test));
    BindingsOfAppend(Piece(quoted), Piece(test));
    InsideStays(test, 5);
    ScanOfAppend(quoted, test, 0, Outside);
  }

  lemma StrayQuoted()
    ensures Quoted(["\"\U{0301}", "?"], MARK) == [MARK, MARK, '\U{0301}', '?', MARK]
  {
    var name := ["\"\U{0301}", "?"];
    assert name[1..] == ["?"] && ["?"][1..] == [];
    assert MarksDoubled(["?"], MARK) == "?" + [] == "?";
    assert MarksDoubled(name, MARK) == "\"\U{0301}" + "?";
  }

  lemma StraySteps()
    ensures Next(Outside, MARK) == Inside(MARK) && Next(Inside(MARK), MARK) == Outside && Next(Outside, '\U{0301}') == InWord
    ensures Next(InWord, '?') == Marked && Next(Marked, MARK) == Inside(MARK)
    ensures Here(MARK, 0, Outside) == [] && Here(MARK, 1, Inside(MARK)) == [] && Here('\U{0301}', 2, Outside) == []
    ensures Here('?', 3, InWord) == [Anonymous(3)] && Here(MARK, 4, Marked) == []
  {
  }

  lemma StrayText()
    ensures var quoted := Quoted(["\"\U{0301}", "?"], MARK);
            |quoted| == 5 && Ends(quoted, Outside) == Inside(MARK) && Placeholders(quoted, 0, Outside) == [Anonymous(3)]
  {
    hide Ends, Placeholders, Quoted, Next, Here;
    StrayQuoted();
    StraySteps();
    var s := [MARK, MARK, '\U{0301}', '?', MARK];
    ScanOfFirst(s, 0, Outside);
    ScanOfFirst(s[1..], 1, Inside(MARK));
    ScanOfFirst(s[2..], 2, Outside);
    ScanOfFirst(s[3..], 3, InWord);
    ScanOfFirst(s[4..], 4, Marked);
    ScanOfNothing(5, Inside(MARK));
    assert s[1..][1..] == s[2..] && s[2..][1..] == s[3..] && s[3..][1..] == s[4..] && s[4..][1..] == [];
  }

  lemma {:induction false} InsideStays(s: string, at: nat)
    requires MARK !in s && NUL !in s
    ensures Ends(s, Inside(MARK)) == Inside(MARK) && Placeholders(s, at, Inside(MARK)) == []
  {
    if s != [] {
      assert s == [s[0]] + s[1..];
      InsideStays(s[1..], at + 1);
    }
  }

  // ---------- placeholders in an expression ----------

  /** Where the parts that carry a value start in the text, with the value that each carries. */
  function Carriers(parts: seq<Part>, at: nat): seq<(nat, Value)> {
    if parts == [] then []
    else
      (if parts[0].binding.Some? then [(at, parts[0].binding.value)] else [])
      + Carriers(parts[1..], at + |parts[0].text|)
  }

  /** The text of a part that carries a value is a placeholder, that of any other is closed and can
      stand behind one. */
  ghost predicate Regular(parts: seq<Part>) {
    forall p :: p in parts ==> if p.binding.Some? then p.text == "?" else Closed(p.text) && Follows(p.text)
  }

  function Offsets(cs: seq<(nat, Value)>): (r: seq<Parameter>)
    ensures |r| == |cs|
  {
    seq(|cs|, i requires 0 <= i < |cs| => Anonymous(cs[i].0))
  }

  function Values(cs: seq<(nat, Value)>): (r: seq<Value>)
    ensures |r| == |cs|
  {
    seq(|cs|, i requires 0 <= i < |cs| => cs[i].1)
  }

  lemma {:induction false} BindingsAreCarried(parts: seq<Part>, at: nat)
    ensures Bindings(parts) == Values(Carriers(parts, at))
  {
    if parts != [] {
      BindingsAreCarried(parts[1..], at + |parts[0].text|);
    }
  }

  /** Where the scanner can be between two parts. */
  predicate Rest(m: Mode) {
    m == Outside || m == InWord || m == Marked
  }

  lemma ScanOfPlaceholder(at: nat, m: Mode)
    requires Rest(m)
    ensures Placeholders("?", at, m) == [Anonymous(at)] && Ends("?", m) == Marked
  {
  }

  lemma OffsetsOfFirst(p: Part, at: nat, cs: seq<(nat, Value)>)
    ensures Offsets((if p.binding.Some? then [(at, p.binding.value)] else []) + cs)
         == (if p.binding.Some? then [Anonymous(at)] else []) + Offsets(cs)
  {
  }

  lemma ScanOfPart(p: Part, at: nat, m: Mode)
    requires Regular([p]) && Rest(m)
    ensures Rest(Ends(p.text, m))
    ensures Placeholders(p.text, at, m) == if p.binding.Some? then [Anonymous(at)] else []
  {
    hide Ends, Placeholders;
    assert p in [p];
    if p.binding.Some? {
      ScanOfPlaceholder(at, m);
    } else if p.text == [] {
      ScanOfNothing(at, m);
    } else {
      FromRest(p.text, at, m);
    }
  }

  lemma CarriersStep(p: Part, rest: seq<Part>, at: nat, m: Mode)
    requires Regular([p]) && Rest(m)
    requires var n := Ends(p.text, m);
             Rest(Ends(Sql(rest), n)) && Placeholders(Sql(rest), at + |p.text|, n) == Offsets(Carriers(rest, at + |p.text|))
    ensures Rest(Ends(Sql([p] + rest), m))
    ensures Placeholders(Sql([p] + rest), at, m) == Offsets(Carriers([p] + rest, at))
  {
    hide Ends, Placeholders, Regular, Offsets, Rest;
    assert ([p] + rest)[1..] == rest;
    ScanOfPart(p, at, m);
    ScanOfAppend(p.text, Sql(rest), at, m);
    OffsetsOfFirst(p, at, Carriers(rest, at + |p.text|));
  }

  lemma RegularParts(parts: seq<Part>)
    requires Regular(parts) && parts != []
    ensures Regular([parts[0]]) && Regular(parts[1..])
  {
    hide Closed, Follows;
    assert parts[0] in parts && forall q :: q in parts[1..] ==> q in parts;
  }

  lemma NoCarriers(at: nat)
    ensures Sql([]) == [] && Offsets(Carriers([], at)) == []
  {
  }

  lemma {:induction false} PlaceholdersAreCarriers(parts: seq<Part>, at: nat, m: Mode)
    requires Regular(parts) && Rest(m)
    ensures Rest(Ends(Sql(parts), m))
    ensures Placeholders(Sql(parts), at, m) == Offsets(Carriers(parts, at))
  {
    hide Regular, Rest, Ends, Placeholders, Sql, Offsets, Carriers;
    if parts == [] {
      NoCarriers(at);
      ScanOfNothing(at, m);
    } else {
      var p, rest := parts[0], parts[1..];
      RegularParts(parts);
      ScanOfPart(p, at, m);
      PlaceholdersAreCarriers(rest, at + |p.text|, Ends(p.text, m));
      CarriersStep(p, rest, at, m);
      assert [p] + rest == parts;
    }
  }

  /** The k-th parameter of the text is a question mark where the part that carries the k-th binding
      starts, none has a name or a number, there are as many as bindings, and the statement does not
      end before the text does. */
  lemma PlaceholdersMatchBindings(parts: seq<Part>)
    requires Regular(parts)
    ensures Placeholders(Sql(parts), 0, Outside) == Offsets(Carriers(parts, 0))
    ensures Bindings(parts) == Values(Carriers(parts, 0))
    ensures |Placeholders(Sql(parts), 0, Outside)| == |Bindings(parts)|
    ensures Rest(Ends(Sql(parts), Outside))
  {
    PlaceholdersAreCarriers(parts, 0, Outside);
    BindingsAreCarried(parts, 0);
  }

  // ---------- placeholders in a predicate ----------

  ghost predicate NamesCloseInRep(r: Representable)
    decreases r
  {
    match r
    case Column(name) => Legible(name, MARK)
    case Aliased(alias, name) => Closed(alias) && Follows(alias) && Legible(name, MARK)
    case Val(v) => true
    case Tuple(rs) => forall x :: x in rs ==> NamesCloseInRep(x)
  }

  ghost predicate NamesClose(p: Predicate)
    decreases p
  {
    match p
    case Compare(lhs, op, rhs) => NamesCloseInRep(lhs) && NamesCloseInRep(rhs)
    case NullTest(rep, negated) => NamesCloseInRep(rep)
    case Range(rep, lo, hi, negated) => NamesCloseInRep(rep) && NamesCloseInRep(lo)
    case In(rep, values) => NamesCloseInRep(rep) && forall x :: x in values ==> NamesCloseInRep(x)
    case Not(q) => NamesClose(q)
    case Compound(c, ps) => forall q :: q in ps ==> NamesClose(q)
  }

  lemma PieceIsRegular(s: string)
    requires Closed(s) && Follows(s)
    ensures Regular(Piece(s))
  {
  }

  lemma PlainIsRegular(s: string)
    requires Plain(s) && Follows(s)
    ensures Regular(Piece(s))
  {
    PlainIsClosed(s);
  }

  lemma PlainWords()
    ensures Plain(" AND ") && Plain(" IN ") && Plain("NOT ") && Plain(" BETWEEN ") && Plain(" NOT BETWEEN ")
  {
  }

  lemma PlainMarks()
    ensures Plain(", ") && Plain("(") && Plain(")") && Plain(" IS NULL") && Plain(" IS NOT NULL")
  {
  }

  /** The pieces that predicates are put together with. */
  lemma PiecesAreRegular()
    ensures Regular(Piece(" AND ")) && Regular(Piece(" IN ")) && Regular(Piece("NOT "))
    ensures Regular(Piece(" BETWEEN ")) && Regular(Piece(" NOT BETWEEN "))
    ensures Regular(Piece(", ")) && Regular(Piece("(")) && Regular(Piece(")"))
    ensures Regular(Piece(" IS NULL")) && Regular(Piece(" IS NOT NULL"))
  {
    hide Plain, Regular;
    PlainWords();
    PlainMarks();
    PlainIsRegular(" AND ");
    PlainIsRegular(" IN ");
    PlainIsRegular("NOT ");
    PlainIsRegular(" BETWEEN ");
    PlainIsRegular(" NOT BETWEEN ");
    PlainIsRegular(", ");
    PlainIsRegular("(");
    PlainIsRegular(")");
    PlainIsRegular(" IS NULL");
    PlainIsRegular(" IS NOT NULL");
  }

  lemma {:induction false} RepIsRegular(r: Representable)
    requires NamesCloseInRep(r)
    ensures Regular(RepParts(r))
    decreases r
  {
    match r
    case Column(name) =>
      QuotedIsClosed(name);
    case Aliased(alias, name) =>
      PlainIsClosed(".");
      ClosedAppend(alias, ".");
      QuotedIsClosed(name);
    case Val(v) =>
    case Tuple(rs) =>
      PlainIsRegular("(");
      PlainIsRegular(")");
      ListIsRegular(rs, true);
  }

  lemma {:induction false} ListIsRegular(rs: seq<Representable>, first: bool)
    requires forall x :: x in rs ==> NamesCloseInRep(x)
    ensures Regular(ListParts(rs, first))
    decreases rs
  {
    if rs != [] {
      PlainIsRegular(", ");
      RepIsRegular(rs[0]);
      ListIsRegular(rs[1..], false);
    }
  }

  lemma OperatorIsRegular(op: Operator)
    ensures Regular(Piece(" " + OperatorText(op) + " "))
  {
    PlainIsRegular(" " + OperatorText(op) + " ");
  }

  lemma ConjunctionIsRegular(c: Conjunction)
    ensures Regular(Piece(" " + ConjunctionText(c) + " "))
  {
    PlainIsRegular(" " + ConjunctionText(c) + " ");
  }

  lemma {:induction false} PredicateIsRegular(p: Predicate)
    requires NamesClose(p)
    ensures Regular(Parts(p))
    decreases p
  {
    hide Closed, RepParts, ListParts, ChainParts, Regular;
    PiecesAreRegular();
    match p
    case Compare(lhs, op, rhs) =>
      RepIsRegular(lhs);
      OperatorIsRegular(op);
      RepIsRegular(rhs);
      RegularAppend(RepParts(lhs), Piece(" " + OperatorText(op) + " "));
      RegularAppend(RepParts(lhs) + Piece(" " + OperatorText(op) + " "), RepParts(rhs));
    case NullTest(rep, negated) =>
      var test := Piece(if negated then " IS NOT NULL" else " IS NULL");
      RepIsRegular(rep);
      RegularAppend(RepParts(rep), test);
    case Range(rep, lo, hi, negated) =>
      RangeIsRegular(rep, lo, negated);
    case In(rep, values) =>
      InIsRegular(rep, values);
    case Not(q) =>
      PredicateIsRegular(q);
      RegularAppend(Piece("NOT "), Piece("("));
      RegularAppend(Piece("NOT ") + Piece("("), Parts(q));
      RegularAppend(Piece("NOT ") + Piece("(") + Parts(q), Piece(")"));
    case Compound(c, ps) =>
      ChainIsRegular(c, ps, true);
      RegularAppend(Piece("("), ChainParts(c, ps, true));
      RegularAppend(Piece("(") + ChainParts(c, ps, true), Piece(")"));
  }

  lemma RegularAppend(a: seq<Part>, b: seq<Part>)
    requires Regular(a) && Regular(b)
    ensures Regular(a + b)
  {
    hide Closed;
  }

  lemma RangeIsRegular(rep: Representable, lo: Representable, negated: bool)
    requires NamesCloseInRep(rep) && NamesCloseInRep(lo)
    ensures Regular(RepParts(rep) + Piece(if negated then " NOT BETWEEN " else " BETWEEN ") + RepParts(lo)
                    + Piece(" AND ") + RepParts(lo))
  {
    hide Closed, RepParts, Regular;
    PiecesAreRegular();
    var word := if negated then " NOT BETWEEN " else " BETWEEN ";
    RepIsRegular(rep);
    RepIsRegular(lo);
    RegularAppend(RepParts(rep), Piece(word));
    RegularAppend(RepParts(rep) + Piece(word), RepParts(lo));
    RegularAppend(RepParts(rep) + Piece(word) + RepParts(lo), Piece(" AND "));
    RegularAppend(RepParts(rep) + Piece(word) + RepParts(lo) + Piece(" AND "), RepParts(lo));
  }

  lemma InIsRegular(rep: Representable, values: seq<Representable>)
    requires NamesCloseInRep(rep) && forall x :: x in values ==> NamesCloseInRep(x)
    ensures Regular(RepParts(rep) + Piece(" IN ") + Piece("(") + ListParts(values, true) + Piece(")"))
  {
    hide Closed, RepParts, ListParts, Regular;
    PiecesAreRegular();
    RepIsRegular(rep);
    ListIsRegular(values, true);
    RegularAppend(RepParts(rep), Piece(" IN "));
    RegularAppend(RepParts(rep) + Piece(" IN "), Piece("("));
    RegularAppend(RepParts(rep) + Piece(" IN ") + Piece("("), ListParts(values, true));
    RegularAppend(RepParts(rep) + Piece(" IN ") + Piece("(") + ListParts(values, true), Piece(")"));
  }

  lemma {:induction false} ChainIsRegular(c: Conjunction, ps: seq<Predicate>, first: bool)
    requires forall q :: q in ps ==> NamesClose(q)
    ensures Regular(ChainParts(c, ps, first))
    decreases ps
  {
    hide Closed, ConjunctionText;
    if ps != [] {
      ConjunctionIsRegular(c);
      PredicateIsRegular(ps[0]);
      ChainIsRegular(c, ps[1..], false);
    }
  }

  /** For every predicate with legible column names and closed aliases, the k-th parameter of its text
      gets the value that the k-th Val in it holds, and there are no others. */
  lemma PredicateBindings(p: Predicate)
    requires NamesClose(p)
    ensures Placeholders(Sql(Parts(p)), 0, Outside) == Offsets(Carriers(Parts(p), 0))
    ensures Bindings(Parts(p)) == Values(Carriers(Parts(p), 0))
    ensures Rest(Ends(Sql(Parts(p)), Outside))
  {
    PredicateIsRegular(p);
    PlaceholdersMatchBindings(Parts(p));
  }

  /** With a named parameter in an alias the first value goes to it, and the question mark that it was
      meant for comes second. */
  lemma NamedParameter()
    ensures var parts := Parts(Compare(Aliased(":a", ["c"]), Eq, Val(Long(1))));
            Bindings(parts) == [Long(1)] && |Placeholders(Sql(parts), 0, Outside)| == 2
            && Placeholders(Sql(parts), 0, Outside)[0] == Given(0)
  {
    hide Ends, Placeholders, Quoted, Sql, Bindings;
    var quoted, equals := Quoted(["c"], MARK), " = ";
    var head := Piece(":a.") + Piece(quoted);
    var parts := head + Piece(equals) + [Part("?", Some(Long(1)))];
    assert ":a" + "." == ":a." && " " + OperatorText(Eq) + " " == equals;
    assert parts == Parts(Compare(Aliased(":a", ["c"]), Eq, Val(Long(1))));
    PieceText(":a.");
    PieceText(quoted);
    PieceText(equals);
    ValueText(Long(1));
    SqlOfAppend(Piece(":a."), Piece(quoted));
    SqlOfAppend(head, Piece(equals));
    SqlOfAppend(head + Piece(equals), [Part("?", Some(Long(1)))]);
    BindingsOfAppend(Piece(":a."), Piece(quoted));
    BindingsOfAppend(head, Piece(equals));
    BindingsOfAppend(head + Piece(equals), [Part("?", Some(Long(1)))]);
    NamedText();
    LegibleLetter();
    ScanOfQuoted(["c"], 3);
    EqualsText(3 + |quoted|);
    ScanOfPlaceholder(3 + |quoted| + 3, Outside);
    ScanOfAppend(":a.", quoted, 0, Outside);
    ScanOfAppend(":a." + quoted, equals, 0, Outside);
    ScanOfAppend(":a." + quoted + equals, "?", 0, Outside);
  }

  lemma LegibleLetter()
    ensures Legible(["c"], MARK)
  {
    assert ["c"][1..] == [] && Flat(["c"]) == "c" + [] == "c";
  }

  lemma NamedText()
    ensures Ends(":a.", Outside) == Outside && Placeholders(":a.", 0, Outside) == [Given(0)]
  {
    hide Ends, Placeholders;
    ScanOfChar(':', 0, Outside);
    ScanOfChar('a', 1, Outside);
    ScanOfChar('.', 2, InWord);
    ScanOfAppend(":", "a", 0, Outside);
    ScanOfAppend(":" + "a", ".", 0, Outside);
    assert ":" + "a" + "." == ":a.";
  }

  lemma EqualsText(at: nat)
    ensures Ends(" = ", Outside) == Outside && Placeholders(" = ", at, Outside) == []
  {
    hide Ends, Placeholders;
    ScanOfChar(' ', at, Outside);
    ScanOfChar('=', at + 1, Outside);
    ScanOfChar(' ', at + 2, Outside);
    ScanOfAppend(" ", "=", at, Outside);
    ScanOfAppend(" " + "=", " ", at, Outside);
    assert " " + "=" + " " == " = ";
  }

  lemma ValueText(v: Value)
    ensures Sql([Part("?", Some(v))]) == "?" && Bindings([Part("?", Some(v))]) == [v]
  {
    var parts := [Part("?", Some(v))];
    assert parts[1..] == [];
  }
}

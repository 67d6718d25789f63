/** What SQL makes of the text of a predicate: OR binds weaker than AND, AND weaker than NOT, NOT
    weaker than the comparisons, and parentheses group. */
module SqlParser {
  import opened Wrappers
  import opened SqlExpression
  import opened SqlPredicate
  import opened SqlLexer

  datatype Expr =
    | ColumnRef(column: string)
    | QualifiedRef(qualifier: seq<Token>, column: string)
    | Const(constant: Value)
    | Row(items: seq<Expr>)
    | Comparison(left: Expr, operator: Operator, right: Expr)
    | IsNull(operand: Expr, negated: bool)
    | Between(operand: Expr, low: Expr, high: Expr, negated: bool)
    | Member(operand: Expr, items: seq<Expr>)
    | Negation(operand: Expr)
    | Chain(conjunction: Conjunction, items: seq<Expr>)

  datatype Parsed = Fail | Done(expr: Expr, rest: seq<Token>)

  datatype ParsedItems = NoItems | Items(exprs: seq<Expr>, rest: seq<Token>)

  // ---------- the grammar ----------

  /** A chain of one member is that member. */
  function Collapse(c: Conjunction, es: seq<Expr>): Expr
    requires es != []
  {
    if |es| == 1 then es[0] else Chain(c, es)
  }

  function Level(c: Conjunction): nat {
    if c == And then 3 else 5
  }

  /** A member of an OR chain is an AND chain, a member of an AND chain a negation or comparison. */
  function ParseMember(c: Conjunction, ts: seq<Token>): (r: Parsed)
    ensures r.Done? ==> |r.rest| < |ts|
    decreases |ts|, Level(c) - 1
  {
    if c == And then ParseNot(ts) else ParseChain(And, ts)
  }

  function ParseChain(c: Conjunction, ts: seq<Token>): (r: Parsed)
    ensures r.Done? ==> |r.rest| < |ts|
    decreases |ts|, Level(c)
  {
    var first := ParseMember(c, ts);
    if first.Fail? then Fail else ParseMore(c, [first.expr], first.rest)
  }

  function ParseMore(c: Conjunction, done: seq<Expr>, ts: seq<Token>): (r: Parsed)
    requires done != []
    ensures r.Done? ==> |r.rest| <= |ts|
    decreases |ts|, 6
  {
    if ts != [] && ts[0] == Keyword(ConjunctionText(c)) then
      var next := ParseMember(c, ts[1..]);
      if next.Fail? then Fail else ParseMore(c, done + [next.expr], next.rest)
    else
      Done(Collapse(c, done), ts)
  }

  function ParseNot(ts: seq<Token>): (r: Parsed)
    ensures r.Done? ==> |r.rest| < |ts|
    decreases |ts|, 1
  {
    if ts != [] && ts[0] == Keyword("NOT") then
      var p := ParseNot(ts[1..]);
      if p.Fail? then Fail else Done(Negation(p.expr), p.rest)
    else
      var operand := ParseOperand(ts);
      if operand.Fail? then Fail else ParseTail(operand.expr, operand.rest)
  }

  /** What may follow the first operand of a comparison. */
  function ParseTail(e: Expr, ts: seq<Token>): (r: Parsed)
    ensures r.Done? ==> |r.rest| <= |ts|
    decreases |ts|, 6
  {
    if ts == [] then Done(e, ts)
    else if ts[0].Symbol? then ParseRight(e, ts[0].op, ts[1..])
    else if ts[0] == Keyword("LIKE") then ParseRight(e, Like, ts[1..])
    else if |ts| > 1 && ts[..2] == [Keyword("NOT"), Keyword("LIKE")] then ParseRight(e, NotLike, ts[2..])
    else if ts[0] == Keyword("BETWEEN") then ParseBounds(e, false, ts[1..])
    else if |ts| > 1 && ts[..2] == [Keyword("NOT"), Keyword("BETWEEN")] then ParseBounds(e, true, ts[2..])
    else if |ts| > 1 && ts[..2] == [Keyword("IS"), Keyword("NULL")] then Done(IsNull(e, false), ts[2..])
    else if |ts| > 2 && ts[..3] == [Keyword("IS"), Keyword("NOT"), Keyword("NULL")] then Done(IsNull(e, true), ts[3..])
    else if |ts| > 1 && ts[..2] == [Keyword("IN"), LPar] then ParseSet(e, ts[2..])
    else Done(e, ts)
  }

  function ParseRight(e: Expr, op: Operator, ts: seq<Token>): (r: Parsed)
    ensures r.Done? ==> |r.rest| < |ts|
    decreases |ts|, 6
  {
    var right := ParseOperand(ts);
    if right.Fail? then Fail else Done(Comparison(e, op, right.expr), right.rest)
  }

  function ParseBounds(e: Expr, negated: bool, ts: seq<Token>): (r: Parsed)
    ensures r.Done? ==> |r.rest| < |ts|
    decreases |ts|, 6
  {
    var low := ParseOperand(ts);
    if low.Fail? || low.rest == [] || low.rest[0] != Keyword("AND") then Fail else
      var high := ParseOperand(low.rest[1..]);
      if high.Fail? then Fail else Done(Between(e, low.expr, high.expr, negated), high.rest)
  }

  /** The values of IN, behind the opening parenthesis; there may be none. */
  function ParseSet(e: Expr, ts: seq<Token>): (r: Parsed)
    ensures r.Done? ==> |r.rest| < |ts|
    decreases |ts|, 8
  {
    if ts != [] && ts[0] == RPar then Done(Member(e, []), ts[1..]) else
      var items := ParseItems(ts);
      if items.NoItems? then Fail else Done(Member(e, items.exprs), items.rest)
  }

  predicate Identifier(t: Token) {
    t.Name? || t.Word?
  }

  /** A column, alone or behind one or two identifiers with dots; the column itself is quoted. */
  function ParseColumn(ts: seq<Token>): (r: Parsed)
    requires ts != [] && Identifier(ts[0])
    ensures r.Done? ==> |r.rest| < |ts|
  {
    if |ts| > 4 && ts[1] == Dot && Identifier(ts[2]) && ts[3] == Dot && ts[4].Name? then
      Done(QualifiedRef(ts[..3], ts[4].name), ts[5..])
    else if |ts| > 2 && ts[1] == Dot && ts[2].Name? then Done(QualifiedRef(ts[..1], ts[2].name), ts[3..])
    else if ts[0].Name? then Done(ColumnRef(ts[0].name), ts[1..])
    else Fail
  }

  /** A column, a placeholder, or in parentheses one expression or a row of several. */
  function ParseOperand(ts: seq<Token>): (r: Parsed)
    ensures r.Done? ==> |r.rest| < |ts|
    decreases |ts|, 0
  {
    if ts == [] then Fail
    else if ts[0].Name? || ts[0].Word? then ParseColumn(ts)
    else if ts[0].Param? then Done(Const(ts[0].value), ts[1..])
    else if ts[0] == LPar then
      var items := ParseItems(ts[1..]);
      if items.NoItems? then Fail
      else Done(if |items.exprs| == 1 then items.exprs[0] else Row(items.exprs), items.rest)
    else Fail
  }

  /** Expressions with commas between them, up to a closing parenthesis. */
  function ParseItems(ts: seq<Token>): (r: ParsedItems)
    ensures r.Items? ==> |r.rest| < |ts| && r.exprs != []
    decreases |ts|, 6
  {
    var first := ParseChain(Or, ts);
    if first.Fail? then NoItems else ParseMoreItems([first.expr], first.rest)
  }

  function ParseMoreItems(done: seq<Expr>, ts: seq<Token>): (r: ParsedItems)
    requires done != []
    ensures r.Items? ==> |r.rest| < |ts| && r.exprs != []
    decreases |ts|, 7
  {
    if ts == [] then NoItems
    else if ts[0] == RPar then Items(done, ts[1..])
    else if ts[0] == Comma then
      var next := ParseChain(Or, ts[1..]);
      if next.Fail? then NoItems else ParseMoreItems(done + [next.expr], next.rest)
    else NoItems
  }

  /** A whole text with its values. */
  function Parse(sql: string, values: seq<Value>): Option<Expr> {
    var ts := Lex(sql, values);
    if ts.None? then None else
      var r := ParseChain(Or, ts.value);
      if r.Done? && r.rest == [] then Some(r.expr) else None
  }

  // ---------- what a predicate should be read as ----------

  /** Every tuple has a member. */
  predicate WellFormedRep(r: Representable)
    decreases r
  {
    match r
    case Tuple(rs) => rs != [] && forall x :: x in rs ==> WellFormedRep(x)
    case _ => true
  }

  /** Every AND, every OR and every tuple has a member. */
  predicate WellFormed(p: Predicate)
    decreases p
  {
    match p
    case Compare(lhs, op, rhs) => WellFormedRep(lhs) && WellFormedRep(rhs)
    case NullTest(rep, negated) => WellFormedRep(rep)
    case Range(rep, lo, hi, negated) => WellFormedRep(rep) && WellFormedRep(lo)
    case In(rep, values) => WellFormedRep(rep) && forall x :: x in values ==> WellFormedRep(x)
    case Not(q) => WellFormed(q)
    case Compound(c, ps) => ps != [] && forall q :: q in ps ==> WellFormed(q)
  }

  function ReadRep(r: Representable): Expr
    requires WellFormedRep(r)
    decreases r
  {
    match r
    case Column(name) => ColumnRef(Flat(name))
    case Aliased(alias, name) => QualifiedRef(AliasTokens(alias), Flat(name))
    case Val(v) => Const(v)
    case Tuple(rs) => if |rs| == 1 then ReadRep(rs[0]) else Row(ReadList(rs))
  }

  function ReadList(rs: seq<Representable>): (es: seq<Expr>)
    requires forall x :: x in rs ==> WellFormedRep(x)
    ensures |es| == |rs|
    decreases rs
  {
    if rs == [] then [] else [ReadRep(rs[0])] + ReadList(rs[1..])
  }

  /** The tree of a predicate, with one-member chains and tuples replaced by their member; a range
      has its lower bound on both sides, because that is what the source writes. */
  function Read(p: Predicate): Expr
    requires WellFormed(p)
    decreases p
  {
    match p
    case Compare(lhs, op, rhs) => Comparison(ReadRep(lhs), op, ReadRep(rhs))
    case NullTest(rep, negated) => IsNull(ReadRep(rep), negated)
    case Range(rep, lo, hi, negated) => Between(ReadRep(rep), ReadRep(lo), ReadRep(lo), negated)
    case In(rep, values) => Member(ReadRep(rep), ReadList(values))
    case Not(q) => Negation(Read(q))
    case Compound(c, ps) => Collapse(c, ReadAll(ps))
  }

  function ReadAll(ps: seq<Predicate>): (es: seq<Expr>)
    requires forall q :: q in ps ==> WellFormed(q)
    ensures |es| == |ps|
    decreases ps
  {
    if ps == [] then [] else [Read(ps[0])] + ReadAll(ps[1..])
  }

  // ---------- the proof ----------

  /** No continuation of a column. */
  predicate NoDot(ts: seq<Token>) {
    ts == [] || ts[0] != Dot
  }

  /** Tokens that end any predicate: none of them continues one or starts another. */
  predicate Stop(ts: seq<Token>) {
    || ts == [] || ts[0] == RPar || ts[0] == Comma
    || (ts[0].Keyword? && ts[0].keyword !in ["LIKE", "NOT", "BETWEEN", "IS", "IN"])
    || (ts[0].Word? && (|ts| == 1 || ts[1] != Dot))
  }

  /** Tokens that end a chain as well. */
  predicate Closes(ts: seq<Token>) {
    Stop(ts) && (ts == [] || (ts[0] != Keyword("AND") && ts[0] != Keyword("OR")))
  }

  function RepResult(r: Representable, rest: seq<Token>): Parsed {
    if WellFormedRep(r) then Done(ReadRep(r), rest) else Fail
  }

  function Result(p: Predicate, rest: seq<Token>): Parsed {
    if WellFormed(p) then Done(Read(p), rest) else Fail
  }

  lemma MoreStops(c: Conjunction, e: Expr, rest: seq<Token>)
    requires Closes(rest) || (rest != [] && rest[0] == Keyword("OR") && c == And)
    ensures ParseMore(c, [e], rest) == Done(e, rest)
  {
  }

  /** Where no conjunction follows, a chain is what its first member is. */
  lemma ChainOfOne(ts: seq<Token>)
    requires ParseNot(ts).Done? ==> Closes(ParseNot(ts).rest)
    ensures ParseChain(Or, ts) == ParseNot(ts)
  {
    hide ParseNot;
    var r := ParseNot(ts);
    assert ParseMember(And, ts) == r;
    if r.Done? {
      MoreStops(And, r.expr, r.rest);
      MoreStops(Or, r.expr, r.rest);
    }
    assert ParseChain(And, ts) == r;
    assert ParseMember(Or, ts) == r;
  }

  lemma TailStops(e: Expr, rest: seq<Token>)
    requires Stop(rest)
    ensures ParseTail(e, rest) == Done(e, rest)
  {
    hide ParseRight, ParseBounds, ParseSet;
    assert |rest| > 1 ==> rest[..2][0] == rest[0];
    assert |rest| > 2 ==> rest[..3][0] == rest[0];
  }

  lemma {:induction false} OperandOfRep(r: Representable, rest: seq<Token>)
    requires NoDot(rest)
    ensures ParseOperand(RepTokens(r) + rest) == RepResult(r, rest)
    decreases r, 1
  {
    var ts := RepTokens(r) + rest;
    match r
    case Column(name) =>
      assert ts[0] == Name(Flat(name)) && ts[1..] == rest;
    case Aliased(alias, name) =>
      ColumnOfAliased(alias, Flat(name), rest);
    case Val(v) =>
      assert ts[0] == Param(v) && ts[1..] == rest;
    case Tuple(rs) =>
      assert ts[0] == LPar && ts[1..] == ListTokens(rs, true) + ([RPar] + rest);
      ItemsOfList(rs, rest);
  }

  lemma AliasIsQualifier(alias: string)
    ensures IsQualifier(AliasTokens(alias))
  {
    hide Lex;
  }

  lemma ColumnOfAliased(alias: string, c: string, rest: seq<Token>)
    requires NoDot(rest)
    ensures ParseOperand(AliasTokens(alias) + [Dot] + [Name(c)] + rest) == Done(QualifiedRef(AliasTokens(alias), c), rest)
  {
    hide AliasTokens, ParseOperand;
    AliasIsQualifier(alias);
    ColumnOfQualified(AliasTokens(alias), c, rest);
  }

  lemma ColumnOfQualified(q: seq<Token>, c: string, rest: seq<Token>)
    requires IsQualifier(q) && NoDot(rest)
    ensures var ts := q + [Dot] + [Name(c)] + rest;
            Identifier(ts[0]) && ParseColumn(ts) == Done(QualifiedRef(q, c), rest) == ParseOperand(ts)
  {
    var ts := q + [Dot] + [Name(c)] + rest;
    assert ts[..|q|] == q && ts[|q|] == Dot && ts[|q| + 1] == Name(c) && ts[|q| + 2..] == rest;
    assert q[0] == ts[0];
    if |q| == 3 {
      assert ts[1] == q[1] && ts[2] == q[2];
    } else {
      assert |ts| > 3 ==> ts[3] == rest[0];
    }
    assert ParseOperand(ts) == ParseColumn(ts);
  }

  lemma FirstToken(r: Representable)
    ensures RepTokens(r) != [] && RepTokens(r)[0] != Keyword("NOT") && RepTokens(r)[0] != RPar
  {
  }

  lemma ExprOfRep(r: Representable, rest: seq<Token>)
    requires Closes(rest)
    ensures ParseChain(Or, RepTokens(r) + rest) == RepResult(r, rest)
    decreases r, 2
  {
    hide ParseChain, ParseOperand, ParseTail;
    var ts := RepTokens(r) + rest;
    OperandOfRep(r, rest);
    FirstToken(r);
    if WellFormedRep(r) {
      TailStops(ReadRep(r), rest);
    }
    ChainOfOne(ts);
  }

  lemma {:induction false} ItemsOfList(rs: seq<Representable>, rest: seq<Token>)
    ensures ParseItems(ListTokens(rs, true) + ([RPar] + rest))
         == if rs != [] && (forall x :: x in rs ==> WellFormedRep(x)) then Items(ReadList(rs), rest) else NoItems
    decreases rs, 3
  {
    hide ParseChain, RepTokens;
    var ts := ListTokens(rs, true) + ([RPar] + rest);
    if rs == [] {
      NothingToParse(ts);
    } else {
      var tail := ListTokens(rs[1..], false) + ([RPar] + rest);
      assert ts == RepTokens(rs[0]) + tail;
      ExprOfRep(rs[0], tail);
      if WellFormedRep(rs[0]) {
        MoreItemsOfList([ReadRep(rs[0])], rs[1..], rest);
      }
    }
  }

  lemma NothingToParse(ts: seq<Token>)
    requires Stop(ts)
    ensures ParseNot(ts) == Fail && ParseChain(Or, ts) == Fail
  {
    assert ParseOperand(ts) == Fail;
    ChainOfOne(ts);
  }

  lemma {:induction false} MoreItemsOfList(done: seq<Expr>, rs: seq<Representable>, rest: seq<Token>)
    requires done != []
    ensures ParseMoreItems(done, ListTokens(rs, false) + ([RPar] + rest))
         == if forall x :: x in rs ==> WellFormedRep(x) then Items(done + ReadList(rs), rest) else NoItems
    decreases rs, 2
  {
    hide ParseChain, RepTokens;
    var ts := ListTokens(rs, false) + ([RPar] + rest);
    if rs == [] {
      assert ts[0] == RPar && ts[1..] == rest;
    } else {
      var tail := ListTokens(rs[1..], false) + ([RPar] + rest);
      assert ts[0] == Comma && ts[1..] == RepTokens(rs[0]) + tail;
      ExprOfRep(rs[0], tail);
      if WellFormedRep(rs[0]) {
        MoreItemsOfList(done + [ReadRep(rs[0])], rs[1..], rest);
        if forall x :: x in rs[1..] ==> WellFormedRep(x) {
          Associate(done, [ReadRep(rs[0])], ReadList(rs[1..]));
        }
      }
    }
  }

  // ---------- comparisons ----------

  /** A comparison is its first operand and what the tail makes of the rest. */
  lemma NotOfOperand(r: Representable, tail: seq<Token>)
    requires NoDot(tail)
    ensures ParseNot(RepTokens(r) + tail) == if WellFormedRep(r) then ParseTail(ReadRep(r), tail) else Fail
  {
    hide ParseOperand, ParseTail;
    OperandOfRep(r, tail);
    FirstToken(r);
  }

  lemma OperatorStarts(op: Operator)
    ensures OperatorTokens(op) != [] && OperatorTokens(op)[0] != Dot
  {
  }

  lemma NotOfCompare(lhs: Representable, op: Operator, rhs: Representable, rest: seq<Token>)
    requires NoDot(rest)
    ensures ParseNot(Tokens(Compare(lhs, op, rhs)) + rest) == Result(Compare(lhs, op, rhs), rest)
  {
    hide ParseNot, ParseOperand, ParseTail, RepTokens;
    var right := RepTokens(rhs) + rest;
    var tail := OperatorTokens(op) + right;
    assert Tokens(Compare(lhs, op, rhs)) + rest == RepTokens(lhs) + tail;
    OperatorStarts(op);
    NotOfOperand(lhs, tail);
    OperandOfRep(rhs, rest);
    if WellFormedRep(lhs) {
      TailOfOperator(ReadRep(lhs), op, right);
    }
  }

  lemma TailOfOperator(e: Expr, op: Operator, right: seq<Token>)
    ensures ParseTail(e, OperatorTokens(op) + right) == ParseRight(e, op, right)
  {
    hide ParseRight;
    var tail := OperatorTokens(op) + right;
    assert tail[|OperatorTokens(op)|..] == right && tail[..|OperatorTokens(op)|] == OperatorTokens(op);
  }

  lemma NotOfNullTest(rep: Representable, negated: bool, rest: seq<Token>)
    ensures ParseNot(Tokens(NullTest(rep, negated)) + rest) == Result(NullTest(rep, negated), rest)
  {
    hide ParseNot, ParseOperand, ParseTail, RepTokens;
    var tail := NullTestTokens(negated) + rest;
    assert Tokens(NullTest(rep, negated)) + rest == RepTokens(rep) + tail;
    NotOfOperand(rep, tail);
    if WellFormedRep(rep) {
      TailOfNullTest(ReadRep(rep), negated, rest);
    }
  }

  lemma TailOfNullTest(e: Expr, negated: bool, rest: seq<Token>)
    ensures ParseTail(e, NullTestTokens(negated) + rest) == Done(IsNull(e, negated), rest)
  {
    var words := NullTestTokens(negated);
    var tail := words + rest;
    assert tail[..|words|] == words && tail[|words|..] == rest;
    assert tail[0] == Keyword("IS") && tail[1] == words[1];
    assert negated ==> tail[..2][1] == Keyword("NOT");
  }

  lemma NotOfRange(rep: Representable, lo: Representable, hi: Representable, negated: bool, rest: seq<Token>)
    requires NoDot(rest)
    ensures ParseNot(Tokens(Range(rep, lo, hi, negated)) + rest) == Result(Range(rep, lo, hi, negated), rest)
  {
    hide ParseNot, ParseOperand, ParseTail, RepTokens;
    var high := RepTokens(lo) + rest;
    var bounds := RepTokens(lo) + ([Keyword("AND")] + high);
    var tail := BetweenTokens(negated) + bounds;
    assert Tokens(Range(rep, lo, hi, negated)) + rest == RepTokens(rep) + tail;
    NotOfOperand(rep, tail);
    OperandOfRep(lo, [Keyword("AND")] + high);
    OperandOfRep(lo, rest);
    assert ([Keyword("AND")] + high)[1..] == high;
    if WellFormedRep(rep) {
      TailOfBetween(ReadRep(rep), negated, bounds);
    }
  }

  lemma TailOfBetween(e: Expr, negated: bool, bounds: seq<Token>)
    ensures ParseTail(e, BetweenTokens(negated) + bounds) == ParseBounds(e, negated, bounds)
  {
    hide ParseBounds;
    var words := BetweenTokens(negated);
    var tail := words + bounds;
    assert tail[|words|..] == bounds && tail[..|words|] == words;
  }

  lemma TokensOfIn(rep: Representable, values: seq<Representable>, rest: seq<Token>)
    ensures Tokens(In(rep, values)) + rest
         == RepTokens(rep) + ([Keyword("IN"), LPar] + (ListTokens(values, true) + ([RPar] + rest)))
  {
    hide RepTokens, ListTokens;
    var a, list := RepTokens(rep), ListTokens(values, true);
    assert Tokens(In(rep, values)) == a + [Keyword("IN")] + [LPar] + list + [RPar];
    assert a + [Keyword("IN")] + [LPar] == a + [Keyword("IN"), LPar];
    Associate(a + [Keyword("IN"), LPar] + list, [RPar], rest);
    Associate(a + [Keyword("IN"), LPar], list, [RPar] + rest);
    Associate(a, [Keyword("IN"), LPar], list + ([RPar] + rest));
  }

  lemma SetOfItems(e: Expr, values: seq<Representable>, rest: seq<Token>)
    ensures ParseSet(e, ListTokens(values, true) + ([RPar] + rest))
         == if forall x :: x in values ==> WellFormedRep(x) then Done(Member(e, ReadList(values)), rest) else Fail
  {
    hide ParseItems, ListTokens;
    ItemsOfList(values, rest);
    SetOfList(values, rest);
    assert ([RPar] + rest)[1..] == rest;
  }

  lemma NotOfIn(rep: Representable, values: seq<Representable>, rest: seq<Token>)
    ensures ParseNot(Tokens(In(rep, values)) + rest) == Result(In(rep, values), rest)
  {
    hide ParseNot, ParseOperand, ParseTail, ParseSet, RepTokens, ListTokens, Tokens;
    var items := ListTokens(values, true) + ([RPar] + rest);
    TokensOfIn(rep, values, rest);
    NotOfOperand(rep, [Keyword("IN"), LPar] + items);
    if WellFormedRep(rep) {
      TailOfIn(ReadRep(rep), items);
      SetOfItems(ReadRep(rep), values, rest);
    }
  }

  lemma TailOfIn(e: Expr, items: seq<Token>)
    ensures ParseTail(e, [Keyword("IN"), LPar] + items) == ParseSet(e, items)
  {
    hide ParseSet;
    var tail := [Keyword("IN"), LPar] + items;
    assert tail[2..] == items && tail[..2] == [Keyword("IN"), LPar];
  }

  /** A list starts with the closing parenthesis only if it is empty. */
  lemma SetOfList(rs: seq<Representable>, rest: seq<Token>)
    ensures var items := ListTokens(rs, true) + ([RPar] + rest);
            if rs == [] then items == [RPar] + rest else items[0] != RPar
  {
    if rs != [] {
      FirstToken(rs[0]);
    }
  }

  // ---------- NOT, AND and OR ----------

  /** In front of a stop, parentheses around a chain give that chain. */
  lemma NotOfGroup(inner: seq<Token>, r: Parsed, rest: seq<Token>)
    requires Stop(rest)
    requires ParseChain(Or, inner + ([RPar] + rest)) == r
    requires r.Done? ==> r.rest == [RPar] + rest
    ensures ParseNot([LPar] + (inner + ([RPar] + rest))) == if r.Done? then Done(r.expr, rest) else Fail
  {
    hide ParseChain, ParseTail;
    var ts := [LPar] + (inner + ([RPar] + rest));
    assert ts[1..] == inner + ([RPar] + rest) && ([RPar] + rest)[1..] == rest;
    if r.Done? {
      assert ParseItems(ts[1..]) == Items([r.expr], rest);
      TailStops(r.expr, rest);
    } else {
      assert ParseItems(ts[1..]) == NoItems;
    }
  }

  lemma NotOfNot(ts: seq<Token>)
    ensures ParseNot([Keyword("NOT")] + ts)
         == if ParseNot(ts).Done? then Done(Negation(ParseNot(ts).expr), ParseNot(ts).rest) else Fail
  {
    assert ([Keyword("NOT")] + ts)[1..] == ts;
  }

  /** Each predicate is read back from its tokens, up to the tokens that follow it, exactly when it
      is well formed. */
  lemma {:induction false} NotOfPredicate(p: Predicate, rest: seq<Token>)
    requires Stop(rest)
    ensures ParseNot(Tokens(p) + rest) == Result(p, rest)
    decreases p, 0
  {
    hide ParseNot, ParseChain, ParseOperand, ParseTail;
    match p
    case Compare(lhs, op, rhs) => NotOfCompare(lhs, op, rhs, rest);
    case NullTest(rep, negated) => NotOfNullTest(rep, negated, rest);
    case Range(rep, lo, hi, negated) => NotOfRange(rep, lo, hi, negated, rest);
    case In(rep, values) => NotOfIn(rep, values, rest);
    case Not(q) =>
      var group := [LPar] + (Tokens(q) + ([RPar] + rest));
      assert Tokens(p) + rest == [Keyword("NOT")] + group;
      NotOfPredicate(q, [RPar] + rest);
      ChainOfOne(Tokens(q) + ([RPar] + rest));
      NotOfGroup(Tokens(q), Result(q, [RPar] + rest), rest);
      NotOfNot(group);
    case Compound(c, ps) =>
      NotOfCompound(c, ps, rest);
  }

  lemma {:induction false} NotOfCompound(c: Conjunction, ps: seq<Predicate>, rest: seq<Token>)
    requires Stop(rest)
    ensures ParseNot(Tokens(Compound(c, ps)) + rest) == Result(Compound(c, ps), rest)
    decreases ps, 2
  {
    hide ParseNot, ParseChain;
    if ps == [] {
      assert Tokens(Compound(c, ps)) + rest == rest;
      NothingToParse(rest);
    } else if |ps| == 1 {
      assert ps == [ps[0]] && ps[1..] == [];
      assert ChainTokens(c, ps, true) == Tokens(ps[0]);
      assert WellFormed(ps[0]) ==> ReadAll(ps) == [Read(ps[0])];
      NotOfPredicate(ps[0], rest);
    } else {
      var inner := ChainTokens(c, ps, true);
      assert Tokens(Compound(c, ps)) + rest == [LPar] + (inner + ([RPar] + rest));
      ChainOfMembers(c, ps, [RPar] + rest);
      NotOfGroup(inner, Result(Compound(c, ps), [RPar] + rest), rest);
    }
  }

  /** A member of a chain is read as the predicate it is. */
  lemma MemberOfPredicate(c: Conjunction, p: Predicate, rest: seq<Token>)
    requires Closes(rest) || rest[0] == Keyword(ConjunctionText(c))
    ensures ParseMember(c, Tokens(p) + rest) == Result(p, rest)
    decreases p, 1
  {
    hide ParseNot;
    NotOfPredicate(p, rest);
    assert ParseMember(And, Tokens(p) + rest) == Result(p, rest);
    if WellFormed(p) && c == Or {
      MoreStops(And, Read(p), rest);
    }
  }

  lemma MembersOf(c: Conjunction, ps: seq<Predicate>)
    requires ps != []
    ensures WellFormed(Compound(c, ps)) <==> WellFormed(ps[0]) && forall q :: q in ps[1..] ==> WellFormed(q)
    ensures WellFormed(Compound(c, ps)) ==> Read(Compound(c, ps)) == Collapse(c, [Read(ps[0])] + ReadAll(ps[1..]))
  {
    assert ps == [ps[0]] + ps[1..];
  }

  lemma {:induction false} ChainOfMembers(c: Conjunction, ps: seq<Predicate>, rest: seq<Token>)
    requires |ps| > 1 && Closes(rest)
    ensures ParseChain(Or, ChainTokens(c, ps, true) + rest) == Result(Compound(c, ps), rest)
    decreases ps, 1
  {
    hide ParseMember, Tokens, WellFormed, Read, ReadAll, Collapse;
    var ts := ChainTokens(c, ps, true) + rest;
    var tail := ChainTokens(c, ps[1..], false) + rest;
    assert ts == Tokens(ps[0]) + tail;
    MemberOfPredicate(c, ps[0], tail);
    MembersOf(c, ps);
    if WellFormed(ps[0]) {
      MoreOfMembers(c, [Read(ps[0])], ps[1..], rest);
    }
    assert ParseChain(c, ts) == Result(Compound(c, ps), rest);
    if c == And {
      OrOfAnd(ts);
    }
  }

  /** An AND chain with nothing behind it is an OR chain of one member. */
  lemma OrOfAnd(ts: seq<Token>)
    requires ParseChain(And, ts).Done? ==> Closes(ParseChain(And, ts).rest)
    ensures ParseChain(Or, ts) == ParseChain(And, ts)
  {
    var r := ParseChain(And, ts);
    assert ParseMember(Or, ts) == r;
    hide ParseMember;
    if r.Done? {
      MoreStops(Or, r.expr, r.rest);
    }
  }

  lemma {:induction false} MoreOfMembers(c: Conjunction, done: seq<Expr>, ps: seq<Predicate>, rest: seq<Token>)
    requires done != [] && Closes(rest)
    ensures ParseMore(c, done, ChainTokens(c, ps, false) + rest)
         == if forall q :: q in ps ==> WellFormed(q) then Done(Collapse(c, done + ReadAll(ps)), rest) else Fail
    decreases ps, 0
  {
    hide ParseMember, Tokens, Collapse;
    var ts := ChainTokens(c, ps, false) + rest;
    if ps == [] {
      assert ts == rest && done + [] == done;
    } else {
      var tail := ChainTokens(c, ps[1..], false) + rest;
      assert ts[0] == Keyword(ConjunctionText(c)) && ts[1..] == Tokens(ps[0]) + tail;
      MemberOfPredicate(c, ps[0], tail);
      if WellFormed(ps[0]) {
        MoreOfMembers(c, done + [Read(ps[0])], ps[1..], rest);
        if forall q :: q in ps[1..] ==> WellFormed(q) {
          Associate(done, [Read(ps[0])], ReadAll(ps[1..]));
        }
      }
    }
  }

  // ---------- what is read has the leaves of the tree ----------

  function ExprLeaves(e: Expr): seq<Token>
    decreases e
  {
    match e
    case ColumnRef(c) => [Name(c)]
    case QualifiedRef(q, c) => Leaves(q) + [Name(c)]
    case Const(v) => [Param(v)]
    case Row(items) => AllLeaves(items)
    case Comparison(l, op, r) => ExprLeaves(l) + ExprLeaves(r)
    case IsNull(x, negated) => ExprLeaves(x)
    case Between(x, lo, hi, negated) => ExprLeaves(x) + ExprLeaves(lo) + ExprLeaves(hi)
    case Member(x, items) => ExprLeaves(x) + AllLeaves(items)
    case Negation(x) => ExprLeaves(x)
    case Chain(c, es) => AllLeaves(es)
  }

  function AllLeaves(es: seq<Expr>): seq<Token>
    decreases es
  {
    if es == [] then [] else ExprLeaves(es[0]) + AllLeaves(es[1..])
  }

  lemma {:induction false} AllLeavesOfAppend(a: seq<Expr>, b: seq<Expr>)
    ensures AllLeaves(a + b) == AllLeaves(a) + AllLeaves(b)
  {
    if a == [] {
      assert a + b == b;
    } else {
      assert (a + b)[0] == a[0] && (a + b)[1..] == a[1..] + b;
      AllLeavesOfAppend(a[1..], b);
      Associate(ExprLeaves(a[0]), AllLeaves(a[1..]), AllLeaves(b));
    }
  }

  lemma LeavesOfOne(e: Expr)
    ensures AllLeaves([e]) == ExprLeaves(e)
  {
    assert [e][1..] == [];
  }

  lemma LeavesOfCollapse(c: Conjunction, es: seq<Expr>)
    requires es != []
    ensures ExprLeaves(Collapse(c, es)) == AllLeaves(es)
  {
    if |es| == 1 {
      assert es == [es[0]];
      LeavesOfOne(es[0]);
    }
  }

  /** The leaves that a parser has taken from its input are those of what it gives. */
  predicate Keeps(r: Parsed, before: seq<Token>, ts: seq<Token>) {
    r.Done? ==> before + Leaves(ts) == ExprLeaves(r.expr) + Leaves(r.rest)
  }

  predicate KeepsItems(r: ParsedItems, before: seq<Token>, ts: seq<Token>) {
    r.Items? ==> before + Leaves(ts) == AllLeaves(r.exprs) + Leaves(r.rest)
  }

  /** The tokens in front of a rest of the input that have no leaves. */
  lemma SkipLeaves(ts: seq<Token>, n: nat)
    requires n <= |ts| && forall i :: 0 <= i < n ==> !ts[i].Name? && !ts[i].Word? && !ts[i].Param?
    ensures Leaves(ts) == Leaves(ts[n..])
  {
    hide Leaves;
    if n > 0 {
      LeavesOfFirst(ts);
      SkipLeaves(ts[1..], n - 1);
      assert ts[1..][n - 1..] == ts[n..];
      assert [] + Leaves(ts[1..]) == Leaves(ts[1..]);
    } else {
      assert ts[0..] == ts;
    }
  }

  lemma {:induction false} MemberKeeps(c: Conjunction, ts: seq<Token>)
    ensures Keeps(ParseMember(c, ts), [], ts)
    decreases |ts|, Level(c) - 1
  {
    if c == And {
      NotKeeps(ts);
    } else {
      ChainKeeps(And, ts);
    }
  }

  lemma {:induction false} ChainKeeps(c: Conjunction, ts: seq<Token>)
    ensures Keeps(ParseChain(c, ts), [], ts)
    decreases |ts|, Level(c)
  {
    hide ParseMember, Leaves, ExprLeaves;
    MemberKeeps(c, ts);
    var first := ParseMember(c, ts);
    if first.Done? {
      LeavesOfOne(first.expr);
      MoreKeeps(c, [first.expr], first.rest);
    }
  }

  lemma {:induction false} MoreKeeps(c: Conjunction, done: seq<Expr>, ts: seq<Token>)
    requires done != []
    ensures Keeps(ParseMore(c, done, ts), AllLeaves(done), ts)
    decreases |ts|, 6
  {
    hide ParseMember, Leaves, ExprLeaves;
    if ts != [] && ts[0] == Keyword(ConjunctionText(c)) {
      SkipLeaves(ts, 1);
      MemberKeeps(c, ts[1..]);
      var next := ParseMember(c, ts[1..]);
      if next.Done? {
        LeavesOfOne(next.expr);
        AllLeavesOfAppend(done, [next.expr]);
        Associate(AllLeaves(done), ExprLeaves(next.expr), Leaves(next.rest));
        MoreKeeps(c, done + [next.expr], next.rest);
      }
    } else {
      LeavesOfCollapse(c, done);
    }
  }

  lemma {:induction false} NotKeeps(ts: seq<Token>)
    ensures Keeps(ParseNot(ts), [], ts)
    decreases |ts|, 1
  {
    hide ParseOperand, ParseTail, Leaves;
    if ts != [] && ts[0] == Keyword("NOT") {
      SkipLeaves(ts, 1);
      NotKeeps(ts[1..]);
    } else {
      OperandKeeps(ts);
      var operand := ParseOperand(ts);
      if operand.Done? {
        TailKeeps(operand.expr, operand.rest);
      }
    }
  }

  lemma {:induction false} TailKeeps(e: Expr, ts: seq<Token>)
    ensures Keeps(ParseTail(e, ts), ExprLeaves(e), ts)
    decreases |ts|, 6
  {
    hide ParseRight, ParseBounds, ParseSet, Leaves, ExprLeaves;
    if ts == [] {
    } else if ts[0].Symbol? || ts[0] == Keyword("LIKE") {
      SkipLeaves(ts, 1);
      RightKeeps(e, if ts[0].Symbol? then ts[0].op else Like, ts[1..]);
    } else if |ts| > 1 && ts[..2] == [Keyword("NOT"), Keyword("LIKE")] {
      assert ts[0] == ts[..2][0] && ts[1] == ts[..2][1];
      SkipLeaves(ts, 2);
      RightKeeps(e, NotLike, ts[2..]);
    } else if ts[0] == Keyword("BETWEEN") {
      SkipLeaves(ts, 1);
      BoundsKeep(e, false, ts[1..]);
    } else if |ts| > 1 && ts[..2] == [Keyword("NOT"), Keyword("BETWEEN")] {
      assert ts[0] == ts[..2][0] && ts[1] == ts[..2][1];
      SkipLeaves(ts, 2);
      BoundsKeep(e, true, ts[2..]);
    } else {
      TestKeeps(e, ts);
    }
  }

  lemma LeavesOfNullTest(e: Expr)
    ensures ExprLeaves(IsNull(e, true)) == ExprLeaves(e) == ExprLeaves(IsNull(e, false))
  {
  }

  lemma TestKeeps(e: Expr, ts: seq<Token>)
    requires ts != [] && !ts[0].Symbol? && ts[0] != Keyword("LIKE") && ts[0] != Keyword("BETWEEN")
    requires |ts| > 1 ==> ts[..2] != [Keyword("NOT"), Keyword("LIKE")] && ts[..2] != [Keyword("NOT"), Keyword("BETWEEN")]
    ensures Keeps(ParseTail(e, ts), ExprLeaves(e), ts)
    decreases |ts|, 5
  {
    hide ParseSet, Leaves, ExprLeaves;
    LeavesOfNullTest(e);
    if |ts| > 1 && ts[..2] == [Keyword("IS"), Keyword("NULL")] {
      SkipTwo(ts);
    } else if |ts| > 2 && ts[..3] == [Keyword("IS"), Keyword("NOT"), Keyword("NULL")] {
      SkipThree(ts);
    } else if |ts| > 1 && ts[..2] == [Keyword("IN"), LPar] {
      SkipTwo(ts);
      SetKeeps(e, ts[2..]);
    }
  }

  lemma SkipTwo(ts: seq<Token>)
    requires |ts| > 1 && (ts[..2] == [Keyword("IS"), Keyword("NULL")] || ts[..2] == [Keyword("IN"), LPar])
    ensures Leaves(ts) == Leaves(ts[2..])
  {
    hide Leaves;
    assert ts[0] == ts[..2][0] && ts[1] == ts[..2][1];
    SkipLeaves(ts, 2);
  }

  lemma SkipThree(ts: seq<Token>)
    requires |ts| > 2 && ts[..3] == [Keyword("IS"), Keyword("NOT"), Keyword("NULL")]
    ensures Leaves(ts) == Leaves(ts[3..])
  {
    hide Leaves;
    assert ts[0] == ts[..3][0] && ts[1] == ts[..3][1] && ts[2] == ts[..3][2];
    SkipLeaves(ts, 3);
  }

  lemma {:induction false} RightKeeps(e: Expr, op: Operator, ts: seq<Token>)
    ensures Keeps(ParseRight(e, op, ts), ExprLeaves(e), ts)
    decreases |ts|, 6
  {
    hide ParseOperand, Leaves;
    OperandKeeps(ts);
    var right := ParseOperand(ts);
    if right.Done? {
      Associate(ExprLeaves(e), ExprLeaves(right.expr), Leaves(right.rest));
    }
  }

  lemma {:induction false} BoundsKeep(e: Expr, negated: bool, ts: seq<Token>)
    ensures Keeps(ParseBounds(e, negated, ts), ExprLeaves(e), ts)
    decreases |ts|, 6
  {
    hide ParseOperand, Leaves;
    OperandKeeps(ts);
    var low := ParseOperand(ts);
    if low.Done? && low.rest != [] && low.rest[0] == Keyword("AND") {
      SkipLeaves(low.rest, 1);
      OperandKeeps(low.rest[1..]);
      var high := ParseOperand(low.rest[1..]);
      if high.Done? {
        var a, b, c, d := ExprLeaves(e), ExprLeaves(low.expr), ExprLeaves(high.expr), Leaves(high.rest);
        assert Leaves(ts) == [] + Leaves(ts) == b + Leaves(low.rest);
        assert Leaves(low.rest) == [] + Leaves(low.rest[1..]) == c + d;
        assert a + (b + (c + d)) == a + b + c + d;
        assert ExprLeaves(Between(e, low.expr, high.expr, negated)) == a + b + c;
      }
    }
  }

  lemma {:induction false} SetKeeps(e: Expr, ts: seq<Token>)
    ensures Keeps(ParseSet(e, ts), ExprLeaves(e), ts)
    decreases |ts|, 8
  {
    hide ParseItems, Leaves;
    if ts != [] && ts[0] == RPar {
      SkipLeaves(ts, 1);
      assert ExprLeaves(Member(e, [])) == ExprLeaves(e) + [];
    } else {
      ItemsKeep(ts);
      var items := ParseItems(ts);
      if items.Items? {
        var a, b, c := ExprLeaves(e), AllLeaves(items.exprs), Leaves(items.rest);
        assert Leaves(ts) == [] + Leaves(ts) == b + c;
        assert a + (b + c) == a + b + c;
        assert ExprLeaves(Member(e, items.exprs)) == a + b;
      }
    }
  }

  lemma {:induction false} OperandKeeps(ts: seq<Token>)
    ensures Keeps(ParseOperand(ts), [], ts)
    decreases |ts|, 0
  {
    hide ParseItems;
    if ts == [] {
    } else if ts[0] == LPar {
      ItemsKeep(ts[1..]);
      var items := ParseItems(ts[1..]);
      if items.Items? && |items.exprs| == 1 {
        assert items.exprs == [items.exprs[0]];
        LeavesOfOne(items.exprs[0]);
      }
    } else if Identifier(ts[0]) {
      ColumnKeeps(ts);
    }
  }

  lemma ColumnKeeps(ts: seq<Token>)
    requires ts != [] && Identifier(ts[0])
    ensures Keeps(ParseColumn(ts), [], ts)
  {
    hide Leaves;
    NoLeaves();
    LeavesOfFirst(ts);
    if |ts| > 2 && ts[1] == Dot {
      LeavesOfShort(ts);
      QualifierKeeps(ts);
      if |ts| > 4 && ts[3] == Dot {
        QualifierKeeps(ts[2..]);
        assert ts[2..][1] == Dot && ts[2..][2..] == ts[4..] && ts[4..][1..] == ts[5..];
        LeavesOfFirst(ts[4..]);
      }
      assert ts[2..][1..] == ts[3..];
      LeavesOfFirst(ts[2..]);
    }
  }

  /** An identifier and a dot leave the identifier. */
  lemma QualifierKeeps(ts: seq<Token>)
    requires |ts| > 1 && ts[1] == Dot
    ensures Leaves(ts) == (if Identifier(ts[0]) || ts[0].Param? then [ts[0]] else []) + Leaves(ts[2..])
  {
    hide Leaves;
    LeavesOfFirst(ts);
    LeavesOfFirst(ts[1..]);
    assert ts[1..][1..] == ts[2..];
    assert [] + Leaves(ts[2..]) == Leaves(ts[2..]);
  }

  /** The leaves of what can stand in front of a column. */
  lemma LeavesOfShort(ts: seq<Token>)
    requires |ts| > 2 && Identifier(ts[0]) && ts[1] == Dot
    ensures Leaves(ts[..1]) == [ts[0]]
    ensures Identifier(ts[2]) ==> Leaves(ts[..3]) == [ts[0], ts[2]]
  {
    hide Leaves;
    NoLeaves();
    var a, b := ts[..1], ts[..3];
    assert a[1..] == [] && b[1..][1..] == [ts[2]] && [ts[2]][1..] == [];
    LeavesOfFirst(a);
    LeavesOfFirst(b);
    LeavesOfFirst(b[1..]);
    LeavesOfFirst([ts[2]]);
  }

  lemma {:induction false} ItemsKeep(ts: seq<Token>)
    ensures KeepsItems(ParseItems(ts), [], ts)
    decreases |ts|, 6
  {
    hide ParseChain, Leaves, ExprLeaves;
    ChainKeeps(Or, ts);
    var first := ParseChain(Or, ts);
    if first.Done? {
      LeavesOfOne(first.expr);
      MoreItemsKeep([first.expr], first.rest);
    }
  }

  lemma {:induction false} MoreItemsKeep(done: seq<Expr>, ts: seq<Token>)
    requires done != []
    ensures KeepsItems(ParseMoreItems(done, ts), AllLeaves(done), ts)
    decreases |ts|, 7
  {
    hide ParseChain, Leaves, ExprLeaves;
    if ts == [] {
    } else if ts[0] == RPar {
      SkipLeaves(ts, 1);
    } else if ts[0] == Comma {
      SkipLeaves(ts, 1);
      ChainKeeps(Or, ts[1..]);
      var next := ParseChain(Or, ts[1..]);
      if next.Done? {
        LeavesOfOne(next.expr);
        AllLeavesOfAppend(done, [next.expr]);
        Associate(AllLeaves(done), ExprLeaves(next.expr), Leaves(next.rest));
        MoreItemsKeep(done + [next.expr], next.rest);
      }
    }
  }

  // ---------- texts and predicates ----------

  /** The tokens of a well-formed predicate parse to it, and to nothing that has other leaves. */
  lemma ParseOfTokens(p: Predicate)
    ensures ParseChain(Or, Tokens(p)) == Result(p, [])
    ensures WellFormed(p) ==> Leaves(Tokens(p)) == ExprLeaves(Read(p))
  {
    hide ParseNot, ParseChain, Tokens, Leaves, ExprLeaves;
    NotOfPredicate(p, []);
    assert Tokens(p) + [] == Tokens(p);
    ChainOfOne(Tokens(p));
    WholeKeeps(Tokens(p));
  }

  lemma WholeKeeps(ts: seq<Token>)
    ensures var r := ParseChain(Or, ts);
            r.Done? && r.rest == [] ==> Leaves(ts) == ExprLeaves(r.expr)
  {
    hide ParseChain, Leaves, ExprLeaves;
    ChainKeeps(Or, ts);
    NoLeaves();
    var r := ParseChain(Or, ts);
    if r.Done? && r.rest == [] {
      assert Leaves(ts) == [] + Leaves(ts) == ExprLeaves(r.expr) + [];
    }
  }

  /** The text of a predicate, read with its bindings under the rules of SQL, is the predicate, if
      and only if its names and aliases can be read and no AND, OR or tuple in it is empty. With
      readable names an empty one makes the text no expression at all. */
  lemma ParseOfPredicate(p: Predicate)
    ensures WellFormed(p) ==> (Parse(Sql(Parts(p)), Bindings(Parts(p))) == Some(Read(p)) <==> Readable(p))
    ensures Readable(p) && !WellFormed(p) ==> Parse(Sql(Parts(p)), Bindings(Parts(p))) == None
  {
    hide Lex, ParseNot, ParseChain, Sql, Bindings, Parts, Tokens, Readable, Leaves, ExprLeaves;
    LexOfPredicate(p);
    ParseOfTokens(p);
    var ts := Lex(Sql(Parts(p)), Bindings(Parts(p)));
    if ts.Some? {
      WholeKeeps(ts.value);
    }
  }

  // ---------- ranges: what the caller meant ----------

  /** Well formed in the upper bounds too, which the source never writes. */
  predicate FullyFormed(p: Predicate)
    decreases p
  {
    match p
    case Range(rep, lo, hi, negated) => WellFormedRep(rep) && WellFormedRep(lo) && WellFormedRep(hi)
    case Not(q) => FullyFormed(q)
    case Compound(c, ps) => ps != [] && forall q :: q in ps ==> FullyFormed(q)
    case _ => WellFormed(p)
  }

  /** The tree of a predicate with both bounds of a range in it. */
  function Intended(p: Predicate): Expr
    requires FullyFormed(p)
    decreases p
  {
    match p
    case Range(rep, lo, hi, negated) => Between(ReadRep(rep), ReadRep(lo), ReadRep(hi), negated)
    case Not(q) => Negation(Intended(q))
    case Compound(c, ps) => Collapse(c, IntendedAll(ps))
    case _ => Read(p)
  }

  function IntendedAll(ps: seq<Predicate>): (es: seq<Expr>)
    requires forall q :: q in ps ==> FullyFormed(q)
    ensures |es| == |ps|
    decreases ps
  {
    if ps == [] then [] else [Intended(ps[0])] + IntendedAll(ps[1..])
  }

  /** The two bounds of every range are the same. */
  predicate BoundsAgree(p: Predicate)
    requires FullyFormed(p)
    decreases p
  {
    match p
    case Range(rep, lo, hi, negated) => ReadRep(lo) == ReadRep(hi)
    case Not(q) => BoundsAgree(q)
    case Compound(c, ps) => forall q :: q in ps ==> BoundsAgree(q)
    case _ => true
  }

  lemma {:induction false} FullyFormedIsWellFormed(p: Predicate)
    requires FullyFormed(p)
    ensures WellFormed(p)
    decreases p
  {
    match p
    case Range(rep, lo, hi, negated) =>
    case Not(q) => FullyFormedIsWellFormed(q);
    case Compound(c, ps) =>
      forall q | q in ps
        ensures WellFormed(q)
      {
        FullyFormedIsWellFormed(q);
      }
    case _ =>
  }

  lemma {:induction false} ReadIsIntended(p: Predicate)
    requires FullyFormed(p)
    ensures WellFormed(p) && (Read(p) == Intended(p) <==> BoundsAgree(p))
    decreases p, 0
  {
    FullyFormedIsWellFormed(p);
    match p
    case Range(rep, lo, hi, negated) =>
    case Not(q) => ReadIsIntended(q);
    case Compound(c, ps) => AllReadIsIntended(ps);
    case _ =>
  }

  lemma {:induction false} AllReadIsIntended(ps: seq<Predicate>)
    requires forall q :: q in ps ==> FullyFormed(q)
    ensures forall q :: q in ps ==> WellFormed(q)
    ensures ReadAll(ps) == IntendedAll(ps) <==> forall q :: q in ps ==> BoundsAgree(q)
    decreases ps, 1
  {
    if ps != [] {
      ReadIsIntended(ps[0]);
      AllReadIsIntended(ps[1..]);
      assert ps == [ps[0]] + ps[1..];
      assert ReadAll(ps)[0] == Read(ps[0]) && ReadAll(ps)[1..] == ReadAll(ps[1..]);
      assert IntendedAll(ps)[0] == Intended(ps[0]) && IntendedAll(ps)[1..] == IntendedAll(ps[1..]);
    }
  }

  /** The tree read back is the tree that was intended exactly when the bounds of every BETWEEN in it
      are the same. */
  lemma TreeIsKept(p: Predicate)
    requires Readable(p) && FullyFormed(p)
    ensures Parse(Sql(Parts(p)), Bindings(Parts(p))) == Some(Intended(p)) <==> BoundsAgree(p)
  {
    hide Lex, Parse, Sql, Bindings, Parts, Readable, Intended;
    ReadIsIntended(p);
    ParseOfPredicate(p);
  }

  /** a BETWEEN 1 AND 2 is written, and read back, as a BETWEEN 1 AND 1. */
  lemma LostUpperBound()
    ensures var p := Range(Column(["a"]), Val(Long(1)), Val(Long(2)), false);
            && FullyFormed(p) && !BoundsAgree(p)
            && Parse(Sql(Parts(p)), Bindings(Parts(p))) == Some(Between(ColumnRef("a"), Const(Long(1)), Const(Long(1)), false))
  {
    hide Parse, Parts;
    assert ["a"][1..] == [] && Flat(["a"]) == "a" + [] == "a";
    var p := Range(Column(["a"]), Val(Long(1)), Val(Long(2)), false);
    ParseOfPredicate(p);
  }
}

/** Predicates over columns and values, and how they write themselves into an SQL expression
    (SQLRepresentable and SQLPredicate in SQLCodable.swift). Where the source keeps a predicate as a
    closure that appends to an expression, it is a tree here, and Apply runs it. */
module SqlPredicate {
  import opened Wrappers
  import opened SqlExpression

  datatype Representable =
    | Column(name: Characters)
    | Aliased(alias: string, name: Characters)
    | Val(value: Value)
    | Tuple(representations: seq<Representable>)

  datatype Operator = Eq | Ne | Lt | Le | Gt | Ge | Like | NotLike

  datatype Conjunction = And | Or

  datatype Predicate =
    | Compare(lhs: Representable, op: Operator, rhs: Representable)
    | NullTest(rep: Representable, negated: bool)
    | Range(rep: Representable, lo: Representable, hi: Representable, negated: bool)
    | In(rep: Representable, values: seq<Representable>)
    | Not(inner: Predicate)
    | Compound(conjunction: Conjunction, members: seq<Predicate>)

  const MARK := '"'

  function OperatorText(op: Operator): string {
    match op
    case Eq => "="
    case Ne => "<>"
    case Lt => "<"
    case Le => "<="
    case Gt => ">"
    case Ge => ">="
    case Like => "LIKE"
    case NotLike => "NOT LIKE"
  }

  function ConjunctionText(c: Conjunction): string {
    if c == And then "AND" else "OR"
  }

  /** An equality with the null value becomes a null test, with any other operand a comparison. */
  function Equals(lhs: Representable, rhs: Representable): Predicate {
    if rhs == Val(Null) then NullTest(lhs, false) else Compare(lhs, Eq, rhs)
  }

  function NotEquals(lhs: Representable, rhs: Representable): Predicate {
    if rhs == Val(Null) then NullTest(lhs, true) else Compare(lhs, Ne, rhs)
  }

  // ---------- what a predicate appends ----------

  function Piece(sql: string): seq<Part> {
    [Part(sql, None)]
  }

  function RepParts(r: Representable): seq<Part>
    decreases r
  {
    match r
    case Column(name) => Piece(Quoted(name, MARK))
    case Aliased(alias, name) => Piece(alias + ".") + Piece(Quoted(name, MARK))
    case Val(v) => [Part("?", Some(v))]
    case Tuple(rs) => Piece("(") + ListParts(rs, true) + Piece(")")
  }

  /** The rest of a list, with a separator before every item but the first. */
  function ListParts(rs: seq<Representable>, first: bool): seq<Part>
    decreases rs
  {
    if rs == [] then []
    else (if first then [] else Piece(", ")) + RepParts(rs[0]) + ListParts(rs[1..], false)
  }

  function Parts(p: Predicate): seq<Part>
    decreases p
  {
    match p
    case Compare(lhs, op, rhs) => RepParts(lhs) + Piece(" " + OperatorText(op) + " ") + RepParts(rhs)
    case NullTest(rep, negated) => RepParts(rep) + Piece(if negated then " IS NOT NULL" else " IS NULL")
    case Range(rep, lo, hi, negated) =>
      RepParts(rep) + Piece(if negated then " NOT BETWEEN " else " BETWEEN ") + RepParts(lo) + Piece(" AND ") + RepParts(lo)
    case In(rep, values) => RepParts(rep) + Piece(" IN ") + Piece("(") + ListParts(values, true) + Piece(")")
    case Not(q) => Piece("NOT ") + Piece("(") + Parts(q) + Piece(")")
    case Compound(c, ps) =>
      if |ps| > 1 then Piece("(") + ChainParts(c, ps, true) + Piece(")") else ChainParts(c, ps, true)
  }

  function ChainParts(c: Conjunction, ps: seq<Predicate>, first: bool): seq<Part>
    decreases ps
  {
    if ps == [] then []
    else (if first then [] else Piece(" " + ConjunctionText(c) + " ")) + Parts(ps[0]) + ChainParts(c, ps[1..], false)
  }

  // ---------- the code ----------

  method ApplyRep(r: Representable, exp: SQLExpression)
    modifies exp
    ensures exp.parts == old(exp.parts) + RepParts(r)
    decreases r
  {
    hide Quoted, ListParts;
    match r
    case Column(name) =>
      var quoted := Quote(name, MARK);
      exp.AppendSql(quoted);
    case Aliased(alias, name) =>
      exp.AppendSql(alias + ".");
      var quoted := Quote(name, MARK);
      exp.AppendSql(quoted);
    case Val(v) =>
      exp.Append("?", Some(v));
    case Tuple(rs) =>
      exp.AppendSql("(");
      ApplyList(rs, exp);
      exp.AppendSql(")");
  }

  lemma PieceText(s: string)
    ensures Sql(Piece(s)) == s && Bindings(Piece(s)) == []
  {
    var rest: seq<Part> := [];
    assert Piece(s)[1..] == rest && Sql(rest) == [] && Bindings(rest) == [];
    assert s + [] == s;
  }

  lemma PieceIs(s: string)
    ensures Piece(s) == [Part(s, None)]
  {
  }

  lemma ListEnds(rs: seq<Representable>)
    ensures ListParts(rs[|rs|..], true) == [] && ListParts(rs[|rs|..], false) == []
  {
  }

  lemma ListStep(rs: seq<Representable>, i: nat)
    requires i < |rs|
    ensures ListParts(rs[i..], i == 0)
         == (if i == 0 then [] else Piece(", ")) + RepParts(rs[i]) + ListParts(rs[i + 1..], false)
  {
    hide RepParts;
    assert rs[i..][0] == rs[i] && rs[i..][1..] == rs[i + 1..];
  }

  lemma Regroup<T>(done: seq<T>, a: seq<T>, b: seq<T>, rest: seq<T>)
    ensures done + (a + b + rest) == done + a + b + rest
  {
  }

  /** The loop that tuples and IN share. */
  method ApplyList(rs: seq<Representable>, exp: SQLExpression)
    modifies exp
    ensures exp.parts == old(exp.parts) + ListParts(rs, true)
    decreases rs
  {
    hide RepParts, ListParts, Piece;
    ListEnds(rs);
    assert rs[0..] == rs;
    PieceIs(", ");
    for index := 0 to |rs|
      invariant exp.parts + ListParts(rs[index..], index == 0) == old(exp.parts) + ListParts(rs, true)
    {
      ListStep(rs, index);
      Regroup(exp.parts, if index == 0 then [] else Piece(", "), RepParts(rs[index]), ListParts(rs[index + 1..], false));
      if index > 0 {
        exp.AppendSql(", ");
      }
      ApplyRep(rs[index], exp);
    }
  }

  method Apply(p: Predicate, exp: SQLExpression)
    modifies exp
    ensures exp.parts == old(exp.parts) + Parts(p)
    decreases p, 0
  {
    match p
    case Compare(lhs, op, rhs) => ApplyCompare(lhs, op, rhs, exp);
    case NullTest(rep, negated) => ApplyNullTest(rep, negated, exp);
    case Range(rep, lo, hi, negated) => ApplyRange(rep, lo, hi, negated, exp);
    case In(rep, values) => ApplyIn(rep, values, exp);
    case Not(q) => ApplyNot(q, exp);
    case Compound(c, ps) => ApplyCompound(c, ps, exp);
  }

  method ApplyCompare(lhs: Representable, op: Operator, rhs: Representable, exp: SQLExpression)
    modifies exp
    ensures exp.parts == old(exp.parts) + Parts(Compare(lhs, op, rhs))
  {
    hide RepParts, OperatorText;
    ApplyRep(lhs, exp);
    exp.AppendSql(" " + OperatorText(op) + " ");
    ApplyRep(rhs, exp);
  }

  method ApplyNullTest(rep: Representable, negated: bool, exp: SQLExpression)
    modifies exp
    ensures exp.parts == old(exp.parts) + Parts(NullTest(rep, negated))
  {
    hide RepParts;
    ApplyRep(rep, exp);
    exp.AppendSql(if negated then " IS NOT NULL" else " IS NULL");
  }

  /** The source appends the lower bound twice and the upper bound never. */
  method ApplyRange(rep: Representable, lo: Representable, hi: Representable, negated: bool, exp: SQLExpression)
    modifies exp
    ensures exp.parts == old(exp.parts) + Parts(Range(rep, lo, hi, negated))
  {
    hide RepParts;
    ApplyRep(rep, exp);
    exp.AppendSql(if negated then " NOT BETWEEN " else " BETWEEN ");
    ApplyRep(lo, exp);
    exp.AppendSql(" AND ");
    ApplyRep(lo, exp);
  }

  method ApplyIn(rep: Representable, values: seq<Representable>, exp: SQLExpression)
    modifies exp
    ensures exp.parts == old(exp.parts) + Parts(In(rep, values))
  {
    hide RepParts, ListParts;
    ApplyRep(rep, exp);
    exp.AppendSql(" IN ");
    exp.AppendSql("(");
    ApplyList(values, exp);
    exp.AppendSql(")");
  }

  lemma NotParts(q: Predicate)
    ensures Parts(Not(q)) == Piece("NOT ") + Piece("(") + Parts(q) + Piece(")")
  {
  }

  method ApplyNot(q: Predicate, exp: SQLExpression)
    modifies exp
    ensures exp.parts == old(exp.parts) + Parts(Not(q))
    decreases q, 1
  {
    hide Parts;
    NotParts(q);
    exp.AppendSql("NOT ");
    exp.AppendSql("(");
    Apply(q, exp);
    exp.AppendSql(")");
  }

  lemma ChainEnds(c: Conjunction, ps: seq<Predicate>)
    ensures ChainParts(c, ps[|ps|..], true) == [] && ChainParts(c, ps[|ps|..], false) == []
  {
  }

  lemma ChainStep(c: Conjunction, ps: seq<Predicate>, i: nat)
    requires i < |ps|
    ensures ChainParts(c, ps[i..], i == 0)
         == (if i == 0 then [] else Piece(" " + ConjunctionText(c) + " ")) + Parts(ps[i]) + ChainParts(c, ps[i + 1..], false)
  {
    hide Parts, ConjunctionText;
    assert ps[i..][0] == ps[i] && ps[i..][1..] == ps[i + 1..];
  }

  method ApplyCompound(c: Conjunction, ps: seq<Predicate>, exp: SQLExpression)
    modifies exp
    ensures exp.parts == old(exp.parts) + Parts(Compound(c, ps))
    decreases ps, 1
  {
    if |ps| > 1 {
      exp.AppendSql("(");
    }
    ApplyChain(c, ps, exp);
    if |ps| > 1 {
      exp.AppendSql(")");
    }
  }

  method ApplyChain(c: Conjunction, ps: seq<Predicate>, exp: SQLExpression)
    modifies exp
    ensures exp.parts == old(exp.parts) + ChainParts(c, ps, true)
    decreases ps, 0
  {
    hide Parts, ChainParts, Piece, ConjunctionText;
    ChainEnds(c, ps);
    assert ps[0..] == ps;
    PieceIs(" " + ConjunctionText(c) + " ");
    for index := 0 to |ps|
      invariant exp.parts + ChainParts(c, ps[index..], index == 0) == old(exp.parts) + ChainParts(c, ps, true)
    {
      ghost var separator := if index == 0 then [] else Piece(" " + ConjunctionText(c) + " ");
      ChainStep(c, ps, index);
      Regroup(exp.parts, separator, Parts(ps[index]), ChainParts(c, ps[index + 1..], false));
      if index > 0 {
        exp.AppendSql(" " + ConjunctionText(c) + " ");
      }
      Apply(ps[index], exp);
    }
  }
}

/** What an expression says of a row, in SQL's three truth values. */
module SqlMeaning {
  import opened Wrappers
  import opened SqlExpression
  import opened SqlPredicate
  import opened SqlLexer
  import opened SqlParser

  datatype Truth = Yes | No | Unknown

  /** A table row: the value in each column. */
  type TableRow = string -> Value

  /** What the engine answers for a comparison of two values neither of which is null. */
  type Engine = (Operator, Value, Value) -> bool

  /** A text as C sees it. */
  function UpToNul(s: string): string {
    if s == [] || s[0] == NUL then [] else [s[0]] + UpToNul(s[1..])
  }

  /** What SQLite gets of a value that is bound: a text ends at its first NUL. */
  function Stored(v: Value): Value {
    match v
    case Text(t) => Text(UpToNul(t))
    case _ => v
  }

  predicate HasNul(v: Value) {
    match v
    case Text(t) => NUL in t
    case _ => false
  }

  lemma {:induction false} UpToNulIs(s: string)
    ensures UpToNul(s) == s <==> NUL !in s
    ensures UpToNul(s) <= s && NUL !in UpToNul(s) && (UpToNul(s) == s || s[|UpToNul(s)|] == NUL)
  {
    if s != [] {
      assert s == [s[0]] + s[1..];
      UpToNulIs(s[1..]);
      if s[0] != NUL {
        assert UpToNul(s)[1..] == UpToNul(s[1..]);
      }
    }
  }

  /** A value is stored as it is if and only if it is no text with a NUL in it. */
  lemma StoredIs(v: Value)
    ensures Stored(v) == v <==> !HasNul(v)
    ensures Stored(v) == Null <==> v == Null
  {
    match v
    case Text(t) => UpToNulIs(t);
    case _ =>
  }

  lemma TextIsCut()
    ensures Stored(Text("a\0b")) == Text("a")
  {
    var s := "a\0b";
    assert s[1..][0] == NUL && UpToNul(s[1..]) == [];
    assert UpToNul(s) == ['a'] + [] == "a";
  }

  function Known(b: bool): Truth {
    if b then Yes else No
  }

  function CompareValues(engine: Engine, op: Operator, x: Value, y: Value): Truth {
    if x == Null || y == Null then Unknown else Known(engine(op, x, y))
  }

  function AllOf(ts: seq<Truth>): Truth {
    if No in ts then No else if Unknown in ts then Unknown else Yes
  }

  function AnyOf(ts: seq<Truth>): Truth {
    if Yes in ts then Yes else if Unknown in ts then Unknown else No
  }

  /** The value of a column or a constant; nothing else has one here. */
  function Scalar(row: TableRow, e: Expr): Value {
    match e
    case ColumnRef(c) => row(c)
    case Const(v) => Stored(v)
    case _ => Null
  }

  /** The values of a row of expressions, or of a single one. */
  function Components(row: TableRow, e: Expr): seq<Value> {
    if e.Row? then seq(|e.items|, i requires 0 <= i < |e.items| => Scalar(row, e.items[i])) else [Scalar(row, e)]
  }

  /** Rows are equal if they are equal in every component. */
  function EqualRows(engine: Engine, xs: seq<Value>, ys: seq<Value>): Truth {
    if |xs| != |ys| then Unknown
    else AllOf(seq(|xs|, i requires 0 <= i < |xs| && |xs| == |ys| => CompareValues(engine, Eq, xs[i], ys[i])))
  }

  function Eval(engine: Engine, row: TableRow, e: Expr): Truth {
    match e
    case Comparison(l, op, r) =>
      if op == Eq then EqualRows(engine, Components(row, l), Components(row, r))
      else CompareValues(engine, op, Scalar(row, l), Scalar(row, r))
    case IsNull(x, negated) => Known((Scalar(row, x) == Null) != negated)
    case Between(x, lo, hi, negated) =>
      var within := AllOf([CompareValues(engine, Ge, Scalar(row, x), Scalar(row, lo)),
                           CompareValues(engine, Le, Scalar(row, x), Scalar(row, hi))]);
      if negated then Opposite(within) else within
    case Member(x, items) =>
      AnyOf(seq(|items|, i requires 0 <= i < |items| => EqualRows(engine, Components(row, x), Components(row, items[i]))))
    case Negation(x) => Opposite(Eval(engine, row, x))
    case Chain(c, es) =>
      var ts := seq(|es|, i requires 0 <= i < |es| => Eval(engine, row, es[i]));
      if c == And then AllOf(ts) else AnyOf(ts)
    case _ => Unknown
  }

  function Opposite(t: Truth): Truth {
    match t
    case Yes => No
    case No => Yes
    case Unknown => Unknown
  }

  /** The text of the predicate, with its bindings, holds of the row. */
  predicate Selects(engine: Engine, p: Predicate, row: TableRow) {
    var e := Parse(Sql(Parts(p)), Bindings(Parts(p)));
    e.Some? && Eval(engine, row, e.value) == Yes
  }

  lemma AllYes(ts: seq<Truth>)
    ensures AllOf(ts) == Yes <==> forall i :: 0 <= i < |ts| ==> ts[i] == Yes
  {
    forall i | 0 <= i < |ts| && AllOf(ts) == Yes
      ensures ts[i] == Yes
    {
      assert ts[i] in ts;
    }
  }

  lemma AnyYes(ts: seq<Truth>)
    ensures AnyOf(ts) == Yes <==> exists i :: 0 <= i < |ts| && ts[i] == Yes
  {
  }

  lemma RowsEqual(engine: Engine, xs: seq<Value>, ys: seq<Value>)
    requires |xs| == |ys|
    ensures EqualRows(engine, xs, ys) == Yes
       <==> forall i :: 0 <= i < |xs| ==> CompareValues(engine, Eq, xs[i], ys[i]) == Yes
  {
    hide AllOf, CompareValues;
    var ts := seq(|xs|, i requires 0 <= i < |xs| && |xs| == |ys| => CompareValues(engine, Eq, xs[i], ys[i]));
    AllYes(ts);
    assert EqualRows(engine, xs, ys) == AllOf(ts);
    assert forall i :: 0 <= i < |xs| ==> ts[i] == CompareValues(engine, Eq, xs[i], ys[i]);
  }

  /** IN holds if the operand is equal to one of the items. */
  lemma MemberHolds(engine: Engine, row: TableRow, x: Expr, items: seq<Expr>)
    ensures Eval(engine, row, Member(x, items)) == Yes
       <==> exists i :: 0 <= i < |items| && EqualRows(engine, Components(row, x), Components(row, items[i])) == Yes
  {
    hide AnyOf, EqualRows, Components;
    var ts := seq(|items|, i requires 0 <= i < |items| => EqualRows(engine, Components(row, x), Components(row, items[i])));
    AnyYes(ts);
    assert Eval(engine, row, Member(x, items)) == AnyOf(ts);
    assert forall i :: 0 <= i < |items| ==> ts[i] == EqualRows(engine, Components(row, x), Components(row, items[i]));
  }

  // ---------- ranges ----------

  predicate AtMost(engine: Engine, x: Value, y: Value) {
    engine(Le, x, y)
  }

  ghost predicate Linear(engine: Engine) {
    && (forall x, y :: x != Null && y != Null ==> AtMost(engine, x, y) || AtMost(engine, y, x))
    && (forall x, y, z :: x != Null && y != Null && z != Null && AtMost(engine, x, y) && AtMost(engine, y, z)
          ==> AtMost(engine, x, z))
  }

  ghost predicate Coherent(engine: Engine) {
    forall x, y :: x != Null && y != Null ==>
      engine(Ge, x, y) == AtMost(engine, y, x) && engine(Eq, x, y) == (AtMost(engine, x, y) && AtMost(engine, y, x))
  }

  ghost predicate Exceeded(engine: Engine, x: Value) {
    exists y :: y != Null && !AtMost(engine, y, x)
  }

  /** The engine orders the values that are not null, the same way by all its comparisons, and has
      no greatest value. */
  ghost predicate Orders(engine: Engine) {
    Linear(engine) && Coherent(engine) && forall x :: x != Null ==> Exceeded(engine, x)
  }

  function Rank(x: Value): int {
    match x
    case Long(n) => n
    case _ => 0
  }

  predicate ByNumber(op: Operator, x: Value, y: Value) {
    match op
    case Le => Rank(x) <= Rank(y)
    case Ge => Rank(y) <= Rank(x)
    case _ => Rank(x) == Rank(y)
  }

  /** There are such engines; this one orders by number. */
  lemma OrderingByNumber()
    ensures Orders(ByNumber)
  {
    forall x: Value | x != Null
      ensures Exceeded(ByNumber, x)
    {
      assert !AtMost(ByNumber, Long(Rank(x) + 1), x);
    }
  }

  /** Whether BETWEEN holds, for a value and two bounds. */
  function Within(engine: Engine, x: Value, lo: Value, hi: Value): Truth {
    AllOf([CompareValues(engine, Ge, x, lo), CompareValues(engine, Le, x, hi)])
  }

  /** Two bounds that a value cannot tell apart. */
  predicate SameBound(engine: Engine, lo: Value, hi: Value) {
    if lo == Null || hi == Null then lo == hi else engine(Eq, lo, hi)
  }

  /** The truth values of BETWEEN, told by the order alone. */
  lemma WithinIs(engine: Engine, x: Value, lo: Value, hi: Value)
    requires Coherent(engine)
    ensures x == Null ==> Within(engine, x, lo, hi) == Unknown
    ensures x != Null && lo == Null && hi == Null ==> Within(engine, x, lo, hi) == Unknown
    ensures x != Null && lo == Null && hi != Null ==>
      Within(engine, x, lo, hi) == if AtMost(engine, x, hi) then Unknown else No
    ensures x != Null && lo != Null && hi == Null ==>
      Within(engine, x, lo, hi) == if AtMost(engine, lo, x) then Unknown else No
    ensures x != Null && lo != Null && hi != Null ==>
      Within(engine, x, lo, hi) == Known(AtMost(engine, lo, x) && AtMost(engine, x, hi))
  {
    hide AtMost;
    AtMostIs(engine, x, hi);
    var a, b := CompareValues(engine, Ge, x, lo), CompareValues(engine, Le, x, hi);
    assert [a, b][0] == a && [a, b][1] == b;
    assert No in [a, b] <==> a == No || b == No;
    assert Unknown in [a, b] <==> a == Unknown || b == Unknown;
  }

  lemma AtMostIs(engine: Engine, x: Value, y: Value)
    ensures AtMost(engine, x, y) == engine(Le, x, y)
  {
  }

  lemma WithinSameBounds(engine: Engine, x: Value, lo: Value, hi: Value)
    requires Orders(engine) && SameBound(engine, lo, hi)
    ensures Within(engine, x, lo, lo) == Within(engine, x, lo, hi)
  {
    hide Within, AtMost, Exceeded;
    WithinIs(engine, x, lo, lo);
    WithinIs(engine, x, lo, hi);
  }

  /** Bounds that are not the same are told apart by one of them or by a value above the upper one. */
  lemma WithinOtherBounds(engine: Engine, lo: Value, hi: Value) returns (x: Value)
    requires Orders(engine) && !SameBound(engine, lo, hi)
    ensures Within(engine, x, lo, lo) != Within(engine, x, lo, hi)
  {
    hide Within, AtMost;
    if lo == Null {
      assert Exceeded(engine, hi);
      x :| x != Null && !AtMost(engine, x, hi);
    } else if hi == Null || AtMost(engine, hi, lo) {
      x := lo;
    } else {
      x := hi;
    }
    WithinIs(engine, x, lo, lo);
    WithinIs(engine, x, lo, hi);
    assert AtMost(engine, x, x);
  }

  lemma EvalOfRange(engine: Engine, row: TableRow, c: string, lo: Value, hi: Value, negated: bool)
    ensures var t := Within(engine, row(c), Stored(lo), Stored(hi));
            Eval(engine, row, Between(ColumnRef(c), Const(lo), Const(hi), negated)) == if negated then Opposite(t) else t
  {
    hide CompareValues, AllOf, Stored;
  }

  /** A row tells the range that is written from the one that is meant if its value does. */
  lemma RangeInRow(engine: Engine, row: TableRow, column: Characters, lo: Value, hi: Value, negated: bool)
    ensures var p, x := Range(Column(column), Val(lo), Val(hi), negated), row(Flat(column));
            Eval(engine, row, Read(p)) == Eval(engine, row, Intended(p))
            <==> Within(engine, x, Stored(lo), Stored(lo)) == Within(engine, x, Stored(lo), Stored(hi))
  {
    hide Within, Stored, Eval;
    EvalOfRange(engine, row, Flat(column), lo, lo, negated);
    EvalOfRange(engine, row, Flat(column), lo, hi, negated);
  }

  /** A range on a column, as written and as meant, has the same truth value in every row if and only
      if its bounds are equal to the engine or both null. */
  lemma RangeMeaningIsKept(engine: Engine, column: Characters, lo: Value, hi: Value, negated: bool)
    requires Orders(engine)
    ensures var p := Range(Column(column), Val(lo), Val(hi), negated);
            Legible(column, MARK) ==> Parse(Sql(Parts(p)), Bindings(Parts(p))) == Some(Read(p))
    ensures var p := Range(Column(column), Val(lo), Val(hi), negated);
            (forall row :: Eval(engine, row, Read(p)) == Eval(engine, row, Intended(p)))
            <==> SameBound(engine, Stored(lo), Stored(hi))
  {
    hide Orders, SameBound, Within, Parse, Parts, Stored, Eval, Read, Intended;
    var p := Range(Column(column), Val(lo), Val(hi), negated);
    ParseOfPredicate(p);
    var c, low, high := Flat(column), Stored(lo), Stored(hi);
    if SameBound(engine, low, high) {
      forall row: TableRow
        ensures Eval(engine, row, Read(p)) == Eval(engine, row, Intended(p))
      {
        WithinSameBounds(engine, row(c), low, high);
        RangeInRow(engine, row, column, lo, hi, negated);
      }
    } else {
      var x := WithinOtherBounds(engine, low, high);
      var row: TableRow := name => x;
      assert row(c) == x;
      RangeInRow(engine, row, column, lo, hi, negated);
      assert Eval(engine, row, Read(p)) != Eval(engine, row, Intended(p));
    }
  }
}

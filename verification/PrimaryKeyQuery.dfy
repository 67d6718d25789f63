/** Finding instances by their primary keys (primaryKeyQuery in SQLCodable.swift): one question with
    four texts, and which rows each text selects under SQL's three truth values. */
module PrimaryKeyQuery {
  import opened Wrappers
  import opened SqlExpression
  import opened SqlPredicate
  import opened SqlLexer
  import opened SqlParser
  import opened SqlMeaning

  datatype Outcome = Query(query: Predicate) | NoPrimaryKeys(table: string)

  // ---------- the query ----------

  function Columns(names: seq<Characters>): (rs: seq<Representable>)
    ensures |rs| == |names|
  {
    seq(|names|, i requires 0 <= i < |names| => Column(names[i]))
  }

  function Vals(vs: seq<Value>): (rs: seq<Representable>)
    ensures |rs| == |vs|
  {
    seq(|vs|, i requires 0 <= i < |vs| => Val(vs[i]))
  }

  /** Every instance has a value for each of the primary key columns. */
  predicate KeysFit(columns: seq<Characters>, keys: seq<seq<Value>>) {
    forall k :: k in keys ==> |k| == |columns|
  }

  /** The first value of each key. */
  function Firsts(keys: seq<seq<Value>>): (rs: seq<Representable>)
    requires forall k :: k in keys ==> |k| > 0
    ensures |rs| == |keys|
  {
    seq(|keys|, i requires 0 <= i < |keys| => Val(keys[i][0]))
  }

  function Tuples(keys: seq<seq<Value>>): (rs: seq<Representable>)
    ensures |rs| == |keys|
  {
    seq(|keys|, i requires 0 <= i < |keys| => Tuple(Vals(keys[i])))
  }

  /** Every column equal to its value, null tests where the value is null. */
  function Equalities(columns: seq<Characters>, key: seq<Value>): (ps: seq<Predicate>)
    requires |key| == |columns|
    ensures |ps| == |columns|
  {
    seq(|columns|, i requires 0 <= i < |columns| => Equals(Column(columns[i]), Val(key[i])))
  }

  function Conjunctions(columns: seq<Characters>, keys: seq<seq<Value>>): (ps: seq<Predicate>)
    requires KeysFit(columns, keys)
    ensures |ps| == |keys|
  {
    seq(|keys|, i requires 0 <= i < |keys| => Compound(And, Equalities(columns, keys[i])))
  }

  function KeyQuery(columns: seq<Characters>, keys: seq<seq<Value>>, rowValues: bool): Predicate
    requires columns != [] && KeysFit(columns, keys)
  {
    if |columns| == 1 then
      if |keys| == 1 then Equals(Column(columns[0]), Val(keys[0][0]))
      else In(Column(columns[0]), Firsts(keys))
    else if rowValues then In(Tuple(Columns(columns)), Tuples(keys))
    else Compound(Or, Conjunctions(columns, keys))
  }

  /** The code. rowValues says whether the library is new enough for tuples in IN. */
  method FindByPrimaryKeys(table: string, pkColumns: seq<Characters>, pkValues: seq<seq<Value>>, rowValues: bool)
    returns (r: Outcome)
    requires KeysFit(pkColumns, pkValues)
    ensures r == if pkColumns == [] then NoPrimaryKeys(table) else Query(KeyQuery(pkColumns, pkValues, rowValues))
  {
    if pkColumns == [] {
      return NoPrimaryKeys(table);
    } else if |pkColumns| == 1 {
      var pkColumn := Column(pkColumns[0]);
      var pks := Firsts(pkValues);
      if |pks| == 1 {
        return Query(Equals(pkColumn, pks[0]));
      } else {
        return Query(In(pkColumn, pks));
      }
    } else if rowValues {
      return Query(In(Tuple(Columns(pkColumns)), Tuples(pkValues)));
    } else {
      var equalsQueries := [];
      for i := 0 to |pkValues|
        invariant equalsQueries == Conjunctions(pkColumns, pkValues)[..i]
      {
        var parts := [];
        for j := 0 to |pkColumns|
          invariant parts == Equalities(pkColumns, pkValues[i])[..j]
        {
          parts := parts + [Equals(Column(pkColumns[j]), Val(pkValues[i][j]))];
        }
        assert parts == Equalities(pkColumns, pkValues[i]);
        equalsQueries := equalsQueries + [Compound(And, parts)];
      }
      assert equalsQueries == Conjunctions(pkColumns, pkValues);
      return Query(Compound(Or, equalsQueries));
    }
  }

  // ---------- which rows are meant ----------

  /** Every key column of the row is equal to its value as it is bound; nothing is equal to null. */
  predicate Matches(engine: Engine, columns: seq<Characters>, key: seq<Value>, row: TableRow)
    requires |key| == |columns|
  {
    forall i :: 0 <= i < |columns| ==> CompareValues(engine, Eq, row(Flat(columns[i])), Stored(key[i])) == Yes
  }

  /** The same, but a null in the key asks for a null in the row. */
  predicate MatchesNulls(engine: Engine, columns: seq<Characters>, key: seq<Value>, row: TableRow)
    requires |key| == |columns|
  {
    forall i :: 0 <= i < |columns| ==>
      if key[i] == Null then row(Flat(columns[i])) == Null else CompareValues(engine, Eq, row(Flat(columns[i])), Stored(key[i])) == Yes
  }

  /** Every column name is read back as it is. */
  predicate AllLegible(columns: seq<Characters>) {
    forall c :: c in columns ==> Legible(c, MARK)
  }

  /** Whether the query is written with IN. */
  predicate UsesIn(columns: seq<Characters>, keys: seq<seq<Value>>, rowValues: bool) {
    if |columns| == 1 then |keys| != 1 else rowValues
  }

  lemma {:induction false} ReadListAt(rs: seq<Representable>, i: nat)
    requires (forall x :: x in rs ==> WellFormedRep(x)) && i < |rs|
    ensures ReadList(rs)[i] == ReadRep(rs[i])
  {
    if i > 0 {
      ReadListAt(rs[1..], i - 1);
    }
  }

  lemma {:induction false} ReadAllAt(ps: seq<Predicate>, i: nat)
    requires (forall q :: q in ps ==> WellFormed(q)) && i < |ps|
    ensures ReadAll(ps)[i] == Read(ps[i])
  {
    if i > 0 {
      ReadAllAt(ps[1..], i - 1);
    }
  }

  lemma EvalOfEquals(engine: Engine, row: TableRow, column: Characters, v: Value)
    ensures var p := Equals(Column(column), Val(v));
            && WellFormed(p) && (Legible(column, MARK) ==> Readable(p))
            && (Eval(engine, row, Read(p)) == Yes
                <==> if v == Null then row(Flat(column)) == Null else CompareValues(engine, Eq, row(Flat(column)), Stored(v)) == Yes)
  {
    hide CompareValues, EqualRows;
    if v != Null {
      var xs, ys := [row(Flat(column))], [Stored(v)];
      RowsEqual(engine, xs, ys);
      assert Components(row, ColumnRef(Flat(column))) == xs && Components(row, Const(v)) == ys;
      assert Read(Compare(Column(column), Eq, Val(v))) == Comparison(ColumnRef(Flat(column)), Eq, Const(v));
      assert xs[0] == row(Flat(column));
    }
  }

  /** The negated forms of a comparison: not equal to null means not null, and a null in the row is
      not unequal to anything. */
  lemma EvalOfNotEquals(engine: Engine, row: TableRow, column: Characters, v: Value)
    ensures var p := NotEquals(Column(column), Val(v));
            && WellFormed(p) && (Legible(column, MARK) ==> Readable(p))
            && (Eval(engine, row, Read(p)) == Yes <==> row(Flat(column)) != Null && (v == Null || engine(Ne, row(Flat(column)), Stored(v))))
  {
  }

  /** One column, any number of keys but one. */
  lemma EvalOfColumnIn(engine: Engine, row: TableRow, columns: seq<Characters>, keys: seq<seq<Value>>)
    requires |columns| == 1 && KeysFit(columns, keys)
    ensures var p := In(Column(columns[0]), Firsts(keys));
            && WellFormed(p) && (AllLegible(columns) ==> Readable(p))
            && (Eval(engine, row, Read(p)) == Yes <==> exists k :: k in keys && Matches(engine, columns, k, row))
  {
    hide CompareValues, EqualRows, Eval, Flat, Legible;
    var rs, x := Firsts(keys), ColumnRef(Flat(columns[0]));
    var items := ReadList(rs);
    MemberHolds(engine, row, x, items);
    forall i | 0 <= i < |keys|
      ensures EqualRows(engine, Components(row, x), Components(row, items[i])) == Yes <==> Matches(engine, columns, keys[i], row)
    {
      ReadListAt(rs, i);
      ItemMatches(engine, row, columns, keys[i], items[i]);
    }
  }

  lemma ItemMatches(engine: Engine, row: TableRow, columns: seq<Characters>, key: seq<Value>, item: Expr)
    requires |columns| == |key| == 1 && item == ReadRep(Val(key[0]))
    ensures EqualRows(engine, Components(row, ColumnRef(Flat(columns[0]))), Components(row, item)) == Yes <==> Matches(engine, columns, key, row)
  {
    hide CompareValues, EqualRows, Flat;
    var xs, ys := [row(Flat(columns[0]))], [Stored(key[0])];
    RowsEqual(engine, xs, ys);
    assert Components(row, ColumnRef(Flat(columns[0]))) == xs && Components(row, item) == ys;
    assert xs[0] == row(Flat(columns[0])) && Stored(key[0]) == ys[0];
  }

  function StoredAll(vs: seq<Value>): (r: seq<Value>)
    ensures |r| == |vs|
  {
    seq(|vs|, i requires 0 <= i < |vs| => Stored(vs[i]))
  }

  lemma ComponentsOfColumns(row: TableRow, columns: seq<Characters>)
    requires |columns| > 1
    ensures WellFormedRep(Tuple(Columns(columns))) && (AllLegible(columns) ==> ReadableRep(Tuple(Columns(columns))))
    ensures var xs := Components(row, ReadRep(Tuple(Columns(columns))));
            |xs| == |columns| && forall i :: 0 <= i < |xs| ==> xs[i] == row(Flat(columns[i]))
  {
    var rs := Columns(columns);
    forall i | 0 <= i < |rs|
      ensures Scalar(row, ReadList(rs)[i]) == row(Flat(columns[i]))
    {
      ReadListAt(rs, i);
    }
  }

  lemma ComponentsOfValues(row: TableRow, vs: seq<Value>)
    requires |vs| > 1
    ensures WellFormedRep(Tuple(Vals(vs))) && ReadableRep(Tuple(Vals(vs)))
    ensures Components(row, ReadRep(Tuple(Vals(vs)))) == StoredAll(vs)
  {
    var rs := Vals(vs);
    forall i | 0 <= i < |rs|
      ensures Scalar(row, ReadList(rs)[i]) == Stored(vs[i])
    {
      ReadListAt(rs, i);
    }
  }

  /** Several columns, as tuples. */
  lemma EvalOfTupleIn(engine: Engine, row: TableRow, columns: seq<Characters>, keys: seq<seq<Value>>)
    requires |columns| > 1 && KeysFit(columns, keys)
    ensures var p := In(Tuple(Columns(columns)), Tuples(keys));
            && WellFormed(p) && (AllLegible(columns) ==> Readable(p))
            && (Eval(engine, row, Read(p)) == Yes <==> exists k :: k in keys && Matches(engine, columns, k, row))
  {
    hide CompareValues, EqualRows, Eval, Components, ReadRep;
    ComponentsOfColumns(row, columns);
    var rs, x := Tuples(keys), ReadRep(Tuple(Columns(columns)));
    forall i | 0 <= i < |keys|
      ensures WellFormedRep(rs[i]) && ReadableRep(rs[i])
    {
      ComponentsOfValues(row, keys[i]);
    }
    var items := ReadList(rs);
    MemberHolds(engine, row, x, items);
    forall i | 0 <= i < |keys|
      ensures EqualRows(engine, Components(row, x), Components(row, items[i])) == Yes <==> Matches(engine, columns, keys[i], row)
    {
      ReadListAt(rs, i);
      ComponentsOfValues(row, keys[i]);
      RowsEqual(engine, Components(row, x), StoredAll(keys[i]));
    }
  }

  lemma ReadCompound(c: Conjunction, ps: seq<Predicate>)
    requires ps != [] && forall q :: q in ps ==> WellFormed(q)
    ensures Read(Compound(c, ps)) == Collapse(c, ReadAll(ps))
  {
  }

  /** A chain holds if all, or some, of the predicates in it do. */
  lemma EvalOfCompound(engine: Engine, row: TableRow, c: Conjunction, ps: seq<Predicate>)
    requires ps != [] && forall q :: q in ps ==> WellFormed(q)
    ensures Eval(engine, row, Read(Compound(c, ps))) == Yes
       <==> if c == And then forall i :: 0 <= i < |ps| ==> Eval(engine, row, Read(ps[i])) == Yes
            else exists i :: 0 <= i < |ps| && Eval(engine, row, Read(ps[i])) == Yes
  {
    hide AllOf, AnyOf, Read;
    var es := ReadAll(ps);
    ReadCompound(c, ps);
    forall i | 0 <= i < |ps|
      ensures es[i] == Read(ps[i])
    {
      ReadAllAt(ps, i);
    }
    if |ps| > 1 {
      var ts := seq(|es|, i requires 0 <= i < |es| => Eval(engine, row, es[i]));
      AllYes(ts);
      AnyYes(ts);
      assert Eval(engine, row, Chain(c, es)) == if c == And then AllOf(ts) else AnyOf(ts);
      assert forall i :: 0 <= i < |ps| ==> ts[i] == Eval(engine, row, Read(ps[i]));
    }
  }

  lemma EvalOfEqualities(engine: Engine, row: TableRow, columns: seq<Characters>, key: seq<Value>)
    requires columns != [] && |key| == |columns|
    ensures var p := Compound(And, Equalities(columns, key));
            && WellFormed(p) && (AllLegible(columns) ==> Readable(p))
            && (Eval(engine, row, Read(p)) == Yes <==> MatchesNulls(engine, columns, key, row))
  {
    hide CompareValues, Eval, Equals, Read, WellFormedRep, ReadableRep;
    var ps := Equalities(columns, key);
    forall i | 0 <= i < |ps|
      ensures WellFormed(ps[i]) && (AllLegible(columns) ==> Readable(ps[i]))
      ensures Eval(engine, row, Read(ps[i])) == Yes
         <==> if key[i] == Null then row(Flat(columns[i])) == Null else CompareValues(engine, Eq, row(Flat(columns[i])), Stored(key[i])) == Yes
    {
      EvalOfEquals(engine, row, columns[i], key[i]);
    }
    EvalOfCompound(engine, row, And, ps);
  }

  /** Several columns, without tuples. */
  lemma EvalOfConjunctions(engine: Engine, row: TableRow, columns: seq<Characters>, keys: seq<seq<Value>>)
    requires columns != [] && keys != [] && KeysFit(columns, keys)
    ensures var p := Compound(Or, Conjunctions(columns, keys));
            && WellFormed(p) && (AllLegible(columns) ==> Readable(p))
            && (Eval(engine, row, Read(p)) == Yes <==> exists k :: k in keys && MatchesNulls(engine, columns, k, row))
  {
    hide Eval, Read, MatchesNulls, Equalities;
    var ps := Conjunctions(columns, keys);
    forall i | 0 <= i < |ps|
      ensures WellFormed(ps[i]) && (AllLegible(columns) ==> Readable(ps[i]))
      ensures Eval(engine, row, Read(ps[i])) == Yes <==> MatchesNulls(engine, columns, keys[i], row)
    {
      EvalOfEqualities(engine, row, columns, keys[i]);
    }
    EvalOfCompound(engine, row, Or, ps);
  }

  // ---------- the results ----------

  lemma KeyQueryReads(columns: seq<Characters>, keys: seq<seq<Value>>, rowValues: bool)
    requires columns != [] && KeysFit(columns, keys)
    ensures var p := KeyQuery(columns, keys, rowValues);
            && (WellFormed(p) <==> |columns| == 1 || rowValues || keys != [])
            && (AllLegible(columns) ==> Readable(p))
  {
    hide Eval, Read, Matches, MatchesNulls;
    var engine: Engine, row: TableRow := (op, x, y) => true, c => Null;
    var p := KeyQuery(columns, keys, rowValues);
    if |columns| == 1 && |keys| == 1 {
      EvalOfEquals(engine, row, columns[0], keys[0][0]);
    } else if |columns| == 1 {
      EvalOfColumnIn(engine, row, columns, keys);
    } else if rowValues {
      EvalOfTupleIn(engine, row, columns, keys);
    } else if keys != [] {
      EvalOfConjunctions(engine, row, columns, keys);
    } else {
      assert p == Compound(Or, []);
    }
  }

  /** The text of the predicate, with its bindings, is an expression. */
  predicate Parses(p: Predicate) {
    Parse(Sql(Parts(p)), Bindings(Parts(p))).Some?
  }

  /** A key query has a text that parses unless the form without IN is to find no instances. */
  lemma KeyQueryParses(columns: seq<Characters>, keys: seq<seq<Value>>, rowValues: bool)
    requires columns != [] && KeysFit(columns, keys) && AllLegible(columns)
    ensures Parses(KeyQuery(columns, keys, rowValues)) <==> |columns| == 1 || rowValues || keys != []
  {
    hide Parse, Parts, Read, WellFormed, Readable, KeyQuery;
    KeyQueryReads(columns, keys, rowValues);
    ParseOfPredicate(KeyQuery(columns, keys, rowValues));
  }

  /** Exactly which rows the text of a key query selects: those that match a key, where the forms
      without IN let a null in a key match a null in the row, and those with IN do not. */
  lemma KeyQuerySelects(engine: Engine, row: TableRow, columns: seq<Characters>, keys: seq<seq<Value>>, rowValues: bool)
    requires columns != [] && KeysFit(columns, keys) && AllLegible(columns)
    ensures Selects(engine, KeyQuery(columns, keys, rowValues), row)
       <==> if UsesIn(columns, keys, rowValues) then exists k :: k in keys && Matches(engine, columns, k, row)
            else exists k :: k in keys && MatchesNulls(engine, columns, k, row)
  {
    hide Eval, Parse, Parts, Read, WellFormed, Readable, Matches, MatchesNulls, CompareValues;
    var p := KeyQuery(columns, keys, rowValues);
    if |columns| == 1 && |keys| == 1 {
      OneKey(engine, row, columns, keys[0]);
    } else if |columns| == 1 {
      EvalOfColumnIn(engine, row, columns, keys);
      ParseOfPredicate(p);
    } else if rowValues {
      EvalOfTupleIn(engine, row, columns, keys);
      ParseOfPredicate(p);
    } else if keys != [] {
      EvalOfConjunctions(engine, row, columns, keys);
      ParseOfPredicate(p);
    } else {
      NoKeysWithoutIn(columns);
    }
  }

  lemma OneKey(engine: Engine, row: TableRow, columns: seq<Characters>, key: seq<Value>)
    requires |columns| == 1 && |key| == 1 && AllLegible(columns)
    ensures Selects(engine, Equals(Column(columns[0]), Val(key[0])), row) <==> MatchesNulls(engine, columns, key, row)
  {
    hide Eval, Parse, Parts, Read, WellFormed, Readable, CompareValues, Equals;
    EvalOfEquals(engine, row, columns[0], key[0]);
    ParseOfPredicate(Equals(Column(columns[0]), Val(key[0])));
  }

  /** With no instances the form without IN has no text: what is written does not parse. */
  lemma NoKeysWithoutIn(columns: seq<Characters>)
    requires |columns| > 1
    ensures var p := KeyQuery(columns, [], false);
            Sql(Parts(p)) == "" && Parse(Sql(Parts(p)), Bindings(Parts(p))) == None
  {
    hide Parse, Lex;
    var p := KeyQuery(columns, [], false);
    assert p == Compound(Or, []);
    ParseOfPredicate(p);
  }

  /** For keys without nulls every form selects the rows whose key columns are equal to the key of
      some instance. */
  lemma KeysWithoutNulls(engine: Engine, row: TableRow, columns: seq<Characters>, keys: seq<seq<Value>>, rowValues: bool)
    requires columns != [] && KeysFit(columns, keys) && AllLegible(columns)
    requires forall k :: k in keys ==> Null !in k
    ensures Selects(engine, KeyQuery(columns, keys, rowValues), row)
       <==> exists k :: k in keys && Matches(engine, columns, k, row)
  {
    hide Selects, CompareValues;
    KeyQuerySelects(engine, row, columns, keys, rowValues);
    forall k | k in keys
      ensures MatchesNulls(engine, columns, k, row) == Matches(engine, columns, k, row)
    {
      WithoutNulls(engine, columns, k, row);
    }
  }

  /** Every value but null is equal to itself. */
  ghost predicate Reflexive(engine: Engine) {
    forall v :: v != Null ==> engine(Eq, v, v)
  }

  predicate Distinct(columns: seq<Characters>) {
    forall i, j :: 0 <= i < j < |columns| ==> Flat(columns[i]) != Flat(columns[j])
  }

  /** The row that holds a key in its key columns. */
  lemma {:induction false} RowOfKey(columns: seq<Characters>, key: seq<Value>) returns (row: TableRow)
    requires |key| == |columns| && Distinct(columns)
    ensures forall i :: 0 <= i < |columns| ==> row(Flat(columns[i])) == Stored(key[i])
  {
    if columns == [] {
      row := c => Null;
    } else {
      var n := |columns| - 1;
      var shorter := RowOfKey(columns[..n], key[..n]);
      row := c => if c == Flat(columns[n]) then Stored(key[n]) else shorter(c);
      forall i | 0 <= i < n
        ensures row(Flat(columns[i])) == Stored(key[i])
      {
        assert columns[..n][i] == columns[i] && key[..n][i] == key[i];
      }
    }
  }

  lemma NullInRow(engine: Engine, columns: seq<Characters>, key: seq<Value>, row: TableRow, i: nat)
    requires |key| == |columns| && i < |columns| && row(Flat(columns[i])) == Null
    ensures !Matches(engine, columns, key, row)
  {
    assert CompareValues(engine, Eq, row(Flat(columns[i])), Stored(key[i])) == Unknown;
  }

  /** A row that holds a key with a null is found without IN and not with it. */
  lemma RowOfNullKey(engine: Engine, columns: seq<Characters>, keys: seq<seq<Value>>, k: seq<Value>) returns (row: TableRow)
    requires |columns| > 1 && KeysFit(columns, keys) && AllLegible(columns) && Distinct(columns) && Reflexive(engine)
    requires k in keys && Null in k
    ensures Selects(engine, KeyQuery(columns, keys, false), row)
    ensures !Selects(engine, KeyQuery(columns, keys, true), row)
  {
    hide Selects;
    row := RowOfKey(columns, k);
    KeyQuerySelects(engine, row, columns, keys, false);
    KeyQuerySelects(engine, row, columns, keys, true);
    assert MatchesNulls(engine, columns, k, row);
    var i :| 0 <= i < |k| && k[i] == Null;
    forall other | other in keys
      ensures !Matches(engine, columns, other, row)
    {
      NullInRow(engine, columns, other, row, i);
    }
  }

  /** The two forms for several columns are statements that select the same rows of every table if
      and only if there are instances and no key has a null in it. */
  lemma FormsAgree(engine: Engine, columns: seq<Characters>, keys: seq<seq<Value>>)
    requires |columns| > 1 && KeysFit(columns, keys) && AllLegible(columns) && Distinct(columns) && Reflexive(engine)
    ensures var p, q := KeyQuery(columns, keys, false), KeyQuery(columns, keys, true);
            (forall row :: Selects(engine, p, row) <==> Selects(engine, q, row))
            <==> (forall k :: k in keys ==> Null !in k)
    ensures var p, q := KeyQuery(columns, keys, false), KeyQuery(columns, keys, true);
            (Parses(p) && Parses(q) && forall row :: Selects(engine, p, row) <==> Selects(engine, q, row))
            <==> (keys != [] && forall k :: k in keys ==> Null !in k)
  {
    hide Selects, Parses, KeyQuery, AllLegible, Distinct, Reflexive, Matches;
    var p, q := KeyQuery(columns, keys, false), KeyQuery(columns, keys, true);
    KeyQueryParses(columns, keys, false);
    KeyQueryParses(columns, keys, true);
    if k :| k in keys && Null in k {
      var row := RowOfNullKey(engine, columns, keys, k);
      assert Selects(engine, p, row) != Selects(engine, q, row);
    } else {
      forall row: TableRow
        ensures Selects(engine, p, row) <==> Selects(engine, q, row)
      {
        KeysWithoutNulls(engine, row, columns, keys, false);
        KeysWithoutNulls(engine, row, columns, keys, true);
      }
    }
  }

  /** A row is found by a query for one of the instances alone. */
  ghost predicate FoundAlone(engine: Engine, row: TableRow, columns: seq<Characters>, keys: seq<seq<Value>>, rowValues: bool)
    requires columns != [] && KeysFit(columns, keys)
  {
    exists k :: k in keys && Selects(engine, KeyQuery(columns, [k], rowValues), row)
  }

  lemma FoundAloneIs(engine: Engine, row: TableRow, columns: seq<Characters>, keys: seq<seq<Value>>, rowValues: bool)
    requires columns != [] && KeysFit(columns, keys) && AllLegible(columns)
    ensures FoundAlone(engine, row, columns, keys, rowValues)
       <==> if |columns| > 1 && rowValues then exists k :: k in keys && Matches(engine, columns, k, row)
            else exists k :: k in keys && MatchesNulls(engine, columns, k, row)
  {
    hide Selects, KeyQuery, AllLegible, Matches, MatchesNulls;
    forall k | k in keys
      ensures Selects(engine, KeyQuery(columns, [k], rowValues), row)
         <==> if |columns| > 1 && rowValues then Matches(engine, columns, k, row) else MatchesNulls(engine, columns, k, row)
    {
      KeyQuerySelects(engine, row, columns, [k], rowValues);
      assert [k][0] in [k];
    }
  }

  /** A query for several instances finds, in every table, the rows that queries for each of them
      find, if and only if there are several key columns, or one instance, or no null in a key; and it
      is an expression besides unless it is the form without IN for no instances. */
  lemma QueryIsUnion(engine: Engine, columns: seq<Characters>, keys: seq<seq<Value>>, rowValues: bool)
    requires columns != [] && KeysFit(columns, keys) && AllLegible(columns) && Reflexive(engine)
    ensures (forall row :: Selects(engine, KeyQuery(columns, keys, rowValues), row) <==> FoundAlone(engine, row, columns, keys, rowValues))
       <==> |columns| > 1 || |keys| == 1 || forall k :: k in keys ==> Null !in k
    ensures (&& Parses(KeyQuery(columns, keys, rowValues))
             && forall row :: Selects(engine, KeyQuery(columns, keys, rowValues), row) <==> FoundAlone(engine, row, columns, keys, rowValues))
       <==> (&& (|columns| == 1 || rowValues || keys != [])
             && (|columns| > 1 || |keys| == 1 || forall k :: k in keys ==> Null !in k))
  {
    hide Selects, Parses, KeyQuery, AllLegible, Matches, MatchesNulls, FoundAlone;
    KeyQueryParses(columns, keys, rowValues);
    if |columns| == 1 && |keys| != 1 && exists k :: k in keys && Null in k {
      var k :| k in keys && Null in k;
      var row: TableRow := c => Null;
      KeyQuerySelects(engine, row, columns, keys, rowValues);
      FoundAloneIs(engine, row, columns, keys, rowValues);
      NullKeyMatches(engine, columns, k, row);
      forall other | other in keys
        ensures !Matches(engine, columns, other, row)
      {
        NullInRow(engine, columns, other, row, 0);
      }
      assert Selects(engine, KeyQuery(columns, keys, rowValues), row) != FoundAlone(engine, row, columns, keys, rowValues);
    } else {
      forall row: TableRow
        ensures Selects(engine, KeyQuery(columns, keys, rowValues), row) <==> FoundAlone(engine, row, columns, keys, rowValues)
      {
        KeyQuerySelects(engine, row, columns, keys, rowValues);
        FoundAloneIs(engine, row, columns, keys, rowValues);
        if |columns| == 1 && |keys| != 1 {
          forall k | k in keys
            ensures MatchesNulls(engine, columns, k, row) == Matches(engine, columns, k, row)
          {
            WithoutNulls(engine, columns, k, row);
          }
        }
      }
    }
  }

  lemma WithoutNulls(engine: Engine, columns: seq<Characters>, key: seq<Value>, row: TableRow)
    requires |key| == |columns| && Null !in key
    ensures MatchesNulls(engine, columns, key, row) == Matches(engine, columns, key, row)
  {
    hide CompareValues;
    assert forall i :: 0 <= i < |key| ==> key[i] in key;
  }

  lemma NullKeyMatches(engine: Engine, columns: seq<Characters>, key: seq<Value>, row: TableRow)
    requires |columns| == 1 && |key| == 1 && Null in key && row(Flat(columns[0])) == Null
    ensures MatchesNulls(engine, columns, key, row)
  {
  }

  /** A key with a null in it finds its row with AND and OR and never with IN. */
  lemma NullKeysDiffer(engine: Engine)
    ensures var columns, keys, row := [["a"], ["b"]], [[Null, Null]], (c: string) => Null;
            && KeysFit(columns, keys)
            && Selects(engine, KeyQuery(columns, keys, false), row)
            && !Selects(engine, KeyQuery(columns, keys, true), row)
  {
    hide Selects;
    var columns, keys: seq<seq<Value>>, row := [["a"], ["b"]], [[Null, Null]], (c: string) => Null;
    KeyQuerySelects(engine, row, columns, keys, false);
    KeyQuerySelects(engine, row, columns, keys, true);
    assert keys[0] in keys && MatchesNulls(engine, columns, keys[0], row);
    assert forall k :: k in keys ==> CompareValues(engine, Eq, row(Flat(columns[0])), Stored(k[0])) == Unknown;
  }
}

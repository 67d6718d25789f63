/** SQL text under construction: SQLExpression and String.quote (SQLContext.swift). */
module SqlExpression {
  import opened Wrappers

  datatype Value = Long(int) | Real(real) | Text(string) | Blob(seq<bv8>) | Null

  // ---------- quoting as SQL reads it ----------

  function Doubled(s: string, mark: char): string {
    if s == [] then []
    else if s[0] == mark then [mark, mark] + Doubled(s[1..], mark)
    else [s[0]] + Doubled(s[1..], mark)
  }

  /** Where C takes a text to end. */
  const NUL := '\0'

  /** Reads a quoted string from behind its opening mark: a doubled mark stands for a mark, a single
      one ends the string. Returns what was quoted and what follows it. */
  function Unquote(t: string, mark: char): Option<(string, string)> {
    if t == [] || t[0] == NUL then None
    else if t[0] != mark then PutBack(t[0], Unquote(t[1..], mark))
    else if |t| > 1 && t[1] == mark then PutBack(mark, Unquote(t[2..], mark))
    else Some(([], t[1..]))
  }

  function PutBack(c: char, o: Option<(string, string)>): Option<(string, string)> {
    if o.None? then None else Some(([c] + o.value.0, o.value.1))
  }

  /** A string with its marks doubled is read back, together with all the text behind it, unless that
      text starts with another mark. */
  lemma {:induction false} UnquoteOfDoubled(s: string, mark: char, rest: string)
    requires NUL !in s && mark != NUL && (rest == [] || rest[0] != mark)
    ensures Unquote(Doubled(s, mark) + [mark] + rest, mark) == Some((s, rest))
  {
    var t := Doubled(s, mark) + [mark] + rest;
    if s == [] {
      assert t == [mark] + rest;
    } else {
      UnquoteOfDoubled(s[1..], mark, rest);
      assert s == [s[0]] + s[1..];
      var u := Doubled(s[1..], mark) + [mark] + rest;
      if s[0] == mark {
        assert t[2..] == u;
      } else {
        assert t[1..] == u;
      }
    }
  }

  /** Nothing but a string with its marks doubled is read as that string. */
  lemma {:induction false} DoubledOfUnquote(t: string, mark: char)
    requires Unquote(t, mark).Some?
    ensures var (s, rest) := Unquote(t, mark).value;
            t == Doubled(s, mark) + [mark] + rest && NUL !in s && mark != NUL
  {
    var (s, rest) := Unquote(t, mark).value;
    if t[0] != mark {
      DoubledOfUnquote(t[1..], mark);
      assert s[1..] == Unquote(t[1..], mark).value.0;
      assert t == [t[0]] + t[1..];
    } else if |t| > 1 && t[1] == mark {
      DoubledOfUnquote(t[2..], mark);
      assert s[1..] == Unquote(t[2..], mark).value.0;
      assert t == [mark, mark] + t[2..];
    }
  }

  // ---------- quoting as the code does it ----------

  /** A string as its characters: what a user perceives as one, a scalar with the combining scalars
      behind it, is one element. The code compares and copies these, SQL reads single scalars. */
  type Characters = seq<string>

  function Flat(name: Characters): string {
    if name == [] then [] else name[0] + Flat(name[1..])
  }

  function MarksDoubled(name: Characters, mark: char): string {
    if name == [] then [] else (if name[0] == [mark] then [mark, mark] else name[0]) + MarksDoubled(name[1..], mark)
  }

  /** The string between marks, with every character that is the mark doubled. */
  function Quoted(name: Characters, mark: char): string {
    [mark] + MarksDoubled(name, mark) + [mark]
  }

  /** The mark is nowhere a part of a longer character. */
  predicate Sound(name: Characters, mark: char) {
    forall c :: c in name && mark in c ==> c == [mark]
  }

  /** SQL reads the quoted name as it was meant: it has no NUL, and the mark is nowhere a part of a
      longer character. */
  predicate Legible(name: Characters, mark: char) {
    Sound(name, mark) && NUL !in Flat(name) && mark != NUL
  }

  method Quote(name: Characters, mark: char) returns (quoted: string)
    ensures quoted == Quoted(name, mark)
  {
    quoted := [];
    quoted := quoted + [mark];
    for i := 0 to |name|
      invariant quoted + MarksDoubled(name[i..], mark) == [mark] + MarksDoubled(name, mark)
    {
      ghost var before := quoted;
      assert name[i..][0] == name[i] && name[i..][1..] == name[i + 1..];
      quoted := quoted + name[i];
      if name[i] == [mark] {
        quoted := quoted + name[i];
        assert [mark] + [mark] == [mark, mark];
      }
      assert quoted + MarksDoubled(name[i + 1..], mark) == before + MarksDoubled(name[i..], mark);
    }
    quoted := quoted + [mark];
  }

  // ---------- when the two agree ----------

  function Marks(s: string, mark: char): nat {
    if s == [] then 0 else (if s[0] == mark then 1 else 0) + Marks(s[1..], mark)
  }

  /** The string without its marks. */
  function Others(s: string, mark: char): string {
    if s == [] then [] else (if s[0] == mark then [] else [s[0]]) + Others(s[1..], mark)
  }

  /** The number of marks inside longer characters. */
  function Loose(name: Characters, mark: char): nat {
    if name == [] then 0 else (if name[0] == [mark] then 0 else Marks(name[0], mark)) + Loose(name[1..], mark)
  }

  lemma OfFirst(s: string, mark: char)
    requires s != []
    ensures Marks(s, mark) == (if s[0] == mark then 1 else 0) + Marks(s[1..], mark)
    ensures Others(s, mark) == (if s[0] == mark then [] else [s[0]]) + Others(s[1..], mark)
    ensures Doubled(s, mark) == (if s[0] == mark then [mark, mark] else [s[0]]) + Doubled(s[1..], mark)
  {
  }

  lemma OfNone(mark: char)
    ensures Marks([], mark) == 0 && Others([], mark) == [] && Doubled([], mark) == []
  {
  }

  lemma {:induction false} OfAppend(a: string, b: string, mark: char)
    ensures Marks(a + b, mark) == Marks(a, mark) + Marks(b, mark)
    ensures Others(a + b, mark) == Others(a, mark) + Others(b, mark)
    ensures Doubled(a + b, mark) == Doubled(a, mark) + Doubled(b, mark)
  {
    hide Marks, Others, Doubled;
    if a == [] {
      OfNone(mark);
      assert a + b == b;
    } else {
      assert (a + b)[0] == a[0] && (a + b)[1..] == a[1..] + b;
      OfFirst(a, mark);
      OfFirst(a + b, mark);
      OfAppend(a[1..], b, mark);
      Associate(if a[0] == mark then [] else [a[0]], Others(a[1..], mark), Others(b, mark));
      Associate(if a[0] == mark then [mark, mark] else [a[0]], Doubled(a[1..], mark), Doubled(b, mark));
    }
  }

  lemma {:induction false} MarksIn(s: string, mark: char)
    ensures Marks(s, mark) == 0 <==> mark !in s
    ensures Marks(s, mark) == 0 ==> Doubled(s, mark) == s
    ensures |Doubled(s, mark)| == |s| + Marks(s, mark)
    ensures Others(Doubled(s, mark), mark) == Others(s, mark)
    ensures Others(s, mark) == [] ==> forall c :: c in s ==> c == mark
  {
    if s != [] {
      assert s == [s[0]] + s[1..];
      MarksIn(s[1..], mark);
      if s[0] == mark {
        OfAppend([mark, mark], Doubled(s[1..], mark), mark);
      } else {
        OfAppend([s[0]], Doubled(s[1..], mark), mark);
      }
    }
  }

  lemma {:induction false} LooseMarks(name: Characters, mark: char)
    ensures Sound(name, mark) <==> Loose(name, mark) == 0
    ensures |Doubled(Flat(name), mark)| == |MarksDoubled(name, mark)| + Loose(name, mark)
    ensures Others(MarksDoubled(name, mark), mark) == Others(Flat(name), mark)
    ensures Sound(name, mark) ==> MarksDoubled(name, mark) == Doubled(Flat(name), mark)
  {
    if name != [] {
      var c, rest := name[0], name[1..];
      assert name == [c] + rest;
      LooseMarks(rest, mark);
      MarksIn(c, mark);
      OfAppend(c, Flat(rest), mark);
      OfAppend(if c == [mark] then [mark, mark] else c, MarksDoubled(rest, mark), mark);
    }
  }

  lemma ReadBackIsSound(name: Characters, mark: char, rest: string)
    requires rest == [] || rest[0] != mark
    requires var read := Unquote(MarksDoubled(name, mark) + [mark] + rest, mark);
             read.Some? && read.value.0 == Flat(name)
    ensures Sound(name, mark)
  {
    var short, long := MarksDoubled(name, mark), Doubled(Flat(name), mark);
    var t := short + [mark] + rest;
    LooseMarks(name, mark);
    DoubledOfUnquote(t, mark);
    var more := Unquote(t, mark).value.1;
    var gap := long[|short|..];
    assert short == t[..|short|] == long[..|short|];
    assert long == short + gap;
    OfAppend(short, gap, mark);
    MarksIn(Flat(name), mark);
    MarksIn(gap, mark);
    MarkBehindGap(short, gap, mark, rest, more);
  }

  lemma MarkBehindGap(short: string, gap: string, mark: char, rest: string, more: string)
    requires forall c :: c in gap ==> c == mark
    requires short + [mark] + rest == short + gap + [mark] + more
    ensures gap != [] ==> rest != [] && rest[0] == mark
  {
    var t := short + [mark] + rest;
    assert t[|short|..] == [mark] + rest == gap + [mark] + more;
    if gap != [] {
      assert |gap| > 1 ==> gap[1] in gap;
      assert (gap + [mark])[1] == mark;
      assert ([mark] + rest)[1] == (gap + [mark] + more)[1];
    }
  }

  /** A quoted name is read back, whatever text follows it, if and only if no character of it
      contains the mark and more, and none is NUL; in no other case is even the name read that was
      meant. */
  lemma UnquoteOfQuoted(name: Characters, mark: char, rest: string)
    requires rest == [] || rest[0] != mark
    ensures Unquote(MarksDoubled(name, mark) + [mark] + rest, mark) == Some((Flat(name), rest)) <==> Legible(name, mark)
    ensures var read := Unquote(MarksDoubled(name, mark) + [mark] + rest, mark);
            read.Some? && read.value.0 == Flat(name) ==> Legible(name, mark)
  {
    var t := MarksDoubled(name, mark) + [mark] + rest;
    var read := Unquote(t, mark);
    if Legible(name, mark) {
      LooseMarks(name, mark);
      UnquoteOfDoubled(Flat(name), mark, rest);
    }
    if read.Some? && read.value.0 == Flat(name) {
      ReadBackIsSound(name, mark, rest);
      DoubledOfUnquote(t, mark);
    }
  }

  lemma {:induction false} DoubledIsInjective(s: string, t: string, mark: char)
    requires Doubled(s, mark) == Doubled(t, mark)
    ensures s == t
  {
    if s == [] || t == [] {
      assert |Doubled(s, mark)| == |Doubled(t, mark)|;
    } else {
      assert s[0] == Doubled(s, mark)[0] == Doubled(t, mark)[0] == t[0];
      var n := if s[0] == mark then 2 else 1;
      assert Doubled(s, mark)[n..] == Doubled(s[1..], mark) && Doubled(t, mark)[n..] == Doubled(t[1..], mark);
      DoubledIsInjective(s[1..], t[1..], mark);
      assert s == [s[0]] + s[1..] && t == [t[0]] + t[1..];
    }
  }

  /** Different names have different quotations as texts, even with NUL in them. */
  lemma QuotedIsInjective(s: Characters, t: Characters, mark: char)
    requires Sound(s, mark) && Sound(t, mark) && Quoted(s, mark) == Quoted(t, mark)
    ensures Flat(s) == Flat(t)
  {
    LooseMarks(s, mark);
    LooseMarks(t, mark);
    var q, r := MarksDoubled(s, mark), MarksDoubled(t, mark);
    assert Quoted(s, mark)[1..][..|q|] == q && |Quoted(s, mark)| == |q| + 2;
    assert Quoted(t, mark)[1..][..|r|] == r && |Quoted(t, mark)| == |r| + 2;
    DoubledIsInjective(Flat(s), Flat(t), mark);
  }

  /** A mark with an accent on it is one character, and not the mark: it is not doubled, and ends the
      name where SQL reads it. */
  lemma AccentedMark()
    ensures Quoted(["a", "\"\U{0301}", "b"], '"') == "\"a\"\U{0301}b\""
    ensures Unquote("a\"\U{0301}b\"", '"') == Some(("a", "\U{0301}b\""))
    ensures !Sound(["a", "\"\U{0301}", "b"], '"')
  {
    var name := ["a", "\"\U{0301}", "b"];
    assert name[1..] == ["\"\U{0301}", "b"] && name[1..][1..] == ["b"];
    assert MarksDoubled(["b"], '"') == "b";
    assert MarksDoubled(name[1..], '"') == "\"\U{0301}" + "b" == "\"\U{0301}b";
    assert MarksDoubled(name, '"') == "a" + "\"\U{0301}b" == "a\"\U{0301}b";
    assert ['"'] + "a\"\U{0301}b" + ['"'] == "\"a\"\U{0301}b\"";
    var t := "\"\U{0301}b\"";
    assert "a\"\U{0301}b\""[1..] == t && t[1..] == "\U{0301}b\"";
    assert Unquote(t, '"') == Some(([], t[1..]));
    assert ['a'] + [] == "a";
    assert name[1] in name && '"' in name[1];
  }

  /** A name with a NUL in it ends there for SQL, with its quotation open. */
  lemma NameWithNul()
    ensures Quoted(["a", "\0", "b"], '"') == "\"a\0b\""
    ensures Unquote("a\0b\"", '"') == None
    ensures Sound(["a", "\0", "b"], '"')
  {
    var name := ["a", "\0", "b"];
    assert name[1..] == ["\0", "b"] && name[1..][1..] == ["b"] && ["b"][1..] == [];
    assert MarksDoubled(["b"], '"') == "b" + [] == "b";
    assert MarksDoubled(["\0", "b"], '"') == "\0" + "b" == "\0b";
    assert MarksDoubled(name, '"') == "a" + "\0b" == "a\0b";
    assert "a\0b\""[1..] == "\0b\"";
    assert Unquote("\0b\"", '"') == None;
  }

  // ---------- expressions ----------

  /** A piece of SQL text and the value that it binds, if any. */
  datatype Part = Part(text: string, binding: Option<Value>)

  /** The text of an expression: the pieces joined. */
  function Sql(parts: seq<Part>): string {
    if parts == [] then [] else parts[0].text + Sql(parts[1..])
  }

  /** The values of an expression: those that the pieces carry, in order. */
  function Bindings(parts: seq<Part>): seq<Value> {
    if parts == [] then []
    else (if parts[0].binding.Some? then [parts[0].binding.value] else []) + Bindings(parts[1..])
  }

  lemma {:induction false} SqlOfAppend(a: seq<Part>, b: seq<Part>)
    ensures Sql(a + b) == Sql(a) + Sql(b)
  {
    if a == [] {
      assert a + b == b;
    } else {
      SqlOfAppend(a[1..], b);
      Associate(a[0].text, Sql(a[1..]), Sql(b));
      assert (a + b)[0] == a[0] && (a + b)[1..] == a[1..] + b;
    }
  }

  lemma {:induction false} BindingsOfAppend(a: seq<Part>, b: seq<Part>)
    ensures Bindings(a + b) == Bindings(a) + Bindings(b)
  {
    if a == [] {
      assert a + b == b;
    } else {
      BindingsOfAppend(a[1..], b);
      Associate(if a[0].binding.Some? then [a[0].binding.value] else [], Bindings(a[1..]), Bindings(b));
      assert (a + b)[0] == a[0] && (a + b)[1..] == a[1..] + b;
    }
  }

  function Bound(bindings: seq<Value>): seq<Part> {
    if bindings == [] then [] else [Part("", Some(bindings[0]))] + Bound(bindings[1..])
  }

  class SQLExpression {
    var parts: seq<Part>

    constructor (sql: string, bindings: seq<Value>)
      ensures parts == [Part(sql, None)] + Bound(bindings)
    {
      new;
      parts := [Part(sql, None)];
      for i := 0 to |bindings|
        invariant parts + Bound(bindings[i..]) == [Part(sql, None)] + Bound(bindings)
      {
        assert bindings[i..][1..] == bindings[i + 1..];
        parts := parts + [Part("", Some(bindings[i]))];
      }
    }

    method Append(sql: string, binding: Option<Value>)
      modifies this
      ensures parts == old(parts) + [Part(sql, binding)]
    {
      parts := parts + [Part(sql, binding)];
    }

    method AppendSql(sql: string)
      modifies this
      ensures parts == old(parts) + [Part(sql, None)]
    {
      Append(sql, None);
    }
  }
}

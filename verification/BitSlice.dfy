/** Bit-sliced code: a straight-line program of bitwise operations on words runs the same program on
    each bit position by itself. A program is written once over any Logic, and a map between two
    logics that respects the four operations carries a run over one to the run over the other. */
module BitSlice {
  import opened Bits

  datatype Logic<!T> = Logic(xor: (T, T) -> T, and: (T, T) -> T, or: (T, T) -> T, not: T -> T)

  function Words(): Logic<bv32> {
    Logic((x, y) => Xor(x, y), (x, y) => And(x, y), (x, y) => Or(x, y), x => Not(x))
  }

  function Bools(): Logic<bool> {
    Logic((x, y) => x != y, (x, y) => x && y, (x, y) => x || y, x => !x)
  }

  ghost predicate Respects<A(!new), B>(l: Logic<A>, m: Logic<B>, h: A -> B) {
    && (forall x, y :: h(l.xor(x, y)) == m.xor(h(x), h(y)))
    && (forall x, y :: h(l.and(x, y)) == m.and(h(x), h(y)))
    && (forall x, y :: h(l.or(x, y)) == m.or(h(x), h(y)))
    && (forall x :: h(l.not(x)) == m.not(h(x)))
  }

  /** Four words side by side, or four bits of one position. */
  datatype Quad<T> = Quad(a: T, b: T, c: T, d: T)

  function Map<A, B>(h: A -> B, x: Quad<A>): Quad<B> {
    Quad(h(x.a), h(x.b), h(x.c), h(x.d))
  }

  // ---------- one bit position of a word ----------

  function Bit(x: bv32, i: bv32): bool
    requires i < 32
  {
    (x >> i) & 1 == 1
  }

  function Lane(i: bv32): bv32 -> bool
    requires i < 32
  {
    x => Bit(x, i)
  }

  lemma BitOfXor(x: bv32, y: bv32, i: bv32)
    requires i < 32
    ensures Bit(x ^ y, i) == (Bit(x, i) != Bit(y, i))
  {
  }

  lemma LaneXor(i: bv32)
    requires i < 32
    ensures forall x, y :: Lane(i)(Words().xor(x, y)) == Bools().xor(Lane(i)(x), Lane(i)(y))
  {
    hide Bit, Xor, And, Or, Not;
    forall x, y
      ensures Lane(i)(Words().xor(x, y)) == Bools().xor(Lane(i)(x), Lane(i)(y))
    {
      BitOfXor(x, y, i);
      XorIs(x, y);
    }
  }

  lemma BitOfAnd(x: bv32, y: bv32, i: bv32)
    requires i < 32
    ensures Bit(x & y, i) == (Bit(x, i) && Bit(y, i))
  {
  }

  lemma LaneAnd(i: bv32)
    requires i < 32
    ensures forall x, y :: Lane(i)(Words().and(x, y)) == Bools().and(Lane(i)(x), Lane(i)(y))
  {
    hide Bit, Xor, And, Or, Not;
    forall x, y
      ensures Lane(i)(Words().and(x, y)) == Bools().and(Lane(i)(x), Lane(i)(y))
    {
      BitOfAnd(x, y, i);
      AndIs(x, y);
    }
  }

  lemma BitOfOr(x: bv32, y: bv32, i: bv32)
    requires i < 32
    ensures Bit(x | y, i) == (Bit(x, i) || Bit(y, i))
  {
  }

  lemma LaneOr(i: bv32)
    requires i < 32
    ensures forall x, y :: Lane(i)(Words().or(x, y)) == Bools().or(Lane(i)(x), Lane(i)(y))
  {
    hide Bit, Xor, And, Or, Not;
    forall x, y
      ensures Lane(i)(Words().or(x, y)) == Bools().or(Lane(i)(x), Lane(i)(y))
    {
      BitOfOr(x, y, i);
      OrIs(x, y);
    }
  }

  lemma BitOfNot(x: bv32, i: bv32)
    requires i < 32
    ensures Bit(!x, i) == !Bit(x, i)
  {
  }

  lemma LaneNot(i: bv32)
    requires i < 32
    ensures forall x :: Lane(i)(Words().not(x)) == Bools().not(Lane(i)(x))
  {
    hide Bit, Xor, And, Or, Not;
    forall x
      ensures Lane(i)(Words().not(x)) == Bools().not(Lane(i)(x))
    {
      BitOfNot(x, i);
      NotIs(x);
    }
  }

  lemma LaneRespects(i: bv32)
    requires i < 32
    ensures Respects(Words(), Bools(), Lane(i))
  {
    hide Bit, Xor, And, Or, Not;
    LaneXor(i);
    LaneAnd(i);
    LaneOr(i);
    LaneNot(i);
  }

  ghost predicate SameBit(x: bv32, y: bv32, i: bv32)
    requires i < 32
  {
    Bit(x, i) == Bit(y, i)
  }

  /** Words that agree at every position are equal. */
  lemma SameBits(x: bv32, y: bv32)
    requires forall i: bv32 | i < 32 :: SameBit(x, y, i)
    ensures x == y
  {
    assert SameBit(x, y, 0) && SameBit(x, y, 1) && SameBit(x, y, 2) && SameBit(x, y, 3);
    assert SameBit(x, y, 4) && SameBit(x, y, 5) && SameBit(x, y, 6) && SameBit(x, y, 7);
    assert SameBit(x, y, 8) && SameBit(x, y, 9) && SameBit(x, y, 10) && SameBit(x, y, 11);
    assert SameBit(x, y, 12) && SameBit(x, y, 13) && SameBit(x, y, 14) && SameBit(x, y, 15);
    assert SameBit(x, y, 16) && SameBit(x, y, 17) && SameBit(x, y, 18) && SameBit(x, y, 19);
    assert SameBit(x, y, 20) && SameBit(x, y, 21) && SameBit(x, y, 22) && SameBit(x, y, 23);
    assert SameBit(x, y, 24) && SameBit(x, y, 25) && SameBit(x, y, 26) && SameBit(x, y, 27);
    assert SameBit(x, y, 28) && SameBit(x, y, 29) && SameBit(x, y, 30) && SameBit(x, y, 31);
  }

  ghost predicate SameLane(x: Quad<bv32>, y: Quad<bv32>, i: bv32)
    requires i < 32
  {
    Map(Lane(i), x) == Map(Lane(i), y)
  }

  lemma SameLanes(x: Quad<bv32>, y: Quad<bv32>)
    requires forall i: bv32 | i < 32 :: SameLane(x, y, i)
    ensures x == y
  {
    hide Bit;
    forall i: bv32 | i < 32
      ensures SameBit(x.a, y.a, i) && SameBit(x.b, y.b, i) && SameBit(x.c, y.c, i) && SameBit(x.d, y.d, i)
    {
      assert SameLane(x, y, i);
    }
    SameBits(x.a, y.a);
    SameBits(x.b, y.b);
    SameBits(x.c, y.c);
    SameBits(x.d, y.d);
  }
}

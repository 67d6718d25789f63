/** The bitwise operations of 32-bit words under names, so that proofs can hide what they do to the
    bits and use only the laws stated here. */
module Bits {

  function Xor(x: bv32, y: bv32): bv32 { x ^ y }

  function And(x: bv32, y: bv32): bv32 { x & y }

  function Or(x: bv32, y: bv32): bv32 { x | y }

  function Not(x: bv32): bv32 { !x }

  function Add(x: bv32, y: bv32): bv32 { x + y }

  function Sub(x: bv32, y: bv32): bv32 { x - y }

  /** Rotations; the counts are words, so that nothing here leaves bit-vector arithmetic. */
  function Rol(x: bv32, n: bv32): bv32
    requires 0 < n < 32
  {
    (x << n) | (x >> (32 - n))
  }

  function Ror(x: bv32, n: bv32): bv32
    requires 0 < n < 32
  {
    (x >> n) | (x << (32 - n))
  }

  function Shl(x: bv32, n: bv32): bv32
    requires n < 32
  {
    x << n
  }

  function Shr(x: bv32, n: bv32): bv32
    requires n < 32
  {
    x >> n
  }

  lemma XorIs(x: bv32, y: bv32)
    ensures Xor(x, y) == x ^ y
  {
  }

  lemma AndIs(x: bv32, y: bv32)
    ensures And(x, y) == x & y
  {
  }

  lemma OrIs(x: bv32, y: bv32)
    ensures Or(x, y) == x | y
  {
  }

  lemma NotIs(x: bv32)
    ensures Not(x) == !x
  {
  }

  lemma XorCommutes(x: bv32, y: bv32)
    ensures Xor(x, y) == Xor(y, x)
  {
    hide Xor;
    XorIs(x, y);
    XorIs(y, x);
  }

  lemma XorAssociates(x: bv32, y: bv32, z: bv32)
    ensures Xor(Xor(x, y), z) == Xor(x, Xor(y, z))
  {
    hide Xor;
    XorIs(x, y);
    XorIs(y, z);
    XorIs(x ^ y, z);
    XorIs(x, y ^ z);
  }

  lemma XorTwice(x: bv32, m: bv32)
    ensures Xor(Xor(x, m), m) == x
  {
    hide Xor;
    XorIs(x, m);
    XorIs(x ^ m, m);
  }

  lemma XorBoth(x: bv32, y: bv32, m: bv32)
    ensures Xor(Xor(x, m), Xor(y, m)) == Xor(x, y)
  {
    hide Xor;
    XorIs(x, m);
    XorIs(y, m);
    XorIs(x ^ m, y ^ m);
    XorIs(x, y);
  }

  lemma XorExchanges(a: bv32, b: bv32, c: bv32, d: bv32)
    ensures Xor(Xor(a, b), Xor(c, d)) == Xor(Xor(a, c), Xor(b, d))
  {
    hide Xor;
    XorAssociates(a, b, Xor(c, d));
    XorAssociates(b, c, d);
    XorCommutes(b, c);
    XorAssociates(c, b, d);
    XorAssociates(a, c, Xor(b, d));
  }

  /** Two masks come off together, or one after the other in the order they went on. */
  lemma XorUndoesTwo(x: bv32, p: bv32, q: bv32)
    ensures Xor(Xor(Xor(x, p), q), Xor(p, q)) == x
    ensures Xor(Xor(Xor(Xor(x, p), q), p), q) == x
  {
    hide Xor;
    XorAssociates(x, p, q);
    XorTwice(x, Xor(p, q));
    XorAssociates(Xor(Xor(x, p), q), p, q);
  }

  /** Rotations by the same count in either direction undo each other; shown for the counts that are
      used. */
  lemma RotateBack(x: bv32, n: bv32)
    requires n == 1 || n == 2 || n == 3 || n == 5 || n == 7 || n == 13 || n == 22
    ensures Ror(Rol(x, n), n) == x && Rol(Ror(x, n), n) == x
  {
    hide Ror, Rol;
    if n == 1 {
      RotateBack1(x);
    } else if n == 2 {
      RotateBack2(x);
    } else if n == 3 {
      RotateBack3(x);
    } else if n == 5 {
      RotateBack5(x);
    } else if n == 7 {
      RotateBack7(x);
    } else if n == 13 {
      RotateBack13(x);
    } else {
      RotateBack22(x);
    }
  }

  lemma RotateBack1(x: bv32)
    ensures Ror(Rol(x, 1), 1) == x && Rol(Ror(x, 1), 1) == x
  {
  }

  lemma RotateBack2(x: bv32)
    ensures Ror(Rol(x, 2), 2) == x && Rol(Ror(x, 2), 2) == x
  {
  }

  lemma RotateBack3(x: bv32)
    ensures Ror(Rol(x, 3), 3) == x && Rol(Ror(x, 3), 3) == x
  {
  }

  lemma RotateBack5(x: bv32)
    ensures Ror(Rol(x, 5), 5) == x && Rol(Ror(x, 5), 5) == x
  {
  }

  lemma RotateBack7(x: bv32)
    ensures Ror(Rol(x, 7), 7) == x && Rol(Ror(x, 7), 7) == x
  {
  }

  lemma RotateBack13(x: bv32)
    ensures Ror(Rol(x, 13), 13) == x && Rol(Ror(x, 13), 13) == x
  {
  }

  lemma RotateBack22(x: bv32)
    ensures Ror(Rol(x, 22), 22) == x && Rol(Ror(x, 22), 22) == x
  {
  }

  /** Shifting right distributes over exclusive or; shown for the counts that are used. */
  lemma ShrOfXor(x: bv32, y: bv32, n: bv32)
    requires n == 0 || n == 2 || n == 4 || n == 8 || n == 16
    ensures Shr(Xor(x, y), n) == Xor(Shr(x, n), Shr(y, n))
  {
    hide Xor, Shr;
    if n == 0 {
      ShrOfXor0(x, y);
    } else if n == 2 {
      ShrOfXor2(x, y);
    } else if n == 4 {
      ShrOfXor4(x, y);
    } else if n == 8 {
      ShrOfXor8(x, y);
    } else {
      ShrOfXor16(x, y);
    }
  }

  lemma ShrOfXor0(x: bv32, y: bv32)
    ensures Shr(Xor(x, y), 0) == Xor(Shr(x, 0), Shr(y, 0))
  {
  }

  lemma ShrOfXor2(x: bv32, y: bv32)
    ensures Shr(Xor(x, y), 2) == Xor(Shr(x, 2), Shr(y, 2))
  {
  }

  lemma ShrOfXor4(x: bv32, y: bv32)
    ensures Shr(Xor(x, y), 4) == Xor(Shr(x, 4), Shr(y, 4))
  {
  }

  lemma ShrOfXor8(x: bv32, y: bv32)
    ensures Shr(Xor(x, y), 8) == Xor(Shr(x, 8), Shr(y, 8))
  {
  }

  lemma ShrOfXor16(x: bv32, y: bv32)
    ensures Shr(Xor(x, y), 16) == Xor(Shr(x, 16), Shr(y, 16))
  {
  }

  /** Bits that fit under the mask come back from a shift up and down. */
  lemma ShrOfShl(x: bv32, m: bv32, n: bv32)
    requires (n, m) in {(0, 0xaaaaaaaa), (2, 0x33333333), (4, 0x0f0f0f0f), (8, 0x00ff00ff), (16, 0x0000ffff)}
    ensures Shr(Shl(And(x, m), n), n) == And(x, m)
  {
    hide And, Shl, Shr;
    if n == 0 {
      ShrOfShl0(x);
    } else if n == 2 {
      ShrOfShl2(x);
    } else if n == 4 {
      ShrOfShl4(x);
    } else if n == 8 {
      ShrOfShl8(x);
    } else {
      ShrOfShl16(x);
    }
  }

  lemma ShrOfShl0(x: bv32)
    ensures Shr(Shl(And(x, 0xaaaaaaaa), 0), 0) == And(x, 0xaaaaaaaa)
  {
  }

  lemma ShrOfShl2(x: bv32)
    ensures Shr(Shl(And(x, 0x33333333), 2), 2) == And(x, 0x33333333)
  {
  }

  lemma ShrOfShl4(x: bv32)
    ensures Shr(Shl(And(x, 0x0f0f0f0f), 4), 4) == And(x, 0x0f0f0f0f)
  {
  }

  lemma ShrOfShl8(x: bv32)
    ensures Shr(Shl(And(x, 0x00ff00ff), 8), 8) == And(x, 0x00ff00ff)
  {
  }

  lemma ShrOfShl16(x: bv32)
    ensures Shr(Shl(And(x, 0x0000ffff), 16), 16) == And(x, 0x0000ffff)
  {
  }

  lemma RotationsByEightAreLinear(x: bv32, y: bv32)
    ensures Rol(Xor(x, y), 8) == Xor(Rol(x, 8), Rol(y, 8))
    ensures Ror(Xor(x, y), 8) == Xor(Ror(x, 8), Ror(y, 8))
  {
  }
}

/** The Serpent block cipher (ciphers/serpent.c): linear transformation, block functions and key schedule. */
module Serpent {
  import opened Bits
  import opened BitSlice
  import opened SerpentBoxes
  import W = Words

  type State = Quad<bv32>

  // ---------- linear transformation ----------

  function Lt(x: State): State {
    var a := Rol(x.a, 13);
    var c := Rol(x.c, 3);
    var d := Rol(Xor(Xor(x.d, c), Shl(a, 3)), 7);
    var b := Rol(Xor(Xor(x.b, a), c), 1);
    var a := Rol(Xor(Xor(a, b), d), 5);
    var c := Rol(Xor(Xor(c, d), Shl(b, 7)), 22);
    Quad(a, b, c, d)
  }

  function InvLt(x: State): State {
    var c := Ror(x.c, 22);
    var a := Ror(x.a, 5);
    var c := Xor(c, Xor(x.d, Shl(x.b, 7)));
    var a := Xor(a, Xor(x.b, x.d));
    var b := Ror(x.b, 1);
    var d := Xor(Xor(Ror(x.d, 7), c), Shl(a, 3));
    var b := Xor(b, Xor(a, c));
    var c := Ror(c, 3);
    var a := Ror(a, 13);
    Quad(a, b, c, d)
  }

  lemma InvLtOfLt(x: State)
    ensures InvLt(Lt(x)) == x
  {
    hide Xor, Rol, Ror, Shl;
    var a, c := Rol(x.a, 13), Rol(x.c, 3);
    var y := Lt(x);
    RotateBack(x.a, 13);
    RotateBack(x.c, 3);
    RotateBack(Xor(Xor(x.d, c), Shl(a, 3)), 7);
    RotateBack(Xor(Xor(x.b, a), c), 1);
    RotateBack(Xor(Xor(a, y.b), y.d), 5);
    RotateBack(Xor(Xor(c, y.d), Shl(y.b, 7)), 22);
    XorUndoesTwo(c, y.d, Shl(y.b, 7));
    XorUndoesTwo(a, y.b, y.d);
    XorUndoesTwo(x.d, c, Shl(a, 3));
    XorUndoesTwo(x.b, a, c);
  }

  // ---------- rounds in the order of the standard ----------

  const KEY_WORDS: nat := 4 * 33

  function KeyXor(k: seq<bv32>, r: nat, x: State): State
    requires 4 * r + 4 <= |k|
  {
    Quad(Xor(x.a, k[4 * r]), Xor(x.b, k[4 * r + 1]), Xor(x.c, k[4 * r + 2]), Xor(x.d, k[4 * r + 3]))
  }

  lemma KeyXorTwice(k: seq<bv32>, r: nat, x: State)
    requires 4 * r + 4 <= |k|
    ensures KeyXor(k, r, KeyXor(k, r, x)) == x
  {
    hide Xor;
    XorTwice(x.a, k[4 * r]);
    XorTwice(x.b, k[4 * r + 1]);
    XorTwice(x.c, k[4 * r + 2]);
    XorTwice(x.d, k[4 * r + 3]);
  }

  /** Key mixing and S-box of round r. */
  function Substitute(k: seq<bv32>, r: nat, x: State): State
    requires 4 * r + 4 <= |k|
  {
    Box(Words(), r % 8, KeyXor(k, r, x))
  }

  /** The state entering round n. */
  function EncRounds(k: seq<bv32>, x: State, n: nat): State
    requires 4 * n <= |k|
  {
    if n == 0 then x else Lt(Substitute(k, n - 1, EncRounds(k, x, n - 1)))
  }

  /** Thirty-two rounds; the last one has a second key mixing in place of the linear transformation. */
  function Encrypt(k: seq<bv32>, x: State): State
    requires |k| >= KEY_WORDS
  {
    KeyXor(k, 32, Substitute(k, 31, EncRounds(k, x, 31)))
  }

  function Unsubstitute(k: seq<bv32>, r: nat, y: State): State
    requires 4 * r + 4 <= |k|
  {
    KeyXor(k, r, InvBox(Words(), r % 8, y))
  }

  /** The state after n inverse rounds. */
  function DecRounds(k: seq<bv32>, y: State, n: nat): State
    requires |k| >= KEY_WORDS && n <= 32
  {
    if n == 0 then KeyXor(k, 32, y)
    else if n == 1 then Unsubstitute(k, 31, DecRounds(k, y, 0))
    else Unsubstitute(k, 32 - n, InvLt(DecRounds(k, y, n - 1)))
  }

  lemma UnsubstituteOfSubstitute(k: seq<bv32>, r: nat, x: State)
    requires 4 * r + 4 <= |k|
    ensures Unsubstitute(k, r, Substitute(k, r, x)) == x
  {
    hide Box, InvBox, KeyXor, Words;
    InvBoxOfBox(r % 8, KeyXor(k, r, x));
    KeyXorTwice(k, r, x);
  }

  /** n inverse rounds bring an encrypted block back to the state entering round 32 - n. */
  lemma {:induction false} DecRoundsOfEncrypt(k: seq<bv32>, x: State, n: nat)
    requires |k| >= KEY_WORDS && 1 <= n <= 32
    ensures DecRounds(k, Encrypt(k, x), n) == EncRounds(k, x, 32 - n)
  {
    hide KeyXor, Substitute, Unsubstitute, Lt, InvLt;
    var y := Encrypt(k, x);
    if n == 1 {
      KeyXorTwice(k, 32, Substitute(k, 31, EncRounds(k, x, 31)));
    } else {
      DecRoundsOfEncrypt(k, x, n - 1);
      InvLtOfLt(Substitute(k, 32 - n, EncRounds(k, x, 32 - n)));
    }
    UnsubstituteOfSubstitute(k, 32 - n, EncRounds(k, x, 32 - n));
  }

  function Decrypt(k: seq<bv32>, y: State): State
    requires |k| >= KEY_WORDS
  {
    DecRounds(k, y, 32)
  }

  /** Decryption undoes encryption for every array of round keys and every block. */
  lemma DecryptOfEncrypt(k: seq<bv32>, x: State)
    requires |k| >= KEY_WORDS
    ensures Decrypt(k, Encrypt(k, x)) == x
  {
    hide KeyXor, Substitute, Unsubstitute, Lt, InvLt;
    DecRoundsOfEncrypt(k, x, 32);
  }

  // ---------- blocks ----------

  function LoadBlock(b: seq<bv8>): State
    requires |b| == 16
  {
    Quad(W.Load32L(b[0..4]), W.Load32L(b[4..8]), W.Load32L(b[8..12]), W.Load32L(b[12..16]))
  }

  function StoreBlock(x: State): (b: seq<bv8>)
    ensures |b| == 16
  {
    W.Store32L(x.a) + W.Store32L(x.b) + W.Store32L(x.c) + W.Store32L(x.d)
  }

  lemma LoadOfStore(x: State)
    ensures LoadBlock(StoreBlock(x)) == x
  {
    hide W.Load32L, W.Store32L;
    var s := StoreBlock(x);
    assert s[0..4] == W.Store32L(x.a) && s[4..8] == W.Store32L(x.b)
        && s[8..12] == W.Store32L(x.c) && s[12..16] == W.Store32L(x.d);
    W.LoadStore32L(x.a, s[0..4]);
    W.LoadStore32L(x.b, s[4..8]);
    W.LoadStore32L(x.c, s[8..12]);
    W.LoadStore32L(x.d, s[12..16]);
  }

  lemma StoreOfLoad(b: seq<bv8>)
    requires |b| == 16
    ensures StoreBlock(LoadBlock(b)) == b
  {
    hide W.Load32L, W.Store32L;
    W.LoadStore32L(0, b[0..4]);
    W.LoadStore32L(0, b[4..8]);
    W.LoadStore32L(0, b[8..12]);
    W.LoadStore32L(0, b[12..16]);
    assert b[0..4] + b[4..8] + b[8..12] + b[12..16] == b;
  }

  // ---------- the register code ----------

  method RunS(n: nat, r0: bv32, r1: bv32, r2: bv32, r3: bv32) returns (o0: bv32, o1: bv32, o2: bv32, o3: bv32, o4: bv32)
    requires n < 8
    ensures AfterS(n, Regs(o0, o1, o2, o3, o4)) == Box(Words(), n, Quad(r0, r1, r2, r3))
  {
    hide S0, S1, S2, S3, S4, S5, S6, S7, Words;
    var l := Words();
    var o := match n
      case 0 => S0(l, r0, r1, r2, r3)
      case 1 => S1(l, r0, r1, r2, r3)
      case 2 => S2(l, r0, r1, r2, r3)
      case 3 => S3(l, r0, r1, r2, r3)
      case 4 => S4(l, r0, r1, r2, r3)
      case 5 => S5(l, r0, r1, r2, r3)
      case 6 => S6(l, r0, r1, r2, r3)
      case _ => S7(l, r0, r1, r2, r3);
    o0, o1, o2, o3, o4 := o.r0, o.r1, o.r2, o.r3, o.r4;
  }

  method RunI(n: nat, r0: bv32, r1: bv32, r2: bv32, r3: bv32) returns (o0: bv32, o1: bv32, o2: bv32, o3: bv32, o4: bv32)
    requires n < 8
    ensures AfterI(n, Regs(o0, o1, o2, o3, o4)) == InvBox(Words(), n, Quad(r0, r1, r2, r3))
  {
    hide I0, I1, I2, I3, I4, I5, I6, I7, Words;
    var l := Words();
    var o := match n
      case 0 => I0(l, r0, r1, r2, r3)
      case 1 => I1(l, r0, r1, r2, r3)
      case 2 => I2(l, r0, r1, r2, r3)
      case 3 => I3(l, r0, r1, r2, r3)
      case 4 => I4(l, r0, r1, r2, r3)
      case 5 => I5(l, r0, r1, r2, r3)
      case 6 => I6(l, r0, r1, r2, r3)
      case _ => I7(l, r0, r1, r2, r3);
    o0, o1, o2, o3, o4 := o.r0, o.r1, o.r2, o.r3, o.r4;
  }

  method RunKx(k: seq<bv32>, off: nat, r: nat, a: bv32, b: bv32, c: bv32, d: bv32, ghost row: nat)
    returns (a': bv32, b': bv32, c': bv32, d': bv32)
    requires off + 4 * r == 4 * row && 4 * row + 4 <= |k|
    ensures Quad(a', b', c', d') == KeyXor(k, row, Quad(a, b, c, d))
  {
    hide Xor;
    a' := Xor(a, k[off + 4 * r + 0]);
    b' := Xor(b, k[off + 4 * r + 1]);
    c' := Xor(c, k[off + 4 * r + 2]);
    d' := Xor(d, k[off + 4 * r + 3]);
  }

  method RunLt(a: bv32, b: bv32, c: bv32, d: bv32) returns (a': bv32, b': bv32, c': bv32, d': bv32)
    ensures Quad(a', b', c', d') == Lt(Quad(a, b, c, d))
  {
    hide Xor, Rol, Shl;
    a' := Rol(a, 13);
    c' := Rol(c, 3);
    d' := Rol(Xor(Xor(d, c'), Shl(a', 3)), 7);
    b' := Rol(Xor(Xor(b, a'), c'), 1);
    a' := Rol(Xor(Xor(a', b'), d'), 5);
    c' := Rol(Xor(Xor(c', d'), Shl(b', 7)), 22);
  }

  method RunInvLt(a: bv32, b: bv32, c: bv32, d: bv32) returns (a': bv32, b': bv32, c': bv32, d': bv32)
    ensures Quad(a', b', c', d') == InvLt(Quad(a, b, c, d))
  {
    hide Xor, Ror, Shl;
    c' := Ror(c, 22);
    a' := Ror(a, 5);
    c' := Xor(c', Xor(d, Shl(b, 7)));
    a' := Xor(a', Xor(b, d));
    b' := Ror(b, 1);
    d' := Xor(Xor(Ror(d, 7), c'), Shl(a', 3));
    b' := Xor(b', Xor(a', c'));
    c' := Ror(c', 3);
    a' := Ror(a', 13);
  }

  lemma NoRounds(k: seq<bv32>, x: State)
    ensures EncRounds(k, x, 0) == x
  {
  }

  lemma NextRound(k: seq<bv32>, x: State, n: nat, r: nat)
    requires |k| >= KEY_WORDS && n % 8 == 0 && r < 8 && n + r < 32
    ensures EncRounds(k, x, n + r + 1) == Lt(Box(Words(), r, KeyXor(k, n + r, EncRounds(k, x, n + r))))
    ensures n + r == 31 ==>
            Encrypt(k, x) == KeyXor(k, 32, Box(Words(), 7, KeyXor(k, 31, EncRounds(k, x, 31))))
  {
    hide Box, Lt, KeyXor, Words;
    assert (n + r) % 8 == r;
  }

  lemma NoInverseRounds(k: seq<bv32>, y: State)
    requires |k| >= KEY_WORDS
    ensures DecRounds(k, y, 0) == KeyXor(k, 32, y)
  {
  }

  lemma NextInverseRound(k: seq<bv32>, y: State, n: nat, r: nat)
    requires |k| >= KEY_WORDS && n % 8 == 0 && r < 8 && n + r < 32
    ensures var z := DecRounds(k, y, n + r);
      DecRounds(k, y, n + r + 1) ==
      KeyXor(k, 31 - n - r, InvBox(Words(), 7 - r, if n + r == 0 then z else InvLt(z)))
  {
    hide InvBox, InvLt, KeyXor, Words;
    assert (31 - n - r) % 8 == 7 - r;
  }

  method EncBlock(input: array<bv8>, output: array<bv8>, k: array<bv32>)
    requires input.Length >= 16 && output.Length >= 16 && k.Length >= KEY_WORDS
    modifies output
    ensures output[..16] == StoreBlock(Encrypt(k[..], LoadBlock(old(input[..16]))))
    ensures output[16..] == old(output[16..])
  {
    hide W.Load32L, W.Store32L, Encrypt;
    ghost var b := input[..16];
    assert b[0..4] == input[0..4] && b[4..8] == input[4..8] && b[8..12] == input[8..12] && b[12..16] == input[12..16];
    var y := EncRegisters(W.Load32L(input[0..4]), W.Load32L(input[4..8]), W.Load32L(input[8..12]), W.Load32L(input[12..16]), k[..]);
    W.Put(output, 0, StoreBlock(y));
  }

  method EncRoundsS0toS3(k: seq<bv32>, off: nat, a0: bv32, b0: bv32, c0: bv32, d0: bv32, ghost x: State, ghost n: nat)
    returns (e: bv32, b: bv32, d: bv32, c: bv32, a: bv32)
    requires |k| >= KEY_WORDS && off == 4 * n && n % 8 == 0 && n <= 24
    requires Quad(a0, b0, c0, d0) == EncRounds(k, x, n)
    ensures Quad(e, b, d, c) == EncRounds(k, x, n + 4)
  {
    hide Box, Lt, KeyXor, Words, EncRounds, Substitute, Encrypt;
    a, b, c, d := a0, b0, c0, d0;
    a, b, c, d := RunKx(k, off, 0, a, b, c, d, n);
    a, b, c, d, e := RunS(0, a, b, c, d);
    b, e, c, a := RunLt(b, e, c, a);
    NextRound(k, x, n, 0);
    b, e, c, a := RunKx(k, off, 1, b, e, c, a, n + 1);
    b, e, c, a, d := RunS(1, b, e, c, a);
    c, b, a, e := RunLt(c, b, a, e);
    NextRound(k, x, n, 1);
    c, b, a, e := RunKx(k, off, 2, c, b, a, e, n + 2);
    c, b, a, e, d := RunS(2, c, b, a, e);
    a, e, b, d := RunLt(a, e, b, d);
    NextRound(k, x, n, 2);
    a, e, b, d := RunKx(k, off, 3, a, e, b, d, n + 3);
    a, e, b, d, c := RunS(3, a, e, b, d);
    e, b, d, c := RunLt(e, b, d, c);
    NextRound(k, x, n, 3);
  }

  method EncRoundsS4toS7(k: seq<bv32>, off: nat, e0: bv32, b0: bv32, d0: bv32, c0: bv32, ghost x: State, ghost n: nat)
    returns (a: bv32, b: bv32, c: bv32, d: bv32, e: bv32)
    requires |k| >= KEY_WORDS && off == 4 * n && n % 8 == 0 && n <= 24
    requires Quad(e0, b0, d0, c0) == EncRounds(k, x, n + 4)
    ensures Lt(Quad(d, e, b, a)) == EncRounds(k, x, n + 8)
    ensures n == 24 ==> KeyXor(k, 32, Quad(d, e, b, a)) == Encrypt(k, x)
  {
    hide Box, Lt, KeyXor, Words, EncRounds, Substitute, Encrypt;
    e, b, d, c := e0, b0, d0, c0;
    e, b, d, c := RunKx(k, off, 4, e, b, d, c, n + 4);
    e, b, d, c, a := RunS(4, e, b, d, c);
    b, a, e, c := RunLt(b, a, e, c);
    NextRound(k, x, n, 4);
    b, a, e, c := RunKx(k, off, 5, b, a, e, c, n + 5);
    b, a, e, c, d := RunS(5, b, a, e, c);
    a, c, b, e := RunLt(a, c, b, e);
    NextRound(k, x, n, 5);
    a, c, b, e := RunKx(k, off, 6, a, c, b, e, n + 6);
    a, c, b, e, d := RunS(6, a, c, b, e);
    a, c, d, b := RunLt(a, c, d, b);
    NextRound(k, x, n, 6);
    a, c, d, b := RunKx(k, off, 7, a, c, d, b, n + 7);
    a, c, d, b, e := RunS(7, a, c, d, b);
    NextRound(k, x, n, 7);
  }

  method EncRegisters(a0: bv32, b0: bv32, c0: bv32, d0: bv32, k: seq<bv32>) returns (y: State)
    requires |k| >= KEY_WORDS
    ensures y == Encrypt(k, Quad(a0, b0, c0, d0))
  {
    hide Lt, KeyXor, EncRounds, Encrypt;
    ghost var x := Quad(a0, b0, c0, d0);
    var a, b, c, d := a0, b0, c0, d0;
    var e := 0;
    var i, off := 1, 0;
    NoRounds(k, x);
    while true
      invariant 1 <= i <= 4 && off == 32 * (i - 1)
      invariant Quad(a, b, c, d) == EncRounds(k, x, 8 * (i - 1))
      decreases 4 - i
    {
      ghost var n := 8 * (i - 1);
      e, b, d, c, a := EncRoundsS0toS3(k, off, a, b, c, d, x, n);
      a, b, c, d, e := EncRoundsS4toS7(k, off, e, b, d, c, x, n);
      if i == 4 {
        break;
      }
      i := i + 1;
      c := b;
      b := e;
      e := d;
      d := a;
      a := e;
      off := off + 32;
      a, b, c, d := RunLt(a, b, c, d);
    }
    d, e, b, a := RunKx(k, off, 8, d, e, b, a, 32);
    y := Quad(d, e, b, a);
  }

  method DecBlock(input: array<bv8>, output: array<bv8>, k: array<bv32>)
    requires input.Length >= 16 && output.Length >= 16 && k.Length >= KEY_WORDS
    modifies output
    ensures output[..16] == StoreBlock(Decrypt(k[..], LoadBlock(old(input[..16]))))
    ensures output[16..] == old(output[16..])
  {
    hide W.Load32L, W.Store32L, Decrypt;
    ghost var b := input[..16];
    assert b[0..4] == input[0..4] && b[4..8] == input[4..8] && b[8..12] == input[8..12] && b[12..16] == input[12..16];
    var y := DecRegisters(W.Load32L(input[0..4]), W.Load32L(input[4..8]), W.Load32L(input[8..12]), W.Load32L(input[12..16]), k[..]);
    W.Put(output, 0, StoreBlock(y));
  }

  method DecRoundsI7toI4(k: seq<bv32>, off: nat, a0: bv32, b0: bv32, c0: bv32, d0: bv32, ghost z: State, ghost n: nat)
    returns (b: bv32, c: bv32, e: bv32, a: bv32, d: bv32)
    requires |k| >= KEY_WORDS && n % 8 == 0 && n <= 24 && off == 4 * (24 - n)
    requires Quad(a0, b0, c0, d0) == (if n == 0 then DecRounds(k, z, 0) else InvLt(DecRounds(k, z, n)))
    ensures Quad(b, c, e, a) == DecRounds(k, z, n + 4)
  {
    hide InvBox, InvLt, KeyXor, Words, DecRounds;
    a, b, c, d := a0, b0, c0, d0;
    a, b, c, d, e := RunI(7, a, b, c, d);
    d, a, b, e := RunKx(k, off, 7, d, a, b, e, 31 - n);
    NextInverseRound(k, z, n, 0);
    d, a, b, e := RunInvLt(d, a, b, e);
    d, a, b, e, c := RunI(6, d, a, b, e);
    a, b, c, e := RunKx(k, off, 6, a, b, c, e, 31 - n - 1);
    NextInverseRound(k, z, n, 1);
    a, b, c, e := RunInvLt(a, b, c, e);
    a, b, c, e, d := RunI(5, a, b, c, e);
    b, d, e, c := RunKx(k, off, 5, b, d, e, c, 31 - n - 2);
    NextInverseRound(k, z, n, 2);
    b, d, e, c := RunInvLt(b, d, e, c);
    b, d, e, c, a := RunI(4, b, d, e, c);
    b, c, e, a := RunKx(k, off, 4, b, c, e, a, 31 - n - 3);
    NextInverseRound(k, z, n, 3);
  }

  method DecRoundsI3toI0(k: seq<bv32>, off: nat, b0: bv32, c0: bv32, e0: bv32, a0: bv32, ghost z: State, ghost n: nat)
    returns (a: bv32, d: bv32, b: bv32, e: bv32, c: bv32)
    requires |k| >= KEY_WORDS && n % 8 == 0 && n <= 24 && off == 4 * (24 - n)
    requires Quad(b0, c0, e0, a0) == DecRounds(k, z, n + 4)
    ensures Quad(a, d, b, e) == DecRounds(k, z, n + 8)
  {
    hide InvBox, InvLt, KeyXor, Words, DecRounds;
    b, c, e, a := b0, c0, e0, a0;
    b, c, e, a := RunInvLt(b, c, e, a);
    b, c, e, a, d := RunI(3, b, c, e, a);
    a, b, e, c := RunKx(k, off, 3, a, b, e, c, 31 - n - 4);
    NextInverseRound(k, z, n, 4);
    a, b, e, c := RunInvLt(a, b, e, c);
    a, b, e, c, d := RunI(2, a, b, e, c);
    b, d, e, c := RunKx(k, off, 2, b, d, e, c, 31 - n - 5);
    NextInverseRound(k, z, n, 5);
    b, d, e, c := RunInvLt(b, d, e, c);
    b, d, e, c, a := RunI(1, b, d, e, c);
    a, b, c, e := RunKx(k, off, 1, a, b, c, e, 31 - n - 6);
    NextInverseRound(k, z, n, 6);
    a, b, c, e := RunInvLt(a, b, c, e);
    a, b, c, e, d := RunI(0, a, b, c, e);
    a, d, b, e := RunKx(k, off, 0, a, d, b, e, 31 - n - 7);
    NextInverseRound(k, z, n, 7);
  }

  method DecRegisters(a0: bv32, b0: bv32, c0: bv32, d0: bv32, k: seq<bv32>) returns (y: State)
    requires |k| >= KEY_WORDS
    ensures y == Decrypt(k, Quad(a0, b0, c0, d0))
  {
    hide InvLt, KeyXor, DecRounds;
    ghost var z := Quad(a0, b0, c0, d0);
    var a, b, c, d := a0, b0, c0, d0;
    var e := 0;
    var i, off := 4, 96;
    a, b, c, d := RunKx(k, off, 8, a, b, c, d, 32);
    var start := true;
    NoInverseRounds(k, z);
    while i != 0
      invariant 0 <= i <= 4 && off == (if start then 96 else 32 * i) && (start ==> i == 4)
      invariant start ==> Quad(a, b, c, d) == DecRounds(k, z, 0)
      invariant !start ==> Quad(a, d, b, e) == DecRounds(k, z, 32 - 8 * i)
    {
      ghost var n := 32 - 8 * i;
      if !start {
        c := b;
        b := d;
        d := e;
        off := off - 32;
        a, b, c, d := RunInvLt(a, b, c, d);
      }
      start := false;
      b, c, e, a, d := DecRoundsI7toI4(k, off, a, b, c, d, z, n);
      a, d, b, e, c := DecRoundsI3toI0(k, off, b, c, e, a, z, n);
      i := i - 1;
    }
    y := Quad(a, d, b, e);
  }
}

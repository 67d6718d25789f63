/** The rounds of the ciphers and of MD2 once more, in the operators of machine words and without the
    helper functions they are made of elsewhere, and where their constants come from. */
module CipherRounds {
  import Bits
  import BitSlice
  import Md2
  import Multi2
  import Noekeon
  import Rc2
  import Serpent
  import SerpentBoxes
  import SerpentSchedule
  import Skipjack
  import W = Words

  // ---------- operators ----------

  /** Which way rotations and shifts go. */
  lemma Directions()
    ensures Bits.Rol(0x0123_4567, 4) == 0x1234_5670 && Bits.Ror(0x0123_4567, 4) == 0x7012_3456
    ensures Bits.Rol(0x8000_0001, 31) == 0xc000_0000 == Bits.Ror(0x8000_0001, 1)
    ensures Bits.Shl(0x8123_4567, 4) == 0x1234_5670 && Bits.Shr(0x8123_4567, 4) == 0x0812_3456
    ensures Rc2.Rol16(0x0123, 4) == 0x1230 && Rc2.Ror16(0x0123, 4) == 0x3012
  {
  }

  lemma RolIs(x: bv32, n: bv32)
    requires 0 < n < 32
    ensures Bits.Rol(x, n) == (x << n) | (x >> (32 - n))
  {
  }

  lemma RorIs(x: bv32, n: bv32)
    requires 0 < n < 32
    ensures Bits.Ror(x, n) == (x >> n) | (x << (32 - n))
  {
  }

  // ---------- Serpent ----------

  /** The linear transformation, section 3 of the Serpent proposal. */
  lemma SerpentTransformation(x: Serpent.State)
    ensures var x0, x2 := Bits.Rol(x.a, 13), Bits.Rol(x.c, 3);
            var x1, x3 := Bits.Xor(Bits.Xor(x.b, x0), x2), Bits.Xor(Bits.Xor(x.d, x2), Bits.Shl(x0, 3));
            var y1, y3 := Bits.Rol(x1, 1), Bits.Rol(x3, 7);
            var y0, y2 := Bits.Xor(Bits.Xor(x0, y1), y3), Bits.Xor(Bits.Xor(x2, y3), Bits.Shl(y1, 7));
            Serpent.Lt(x) == BitSlice.Quad(Bits.Rol(y0, 5), y1, Bits.Rol(y2, 22), y3)
  {
    hide Bits.Xor, Bits.Rol, Bits.Shl;
  }

  /** Round n takes four key words, its box and, but for the last, the linear transformation. */
  lemma SerpentRound(k: seq<bv32>, x: Serpent.State, n: nat)
    requires |k| == 132 && n < 31
    ensures var y := Serpent.EncRounds(k, x, n);
            var z := BitSlice.Quad(Bits.Xor(y.a, k[4 * n]), Bits.Xor(y.b, k[4 * n + 1]), Bits.Xor(y.c, k[4 * n + 2]), Bits.Xor(y.d, k[4 * n + 3]));
            && Serpent.EncRounds(k, x, 0) == x
            && Serpent.EncRounds(k, x, n + 1) == Serpent.Lt(SerpentBoxes.Box(BitSlice.Words(), n % 8, z))
  {
    hide Serpent.Lt, SerpentBoxes.Box, Bits.Xor;
  }

  lemma SerpentLastRound(k: seq<bv32>, x: Serpent.State)
    requires |k| == 132
    ensures var y := Serpent.EncRounds(k, x, 31);
            var z := BitSlice.Quad(Bits.Xor(y.a, k[124]), Bits.Xor(y.b, k[125]), Bits.Xor(y.c, k[126]), Bits.Xor(y.d, k[127]));
            var o := SerpentBoxes.Box(BitSlice.Words(), 7, z);
            Serpent.Encrypt(k, x) == BitSlice.Quad(Bits.Xor(o.a, k[128]), Bits.Xor(o.b, k[129]), Bits.Xor(o.c, k[130]), Bits.Xor(o.d, k[131]))
  {
    hide Serpent.Lt, SerpentBoxes.Box, Bits.Xor, Serpent.EncRounds;
  }

  /** The constant of the schedule is the fraction of the golden ratio, to 32 bits. */
  lemma GoldenRatio()
    ensures var n: nat := 0x9e37_79b9; var one: nat := 0x1_0000_0000;
            && SerpentSchedule.PHI == 0x9e37_79b9
            && (2 * n + one) * (2 * n + one) <= 5 * one * one < (2 * n + 2 + one) * (2 * n + 2 + one)
  {
  }

  lemma SerpentPrekey(key: seq<bv8>, i: nat)
    requires |key| <= 32 && i < 132
    ensures SerpentSchedule.Prekey(key, i + 8)
            == Bits.Rol(Bits.Xor(Bits.Xor(Bits.Xor(Bits.Xor(Bits.Xor(SerpentSchedule.Prekey(key, i), SerpentSchedule.Prekey(key, i + 3)),
                                                            SerpentSchedule.Prekey(key, i + 5)), SerpentSchedule.Prekey(key, i + 7)),
                                          0x9e37_79b9), i as bv32), 11)
  {
    hide Bits.Xor, Bits.Rol;
  }

  /** The boxes go down from S3 and around, one for each group of four prekeys. */
  lemma SerpentRoundKey(key: seq<bv8>, i: nat, r: nat)
    requires |key| <= 32 && 8 * i + r <= 32 && r < 8
    ensures var j := 4 * (8 * i + r) + 8;
            SerpentSchedule.RoundKey(key, 8 * i + r)
            == SerpentBoxes.Box(BitSlice.Words(), [3, 2, 1, 0, 7, 6, 5, 4][r],
                                BitSlice.Quad(SerpentSchedule.Prekey(key, j), SerpentSchedule.Prekey(key, j + 1),
                                              SerpentSchedule.Prekey(key, j + 2), SerpentSchedule.Prekey(key, j + 3)))
  {
    hide SerpentBoxes.Box, SerpentSchedule.Prekey;
    assert (3 - (8 * i + r)) % 8 == [3, 2, 1, 0, 7, 6, 5, 4][r];
  }

  /** A block is four words with their low bytes first, the first word first; so are its words stored. */
  lemma SerpentWords(b: seq<bv8>, x: Serpent.State)
    requires |b| == 16
    ensures Serpent.LoadBlock(b) == BitSlice.Quad(W.Load32L(b[..4]), W.Load32L(b[4..8]), W.Load32L(b[8..12]), W.Load32L(b[12..]))
    ensures Serpent.StoreBlock(x)[..4] == W.Store32L(x.a) && Serpent.StoreBlock(x)[12..] == W.Store32L(x.d)
  {
    hide W.Load32L, W.Store32L;
    assert b[0..4] == b[..4] && b[12..16] == b[12..];
  }

  // ---------- Noekeon ----------

  /** Each round constant is the one before it times x, modulo x^8 + x^4 + x^3 + x + 1. */
  lemma NoekeonConstants(r: nat)
    requires r < 16
    ensures Noekeon.RoundConstant(0) == 0x80
    ensures var c := Noekeon.RoundConstant(r);
            c < 0x100 && Noekeon.RoundConstant(r + 1) == if c & 0x80 == 0 then c << 1 else (c << 1) ^ 0x11b
  {
  }

  lemma NoekeonRound(k: Noekeon.State, x: Noekeon.State, r: nat)
    requires r < 16
    ensures var s := Noekeon.EncRounds(k, x, r);
            var a := Bits.Xor(s.a, Noekeon.RoundConstant(r));
            var ac := Bits.Xor(a, s.c);
            var t := Bits.Xor(Bits.Xor(ac, Bits.Rol(ac, 8)), Bits.Ror(ac, 8));
            var b, d := Bits.Xor(s.b, Bits.Xor(t, k.b)), Bits.Xor(s.d, Bits.Xor(t, k.d));
            var bd := Bits.Xor(b, d);
            var u := Bits.Xor(Bits.Xor(bd, Bits.Rol(bd, 8)), Bits.Ror(bd, 8));
            var z := Noekeon.Gamma(BitSlice.Words(), BitSlice.Quad(Bits.Xor(a, Bits.Xor(u, k.a)), Bits.Rol(b, 1),
                                                                    Bits.Rol(Bits.Xor(s.c, Bits.Xor(u, k.c)), 5), Bits.Rol(d, 2)));
            && Noekeon.EncRounds(k, x, 0) == x
            && Noekeon.EncRounds(k, x, r + 1) == BitSlice.Quad(z.a, Bits.Ror(z.b, 1), Bits.Ror(z.c, 5), Bits.Ror(z.d, 2))
  {
    hide Bits.Xor, Bits.Rol, Bits.Ror, Noekeon.RoundConstant, Noekeon.Gamma;
  }

  /** GAMMA on four bits is this table; the bit of a is the lowest. */
  lemma NoekeonGamma(a: bool, b: bool, c: bool, d: bool)
    ensures var y := Noekeon.Gamma(BitSlice.Bools(), BitSlice.Quad(a, b, c, d));
            SerpentBoxes.Nibble(y) == [0x7, 0xA, 0x2, 0xC, 0x4, 0x8, 0xF, 0x0, 0x5, 0x9, 0x1, 0xE, 0x3, 0xD, 0xB, 0x6][SerpentBoxes.Nibble(BitSlice.Quad(a, b, c, d))]
  {
  }

  lemma NoekeonLast(k: Noekeon.State, x: Noekeon.State)
    ensures var s := Noekeon.EncRounds(k, x, 16);
            Noekeon.Encrypt(k, x) == Noekeon.Theta(k, BitSlice.Quad(Bits.Xor(s.a, 0xd4), s.b, s.c, s.d))
  {
    hide Bits.Xor, Noekeon.Spread, Noekeon.Gamma, Noekeon.EncRounds;
  }

  /** The words of a block have their high bytes first. */
  lemma NoekeonWords(b: seq<bv8>)
    requires |b| == 16
    ensures Noekeon.LoadBlock(b) == BitSlice.Quad(W.Load32H(b[..4]), W.Load32H(b[4..8]), W.Load32H(b[8..12]), W.Load32H(b[12..]))
  {
    hide W.Load32H;
    assert b[0..4] == b[..4] && b[12..16] == b[12..];
  }

  // ---------- Multi2 ----------

  lemma Multi2Words(b: seq<bv8>)
    requires |b| == 8
    ensures Multi2.LoadPair(b) == Multi2.Pair(W.Load32H(b[..4]), W.Load32H(b[4..]))
  {
    hide W.Load32H;
    assert b[0..4] == b[..4] && b[4..8] == b[4..];
  }

  /** The four stages; rounds 4, 12, 20 .. take them with the first half of the key, rounds 8, 16, 24 ..
      with the second. */
  lemma Multi2Rounds(uk: seq<bv32>, p: Multi2.Pair, q: nat)
    requires |uk| == 8
    ensures var t := if q % 2 == 0 then 0 else 4;
            var w := Multi2.Encrypt(uk, p, 4 * q);
            var r1 := Bits.Xor(w.p1, w.p0);
            var x := Bits.Add(r1, uk[t]);
            var x := Bits.Sub(Bits.Add(Bits.Rol(x, 1), x), 1);
            var l2 := Bits.Xor(w.p0, Bits.Xor(Bits.Rol(x, 4), x));
            var y := Bits.Add(l2, uk[t + 1]);
            var y := Bits.Add(Bits.Add(Bits.Rol(y, 2), y), 1);
            var y := Bits.Add(Bits.Xor(Bits.Rol(y, 8), y), uk[t + 2]);
            var y := Bits.Sub(Bits.Rol(y, 1), y);
            var r3 := Bits.Xor(r1, Bits.Xor(Bits.Rol(y, 16), Bits.Or(l2, y)));
            var z := Bits.Add(r3, uk[t + 3]);
            var l4 := Bits.Xor(l2, Bits.Add(Bits.Add(Bits.Rol(z, 2), z), 1));
            && Multi2.Encrypt(uk, p, 0) == p
            && Multi2.Encrypt(uk, p, 4 * q + 1) == Multi2.Pair(w.p0, r1) && Multi2.Encrypt(uk, p, 4 * q + 2) == Multi2.Pair(l2, r1)
            && Multi2.Encrypt(uk, p, 4 * q + 3) == Multi2.Pair(l2, r3) && Multi2.Encrypt(uk, p, 4 * q + 4) == Multi2.Pair(l4, r3)
  {
    hide Bits.Xor, Bits.Or, Bits.Rol, Bits.Add, Bits.Sub, Multi2.Offset, Multi2.Encrypt;
    Multi2.EncryptGroup(uk, p, 4 * q);
    Multi2.OffsetOf(q, 0);
    NoMulti2Rounds(uk, p);
  }

  lemma NoMulti2Rounds(uk: seq<bv32>, p: Multi2.Pair)
    requires |uk| == 8
    ensures Multi2.Encrypt(uk, p, 0) == p
  {
  }

  /** Word n of the working key is what round n + 2 under the system key leaves in the half it changes. */
  lemma Multi2Key(key: seq<bv8>, n: nat)
    requires |key| == 40 && n < 8
    ensures var k := seq(8, i requires 0 <= i < 8 => W.Load32H(key[4 * i..4 * i + 4]));
            var after := Multi2.Encrypt(k, Multi2.Pair(W.Load32H(key[32..36]), W.Load32H(key[36..40])), n + 2);
            Multi2.ScheduledKey(key)[n] == if n % 2 == 0 then after.p0 else after.p1
  {
    hide Multi2.Encrypt, W.Load32H;
    var b := key[32..40];
    assert b[0..4] == key[32..36] && b[4..8] == key[36..40];
    assert Multi2.SystemKey(key) == seq(8, i requires 0 <= i < 8 => W.Load32H(key[4 * i..4 * i + 4]));
  }

  // ---------- RC2 ----------

  /** Section 3.1: a word is increased by a key word, by the word two places back where the word before
      it has ones, and by the one three places back where that has zeros; then it is rotated. */
  lemma Rc2MixingRound(k: seq<bv16>, i: nat, x: Rc2.Regs)
    requires |k| == 64 && i < 16
    ensures var r0 := Rc2.Mix(x.x10, x.x32, x.x76, x.x54, k[4 * i], 1);
            var r1 := Rc2.Mix(x.x32, x.x54, r0, x.x76, k[4 * i + 1], 2);
            var r2 := Rc2.Mix(x.x54, x.x76, r1, r0, k[4 * i + 2], 3);
            var r3 := Rc2.Mix(x.x76, r0, r2, r1, k[4 * i + 3], 5);
            Rc2.MixingRound(k, i, x) == Rc2.Regs(r0, r1, r2, r3)
  {
    hide Rc2.Mix;
  }

  lemma Rc2MixingStep(x: bv16, p: bv16, q: bv16, r: bv16, k: bv16, s: bv16)
    requires 0 < s < 16
    ensures Rc2.Mix(x, p, q, r, k, s) == Rc2.Rol16(Rc2.Plus(x, Rc2.Plus(Rc2.Plus(p & !q, r & q), k)), s)
  {
    hide Rc2.Plus, Rc2.Rol16;
  }

  /** Section 3.2: each word is increased by the key word that the low six bits of the one before it
      point at. */
  lemma Rc2MashingRound(k: seq<bv16>, x: Rc2.Regs)
    requires |k| == 64
    ensures var r0 := Rc2.Plus(x.x10, k[Rc2.Index(x.x76)]);
            var r1 := Rc2.Plus(x.x32, k[Rc2.Index(r0)]);
            var r2 := Rc2.Plus(x.x54, k[Rc2.Index(r1)]);
            Rc2.MashingRound(k, x) == Rc2.Regs(r0, r1, r2, Rc2.Plus(x.x76, k[Rc2.Index(r2)]))
  {
    hide Rc2.Plus, Rc2.Index;
  }

  lemma Rc2SixBits(h: bv8, l: bv8)
    ensures Rc2.Index(W.JoinBytes(h, l)) == ((l & 0x3f) as bv6) as nat
  {
    SixBits(h, l);
  }

  lemma SixBits(h: bv8, l: bv8)
    ensures (W.JoinBytes(h, l) & 63) as bv6 == (l & 0x3f) as bv6
  {
  }

  /** Section 3.3: five mixing rounds, a mashing round, six, a mashing round, five. */
  lemma Rc2Order(k: seq<bv16>, x: Rc2.Regs, n: nat)
    requires |k| == 64 && n < 16
    ensures var y := Rc2.MixingRound(k, n, Rc2.Encrypt(k, x, n));
            && Rc2.Encrypt(k, x, 0) == x
            && Rc2.Encrypt(k, x, n + 1) == if n + 1 == 5 || n + 1 == 5 + 6 then Rc2.MashingRound(k, y) else y
  {
    hide Rc2.MixingRound, Rc2.MashingRound;
  }

  /** Section 2: the bytes behind the key, for every table. */
  lemma Rc2Expansion(permute: Rc2.Table, key: seq<bv8>, i: nat)
    requires 0 < |key|
    ensures i < |key| ==> Rc2.Expanded(permute, key, i) == key[i]
    ensures i >= |key| ==>
      Rc2.Expanded(permute, key, i) == permute(Rc2.Expanded(permute, key, i - 1) + Rc2.Expanded(permute, key, i - |key|))
  {
    hide Rc2.Expanded;
    Rc2.ExpandedStep(permute, key, i);
  }

  /** The effective bytes are as many as hold the bits; the topmost keeps the bits that are left for it. */
  lemma Rc2EffectiveBytes(bits: nat)
    requires 0 < bits <= 1024
    ensures var t := Rc2.EffectiveBytes(bits);
            && 8 * t - 8 < bits <= 8 * t
            && Rc2.TopMask(bits) == [0x01, 0x03, 0x07, 0x0F, 0x1F, 0x3F, 0x7F, 0xFF][bits - 8 * t + 7]
  {
  }

  lemma Rc2Reduction(permute: Rc2.Table, key: seq<bv8>, bits: nat, i: nat)
    requires 0 < |key| && 0 < bits <= 1024 && i < 128
    ensures var t := Rc2.EffectiveBytes(bits);
            Rc2.Reduced(permute, key, bits, i)
            == if i > 128 - t then Rc2.Expanded(permute, key, i)
               else if i == 128 - t then permute(Rc2.Expanded(permute, key, i) & Rc2.TopMask(bits))
               else permute(Rc2.Reduced(permute, key, bits, i + 1) ^ Rc2.Reduced(permute, key, bits, i + t))
  {
    hide Rc2.Expanded, Rc2.TopMask, Rc2.EffectiveBytes;
  }

  /** Key words and block words have their low bytes first. */
  lemma Rc2Words(permute: Rc2.Table, key: seq<bv8>, bits: nat, i: nat, b: seq<bv8>, x: Rc2.Regs)
    requires 0 < |key| && 0 < bits <= 1024 && i < 64 && |b| == 8
    ensures W.Value16(Rc2.KeyTable(permute, key, bits)[i])
            == W.Value8(Rc2.Reduced(permute, key, bits, 2 * i)) + W.Value8(Rc2.Reduced(permute, key, bits, 2 * i + 1)) * 0x100
    ensures W.Value16(Rc2.LoadRegs(b).x10) == W.Value8(b[0]) + W.Value8(b[1]) * 0x100
    ensures W.Value16(Rc2.LoadRegs(b).x32) == W.Value8(b[2]) + W.Value8(b[3]) * 0x100
    ensures W.Value16(Rc2.LoadRegs(b).x54) == W.Value8(b[4]) + W.Value8(b[5]) * 0x100
    ensures W.Value16(Rc2.LoadRegs(b).x76) == W.Value8(b[6]) + W.Value8(b[7]) * 0x100
  {
    hide Rc2.Reduced, W.Value16, W.Value8, W.Load16H;
    W.ValueOf16H([Rc2.Reduced(permute, key, bits, 2 * i + 1), Rc2.Reduced(permute, key, bits, 2 * i)], 0);
    W.ValueOf16H([b[1], b[0]], 0);
    W.ValueOf16H([b[3], b[2]], 0);
    W.ValueOf16H([b[5], b[4]], 0);
    W.ValueOf16H([b[7], b[6]], 0);
  }

  // ---------- Skipjack ----------

  /** G on the high and the low byte of a word, figure 4 of the Skipjack specification. */
  lemma SkipjackG(sbox: Skipjack.Sbox, key: seq<bv8>, kp: nat, h: bv8, l: bv8)
    requires |key| == 10
    ensures var g3 := Skipjack.Xor8(h, sbox(Skipjack.Xor8(l, key[kp % 10])));
            var g4 := Skipjack.Xor8(l, sbox(Skipjack.Xor8(g3, key[(kp + 1) % 10])));
            var g5 := Skipjack.Xor8(g3, sbox(Skipjack.Xor8(g4, key[(kp + 2) % 10])));
            var g6 := Skipjack.Xor8(g4, sbox(Skipjack.Xor8(g5, key[(kp + 3) % 10])));
            Skipjack.G(sbox, key, kp, W.JoinBytes(h, l)) == W.JoinBytes(g5, g6)
  {
    hide Skipjack.Xor8, Skipjack.High, Skipjack.Low, W.JoinBytes;
    Skipjack.JoinHalves(0, h, l);
  }

  lemma SkipjackXor(x: bv8, y: bv8, v: bv16, w: bv16)
    ensures Skipjack.Xor8(x, y) == x ^ y && Skipjack.Xor16(v, w) == v ^ w
  {
  }

  /** Steps 1 to 8 and 17 to 24 follow rule A, the others rule B; step n starts 4 (n - 1) bytes into the
      repeated key. */
  lemma SkipjackStep(sbox: Skipjack.Sbox, key: seq<bv8>, s: Skipjack.State, n: nat)
    requires |key| == 10 && 1 <= n <= 32
    ensures var w := Skipjack.Encrypt(sbox, key, s, n - 1);
            var g := Skipjack.G(sbox, key, (4 * n - 4) % 10, w.w1);
            && Skipjack.Encrypt(sbox, key, s, 0) == s
            && Skipjack.Encrypt(sbox, key, s, n)
               == if n <= 8 || 17 <= n <= 24
                  then Skipjack.State(Skipjack.Xor16(Skipjack.Xor16(g, w.w4), W.Word16(n)), g, w.w2, w.w3)
                  else Skipjack.State(w.w4, g, Skipjack.Xor16(Skipjack.Xor16(w.w1, w.w2), W.Word16(n)), w.w3)
  {
    hide Skipjack.G, Skipjack.Xor16, W.Word16;
  }

  /** The words of a block have their high bytes first. */
  lemma SkipjackWords(b: seq<bv8>)
    requires |b| == 8
    ensures var s := Skipjack.LoadBlock(b);
            && W.Value16(s.w1) == W.Value8(b[0]) * 0x100 + W.Value8(b[1]) && W.Value16(s.w2) == W.Value8(b[2]) * 0x100 + W.Value8(b[3])
            && W.Value16(s.w3) == W.Value8(b[4]) * 0x100 + W.Value8(b[5]) && W.Value16(s.w4) == W.Value8(b[6]) * 0x100 + W.Value8(b[7])
  {
    hide W.Value16, W.Value8, W.JoinBytes;
    W.ValueOfBytes(b[0], b[1]);
    W.ValueOfBytes(b[2], b[3]);
    W.ValueOfBytes(b[4], b[5]);
    W.ValueOfBytes(b[6], b[7]);
  }

  // ---------- MD2 ----------

  /** Each checksum byte is changed by the table at its message byte, changed by the checksum byte
      before it, which for the first is the last of the block before. */
  lemma Md2Checksum(S: Md2.Table, c: seq<bv8>, block: seq<bv8>, j: nat)
    requires |c| == |block| == 16 && j < 16
    ensures var r := Md2.ChecksumBlock(S, c, block);
            r[j] == Md2.Xor(c[j], S(Md2.Xor(block[j], if j == 0 then c[15] else r[j - 1])))
  {
    hide Md2.Xor;
    Md2ChecksumBytes(S, c, block, 16, j);
  }

  lemma {:induction false} Md2ChecksumBytes(S: Md2.Table, c: seq<bv8>, block: seq<bv8>, n: nat, j: nat)
    requires |c| == |block| == 16 && j < 16 && n <= 16
    ensures var r := Md2.ChecksumBytes(S, c, block, n);
            r[j] == if j < n then Md2.Xor(c[j], S(Md2.Xor(block[j], if j == 0 then c[15] else r[j - 1]))) else c[j]
  {
    hide Md2.Xor;
    if n > 0 {
      Md2ChecksumBytes(S, c, block, n - 1, j);
      if j > 0 {
        Md2ChecksumBytes(S, c, block, n - 1, j - 1);
      }
    }
  }

  lemma Md2Xor(x: bv8, y: bv8)
    ensures Md2.Xor(x, y) == x ^ y && Md2.Plus(x, y) == x + y
  {
  }

  /** In a round each of the 48 bytes is changed by the table at the byte before it, the first by the
      table at t; after round j, the last byte and j together are the next t. */
  lemma Md2Round(S: Md2.Table, x: seq<bv8>, j: nat, k: nat)
    requires |x| == 48 && j < 18 && k < 48
    ensures var before, after := Md2.Rounds(S, x, j), Md2.Rounds(S, x, j + 1);
            && Md2.Rounds(S, x, 0) == Md2.Mixing(x, 0)
            && after.x[k] == Md2.Xor(before.x[k], S(if k == 0 then before.t else after.x[k - 1]))
            && after.t == Md2.Plus(after.x[47], W.Byte(j))
  {
    hide Md2.Xor, Md2.Plus, W.Byte;
    Md2Substitutions(S, Md2.Rounds(S, x, j), 48, k);
  }

  lemma {:induction false} Md2Substitutions(S: Md2.Table, m: Md2.Mixing, n: nat, k: nat)
    requires |m.x| == 48 && n <= 48 && k < 48
    ensures var r := Md2.Substitutions(S, m, n);
            && r.x[k] == (if k < n then Md2.Xor(m.x[k], S(if k == 0 then m.t else r.x[k - 1])) else m.x[k])
            && r.t == if n == 0 then m.t else r.x[n - 1]
  {
    hide Md2.Xor;
    if n > 0 {
      Md2Substitutions(S, m, n - 1, k);
      if k > 0 {
        Md2Substitutions(S, m, n - 1, k - 1);
      }
    }
  }

  /** A block is mixed in as it is behind the old state, and xored into that state behind itself. */
  lemma Md2Block(S: Md2.Table, x: seq<bv8>, block: seq<bv8>, i: nat)
    requires |x| == 48 && |block| == 16 && i < 16
    ensures var y := Md2.Laid(x, block);
            && y[i] == x[i] && y[16 + i] == block[i] && y[32 + i] == Md2.Xor(x[i], block[i])
            && Md2.CompressBlock(S, x, block) == Md2.Rounds(S, y, 18).x
  {
    hide Md2.Rounds, Md2.Xor;
  }

  /** A padded message has whole blocks, up to one more than the message needs, and can be told from
      every other padded message: its last byte counts the bytes that were added. */
  lemma Md2Padding(msg: seq<bv8>)
    ensures var p := Md2.Pad(msg); var n := W.Value8(p[|p| - 1]);
            && |p| % 16 == 0 && |msg| < |p| <= |msg| + 16
            && n == |p| - |msg| && p[..|p| - n] == msg && forall i :: |msg| <= i < |p| ==> W.Value8(p[i]) == n
  {
    hide W.Value8, W.Byte;
    W.ValueOfByte(16 - |msg| % 16);
  }

  lemma Md2PaddingIsInjective(msg: seq<bv8>, other: seq<bv8>)
    requires Md2.Pad(msg) == Md2.Pad(other)
    ensures msg == other
  {
    hide Md2.Pad, W.Value8;
    Md2Padding(msg);
    Md2Padding(other);
  }

  /** The digest is the first third of the state after the padded message and then its checksum. */
  lemma Md2Digest(S: Md2.Table, msg: seq<bv8>, i: nat)
    requires i < 16
    ensures var p := Md2.Pad(msg);
            var x := Md2.CompressBlock(S, Md2.Compressed(S, p, |p| / 16), Md2.Checksum(S, p, |p| / 16));
            Md2.Digest(S, msg)[i] == x[i]
  {
    hide Md2.Pad, Md2.Checksum, Md2.Compressed, Md2.CompressBlock;
    var p := Md2.Pad(msg);
    var c, k := Md2.Checksum(S, p, |p| / 16), |p| / 16;
    Md2.CompressedPrefix(S, p, c, k);
    assert |p| == 16 * k && 16 * (k + 1) == 16 * k + 16;
    W.DivMod(|p + c|, k + 1, 0, 16);
    assert (p + c)[16 * k..16 * (k + 1)] == c && |p + c| / 16 == k + 1;
    Md2NextBlock(S, p + c, k);
  }

  lemma Md2NextBlock(S: Md2.Table, data: seq<bv8>, k: nat)
    requires 16 * (k + 1) <= |data|
    ensures Md2.Compressed(S, data, 0) == seq(48, _ => 0) && Md2.Checksum(S, data, 0) == seq(16, _ => 0)
    ensures Md2.Compressed(S, data, k + 1) == Md2.CompressBlock(S, Md2.Compressed(S, data, k), data[16 * k..16 * (k + 1)])
    ensures Md2.Checksum(S, data, k + 1) == Md2.ChecksumBlock(S, Md2.Checksum(S, data, k), data[16 * k..16 * (k + 1)])
  {
    hide Md2.CompressBlock, Md2.ChecksumBlock;
  }
}

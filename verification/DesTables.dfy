/** The tables and the bit networks of DES, and what FIPS 46-3 says of them. */
module DesTables {
  import opened Bits
  import opened Des
  import W = Words

  // ---------- the initial permutation ----------

  // The steps of the network in the operators of machine words.

  predicate IsMask(l: bv32, r: bv32, n: bv32, m: bv32, work: bv32)
    requires n < 32
  {
    work == ((l >> n) ^ r) & m
  }

  predicate IsMasked(x: bv32, n: bv32, work: bv32, y: bv32)
    requires n < 32
  {
    y == x ^ (work << n)
  }

  predicate IsXor(x: bv32, work: bv32, y: bv32) {
    y == x ^ work
  }

  predicate IsRotated(x: bv32, y: bv32) {
    y == (x << 1) | (x >> 31)
  }

  predicate MovedTo(l: bv32, r: bv32, n: bv32, m: bv32, work: bv32, l': bv32, r': bv32)
    requires n < 32
  {
    IsMask(l, r, n, m, work) && IsMasked(l, n, work, l') && IsXor(r, work, r')
  }

  lemma MaskIs(l: bv32, r: bv32, n: bv32, m: bv32)
    requires n < 32
    ensures IsMask(l, r, n, m, And(Xor(Shr(l, n), r), m))
  {
  }

  lemma MaskedIs(x: bv32, n: bv32, work: bv32)
    requires n < 32
    ensures IsMasked(x, n, work, Xor(x, Shl(work, n)))
  {
    hide Shl, Xor;
    ShiftIs(work, n);
    XorIs(x, work << n);
  }

  lemma ShiftIs(x: bv32, n: bv32)
    requires n < 32
    ensures Shl(x, n) == x << n
  {
  }

  lemma XorIsXor(x: bv32, work: bv32)
    ensures IsXor(x, work, Xor(x, work))
  {
  }

  lemma RolIs(x: bv32)
    ensures IsRotated(x, Rol(x, 1))
  {
  }

  lemma RorIs(x: bv32)
    ensures IsRotated(Ror(x, 1), x)
  {
  }

  lemma StepIs(x: Halves, n: bv32, m: bv32) returns (work: bv32)
    requires n < 32
    ensures MovedTo(x.l, x.r, n, m, work, SwapMove(x, n, m).l, SwapMove(x, n, m).r)
  {
    hide And, Xor, Shl, Shr, IsMask, IsMasked, IsXor;
    work := And(Xor(Shr(x.l, n), x.r), m);
    MaskIs(x.l, x.r, n, m);
    MaskedIs(x.l, n, work);
    XorIsXor(x.r, work);
  }

  /** Bit n of a block, counted from 0 at the left end. */
  function BlockBit(l: bv32, r: bv32, n: bv32): bv32
    requires n < 64
  {
    if n < 32 then (l >> (31 - n)) & 1 else (r >> (63 - n)) & 1
  }

  /** The words between the steps of the network; left and right are its results rotated back. */
  datatype Trace = Trace(w1: bv32, l1: bv32, r1: bv32, w2: bv32, l2: bv32, r2: bv32, w3: bv32, l3: bv32, r3: bv32,
                         w4: bv32, l4: bv32, r4: bv32, s4: bv32, w5: bv32, left: bv32, r5: bv32, right: bv32)

  predicate Traced(l: bv32, r: bv32, t: Trace) {
    && MovedTo(l, r, 4, 0x0f0f0f0f, t.w1, t.l1, t.r1) && MovedTo(t.l1, t.r1, 16, 0x0000ffff, t.w2, t.l2, t.r2)
    && MovedTo(t.r2, t.l2, 2, 0x33333333, t.w3, t.r3, t.l3) && MovedTo(t.r3, t.l3, 8, 0x00ff00ff, t.w4, t.r4, t.l4)
    && IsRotated(t.r4, t.s4) && MovedTo(t.l4, t.s4, 0, 0xaaaaaaaa, t.w5, t.left, t.r5) && IsRotated(t.right, t.r5)
  }

  lemma TracedBits(l: bv32, r: bv32, t: Trace, q: bv32, c: bv32)
    requires q < 4 && c < 8 && Traced(l, r, t)
    ensures (t.left >> (31 - 8 * q - c)) & 1 == BlockBit(l, r, 57 + 2 * q - 8 * c)
    ensures (t.right >> (31 - 8 * q - c)) & 1 == BlockBit(l, r, 56 + 2 * q - 8 * c)
  {
  }

  lemma RotatedBack(x: bv32)
    ensures Ror(Rol(x, 1), 1) == x
  {
    hide Ror, Rol;
    RotateBack(x, 1);
  }

  lemma InitialIsTraced(x: Halves) returns (t: Trace)
    ensures Traced(x.l, x.r, t)
    ensures t.left == Ror(Initial(x).l, 1) && t.right == Ror(Initial(x).r, 1)
  {
    hide SwapMove, Rol, Ror, MovedTo, IsRotated;
    var w1 := StepIs(x, 4, 0x0f0f0f0f);
    var x1 := SwapMove(x, 4, 0x0f0f0f0f);
    var w2 := StepIs(x1, 16, 0x0000ffff);
    var x2 := SwapMove(x1, 16, 0x0000ffff);
    var w3 := StepIs(Exchange(x2), 2, 0x33333333);
    var x3 := SwapMove(Exchange(x2), 2, 0x33333333);
    var w4 := StepIs(x3, 8, 0x00ff00ff);
    var x4 := SwapMove(x3, 8, 0x00ff00ff);
    assert Exchange(Exchange(x3)) == x3;
    RolIs(x4.l);
    var x5 := Halves(x4.r, Rol(x4.l, 1));
    var w5 := StepIs(x5, 0, 0xaaaaaaaa);
    var x6 := SwapMove(x5, 0, 0xaaaaaaaa);
    RotatedBack(x6.l);
    RorIs(x6.r);
    t := Trace(w1, x1.l, x1.r, w2, x2.l, x2.r, w3, x3.r, x3.l, w4, x4.r, x4.l, x5.r, w5, x6.l, x6.r, Ror(x6.r, 1));
  }

  /** The initial network is the permutation IP with both halves rotated by one place: row q of IP, from
      left to right, takes every eighth bit of the block from the end on, those of column 58, 60, 62 and
      64 for the left half and of column 57, 59, 61 and 63 for the right one, where FIPS 46-3 counts
      from 1. */
  lemma InitialIsIP(x: Halves, q: bv32, c: bv32)
    requires q < 4 && c < 8
    ensures var y := Initial(x);
            && (Ror(y.l, 1) >> (31 - 8 * q - c)) & 1 == BlockBit(x.l, x.r, 57 + 2 * q - 8 * c)
            && (Ror(y.r, 1) >> (31 - 8 * q - c)) & 1 == BlockBit(x.l, x.r, 56 + 2 * q - 8 * c)
  {
    hide Initial, Ror, Traced, BlockBit;
    var t := InitialIsTraced(x);
    TracedBits(x.l, x.r, t, q, c);
  }

  // ---------- the rounds ----------

  lemma SixIs(x: bv32, n: bv32)
    requires n < 32
    ensures Six(Shr(x, n)) == ((x >> n) & 0x3f) as bv6
    ensures Six(x) == (x & 0x3f) as bv6
  {
  }

  /** A round: the right half, moved by four places for the odd boxes, meets two key words, and each six
      bits of these, apart by two, go into a box; box 1 and box 2 get the leftmost. */
  lemma RoundSpelled(sp: Boxes, k: seq<bv32>, x: Halves, n: nat)
    requires |k| == 32 && n < 16
    ensures var y := Feistel(sp, k, x, n);
            var u, v := Xor(Ror(y.r, 4), k[2 * n]), Xor(y.r, k[2 * n + 1]);
            var f := Xor(Xor(Xor(sp.sp7(Six(u)), sp.sp5(Six(Shr(u, 8)))), sp.sp3(Six(Shr(u, 16)))), sp.sp1(Six(Shr(u, 24))));
            var g := Xor(Xor(Xor(sp.sp8(Six(v)), sp.sp6(Six(Shr(v, 8)))), sp.sp4(Six(Shr(v, 16)))), sp.sp2(Six(Shr(v, 24))));
            Feistel(sp, k, x, 0) == x && Feistel(sp, k, x, n + 1) == Halves(y.r, Xor(Xor(y.l, f), g))
  {
    hide Xor, Ror, Shr, Six;
  }

  // ---------- the key schedule ----------

  /** The choice of bits is the table PC-1: the columns of the key from the left, and behind three of
      them from the right, without the last column, which holds the parity. */
  lemma FirstChoice(j: nat)
    requires j < 56
    ensures PC1[j] == if j < 28 then 8 * (7 - j % 8) + j / 8
                      else if j < 52 then 8 * (7 - (j - 28) % 8) + 6 - (j - 28) / 8
                      else 8 * (55 - j) + 3
  {
    if j < 28 {
      FirstHalf(j / 8, j % 8);
    } else if j < 52 {
      SecondHalf((j - 28) / 8, (j - 28) % 8);
    }
  }

  lemma FirstHalf(q: nat, c: nat)
    requires c < 8 && 8 * q + c < 28
    ensures PC1[8 * q + c] == 8 * (7 - c) + q
  {
    if q == 0 {
    } else if q == 1 {
    } else if q == 2 {
    }
  }

  lemma SecondHalf(q: nat, c: nat)
    requires c < 8 && q < 3
    ensures PC1[28 + 8 * q + c] == 8 * (7 - c) + 6 - q
  {
    if q == 0 {
    } else if q == 1 {
    }
  }

  /** The registers turn by one place in rounds 1, 2, 9 and 16 and by two in all the others. */
  lemma Turns(i: nat)
    requires i < 16
    ensures |TOTROT| == 16 && TOTROT[i] - (if i == 0 then 0 else TOTROT[i - 1]) == if i + 1 in {1, 2, 9, 16} then 1 else 2
  {
  }

  /** The table PC-2 as FIPS 46-3 prints it, counting from 1. */
  const PRINTED: seq<nat> :=
    [14, 17, 11, 24, 1, 5, 3, 28, 15, 6, 21, 10] + [23, 19, 12, 4, 26, 8, 16, 7, 27, 20, 13, 2]
    + [41, 52, 31, 37, 47, 55, 30, 40, 51, 45, 33, 48] + [44, 49, 39, 56, 34, 53, 46, 42, 50, 36, 29, 32]

  lemma SecondChoice(j: nat)
    requires j < 48
    ensures |PC2| == |PRINTED| == 48 && PRINTED[j] == PC2[j] as nat + 1
  {
  }

  /** Each half of the bits is turned to the left within itself. */
  lemma TurnedBits(b: seq<bool>, n: rotation, j: nat)
    requires |b| == 56 && j < 28
    ensures Rotated(b, n)[j] == b[(j + n) % 28] && Rotated(b, n)[28 + j] == b[28 + (j + n) % 28]
  {
  }

  /** Bits of the key count from the high end of its bytes. */
  lemma KeyBitIs(key: seq<bv8>, i: nat, n: nat, m: bv8)
    requires |key| == 8 && i < 8 && n < 8 && m == [0x80, 0x40, 0x20, 0x10, 0x08, 0x04, 0x02, 0x01][n]
    ensures KeyBit(key, 8 * i + n) <==> key[i] & m != 0
  {
    assert (8 * i + n) / 8 == i && (8 * i + n) % 8 == n;
    BitSet(key[i], m);
  }

  lemma BitSet(b: bv8, m: bv8)
    requires m == 0x80 || m == 0x40 || m == 0x20 || m == 0x10 || m == 0x08 || m == 0x04 || m == 0x02 || m == 0x01
    ensures b & m == m <==> b & m != 0
  {
  }

  predicate IsSet(x: bv32, place: bv32) {
    x & place != 0
  }

  /** The chosen bits fill the 24 places of a word from the highest down. */
  lemma {:induction false} RawBits(b: seq<bool>, half: nat, n: nat, j: nat)
    requires |b| == 56 && half <= 24 && j < 24 && n <= 24
    ensures |PC2| == 48 && |BIGBYTE| == 24
    ensures IsSet(RawWord(b, half, n), BIGBYTE[j]) <==> j < n && b[PC2[half + j]]
  {
    hide PC2, BIGBYTE, Or, IsSet;
    TableSizes();
    if n == 0 {
      NothingSet(BIGBYTE[j]);
    } else {
      var w := RawWord(b, half, n - 1);
      RawBits(b, half, n - 1, j);
      AddedBit(w, BIGBYTE[n - 1], BIGBYTE[j]);
      Places(n - 1, j);
    }
  }

  lemma NothingSet(place: bv32)
    ensures !IsSet(0, place)
  {
  }

  lemma AddedBit(w: bv32, p: bv32, place: bv32)
    ensures IsSet(Or(w, p), place) <==> IsSet(w, place) || IsSet(p, place)
  {
    hide Or, IsSet;
    OrIs(w, p);
    EitherSet(w, p, place);
  }

  lemma EitherSet(w: bv32, p: bv32, place: bv32)
    ensures IsSet(w | p, place) <==> IsSet(w, place) || IsSet(p, place)
  {
    hide IsSet;
    OrCommutes(w, p);
    if IsSet(w, place) {
      FirstSet(w, p, place);
    } else if IsSet(p, place) {
      FirstSet(p, w, place);
    } else {
      NeitherSet(w, p, place);
    }
  }

  lemma OrCommutes(w: bv32, p: bv32)
    ensures w | p == p | w
  {
  }

  lemma FirstSet(w: bv32, p: bv32, place: bv32)
    requires IsSet(w, place)
    ensures IsSet(w | p, place)
  {
  }

  lemma NeitherSet(w: bv32, p: bv32, place: bv32)
    requires !IsSet(w, place) && !IsSet(p, place)
    ensures !IsSet(w | p, place)
  {
  }

  lemma Places(i: nat, j: nat)
    requires i < 24 && j < 24
    ensures |BIGBYTE| == 24 && (IsSet(BIGBYTE[i], BIGBYTE[j]) <==> i == j)
  {
    PlaceIs(i);
    PlaceIs(j);
    hide BIGBYTE, IsSet;
    OneBits(i, j, BIGBYTE[i], BIGBYTE[j]);
  }

  /** Place j of a word, the highest of which is bit 23. */
  predicate IsPlace(j: nat, x: bv32)
    requires j < 24
  {
    x == 0x80_0000 >> ((j as bv5) as bv32)
  }

  lemma PlaceIs(j: nat)
    requires j < 24
    ensures |BIGBYTE| == 24 && IsPlace(j, BIGBYTE[j])
  {
    hide IsPlace;
    if j < 8 {
      HighPlace(j);
    } else if j < 16 {
      MiddlePlace(j);
    } else {
      LowPlace(j);
    }
  }

  lemma HighPlace(j: nat)
    requires j < 8
    ensures |BIGBYTE| == 24 && IsPlace(j, BIGBYTE[j])
  {
  }

  lemma MiddlePlace(j: nat)
    requires 8 <= j < 16
    ensures |BIGBYTE| == 24 && IsPlace(j, BIGBYTE[j])
  {
  }

  lemma LowPlace(j: nat)
    requires 16 <= j < 24
    ensures |BIGBYTE| == 24 && IsPlace(j, BIGBYTE[j])
  {
  }

  lemma OneBits(i: nat, j: nat, x: bv32, y: bv32)
    requires i < 24 && j < 24 && IsPlace(i, x) && IsPlace(j, y)
    ensures IsSet(x, y) <==> i == j
  {
    hide IsSet;
    SameNumber(i, j);
    ShiftedBits(i as bv5, j as bv5);
  }

  lemma SameNumber(i: nat, j: nat)
    requires i < 24 && j < 24
    ensures i as bv5 < 24 && j as bv5 < 24 && (i as bv5 == j as bv5 <==> i == j)
  {
  }

  lemma ShiftedBits(i: bv5, j: bv5)
    requires i < 24 && j < 24
    ensures IsSet(0x80_0000 >> (i as bv32), 0x80_0000 >> (j as bv32)) <==> i == j
  {
  }

  /** Six bits of a 24-bit word, the n-th from the left. */
  function Sextet(raw: bv32, n: bv32): bv32
    requires n < 4
  {
    (raw >> (18 - 6 * n)) & 0x3f
  }

  /** The odd sextets of the two words of a round go into the bytes of the one, the even ones into those
      of the other. */
  lemma CookedSextets(raw0: bv32, raw1: bv32)
    ensures CookFirst(raw0, raw1) == (Sextet(raw0, 0) << 24) | (Sextet(raw0, 2) << 16) | (Sextet(raw1, 0) << 8) | Sextet(raw1, 2)
    ensures CookSecond(raw0, raw1) == (Sextet(raw0, 1) << 24) | (Sextet(raw0, 3) << 16) | (Sextet(raw1, 1) << 8) | Sextet(raw1, 3)
  {
  }

  /** The words of round i come of the chosen bits after that round's turns. */
  lemma RoundWords(key: seq<bv8>, i: nat)
    requires |key| == 8 && i < 16
    ensures |TOTROT| == 16
    ensures var b := Rotated(ChosenBits(key), TOTROT[i]);
            var raw0, raw1 := RawWord(b, 0, 24), RawWord(b, 24, 24);
            && Schedule(key, EN0)[2 * i] == CookFirst(raw0, raw1) && Schedule(key, EN0)[2 * i + 1] == CookSecond(raw0, raw1)
  {
    hide ChosenBits, RawWord, CookFirst, CookSecond, PC1, PC2, TOTROT, Rotated;
    TableSizes();
    CookedPair(RawKey(key, EN0), i);
    EvenOdd(i);
  }

  /** Bit j of the choice is a bit of the key. */
  lemma ChosenBit(key: seq<bv8>, j: nat)
    requires |key| == 8 && j < 56
    ensures |PC1| == 56 && ChosenBits(key)[j] == KeyBit(key, PC1[j])
  {
    hide PC1, KeyBit;
    TableSizes();
  }

  // ---------- the ciphers ----------

  lemma DesSpelled(sp: Boxes, key: seq<bv8>, x: Halves)
    requires |key| == 8
    ensures DesEncryption(sp, key, x) == Final(Feistel(sp, Schedule(key, EN0), Initial(x), 16))
  {
    hide Initial, Final, Feistel, Schedule;
  }

  /** Triple DES encrypts with the first key, decrypts with the second and encrypts with the third, or
      again with the first. */
  lemma Des3Spelled(sp: Boxes, k1: seq<bv8>, k2: seq<bv8>, k3: seq<bv8>, x: Halves)
    requires |k1| == |k2| == |k3| == 8
    ensures Des3Encryption(sp, k1 + k2 + k3, x) == DesEncryption(sp, k3, DesDecryption(sp, k2, DesEncryption(sp, k1, x)))
    ensures Des3Encryption(sp, k1 + k2, x) == DesEncryption(sp, k1, DesDecryption(sp, k2, DesEncryption(sp, k1, x)))
  {
    hide DesEncryption, DesDecryption;
    var three, two := k1 + k2 + k3, k1 + k2;
    assert three[0..8] == k1 && three[8..16] == k2 && three[16..24] == k3;
    assert two[0..8] == k1 && two[8..16] == k2;
  }

  /** Blocks have their high bytes first. */
  lemma DesWords(b: seq<bv8>)
    requires |b| == 8
    ensures LoadBlock(b) == Halves(W.Load32H(b[..4]), W.Load32H(b[4..]))
  {
    hide W.Load32H;
    assert b[0..4] == b[..4] && b[4..8] == b[4..];
  }
}

/** The IDEA block cipher (ciphers/idea.c): multiplication modulo 65537, the two key schedules and
    the one block function that both encrypts and decrypts. */
module Idea {
  import opened Words
  import opened PrimeField

  const ROUNDS: nat := 8
  const KEYLEN: nat := 6 * ROUNDS + 4

  // ---------- multiplication in the group of nonzero residues modulo 65537 ----------

  const M: nat := 0x1_0001

  /** The residue a word stands for: 0 stands for 65536. */
  function Residue(x: bv16): (v: nat)
    ensures 0 < v < M
  {
    if Value16(x) == 0 then 0x1_0000 else Value16(x)
  }

  function FromResidue(v: nat): bv16 {
    Word16(v % 0x1_0000)
  }

  function GroupTimes(a: bv16, b: bv16): bv16 {
    FromResidue(Times(M, Residue(a), Residue(b)))
  }

  function GroupInverse(x: bv16): bv16 {
    FromResidue(Power(M, Residue(x), M - 2))
  }

  lemma ResidueRoundTrip(v: nat, x: bv16)
    requires 0 < v < M
    ensures Residue(FromResidue(v)) == v
    ensures FromResidue(Residue(x)) == x
  {
    hide Value16, Word16;
    ValueOfWord16(v % 0x1_0000);
    Word16OfValue(x);
  }

  lemma GroupTimesResidue(a: bv16, b: bv16)
    ensures Residue(GroupTimes(a, b)) == Times(M, Residue(a), Residue(b))
  {
    hide Residue, FromResidue, Times;
    Prime65537();
    TimesNonzero(M, Residue(a), Residue(b));
    ResidueRoundTrip(Times(M, Residue(a), Residue(b)), a);
  }

  /** Multiplying by x and then by the inverse of x gives back the word, for every x including 0. */
  lemma GroupTimesInverse(y: bv16, x: bv16)
    ensures GroupTimes(GroupTimes(y, x), GroupInverse(x)) == y
    ensures GroupTimes(x, GroupInverse(x)) == 1
  {
    hide Residue, FromResidue, Times, Power;
    var v, w := Residue(x), Residue(y);
    var i := Power(M, v, M - 2);
    Prime65537();
    InverseByPower(M, v);
    ResidueRoundTrip(i, y);
    GroupTimesResidue(y, x);
    TimesAssociates(M, w, v, i);
    TimesOne(M, w);
    ResidueOne();
    ResidueRoundTrip(1, 1);
  }

  lemma ResidueOne()
    ensures Residue(1) == 1
  {
  }

  lemma InverseByPower(p: nat, v: nat)
    requires Prime(p) && 0 < v < p
    ensures Times(p, v, Power(p, v, p - 2)) == 1 && 0 < Power(p, v, p - 2)
  {
    Fermat(p, v);
    assert v * 0 == 0;
  }

  /** The multiplication macro: low half of the 32-bit product minus high half, with the borrow
      added back, and a separate rule when an operand is 0. */
  method Mul(a: bv16, b: bv16) returns (r: bv16)
    ensures r == GroupTimes(a, b)
  {
    hide Value16, Word16, Times, GroupTimes;
    var p: nat := Product32(a, b);
    if p != 0 {
      NonzeroProduct(a, b, p);
      p := (p % 0x1_0000 - p / 0x1_0000) % 0x1_0000_0000;
      r := Word16((p % 0x1_0000 - p / 0x1_0000 % 0x1_0000) % 0x1_0000);
    } else {
      ZeroProduct(a, b);
      r := Word16((1 - Value16(a) - Value16(b)) % 0x1_0000);
    }
  }

  /** The product of two 16-bit words fits in 32 bits. */
  function Product32(a: bv16, b: bv16): (p: nat)
    ensures p < 0x1_0000_0000
  {
    var x, y := Value16(a), Value16(b);
    ProductBound(x, y, 0x1_0000);
    x * y
  }

  lemma ProductBound(x: nat, y: nat, m: nat)
    requires x < m && y < m
    ensures x * y < m * m
  {
    MulMonotonic(x, y, m);
    MulMonotonic(m, x, m);
    assert x * m == m * x;
  }

  lemma MulMonotonic(a: nat, x: nat, y: nat)
    requires x < y
    ensures a * x <= a * y && (a > 0 ==> a * x < a * y)
  {
  }

  lemma ProductResidue(a: bv16, b: bv16, p: nat)
    requires p == Product32(a, b) && p != 0
    ensures Times(M, Residue(a), Residue(b)) == p % M
  {
    hide Value16;
    assert Residue(a) == Value16(a) && Residue(b) == Value16(b);
    TimesIsMod(Residue(a), Residue(b));
  }

  lemma NonzeroProduct(a: bv16, b: bv16, p: nat)
    requires p == Product32(a, b) && p != 0
    ensures var q := (p % 0x1_0000 - p / 0x1_0000) % 0x1_0000_0000;
      GroupTimes(a, b) == Word16((q % 0x1_0000 - q / 0x1_0000 % 0x1_0000) % 0x1_0000)
  {
    hide Value16, Word16, Times, Residue, Product32;
    LowMinusHigh(p, p % 0x1_0000, p / 0x1_0000);
    ProductResidue(a, b, p);
  }

  lemma TimesIsMod(x: nat, y: nat)
    ensures Times(M, x, y) == (x * y) % M
  {
  }

  lemma LowMinusHigh(p: nat, lo: nat, hi: nat)
    requires p == hi * 0x1_0000 + lo && lo < 0x1_0000 && hi < 0x1_0000
    ensures var q := (lo - hi) % 0x1_0000_0000;
      p % M % 0x1_0000 == (q % 0x1_0000 - q / 0x1_0000 % 0x1_0000) % 0x1_0000
  {
    if lo >= hi {
      ModUnique(M, hi, lo - hi, p);
      DivMod(lo - hi, 0, lo - hi, 0x1_0000);
    } else {
      LowBelowHigh(p, lo, hi);
    }
  }

  /** The difference wraps around to 32 bits, and its upper half gives the one that is missing. */
  lemma LowBelowHigh(p: nat, lo: nat, hi: nat)
    requires p == hi * 0x1_0000 + lo && lo < hi < 0x1_0000
    ensures var q := (lo - hi) % 0x1_0000_0000;
      p % M % 0x1_0000 == (q % 0x1_0000 - q / 0x1_0000 % 0x1_0000) % 0x1_0000
  {
    ModUnique(M, hi - 1, lo - hi + M, p);
    ModUnique(0x1_0000_0000, -1, 0x1_0000_0000 + lo - hi, lo - hi);
    DivMod(0x1_0000_0000 + lo - hi, 0xFFFF, 0x1_0000 + lo - hi, 0x1_0000);
  }

  lemma ZeroProduct(a: bv16, b: bv16)
    requires Product32(a, b) == 0
    ensures GroupTimes(a, b) == Word16((1 - Value16(a) - Value16(b)) % 0x1_0000)
  {
    hide Value16, Word16;
    var x, y := Value16(a), Value16(b);
    if x == 0 && y == 0 {
      ModUnique(M, 0xFFFF, 1, 0x1_0000 * 0x1_0000);
    } else if x == 0 {
      ModUnique(M, y - 1, M - y, 0x1_0000 * y);
    } else {
      assert y == 0;
      ModUnique(M, x - 1, M - x, x * 0x1_0000);
    }
  }

  /** Fifteen times square and multiply, starting from x: x to the power 2^16 - 1. */
  method MulInv(x: bv16) returns (y: bv16)
    ensures y == GroupInverse(x)
  {
    hide Residue, FromResidue, Times, Power;
    y := x;
    ghost var e := 1;
    PowerOne(M, Residue(x));
    for i := 0 to 15
      invariant e == TwoTo(i + 1) - 1
      invariant Residue(y) == Power(M, Residue(x), e)
    {
      GroupTimesResidue(y, y);
      PowerAdds(M, Residue(x), e, e);
      y := Mul(y, y);
      GroupTimesResidue(y, x);
      PowerAdds(M, Residue(x), 2 * e, 1);
      y := Mul(y, x);
      e := 2 * e + 1;
    }
    TwoToSixteen();
    ResidueRoundTrip(1, y);
  }

  lemma TwoToSixteen()
    ensures TwoTo(16) == 0x1_0000
  {
    assert TwoTo(4) == 16 && TwoTo(8) == 16 * TwoTo(4) && TwoTo(12) == 16 * TwoTo(8) && TwoTo(16) == 16 * TwoTo(12);
  }

  ghost function TwoTo(n: nat): (r: nat)
    ensures r > 0
  {
    if n == 0 then 1 else 2 * TwoTo(n - 1)
  }

  lemma PowerOne(p: nat, x: nat)
    requires p >= 2 && x < p
    ensures Power(p, x, 1) == x
  {
    TimesOne(p, x);
    assert Power(p, x, 0) == 1;
  }

  // ---------- key schedule ----------

  /** The low 7 bits of one word and the high 9 of the next. */
  function Splice(x: bv16, y: bv16): bv16 {
    (x << 9) | (y >> 7)
  }

  /** The i-th word of the encryption schedule of a 16-byte key. */
  function EncKeyWord(key: seq<bv8>, i: nat): bv16
    requires |key| == 16
  {
    if i < 8 then
      Load16H(key[2 * i..2 * i + 2])
    else
      var j := i - i % 8 - 8;
      Splice(EncKeyWord(key, j + (i + 1) % 8), EncKeyWord(key, j + (i + 2) % 8))
  }

  function EncKey(key: seq<bv8>): (ek: seq<bv16>)
    requires |key| == 16
    ensures |ek| == KEYLEN
  {
    seq(KEYLEN, i requires 0 <= i < KEYLEN => EncKeyWord(key, i))
  }

  /** Eight schedule words as one 128-bit number. */
  function KeyNumber(w: seq<bv16>): bv128
    requires |w| == 8
  {
    ((w[0] as bv128) << 112) | ((w[1] as bv128) << 96) | ((w[2] as bv128) << 80) | ((w[3] as bv128) << 64)
    | ((w[4] as bv128) << 48) | ((w[5] as bv128) << 32) | ((w[6] as bv128) << 16) | (w[7] as bv128)
  }

  function KeyGroup(key: seq<bv8>, g: nat): (w: seq<bv16>)
    requires |key| == 16
    ensures |w| == 8
  {
    seq(8, i requires 0 <= i < 8 => EncKeyWord(key, 8 * g + i))
  }

  /** What the indexed shifts amount to: each group of eight words is the previous one, read as a
      128-bit number, rotated left by 25 bits. */
  lemma KeyGroupRotates(key: seq<bv8>, g: nat)
    requires |key| == 16
    ensures var n := KeyNumber(KeyGroup(key, g));
      KeyNumber(KeyGroup(key, g + 1)) == (n << 25) | (n >> 103)
  {
    hide KeyNumber, Splice, EncKeyWord;
    var w, v := KeyGroup(key, g), KeyGroup(key, g + 1);
    forall i: nat | i < 8
      ensures v[i] == Splice(w[(i + 1) % 8], w[(i + 2) % 8])
    {
      NextGroupWord(key, g, i);
    }
    RotateWords(w, v);
  }

  lemma RemainderInGroup(g: nat, i: nat)
    ensures (8 * g + i) % 8 == i % 8
  {
  }

  lemma EncKeyWordIs(key: seq<bv8>, n: nat, j: nat)
    requires |key| == 16 && n >= 8 && j == n - n % 8 - 8
    ensures EncKeyWord(key, n) == Splice(EncKeyWord(key, j + (n + 1) % 8), EncKeyWord(key, j + (n + 2) % 8))
  {
    hide Splice, Load16H;
  }

  lemma NextGroupWord(key: seq<bv8>, g: nat, i: nat)
    requires |key| == 16 && i < 8
    ensures EncKeyWord(key, 8 * (g + 1) + i) == Splice(EncKeyWord(key, 8 * g + (i + 1) % 8), EncKeyWord(key, 8 * g + (i + 2) % 8))
  {
    hide EncKeyWord, Splice;
    var n := 8 * (g + 1) + i;
    RemainderInGroup(g + 1, i);
    RemainderInGroup(g + 1, i + 1);
    RemainderInGroup(g + 1, i + 2);
    assert n % 8 == i && (n + 1) % 8 == (i + 1) % 8 && (n + 2) % 8 == (i + 2) % 8;
    EncKeyWordIs(key, n, 8 * g);
  }

  lemma RotateWords(w: seq<bv16>, v: seq<bv16>)
    requires |w| == 8 && |v| == 8
    requires forall i :: 0 <= i < 8 ==> v[i] == Splice(w[(i + 1) % 8], w[(i + 2) % 8])
    ensures KeyNumber(v) == (KeyNumber(w) << 25) | (KeyNumber(w) >> 103)
  {
  }

  /** C promotes 16-bit words to int and truncates on assignment. */
  function Add(x: bv16, y: bv16): bv16 {
    Word16((Value16(x) + Value16(y)) % 0x1_0000)
  }

  function Negate(x: bv16): bv16 {
    Word16((0 - Value16(x)) % 0x1_0000)
  }

  function Xor(x: bv16, y: bv16): bv16 {
    x ^ y
  }

  lemma AddNegate(x: bv16, k: bv16)
    ensures Add(Add(x, k), Negate(k)) == x
  {
    hide Value16, Word16;
    var v: int, w: int := Value16(x), Value16(k);
    AddNegateValues(v, w);
    ValueOfWord16((v + w) % 0x1_0000);
    ValueOfWord16((0 - w) % 0x1_0000);
    Word16OfValue(x);
  }

  lemma AddNegateValues(v: int, w: int)
    requires 0 <= v < 0x1_0000 && 0 <= w < 0x1_0000
    ensures ((v + w) % 0x1_0000 + (0 - w) % 0x1_0000) % 0x1_0000 == v
  {
  }

  lemma XorIs(x: bv16, y: bv16)
    ensures Xor(x, y) == x ^ y
  {
  }

  lemma XorTwice(x: bv16, m: bv16)
    ensures Xor(Xor(x, m), m) == x
  {
    hide Xor;
    XorIs(x, m);
    XorIs(x ^ m, m);
  }

  lemma XorCommutes(x: bv16, y: bv16)
    ensures Xor(x, y) == Xor(y, x)
  {
  }

  lemma XorBoth(x: bv16, y: bv16, m: bv16)
    ensures Xor(Xor(x, m), Xor(y, m)) == Xor(x, y)
  {
    hide Xor;
    XorIs(x, m);
    XorIs(y, m);
    XorIs(x ^ m, y ^ m);
    XorIs(x, y);
  }

  /** The n-th word of the decryption schedule: multiplicative inverses, negated additive words
      (exchanged in the inner rounds), and the two mixing words of the mirrored round. */
  function DecKeyWord(ek: seq<bv16>, n: nat): bv16
    requires |ek| == KEYLEN && n < KEYLEN
  {
    var i, j := n / 6, n % 6;
    var inner := if 0 < i < ROUNDS then 1 else 0;
    match j
    case 0 => GroupInverse(ek[(ROUNDS - i) * 6])
    case 1 => Negate(ek[(ROUNDS - i) * 6 + 1 + inner])
    case 2 => Negate(ek[(ROUNDS - i) * 6 + 2 - inner])
    case 3 => GroupInverse(ek[(ROUNDS - i) * 6 + 3])
    case _ => ek[(ROUNDS - 1 - i) * 6 + j]
  }

  function DecKey(ek: seq<bv16>): (dk: seq<bv16>)
    requires |ek| == KEYLEN
    ensures |dk| == KEYLEN
  {
    seq(KEYLEN, n requires 0 <= n < KEYLEN => DecKeyWord(ek, n))
  }

  // ---------- the block function ----------

  datatype Block = Block(x0: bv16, x1: bv16, x2: bv16, x3: bv16)

  function LoadBlock(b: seq<bv8>): Block
    requires |b| == 8
  {
    Block(Load16H(b[0..2]), Load16H(b[2..4]), Load16H(b[4..6]), Load16H(b[6..8]))
  }

  function StoreBlock(x: Block): (b: seq<bv8>)
    ensures |b| == 8
  {
    Store16H(x.x0) + Store16H(x.x1) + Store16H(x.x2) + Store16H(x.x3)
  }

  /** The four keyed group operations. */
  function KeyLayer(k0: bv16, k1: bv16, k2: bv16, k3: bv16, x: Block): Block {
    Block(GroupTimes(x.x0, k0), Add(x.x1, k1), Add(x.x2, k2), GroupTimes(x.x3, k3))
  }

  /** The multiply-add mask of a round; it depends on x only through x0 ^ x2 and x1 ^ x3. */
  function Mask(k4: bv16, k5: bv16, p: bv16, q: bv16): (bv16, bv16) {
    var t0 := GroupTimes(p, k4);
    var t1 := GroupTimes(Add(t0, q), k5);
    (Add(t0, t1), t1)
  }

  function ApplyMask(m: (bv16, bv16), x: Block): Block {
    Block(Xor(x.x0, m.1), Xor(x.x1, m.0), Xor(x.x2, m.1), Xor(x.x3, m.0))
  }

  function Swap(x: Block): Block {
    Block(x.x0, x.x2, x.x1, x.x3)
  }

  function Mix(k4: bv16, k5: bv16, x: Block): Block {
    Swap(ApplyMask(Mask(k4, k5, Xor(x.x0, x.x2), Xor(x.x1, x.x3)), x))
  }

  /** The two layers of round i, with the words of row i of a schedule. */
  function RowLayer(k: seq<bv16>, i: nat, x: Block): Block
    requires |k| == KEYLEN && i <= ROUNDS
  {
    KeyLayer(k[i * 6], k[i * 6 + 1], k[i * 6 + 2], k[i * 6 + 3], x)
  }

  function RowMix(k: seq<bv16>, i: nat, x: Block): Block
    requires |k| == KEYLEN && i < ROUNDS
  {
    Mix(k[i * 6 + 4], k[i * 6 + 5], x)
  }

  /** The state after n rounds. */
  function Rounds(k: seq<bv16>, x: Block, n: nat): Block
    requires |k| == KEYLEN && n <= ROUNDS
  {
    if n == 0 then x else RowMix(k, n - 1, RowLayer(k, n - 1, Rounds(k, x, n - 1)))
  }

  function Process(k: seq<bv16>, x: Block): Block
    requires |k| == KEYLEN
  {
    RowLayer(k, ROUNDS, Swap(Rounds(k, x, ROUNDS)))
  }

  // ---------- decryption undoes encryption ----------

  lemma KeyLayerInverse(k0: bv16, k1: bv16, k2: bv16, k3: bv16, x: Block)
    ensures KeyLayer(GroupInverse(k0), Negate(k1), Negate(k2), GroupInverse(k3), KeyLayer(k0, k1, k2, k3, x)) == x
  {
    hide GroupTimes, GroupInverse, Add, Negate;
    GroupTimesInverse(x.x0, k0);
    GroupTimesInverse(x.x3, k3);
    AddNegate(x.x1, k1);
    AddNegate(x.x2, k2);
  }

  /** A mixing layer with its exchange taken off is its own inverse. */
  lemma MixInverse(k4: bv16, k5: bv16, x: Block)
    ensures Mix(k4, k5, Swap(Mix(k4, k5, x))) == Swap(x)
  {
    hide Mask, Xor;
    var m := Mask(k4, k5, Xor(x.x0, x.x2), Xor(x.x1, x.x3));
    XorBoth(x.x0, x.x2, m.1);
    XorBoth(x.x1, x.x3, m.0);
    XorTwice(x.x0, m.1);
    XorTwice(x.x1, m.0);
    XorTwice(x.x2, m.1);
    XorTwice(x.x3, m.0);
  }

  lemma DecKeyRow(ek: seq<bv16>, i: nat)
    requires |ek| == KEYLEN && i <= ROUNDS
    ensures var r := (ROUNDS - i) * 6;
      && DecKeyWord(ek, i * 6) == GroupInverse(ek[r])
      && DecKeyWord(ek, i * 6 + 1) == Negate(ek[if 0 < i < ROUNDS then r + 2 else r + 1])
      && DecKeyWord(ek, i * 6 + 2) == Negate(ek[if 0 < i < ROUNDS then r + 1 else r + 2])
      && DecKeyWord(ek, i * 6 + 3) == GroupInverse(ek[r + 3])
      && (i < ROUNDS ==> DecKeyWord(ek, i * 6 + 4) == ek[r - 2] && DecKeyWord(ek, i * 6 + 5) == ek[r - 1])
  {
    hide GroupInverse, Negate;
    DivMod(i * 6, i, 0, 6);
    DivMod(i * 6 + 1, i, 1, 6);
    DivMod(i * 6 + 2, i, 2, 6);
    DivMod(i * 6 + 3, i, 3, 6);
    DivMod(i * 6 + 4, i, 4, 6);
    DivMod(i * 6 + 5, i, 5, 6);
  }

  lemma KeyLayerOfSwap(k0: bv16, k1: bv16, k2: bv16, k3: bv16, x: Block)
    ensures KeyLayer(k0, k1, k2, k3, Swap(x)) == Swap(KeyLayer(k0, k2, k1, k3, x))
  {
    hide GroupTimes, Add;
  }

  lemma UndoOuterLayer(ek: seq<bv16>, i: nat, x: Block)
    requires |ek| == KEYLEN && (i == 0 || i == ROUNDS)
    ensures RowLayer(DecKey(ek), i, RowLayer(ek, ROUNDS - i, x)) == x
  {
    hide KeyLayer, GroupInverse, Negate, DecKeyWord;
    var r := (ROUNDS - i) * 6;
    DecKeyRow(ek, i);
    KeyLayerInverse(ek[r], ek[r + 1], ek[r + 2], ek[r + 3], x);
  }

  lemma UndoInnerLayer(ek: seq<bv16>, i: nat, x: Block)
    requires |ek| == KEYLEN && 0 < i < ROUNDS
    ensures RowLayer(DecKey(ek), i, Swap(RowLayer(ek, ROUNDS - i, x))) == Swap(x)
  {
    hide KeyLayer, GroupInverse, Negate, DecKeyWord;
    var r := (ROUNDS - i) * 6;
    DecKeyRow(ek, i);
    KeyLayerInverse(ek[r], ek[r + 1], ek[r + 2], ek[r + 3], x);
    KeyLayerOfSwap(GroupInverse(ek[r]), Negate(ek[r + 2]), Negate(ek[r + 1]), GroupInverse(ek[r + 3]),
                   RowLayer(ek, ROUNDS - i, x));
  }

  lemma UndoMix(ek: seq<bv16>, i: nat, x: Block)
    requires |ek| == KEYLEN && i < ROUNDS
    ensures RowMix(DecKey(ek), i, Swap(RowMix(ek, ROUNDS - 1 - i, x))) == Swap(x)
  {
    hide Mix, GroupInverse, Negate, DecKeyWord;
    var r := (ROUNDS - i) * 6;
    DecKeyRow(ek, i);
    MixInverse(ek[r - 2], ek[r - 1], x);
  }

  /** After n rounds of decryption the state is, up to the exchanged middle words, the state
      between the two layers of encryption round ROUNDS - n. */
  lemma {:induction false} DecryptRounds(ek: seq<bv16>, x: Block, n: nat)
    requires |ek| == KEYLEN && 1 <= n <= ROUNDS
    ensures Rounds(DecKey(ek), Process(ek, x), n) ==
            Swap(RowLayer(ek, ROUNDS - n, Rounds(ek, x, ROUNDS - n)))
  {
    hide RowLayer, RowMix, DecKey;
    var i := ROUNDS - n;
    var after := Rounds(ek, x, i + 1);
    if n == 1 {
      UndoOuterLayer(ek, 0, Swap(after));
    } else {
      DecryptRounds(ek, x, n - 1);
      UndoInnerLayer(ek, n - 1, after);
    }
    UndoMix(ek, n - 1, RowLayer(ek, i, Rounds(ek, x, i)));
  }

  /** The block function under the decryption schedule undoes the block function under the
      encryption schedule, whatever the 52 words of that schedule are. */
  lemma ProcessInverse(ek: seq<bv16>, x: Block)
    requires |ek| == KEYLEN
    ensures Process(DecKey(ek), Process(ek, x)) == x
  {
    hide RowLayer, RowMix, DecKey;
    DecryptRounds(ek, x, ROUNDS);
    UndoOuterLayer(ek, ROUNDS, x);
  }

  function EcbEncryption(key: seq<bv8>, pt: seq<bv8>): (ct: seq<bv8>)
    requires |key| == 16 && |pt| == 8
    ensures |ct| == 8
  {
    StoreBlock(Process(EncKey(key), LoadBlock(pt)))
  }

  function EcbDecryption(key: seq<bv8>, ct: seq<bv8>): (pt: seq<bv8>)
    requires |key| == 16 && |ct| == 8
    ensures |pt| == 8
  {
    StoreBlock(Process(DecKey(EncKey(key)), LoadBlock(ct)))
  }

  lemma LoadOfStore(x: Block)
    ensures LoadBlock(StoreBlock(x)) == x
  {
    hide Load16H, Store16H;
    var s := StoreBlock(x);
    assert s[0..2] == Store16H(x.x0) && s[2..4] == Store16H(x.x1)
        && s[4..6] == Store16H(x.x2) && s[6..8] == Store16H(x.x3);
    forall y: bv16
      ensures Load16H(Store16H(y)) == y
    {
      LoadStore16H(y, [0, 0]);
    }
  }

  lemma StoreOfLoad(b: seq<bv8>)
    requires |b| == 8
    ensures StoreBlock(LoadBlock(b)) == b
  {
    hide Load16H, Store16H;
    LoadStore16H(0, b[0..2]);
    LoadStore16H(0, b[2..4]);
    LoadStore16H(0, b[4..6]);
    LoadStore16H(0, b[6..8]);
    assert b[0..2] + b[2..4] == b[0..4] && b[0..4] + b[4..6] == b[0..6] && b[0..6] + b[6..8] == b;
  }

  /** Decryption undoes encryption for every 16-byte key and every block. */
  lemma DecryptAfterEncrypt(key: seq<bv8>, pt: seq<bv8>)
    requires |key| == 16 && |pt| == 8
    ensures EcbDecryption(key, EcbEncryption(key, pt)) == pt
  {
    hide Process, EncKey, DecKey, LoadBlock, StoreBlock;
    var ek := EncKey(key);
    LoadOfStore(Process(ek, LoadBlock(pt)));
    StoreOfLoad(pt);
    ProcessInverse(ek, LoadBlock(pt));
  }

  // ---------- the code ----------

  /** The four keys of a row that are inverted, the middle two swapped in the inner rounds. */
  method InvertedKeys(k: seq<bv16>, i: nat) returns (m0: bv16, a1: bv16, a2: bv16, m3: bv16)
    requires |k| == KEYLEN && i <= ROUNDS
    ensures m0 == DecKeyWord(k, 6 * i) && a1 == DecKeyWord(k, 6 * i + 1)
    ensures a2 == DecKeyWord(k, 6 * i + 2) && m3 == DecKeyWord(k, 6 * i + 3)
  {
    hide GroupInverse, Negate, DecKeyWord;
    var r := (ROUNDS - i) * 6;
    var inner := if 0 < i < ROUNDS then 1 else 0;
    DecKeyRow(k, i);
    m0 := MulInv(k[r + 0]);
    a1 := Negate(k[r + 1 + inner]);
    a2 := Negate(k[r + 2 - inner]);
    m3 := MulInv(k[r + 3]);
  }

  class SymmetricKey {
    const ek: array<bv16>
    const dk: array<bv16>

    ghost predicate Valid()
      reads this
    {
      ek != dk && ek.Length == KEYLEN && dk.Length == KEYLEN
    }

    /** The two tables are those of one 16-byte key. */
    ghost predicate Scheduled(key: seq<bv8>)
      requires |key| == 16
      reads this, ek, dk
    {
      Valid() && ek[..] == EncKey(key) && dk[..] == DecKey(EncKey(key))
    }

    constructor ()
      ensures Valid() && fresh(ek) && fresh(dk)
    {
      ek := new bv16[KEYLEN];
      dk := new bv16[KEYLEN];
    }

    method Setup(key: seq<bv8>, numRounds: int) returns (err: Status)
      requires Valid()
      modifies ek, dk
      ensures err == (if numRounds != 0 && numRounds != 8 then CRYPT_INVALID_ROUNDS
                      else if |key| != 16 then CRYPT_INVALID_KEYSIZE else CRYPT_OK)
      ensures err == CRYPT_OK ==> Scheduled(key)
      ensures err != CRYPT_OK ==> ek[..] == old(ek[..]) && dk[..] == old(dk[..])
    {
      if numRounds != 0 && numRounds != 8 {
        return CRYPT_INVALID_ROUNDS;
      }
      if |key| != 16 {
        return CRYPT_INVALID_KEYSIZE;
      }
      SetupEncKey(key);
      SetupDecKey();
      return CRYPT_OK;
    }

    method SetupEncKey(key: seq<bv8>)
      requires Valid() && |key| == 16
      modifies ek
      ensures ek[..] == EncKey(key)
    {
      hide Load16H, Splice;
      var i := 0;
      while i < 8
        invariant 0 <= i <= 8
        invariant forall n :: 0 <= n < i ==> ek[n] == EncKeyWord(key, n)
      {
        ek[i] := Load16H(key[2 * i..2 * i + 2]);
        i := i + 1;
      }
      while i < KEYLEN
        invariant 8 <= i <= KEYLEN
        invariant forall n :: 0 <= n < i ==> ek[n] == EncKeyWord(key, n)
      {
        var j := i - i % 8 - 8;
        ek[i] := Splice(ek[j + (i + 1) % 8], ek[j + (i + 2) % 8]);
        i := i + 1;
      }
    }

    method SetupDecKey()
      requires Valid()
      modifies dk
      ensures dk[..] == DecKey(ek[..])
    {
      hide DecKeyWord;
      for i := 0 to ROUNDS
        invariant forall n :: 0 <= n < 6 * i ==> dk[n] == DecKeyWord(ek[..], n)
      {
        SetupDecRow(i);
      }
      SetupDecRow(ROUNDS);
    }

    /** One turn of the loop that fills dk; the last, incomplete, row is written after the loop. */
    method SetupDecRow(i: nat)
      requires Valid() && i <= ROUNDS
      modifies dk
      ensures forall n :: 0 <= n < 6 * i ==> dk[n] == old(dk[n])
      ensures dk[6 * i] == DecKeyWord(ek[..], 6 * i) && dk[6 * i + 1] == DecKeyWord(ek[..], 6 * i + 1)
      ensures dk[6 * i + 2] == DecKeyWord(ek[..], 6 * i + 2) && dk[6 * i + 3] == DecKeyWord(ek[..], 6 * i + 3)
      ensures i < ROUNDS ==>
        dk[6 * i + 4] == DecKeyWord(ek[..], 6 * i + 4) && dk[6 * i + 5] == DecKeyWord(ek[..], 6 * i + 5)
    {
      hide DecKeyWord, GroupInverse, Negate;
      ghost var k := ek[..];
      SetupInverted(i);
      if i < ROUNDS {
        CopyMixing(i);
      }
      assert ek[..] == k;
    }

    /** The first four words of a row. */
    method SetupInverted(i: nat)
      requires Valid() && i <= ROUNDS
      modifies dk
      ensures forall n :: 0 <= n < 6 * i ==> dk[n] == old(dk[n])
      ensures var k := old(ek[..]);
              && dk[6 * i] == DecKeyWord(k, 6 * i) && dk[6 * i + 1] == DecKeyWord(k, 6 * i + 1)
              && dk[6 * i + 2] == DecKeyWord(k, 6 * i + 2) && dk[6 * i + 3] == DecKeyWord(k, 6 * i + 3)
    {
      hide DecKeyWord, GroupInverse, Negate;
      var at := 6 * i;
      var m0, a1, a2, m3 := InvertedKeys(ek[..], i);
      dk[at + 0] := m0;
      dk[at + 1] := a1;
      dk[at + 2] := a2;
      dk[at + 3] := m3;
    }

    /** The last two words of a row, which all rows but the last have. */
    method CopyMixing(i: nat)
      requires Valid() && i < ROUNDS
      modifies dk
      ensures forall n :: 0 <= n < 6 * i + 4 ==> dk[n] == old(dk[n])
      ensures var k := old(ek[..]);
              dk[6 * i + 4] == DecKeyWord(k, 6 * i + 4) && dk[6 * i + 5] == DecKeyWord(k, 6 * i + 5)
    {
      hide DecKeyWord, GroupInverse, Negate;
      DecKeyRow(ek[..], i);
      dk[6 * i + 4] := ek[6 * (ROUNDS - 1 - i) + 4];
      dk[6 * i + 5] := ek[6 * (ROUNDS - 1 - i) + 5];
    }

    method EcbEncrypt(pt: array<bv8>, ct: array<bv8>, ghost key: seq<bv8>)
      requires |key| == 16 && Scheduled(key) && pt.Length >= 8 && ct.Length >= 8
      modifies ct
      ensures ct[..8] == EcbEncryption(key, old(pt[..8])) && ct[8..] == old(ct[8..])
    {
      ProcessBlock(pt, ct, ek);
    }

    method EcbDecrypt(ct: array<bv8>, pt: array<bv8>, ghost key: seq<bv8>)
      requires |key| == 16 && Scheduled(key) && pt.Length >= 8 && ct.Length >= 8
      modifies pt
      ensures pt[..8] == EcbDecryption(key, old(ct[..8])) && pt[8..] == old(pt[8..])
    {
      ProcessBlock(ct, pt, dk);
    }
  }

  /** Reads all of the input before it writes, so the two buffers may be the same one. */
  method ProcessBlock(input: array<bv8>, output: array<bv8>, k: array<bv16>)
    requires input.Length >= 8 && output.Length >= 8 && k.Length == KEYLEN
    modifies output
    ensures output[..8] == StoreBlock(Process(k[..], LoadBlock(old(input[..8]))))
    ensures output[8..] == old(output[8..])
  {
    hide Process, Load16H, Store16H;
    var x := Block(Load16H(input[0..2]), Load16H(input[2..4]), Load16H(input[4..6]), Load16H(input[6..8]));
    assert x == LoadBlock(input[..8]) by {
      var b := input[..8];
      assert b[0..2] == input[0..2] && b[2..4] == input[2..4] && b[4..6] == input[4..6] && b[6..8] == input[6..8];
    }
    x := RunRounds(x, k);
    Put(output, 0, StoreBlock(x));
  }

  /** What the code does to the four words in a mixing layer. */
  lemma MixIs(k4: bv16, k5: bv16, x: Block)
    ensures var t := GroupTimes(Xor(x.x0, x.x2), k4);
            var t1 := GroupTimes(Add(t, Xor(x.x1, x.x3)), k5);
            var t0 := Add(t, t1);
            Mix(k4, k5, x) == Block(Xor(x.x0, t1), Xor(x.x2, t1), Xor(t0, x.x1), Xor(x.x3, t0))
  {
    hide GroupTimes, Add, Xor;
    var t := GroupTimes(Xor(x.x0, x.x2), k4);
    XorCommutes(Add(t, GroupTimes(Add(t, Xor(x.x1, x.x3)), k5)), x.x1);
  }

  lemma RoundsStep(k: seq<bv16>, x: Block, n: nat)
    requires |k| == KEYLEN && n < ROUNDS
    ensures Rounds(k, x, 0) == x
    ensures Rounds(k, x, n + 1) == RowMix(k, n, RowLayer(k, n, Rounds(k, x, n)))
  {
    hide RowMix, RowLayer;
  }

  /** What the code does to the four words in a key layer. */
  lemma KeyLayerIs(k0: bv16, k1: bv16, k2: bv16, k3: bv16, x: Block)
    ensures KeyLayer(k0, k1, k2, k3, x) == Block(GroupTimes(x.x0, k0), Add(x.x1, k1), Add(x.x2, k2), GroupTimes(x.x3, k3))
  {
    hide GroupTimes, Add;
  }

  /** A round has six key words: four for a key layer and two, in this order, for the mixing layer, which
      `KeyLayerIs` and `MixIs` spell out. */
  lemma RoundSpelled(k: seq<bv16>, x: Block, i: nat)
    requires |k| == KEYLEN && i < ROUNDS
    ensures var a := KeyLayer(k[6 * i], k[6 * i + 1], k[6 * i + 2], k[6 * i + 3], Rounds(k, x, i));
            Rounds(k, x, i + 1) == Mix(k[6 * i + 4], k[6 * i + 5], a)
  {
    hide KeyLayer, Mix, Rounds;
    RoundsStep(k, x, i);
  }

  /** Eight rounds, and four more key words on the words with the middle two exchanged. */
  lemma ProcessSpelled(k: seq<bv16>, x: Block)
    requires |k| == KEYLEN
    ensures var b := Rounds(k, x, 8);
            Rounds(k, x, 0) == x
            && Process(k, x) == Block(GroupTimes(b.x0, k[48]), Add(b.x2, k[49]), Add(b.x1, k[50]), GroupTimes(b.x3, k[51]))
  {
    hide GroupTimes, Add, Rounds;
    RoundsStep(k, x, 0);
  }

  method RunRounds(x: Block, k: array<bv16>) returns (y: Block)
    requires k.Length == KEYLEN
    ensures y == Process(k[..], x)
  {
    hide GroupTimes, Add, Xor, Mix, Rounds;
    var x0, x1, x2, x3 := x.x0, x.x1, x.x2, x.x3;
    ghost var key := k[..];
    RoundsStep(key, x, 0);
    for i := 0 to ROUNDS
      invariant k[..] == key && Block(x0, x1, x2, x3) == Rounds(key, x, i)
    {
      RoundsStep(key, x, i);
      x0 := Mul(x0, k[i * 6 + 0]);
      x1 := Add(x1, k[i * 6 + 1]);
      x2 := Add(x2, k[i * 6 + 2]);
      x3 := Mul(x3, k[i * 6 + 3]);
      MixIs(k[i * 6 + 4], k[i * 6 + 5], Block(x0, x1, x2, x3));
      var t0 := Xor(x0, x2);
      t0 := Mul(t0, k[i * 6 + 4]);
      var t1 := Add(t0, Xor(x1, x3));
      t1 := Mul(t1, k[i * 6 + 5]);
      t0 := Add(t0, t1);
      x0 := Xor(x0, t1);
      x3 := Xor(x3, t0);
      t0 := Xor(t0, x1);
      x1 := Xor(x2, t1);
      x2 := t0;
    }
    x0 := Mul(x0, k[48]);
    x2 := Add(x2, k[49]);
    x1 := Add(x1, k[50]);
    x3 := Mul(x3, k[51]);
    y := Block(x0, x2, x1, x3);
  }
}

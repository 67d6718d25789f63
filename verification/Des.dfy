/** DES and triple DES (ciphers/des.c, with the swap network of its LTC_SMALL_CODE branch).
    The eight combined substitution tables SP1 to SP8 are a parameter. */
module Des {
  import opened Bits
  import W = Words

  datatype Boxes = Boxes(sp1: bv6 -> bv32, sp2: bv6 -> bv32, sp3: bv6 -> bv32, sp4: bv6 -> bv32,
                         sp5: bv6 -> bv32, sp6: bv6 -> bv32, sp7: bv6 -> bv32, sp8: bv6 -> bv32)

  /** The two halves of a block: leftt and right in the code. */
  datatype Halves = Halves(l: bv32, r: bv32)

  function Exchange(x: Halves): Halves {
    Halves(x.r, x.l)
  }

  // ---------- the swap network ----------

  /** Exchanges the masked bits of b with the bits of a that lie n places higher. */
  function SwapMove(x: Halves, n: bv32, m: bv32): Halves
    requires n < 32
  {
    var work := And(Xor(Shr(x.l, n), x.r), m);
    Halves(Xor(x.l, Shl(work, n)), Xor(x.r, work))
  }

  lemma SwapMoveTwice(x: Halves, n: bv32, m: bv32)
    requires n < 32
    requires (n, m) in {(0, 0xaaaaaaaa), (2, 0x33333333), (4, 0x0f0f0f0f), (8, 0x00ff00ff), (16, 0x0000ffff)}
    ensures SwapMove(SwapMove(x, n, m), n, m) == x
  {
    hide And, Xor, Shl, Shr;
    var work := And(Xor(Shr(x.l, n), x.r), m);
    var y := SwapMove(x, n, m);
    ShrOfShl(Xor(Shr(x.l, n), x.r), m, n);
    ShrOfXor(x.l, Shl(work, n), n);
    assert Shr(y.l, n) == Xor(Shr(x.l, n), work);
    XorBoth(Shr(x.l, n), x.r, work);
    XorTwice(x.l, Shl(work, n));
    XorTwice(x.r, work);
  }

  function Initial(x: Halves): Halves {
    var x := SwapMove(x, 4, 0x0f0f0f0f);
    var x := SwapMove(x, 16, 0x0000ffff);
    var x := Exchange(SwapMove(Exchange(x), 2, 0x33333333));
    var x := Exchange(SwapMove(Exchange(x), 8, 0x00ff00ff));
    var x := Halves(x.l, Rol(x.r, 1));
    var x := SwapMove(x, 0, 0xaaaaaaaa);
    Halves(Rol(x.l, 1), x.r)
  }

  function Final(x: Halves): Halves {
    var x := Halves(x.l, Ror(x.r, 1));
    var x := SwapMove(x, 0, 0xaaaaaaaa);
    var x := Halves(Ror(x.l, 1), x.r);
    var x := SwapMove(x, 8, 0x00ff00ff);
    var x := SwapMove(x, 2, 0x33333333);
    var x := Exchange(SwapMove(Exchange(x), 16, 0x0000ffff));
    var x := Exchange(SwapMove(Exchange(x), 4, 0x0f0f0f0f));
    Exchange(x)
  }

  /** Swapping equal-weight bits does not care which half is which. */
  lemma LevelSwapIsSymmetric(x: Halves, m: bv32)
    ensures SwapMove(Exchange(x), 0, m) == Exchange(SwapMove(x, 0, m))
  {
    hide And, Xor;
    XorCommutes(x.l, x.r);
    NoShift(x.l);
    NoShift(x.r);
    NoShift(And(Xor(x.l, x.r), m));
  }

  lemma NoShift(x: bv32)
    ensures Shl(x, 0) == x == Shr(x, 0)
  {
  }

  /** The final network undoes the initial one when it gets the halves the other way round. */
  lemma FinalOfInitial(b: Halves)
    ensures Final(Exchange(Initial(b))) == b
  {
    hide SwapMove, Rol, Ror;
    var x1 := SwapMove(b, 4, 0x0f0f0f0f);
    var x2 := SwapMove(x1, 16, 0x0000ffff);
    var x3 := SwapMove(Exchange(x2), 2, 0x33333333);
    var x4 := Exchange(SwapMove(x3, 8, 0x00ff00ff));
    var x5 := Halves(x4.l, Rol(x4.r, 1));
    var x6 := SwapMove(x5, 0, 0xaaaaaaaa);
    RotateBack(x6.l, 1);
    LevelSwapIsSymmetric(x6, 0xaaaaaaaa);
    SwapMoveTwice(x5, 0, 0xaaaaaaaa);
    RotateBack(x4.r, 1);
    SwapMoveTwice(x3, 8, 0x00ff00ff);
    SwapMoveTwice(Exchange(x2), 2, 0x33333333);
    SwapMoveTwice(x1, 16, 0x0000ffff);
    SwapMoveTwice(b, 4, 0x0f0f0f0f);
  }

  lemma InitialOfFinal(x: Halves)
    ensures Initial(Final(x)) == Exchange(x)
  {
    hide SwapMove, Rol, Ror;
    var x1 := Halves(x.l, Ror(x.r, 1));
    var x2 := SwapMove(x1, 0, 0xaaaaaaaa);
    var x3 := Halves(Ror(x2.l, 1), x2.r);
    var x4 := SwapMove(x3, 8, 0x00ff00ff);
    var x5 := SwapMove(x4, 2, 0x33333333);
    var x6 := SwapMove(Exchange(x5), 16, 0x0000ffff);
    SwapMoveTwice(x6, 4, 0x0f0f0f0f);
    SwapMoveTwice(Exchange(x5), 16, 0x0000ffff);
    SwapMoveTwice(x4, 2, 0x33333333);
    SwapMoveTwice(x3, 8, 0x00ff00ff);
    RotateBack(x2.l, 1);
    LevelSwapIsSymmetric(x2, 0xaaaaaaaa);
    SwapMoveTwice(x1, 0, 0xaaaaaaaa);
    RotateBack(x.r, 1);
  }

  // ---------- the Feistel rounds ----------

  function Six(x: bv32): bv6 {
    (x & 0x3f) as bv6
  }

  /** The odd-numbered boxes, fed by the rotated half and the first word of a round key. */
  function OddBoxes(sp: Boxes, x: bv32, k: bv32): bv32 {
    var work := Xor(Ror(x, 4), k);
    Xor(Xor(Xor(sp.sp7(Six(work)), sp.sp5(Six(Shr(work, 8)))), sp.sp3(Six(Shr(work, 16)))), sp.sp1(Six(Shr(work, 24))))
  }

  function EvenBoxes(sp: Boxes, x: bv32, k: bv32): bv32 {
    var work := Xor(x, k);
    Xor(Xor(Xor(sp.sp8(Six(work)), sp.sp6(Six(Shr(work, 8)))), sp.sp4(Six(Shr(work, 16)))), sp.sp2(Six(Shr(work, 24))))
  }

  /** One round with its halves exchanged afterwards. */
  function FeistelStep(sp: Boxes, x: Halves, k0: bv32, k1: bv32): Halves {
    Halves(x.r, Xor(Xor(x.l, OddBoxes(sp, x.r, k0)), EvenBoxes(sp, x.r, k1)))
  }

  lemma FeistelStepInverse(sp: Boxes, x: Halves, k0: bv32, k1: bv32)
    ensures FeistelStep(sp, Exchange(FeistelStep(sp, x, k0, k1)), k0, k1) == Exchange(x)
  {
    hide Xor, OddBoxes, EvenBoxes;
    XorUndoesTwo(x.l, OddBoxes(sp, x.r, k0), EvenBoxes(sp, x.r, k1));
  }

  function Feistel(sp: Boxes, k: seq<bv32>, x: Halves, n: nat): Halves
    requires |k| == 32 && n <= 16
  {
    if n == 0 then x else FeistelStep(sp, Feistel(sp, k, x, n - 1), k[2 * n - 2], k[2 * n - 1])
  }

  /** The pairs of one schedule are those of the other, last pair first. */
  ghost predicate Reversed(k: seq<bv32>, k': seq<bv32>) {
    && |k| == 32 && |k'| == 32
    && forall i :: 0 <= i < 16 ==> k'[2 * i] == k[30 - 2 * i] && k'[2 * i + 1] == k[31 - 2 * i]
  }

  lemma ReversedBack(k: seq<bv32>, k': seq<bv32>)
    requires Reversed(k, k')
    ensures Reversed(k', k)
  {
    forall i | 0 <= i < 16
      ensures k[2 * i] == k'[30 - 2 * i] && k[2 * i + 1] == k'[31 - 2 * i]
    {
      var j := 15 - i;
      assert k'[2 * j] == k[30 - 2 * j] && k'[2 * j + 1] == k[31 - 2 * j];
    }
  }

  lemma FeistelNext(sp: Boxes, k: seq<bv32>, x: Halves, n: nat)
    requires |k| == 32 && n < 16
    ensures Feistel(sp, k, x, 0) == x
    ensures Feistel(sp, k, x, n + 1) == FeistelStep(sp, Feistel(sp, k, x, n), k[2 * n], k[2 * n + 1])
  {
    hide FeistelStep;
  }

  lemma {:induction false} FeistelInverse(sp: Boxes, k: seq<bv32>, k': seq<bv32>, x: Halves, n: nat)
    requires Reversed(k, k') && n <= 16
    ensures Feistel(sp, k', Exchange(Feistel(sp, k, x, 16)), n) == Exchange(Feistel(sp, k, x, 16 - n))
  {
    hide FeistelStep, Feistel;
    FeistelNext(sp, k', Exchange(Feistel(sp, k, x, 16)), if n == 0 then 0 else n - 1);
    if n > 0 {
      FeistelNext(sp, k, x, 16 - n);
      FeistelInverse(sp, k, k', x, n - 1);
      var i := n - 1;
      assert k'[2 * i] == k[30 - 2 * i] && k'[2 * i + 1] == k[31 - 2 * i];
      FeistelStepInverse(sp, Feistel(sp, k, x, 16 - n), k[30 - 2 * i], k[31 - 2 * i]);
    }
  }

  function DesFunction(sp: Boxes, k: seq<bv32>, b: Halves): Halves
    requires |k| == 32
  {
    Final(Feistel(sp, k, Initial(b), 16))
  }

  /** Running the function with the pairs of the schedule reversed undoes it. */
  lemma DesFunctionInverse(sp: Boxes, k: seq<bv32>, k': seq<bv32>, b: Halves)
    requires Reversed(k, k')
    ensures DesFunction(sp, k', DesFunction(sp, k, b)) == b
  {
    hide Initial, Final, FeistelStep;
    InitialOfFinal(Feistel(sp, k, Initial(b), 16));
    FeistelInverse(sp, k, k', Initial(b), 16);
    FinalOfInitial(b);
  }

  // ---------- the key schedule ----------

  datatype Direction = EN0 | DE1

  type keyBit = n: nat | n < 64
  type rotation = n: nat | n <= 28
  type chosenBit = n: nat | n < 56

  const PC1: seq<keyBit> :=
    [56, 48, 40, 32, 24, 16, 8, 0, 57, 49, 41, 33, 25, 17]
    + [9, 1, 58, 50, 42, 34, 26, 18, 10, 2, 59, 51, 43, 35]
    + [62, 54, 46, 38, 30, 22, 14, 6, 61, 53, 45, 37, 29, 21]
    + [13, 5, 60, 52, 44, 36, 28, 20, 12, 4, 27, 19, 11, 3]

  const TOTROT: seq<rotation> := [1, 2, 4, 6, 8, 10, 12, 14, 15, 17, 19, 21, 23, 25, 27, 28]

  const PC2: seq<chosenBit> :=
    [13, 16, 10, 23, 0, 4, 2, 27, 14, 5, 20, 9]
    + [22, 18, 11, 3, 25, 7, 15, 6, 26, 19, 12, 1]
    + [40, 51, 30, 36, 46, 54, 29, 39, 50, 44, 32, 47]
    + [43, 48, 38, 55, 33, 52, 45, 41, 49, 35, 28, 31]

  const BYTEBIT: seq<bv8> := [0x80, 0x40, 0x20, 0x10, 0x08, 0x04, 0x02, 0x01]

  const BIGBYTE: seq<bv32> := [
    0x800000, 0x400000, 0x200000, 0x100000, 0x80000, 0x40000, 0x20000, 0x10000,
    0x8000, 0x4000, 0x2000, 0x1000, 0x800, 0x400, 0x200, 0x100,
    0x80, 0x40, 0x20, 0x10, 0x8, 0x4, 0x2, 0x1]

  lemma TableSizes()
    ensures |PC1| == 56 && |TOTROT| == 16 && |PC2| == 48 && |BYTEBIT| == 8 && |BIGBYTE| == 24
  {
  }

  /** Bit l of the key, counted from the highest bit of the first byte. */
  function KeyBit(key: seq<bv8>, l: keyBit): bool
    requires |key| == 8
  {
    TableSizes();
    key[l / 8] & BYTEBIT[l % 8] == BYTEBIT[l % 8]
  }

  function ChosenBits(key: seq<bv8>): (b: seq<bool>)
    requires |key| == 8
    ensures |b| == 56
  {
    TableSizes();
    seq(56, j requires 0 <= j < 56 => KeyBit(key, PC1[j]))
  }

  /** Where bit j of the two 28-bit registers comes from after a rotation. */
  function Source(j: nat, rot: rotation): (l: nat)
    requires j < 56
    ensures l < 56
  {
    var l := j + rot;
    if j < 28 then if l < 28 then l else l - 28
    else if l < 56 then l else l - 28
  }

  function Rotated(b: seq<bool>, rot: rotation): (r: seq<bool>)
    requires |b| == 56
    ensures |r| == 56
  {
    seq(56, j requires 0 <= j < 56 => b[Source(j, rot)])
  }

  /** The first n of the 24 bits of half a round key. */
  function RawWord(b: seq<bool>, half: nat, n: nat): bv32
    requires |b| == 56 && half <= 24 && n <= 24
  {
    if n == 0 then 0 else
    TableSizes();
    var w := RawWord(b, half, n - 1);
    if b[PC2[half + n - 1]] then Or(w, BIGBYTE[n - 1]) else w
  }

  function CookFirst(raw0: bv32, raw1: bv32): bv32 {
    ((raw0 & 0x00fc0000) << 6) | ((raw0 & 0x00000fc0) << 10) | ((raw1 & 0x00fc0000) >> 10) | ((raw1 & 0x00000fc0) >> 6)
  }

  function CookSecond(raw0: bv32, raw1: bv32): bv32 {
    ((raw0 & 0x0003f000) << 12) | ((raw0 & 0x0000003f) << 16) | ((raw1 & 0x0003f000) >> 4) | (raw1 & 0x0000003f)
  }

  /** The two words of round i for encryption. */
  function RoundBits(key: seq<bv8>, i: nat): (b: seq<bool>)
    requires |key| == 8 && i < 16
    ensures |b| == 56
  {
    TableSizes();
    Rotated(ChosenBits(key), TOTROT[i])
  }

  function RawKeyWord(key: seq<bv8>, edf: Direction, n: nat): bv32
    requires |key| == 8 && n < 32
  {
    var i := if edf == DE1 then 15 - n / 2 else n / 2;
    RawWord(RoundBits(key, i), 24 * (n % 2), 24)
  }

  function Cooked(raw: seq<bv32>): (k: seq<bv32>)
    requires |raw| == 32
    ensures |k| == 32
  {
    seq(32, n requires 0 <= n < 32 =>
      if n % 2 == 0 then CookFirst(raw[n], raw[n + 1]) else CookSecond(raw[n - 1], raw[n]))
  }

  function RawKey(key: seq<bv8>, edf: Direction): (raw: seq<bv32>)
    requires |key| == 8
    ensures |raw| == 32
  {
    seq(32, n requires 0 <= n < 32 => RawKeyWord(key, edf, n))
  }

  function Schedule(key: seq<bv8>, edf: Direction): (k: seq<bv32>)
    requires |key| == 8
    ensures |k| == 32
  {
    Cooked(RawKey(key, edf))
  }

  lemma RawReversed(key: seq<bv8>, i: nat)
    requires |key| == 8 && i < 16
    ensures RawKey(key, DE1)[2 * i] == RawKey(key, EN0)[30 - 2 * i]
    ensures RawKey(key, DE1)[2 * i + 1] == RawKey(key, EN0)[31 - 2 * i]
  {
    hide RoundBits, RawWord;
    EvenOdd(i);
    EvenOdd(15 - i);
  }

  lemma CookedPair(raw: seq<bv32>, i: nat)
    requires |raw| == 32 && i < 16
    ensures Cooked(raw)[2 * i] == CookFirst(raw[2 * i], raw[2 * i + 1])
    ensures Cooked(raw)[2 * i + 1] == CookSecond(raw[2 * i], raw[2 * i + 1])
  {
    hide CookFirst, CookSecond;
    EvenOdd(i);
  }

  /** The decryption schedule is the encryption schedule with its pairs reversed, after cooking too. */
  lemma ScheduleReversed(key: seq<bv8>)
    requires |key| == 8
    ensures Reversed(Schedule(key, EN0), Schedule(key, DE1))
  {
    hide RawKey, Cooked, CookFirst, CookSecond;
    forall i | 0 <= i < 16
      ensures Schedule(key, DE1)[2 * i] == Schedule(key, EN0)[30 - 2 * i]
      ensures Schedule(key, DE1)[2 * i + 1] == Schedule(key, EN0)[31 - 2 * i]
    {
      RawReversed(key, i);
      CookedPair(RawKey(key, DE1), i);
      CookedPair(RawKey(key, EN0), 15 - i);
    }
  }

  lemma EvenOdd(i: nat)
    ensures 2 * i / 2 == i && (2 * i) % 2 == 0 && (2 * i + 1) / 2 == i && (2 * i + 1) % 2 == 1
  {
  }

  // ---------- blocks and both ciphers ----------

  function LoadBlock(b: seq<bv8>): Halves
    requires |b| == 8
  {
    Halves(W.Load32H(b[0..4]), W.Load32H(b[4..8]))
  }

  function StoreBlock(x: Halves): (b: seq<bv8>)
    ensures |b| == 8
  {
    W.Store32H(x.l) + W.Store32H(x.r)
  }

  lemma LoadStore(x: Halves, b: seq<bv8>)
    requires |b| == 8
    ensures LoadBlock(StoreBlock(x)) == x && StoreBlock(LoadBlock(b)) == b
  {
    hide W.Load32H, W.Store32H;
    W.LoadStorePair(x.l, x.r);
    W.StoreLoadPair(b);
  }

  function DesEncryption(sp: Boxes, key: seq<bv8>, x: Halves): Halves
    requires |key| == 8
  {
    DesFunction(sp, Schedule(key, EN0), x)
  }

  function DesDecryption(sp: Boxes, key: seq<bv8>, x: Halves): Halves
    requires |key| == 8
  {
    DesFunction(sp, Schedule(key, DE1), x)
  }

  lemma DesInverse(sp: Boxes, key: seq<bv8>, x: Halves)
    requires |key| == 8
    ensures DesDecryption(sp, key, DesEncryption(sp, key, x)) == x
    ensures DesEncryption(sp, key, DesDecryption(sp, key, x)) == x
  {
    hide Schedule, DesFunction;
    ScheduleReversed(key);
    ReversedBack(Schedule(key, EN0), Schedule(key, DE1));
    DesFunctionInverse(sp, Schedule(key, EN0), Schedule(key, DE1), x);
    DesFunctionInverse(sp, Schedule(key, DE1), Schedule(key, EN0), x);
  }

  /** The part-th single key of a double-length or triple-length key. */
  function Part(key: seq<bv8>, part: nat): (k: seq<bv8>)
    requires (|key| == 16 || |key| == 24) && part < 3
    ensures |k| == 8
  {
    if part == 2 && |key| == 16 then key[0..8] else key[8 * part..8 * part + 8]
  }

  /** Encrypt, decrypt, encrypt. */
  function Des3Encryption(sp: Boxes, key: seq<bv8>, x: Halves): Halves
    requires |key| == 16 || |key| == 24
  {
    DesEncryption(sp, Part(key, 2), DesDecryption(sp, Part(key, 1), DesEncryption(sp, Part(key, 0), x)))
  }

  function Des3Decryption(sp: Boxes, key: seq<bv8>, x: Halves): Halves
    requires |key| == 16 || |key| == 24
  {
    DesDecryption(sp, Part(key, 0), DesEncryption(sp, Part(key, 1), DesDecryption(sp, Part(key, 2), x)))
  }

  /** For every two-key or three-key triple DES key and every block. */
  lemma Des3Inverse(sp: Boxes, key: seq<bv8>, x: Halves)
    requires |key| == 16 || |key| == 24
    ensures Des3Decryption(sp, key, Des3Encryption(sp, key, x)) == x
  {
    hide DesEncryption, DesDecryption;
    var y := DesEncryption(sp, Part(key, 0), x);
    var z := DesDecryption(sp, Part(key, 1), y);
    DesInverse(sp, Part(key, 0), x);
    DesInverse(sp, Part(key, 1), y);
    DesInverse(sp, Part(key, 2), z);
  }

  /** Both ciphers, bytes to bytes. */
  lemma DecryptAfterEncrypt(sp: Boxes, key: seq<bv8>, pt: seq<bv8>)
    requires |pt| == 8 && (|key| == 8 || |key| == 16 || |key| == 24)
    ensures |key| == 8 ==>
      StoreBlock(DesDecryption(sp, key, LoadBlock(StoreBlock(DesEncryption(sp, key, LoadBlock(pt)))))) == pt
    ensures |key| != 8 ==>
      StoreBlock(Des3Decryption(sp, key, LoadBlock(StoreBlock(Des3Encryption(sp, key, LoadBlock(pt)))))) == pt
  {
    hide LoadBlock, StoreBlock, DesEncryption, DesDecryption, Des3Encryption, Des3Decryption;
    var x := LoadBlock(pt);
    LoadStore(if |key| == 8 then DesEncryption(sp, key, x) else Des3Encryption(sp, key, x), pt);
    if |key| == 8 {
      DesInverse(sp, key, x);
    } else {
      Des3Inverse(sp, key, x);
    }
  }

  /** With all three keys equal, triple DES is single DES. */
  lemma Des3WithEqualKeys(sp: Boxes, key: seq<bv8>, x: Halves)
    requires |key| == 8
    ensures Des3Encryption(sp, key + key + key, x) == DesEncryption(sp, key, x)
    ensures Des3Encryption(sp, key + key, x) == DesEncryption(sp, key, x)
  {
    hide DesEncryption, DesDecryption;
    var k := key + key + key;
    assert k[0..8] == key && k[8..16] == key && k[16..24] == key;
    assert (key + key)[0..8] == key && (key + key)[8..16] == key;
    DesInverse(sp, key, x);
  }

  // ---------- the code ----------

  /** Picks key bits, rotates them round by round and gathers each round's 48 bits into two words;
      the decryption schedule is filled from the far end. */
  method DesKey(key: seq<bv8>, edf: Direction) returns (keyout: seq<bv32>)
    requires |key| == 8
    ensures keyout == Schedule(key, edf)
  {
    hide KeyBit, RawKey, Cooked, RawWord, Rotated;
    TableSizes();
    var pc1m := seq(56, _ => false);
    for j := 0 to 56
      invariant |pc1m| == 56
      invariant forall n :: 0 <= n < j ==> pc1m[n] == ChosenBits(key)[n]
    {
      pc1m := pc1m[j := KeyBit(key, PC1[j])];
    }
    assert pc1m == ChosenBits(key);
    hide ChosenBits;
    var kn := seq(32, _ => 0);
    ghost var raw := RawKey(key, edf);
    for i := 0 to 16
      invariant |kn| == 32
      invariant forall c :: 0 <= c < 16 && (if edf == DE1 then 15 - c < i else c < i) ==>
        kn[2 * c] == raw[2 * c] && kn[2 * c + 1] == raw[2 * c + 1]
    {
      var m := if edf == DE1 then (15 - i) * 2 else i * 2;
      var pcr := RotateBits(pc1m, TOTROT[i]);
      var w0, w1 := GatherBits(pcr);
      RawPair(key, edf, i);
      kn := kn[m := w0][m + 1 := w1];
    }
    forall n | 0 <= n < 32
      ensures kn[n] == raw[n]
    {
      assert n == 2 * (n / 2) + n % 2;
    }
    assert kn == raw;
    keyout := Cookey(kn);
  }

  /** Where the raw words of round i are. */
  lemma RawPair(key: seq<bv8>, edf: Direction, i: nat)
    requires |key| == 8 && i < 16
    ensures var m := if edf == DE1 then (15 - i) * 2 else i * 2;
            && RawKey(key, edf)[m] == RawWord(RoundBits(key, i), 0, 24)
            && RawKey(key, edf)[m + 1] == RawWord(RoundBits(key, i), 24, 24)
  {
    hide RawWord, RoundBits;
    EvenOdd(i);
    EvenOdd(15 - i);
  }

  method RotateBits(pc1m: seq<bool>, rot: rotation) returns (pcr: seq<bool>)
    requires |pc1m| == 56
    ensures pcr == Rotated(pc1m, rot)
  {
    pcr := seq(56, _ => false);
    var j := 0;
    while j < 28
      invariant 0 <= j <= 28 && |pcr| == 56
      invariant forall n :: 0 <= n < j ==> pcr[n] == pc1m[Source(n, rot)]
    {
      var l := j + rot;
      pcr := pcr[j := if l < 28 then pc1m[l] else pc1m[l - 28]];
      j := j + 1;
    }
    while j < 56
      invariant 28 <= j <= 56 && |pcr| == 56
      invariant forall n :: 0 <= n < j ==> pcr[n] == pc1m[Source(n, rot)]
    {
      var l := j + rot;
      pcr := pcr[j := if l < 56 then pc1m[l] else pc1m[l - 28]];
      j := j + 1;
    }
  }

  method GatherBits(pcr: seq<bool>) returns (w0: bv32, w1: bv32)
    requires |pcr| == 56
    ensures w0 == RawWord(pcr, 0, 24) && w1 == RawWord(pcr, 24, 24)
  {
    hide Or;
    TableSizes();
    w0, w1 := 0, 0;
    for j := 0 to 24
      invariant w0 == RawWord(pcr, 0, j) && w1 == RawWord(pcr, 24, j)
    {
      if pcr[PC2[j]] {
        w0 := Or(w0, BIGBYTE[j]);
      }
      if pcr[PC2[j + 24]] {
        w1 := Or(w1, BIGBYTE[j]);
      }
    }
  }

  method Cookey(raw: seq<bv32>) returns (keyout: seq<bv32>)
    requires |raw| == 32
    ensures keyout == Cooked(raw)
  {
    hide CookFirst, CookSecond;
    var dough := seq(32, _ => 0);
    for i := 0 to 16
      invariant |dough| == 32
      invariant forall n :: 0 <= n < 2 * i ==> dough[n] == Cooked(raw)[n]
    {
      EvenOdd(i);
      var raw0, raw1 := raw[2 * i], raw[2 * i + 1];
      dough := dough[2 * i := CookFirst(raw0, raw1)][2 * i + 1 := CookSecond(raw0, raw1)];
    }
    keyout := dough;
  }

  method DesFunc(sp: Boxes, block: array<bv32>, keys: seq<bv32>)
    requires block.Length == 2 && |keys| == 32
    modifies block
    ensures Halves(block[0], block[1]) == DesFunction(sp, keys, old(Halves(block[0], block[1])))
  {
    hide Initial, Final, OddBoxes, EvenBoxes, Xor;
    var leftt, right := InitialNetwork(block[0], block[1]);
    ghost var x := Halves(leftt, right);
    assert Feistel(sp, keys, x, 0) == x;
    hide Feistel;
    var pos := 0;
    for curRound := 0 to 8
      invariant pos == 4 * curRound && Halves(leftt, right) == Feistel(sp, keys, x, 2 * curRound)
    {
      leftt := Xor(leftt, OddBoxes(sp, right, keys[pos]));
      leftt := Xor(leftt, EvenBoxes(sp, right, keys[pos + 1]));
      right := Xor(right, OddBoxes(sp, leftt, keys[pos + 2]));
      right := Xor(right, EvenBoxes(sp, leftt, keys[pos + 3]));
      pos := pos + 4;
      TwoRounds(sp, keys, x, curRound);
    }
    block[0], block[1] := FinalNetwork(leftt, right);
  }

  lemma TwoRounds(sp: Boxes, k: seq<bv32>, x: Halves, c: nat)
    requires |k| == 32 && c < 8
    ensures Feistel(sp, k, x, 2 * c + 2) ==
      FeistelStep(sp, FeistelStep(sp, Feistel(sp, k, x, 2 * c), k[4 * c], k[4 * c + 1]), k[4 * c + 2], k[4 * c + 3])
  {
    hide FeistelStep;
    assert Feistel(sp, k, x, 2 * c + 1) == FeistelStep(sp, Feistel(sp, k, x, 2 * c), k[4 * c], k[4 * c + 1]);
  }

  method InitialNetwork(l0: bv32, r0: bv32) returns (leftt: bv32, right: bv32)
    ensures Halves(leftt, right) == Initial(Halves(l0, r0))
  {
    hide And, Xor, Shl, Shr, Rol;
    leftt, right := l0, r0;
    var work := And(Xor(Shr(leftt, 4), right), 0x0f0f0f0f);
    right := Xor(right, work);
    leftt := Xor(leftt, Shl(work, 4));

    work := And(Xor(Shr(leftt, 16), right), 0x0000ffff);
    right := Xor(right, work);
    leftt := Xor(leftt, Shl(work, 16));

    work := And(Xor(Shr(right, 2), leftt), 0x33333333);
    leftt := Xor(leftt, work);
    right := Xor(right, Shl(work, 2));

    work := And(Xor(Shr(right, 8), leftt), 0x00ff00ff);
    leftt := Xor(leftt, work);
    right := Xor(right, Shl(work, 8));

    right := Rol(right, 1);
    work := And(Xor(leftt, right), 0xaaaaaaaa);
    NoShift(leftt);
    NoShift(work);

    leftt := Xor(leftt, work);
    right := Xor(right, work);
    leftt := Rol(leftt, 1);
  }

  method FinalNetwork(l0: bv32, r0: bv32) returns (b0: bv32, b1: bv32)
    ensures Halves(b0, b1) == Final(Halves(l0, r0))
  {
    hide And, Xor, Shl, Shr, Ror;
    var leftt, right := l0, r0;
    right := Ror(right, 1);
    var work := And(Xor(leftt, right), 0xaaaaaaaa);
    NoShift(leftt);
    NoShift(work);
    leftt := Xor(leftt, work);
    right := Xor(right, work);
    leftt := Ror(leftt, 1);

    work := And(Xor(Shr(leftt, 8), right), 0x00ff00ff);
    right := Xor(right, work);
    leftt := Xor(leftt, Shl(work, 8));

    work := And(Xor(Shr(leftt, 2), right), 0x33333333);
    right := Xor(right, work);
    leftt := Xor(leftt, Shl(work, 2));

    work := And(Xor(Shr(right, 16), leftt), 0x0000ffff);
    leftt := Xor(leftt, work);
    right := Xor(right, Shl(work, 16));

    work := And(Xor(Shr(right, 4), leftt), 0x0f0f0f0f);
    leftt := Xor(leftt, work);
    right := Xor(right, Shl(work, 4));
    b0, b1 := right, leftt;
  }

  /** Single DES: the fields ek and dk of the library's key structure. */
  class DesKeys {
    var ek: seq<bv32>
    var dk: seq<bv32>

    ghost predicate Scheduled(key: seq<bv8>)
      reads this
    {
      |key| == 8 && ek == Schedule(key, EN0) && dk == Schedule(key, DE1)
    }

    method Setup(key: seq<bv8>, numRounds: int) returns (err: W.Status)
      modifies this
      ensures err == (if numRounds != 0 && numRounds != 16 then W.CRYPT_INVALID_ROUNDS
                      else if |key| != 8 then W.CRYPT_INVALID_KEYSIZE else W.CRYPT_OK)
      ensures err == W.CRYPT_OK ==> Scheduled(key)
      ensures err != W.CRYPT_OK ==> unchanged(this)
    {
      if numRounds != 0 && numRounds != 16 {
        return W.CRYPT_INVALID_ROUNDS;
      }
      if |key| != 8 {
        return W.CRYPT_INVALID_KEYSIZE;
      }
      ek := DesKey(key, EN0);
      dk := DesKey(key, DE1);
      return W.CRYPT_OK;
    }

    method EcbEncrypt(sp: Boxes, pt: array<bv8>, ct: array<bv8>, ghost key: seq<bv8>)
      requires Scheduled(key) && pt.Length >= 8 && ct.Length >= 8
      modifies ct
      ensures ct[..8] == StoreBlock(DesEncryption(sp, key, LoadBlock(old(pt[..8])))) && ct[8..] == old(ct[8..])
    {
      RunFunctions(sp, pt, ct, [ek]);
    }

    method EcbDecrypt(sp: Boxes, ct: array<bv8>, pt: array<bv8>, ghost key: seq<bv8>)
      requires Scheduled(key) && pt.Length >= 8 && ct.Length >= 8
      modifies pt
      ensures pt[..8] == StoreBlock(DesDecryption(sp, key, LoadBlock(old(ct[..8])))) && pt[8..] == old(pt[8..])
    {
      RunFunctions(sp, ct, pt, [dk]);
    }
  }

  /** Triple DES: three schedules for each direction. */
  class Des3Keys {
    var ek: seq<seq<bv32>>
    var dk: seq<seq<bv32>>

    ghost predicate Scheduled(key: seq<bv8>)
      reads this
    {
      && (|key| == 16 || |key| == 24)
      && ek == [Schedule(Part(key, 0), EN0), Schedule(Part(key, 1), DE1), Schedule(Part(key, 2), EN0)]
      && dk == [Schedule(Part(key, 2), DE1), Schedule(Part(key, 1), EN0), Schedule(Part(key, 0), DE1)]
    }

    method Setup(key: seq<bv8>, numRounds: int) returns (err: W.Status)
      modifies this
      ensures err == (if numRounds != 0 && numRounds != 16 then W.CRYPT_INVALID_ROUNDS
                      else if |key| != 24 && |key| != 16 then W.CRYPT_INVALID_KEYSIZE else W.CRYPT_OK)
      ensures err == W.CRYPT_OK ==> Scheduled(key)
      ensures err != W.CRYPT_OK ==> unchanged(this)
    {
      hide Schedule;
      if numRounds != 0 && numRounds != 16 {
        return W.CRYPT_INVALID_ROUNDS;
      }
      if |key| != 24 && |key| != 16 {
        return W.CRYPT_INVALID_KEYSIZE;
      }
      var e0 := DesKey(key[0..8], EN0);
      var e1 := DesKey(key[8..16], DE1);
      var e2 := DesKey(if |key| == 24 then key[16..24] else key[0..8], EN0);
      ek := [e0, e1, e2];
      var d2 := DesKey(key[0..8], DE1);
      var d1 := DesKey(key[8..16], EN0);
      var d0 := DesKey(if |key| == 24 then key[16..24] else key[0..8], DE1);
      dk := [d0, d1, d2];
      return W.CRYPT_OK;
    }

    method EcbEncrypt(sp: Boxes, pt: array<bv8>, ct: array<bv8>, ghost key: seq<bv8>)
      requires Scheduled(key) && pt.Length >= 8 && ct.Length >= 8
      modifies ct
      ensures ct[..8] == StoreBlock(Des3Encryption(sp, key, LoadBlock(old(pt[..8])))) && ct[8..] == old(ct[8..])
    {
      hide Schedule, DesFunction, LoadBlock, StoreBlock;
      RunFunctions(sp, pt, ct, ek);
    }

    method EcbDecrypt(sp: Boxes, ct: array<bv8>, pt: array<bv8>, ghost key: seq<bv8>)
      requires Scheduled(key) && pt.Length >= 8 && ct.Length >= 8
      modifies pt
      ensures pt[..8] == StoreBlock(Des3Decryption(sp, key, LoadBlock(old(ct[..8])))) && pt[8..] == old(pt[8..])
    {
      hide Schedule, DesFunction, LoadBlock, StoreBlock;
      RunFunctions(sp, ct, pt, dk);
    }
  }

  /** Loads a block, runs the function once for each schedule, stores the block. */
  method RunFunctions(sp: Boxes, input: array<bv8>, output: array<bv8>, keys: seq<seq<bv32>>)
    requires input.Length >= 8 && output.Length >= 8
    requires |keys| == 1 || |keys| == 3
    requires forall i :: 0 <= i < |keys| ==> |keys[i]| == 32
    modifies output
    ensures var x := LoadBlock(old(input[..8]));
      && (|keys| == 1 ==> output[..8] == StoreBlock(DesFunction(sp, keys[0], x)))
      && (|keys| == 3 ==>
            output[..8] == StoreBlock(DesFunction(sp, keys[2], DesFunction(sp, keys[1], DesFunction(sp, keys[0], x)))))
    ensures output[8..] == old(output[8..])
  {
    hide DesFunction, W.Load32H, W.Store32H;
    ghost var b := input[..8];
    assert b[0..4] == input[0..4] && b[4..8] == input[4..8];
    var work := new bv32[2];
    work[0], work[1] := W.Load32H(input[0..4]), W.Load32H(input[4..8]);
    DesFunc(sp, work, keys[0]);
    if |keys| == 3 {
      DesFunc(sp, work, keys[1]);
      DesFunc(sp, work, keys[2]);
    }
    W.Put(output, 0, StoreBlock(Halves(work[0], work[1])));
  }
}

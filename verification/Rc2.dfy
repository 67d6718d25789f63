/** The RC2 block cipher (ciphers/rc2.c). The code keeps 16-bit words in 32-bit registers and masks
    them only before a rotation; the specification is in 16-bit words throughout (RFC 2268). */
module Rc2 {
  import opened Bits
  import W = Words

  datatype Regs = Regs(x10: bv16, x32: bv16, x54: bv16, x76: bv16)

  // ---------- 16-bit words ----------

  function Plus(x: bv16, y: bv16): bv16 { x + y }

  function Minus(x: bv16, y: bv16): bv16 { x - y }

  /** The sum that a mixing step adds: the bits of r where q is set, those of p elsewhere, and a
      key word. */
  function Blend(p: bv16, q: bv16, r: bv16, k: bv16): bv16 {
    Plus(Plus(p & !q, r & q), k)
  }

  // Sums are opened one equation at a time, so that terms cancel and adders need not be compared
  // bit by bit.

  lemma PlusIs(x: bv16, y: bv16, z: bv16)
    requires Plus(x, y) == z
    ensures z == x + y
  {
  }

  lemma MinusCancels(x: bv16, y: bv16, z: bv16)
    requires z == x + y
    ensures Minus(z, y) == x
  {
  }

  lemma MinusOfPlus(x: bv16, y: bv16)
    ensures Minus(Plus(x, y), y) == x
  {
    hide Plus, Minus;
    PlusIs(x, y, Plus(x, y));
    MinusCancels(x, y, Plus(x, y));
  }

  function Sum(x: bv16, y: bv16, z: bv16): bv16 { x + y + z }

  lemma SumFromLeft(x: bv16, y: bv16, z: bv16, u: bv16)
    requires u == x + y
    ensures Plus(u, z) == Sum(x, y, z)
  {
  }

  lemma SumFromRight(x: bv16, y: bv16, z: bv16, v: bv16)
    requires v == y + z
    ensures Plus(x, v) == Sum(x, y, z)
  {
  }

  lemma PlusAssociates(x: bv16, y: bv16, z: bv16)
    ensures Plus(Plus(x, y), z) == Plus(x, Plus(y, z))
  {
    hide Plus, Sum;
    PlusIs(x, y, Plus(x, y));
    SumFromLeft(x, y, z, Plus(x, y));
    PlusIs(y, z, Plus(y, z));
    SumFromRight(x, y, z, Plus(y, z));
  }

  function Rol16(x: bv16, n: bv16): bv16
    requires 0 < n < 16
  {
    (x << n) | (x >> (16 - n))
  }

  function Ror16(x: bv16, n: bv16): bv16
    requires 0 < n < 16
  {
    (x >> n) | (x << (16 - n))
  }

  lemma RorOfRol16(x: bv16, n: bv16)
    requires 0 < n < 16
    ensures Ror16(Rol16(x, n), n) == x
    ensures Rol16(Ror16(x, n), n) == x
  {
  }

  /** The low six bits of a word, as a table index. */
  function Index(x: bv16): (n: nat)
    ensures n < 64
  {
    ((x & 63) as bv6) as nat
  }

  // ---------- the rounds, section 3 and 4 of RFC 2268 ----------

  function Mix(x: bv16, p: bv16, q: bv16, r: bv16, k: bv16, s: bv16): bv16
    requires 0 < s < 16
  {
    Rol16(Plus(x, Blend(p, q, r, k)), s)
  }

  function Unmix(x: bv16, p: bv16, q: bv16, r: bv16, k: bv16, s: bv16): bv16
    requires 0 < s < 16
  {
    Minus(Ror16(x, s), Blend(p, q, r, k))
  }

  lemma UnmixOfMix(x: bv16, p: bv16, q: bv16, r: bv16, k: bv16, s: bv16)
    requires 0 < s < 16
    ensures Unmix(Mix(x, p, q, r, k, s), p, q, r, k, s) == x
  {
    hide Rol16, Ror16, Plus, Minus, Blend;
    RorOfRol16(Plus(x, Blend(p, q, r, k)), s);
    MinusOfPlus(x, Blend(p, q, r, k));
  }

  function MixingRound(k: seq<bv16>, i: nat, x: Regs): Regs
    requires |k| == 64 && i < 16
  {
    var x10 := Mix(x.x10, x.x32, x.x76, x.x54, k[4 * i], 1);
    var x32 := Mix(x.x32, x.x54, x10, x.x76, k[4 * i + 1], 2);
    var x54 := Mix(x.x54, x.x76, x32, x10, k[4 * i + 2], 3);
    var x76 := Mix(x.x76, x10, x54, x32, k[4 * i + 3], 5);
    Regs(x10, x32, x54, x76)
  }

  function UnmixingRound(k: seq<bv16>, i: nat, x: Regs): Regs
    requires |k| == 64 && i < 16
  {
    var x76 := Unmix(x.x76, x.x10, x.x54, x.x32, k[4 * i + 3], 5);
    var x54 := Unmix(x.x54, x76, x.x32, x.x10, k[4 * i + 2], 3);
    var x32 := Unmix(x.x32, x54, x.x10, x76, k[4 * i + 1], 2);
    var x10 := Unmix(x.x10, x32, x76, x54, k[4 * i], 1);
    Regs(x10, x32, x54, x76)
  }

  lemma UnmixingOfMixing(k: seq<bv16>, i: nat, x: Regs)
    requires |k| == 64 && i < 16
    ensures UnmixingRound(k, i, MixingRound(k, i, x)) == x
  {
    hide Mix, Unmix;
    var y := MixingRound(k, i, x);
    UnmixOfMix(x.x76, y.x10, y.x54, y.x32, k[4 * i + 3], 5);
    UnmixOfMix(x.x54, x.x76, y.x32, y.x10, k[4 * i + 2], 3);
    UnmixOfMix(x.x32, x.x54, y.x10, x.x76, k[4 * i + 1], 2);
    UnmixOfMix(x.x10, x.x32, x.x76, x.x54, k[4 * i], 1);
  }

  function MashingRound(k: seq<bv16>, x: Regs): Regs
    requires |k| == 64
  {
    var x10 := Plus(x.x10, k[Index(x.x76)]);
    var x32 := Plus(x.x32, k[Index(x10)]);
    var x54 := Plus(x.x54, k[Index(x32)]);
    var x76 := Plus(x.x76, k[Index(x54)]);
    Regs(x10, x32, x54, x76)
  }

  function UnmashingRound(k: seq<bv16>, x: Regs): Regs
    requires |k| == 64
  {
    var x76 := Minus(x.x76, k[Index(x.x54)]);
    var x54 := Minus(x.x54, k[Index(x.x32)]);
    var x32 := Minus(x.x32, k[Index(x.x10)]);
    var x10 := Minus(x.x10, k[Index(x76)]);
    Regs(x10, x32, x54, x76)
  }

  lemma UnmashingOfMashing(k: seq<bv16>, x: Regs)
    requires |k| == 64
    ensures UnmashingRound(k, MashingRound(k, x)) == x
  {
    hide Plus, Minus, Index;
    var y := MashingRound(k, x);
    MinusOfPlus(x.x76, k[Index(y.x54)]);
    MinusOfPlus(x.x54, k[Index(y.x32)]);
    MinusOfPlus(x.x32, k[Index(y.x10)]);
    MinusOfPlus(x.x10, k[Index(x.x76)]);
  }

  /** A mashing round follows the fifth and the eleventh mixing round. */
  function Round(k: seq<bv16>, i: nat, x: Regs): Regs
    requires |k| == 64 && i < 16
  {
    var y := MixingRound(k, i, x);
    if i == 4 || i == 10 then MashingRound(k, y) else y
  }

  function Unround(k: seq<bv16>, i: nat, x: Regs): Regs
    requires |k| == 64 && i < 16
  {
    UnmixingRound(k, i, if i == 4 || i == 10 then UnmashingRound(k, x) else x)
  }

  function Encrypt(k: seq<bv16>, x: Regs, n: nat): Regs
    requires |k| == 64 && n <= 16
  {
    if n == 0 then x else Round(k, n - 1, Encrypt(k, x, n - 1))
  }

  function Decrypt(k: seq<bv16>, x: Regs, n: nat): Regs
    requires |k| == 64 && n <= 16
    decreases n
  {
    if n == 0 then x else Decrypt(k, Unround(k, n - 1, x), n - 1)
  }

  lemma {:induction false} DecryptOfEncrypt(k: seq<bv16>, x: Regs, n: nat)
    requires |k| == 64 && n <= 16
    ensures Decrypt(k, Encrypt(k, x, n), n) == x
  {
    hide MixingRound, UnmixingRound, MashingRound, UnmashingRound;
    if n > 0 {
      var before := Encrypt(k, x, n - 1);
      UnmixingOfMixing(k, n - 1, before);
      UnmashingOfMashing(k, MixingRound(k, n - 1, before));
      DecryptOfEncrypt(k, x, n - 1);
    }
  }

  // ---------- 32-bit registers ----------

  function Low(x: bv32): bv16 {
    (x & 0xFFFF) as bv16
  }

  function Lows(xkey: seq<bv32>): (k: seq<bv16>)
    ensures |k| == |xkey|
  {
    seq(|xkey|, i requires 0 <= i < |xkey| => Low(xkey[i]))
  }

  /** A register whose upper half is zero. */
  predicate Clean(x: bv32) {
    x < 0x10000
  }

  function Index32(x: bv32): (n: nat)
    ensures n < 64
  {
    (And(x, 63) as bv6) as nat
  }

  // The same step in a register and in a word: only the low halves of what goes in matter, whatever
  // is above them.

  lemma AddIs(x: bv32, y: bv32, z: bv32)
    requires Add(x, y) == z
    ensures z == x + y
  {
  }

  lemma LowOfSum(x: bv32, y: bv32)
    ensures Low(x + y) == ((x & 0xFFFF) as bv16) + ((y & 0xFFFF) as bv16)
  {
  }

  lemma LowIs(x: bv32)
    ensures Low(x) == (x & 0xFFFF) as bv16
  {
  }

  lemma PlusOfLows(x: bv32, y: bv32)
    ensures Plus(Low(x), Low(y)) == ((x & 0xFFFF) as bv16) + ((y & 0xFFFF) as bv16)
  {
    hide Low, Plus;
    LowIs(x);
    LowIs(y);
    PlusIs(Low(x), Low(y), Plus(Low(x), Low(y)));
  }

  lemma LowOfAdd(x: bv32, y: bv32)
    ensures Low(Add(x, y)) == Plus(Low(x), Low(y))
  {
    hide Add, Low, Plus;
    AddIs(x, y, Add(x, y));
    LowOfSum(x, y);
    PlusOfLows(x, y);
  }

  lemma SubIs(x: bv32, y: bv32, z: bv32)
    requires Sub(x, y) == z
    ensures z == x - y
  {
  }

  lemma AddCancels(x: bv32, y: bv32, z: bv32)
    requires z == x - y
    ensures Add(z, y) == x
  {
  }

  lemma LowOfSub(x: bv32, y: bv32)
    ensures Low(Sub(x, y)) == Minus(Low(x), Low(y))
  {
    hide Add, Sub, Low, Plus, Minus;
    var z := Sub(x, y);
    SubIs(x, y, z);
    AddCancels(x, y, z);
    LowOfAdd(z, y);
    MinusOfPlus(Low(z), Low(y));
  }

  lemma LowOfTerms(p: bv32, q: bv32, r: bv32)
    ensures Low(And(p, Not(q))) == Low(p) & !Low(q)
    ensures Low(And(r, q)) == Low(r) & Low(q)
  {
  }

  lemma LowOfBlend(p: bv32, q: bv32, r: bv32, k: bv32)
    ensures Low(Add(Add(And(p, Not(q)), And(r, q)), k)) == Blend(Low(p), Low(q), Low(r), Low(k))
  {
    hide Add, And, Not, Low, Plus;
    LowOfTerms(p, q, r);
    LowOfAdd(And(p, Not(q)), And(r, q));
    LowOfAdd(Add(And(p, Not(q)), And(r, q)), k);
  }

  lemma LowOfMask(x: bv32)
    ensures Clean(And(x, 0xFFFF)) && Low(And(x, 0xFFFF)) == Low(x)
  {
  }

  lemma LowOfRol(y: bv32, n: bv32)
    requires Clean(y) && 0 < n < 16
    ensures Low(Or(Shl(y, n), Shr(y, 16 - n))) == Rol16(Low(y), n as bv16)
  {
  }

  lemma LowOfRor(y: bv32, n: bv32)
    requires Clean(y) && 0 < n < 16
    ensures Low(Or(Shl(y, 16 - n), Shr(y, n))) == Ror16(Low(y), n as bv16)
  {
  }

  lemma IndexOfLow(x: bv32)
    ensures Index32(x) == Index(Low(x))
  {
  }

  // ---------- blocks and the code ----------

  function LoadRegs(b: seq<bv8>): Regs
    requires |b| == 8
  {
    Regs(W.Load16H([b[1], b[0]]), W.Load16H([b[3], b[2]]), W.Load16H([b[5], b[4]]), W.Load16H([b[7], b[6]]))
  }

  function StoreRegs(x: Regs): (b: seq<bv8>)
    ensures |b| == 8
  {
    var b10, b32, b54, b76 := W.Store16H(x.x10), W.Store16H(x.x32), W.Store16H(x.x54), W.Store16H(x.x76);
    [b10[1], b10[0], b32[1], b32[0], b54[1], b54[0], b76[1], b76[0]]
  }

  lemma Pair(b: seq<bv8>)
    requires |b| == 2
    ensures [b[0], b[1]] == b
  {
  }

  lemma LoadOfStore(x: Regs)
    ensures LoadRegs(StoreRegs(x)) == x
  {
    hide W.Load16H, W.Store16H;
    var b := StoreRegs(x);
    Pair(W.Store16H(x.x10));
    Pair(W.Store16H(x.x32));
    Pair(W.Store16H(x.x54));
    Pair(W.Store16H(x.x76));
    W.LoadStore16H(x.x10, [b[1], b[0]]);
    W.LoadStore16H(x.x32, [b[3], b[2]]);
    W.LoadStore16H(x.x54, [b[5], b[4]]);
    W.LoadStore16H(x.x76, [b[7], b[6]]);
  }

  lemma StoreOfLoad(b: seq<bv8>)
    requires |b| == 8
    ensures StoreRegs(LoadRegs(b)) == b
  {
    hide W.Load16H, W.Store16H;
    var x := LoadRegs(b);
    W.LoadStore16H(x.x10, [b[1], b[0]]);
    W.LoadStore16H(x.x32, [b[3], b[2]]);
    W.LoadStore16H(x.x54, [b[5], b[4]]);
    W.LoadStore16H(x.x76, [b[7], b[6]]);
  }

  function EcbEncryption(k: seq<bv16>, pt: seq<bv8>): (ct: seq<bv8>)
    requires |k| == 64 && |pt| == 8
    ensures |ct| == 8
  {
    StoreRegs(Encrypt(k, LoadRegs(pt), 16))
  }

  function EcbDecryption(k: seq<bv16>, ct: seq<bv8>): (pt: seq<bv8>)
    requires |k| == 64 && |ct| == 8
    ensures |pt| == 8
  {
    StoreRegs(Decrypt(k, LoadRegs(ct), 16))
  }

  /** Decryption undoes encryption for every key table and block. */
  lemma DecryptAfterEncrypt(k: seq<bv16>, pt: seq<bv8>)
    requires |k| == 64 && |pt| == 8
    ensures EcbDecryption(k, EcbEncryption(k, pt)) == pt
  {
    hide Encrypt, Decrypt, LoadRegs, StoreRegs;
    LoadOfStore(Encrypt(k, LoadRegs(pt), 16));
    DecryptOfEncrypt(k, LoadRegs(pt), 16);
    StoreOfLoad(pt);
  }

  datatype Regs32 = Regs32(x10: bv32, x32: bv32, x54: bv32, x76: bv32)

  function LowRegs(x: Regs32): Regs {
    Regs(Low(x.x10), Low(x.x32), Low(x.x54), Low(x.x76))
  }

  predicate AllClean(x: Regs32) {
    Clean(x.x10) && Clean(x.x32) && Clean(x.x54) && Clean(x.x76)
  }

  function LoadRegister(h: bv8, l: bv8): bv32 {
    Add(Shl(h as bv32, 8), l as bv32)
  }

  lemma LowOfLoad(h: bv8, l: bv8)
    ensures Clean(LoadRegister(h, l)) && Low(LoadRegister(h, l)) == W.Load16H([h, l])
  {
  }

  function LowByte(x: bv32): bv8 {
    (x & 0xFF) as bv8
  }

  lemma BytesOfLow(x: bv32)
    ensures LowByte(x) == W.Store16H(Low(x))[1]
    ensures LowByte(Shr(x, 8)) == W.Store16H(Low(x))[0]
  {
  }

  lemma MixStep(x: bv32, p: bv32, q: bv32, r: bv32, k: bv32, n: bv32)
    requires 0 < n < 16
    ensures var y := And(Add(Add(Add(x, And(p, Not(q))), And(r, q)), k), 0xFFFF);
            Low(Or(Shl(y, n), Shr(y, 16 - n))) == Mix(Low(x), Low(p), Low(q), Low(r), Low(k), n as bv16)
  {
    hide And, Not, Or, Add, Shl, Shr, Low, Clean, Plus, Rol16;
    var a, b := And(p, Not(q)), And(r, q);
    var sum := Add(Add(Add(x, a), b), k);
    LowOfTerms(p, q, r);
    LowOfAdd(x, a);
    LowOfAdd(Add(x, a), b);
    LowOfAdd(Add(Add(x, a), b), k);
    PlusAssociates(Low(x), Low(a), Low(b));
    PlusAssociates(Low(x), Plus(Low(a), Low(b)), Low(k));
    LowOfMask(sum);
    LowOfRol(And(sum, 0xFFFF), n);
  }

  lemma UnmixStep(x: bv32, p: bv32, q: bv32, r: bv32, k: bv32, n: bv32)
    requires Clean(x) && 0 < n < 16
    ensures var y := Or(Shl(x, 16 - n), Shr(x, n));
            var z := And(Sub(y, Add(Add(And(p, Not(q)), And(r, q)), k)), 0xFFFF);
            Clean(z) && Low(z) == Unmix(Low(x), Low(p), Low(q), Low(r), Low(k), n as bv16)
  {
    hide And, Not, Or, Add, Sub, Shl, Shr, Low, Clean, Minus, Blend, Ror16;
    var y, b := Or(Shl(x, 16 - n), Shr(x, n)), Add(Add(And(p, Not(q)), And(r, q)), k);
    LowOfRor(x, n);
    LowOfBlend(p, q, r, k);
    LowOfSub(y, b);
    LowOfMask(Sub(y, b));
  }

  lemma MashStep(x: bv32, k: bv32)
    ensures Clean(And(Add(x, k), 0xFFFF)) && Low(And(Add(x, k), 0xFFFF)) == Plus(Low(x), Low(k))
  {
    hide And, Add, Low, Clean, Plus;
    LowOfAdd(x, k);
    LowOfMask(Add(x, k));
  }

  lemma UnmashStep(x: bv32, k: bv32)
    ensures Clean(And(Sub(x, k), 0xFFFF)) && Low(And(Sub(x, k), 0xFFFF)) == Minus(Low(x), Low(k))
  {
    hide And, Sub, Low, Clean, Minus;
    LowOfSub(x, k);
    LowOfMask(Sub(x, k));
  }

  method RunMixing(xkey: seq<bv32>, i: nat, s: Regs32) returns (t: Regs32)
    requires |xkey| == 64 && i < 16
    ensures LowRegs(t) == MixingRound(Lows(xkey), i, LowRegs(s))
  {
    hide And, Not, Or, Add, Shl, Shr, Low, Mix;
    var x10, x32, x54, x76 := s.x10, s.x32, s.x54, s.x76;
    MixStep(x10, x32, x76, x54, xkey[4 * i + 0], 1);
    x10 := And(Add(Add(Add(x10, And(x32, Not(x76))), And(x54, x76)), xkey[4 * i + 0]), 0xFFFF);
    x10 := Or(Shl(x10, 1), Shr(x10, 15));

    MixStep(x32, x54, x10, x76, xkey[4 * i + 1], 2);
    x32 := And(Add(Add(Add(x32, And(x54, Not(x10))), And(x76, x10)), xkey[4 * i + 1]), 0xFFFF);
    x32 := Or(Shl(x32, 2), Shr(x32, 14));

    MixStep(x54, x76, x32, x10, xkey[4 * i + 2], 3);
    x54 := And(Add(Add(Add(x54, And(x76, Not(x32))), And(x10, x32)), xkey[4 * i + 2]), 0xFFFF);
    x54 := Or(Shl(x54, 3), Shr(x54, 13));

    MixStep(x76, x10, x54, x32, xkey[4 * i + 3], 5);
    x76 := And(Add(Add(Add(x76, And(x10, Not(x54))), And(x32, x54)), xkey[4 * i + 3]), 0xFFFF);
    x76 := Or(Shl(x76, 5), Shr(x76, 11));
    t := Regs32(x10, x32, x54, x76);
  }

  method RunMashing(xkey: seq<bv32>, s: Regs32) returns (t: Regs32)
    requires |xkey| == 64
    ensures LowRegs(t) == MashingRound(Lows(xkey), LowRegs(s))
  {
    hide And, Add, Low, Index, Index32, Plus, Clean;
    var x10, x32, x54, x76 := s.x10, s.x32, s.x54, s.x76;
    IndexOfLow(x76);
    MashStep(x10, xkey[Index32(x76)]);
    x10 := And(Add(x10, xkey[Index32(x76)]), 0xFFFF);
    IndexOfLow(x10);
    MashStep(x32, xkey[Index32(x10)]);
    x32 := And(Add(x32, xkey[Index32(x10)]), 0xFFFF);
    IndexOfLow(x32);
    MashStep(x54, xkey[Index32(x32)]);
    x54 := And(Add(x54, xkey[Index32(x32)]), 0xFFFF);
    IndexOfLow(x54);
    MashStep(x76, xkey[Index32(x54)]);
    x76 := And(Add(x76, xkey[Index32(x54)]), 0xFFFF);
    t := Regs32(x10, x32, x54, x76);
  }

  method RunUnmashing(xkey: seq<bv32>, s: Regs32) returns (t: Regs32)
    requires |xkey| == 64
    ensures AllClean(t) && LowRegs(t) == UnmashingRound(Lows(xkey), LowRegs(s))
  {
    hide And, Sub, Low, Index, Index32, Minus, Clean;
    var x10, x32, x54, x76 := s.x10, s.x32, s.x54, s.x76;
    IndexOfLow(x54);
    UnmashStep(x76, xkey[Index32(x54)]);
    x76 := And(Sub(x76, xkey[Index32(x54)]), 0xFFFF);
    IndexOfLow(x32);
    UnmashStep(x54, xkey[Index32(x32)]);
    x54 := And(Sub(x54, xkey[Index32(x32)]), 0xFFFF);
    IndexOfLow(x10);
    UnmashStep(x32, xkey[Index32(x10)]);
    x32 := And(Sub(x32, xkey[Index32(x10)]), 0xFFFF);
    IndexOfLow(x76);
    UnmashStep(x10, xkey[Index32(x76)]);
    x10 := And(Sub(x10, xkey[Index32(x76)]), 0xFFFF);
    t := Regs32(x10, x32, x54, x76);
  }

  method RunUnmixing(xkey: seq<bv32>, i: nat, s: Regs32) returns (t: Regs32)
    requires |xkey| == 64 && i < 16 && AllClean(s)
    ensures AllClean(t) && LowRegs(t) == UnmixingRound(Lows(xkey), i, LowRegs(s))
  {
    hide And, Not, Or, Add, Sub, Shl, Shr, Low, Unmix, Clean;
    var x10, x32, x54, x76 := s.x10, s.x32, s.x54, s.x76;
    UnmixStep(x76, x10, x54, x32, xkey[4 * i + 3], 5);
    x76 := Or(Shl(x76, 11), Shr(x76, 5));
    x76 := And(Sub(x76, Add(Add(And(x10, Not(x54)), And(x32, x54)), xkey[4 * i + 3])), 0xFFFF);

    UnmixStep(x54, x76, x32, x10, xkey[4 * i + 2], 3);
    x54 := Or(Shl(x54, 13), Shr(x54, 3));
    x54 := And(Sub(x54, Add(Add(And(x76, Not(x32)), And(x10, x32)), xkey[4 * i + 2])), 0xFFFF);

    UnmixStep(x32, x54, x10, x76, xkey[4 * i + 1], 2);
    x32 := Or(Shl(x32, 14), Shr(x32, 2));
    x32 := And(Sub(x32, Add(Add(And(x54, Not(x10)), And(x76, x10)), xkey[4 * i + 1])), 0xFFFF);

    UnmixStep(x10, x32, x76, x54, xkey[4 * i + 0], 1);
    x10 := Or(Shl(x10, 15), Shr(x10, 1));
    x10 := And(Sub(x10, Add(Add(And(x32, Not(x76)), And(x54, x76)), xkey[4 * i + 0])), 0xFFFF);
    t := Regs32(x10, x32, x54, x76);
  }

  method LoadRegisters(b: array<bv8>) returns (s: Regs32)
    requires b.Length >= 8
    ensures AllClean(s) && LowRegs(s) == LoadRegs(b[..8])
  {
    hide LoadRegister, Low, Clean, W.Load16H;
    LowOfLoad(b[7], b[6]);
    LowOfLoad(b[5], b[4]);
    LowOfLoad(b[3], b[2]);
    LowOfLoad(b[1], b[0]);
    s := Regs32(LoadRegister(b[1], b[0]), LoadRegister(b[3], b[2]), LoadRegister(b[5], b[4]), LoadRegister(b[7], b[6]));
  }

  method StoreRegisters(s: Regs32, b: array<bv8>)
    requires b.Length >= 8
    modifies b
    ensures b[..8] == StoreRegs(LowRegs(s)) && b[8..] == old(b[8..])
  {
    hide LowByte, Shr, Low, W.Store16H;
    BytesOfLow(s.x10);
    BytesOfLow(s.x32);
    BytesOfLow(s.x54);
    BytesOfLow(s.x76);
    W.Put(b, 0, [LowByte(s.x10), LowByte(Shr(s.x10, 8)), LowByte(s.x32), LowByte(Shr(s.x32, 8)),
                 LowByte(s.x54), LowByte(Shr(s.x54, 8)), LowByte(s.x76), LowByte(Shr(s.x76, 8))]);
  }

  // ---------- the key schedule, section 2 of RFC 2268 ----------

  type Table = bv8 -> bv8

  function Sum8(x: bv8, y: bv8): bv8 { x + y }

  function And8(x: bv8, y: bv8): bv8 { x & y }

  function Xor8(x: bv8, y: bv8): bv8 { x ^ y }

  /** Byte i of the key buffer after the key has been expanded. */
  function Expanded(permute: Table, key: seq<bv8>, i: nat): bv8
    requires |key| > 0
  {
    if i < |key| then key[i]
    else permute(Sum8(Expanded(permute, key, i - 1), Expanded(permute, key, i - |key|)))
  }

  /** T8, the effective key length in bytes. */
  function EffectiveBytes(bits: nat): (t: nat)
    requires 0 < bits <= 1024
    ensures 0 < t <= 128
  {
    (bits + 7) / 8
  }

  /** TM, which keeps the bits % 8 low bits of the topmost effective byte, or all of it. */
  function TopMask(bits: nat): bv8 {
    [0xFF, 0x7F, 0x3F, 0x1F, 0x0F, 0x07, 0x03, 0x01][(8 - bits % 8) % 8]
  }

  /** Byte i after the key has been reduced to its effective length. */
  function Reduced(permute: Table, key: seq<bv8>, bits: nat, i: nat): bv8
    requires |key| > 0 && 0 < bits <= 1024 && i < 128
    decreases 128 - i
  {
    var t := EffectiveBytes(bits);
    if i > 128 - t then Expanded(permute, key, i)
    else if i == 128 - t then permute(And8(Expanded(permute, key, i), TopMask(bits)))
    else permute(Xor8(Reduced(permute, key, bits, i + 1), Reduced(permute, key, bits, i + t)))
  }

  function KeyTable(permute: Table, key: seq<bv8>, bits: nat): (k: seq<bv16>)
    requires |key| > 0 && 0 < bits <= 1024
    ensures |k| == 64
  {
    seq(64, i requires 0 <= i < 64 =>
      W.Load16H([Reduced(permute, key, bits, 2 * i + 1), Reduced(permute, key, bits, 2 * i)]))
  }

  ghost predicate SameEffectiveKey(permute: Table, key: seq<bv8>, other: seq<bv8>, bits: nat)
    requires |key| > 0 && |other| > 0 && 0 < bits <= 1024
  {
    var top := 128 - EffectiveBytes(bits);
    && And8(Expanded(permute, key, top), TopMask(bits)) == And8(Expanded(permute, other, top), TopMask(bits))
    && forall i :: top < i < 128 ==> Expanded(permute, key, i) == Expanded(permute, other, i)
  }

  lemma {:induction false} SameReduced(permute: Table, key: seq<bv8>, other: seq<bv8>, bits: nat, i: nat)
    requires |key| > 0 && |other| > 0 && 0 < bits <= 1024 && i < 128
    requires SameEffectiveKey(permute, key, other, bits)
    ensures Reduced(permute, key, bits, i) == Reduced(permute, other, bits, i)
    decreases 128 - i
  {
    if i < 128 - EffectiveBytes(bits) {
      SameReduced(permute, key, other, bits, i + 1);
      SameReduced(permute, key, other, bits, i + EffectiveBytes(bits));
    }
  }

  /** The table depends on nothing but the effective bits of the expanded key, so there are no more
      than two to the power of bits tables. */
  lemma OnlyEffectiveBitsMatter(permute: Table, key: seq<bv8>, other: seq<bv8>, bits: nat)
    requires |key| > 0 && |other| > 0 && 0 < bits <= 1024
    requires SameEffectiveKey(permute, key, other, bits)
    ensures KeyTable(permute, key, bits) == KeyTable(permute, other, bits)
  {
    forall i | 0 <= i < 128
      ensures Reduced(permute, key, bits, i) == Reduced(permute, other, bits, i)
    {
      SameReduced(permute, key, other, bits, i);
    }
  }

  lemma ExpandedStep(permute: Table, key: seq<bv8>, i: nat)
    requires |key| > 0
    ensures Expanded(permute, key, i)
         == if i < |key| then key[i] else permute(Sum8(Expanded(permute, key, i - 1), Expanded(permute, key, i - |key|)))
  {
  }

  lemma ReducedStep(permute: Table, key: seq<bv8>, bits: nat, i: nat)
    requires |key| > 0 && 0 < bits <= 1024 && i < 128 - EffectiveBytes(bits)
    ensures Reduced(permute, key, bits, i)
         == permute(Xor8(Reduced(permute, key, bits, i + 1), Reduced(permute, key, bits, i + EffectiveBytes(bits))))
  {
    hide Xor8, Expanded;
  }

  lemma ReducedStart(permute: Table, key: seq<bv8>, bits: nat)
    requires |key| > 0 && 0 < bits <= 1024
    ensures forall i :: 128 - EffectiveBytes(bits) < i < 128 ==> Reduced(permute, key, bits, i) == Expanded(permute, key, i)
    ensures var i := 128 - EffectiveBytes(bits);
            Reduced(permute, key, bits, i) == permute(And8(Expanded(permute, key, i), TopMask(bits)))
  {
    hide Xor8, And8, Expanded, TopMask;
  }

  method ExpandKey(permute: Table, key: seq<bv8>) returns (tmp: array<bv8>)
    requires 0 < |key| <= 128
    ensures fresh(tmp) && tmp.Length == 128
    ensures forall j :: 0 <= j < 128 ==> tmp[j] == Expanded(permute, key, j)
  {
    hide Sum8, Expanded;
    tmp := new bv8[128];
    for i := 0 to |key|
      invariant forall j :: 0 <= j < i ==> tmp[j] == Expanded(permute, key, j)
    {
      ExpandedStep(permute, key, i);
      tmp[i] := key[i];
    }
    if |key| < 128 {
      for i := |key| to 128
        invariant forall j :: 0 <= j < i ==> tmp[j] == Expanded(permute, key, j)
      {
        ExpandedStep(permute, key, i);
        tmp[i] := permute(Sum8(tmp[i - 1], tmp[i - |key|]));
      }
    }
  }

  method ReduceKey(permute: Table, ghost key: seq<bv8>, bits: nat, tmp: array<bv8>)
    requires |key| > 0 && 0 < bits <= 1024 && tmp.Length == 128
    requires forall j :: 0 <= j < 128 ==> tmp[j] == Expanded(permute, key, j)
    modifies tmp
    ensures forall j :: 0 <= j < 128 ==> tmp[j] == Reduced(permute, key, bits, j)
  {
    hide TopMask, Expanded, And8, Xor8, Reduced;
    ReducedStart(permute, key, bits);
    var T8 := (bits + 7) / 8;
    var TM := TopMask(bits);
    tmp[128 - T8] := permute(And8(tmp[128 - T8], TM));
    for i := 128 - T8 downto 0
      invariant forall j :: 0 <= j < i ==> tmp[j] == Expanded(permute, key, j)
      invariant forall j :: i <= j < 128 ==> tmp[j] == Reduced(permute, key, bits, j)
    {
      ReducedStep(permute, key, bits, i);
      tmp[i] := permute(Xor8(tmp[i + 1], tmp[i + T8]));
    }
  }

  class SymmetricKey {
    const xkey: array<bv32>

    constructor ()
      ensures fresh(xkey) && xkey.Length == 64
    {
      xkey := new bv32[64];
    }

    /** rc2_setup_ex; a bit count of zero stands for the largest one. */
    method SetupEx(permute: Table, key: seq<bv8>, bits: nat, numRounds: int) returns (err: W.Status)
      requires xkey.Length == 64
      modifies xkey
      ensures err == (if |key| == 0 || |key| > 128 || bits > 1024 then W.CRYPT_INVALID_KEYSIZE
                      else if numRounds != 0 && numRounds != 16 then W.CRYPT_INVALID_ROUNDS else W.CRYPT_OK)
      ensures err == W.CRYPT_OK ==> Lows(xkey[..]) == KeyTable(permute, key, if bits == 0 then 1024 else bits)
      ensures err == W.CRYPT_OK ==> forall i :: 0 <= i < 64 ==> Clean(xkey[i])
      ensures err != W.CRYPT_OK ==> xkey[..] == old(xkey[..])
    {
      hide LoadRegister, Low, Clean, W.Load16H, Reduced, Expanded;
      if |key| == 0 || |key| > 128 || bits > 1024 {
        return W.CRYPT_INVALID_KEYSIZE;
      }
      var bits := if bits == 0 then 1024 else bits;
      if numRounds != 0 && numRounds != 16 {
        return W.CRYPT_INVALID_ROUNDS;
      }
      var tmp := ExpandKey(permute, key);
      ReduceKey(permute, key, bits, tmp);
      for i := 0 to 64
        invariant forall j :: 0 <= j < 128 ==> tmp[j] == Reduced(permute, key, bits, j)
        invariant forall j :: 0 <= j < i ==> Clean(xkey[j]) && Low(xkey[j]) == KeyTable(permute, key, bits)[j]
      {
        LowOfLoad(tmp[2 * i + 1], tmp[2 * i]);
        xkey[i] := LoadRegister(tmp[2 * i + 1], tmp[2 * i]);
      }
      return W.CRYPT_OK;
    }

    /** rc2_setup: every bit of the key is effective. */
    method Setup(permute: Table, key: seq<bv8>, numRounds: int) returns (err: W.Status)
      requires xkey.Length == 64
      modifies xkey
      ensures err == (if |key| == 0 || |key| > 128 then W.CRYPT_INVALID_KEYSIZE
                      else if numRounds != 0 && numRounds != 16 then W.CRYPT_INVALID_ROUNDS else W.CRYPT_OK)
      ensures err == W.CRYPT_OK ==> Lows(xkey[..]) == KeyTable(permute, key, 8 * |key|)
      ensures err != W.CRYPT_OK ==> xkey[..] == old(xkey[..])
    {
      hide KeyTable, Lows;
      err := SetupEx(permute, key, 8 * |key|, numRounds);
    }

    method EcbEncrypt(pt: array<bv8>, ct: array<bv8>)
      requires xkey.Length == 64 && pt.Length >= 8 && ct.Length >= 8
      modifies ct
      ensures ct[..8] == EcbEncryption(Lows(xkey[..]), old(pt[..8])) && ct[8..] == old(ct[8..])
    {
      hide LowRegs, AllClean, LoadRegs, StoreRegs, MixingRound, MashingRound;
      ghost var k, x := Lows(xkey[..]), LoadRegs(pt[..8]);
      var s := LoadRegisters(pt);
      var words := xkey[..];
      for i := 0 to 16
        invariant unchanged(ct) && LowRegs(s) == Encrypt(k, x, i)
      {
        ghost var before := LowRegs(s);
        s := RunMixing(words, i, s);
        if i == 4 || i == 10 {
          s := RunMashing(words, s);
        }
        assert LowRegs(s) == Round(k, i, before);
      }
      StoreRegisters(s, ct);
    }

    method EcbDecrypt(ct: array<bv8>, pt: array<bv8>)
      requires xkey.Length == 64 && pt.Length >= 8 && ct.Length >= 8
      modifies pt
      ensures pt[..8] == EcbDecryption(Lows(xkey[..]), old(ct[..8])) && pt[8..] == old(pt[8..])
    {
      hide LowRegs, AllClean, LoadRegs, StoreRegs, UnmixingRound, UnmashingRound;
      ghost var k, x := Lows(xkey[..]), LoadRegs(ct[..8]);
      var s := LoadRegisters(ct);
      var words := xkey[..];
      for i := 16 downto 0
        invariant unchanged(pt) && AllClean(s) && Decrypt(k, LowRegs(s), i) == Decrypt(k, x, 16)
      {
        ghost var before := LowRegs(s);
        if i == 4 || i == 10 {
          s := RunUnmashing(words, s);
        }
        s := RunUnmixing(words, i, s);
        assert LowRegs(s) == Unround(k, i, before);
      }
      StoreRegisters(s, pt);
    }
  }
}

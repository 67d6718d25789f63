/** Serpent's key schedule (ciphers/serpent.c, s_setup_key and serpent_setup): key padding, the
    prekey recurrence run first in an eight-word ring and then along the table, and the S-boxes
    applied in place, group after group, through a moving base. */
module SerpentSchedule {
  import opened Bits
  import opened BitSlice
  import opened SerpentBoxes
  import opened Serpent
  import W = Words

  // ---------- the padded key ----------

  /** Word j of the key: whole words are loaded, and a single 1 bit follows the last of them. */
  function KeyWord(key: seq<bv8>, j: nat): bv32
    requires |key| <= 32 && j < 8
  {
    var m := |key| / 4;
    var loaded := if j < m then W.Load32L(key[4 * j..4 * j + 4]) else 0;
    if |key| < 32 && j == m then Or(loaded, OneAt(|key| % 4)) else loaded
  }

  /** (ulong32)1 << (8 * n) */
  function OneAt(n: nat): bv32
    requires n < 4
  {
    match n case 0 => 0x1 case 1 => 0x100 case 2 => 0x1_0000 case _ => 0x100_0000
  }

  /** The padding of the Serpent proposal: a 1 bit after the key and then zeros up to 256 bits. */
  function PaddedKey(key: seq<bv8>): (p: seq<bv8>)
    requires |key| <= 32
    ensures |p| == 32
  {
    if |key| == 32 then key else key + [1] + seq(31 - |key|, _ => 0)
  }

  lemma KeyWordIsPadded(key: seq<bv8>, j: nat)
    requires |key| <= 32 && |key| % 4 == 0 && j < 8
    ensures KeyWord(key, j) == W.Load32L(PaddedKey(key)[4 * j..4 * j + 4])
  {
    hide W.Load32L, Or;
    var m := |key| / 4;
    var p := PaddedKey(key)[4 * j..4 * j + 4];
    if j < m {
      assert p == key[4 * j..4 * j + 4];
    } else if j == m {
      assert p == [1, 0, 0, 0];
      LoadOne();
    } else {
      assert p == [0, 0, 0, 0];
      LoadOne();
    }
  }

  lemma LoadOne()
    ensures W.Load32L([1, 0, 0, 0]) == 1 == Or(0, OneAt(0))
    ensures W.Load32L([0, 0, 0, 0]) == 0
  {
  }

  // ---------- prekeys ----------

  const PHI: bv32 := 0x9e37_79b9

  function Index(i: nat): bv32
    requires i < 0x1_0000_0000
  {
    i as bv32
  }

  /** Prekey i - 8: the recurrence w(i) over the eight words before it. */
  function Prekey(key: seq<bv8>, i: nat): bv32
    requires |key| <= 32 && i < 0x1_0000_0000
  {
    if i < 8 then KeyWord(key, i)
    else Mixed(Prekey(key, i - 8), Prekey(key, i - 5), Prekey(key, i - 3), Prekey(key, i - 1), i - 8)
  }

  function Mixed(w8: bv32, w5: bv32, w3: bv32, w1: bv32, i: nat): bv32
    requires i < 0x1_0000_0000
  {
    Rol(Xor(Xor(Xor(Xor(Xor(w8, w5), w3), w1), PHI), Index(i)), 11)
  }

  /** Group g of four prekeys, and the round key made from it. */
  function PrekeyGroup(key: seq<bv8>, g: nat): State
    requires |key| <= 32 && g <= 0x1000_0000
  {
    Quad(Prekey(key, 4 * g + 8), Prekey(key, 4 * g + 9), Prekey(key, 4 * g + 10), Prekey(key, 4 * g + 11))
  }

  function RoundKey(key: seq<bv8>, g: nat): State
    requires |key| <= 32 && g <= 0x1000_0000
  {
    Box(Words(), (3 - g) % 8, PrekeyGroup(key, g))
  }

  function Group(k: seq<bv32>, g: nat): State
    requires 4 * g + 4 <= |k|
  {
    Quad(k[4 * g], k[4 * g + 1], k[4 * g + 2], k[4 * g + 3])
  }

  /** The table when the first n groups are round keys and the others still prekeys. */
  ghost predicate Progress(key: seq<bv8>, rounds: nat, k: seq<bv32>, n: nat)
    requires |key| <= 32 && rounds <= 0x1000_0000
  {
    && 4 * (rounds + 1) <= |k|
    && forall g :: 0 <= g <= rounds ==> Group(k, g) == if g < n then RoundKey(key, g) else PrekeyGroup(key, g)
  }

  // ---------- the code ----------

  /** For every positive multiple of eight rounds; the library asks for 32. */
  method SetupKey(key: seq<bv8>, rounds: nat, k: array<bv32>)
    requires |key| <= 32 && 8 <= rounds <= 0x1000_0000 && rounds % 8 == 0 && 4 * (rounds + 1) <= k.Length
    modifies k
    ensures forall g :: 0 <= g <= rounds ==> Group(k[..], g) == RoundKey(key, g)
    ensures forall n :: 4 * (rounds + 1) <= n < k.Length ==> k[n] == old(k[n])
  {
    hide RoundKey, Prekey;
    var k0 := RingKey(key);
    Prekeys(key, k0, rounds, k);
    assert Progress(key, rounds, k[..], 0);
    hide Progress;
    var base := -20;
    for i := 0 to rounds / 8
      invariant base == 32 * i - 20
      invariant forall n :: 4 * (rounds + 1) <= n < k.Length ==> k[n] == old(k[n])
      invariant Progress(key, rounds, k[..], 8 * i)
    {
      BoxNumbers(i);
      Stage(k, base, 3, key, rounds, 8 * i);
      Stage(k, base, 2, key, rounds, 8 * i + 1);
      Stage(k, base, 1, key, rounds, 8 * i + 2);
      Stage(k, base, 0, key, rounds, 8 * i + 3);
      base := base + 8 * 4;
      Stage(k, base, 7, key, rounds, 8 * i + 4);
      Stage(k, base, 6, key, rounds, 8 * i + 5);
      Stage(k, base, 5, key, rounds, 8 * i + 6);
      Stage(k, base, 4, key, rounds, 8 * i + 7);
    }
    BoxNumbers(rounds / 8);
    Stage(k, base, 3, key, rounds, rounds);
    AllGroups(key, rounds, k[..]);
  }

  lemma BoxNumbers(i: nat)
    ensures (3 - (8 * i)) % 8 == 3 && (3 - (8 * i + 1)) % 8 == 2
    ensures (3 - (8 * i + 2)) % 8 == 1 && (3 - (8 * i + 3)) % 8 == 0
    ensures (3 - (8 * i + 4)) % 8 == 7 && (3 - (8 * i + 5)) % 8 == 6
    ensures (3 - (8 * i + 6)) % 8 == 5 && (3 - (8 * i + 7)) % 8 == 4
  {
  }

  lemma AllGroups(key: seq<bv8>, rounds: nat, k: seq<bv32>)
    requires |key| <= 32 && rounds <= 0x1000_0000 && Progress(key, rounds, k, rounds + 1)
    ensures forall g :: 0 <= g <= rounds ==> 4 * g + 4 <= |k| && Group(k, g) == RoundKey(key, g)
  {
  }

  /** Loads four words, runs box n on them and stores the outputs where the inputs were:
      the load index 8 - n and the store index 8 - (n + 1), one group further on, meet. */
  method Stage(k: array<bv32>, base: int, n: nat, ghost key: seq<bv8>, ghost rounds: nat, ghost g: nat)
    requires |key| <= 32 && rounds <= 0x1000_0000 && g <= rounds
    requires n == (3 - g) % 8 && base + (8 - n) * 4 == 4 * g
    requires Progress(key, rounds, k[..], g)
    modifies k
    ensures Progress(key, rounds, k[..], g + 1)
    ensures forall n :: 4 * (rounds + 1) <= n < k.Length ==> k[n] == old(k[n])
  {
    hide Box, Words, PrekeyGroup;
    ghost var before := k[..];
    var at := base + (8 - n) * 4;
    var r0, r1, r2, r3, r4 := RunS(n, k[at + 0], k[at + 1], k[at + 2], k[at + 3]);
    var o := AfterS(n, Regs(r0, r1, r2, r3, r4));
    at := base + (8 - (n + 1)) * 4;
    k[at + 4] := o.a;
    k[at + 5] := o.b;
    k[at + 6] := o.c;
    k[at + 7] := o.d;
    ProgressStep(key, rounds, before, k[..], g);
  }

  lemma ProgressStep(key: seq<bv8>, rounds: nat, before: seq<bv32>, after: seq<bv32>, g: nat)
    requires |key| <= 32 && rounds <= 0x1000_0000 && g <= rounds && Progress(key, rounds, before, g)
    requires |after| == |before| && Group(after, g) == Box(Words(), (3 - g) % 8, Group(before, g))
    requires forall n :: 0 <= n < |before| && !(4 * g <= n < 4 * g + 4) ==> after[n] == before[n]
    ensures Progress(key, rounds, after, g + 1)
  {
    hide Box, Words, PrekeyGroup;
    assert Group(before, g) == PrekeyGroup(key, g);
    forall h | 0 <= h <= rounds && h != g
      ensures Group(after, h) == Group(before, h)
    {
    }
  }

  /** The eight-word key: loaded words and the padding bit. */
  method RingKey(key: seq<bv8>) returns (k0: seq<bv32>)
    requires |key| <= 32
    ensures |k0| == 8 && forall j :: 0 <= j < 8 ==> k0[j] == KeyWord(key, j)
  {
    hide W.Load32L, Or, OneAt;
    k0 := [0, 0, 0, 0, 0, 0, 0, 0];
    var i := 0;
    while i < 8 && i < |key| / 4
      invariant 0 <= i <= 8 && i <= |key| / 4 && |k0| == 8
      invariant forall j :: 0 <= j < 8 ==> k0[j] == if j < i then W.Load32L(key[4 * j..4 * j + 4]) else 0
    {
      k0 := k0[i := W.Load32L(key[i * 4..i * 4 + 4])];
      i := i + 1;
    }
    if |key| < 32 {
      k0 := k0[|key| / 4 := Or(k0[|key| / 4], OneAt(|key| % 4))];
    }
  }

  method Prekeys(key: seq<bv8>, k0: seq<bv32>, rounds: nat, k: array<bv32>)
    requires |key| <= 32 && 1 <= rounds <= 0x1000_0000 && 4 * (rounds + 1) <= k.Length
    requires |k0| == 8 && forall j :: 0 <= j < 8 ==> k0[j] == KeyWord(key, j)
    modifies k
    ensures forall n :: 0 <= n < 4 * (rounds + 1) ==> k[n] == Prekey(key, n + 8)
    ensures forall n :: 4 * (rounds + 1) <= n < k.Length ==> k[n] == old(k[n])
  {
    hide KeyWord, Mixed, Prekey;
    var t := FirstPrekeys(key, k0, k);
    var i := 8;
    while i < 4 * (rounds + 1)
      invariant 8 <= i <= 4 * (rounds + 1)
      invariant t == Prekey(key, i + 7)
      invariant forall n :: 0 <= n < i ==> k[n] == Prekey(key, n + 8)
      invariant forall n :: i <= n < k.Length ==> k[n] == old(k[n])
    {
      PrekeyStep(key, i);
      t := Mixed(k[i - 8], k[i - 5], k[i - 3], t, i);
      k[i] := t;
      i := i + 1;
    }
  }

  /** Eight steps in the ring: position j holds the newest word that is congruent to j. */
  method FirstPrekeys(key: seq<bv8>, init: seq<bv32>, k: array<bv32>) returns (t: bv32)
    requires |key| <= 32 && 8 <= k.Length
    requires |init| == 8 && forall j :: 0 <= j < 8 ==> init[j] == KeyWord(key, j)
    modifies k
    ensures t == Prekey(key, 15)
    ensures forall n :: 0 <= n < 8 ==> k[n] == Prekey(key, n + 8)
    ensures forall n :: 8 <= n < k.Length ==> k[n] == old(k[n])
  {
    hide KeyWord, Mixed;
    forall j | 0 <= j < 8
      ensures KeyWord(key, j) == Prekey(key, j)
    {
    }
    hide Prekey;
    var k0 := init;
    t := k0[7];
    var i := 0;
    while i < 8
      invariant 0 <= i <= 8
      invariant |k0| == 8 && t == Prekey(key, i + 7)
      invariant forall j :: 0 <= j < 8 ==> k0[j] == Prekey(key, if j < i then j + 8 else j)
      invariant forall n :: 0 <= n < i ==> k[n] == Prekey(key, n + 8)
      invariant forall n :: i <= n < k.Length ==> k[n] == old(k[n])
    {
      PrekeyStep(key, i);
      RingIndex(i, 3);
      RingIndex(i, 5);
      t := Mixed(k0[i], k0[(i + 3) % 8], k0[(i + 5) % 8], t, i);
      k0 := k0[i := t];
      k[i] := t;
      i := i + 1;
    }
  }

  lemma RingIndex(i: nat, d: nat)
    requires i < 8 && d < 8
    ensures (i + d) % 8 == if i + d < 8 then i + d else i + d - 8
  {
  }

  lemma PrekeyStep(key: seq<bv8>, i: nat)
    requires |key| <= 32 && i + 8 < 0x1_0000_0000
    ensures Prekey(key, i + 8) ==
            Mixed(Prekey(key, i), Prekey(key, i + 3), Prekey(key, i + 5), Prekey(key, i + 7), i)
  {
    hide Mixed;
  }

  // ---------- the cipher as the library offers it ----------

  predicate KeySize(n: nat) {
    n == 16 || n == 24 || n == 32
  }

  function Pick(x: State, j: nat): bv32
    requires j < 4
  {
    if j == 0 then x.a else if j == 1 then x.b else if j == 2 then x.c else x.d
  }

  function RoundKeys(key: seq<bv8>): (k: seq<bv32>)
    requires |key| <= 32
    ensures |k| == KEY_WORDS
  {
    seq(KEY_WORDS, n requires 0 <= n < KEY_WORDS => Pick(RoundKey(key, n / 4), n % 4))
  }

  lemma GroupsAreRoundKeys(key: seq<bv8>, k: seq<bv32>)
    requires |key| <= 32 && |k| == KEY_WORDS && forall g :: 0 <= g <= 32 ==> Group(k, g) == RoundKey(key, g)
    ensures k == RoundKeys(key)
  {
    hide RoundKey;
    forall n | 0 <= n < KEY_WORDS
      ensures k[n] == Pick(RoundKey(key, n / 4), n % 4)
    {
      assert Group(k, n / 4) == RoundKey(key, n / 4);
      assert n == 4 * (n / 4) + n % 4;
    }
  }

  function EcbEncryption(key: seq<bv8>, pt: seq<bv8>): (ct: seq<bv8>)
    requires |key| <= 32 && |pt| == 16
    ensures |ct| == 16
  {
    StoreBlock(Encrypt(RoundKeys(key), LoadBlock(pt)))
  }

  function EcbDecryption(key: seq<bv8>, ct: seq<bv8>): (pt: seq<bv8>)
    requires |key| <= 32 && |ct| == 16
    ensures |pt| == 16
  {
    StoreBlock(Decrypt(RoundKeys(key), LoadBlock(ct)))
  }

  lemma DecryptAfterEncrypt(key: seq<bv8>, pt: seq<bv8>)
    requires |key| <= 32 && |pt| == 16
    ensures EcbDecryption(key, EcbEncryption(key, pt)) == pt
  {
    hide Encrypt, Decrypt, RoundKeys, LoadBlock, StoreBlock;
    LoadOfStore(Encrypt(RoundKeys(key), LoadBlock(pt)));
    DecryptOfEncrypt(RoundKeys(key), LoadBlock(pt));
    StoreOfLoad(pt);
  }

  class SymmetricKey {
    const k: array<bv32>

    constructor ()
      ensures fresh(k) && k.Length == KEY_WORDS
    {
      k := new bv32[KEY_WORDS];
    }

    method Setup(key: seq<bv8>, numRounds: int) returns (err: W.Status)
      requires k.Length == KEY_WORDS
      modifies k
      ensures err == (if numRounds != 0 && numRounds != 32 then W.CRYPT_INVALID_ROUNDS
                      else if !KeySize(|key|) then W.CRYPT_INVALID_KEYSIZE else W.CRYPT_OK)
      ensures err == W.CRYPT_OK ==> k[..] == RoundKeys(key)
      ensures err != W.CRYPT_OK ==> k[..] == old(k[..])
    {
      hide RoundKey;
      if numRounds != 0 && numRounds != 32 {
        return W.CRYPT_INVALID_ROUNDS;
      }
      if |key| != 16 && |key| != 24 && |key| != 32 {
        return W.CRYPT_INVALID_KEYSIZE;
      }
      SetupKey(key, 32, k);
      GroupsAreRoundKeys(key, k[..]);
      return W.CRYPT_OK;
    }

    method EcbEncrypt(pt: array<bv8>, ct: array<bv8>, ghost key: seq<bv8>)
      requires |key| <= 32 && k.Length == KEY_WORDS && k[..] == RoundKeys(key)
      requires pt.Length >= 16 && ct.Length >= 16
      modifies ct
      ensures ct[..16] == EcbEncryption(key, old(pt[..16])) && ct[16..] == old(ct[16..])
    {
      hide RoundKeys, Encrypt, LoadBlock, StoreBlock;
      EncBlock(pt, ct, k);
    }

    method EcbDecrypt(ct: array<bv8>, pt: array<bv8>, ghost key: seq<bv8>)
      requires |key| <= 32 && k.Length == KEY_WORDS && k[..] == RoundKeys(key)
      requires pt.Length >= 16 && ct.Length >= 16
      modifies pt
      ensures pt[..16] == EcbDecryption(key, old(ct[..16])) && pt[16..] == old(pt[16..])
    {
      hide RoundKeys, Decrypt, LoadBlock, StoreBlock;
      DecBlock(ct, pt, k);
    }
  }
}

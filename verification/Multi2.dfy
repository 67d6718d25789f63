/** The Multi2 block cipher (ciphers/multi2.c), for any number of rounds. */
module Multi2 {
  import opened Bits
  import W = Words

  datatype Pair = Pair(p0: bv32, p1: bv32)

  // ---------- the four stages ----------

  function Pi1(p: Pair): Pair {
    p.(p1 := Xor(p.p1, p.p0))
  }

  function Mask2(x: bv32, k0: bv32): bv32 {
    var t := Add(x, k0);
    var t := Sub(Add(Rol(t, 1), t), 1);
    Xor(Rol(t, 4), t)
  }

  function Pi2(p: Pair, k: seq<bv32>, t: nat): Pair
    requires t + 4 <= |k|
  {
    p.(p0 := Xor(p.p0, Mask2(p.p1, k[t])))
  }

  function Mask3(x: bv32, k1: bv32, k2: bv32): bv32 {
    var t := Add(x, k1);
    var t := Add(Add(Rol(t, 2), t), 1);
    var t := Xor(Rol(t, 8), t);
    var t := Add(t, k2);
    var t := Sub(Rol(t, 1), t);
    Xor(Rol(t, 16), Or(x, t))
  }

  function Pi3(p: Pair, k: seq<bv32>, t: nat): Pair
    requires t + 4 <= |k|
  {
    p.(p1 := Xor(p.p1, Mask3(p.p0, k[t + 1], k[t + 2])))
  }

  function Mask4(x: bv32, k3: bv32): bv32 {
    var t := Add(x, k3);
    Add(Add(Rol(t, 2), t), 1)
  }

  function Pi4(p: Pair, k: seq<bv32>, t: nat): Pair
    requires t + 4 <= |k|
  {
    p.(p0 := Xor(p.p0, Mask4(p.p1, k[t + 3])))
  }

  /** Where round n (counted from 1) takes its key words: the halves of the table alternate every
      four rounds. */
  function Offset(n: nat): (t: nat)
    requires n >= 1
    ensures t == 0 || t == 4
  {
    4 * ((n - 1) / 4 % 2)
  }

  /** Round n, counted from 1. */
  function Round(uk: seq<bv32>, n: nat, p: Pair): Pair
    requires |uk| == 8 && n >= 1
  {
    var stage := (n - 1) % 4 + 1;
    if stage == 1 then Pi1(p)
    else if stage == 2 then Pi2(p, uk, Offset(n))
    else if stage == 3 then Pi3(p, uk, Offset(n))
    else Pi4(p, uk, Offset(n))
  }

  /** Every stage changes one half by a mask computed from the other half. */
  lemma RoundTwice(uk: seq<bv32>, n: nat, p: Pair)
    requires |uk| == 8 && n >= 1
    ensures Round(uk, n, Round(uk, n, p)) == p
  {
    hide Xor, Mask2, Mask3, Mask4, Offset;
    var t := Offset(n);
    XorTwice(p.p1, p.p0);
    XorTwice(p.p0, Mask2(p.p1, uk[t]));
    XorTwice(p.p1, Mask3(p.p0, uk[t + 1], uk[t + 2]));
    XorTwice(p.p0, Mask4(p.p1, uk[t + 3]));
  }

  function Encrypt(uk: seq<bv32>, p: Pair, n: nat): Pair
    requires |uk| == 8
  {
    if n == 0 then p else Round(uk, n, Encrypt(uk, p, n - 1))
  }

  function Decrypt(uk: seq<bv32>, p: Pair, n: nat): Pair
    requires |uk| == 8
    decreases n
  {
    if n == 0 then p else Decrypt(uk, Round(uk, n, p), n - 1)
  }

  /** Decryption undoes encryption for every number of rounds, table and block. */
  lemma {:induction false} DecryptOfEncrypt(uk: seq<bv32>, p: Pair, n: nat)
    requires |uk| == 8
    ensures Decrypt(uk, Encrypt(uk, p, n), n) == p
  {
    hide Round;
    if n > 0 {
      RoundTwice(uk, n, Encrypt(uk, p, n - 1));
      DecryptOfEncrypt(uk, p, n - 1);
    }
  }

  lemma {:induction false} EncryptOfDecrypt(uk: seq<bv32>, p: Pair, n: nat)
    requires |uk| == 8
    ensures Encrypt(uk, Decrypt(uk, p, n), n) == p
    decreases n
  {
    hide Round;
    if n > 0 {
      EncryptOfDecrypt(uk, Round(uk, n, p), n - 1);
      RoundTwice(uk, n, p);
    }
  }

  lemma OffsetOf(q: nat, r: nat)
    requires r < 4
    ensures Offset(4 * q + r + 1) == 4 * (q % 2)
  {
    assert (4 * q + r) / 4 == q;
  }

  lemma GroupOffsets(m: nat)
    requires m % 4 == 0
    ensures Offset(m + 2) == Offset(m + 3) == Offset(m + 4) == Offset(m + 1)
    ensures Offset(m + 5) == 4 - Offset(m + 1)
  {
    hide Offset;
    var q := m / 4;
    OffsetOf(q, 0);
    OffsetOf(q, 1);
    OffsetOf(q, 2);
    OffsetOf(q, 3);
    OffsetOf(q + 1, 0);
  }

  /** After a multiple of four rounds, the next four are the four stages on one half of the table. */
  lemma EncryptGroup(uk: seq<bv32>, p: Pair, m: nat)
    requires |uk| == 8 && m % 4 == 0
    ensures Encrypt(uk, p, m + 1) == Pi1(Encrypt(uk, p, m))
    ensures Encrypt(uk, p, m + 2) == Pi2(Encrypt(uk, p, m + 1), uk, Offset(m + 1))
    ensures Encrypt(uk, p, m + 3) == Pi3(Encrypt(uk, p, m + 2), uk, Offset(m + 1))
    ensures Encrypt(uk, p, m + 4) == Pi4(Encrypt(uk, p, m + 3), uk, Offset(m + 1))
  {
    hide Pi1, Pi2, Pi3, Pi4, Offset;
    GroupOffsets(m);
  }

  lemma DecryptGroup(uk: seq<bv32>, p: Pair, m: nat)
    requires |uk| == 8 && m % 4 == 0
    ensures Decrypt(uk, p, m + 1) == Decrypt(uk, Pi1(p), m)
    ensures Decrypt(uk, p, m + 2) == Decrypt(uk, Pi2(p, uk, Offset(m + 1)), m + 1)
    ensures Decrypt(uk, p, m + 3) == Decrypt(uk, Pi3(p, uk, Offset(m + 1)), m + 2)
    ensures Decrypt(uk, p, m + 4) == Decrypt(uk, Pi4(p, uk, Offset(m + 1)), m + 3)
  {
    hide Pi1, Pi2, Pi3, Pi4, Offset;
    GroupOffsets(m);
  }

  // ---------- keys and blocks ----------

  function LoadPair(b: seq<bv8>): Pair
    requires |b| == 8
  {
    Pair(W.Load32H(b[0..4]), W.Load32H(b[4..8]))
  }

  function StorePair(p: Pair): (b: seq<bv8>)
    ensures |b| == 8
  {
    W.Store32H(p.p0) + W.Store32H(p.p1)
  }

  lemma LoadOfStore(p: Pair)
    ensures LoadPair(StorePair(p)) == p
  {
    hide W.Load32H, W.Store32H;
    W.LoadStorePair(p.p0, p.p1);
  }

  lemma StoreOfLoad(b: seq<bv8>)
    requires |b| == 8
    ensures StorePair(LoadPair(b)) == b
  {
    hide W.Load32H, W.Store32H;
    W.StoreLoadPair(b);
  }

  /** What the four rounds that start with the second stage leave in the half each rewrites. */
  function FourWords(k: seq<bv32>, dk: Pair, m: nat): (words: seq<bv32>)
    requires |k| == 8
    ensures |words| == 4
  {
    [Encrypt(k, dk, m + 2).p0, Encrypt(k, dk, m + 3).p1, Encrypt(k, dk, m + 4).p0, Encrypt(k, dk, m + 5).p1]
  }

  /** The working key: encrypt the data key under the system key for nine rounds and keep the half
      that each round but the first has rewritten. */
  function WorkingKey(dk: Pair, k: seq<bv32>): (uk: seq<bv32>)
    requires |k| == 8
    ensures |uk| == 8
  {
    FourWords(k, dk, 0) + FourWords(k, dk, 4)
  }

  function SystemKey(key: seq<bv8>): (k: seq<bv32>)
    requires |key| == 40
    ensures |k| == 8
  {
    seq(8, i requires 0 <= i < 8 => W.Load32H(key[4 * i..4 * i + 4]))
  }

  function ScheduledKey(key: seq<bv8>): (uk: seq<bv32>)
    requires |key| == 40
    ensures |uk| == 8
  {
    WorkingKey(LoadPair(key[32..40]), SystemKey(key))
  }

  function EcbEncryption(key: seq<bv8>, N: nat, pt: seq<bv8>): (ct: seq<bv8>)
    requires |key| == 40 && |pt| == 8
    ensures |ct| == 8
  {
    StorePair(Encrypt(ScheduledKey(key), LoadPair(pt), N))
  }

  function EcbDecryption(key: seq<bv8>, N: nat, ct: seq<bv8>): (pt: seq<bv8>)
    requires |key| == 40 && |ct| == 8
    ensures |pt| == 8
  {
    StorePair(Decrypt(ScheduledKey(key), LoadPair(ct), N))
  }

  lemma DecryptAfterEncrypt(key: seq<bv8>, N: nat, pt: seq<bv8>)
    requires |key| == 40 && |pt| == 8
    ensures EcbDecryption(key, N, EcbEncryption(key, N, pt)) == pt
  {
    hide Encrypt, Decrypt, ScheduledKey, LoadPair, StorePair;
    LoadOfStore(Encrypt(ScheduledKey(key), LoadPair(pt), N));
    DecryptOfEncrypt(ScheduledKey(key), LoadPair(pt), N);
    StoreOfLoad(pt);
  }

  // ---------- the code ----------

  ghost function Contents(p: array<bv32>): Pair
    requires p.Length == 2
    reads p
  {
    Pair(p[0], p[1])
  }

  method RunPi1(p: array<bv32>)
    requires p.Length == 2
    modifies p
    ensures Contents(p) == Pi1(old(Contents(p)))
  {
    hide Xor;
    p[1] := Xor(p[1], p[0]);
  }

  method RunPi2(p: array<bv32>, k: seq<bv32>, at: nat)
    requires p.Length == 2 && at + 4 <= |k|
    modifies p
    ensures Contents(p) == Pi2(old(Contents(p)), k, at)
  {
    hide Xor, Rol, Add, Sub;
    var t := Add(p[1], k[at]);
    t := Sub(Add(Rol(t, 1), t), 1);
    t := Xor(Rol(t, 4), t);
    p[0] := Xor(p[0], t);
  }

  method RunPi3(p: array<bv32>, k: seq<bv32>, at: nat)
    requires p.Length == 2 && at + 4 <= |k|
    modifies p
    ensures Contents(p) == Pi3(old(Contents(p)), k, at)
  {
    hide Xor, Or, Rol, Add, Sub;
    var t := Add(p[0], k[at + 1]);
    t := Add(Add(Rol(t, 2), t), 1);
    t := Xor(Rol(t, 8), t);
    t := Add(t, k[at + 2]);
    t := Sub(Rol(t, 1), t);
    t := Xor(Rol(t, 16), Or(p[0], t));
    p[1] := Xor(p[1], t);
  }

  method RunPi4(p: array<bv32>, k: seq<bv32>, at: nat)
    requires p.Length == 2 && at + 4 <= |k|
    modifies p
    ensures Contents(p) == Pi4(old(Contents(p)), k, at)
  {
    hide Xor, Rol, Add, Sub;
    var t := Add(p[1], k[at + 3]);
    t := Add(Add(Rol(t, 2), t), 1);
    p[0] := Xor(p[0], t);
  }

  /** Four steps of the schedule; each stores the word it has changed. */
  method SetupFour(p: array<bv32>, k: seq<bv32>, at: nat, ghost dk: Pair, ghost m: nat) returns (uk: seq<bv32>)
    requires p.Length == 2 && |k| == 8 && m % 4 == 0 && at == Offset(m + 1)
    requires Contents(p) == Encrypt(k, dk, m + 1)
    modifies p
    ensures Contents(p) == Encrypt(k, dk, m + 5)
    ensures uk == FourWords(k, dk, m)
  {
    hide Pi1, Pi2, Pi3, Pi4, Encrypt, Offset;
    EncryptGroup(k, dk, m);
    EncryptGroup(k, dk, m + 4);
    RunPi2(p, k, at);
    uk := [p[0]];
    RunPi3(p, k, at);
    uk := uk + [p[1]];
    RunPi4(p, k, at);
    uk := uk + [p[0]];
    RunPi1(p);
    uk := uk + [p[1]];
  }

  /** The nine steps of the schedule, the first of which stores nothing. */
  method SetupWorkingKey(dk: Pair, k: seq<bv32>) returns (uk: seq<bv32>)
    requires |k| == 8
    ensures uk == WorkingKey(dk, k)
  {
    hide Pi1, Pi2, Pi3, Pi4, FourWords;
    assert Encrypt(k, dk, 0) == dk && Offset(1) == 0 && Offset(5) == 4;
    hide Encrypt, Offset;
    EncryptGroup(k, dk, 0);
    var p := new bv32[2];
    p[0], p[1] := dk.p0, dk.p1;
    var t := 4;
    RunPi1(p);
    uk := SetupFour(p, k, 0, dk, 0);
    var rest := SetupFour(p, k, t, dk, 4);
    uk := uk + rest;
  }

  /** Rounds run until the count reaches N, wherever in the group of four that is. */
  method RunEncrypt(p: array<bv32>, N: int, uk: seq<bv32>)
    requires p.Length == 2 && |uk| == 8 && N >= 1
    modifies p
    ensures Contents(p) == Encrypt(uk, old(Contents(p)), N)
  {
    hide Pi1, Pi2, Pi3, Pi4;
    ghost var p0 := Contents(p);
    var t, n := 0, 0;
    while true
      invariant 0 <= n < N && n % 4 == 0 && t == Offset(n + 1)
      invariant Contents(p) == Encrypt(uk, p0, n)
      decreases N - n
    {
      EncryptGroup(uk, p0, n);
      RunPi1(p);
      n := n + 1;
      if n == N { break; }
      RunPi2(p, uk, t);
      n := n + 1;
      if n == N { break; }
      RunPi3(p, uk, t);
      n := n + 1;
      if n == N { break; }
      RunPi4(p, uk, t);
      n := n + 1;
      if n == N { break; }
      t := if t == 0 then 4 else 0;
    }
  }

  /** The label the switch goes to. */
  function Entry(n: nat): nat {
    if n <= 4 then n else (n - 1) % 4 + 1
  }

  lemma EntryIntoGroup(n: nat)
    requires n > 0
    ensures 1 <= Entry(n) <= 4 && Entry(n) <= n && (n - Entry(n)) % 4 == 0
    ensures Offset(n) == Offset(n - Entry(n) + 1)
    ensures n - Entry(n) > 0 ==> Offset(n - Entry(n)) == 4 - Offset(n)
  {
  }

  lemma NoRounds(uk: seq<bv32>, p: Pair)
    requires |uk| == 8
    ensures Decrypt(uk, p, 0) == p
  {
  }

  /** The switch enters the group of four at the round n stands for and falls through to the
      first; only whole groups are left after that. */
  method RunDecrypt(p: array<bv32>, N: int, uk: seq<bv32>)
    requires p.Length == 2 && |uk| == 8 && N >= 1
    modifies p
    ensures Contents(p) == Decrypt(uk, old(Contents(p)), N)
  {
    hide Pi1, Pi2, Pi3, Pi4, Decrypt;
    ghost var p0 := Contents(p);
    var t, n := 4 * ((N - 1) / 4 % 2), N;
    assert t == Offset(N) && Entry(0) == 0;
    hide Offset, Entry;
    while true
      invariant 0 <= n <= N && (n > 0 ==> t == Offset(n))
      invariant Decrypt(uk, Contents(p), n) == Decrypt(uk, p0, N)
      decreases n
    {
      var entry := Entry(n);
      if n > 0 {
        EntryIntoGroup(n);
      }
      if entry == 0 {
        NoRounds(uk, Contents(p));
        return;
      }
      ghost var m := n - entry;
      if entry >= 4 {
        DecryptGroup(uk, Contents(p), m);
        RunPi4(p, uk, t);
        n := n - 1;
      }
      if entry >= 3 {
        DecryptGroup(uk, Contents(p), m);
        RunPi3(p, uk, t);
        n := n - 1;
      }
      if entry >= 2 {
        DecryptGroup(uk, Contents(p), m);
        RunPi2(p, uk, t);
        n := n - 1;
      }
      DecryptGroup(uk, Contents(p), m);
      RunPi1(p);
      n := n - 1;
      t := if t == 0 then 4 else 0;
    }
  }

  class SymmetricKey {
    const uk: array<bv32>
    var N: int

    constructor ()
      ensures fresh(uk) && uk.Length == 8
    {
      uk := new bv32[8];
      N := 0;
    }

    method Setup(key: seq<bv8>, numRounds: int) returns (err: W.Status)
      requires uk.Length == 8
      modifies this, uk
      ensures err == if |key| != 40 then W.CRYPT_INVALID_KEYSIZE else W.CRYPT_OK
      ensures err == W.CRYPT_OK ==> N == (if numRounds == 0 then 128 else numRounds) && uk[..] == ScheduledKey(key)
      ensures err != W.CRYPT_OK ==> N == old(N) && uk[..] == old(uk[..])
    {
      hide W.Load32H, WorkingKey;
      if |key| != 40 {
        return W.CRYPT_INVALID_KEYSIZE;
      }
      N := if numRounds == 0 then 128 else numRounds;
      var sk := [];
      for x := 0 to 8
        invariant N == (if numRounds == 0 then 128 else numRounds)
        invariant sk == SystemKey(key)[..x]
      {
        sk := sk + [W.Load32H(key[4 * x..4 * x + 4])];
      }
      assert sk == SystemKey(key);
      assert key[32..40][0..4] == key[32..36] && key[32..40][4..8] == key[36..40];
      var words := SetupWorkingKey(Pair(W.Load32H(key[32..36]), W.Load32H(key[36..40])), sk);
      for x := 0 to 8
        invariant N == (if numRounds == 0 then 128 else numRounds)
        invariant uk[..x] == words[..x]
      {
        uk[x] := words[x];
      }
      assert uk[..] == words == ScheduledKey(key);
      return W.CRYPT_OK;
    }

    method EcbEncrypt(pt: array<bv8>, ct: array<bv8>, ghost key: seq<bv8>)
      requires |key| == 40 && uk.Length == 8 && uk[..] == ScheduledKey(key) && N >= 1
      requires pt.Length >= 8 && ct.Length >= 8
      modifies ct
      ensures ct[..8] == EcbEncryption(key, N, old(pt[..8])) && ct[8..] == old(ct[8..])
    {
      hide W.Load32H, W.Store32H, Encrypt, ScheduledKey;
      ghost var b := pt[..8];
      assert b[0..4] == pt[0..4] && b[4..8] == pt[4..8];
      var p := new bv32[2];
      p[0], p[1] := W.Load32H(pt[0..4]), W.Load32H(pt[4..8]);
      RunEncrypt(p, N, uk[..]);
      W.Put(ct, 0, StorePair(Pair(p[0], p[1])));
    }

    method EcbDecrypt(ct: array<bv8>, pt: array<bv8>, ghost key: seq<bv8>)
      requires |key| == 40 && uk.Length == 8 && uk[..] == ScheduledKey(key) && N >= 1
      requires pt.Length >= 8 && ct.Length >= 8
      modifies pt
      ensures pt[..8] == EcbDecryption(key, N, old(ct[..8])) && pt[8..] == old(pt[8..])
    {
      hide W.Load32H, W.Store32H, Decrypt, ScheduledKey;
      ghost var b := ct[..8];
      assert b[0..4] == ct[0..4] && b[4..8] == ct[4..8];
      var p := new bv32[2];
      p[0], p[1] := W.Load32H(ct[0..4]), W.Load32H(ct[4..8]);
      RunDecrypt(p, N, uk[..]);
      W.Put(pt, 0, StorePair(Pair(p[0], p[1])));
    }
  }
}

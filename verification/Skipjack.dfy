/** The Skipjack block cipher (ciphers/skipjack.c), for any substitution table. */
module Skipjack {
  import W = Words

  type Sbox = bv8 -> bv8

  datatype State = State(w1: bv16, w2: bv16, w3: bv16, w4: bv16)

  // ---------- words and bytes ----------

  function Xor8(x: bv8, y: bv8): bv8 { x ^ y }

  function Xor16(x: bv16, y: bv16): bv16 { x ^ y }

  lemma Xor8Twice(x: bv8, m: bv8)
    ensures Xor8(Xor8(x, m), m) == x
  {
  }

  lemma Xor16Commutes(x: bv16, y: bv16)
    ensures Xor16(x, y) == Xor16(y, x)
  {
  }

  lemma Xor16Twice(x: bv16, m: bv16)
    ensures Xor16(Xor16(x, m), m) == x
  {
  }

  lemma Xor16Swaps(x: bv16, y: bv16, z: bv16)
    ensures Xor16(Xor16(x, y), z) == Xor16(Xor16(x, z), y)
  {
  }

  /** Rule A adds the step number and the permuted word to w4, rule A1 adds them again. */
  lemma XorBack(t: bv16, w: bv16, x: bv16)
    ensures Xor16(Xor16(Xor16(Xor16(t, w), x), t), x) == w
  {
    hide Xor16;
    Xor16Swaps(Xor16(t, w), x, t);
    Xor16Twice(Xor16(Xor16(t, w), t), x);
    Xor16Commutes(t, w);
    Xor16Twice(w, t);
  }

  /** Rule B adds w1 and the step number to w2, rule B1 adds them again. */
  lemma XorBackB(t: bv16, w: bv16, x: bv16)
    ensures Xor16(Xor16(t, Xor16(Xor16(t, w), x)), x) == w
  {
    hide Xor16;
    XorBack(t, w, x);
    Xor16Commutes(t, Xor16(Xor16(t, w), x));
  }

  function High(w: bv16): bv8 {
    ((w >> 8) & 255) as bv8
  }

  function Low(w: bv16): bv8 {
    (w & 255) as bv8
  }

  lemma JoinHalves(w: bv16, h: bv8, l: bv8)
    ensures W.JoinBytes(High(w), Low(w)) == w
    ensures High(W.JoinBytes(h, l)) == h && Low(W.JoinBytes(h, l)) == l
  {
  }

  // ---------- the permutation G ----------

  function F(sbox: Sbox, key: seq<bv8>, kp: nat, g: bv8): bv8
    requires |key| == 10
  {
    sbox(Xor8(g, key[kp % 10]))
  }

  /** Four Feistel steps with the key bytes kp, kp + 1, kp + 2, kp + 3, counted modulo 10. */
  function G(sbox: Sbox, key: seq<bv8>, kp: nat, w: bv16): bv16
    requires |key| == 10
  {
    var g1, g2 := High(w), Low(w);
    var g1 := Xor8(g1, F(sbox, key, kp, g2));
    var g2 := Xor8(g2, F(sbox, key, kp + 1, g1));
    var g1 := Xor8(g1, F(sbox, key, kp + 2, g2));
    var g2 := Xor8(g2, F(sbox, key, kp + 3, g1));
    W.JoinBytes(g1, g2)
  }

  /** The same key bytes, last first. */
  function InvG(sbox: Sbox, key: seq<bv8>, kp: nat, w: bv16): bv16
    requires |key| == 10
  {
    var g1, g2 := High(w), Low(w);
    var g2 := Xor8(g2, F(sbox, key, kp + 3, g1));
    var g1 := Xor8(g1, F(sbox, key, kp + 2, g2));
    var g2 := Xor8(g2, F(sbox, key, kp + 1, g1));
    var g1 := Xor8(g1, F(sbox, key, kp, g2));
    W.JoinBytes(g1, g2)
  }

  lemma InvGOfG(sbox: Sbox, key: seq<bv8>, kp: nat, w: bv16)
    requires |key| == 10
    ensures InvG(sbox, key, kp, G(sbox, key, kp, w)) == w
  {
    hide High, Low, W.JoinBytes, Xor8, F;
    var g1, g2 := High(w), Low(w);
    var h1 := Xor8(g1, F(sbox, key, kp, g2));
    var h2 := Xor8(g2, F(sbox, key, kp + 1, h1));
    var i1 := Xor8(h1, F(sbox, key, kp + 2, h2));
    var i2 := Xor8(h2, F(sbox, key, kp + 3, i1));
    JoinHalves(w, i1, i2);
    Xor8Twice(h2, F(sbox, key, kp + 3, i1));
    Xor8Twice(h1, F(sbox, key, kp + 2, h2));
    Xor8Twice(g2, F(sbox, key, kp + 1, h1));
    Xor8Twice(g1, F(sbox, key, kp, g2));
  }

  // ---------- the steps ----------

  /** Step n starts with this key byte: every step before it has used four. */
  function KeyPointer(n: nat): nat
    requires n >= 1
  {
    4 * (n - 1) % 10
  }

  function RuleA(sbox: Sbox, key: seq<bv8>, n: nat, s: State): State
    requires |key| == 10 && 1 <= n <= 32
  {
    var tmp := G(sbox, key, KeyPointer(n), s.w1);
    State(Xor16(Xor16(tmp, s.w4), W.Word16(n)), tmp, s.w2, s.w3)
  }

  function RuleB(sbox: Sbox, key: seq<bv8>, n: nat, s: State): State
    requires |key| == 10 && 1 <= n <= 32
  {
    State(s.w4, G(sbox, key, KeyPointer(n), s.w1), Xor16(Xor16(s.w1, s.w2), W.Word16(n)), s.w3)
  }

  function RuleA1(sbox: Sbox, key: seq<bv8>, n: nat, s: State): State
    requires |key| == 10 && 1 <= n <= 32
  {
    State(InvG(sbox, key, KeyPointer(n), s.w2), s.w3, s.w4, Xor16(Xor16(s.w1, s.w2), W.Word16(n)))
  }

  function RuleB1(sbox: Sbox, key: seq<bv8>, n: nat, s: State): State
    requires |key| == 10 && 1 <= n <= 32
  {
    var tmp := InvG(sbox, key, KeyPointer(n), s.w2);
    State(tmp, Xor16(Xor16(tmp, s.w3), W.Word16(n)), s.w4, s.w1)
  }

  /** Steps 1 to 8 and 17 to 24 go by rule A, the others by rule B. */
  function Step(sbox: Sbox, key: seq<bv8>, n: nat, s: State): State
    requires |key| == 10 && 1 <= n <= 32
  {
    if (n - 1) / 8 % 2 == 0 then RuleA(sbox, key, n, s) else RuleB(sbox, key, n, s)
  }

  function InvStep(sbox: Sbox, key: seq<bv8>, n: nat, s: State): State
    requires |key| == 10 && 1 <= n <= 32
  {
    if (n - 1) / 8 % 2 == 0 then RuleA1(sbox, key, n, s) else RuleB1(sbox, key, n, s)
  }

  lemma InvStepOfStep(sbox: Sbox, key: seq<bv8>, n: nat, s: State)
    requires |key| == 10 && 1 <= n <= 32
    ensures InvStep(sbox, key, n, Step(sbox, key, n, s)) == s
  {
    hide G, InvG, Xor16, W.Word16, KeyPointer;
    InvGOfG(sbox, key, KeyPointer(n), s.w1);
    XorBack(G(sbox, key, KeyPointer(n), s.w1), s.w4, W.Word16(n));
    XorBackB(s.w1, s.w2, W.Word16(n));
  }

  function Encrypt(sbox: Sbox, key: seq<bv8>, s: State, n: nat): State
    requires |key| == 10 && n <= 32
  {
    if n == 0 then s else Step(sbox, key, n, Encrypt(sbox, key, s, n - 1))
  }

  function Decrypt(sbox: Sbox, key: seq<bv8>, s: State, n: nat): State
    requires |key| == 10 && n <= 32
    decreases n
  {
    if n == 0 then s else Decrypt(sbox, key, InvStep(sbox, key, n, s), n - 1)
  }

  lemma {:induction false} DecryptOfEncrypt(sbox: Sbox, key: seq<bv8>, s: State, n: nat)
    requires |key| == 10 && n <= 32
    ensures Decrypt(sbox, key, Encrypt(sbox, key, s, n), n) == s
  {
    hide Step, InvStep;
    if n > 0 {
      InvStepOfStep(sbox, key, n, Encrypt(sbox, key, s, n - 1));
      DecryptOfEncrypt(sbox, key, s, n - 1);
    }
  }

  // ---------- blocks ----------

  function LoadBlock(b: seq<bv8>): State
    requires |b| == 8
  {
    State(W.JoinBytes(b[0], b[1]), W.JoinBytes(b[2], b[3]), W.JoinBytes(b[4], b[5]), W.JoinBytes(b[6], b[7]))
  }

  function StoreBlock(s: State): (b: seq<bv8>)
    ensures |b| == 8
  {
    [High(s.w1), Low(s.w1), High(s.w2), Low(s.w2), High(s.w3), Low(s.w3), High(s.w4), Low(s.w4)]
  }

  lemma LoadStore(s: State, b: seq<bv8>)
    requires |b| == 8
    ensures LoadBlock(StoreBlock(s)) == s
    ensures StoreBlock(LoadBlock(b)) == b
  {
    hide High, Low, W.JoinBytes;
    JoinHalves(s.w1, b[0], b[1]);
    JoinHalves(s.w2, b[2], b[3]);
    JoinHalves(s.w3, b[4], b[5]);
    JoinHalves(s.w4, b[6], b[7]);
  }

  function EcbEncryption(sbox: Sbox, key: seq<bv8>, pt: seq<bv8>): (ct: seq<bv8>)
    requires |key| == 10 && |pt| == 8
    ensures |ct| == 8
  {
    StoreBlock(Encrypt(sbox, key, LoadBlock(pt), 32))
  }

  function EcbDecryption(sbox: Sbox, key: seq<bv8>, ct: seq<bv8>): (pt: seq<bv8>)
    requires |key| == 10 && |ct| == 8
    ensures |pt| == 8
  {
    StoreBlock(Decrypt(sbox, key, LoadBlock(ct), 32))
  }

  /** Decryption undoes encryption for every table, key and block. */
  lemma DecryptAfterEncrypt(sbox: Sbox, key: seq<bv8>, pt: seq<bv8>)
    requires |key| == 10 && |pt| == 8
    ensures EcbDecryption(sbox, key, EcbEncryption(sbox, key, pt)) == pt
  {
    hide Encrypt, Decrypt, LoadBlock, StoreBlock;
    LoadStore(Encrypt(sbox, key, LoadBlock(pt), 32), pt);
    DecryptOfEncrypt(sbox, key, LoadBlock(pt), 32);
  }

  // ---------- the code ----------

  function KeyStep(kp: nat): nat
    requires kp < 10
  {
    [1, 2, 3, 4, 5, 6, 7, 8, 9, 0][kp]
  }

  function InvKeyStep(kp: nat): nat
    requires kp < 10
  {
    [9, 0, 1, 2, 3, 4, 5, 6, 7, 8][kp]
  }

  lemma KeySteps(kp: nat)
    requires kp < 10
    ensures KeyStep(kp) == (kp + 1) % 10 && KeyStep((kp + 1) % 10) == (kp + 2) % 10
    ensures KeyStep((kp + 2) % 10) == (kp + 3) % 10 && KeyStep((kp + 3) % 10) == (kp + 4) % 10
  {
  }

  /** Back from kp in four steps; k is where they end. */
  lemma InvKeySteps(kp: nat, k: nat)
    requires kp < 10 && k == (kp + 6) % 10
    ensures InvKeyStep(kp) == (k + 3) % 10 && InvKeyStep((k + 3) % 10) == (k + 2) % 10
    ensures InvKeyStep((k + 2) % 10) == (k + 1) % 10 && InvKeyStep((k + 1) % 10) == k < 10
  {
    hide InvKeyStep;
    InvKeyStepIs(kp, (k + 3) % 10);
    InvKeyStepIs((k + 3) % 10, (k + 2) % 10);
    InvKeyStepIs((k + 2) % 10, (k + 1) % 10);
    InvKeyStepIs((k + 1) % 10, k);
  }

  lemma InvKeyStepIs(kp: nat, k: nat)
    requires kp < 10 && k < 10 && kp == if k == 9 then 0 else k + 1
    ensures InvKeyStep(kp) == k
  {
  }

  lemma PointerSteps(x: nat)
    requires 1 <= x
    ensures KeyPointer(x + 1) == (KeyPointer(x) + 4) % 10 && KeyPointer(x) == (KeyPointer(x + 1) + 6) % 10
  {
    var q, r := 4 * (x - 1) / 10, 4 * (x - 1) % 10;
    if r < 6 {
      Remainder(4 * x, q, r + 4);
    } else {
      Remainder(4 * x, q + 1, r - 6);
    }
  }

  lemma Remainder(n: nat, q: nat, r: nat)
    requires n == 10 * q + r && r < 10
    ensures n % 10 == r
  {
  }

  lemma FirstPointers()
    ensures KeyPointer(1) == 0 && KeyPointer(33) == 8
  {
  }

  /** g_func: the key pointer is advanced on the way. */
  method GFunc(sbox: Sbox, w: bv16, kp0: nat, key: seq<bv8>) returns (r: bv16, kp: nat)
    requires |key| == 10 && kp0 < 10
    ensures kp == (kp0 + 4) % 10 && r == G(sbox, key, kp0, w)
  {
    hide High, Low, W.JoinBytes, Xor8, KeyStep;
    KeySteps(kp0);
    kp := kp0;
    var g1, g2 := High(w), Low(w);
    g1 := Xor8(g1, sbox(Xor8(g2, key[kp])));
    kp := KeyStep(kp);
    g2 := Xor8(g2, sbox(Xor8(g1, key[kp])));
    kp := KeyStep(kp);
    g1 := Xor8(g1, sbox(Xor8(g2, key[kp])));
    kp := KeyStep(kp);
    g2 := Xor8(g2, sbox(Xor8(g1, key[kp])));
    kp := KeyStep(kp);
    r := W.JoinBytes(g1, g2);
  }

  /** ig_func: the key pointer is moved back before each use. */
  method InvGFunc(sbox: Sbox, w: bv16, kp0: nat, key: seq<bv8>) returns (r: bv16, kp: nat)
    requires |key| == 10 && kp0 < 10
    ensures kp == (kp0 + 6) % 10 && r == InvG(sbox, key, kp, w)
  {
    hide High, Low, W.JoinBytes, Xor8, InvKeyStep;
    ghost var k := (kp0 + 6) % 10;
    InvKeySteps(kp0, k);
    kp := kp0;
    var g1, g2 := High(w), Low(w);
    kp := InvKeyStep(kp);
    g2 := Xor8(g2, sbox(Xor8(g1, key[kp])));
    kp := InvKeyStep(kp);
    g1 := Xor8(g1, sbox(Xor8(g2, key[kp])));
    kp := InvKeyStep(kp);
    g2 := Xor8(g2, sbox(Xor8(g1, key[kp])));
    kp := InvKeyStep(kp);
    g1 := Xor8(g1, sbox(Xor8(g2, key[kp])));
    r := W.JoinBytes(g1, g2);
  }

  method ApplyA(sbox: Sbox, key: seq<bv8>, x: nat, s: State, kp0: nat) returns (t: State, kp: nat)
    requires |key| == 10 && 1 <= x <= 32 && kp0 == KeyPointer(x)
    ensures kp == KeyPointer(x + 1) && t == RuleA(sbox, key, x, s)
  {
    hide G, Xor16, W.Word16, KeyPointer;
    PointerSteps(x);
    var w1, w2, w3, w4 := s.w1, s.w2, s.w3, s.w4;
    var tmp;
    tmp, kp := GFunc(sbox, w1, kp0, key);
    w1 := Xor16(Xor16(tmp, w4), W.Word16(x));
    w4 := w3;
    w3 := w2;
    w2 := tmp;
    t := State(w1, w2, w3, w4);
  }

  method ApplyB(sbox: Sbox, key: seq<bv8>, x: nat, s: State, kp0: nat) returns (t: State, kp: nat)
    requires |key| == 10 && 1 <= x <= 32 && kp0 == KeyPointer(x)
    ensures kp == KeyPointer(x + 1) && t == RuleB(sbox, key, x, s)
  {
    hide G, Xor16, W.Word16, KeyPointer;
    PointerSteps(x);
    var w1, w2, w3, w4 := s.w1, s.w2, s.w3, s.w4;
    var tmp;
    tmp, kp := GFunc(sbox, w1, kp0, key);
    var tmp1 := w4;
    w4 := w3;
    w3 := Xor16(Xor16(w1, w2), W.Word16(x));
    w1 := tmp1;
    w2 := tmp;
    t := State(w1, w2, w3, w4);
  }

  method ApplyA1(sbox: Sbox, key: seq<bv8>, x: nat, s: State, kp0: nat) returns (t: State, kp: nat)
    requires |key| == 10 && 1 <= x <= 32 && kp0 == KeyPointer(x + 1)
    ensures kp == KeyPointer(x) && t == RuleA1(sbox, key, x, s)
  {
    hide InvG, Xor16, W.Word16, KeyPointer;
    PointerSteps(x);
    var w1, w2, w3, w4 := s.w1, s.w2, s.w3, s.w4;
    var tmp := Xor16(Xor16(w1, w2), W.Word16(x));
    w1, kp := InvGFunc(sbox, w2, kp0, key);
    w2 := w3;
    w3 := w4;
    w4 := tmp;
    t := State(w1, w2, w3, w4);
  }

  method ApplyB1(sbox: Sbox, key: seq<bv8>, x: nat, s: State, kp0: nat) returns (t: State, kp: nat)
    requires |key| == 10 && 1 <= x <= 32 && kp0 == KeyPointer(x + 1)
    ensures kp == KeyPointer(x) && t == RuleB1(sbox, key, x, s)
  {
    hide InvG, Xor16, W.Word16, KeyPointer;
    PointerSteps(x);
    var w1, w2, w3, w4 := s.w1, s.w2, s.w3, s.w4;
    var tmp;
    tmp, kp := InvGFunc(sbox, w2, kp0, key);
    w2 := Xor16(Xor16(tmp, w3), W.Word16(x));
    w3 := w4;
    w4 := w1;
    w1 := tmp;
    t := State(w1, w2, w3, w4);
  }

  method RunEncrypt(sbox: Sbox, key: seq<bv8>, s0: State) returns (s: State)
    requires |key| == 10
    ensures s == Encrypt(sbox, key, s0, 32)
  {
    hide RuleA, RuleB, KeyPointer;
    FirstPointers();
    s := s0;
    var x, kp := 1, 0;
    while x < 9
      invariant 1 <= x <= 9 && kp == KeyPointer(x) && s == Encrypt(sbox, key, s0, x - 1)
    {
      s, kp := ApplyA(sbox, key, x, s, kp);
      x := x + 1;
    }
    while x < 17
      invariant 9 <= x <= 17 && kp == KeyPointer(x) && s == Encrypt(sbox, key, s0, x - 1)
    {
      s, kp := ApplyB(sbox, key, x, s, kp);
      x := x + 1;
    }
    while x < 25
      invariant 17 <= x <= 25 && kp == KeyPointer(x) && s == Encrypt(sbox, key, s0, x - 1)
    {
      s, kp := ApplyA(sbox, key, x, s, kp);
      x := x + 1;
    }
    while x < 33
      invariant 25 <= x <= 33 && kp == KeyPointer(x) && s == Encrypt(sbox, key, s0, x - 1)
    {
      s, kp := ApplyB(sbox, key, x, s, kp);
      x := x + 1;
    }
  }

  method RunDecrypt(sbox: Sbox, key: seq<bv8>, s0: State) returns (s: State)
    requires |key| == 10
    ensures s == Decrypt(sbox, key, s0, 32)
  {
    hide RuleA1, RuleB1, KeyPointer;
    FirstPointers();
    s := s0;
    var x, kp := 32, 8;
    while x > 24
      invariant 24 <= x <= 32 && kp == KeyPointer(x + 1)
      invariant Decrypt(sbox, key, s, x) == Decrypt(sbox, key, s0, 32)
    {
      s, kp := ApplyB1(sbox, key, x, s, kp);
      x := x - 1;
    }
    while x > 16
      invariant 16 <= x <= 24 && kp == KeyPointer(x + 1)
      invariant Decrypt(sbox, key, s, x) == Decrypt(sbox, key, s0, 32)
    {
      s, kp := ApplyA1(sbox, key, x, s, kp);
      x := x - 1;
    }
    while x > 8
      invariant 8 <= x <= 16 && kp == KeyPointer(x + 1)
      invariant Decrypt(sbox, key, s, x) == Decrypt(sbox, key, s0, 32)
    {
      s, kp := ApplyB1(sbox, key, x, s, kp);
      x := x - 1;
    }
    while x > 0
      invariant 0 <= x <= 8 && kp == KeyPointer(x + 1)
      invariant Decrypt(sbox, key, s, x) == Decrypt(sbox, key, s0, 32)
    {
      s, kp := ApplyA1(sbox, key, x, s, kp);
      x := x - 1;
    }
  }

  class SymmetricKey {
    var key: seq<bv8>

    constructor ()
      ensures key == []
    {
      key := [];
    }

    method Setup(userKey: seq<bv8>, numRounds: int) returns (err: W.Status)
      modifies this
      ensures err == (if |userKey| != 10 then W.CRYPT_INVALID_KEYSIZE
                      else if numRounds != 32 && numRounds != 0 then W.CRYPT_INVALID_ROUNDS else W.CRYPT_OK)
      ensures key == if err == W.CRYPT_OK then userKey else old(key)
    {
      if |userKey| != 10 {
        return W.CRYPT_INVALID_KEYSIZE;
      }
      if numRounds != 32 && numRounds != 0 {
        return W.CRYPT_INVALID_ROUNDS;
      }
      key := userKey;
      return W.CRYPT_OK;
    }

    method EcbEncrypt(sbox: Sbox, pt: array<bv8>, ct: array<bv8>)
      requires |key| == 10 && pt.Length >= 8 && ct.Length >= 8
      modifies ct
      ensures ct[..8] == EcbEncryption(sbox, key, old(pt[..8])) && ct[8..] == old(ct[8..])
    {
      hide Encrypt, StoreBlock, W.JoinBytes;
      var s := State(W.JoinBytes(pt[0], pt[1]), W.JoinBytes(pt[2], pt[3]), W.JoinBytes(pt[4], pt[5]), W.JoinBytes(pt[6], pt[7]));
      s := RunEncrypt(sbox, key, s);
      W.Put(ct, 0, StoreBlock(s));
    }

    method EcbDecrypt(sbox: Sbox, ct: array<bv8>, pt: array<bv8>)
      requires |key| == 10 && ct.Length >= 8 && pt.Length >= 8
      modifies pt
      ensures pt[..8] == EcbDecryption(sbox, key, old(ct[..8])) && pt[8..] == old(pt[8..])
    {
      hide Decrypt, StoreBlock, W.JoinBytes;
      var s := State(W.JoinBytes(ct[0], ct[1]), W.JoinBytes(ct[2], ct[3]), W.JoinBytes(ct[4], ct[5]), W.JoinBytes(ct[6], ct[7]));
      s := RunDecrypt(sbox, key, s);
      W.Put(pt, 0, StoreBlock(s));
    }
  }
}

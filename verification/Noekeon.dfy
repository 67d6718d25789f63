/** The Noekeon block cipher (ciphers/noekeon.c). */
module Noekeon {
  import opened Bits
  import opened BitSlice
  import W = Words

  type State = Quad<bv32>

  /** RC[r]; the table has an entry for each of the 16 rounds and one for the output transformation. */
  function RoundConstant(r: nat): bv32
    requires r <= 16
  {
    [0x80, 0x1b, 0x36, 0x6c, 0xd8, 0xab, 0x4d, 0x9a, 0x2f, 0x5e, 0xbc, 0x63, 0xc6, 0x97, 0x35, 0x6a, 0xd4][r]
  }

  // ---------- THETA ----------

  function Spread(x: bv32): bv32 {
    Xor(Xor(x, Rol(x, 8)), Ror(x, 8))
  }

  lemma SpreadIsLinear(x: bv32, y: bv32)
    ensures Spread(Xor(x, y)) == Xor(Spread(x), Spread(y))
  {
    hide Xor, Rol, Ror;
    RotationsByEightAreLinear(x, y);
    XorExchanges(x, y, Rol(x, 8), Rol(y, 8));
    XorExchanges(Xor(x, Rol(x, 8)), Xor(y, Rol(y, 8)), Ror(x, 8), Ror(y, 8));
  }

  /** THETA: mix b and d with the spread of a ^ c, then a and c with the spread of b ^ d, adding
      the key words on the way. */
  function Theta(k: State, x: State): State {
    var t := Spread(Xor(x.a, x.c));
    var b := Xor(x.b, Xor(t, k.b));
    var d := Xor(x.d, Xor(t, k.d));
    var t := Spread(Xor(b, d));
    Quad(Xor(x.a, Xor(t, k.a)), b, Xor(x.c, Xor(t, k.c)), d)
  }

  /** kTHETA: the same without a key. */
  function KeyTheta(x: State): State {
    var t := Spread(Xor(x.a, x.c));
    var b := Xor(x.b, t);
    var d := Xor(x.d, t);
    var t := Spread(Xor(b, d));
    Quad(Xor(x.a, t), b, Xor(x.c, t), d)
  }

  /** The mask that reaches a word, seen from the words it comes from: adding the keys k and l to
      both of them spreads to adding the spread of k ^ l. */
  lemma SpreadOfKeyed(x: bv32, y: bv32, t: bv32, k: bv32, l: bv32)
    ensures Spread(Xor(Xor(x, Xor(t, k)), Xor(y, Xor(t, l)))) == Xor(Spread(Xor(x, y)), Spread(Xor(k, l)))
  {
    hide Xor, Spread;
    XorAssociates(x, t, k);
    XorAssociates(y, t, l);
    XorExchanges(Xor(x, t), k, Xor(y, t), l);
    XorBoth(x, y, t);
    SpreadIsLinear(Xor(x, y), Xor(k, l));
  }

  /** A word that got a mask s and a key word k loses both to the mask s ^ u of the transformed
      state and the transformed key word k ^ u. */
  lemma Unmask(x: bv32, s: bv32, u: bv32, k: bv32)
    ensures Xor(Xor(x, Xor(s, k)), Xor(Xor(s, u), Xor(k, u))) == x
  {
    hide Xor;
    XorBoth(s, k, u);
    XorTwice(x, Xor(s, k));
  }

  /** THETA under the transformed key undoes THETA under the key. */
  lemma ThetaInverse(k: State, x: State)
    ensures Theta(KeyTheta(k), Theta(k, x)) == x
  {
    hide Xor, Spread;
    var y, j := Theta(k, x), KeyTheta(k);
    var t := Spread(Xor(x.a, x.c));
    var u := Spread(Xor(k.a, k.c));
    var s := Spread(Xor(y.b, y.d));
    var v := Spread(Xor(j.b, j.d));
    SpreadOfKeyed(x.a, x.c, s, k.a, k.c);
    Unmask(x.b, t, u, k.b);
    Unmask(x.d, t, u, k.d);
    SpreadOfKeyed(x.b, x.d, t, k.b, k.d);
    XorBoth(k.b, k.d, u);
    assert s == Xor(Spread(Xor(x.b, x.d)), v);
    XorTwice(Spread(Xor(x.b, x.d)), v);
    Unmask(x.a, s, v, k.a);
    Unmask(x.c, s, v, k.c);
    assert Xor(s, v) == Spread(Xor(x.b, x.d));
  }

  // ---------- GAMMA, PI1 and PI2 ----------

  function Gamma<T>(l: Logic<T>, x: Quad<T>): Quad<T> {
    var b := l.xor(x.b, l.not(l.or(x.d, x.c)));
    var a := l.xor(x.a, l.and(x.c, b));
    var d, a := a, x.d;
    var c := l.xor(x.c, l.xor(l.xor(a, b), d));
    var b := l.xor(b, l.not(l.or(d, c)));
    Quad(l.xor(a, l.and(c, b)), b, c, d)
  }

  lemma GammaRespects<A(!new), B>(l: Logic<A>, m: Logic<B>, h: A -> B, x: Quad<A>)
    requires Respects(l, m, h)
    ensures Map(h, Gamma(l, x)) == Gamma(m, Map(h, x))
  {
  }

  lemma GammaOfBits(x: Quad<bool>)
    ensures Gamma(Bools(), Gamma(Bools(), x)) == x
  {
  }

  lemma GammaInvolution(x: State)
    ensures Gamma(Words(), Gamma(Words(), x)) == x
  {
    hide Gamma, Words, Bools, Lane;
    var y := Gamma(Words(), x);
    forall i: bv32 | i < 32
      ensures SameLane(Gamma(Words(), y), x, i)
    {
      LaneRespects(i);
      GammaRespects(Words(), Bools(), Lane(i), x);
      GammaRespects(Words(), Bools(), Lane(i), y);
      GammaOfBits(Map(Lane(i), x));
    }
    SameLanes(Gamma(Words(), y), x);
  }

  function Pi1(x: State): State {
    Quad(x.a, Rol(x.b, 1), Rol(x.c, 5), Rol(x.d, 2))
  }

  function Pi2(x: State): State {
    Quad(x.a, Ror(x.b, 1), Ror(x.c, 5), Ror(x.d, 2))
  }

  /** The nonlinear layer of a round. */
  function Nonlinear(x: State): State {
    Pi2(Gamma(Words(), Pi1(x)))
  }

  lemma NonlinearInvolution(x: State)
    ensures Nonlinear(Nonlinear(x)) == x
  {
    hide Gamma, Words, Rol, Ror;
    var y := Gamma(Words(), Pi1(x));
    RotateBack(y.b, 1);
    RotateBack(y.c, 5);
    RotateBack(y.d, 2);
    assert Pi1(Pi2(y)) == y;
    GammaInvolution(Pi1(x));
    RotateBack(x.b, 1);
    RotateBack(x.c, 5);
    RotateBack(x.d, 2);
  }

  // ---------- the cipher ----------

  function AddConstant(r: nat, x: State): State
    requires r <= 16
  {
    x.(a := Xor(x.a, RoundConstant(r)))
  }

  lemma AddConstantTwice(r: nat, x: State)
    requires r <= 16
    ensures AddConstant(r, AddConstant(r, x)) == x
  {
    hide Xor, RoundConstant;
    XorTwice(x.a, RoundConstant(r));
  }

  function EncRounds(k: State, x: State, r: nat): State
    requires r <= 16
  {
    if r == 0 then x else Nonlinear(Theta(k, AddConstant(r - 1, EncRounds(k, x, r - 1))))
  }

  function Encrypt(k: State, x: State): State {
    Theta(k, AddConstant(16, EncRounds(k, x, 16)))
  }

  /** Decryption rounds 16, 15, ..., counted by how many of them are done. */
  function DecRounds(dk: State, y: State, n: nat): State
    requires n <= 16
  {
    if n == 0 then y else Nonlinear(AddConstant(17 - n, Theta(dk, DecRounds(dk, y, n - 1))))
  }

  function Decrypt(dk: State, y: State): State {
    AddConstant(0, Theta(dk, DecRounds(dk, y, 16)))
  }

  lemma {:induction false} DecRoundsOfEncrypt(k: State, x: State, n: nat)
    requires n <= 16
    ensures DecRounds(KeyTheta(k), Encrypt(k, x), n) == Theta(k, AddConstant(16 - n, EncRounds(k, x, 16 - n)))
  {
    hide Theta, KeyTheta, Nonlinear, AddConstant;
    if n > 0 {
      DecRoundsOfEncrypt(k, x, n - 1);
      var before := EncRounds(k, x, 17 - n);
      ThetaInverse(k, AddConstant(17 - n, before));
      AddConstantTwice(17 - n, before);
      NonlinearInvolution(Theta(k, AddConstant(16 - n, EncRounds(k, x, 16 - n))));
    }
  }

  /** Decryption under the transformed key undoes encryption, for every key and block. */
  lemma DecryptOfEncrypt(k: State, x: State)
    ensures Decrypt(KeyTheta(k), Encrypt(k, x)) == x
  {
    hide Theta, KeyTheta, Nonlinear, AddConstant;
    DecRoundsOfEncrypt(k, x, 16);
    ThetaInverse(k, AddConstant(0, x));
    AddConstantTwice(0, x);
  }

  function LoadBlock(b: seq<bv8>): State
    requires |b| == 16
  {
    Quad(W.Load32H(b[0..4]), W.Load32H(b[4..8]), W.Load32H(b[8..12]), W.Load32H(b[12..16]))
  }

  function StoreBlock(x: State): (b: seq<bv8>)
    ensures |b| == 16
  {
    W.Store32H(x.a) + W.Store32H(x.b) + W.Store32H(x.c) + W.Store32H(x.d)
  }

  lemma LoadOfStore(x: State)
    ensures LoadBlock(StoreBlock(x)) == x
  {
    hide W.Load32H, W.Store32H;
    var s := StoreBlock(x);
    assert s[0..4] == W.Store32H(x.a) && s[4..8] == W.Store32H(x.b)
        && s[8..12] == W.Store32H(x.c) && s[12..16] == W.Store32H(x.d);
    W.LoadStore32H(x.a, s[0..4]);
    W.LoadStore32H(x.b, s[4..8]);
    W.LoadStore32H(x.c, s[8..12]);
    W.LoadStore32H(x.d, s[12..16]);
  }

  lemma StoreOfLoad(b: seq<bv8>)
    requires |b| == 16
    ensures StoreBlock(LoadBlock(b)) == b
  {
    hide W.Load32H, W.Store32H;
    var x := LoadBlock(b);
    W.LoadStore32H(x.a, b[0..4]);
    W.LoadStore32H(x.b, b[4..8]);
    W.LoadStore32H(x.c, b[8..12]);
    W.LoadStore32H(x.d, b[12..16]);
    assert b[0..4] + b[4..8] + b[8..12] + b[12..16] == b;
  }

  function EcbEncryption(key: seq<bv8>, pt: seq<bv8>): (ct: seq<bv8>)
    requires |key| == 16 && |pt| == 16
    ensures |ct| == 16
  {
    StoreBlock(Encrypt(LoadBlock(key), LoadBlock(pt)))
  }

  function EcbDecryption(key: seq<bv8>, ct: seq<bv8>): (pt: seq<bv8>)
    requires |key| == 16 && |ct| == 16
    ensures |pt| == 16
  {
    StoreBlock(Decrypt(KeyTheta(LoadBlock(key)), LoadBlock(ct)))
  }

  lemma DecryptAfterEncrypt(key: seq<bv8>, pt: seq<bv8>)
    requires |key| == 16 && |pt| == 16
    ensures EcbDecryption(key, EcbEncryption(key, pt)) == pt
  {
    hide Encrypt, Decrypt, KeyTheta, LoadBlock, StoreBlock;
    var k, x := LoadBlock(key), LoadBlock(pt);
    LoadOfStore(Encrypt(k, x));
    StoreOfLoad(pt);
    DecryptOfEncrypt(k, x);
  }

  // ---------- the code ----------

  class SymmetricKey {
    var K: State
    var dK: State

    ghost predicate Scheduled(key: seq<bv8>)
      reads this
    {
      |key| == 16 && K == LoadBlock(key) && dK == KeyTheta(LoadBlock(key))
    }

    method Setup(key: seq<bv8>, numRounds: int) returns (err: W.Status)
      modifies this
      ensures err == (if |key| != 16 then W.CRYPT_INVALID_KEYSIZE
                      else if numRounds != 16 && numRounds != 0 then W.CRYPT_INVALID_ROUNDS else W.CRYPT_OK)
      ensures err == W.CRYPT_OK ==> Scheduled(key)
      ensures err != W.CRYPT_OK ==> unchanged(this)
    {
      hide Xor, Rol, Ror, W.Load32H;
      if |key| != 16 {
        return W.CRYPT_INVALID_KEYSIZE;
      }
      if numRounds != 16 && numRounds != 0 {
        return W.CRYPT_INVALID_ROUNDS;
      }
      K := LoadBlock(key);
      dK := LoadBlock(key);
      var temp := Xor(dK.a, dK.c);
      temp := Xor(Xor(temp, Rol(temp, 8)), Ror(temp, 8));
      dK := dK.(b := Xor(dK.b, temp), d := Xor(dK.d, temp));
      temp := Xor(dK.b, dK.d);
      temp := Xor(Xor(temp, Rol(temp, 8)), Ror(temp, 8));
      dK := dK.(a := Xor(dK.a, temp), c := Xor(dK.c, temp));
      return W.CRYPT_OK;
    }

    method EcbEncrypt(pt: array<bv8>, ct: array<bv8>, ghost key: seq<bv8>)
      requires Scheduled(key) && pt.Length >= 16 && ct.Length >= 16
      modifies ct
      ensures ct[..16] == EcbEncryption(key, old(pt[..16])) && ct[16..] == old(ct[16..])
    {
      hide Xor, RoundConstant, W.Load32H, Theta, Nonlinear, StoreBlock;
      ghost var x := LoadBlock(pt[..16]);
      var a, b, c, d := LoadWords(pt);
      for r := 0 to 16
        invariant unchanged(ct) && Quad(a, b, c, d) == EncRounds(K, x, r)
      {
        a := Xor(a, RoundConstant(r));
        a, b, c, d := RunTheta(K, a, b, c, d);
        a, b, c, d := RunNonlinear(a, b, c, d);
      }
      a := Xor(a, RoundConstant(16));
      a, b, c, d := RunTheta(K, a, b, c, d);
      assert Quad(a, b, c, d) == Encrypt(K, x);
      W.Put(ct, 0, StoreBlock(Quad(a, b, c, d)));
    }

    method EcbDecrypt(ct: array<bv8>, pt: array<bv8>, ghost key: seq<bv8>)
      requires Scheduled(key) && pt.Length >= 16 && ct.Length >= 16
      modifies pt
      ensures pt[..16] == EcbDecryption(key, old(ct[..16])) && pt[16..] == old(pt[16..])
    {
      hide Xor, RoundConstant, W.Load32H, Theta, KeyTheta, Nonlinear, StoreBlock;
      ghost var y := LoadBlock(ct[..16]);
      var a, b, c, d := LoadWords(ct);
      for r := 16 downto 0
        invariant unchanged(pt) && Quad(a, b, c, d) == DecRounds(dK, y, 16 - r)
      {
        a, b, c, d := RunTheta(dK, a, b, c, d);
        a := Xor(a, RoundConstant(r + 1));
        a, b, c, d := RunNonlinear(a, b, c, d);
      }
      a, b, c, d := RunTheta(dK, a, b, c, d);
      a := Xor(a, RoundConstant(0));
      assert Quad(a, b, c, d) == Decrypt(dK, y);
      W.Put(pt, 0, StoreBlock(Quad(a, b, c, d)));
    }
  }

  method LoadWords(b: array<bv8>) returns (a: bv32, b1: bv32, c: bv32, d: bv32)
    requires b.Length >= 16
    ensures Quad(a, b1, c, d) == LoadBlock(b[..16])
  {
    hide W.Load32H;
    ghost var s := b[..16];
    assert s[0..4] == b[0..4] && s[4..8] == b[4..8] && s[8..12] == b[8..12] && s[12..16] == b[12..16];
    a, b1, c, d := W.Load32H(b[0..4]), W.Load32H(b[4..8]), W.Load32H(b[8..12]), W.Load32H(b[12..16]);
  }

  method RunTheta(k: State, a0: bv32, b0: bv32, c0: bv32, d0: bv32) returns (a: bv32, b: bv32, c: bv32, d: bv32)
    ensures Quad(a, b, c, d) == Theta(k, Quad(a0, b0, c0, d0))
  {
    hide Xor, Rol, Ror;
    a, b, c, d := a0, b0, c0, d0;
    var temp := Xor(a, c);
    temp := Xor(Xor(temp, Rol(temp, 8)), Ror(temp, 8));
    b := Xor(b, Xor(temp, k.b));
    d := Xor(d, Xor(temp, k.d));
    temp := Xor(b, d);
    temp := Xor(Xor(temp, Rol(temp, 8)), Ror(temp, 8));
    a := Xor(a, Xor(temp, k.a));
    c := Xor(c, Xor(temp, k.c));
  }

  /** PI1, GAMMA and PI2, one after the other. */
  method RunNonlinear(a0: bv32, b0: bv32, c0: bv32, d0: bv32) returns (a: bv32, b: bv32, c: bv32, d: bv32)
    ensures Quad(a, b, c, d) == Nonlinear(Quad(a0, b0, c0, d0))
  {
    hide Xor, And, Or, Not, Rol, Ror;
    a, b, c, d := a0, b0, c0, d0;
    b := Rol(b, 1);
    c := Rol(c, 5);
    d := Rol(d, 2);

    b := Xor(b, Not(Or(d, c)));
    a := Xor(a, And(c, b));
    var temp := d;
    d := a;
    a := temp;
    c := Xor(c, Xor(Xor(a, b), d));
    b := Xor(b, Not(Or(d, c)));
    a := Xor(a, And(c, b));

    b := Ror(b, 1);
    c := Ror(c, 5);
    d := Ror(d, 2);
  }
}

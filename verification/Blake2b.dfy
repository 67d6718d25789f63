/** BLAKE2b (hashes/blake2b.c): the one-shot hash of section 3 of RFC 7693 as functions, and the
    incremental hash state of the library as a class. */
module Blake2b {
  import opened Words
  import opened Wrappers

  // ---------- parameters (section 2 of RFC 7693) ----------

  const BLOCKBYTES: nat := 128
  const OUTBYTES: nat := 64
  const KEYBYTES: nat := 64
  const TWO64: nat := 0x1_0000_0000_0000_0000

  const IV: seq<bv64> := [
    0x6a09e667f3bcc908, 0xbb67ae8584caa73b, 0x3c6ef372fe94f82b, 0xa54ff53a5f1d36f1,
    0x510e527fade682d1, 0x9b05688c2b3e6c1f, 0x1f83d9abfb41bd6b, 0x5be0cd19137e2179]

  type index = i: nat | i < 16

  /** The twelve rows of the library's table. */
  function Sigma(r: nat): (s: seq<index>)
    requires r < 12
    ensures |s| == 16
  {
    match r
    case 0 => [0, 1, 2, 3, 4, 5, 6, 7, 8, 9, 10, 11, 12, 13, 14, 15]
    case 1 => [14, 10, 4, 8, 9, 15, 13, 6, 1, 12, 0, 2, 11, 7, 5, 3]
    case 2 => [11, 8, 12, 0, 5, 2, 15, 13, 10, 14, 3, 6, 7, 1, 9, 4]
    case 3 => [7, 9, 3, 1, 13, 12, 11, 14, 2, 6, 5, 10, 4, 0, 15, 8]
    case 4 => [9, 0, 5, 7, 2, 4, 10, 15, 14, 1, 11, 12, 6, 8, 3, 13]
    case 5 => [2, 12, 6, 10, 0, 11, 8, 3, 4, 13, 7, 5, 15, 14, 1, 9]
    case 6 => [12, 5, 1, 15, 14, 13, 4, 10, 0, 7, 6, 3, 9, 2, 8, 11]
    case 7 => [13, 11, 7, 14, 12, 1, 3, 9, 5, 0, 15, 4, 8, 6, 2, 10]
    case 8 => [6, 15, 14, 9, 11, 3, 0, 8, 12, 2, 13, 7, 1, 4, 10, 5]
    case 9 => [10, 2, 8, 4, 7, 6, 1, 5, 15, 11, 9, 14, 3, 12, 13, 0]
    case 10 => [0, 1, 2, 3, 4, 5, 6, 7, 8, 9, 10, 11, 12, 13, 14, 15]
    case _ => [14, 10, 4, 8, 9, 15, 13, 6, 1, 12, 0, 2, 11, 7, 5, 3]
  }

  // ---------- the compression function F (sections 3.1 and 3.2) ----------

  function Plus(x: bv64, y: bv64): bv64 { x + y }

  function Xor(x: bv64, y: bv64): bv64 { x ^ y }

  function Ror(x: bv64, n: bv64): bv64
    requires 0 < n < 64
  {
    (x >> n) | (x << (64 - n))
  }

  /** A 64-bit quantity kept as an integer, as a word. */
  function Word64(n: nat): bv64
    requires n < TWO64
  {
    n as bv64
  }

  /** What a step does to the four words that it is given. */
  function Mix(a: bv64, b: bv64, c: bv64, d: bv64, x: bv64, y: bv64): (bv64, bv64, bv64, bv64) {
    var a := Plus(Plus(a, b), x);
    var d := Ror(Xor(d, a), 32);
    var c := Plus(c, d);
    var b := Ror(Xor(b, c), 24);
    var a := Plus(Plus(a, b), y);
    var d := Ror(Xor(d, a), 16);
    var c := Plus(c, d);
    (a, Ror(Xor(b, c), 63), c, d)
  }

  function G(v: seq<bv64>, a: index, b: index, c: index, d: index, x: bv64, y: bv64): (r: seq<bv64>)
    requires |v| == 16
    ensures |r| == 16
  {
    hide Mix;
    var (p, q, r, s) := Mix(v[a], v[b], v[c], v[d], x, y);
    v[a := p][b := q][c := r][d := s]
  }

  function Round(v: seq<bv64>, m: seq<bv64>, s: seq<index>): (r: seq<bv64>)
    requires |v| == 16 && |m| == 16 && |s| == 16
    ensures |r| == 16
  {
    hide G;
    var v := G(v, 0, 4, 8, 12, m[s[0]], m[s[1]]);
    var v := G(v, 1, 5, 9, 13, m[s[2]], m[s[3]]);
    var v := G(v, 2, 6, 10, 14, m[s[4]], m[s[5]]);
    var v := G(v, 3, 7, 11, 15, m[s[6]], m[s[7]]);
    var v := G(v, 0, 5, 10, 15, m[s[8]], m[s[9]]);
    var v := G(v, 1, 6, 11, 12, m[s[10]], m[s[11]]);
    var v := G(v, 2, 7, 8, 13, m[s[12]], m[s[13]]);
    G(v, 3, 4, 9, 14, m[s[14]], m[s[15]])
  }

  /** n rounds; the standard takes row i mod 10 of a table of ten rows for round i. */
  function Rounds(v: seq<bv64>, m: seq<bv64>, n: nat): (r: seq<bv64>)
    requires |v| == 16 && |m| == 16 && n <= 12
    ensures |r| == 16
  {
    if n == 0 then v else Round(Rounds(v, m, n - 1), m, Sigma((n - 1) % 10))
  }

  function Message(block: seq<bv8>): (m: seq<bv64>)
    requires |block| == BLOCKBYTES
    ensures |m| == 16
  {
    seq(16, i requires 0 <= i < 16 => Load64L(block[8 * i..8 * i + 8]))
  }

  /** Word 12 to 15 of the working vector: the 128-bit byte count and the final-block flag. */
  function WorkVector(h: seq<bv64>, t: nat, last: bool): (v: seq<bv64>)
    requires |h| == 8
    ensures |v| == 16
  {
    h + [IV[0], IV[1], IV[2], IV[3],
         Xor(IV[4], Word64(t % TWO64)), Xor(IV[5], Word64(t / TWO64 % TWO64)),
         Xor(IV[6], if last then 0xFFFF_FFFF_FFFF_FFFF else 0), IV[7]]
  }

  function F(h: seq<bv64>, block: seq<bv8>, t: nat, last: bool): (r: seq<bv64>)
    requires |h| == 8 && |block| == BLOCKBYTES
    ensures |r| == 8
  {
    hide Rounds, WorkVector, Message, Xor;
    var v := Rounds(WorkVector(h, t, last), Message(block), 12);
    seq(8, i requires 0 <= i < 8 => Xor(Xor(h[i], v[i]), v[i + 8]))
  }

  // ---------- the one-shot hash (section 3.3) ----------

  function InitialState(nn: nat, kk: nat): (h: seq<bv64>)
    requires nn < 0x100 && kk < 0x100
    ensures |h| == 8
  {
    [Xor(IV[0], 0x0101_0000 ^ ((Byte(kk) as bv64) << 8) ^ (Byte(nn) as bv64))] + IV[1..]
  }

  /** The state after the first k whole blocks of the data. */
  function Absorb(h: seq<bv64>, data: seq<bv8>, k: nat): (r: seq<bv64>)
    requires |h| == 8 && BLOCKBYTES * k <= |data|
    ensures |r| == 8
  {
    if k == 0 then h
    else F(Absorb(h, data, k - 1), data[BLOCKBYTES * (k - 1)..BLOCKBYTES * k], BLOCKBYTES * k, false)
  }

  function ZeroPadded(b: seq<bv8>): (r: seq<bv8>)
    requires |b| <= BLOCKBYTES
    ensures |r| == BLOCKBYTES
  {
    b + seq(BLOCKBYTES - |b|, _ => 0)
  }

  /** How many blocks come before the last one: there is always a last one, and it is empty only
      for empty data. */
  function BlocksBeforeLast(n: nat): (k: nat)
    ensures BLOCKBYTES * k <= n <= BLOCKBYTES * k + BLOCKBYTES && (n > 0 ==> BLOCKBYTES * k < n)
  {
    if n == 0 then 0 else (n - 1) / BLOCKBYTES
  }

  function FinalState(h: seq<bv64>, data: seq<bv8>): (r: seq<bv64>)
    requires |h| == 8
    ensures |r| == 8
  {
    var k := BlocksBeforeLast(|data|);
    F(Absorb(h, data, k), ZeroPadded(data[BLOCKBYTES * k..]), |data|, true)
  }

  /** A key, if there is one, is the first block of the data. */
  function KeyedData(key: seq<bv8>, msg: seq<bv8>): seq<bv8>
    requires |key| <= KEYBYTES
  {
    if key == [] then msg else ZeroPadded(key) + msg
  }

  function OutputBytes(h: seq<bv64>): (b: seq<bv8>)
    requires |h| == 8
    ensures |b| == OUTBYTES
  {
    Store64L(h[0]) + Store64L(h[1]) + Store64L(h[2]) + Store64L(h[3])
    + Store64L(h[4]) + Store64L(h[5]) + Store64L(h[6]) + Store64L(h[7])
  }

  function Digest(nn: nat, key: seq<bv8>, msg: seq<bv8>): (d: seq<bv8>)
    requires 1 <= nn <= OUTBYTES && |key| <= KEYBYTES
    ensures |d| == nn
  {
    OutputBytes(FinalState(InitialState(nn, |key|), KeyedData(key, msg)))[..nn]
  }

  // ---------- facts about the one-shot hash ----------

  /** A digest is the bytes of the final words, low bytes first, as many as were asked for. */
  lemma DigestByte(nn: nat, key: seq<bv8>, msg: seq<bv8>, j: nat, i: nat)
    requires nn <= OUTBYTES && |key| <= KEYBYTES && j < 8 && i < 8 && 8 * j + i < nn
    ensures Digest(nn, key, msg)[8 * j + i] == Store64L(FinalState(InitialState(nn, |key|), KeyedData(key, msg))[j])[i]
  {
    hide FinalState, InitialState, KeyedData, Store64L, OutputBytes;
    OutputByte(FinalState(InitialState(nn, |key|), KeyedData(key, msg)), j, i);
  }

  lemma OutputByte(h: seq<bv64>, j: nat, i: nat)
    requires |h| == 8 && j < 8 && i < 8
    ensures OutputBytes(h)[8 * j + i] == Store64L(h[j])[i]
  {
    hide Store64L;
  }

  /** The key is the start of the first block, the rest of that block is zero, the message is behind it. */
  lemma KeyFirst(key: seq<bv8>, msg: seq<bv8>)
    requires |key| <= KEYBYTES
    ensures var data := KeyedData(key, msg);
            if key == [] then data == msg
            else
              && |data| == 128 + |msg| && data[..|key|] == key && data[128..] == msg
              && forall i :: |key| <= i < 128 ==> data[i] == 0
  {
  }

  /** All blocks but the last are compressed with the number of bytes up to their end; the last one,
      which may be shorter than a block and is filled with zeros, with the number of all bytes and the
      final flag. */
  lemma Chaining(h: seq<bv64>, data: seq<bv8>, k: nat)
    requires |h| == 8 && 128 * k <= |data|
    ensures Absorb(h, data, 0) == h
    ensures 128 * k + 128 <= |data| ==> Absorb(h, data, k + 1) == F(Absorb(h, data, k), data[128 * k..128 * k + 128], 128 * k + 128, false)
    ensures (k == 0 || 128 * k < |data|) && |data| <= 128 * k + 128 ==>
      FinalState(h, data) == F(Absorb(h, data, k), data[128 * k..] + seq(128 * k + 128 - |data|, _ => 0), |data|, true)
  {
    hide F;
    if 128 * k < |data| <= 128 * k + 128 {
      LastBlockIsShort(|data|, k, |data| - 128 * k);
    }
  }

  /** Twelve rounds over the library's twelve rows are the standard's rounds over ten. */
  lemma SigmaRepeats(r: nat)
    requires r < 12
    ensures Sigma(r) == Sigma(r % 10)
  {
  }

  /** The ten permutations of section 2.7 of RFC 7693 as numbers, a hexadecimal digit for each place. */
  function Permutation(r: nat): nat
    requires r < 10
  {
    match r
    case 0 => 0x0123_4567_89ab_cdef
    case 1 => 0xea48_9fd6_1c02_b753
    case 2 => 0xb8c0_52fd_ae36_7194
    case 3 => 0x7931_dcbe_265a_40f8
    case 4 => 0x9057_24af_e1bc_683d
    case 5 => 0x2c6a_0b83_4d75_fe19
    case 6 => 0xc51f_ed4a_0763_928b
    case 7 => 0xdb7e_c139_50f4_862a
    case 8 => 0x6fe9_b308_c2d7_14a5
    case _ => 0xa284_7615_fb9e_3cd0
  }

  function Four(s: seq<index>, i: nat): (n: nat)
    requires |s| == 16 && i <= 12
    ensures n < 0x1_0000
  {
    (s[i] as nat) * 0x1000 + (s[i + 1] as nat) * 0x100 + (s[i + 2] as nat) * 0x10 + s[i + 3] as nat
  }

  lemma SigmaIs(r: nat)
    requires r < 10
    ensures var s := Sigma(r);
            Four(s, 0) * 0x1_0000_0000_0000 + Four(s, 4) * 0x1_0000_0000 + Four(s, 8) * 0x1_0000 + Four(s, 12) == Permutation(r)
  {
  }

  lemma NextRound(v: seq<bv64>, m: seq<bv64>, r: nat)
    requires |v| == 16 && |m| == 16 && r < 12
    ensures Rounds(v, m, r + 1) == Round(Rounds(v, m, r), m, Sigma(r))
  {
    hide Round, Sigma;
    SigmaRepeats(r);
  }

  /** Absorbing whole blocks does not look beyond them. */
  lemma {:induction false} AbsorbPrefix(h: seq<bv64>, data: seq<bv8>, more: seq<bv8>, k: nat)
    requires |h| == 8 && BLOCKBYTES * k <= |data|
    ensures Absorb(h, data + more, k) == Absorb(h, data, k)
  {
    hide F;
    if k > 0 {
      AbsorbPrefix(h, data, more, k - 1);
      assert (data + more)[BLOCKBYTES * (k - 1)..BLOCKBYTES * k] == data[BLOCKBYTES * (k - 1)..BLOCKBYTES * k];
    }
  }

  /** The two counter words and a carry between them count modulo 2^128. */
  lemma CounterStep(n: nat, t0: nat, t1: nat, inc: nat)
    requires t0 == n % TWO64 && t1 == n / TWO64 % TWO64 && inc < TWO64
    ensures var u := (t0 + inc) % TWO64;
      && u == (n + inc) % TWO64
      && (if u < inc then (t1 + 1) % TWO64 else t1) == (n + inc) / TWO64 % TWO64
  {
    var q := n / TWO64;
    var s := t0 + inc;
    if s < TWO64 {
      DivMod(s, 0, s, TWO64);
      DivMod(n + inc, q, s, TWO64);
    } else {
      DivMod(s, 1, s - TWO64, TWO64);
      DivMod(n + inc, q + 1, s - TWO64, TWO64);
      NextMod(q);
    }
  }

  lemma NextMod(q: nat)
    ensures (q % TWO64 + 1) % TWO64 == (q + 1) % TWO64
  {
    var a, b := q / TWO64, q % TWO64;
    if b + 1 < TWO64 {
      DivMod(q + 1, a, b + 1, TWO64);
      DivMod(b + 1, 0, b + 1, TWO64);
    } else {
      DivMod(q + 1, a + 1, 0, TWO64);
    }
  }

  lemma ParameterBlock(outlen: nat, keylen: nat, p: seq<bv8>, h: seq<bv64>)
    requires outlen < 0x100 && keylen < 0x100 && p == [Byte(outlen), Byte(keylen), 1, 1] + seq(60, _ => 0)
    requires |h| == 8 && forall i :: 0 <= i < 8 ==> h[i] == Xor(IV[i], Load64L(p[8 * i..8 * i + 8]))
    ensures h == InitialState(outlen, keylen)
  {
    hide Xor, Byte, Load64L;
    var a, b := Byte(outlen), Byte(keylen);
    FirstParameterWord(a, b);
    assert p[0..8] == [a, b, 1, 1, 0, 0, 0, 0];
    assert h[0] == InitialState(outlen, keylen)[0];
    forall i | 1 <= i < 8
      ensures h[i] == IV[i]
    {
      assert p[8 * i..8 * i + 8] == [0, 0, 0, 0, 0, 0, 0, 0];
      XorZero(IV[i]);
    }
  }

  lemma FirstParameterWord(a: bv8, b: bv8)
    ensures Load64L([a, b, 1, 1, 0, 0, 0, 0]) == 0x0101_0000 ^ ((b as bv64) << 8) ^ (a as bv64)
    ensures Load64L([0, 0, 0, 0, 0, 0, 0, 0]) == 0
  {
  }

  lemma XorZero(x: bv64)
    ensures Xor(x, 0) == x
  {
  }

  lemma LastBlockIsShort(n: nat, k: nat, held: nat)
    requires n == BLOCKBYTES * k + held && 0 < held <= BLOCKBYTES
    ensures BlocksBeforeLast(n) == k
  {
  }

  // ---------- the incremental hash ----------

  class HashState {
    var h: seq<bv64>
    var t0: nat
    var t1: nat
    var f0: bv64
    var f1: bv64
    const buf: array<bv8>
    var curlen: nat
    var outlen: nat
    var lastNode: bool
    /** The chaining value the hash began with and every byte fed since. */
    ghost var start: seq<bv64>
    ghost var fed: seq<bv8>

    ghost predicate Shape()
      reads this
    {
      |h| == 8 && buf.Length == BLOCKBYTES && t0 < TWO64 && t1 < TWO64
    }

    /** The chaining value covers the first k blocks of the data and the counter says so. */
    ghost predicate Covers(data: seq<bv8>, k: nat)
      requires BLOCKBYTES * k <= |data|
      reads this
    {
      && Shape() && |start| == 8 && f0 == 0 && f1 == 0 && !lastNode && outlen <= OUTBYTES
      && h == Absorb(start, data, k)
      && t0 == BLOCKBYTES * k % TWO64 && t1 == BLOCKBYTES * k / TWO64 % TWO64
    }

    /** Everything fed is either compressed or waits in the buffer, which holds back the last block
        even when it is full. */
    ghost predicate Valid()
      reads this, buf
    {
      var k := BlocksBeforeLast(|fed|);
      && Covers(fed, k)
      && curlen == |fed| - BLOCKBYTES * k && buf[..curlen] == fed[BLOCKBYTES * k..]
    }

    constructor ()
      ensures fresh(buf) && buf.Length == BLOCKBYTES
    {
      buf := new bv8[BLOCKBYTES];
    }

    method Init(outlen: nat, key: Option<seq<bv8>>, keylen: nat) returns (err: Status)
      requires buf.Length == BLOCKBYTES
      requires key.Some? ==> keylen <= |key.value|
      modifies this, buf
      ensures err == if outlen == 0 || outlen > OUTBYTES || key.None? != (keylen == 0) || keylen > KEYBYTES
                     then CRYPT_INVALID_ARG else CRYPT_OK
      ensures err == CRYPT_OK ==>
        && Valid() && this.outlen == outlen && start == InitialState(outlen, keylen)
        && fed == KeyedData(if key.None? then [] else key.value[..keylen], [])
    {
      hide Absorb, InitialState, ZeroPadded;
      if outlen == 0 || outlen > OUTBYTES {
        return CRYPT_INVALID_ARG;
      }
      if (key.Some? && keylen == 0) || (keylen != 0 && key.None?) || keylen > KEYBYTES {
        return CRYPT_INVALID_ARG;
      }
      InitParam(outlen, keylen);
      if key.Some? {
        var _ := Process(ZeroPadded(key.value[..keylen]));
      }
      return CRYPT_OK;
    }

    /** Zeroes the state and xors the initialization vector with the parameter block. */
    method InitParam(outlen: nat, keylen: nat)
      requires 1 <= outlen <= OUTBYTES && keylen <= KEYBYTES && buf.Length == BLOCKBYTES
      modifies this, buf
      ensures Valid() && this.outlen == outlen && start == InitialState(outlen, keylen) && fed == []
    {
      hide Load64L, Byte, Value8, Xor, InitialState;
      var p := [Byte(outlen), Byte(keylen), 1, 1] + seq(60, _ => 0);
      t0, t1, f0, f1, curlen, lastNode := 0, 0, 0, 0, 0, false;
      Put(buf, 0, seq(BLOCKBYTES, _ => 0));
      h := IV;
      XorParameters(p);
      ParameterBlock(outlen, keylen, p, h);
      this.outlen := Value8(p[0]);
      ValueOfByte(outlen);
      start, fed := h, [];
      assert buf[..0] == [];
    }

    method XorParameters(p: seq<bv8>)
      requires |h| == 8 && |p| == 64
      modifies this`h
      ensures |h| == 8 && forall i :: 0 <= i < 8 ==> h[i] == Xor(old(h)[i], Load64L(p[8 * i..8 * i + 8]))
    {
      hide Xor, Load64L;
      for i := 0 to 8
        invariant |h| == 8
        invariant forall j :: 0 <= j < i ==> h[j] == Xor(old(h)[j], Load64L(p[8 * j..8 * j + 8]))
        invariant forall j :: i <= j < 8 ==> h[j] == old(h)[j]
      {
        h := h[i := Xor(h[i], Load64L(p[i * 8..i * 8 + 8]))];
      }
    }

    /** Adds to the low word and carries into the high one; n is the count they hold. */
    method IncrementCounter(inc: nat, ghost n: nat)
      requires inc < TWO64 && t0 == n % TWO64 && t1 == n / TWO64 % TWO64
      modifies this`t0, this`t1
      ensures t0 == (n + inc) % TWO64 && t1 == (n + inc) / TWO64 % TWO64
    {
      CounterStep(n, t0, t1, inc);
      t0 := (t0 + inc) % TWO64;
      if t0 < inc {
        t1 := (t1 + 1) % TWO64;
      }
    }

    /** The compression of one block under the counter and the flags of the state. */
    method Compress(block: seq<bv8>, ghost t: nat, ghost last: bool)
      requires |h| == 8 && |block| == BLOCKBYTES && t0 == t % TWO64 && t1 == t / TWO64 % TWO64
      requires f0 == (if last then 0xFFFF_FFFF_FFFF_FFFF else 0) && f1 == 0
      modifies this`h
      ensures h == F(old(h), block, t, last)
    {
      hide Load64L, Xor, Word64, Round, Sigma;
      var m := Message(block);
      var v := h + [IV[0], IV[1], IV[2], IV[3],
                    Xor(IV[4], Word64(t0)), Xor(IV[5], Word64(t1)), Xor(IV[6], f0), Xor(IV[7], f1)];
      XorZero(IV[7]);
      ghost var w := WorkVector(h, t, last);
      assert v == w;
      for r := 0 to 12
        invariant |v| == 16 && h == old(h)
        invariant v == Rounds(w, m, r)
      {
        NextRound(w, m, r);
        v := Round(v, m, Sigma(r));
      }
      for i := 0 to 8
        invariant |h| == 8
        invariant forall j :: 0 <= j < i ==> h[j] == Xor(Xor(old(h)[j], v[j]), v[j + 8])
        invariant forall j :: i <= j < 8 ==> h[j] == old(h)[j]
      {
        h := h[i := Xor(Xor(h[i], v[i]), v[i + 8])];
      }
    }

    /** One more block of the data. */
    method AbsorbBlock(block: seq<bv8>, ghost data: seq<bv8>, ghost k: nat)
      requires BLOCKBYTES * (k + 1) <= |data| && Covers(data, k)
      requires block == data[BLOCKBYTES * k..BLOCKBYTES * (k + 1)]
      modifies this`h, this`t0, this`t1
      ensures Covers(data, k + 1)
    {
      hide F;
      IncrementCounter(BLOCKBYTES, BLOCKBYTES * k);
      Compress(block, BLOCKBYTES * (k + 1), false);
    }

    /** Feeds bytes. A full buffer is compressed only when more data is known to follow it. */
    method Process(input: seq<bv8>) returns (err: Status)
      requires curlen <= BLOCKBYTES ==> Valid()
      modifies this, buf
      ensures err == if old(curlen) > BLOCKBYTES then CRYPT_INVALID_ARG else CRYPT_OK
      ensures err != CRYPT_OK ==> unchanged(this) && unchanged(buf)
      ensures err == CRYPT_OK ==> Valid() && fed == old(fed) + input && start == old(start) && outlen == old(outlen)
    {
      hide Absorb;
      if curlen > BLOCKBYTES {
        return CRYPT_INVALID_ARG;
      }
      if |input| > 0 {
        ghost var data, k := fed + input, BlocksBeforeLast(|fed|);
        AbsorbPrefix(start, fed, input, k);
        var pos := 0;
        assert buf[..curlen] + input[0..] == data[BLOCKBYTES * k..];
        if |input| > BLOCKBYTES - curlen {
          pos, k := Overflow(input, data, k);
        }
        Buffer(input[pos..], data, k);
      } else {
        assert fed + input == fed;
      }
      return CRYPT_OK;
    }

    /** Fills the buffer, compresses it and goes on with the input behind it. */
    method Overflow(input: seq<bv8>, ghost data: seq<bv8>, ghost k0: nat) returns (pos: nat, ghost k: nat)
      requires curlen <= BLOCKBYTES < curlen + |input| && BLOCKBYTES * k0 + curlen + |input| == |data|
      requires Covers(data, k0) && buf[..curlen] + input == data[BLOCKBYTES * k0..]
      modifies this`h, this`t0, this`t1, this`curlen, buf
      ensures curlen == 0 && pos < |input| <= pos + BLOCKBYTES && BLOCKBYTES * k + |input| - pos == |data|
      ensures input[pos..] == data[BLOCKBYTES * k..] && Covers(data, k)
    {
      hide Absorb;
      var left := curlen;
      var fill := BLOCKBYTES - left;
      curlen := 0;
      ghost var waiting, tail := buf[..left], data[BLOCKBYTES * k0..];
      FillBuffer(left, input[..fill]);
      assert buf[..] == waiting + input[..fill] == tail[..BLOCKBYTES] == data[BLOCKBYTES * k0..BLOCKBYTES * (k0 + 1)];
      assert input[fill..] == tail[BLOCKBYTES..] == data[BLOCKBYTES * (k0 + 1)..];
      AbsorbBlock(buf[..], data, k0);
      pos, k := AbsorbWhole(input, fill, data, k0 + 1);
    }

    /** Compresses straight from the input while more than a block of it is left. */
    method AbsorbWhole(input: seq<bv8>, from: nat, ghost data: seq<bv8>, ghost k0: nat) returns (pos: nat, ghost k: nat)
      requires from < |input| && BLOCKBYTES * k0 + |input| - from == |data|
      requires input[from..] == data[BLOCKBYTES * k0..] && Covers(data, k0)
      modifies this`h, this`t0, this`t1
      ensures pos < |input| <= pos + BLOCKBYTES && BLOCKBYTES * k + |input| - pos == |data|
      ensures input[pos..] == data[BLOCKBYTES * k..] && Covers(data, k)
    {
      hide Absorb;
      pos, k := from, k0;
      var inlen := |input| - from;
      while inlen > BLOCKBYTES
        invariant 0 < inlen && pos + inlen == |input| && BLOCKBYTES * k + inlen == |data|
        invariant input[pos..] == data[BLOCKBYTES * k..] && Covers(data, k)
      {
        assert input[pos..][..BLOCKBYTES] == input[pos..pos + BLOCKBYTES];
        assert data[BLOCKBYTES * k..][..BLOCKBYTES] == data[BLOCKBYTES * k..BLOCKBYTES * (k + 1)];
        AbsorbBlock(input[pos..pos + BLOCKBYTES], data, k);
        assert input[pos..][BLOCKBYTES..] == input[pos + BLOCKBYTES..];
        assert data[BLOCKBYTES * k..][BLOCKBYTES..] == data[BLOCKBYTES * (k + 1)..];
        k := k + 1;
        pos, inlen := pos + BLOCKBYTES, inlen - BLOCKBYTES;
      }
    }

    /** Keeps the rest of the input behind the bytes that wait already. */
    method Buffer(rest: seq<bv8>, ghost data: seq<bv8>, ghost k: nat)
      requires buf.Length == BLOCKBYTES && 0 < |rest| && curlen + |rest| <= BLOCKBYTES
      requires BLOCKBYTES * k + curlen + |rest| == |data|
      requires buf[..curlen] + rest == data[BLOCKBYTES * k..] && Covers(data, k)
      modifies this`curlen, this`fed, buf
      ensures Valid() && fed == data
    {
      hide Absorb;
      Put(buf, curlen, rest);
      curlen := curlen + |rest|;
      fed := data;
      LastBlockIsShort(|data|, k, curlen);
    }

    /** Writes the missing bytes behind the ones that wait; a full buffer is left as it is. */
    method FillBuffer(left: nat, bytes: seq<bv8>)
      requires left + |bytes| == BLOCKBYTES == buf.Length
      modifies buf
      ensures buf[..] == old(buf[..left]) + bytes
    {
      Put(buf, left % BLOCKBYTES, bytes);
      assert left < BLOCKBYTES ==> left % BLOCKBYTES == left;
      assert left == BLOCKBYTES ==> bytes == [];
    }

    method SetLastBlock()
      modifies this`f0, this`f1
      ensures f0 == 0xFFFF_FFFF_FFFF_FFFF && f1 == if lastNode then 0xFFFF_FFFF_FFFF_FFFF else old(f1)
    {
      if lastNode {
        f1 := 0xFFFF_FFFF_FFFF_FFFF;
      }
      f0 := 0xFFFF_FFFF_FFFF_FFFF;
    }

    /** Pads and compresses the last block, writes the digest and clears the state. What is left is a
        state like that of an empty message, with a digest of no bytes. */
    method Done(out: array<bv8>) returns (err: Status)
      requires f0 == 0 ==> Valid() && outlen <= out.Length && out != buf
      modifies this, buf, out
      ensures err == if old(f0) != 0 then CRYPT_ERROR else CRYPT_OK
      ensures err != CRYPT_OK ==> unchanged(this) && unchanged(buf) && unchanged(out)
      ensures err == CRYPT_OK ==>
        var n := old(outlen);
        out[..n] == OutputBytes(FinalState(old(start), old(fed)))[..n] && out[n..] == old(out[n..])
      ensures err == CRYPT_OK ==> Valid() && start == [0, 0, 0, 0, 0, 0, 0, 0] && fed == [] && outlen == 0
    {
      hide Absorb, F, OutputBytes;
      if f0 != 0 {
        return CRYPT_ERROR;
      }
      ghost var k := BlocksBeforeLast(|fed|);
      IncrementCounter(curlen, BLOCKBYTES * k);
      SetLastBlock();
      Put(buf, curlen, seq(BLOCKBYTES - curlen, _ => 0));
      assert buf[..] == ZeroPadded(fed[BLOCKBYTES * k..]);
      Compress(buf[..], |fed|, true);
      assert h == FinalState(start, fed);
      var buffer := OutputBytes(h);
      Put(out, 0, buffer[..outlen]);
      Clear();
      return CRYPT_OK;
    }

    method Clear()
      requires buf.Length == BLOCKBYTES
      modifies this, buf
      ensures Valid() && start == [0, 0, 0, 0, 0, 0, 0, 0] && fed == [] && outlen == 0
    {
      h := [0, 0, 0, 0, 0, 0, 0, 0];
      t0, t1, f0, f1, curlen, outlen, lastNode := 0, 0, 0, 0, 0, 0, false;
      Put(buf, 0, seq(BLOCKBYTES, _ => 0));
      start, fed := h, [];
      assert buf[..0] == [];
    }
  }

  /** The guard of a second call is never taken: the first has cleared the flag with the rest of the
      state, so that the second succeeds as well and writes nothing. */
  method DoneTwice(md: HashState, out: array<bv8>, again: array<bv8>) returns (first: Status, second: Status)
    requires md.Valid() && md.outlen <= out.Length && out != md.buf && again != md.buf && again != out
    modifies md, md.buf, out, again
    ensures first == CRYPT_OK && out[..old(md.outlen)] == OutputBytes(FinalState(old(md.start), old(md.fed)))[..old(md.outlen)]
    ensures second == CRYPT_OK && again[..] == old(again[..])
  {
    hide FinalState, OutputBytes;
    first := md.Done(out);
    second := md.Done(again);
    assert again[0..] == again[..];
  }

  // ---------- every way of cutting a message ----------

  /** Initialize, feed the chunks one after the other, finish: the result is the one-shot digest of
      their concatenation, keyed or not. */
  method HashChunks(outlen: nat, key: Option<seq<bv8>>, chunks: seq<seq<bv8>>, out: array<bv8>)
    requires 1 <= outlen <= OUTBYTES && outlen <= out.Length && (key.Some? ==> 1 <= |key.value| <= KEYBYTES)
    modifies out
    ensures out[..outlen] == Digest(outlen, KeyBytes(key), Concat(chunks))
    ensures out[outlen..] == old(out[outlen..])
  {
    hide FinalState, OutputBytes, InitialState, KeyedData;
    var md := new HashState();
    ghost var bytes := KeyBytes(key);
    var err := md.Init(outlen, key, |KeyBytes(key)|);
    assert key.Some? ==> key.value[..|key.value|] == key.value;
    FeedAll(md, chunks, bytes);
    err := md.Done(out);
  }

  function KeyBytes(key: Option<seq<bv8>>): seq<bv8> {
    if key.None? then [] else key.value
  }

  method FeedAll(md: HashState, chunks: seq<seq<bv8>>, ghost key: seq<bv8>)
    requires md.Valid() && |key| <= KEYBYTES && md.fed == KeyedData(key, [])
    modifies md, md.buf
    ensures md.Valid() && md.fed == KeyedData(key, Concat(chunks))
    ensures md.start == old(md.start) && md.outlen == old(md.outlen)
  {
    hide KeyedData, Absorb;
    for i := 0 to |chunks|
      invariant md.Valid() && md.fed == KeyedData(key, Concat(chunks[..i]))
      invariant md.start == old(md.start) && md.outlen == old(md.outlen)
    {
      assert chunks[..i + 1][..i] == chunks[..i];
      KeyedDataAppends(key, Concat(chunks[..i]), chunks[i]);
      var _ := md.Process(chunks[i]);
    }
    assert chunks[..|chunks|] == chunks;
  }

  lemma KeyedDataAppends(key: seq<bv8>, a: seq<bv8>, b: seq<bv8>)
    requires |key| <= KEYBYTES
    ensures KeyedData(key, a) + b == KeyedData(key, a + b)
  {
    assert ZeroPadded(key) + a + b == ZeroPadded(key) + (a + b);
  }
}

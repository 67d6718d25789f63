/** Byte order, and the part of bit-vector arithmetic that crosses to integers. */
module Words {

  /** The library's return codes that the modelled functions produce. */
  datatype Status = CRYPT_OK | CRYPT_ERROR | CRYPT_INVALID_KEYSIZE | CRYPT_INVALID_ROUNDS | CRYPT_INVALID_ARG

  // ---------- bytes to words and back ----------

  function Load16H(b: seq<bv8>): bv16
    requires |b| == 2
  {
    ((b[0] as bv16) << 8) | (b[1] as bv16)
  }

  function Store16H(x: bv16): (b: seq<bv8>)
    ensures |b| == 2
  {
    [((x >> 8) & 0xFF) as bv8, (x & 0xFF) as bv8]
  }

  lemma LoadStore16H(x: bv16, b: seq<bv8>)
    requires |b| == 2
    ensures Load16H(Store16H(x)) == x
    ensures Store16H(Load16H(b)) == b
  {
  }

  /** The first byte is the high one. */
  lemma ValueOf16H(b: seq<bv8>, x: bv16)
    requires |b| == 2
    ensures Value16(Load16H(b)) == Value8(b[0]) * 0x100 + Value8(b[1])
    ensures Value16(x) == Value8(Store16H(x)[0]) * 0x100 + Value8(Store16H(x)[1])
  {
    hide Value16, Value8;
    ValueOfBytes(b[0], b[1]);
    var s := Store16H(x);
    ValueOfBytes(s[0], s[1]);
    assert JoinBytes(s[0], s[1]) == x;
  }

  function Load32H(b: seq<bv8>): bv32
    requires |b| == 4
  {
    ((b[0] as bv32) << 24) | ((b[1] as bv32) << 16) | ((b[2] as bv32) << 8) | (b[3] as bv32)
  }

  function Store32H(x: bv32): (b: seq<bv8>)
    ensures |b| == 4
  {
    [((x >> 24) & 0xFF) as bv8, ((x >> 16) & 0xFF) as bv8, ((x >> 8) & 0xFF) as bv8, (x & 0xFF) as bv8]
  }

  lemma LoadStore32H(x: bv32, b: seq<bv8>)
    requires |b| == 4
    ensures Load32H(Store32H(x)) == x
    ensures Store32H(Load32H(b)) == b
  {
  }

  /** The first byte is the highest one. */
  lemma ValueOf32H(b: seq<bv8>)
    requires |b| == 4
    ensures Load32H(b) == (b[0] as bv32) * 0x100_0000 + (b[1] as bv32) * 0x1_0000 + (b[2] as bv32) * 0x100 + (b[3] as bv32)
  {
  }

  /** Two words stored one behind the other are loaded again, and two that were loaded stored. */
  lemma LoadStorePair(x: bv32, y: bv32)
    ensures var b := Store32H(x) + Store32H(y);
            Load32H(b[0..4]) == x && Load32H(b[4..8]) == y
  {
    hide Load32H, Store32H;
    var p, q := Store32H(x), Store32H(y);
    assert (p + q)[0..4] == p && (p + q)[4..8] == q;
    LoadStore32H(x, p);
    LoadStore32H(y, q);
  }

  lemma StoreLoadPair(b: seq<bv8>)
    requires |b| == 8
    ensures Store32H(Load32H(b[0..4])) + Store32H(Load32H(b[4..8])) == b
  {
    hide Load32H, Store32H;
    LoadStore32H(0, b[0..4]);
    LoadStore32H(0, b[4..8]);
    assert b[0..4] + b[4..8] == b;
  }

  function Load32L(b: seq<bv8>): bv32
    requires |b| == 4
  {
    Load32H([b[3], b[2], b[1], b[0]])
  }

  function Store32L(x: bv32): (b: seq<bv8>)
    ensures |b| == 4
  {
    var h := Store32H(x);
    [h[3], h[2], h[1], h[0]]
  }

  lemma LoadStore32L(x: bv32, b: seq<bv8>)
    requires |b| == 4
    ensures Load32L(Store32L(x)) == x
    ensures Store32L(Load32L(b)) == b
  {
    hide Load32H, Store32H;
    LoadStore32H(x, [b[3], b[2], b[1], b[0]]);
    var h := Store32H(x);
    assert [h[0], h[1], h[2], h[3]] == h;
  }

  /** The first byte is the lowest one. */
  lemma ValueOf32L(b: seq<bv8>)
    requires |b| == 4
    ensures Load32L(b) == (b[0] as bv32) + (b[1] as bv32) * 0x100 + (b[2] as bv32) * 0x1_0000 + (b[3] as bv32) * 0x100_0000
  {
    hide Load32H;
    ValueOf32H([b[3], b[2], b[1], b[0]]);
  }

  function Load64L(b: seq<bv8>): bv64
    requires |b| == 8
  {
    ((b[7] as bv64) << 56) | ((b[6] as bv64) << 48) | ((b[5] as bv64) << 40) | ((b[4] as bv64) << 32)
    | ((b[3] as bv64) << 24) | ((b[2] as bv64) << 16) | ((b[1] as bv64) << 8) | (b[0] as bv64)
  }

  function Store64L(x: bv64): (b: seq<bv8>)
    ensures |b| == 8
  {
    [(x & 0xFF) as bv8, ((x >> 8) & 0xFF) as bv8, ((x >> 16) & 0xFF) as bv8, ((x >> 24) & 0xFF) as bv8,
     ((x >> 32) & 0xFF) as bv8, ((x >> 40) & 0xFF) as bv8, ((x >> 48) & 0xFF) as bv8, ((x >> 56) & 0xFF) as bv8]
  }

  lemma LoadStore64L(x: bv64, b: seq<bv8>)
    requires |b| == 8
    ensures Load64L(Store64L(x)) == x
    ensures Store64L(Load64L(b)) == b
  {
  }

  /** The first byte is the lowest one. */
  lemma ValueOf64L(b: seq<bv8>)
    requires |b| == 8
    ensures Load64L(b)
         == (b[0] as bv64) + (b[1] as bv64) * 0x100 + (b[2] as bv64) * 0x1_0000 + (b[3] as bv64) * 0x100_0000
            + (b[4] as bv64) * 0x1_0000_0000 + (b[5] as bv64) * 0x100_0000_0000 + (b[6] as bv64) * 0x1_0000_0000_0000
            + (b[7] as bv64) * 0x100_0000_0000_0000
  {
  }

  lemma BytesOf64L(x: bv64)
    ensures var b := Store64L(x);
            && b[0] == (x & 0xFF) as bv8 && b[1] == ((x >> 8) & 0xFF) as bv8
            && b[2] == ((x >> 16) & 0xFF) as bv8 && b[3] == ((x >> 24) & 0xFF) as bv8
            && b[4] == ((x >> 32) & 0xFF) as bv8 && b[5] == ((x >> 40) & 0xFF) as bv8
            && b[6] == ((x >> 48) & 0xFF) as bv8 && b[7] == ((x >> 56) & 0xFF) as bv8
  {
  }

  /** Copies bytes into a buffer and leaves the rest of it alone. */
  method Put(a: array<bv8>, at: nat, b: seq<bv8>)
    requires at + |b| <= a.Length
    modifies a
    ensures a[..at] == old(a[..at])
    ensures a[at..at + |b|] == b
    ensures a[at + |b|..] == old(a[at + |b|..])
  {
    for i := 0 to |b|
      invariant a[..at] == old(a[..at])
      invariant a[at..at + i] == b[..i]
      invariant a[at + i..] == old(a[at + i..])
    {
      a[at + i] := b[i];
    }
  }

  // ---------- 16-bit words as integers ----------
  // Conversions between integers and bit vectors are cheap to verify only when they are narrow,
  // so a word is put together from bytes and a byte from two digits.

  function Value4(d: bv4): (n: nat)
    ensures n < 0x10
  {
    d as nat
  }

  function Value8(b: bv8): (n: nat)
    ensures n < 0x100
  {
    b as nat
  }

  function Value16(x: bv16): (n: nat)
    ensures n < 0x1_0000
  {
    x as nat
  }

  function Digit(n: nat): bv4
    requires n < 0x10
  {
    n as bv4
  }

  function Byte(n: nat): bv8
    requires n < 0x100
  {
    JoinDigits(Digit(n / 0x10), Digit(n % 0x10))
  }

  /** The 16-bit word with value n. */
  function Word16(n: nat): bv16
    requires n < 0x1_0000
  {
    JoinBytes(Byte(n / 0x100), Byte(n % 0x100))
  }

  function JoinDigits(h: bv4, l: bv4): bv8 {
    ((h as bv8) << 4) | (l as bv8)
  }

  function JoinBytes(h: bv8, l: bv8): bv16 {
    ((h as bv16) << 8) | (l as bv16)
  }

  lemma ValueOfDigit(n: nat)
    requires n < 0x10
    ensures Value4(Digit(n)) == n
  {
  }

  lemma DigitOfValue(d: bv4)
    ensures Digit(Value4(d)) == d
  {
  }

  lemma ValueOfDigits(h: bv4, l: bv4)
    ensures Value8(JoinDigits(h, l)) == Value4(h) * 0x10 + Value4(l)
  {
  }

  lemma ValueOfBytes(h: bv8, l: bv8)
    ensures Value16(JoinBytes(h, l)) == Value8(h) * 0x100 + Value8(l)
  {
  }

  lemma SplitByte(b: bv8) returns (h: bv4, l: bv4)
    ensures b == JoinDigits(h, l)
  {
    h, l := ((b >> 4) & 15) as bv4, (b & 15) as bv4;
  }

  lemma SplitWord(x: bv16) returns (h: bv8, l: bv8)
    ensures x == JoinBytes(h, l)
  {
    h, l := ((x >> 8) & 0xFF) as bv8, (x & 0xFF) as bv8;
  }

  lemma DivMod(n: nat, a: nat, b: nat, m: nat)
    requires b < m && n == a * m + b
    ensures n / m == a && n % m == b
  {
    var k := n / m - a;
    assert m * k == b - n % m;
    assert k >= 1 ==> m * k >= m;
    assert k <= -1 ==> m * k + m <= 0;
  }

  lemma ValueOfByte(n: nat)
    requires n < 0x100
    ensures Value8(Byte(n)) == n
  {
    hide Value8, Value4, Digit, JoinDigits;
    ValueOfDigit(n / 0x10);
    ValueOfDigit(n % 0x10);
    ValueOfDigits(Digit(n / 0x10), Digit(n % 0x10));
  }

  lemma ByteOfValue(b: bv8)
    ensures Byte(Value8(b)) == b
  {
    hide Value8, Value4, Digit, JoinDigits;
    var h, l := SplitByte(b);
    ValueOfDigits(h, l);
    DivMod(Value8(b), Value4(h), Value4(l), 0x10);
    DigitOfValue(h);
    DigitOfValue(l);
  }

  lemma ValueOfWord16(n: nat)
    requires n < 0x1_0000
    ensures Value16(Word16(n)) == n
  {
    hide Value16, Value8, Byte, JoinBytes;
    ValueOfByte(n / 0x100);
    ValueOfByte(n % 0x100);
    ValueOfBytes(Byte(n / 0x100), Byte(n % 0x100));
  }

  lemma Word16OfValue(x: bv16)
    ensures Word16(Value16(x)) == x
  {
    hide Value16, Value8, Byte, JoinBytes;
    var h, l := SplitWord(x);
    ValueOfBytes(h, l);
    DivMod(Value16(x), Value8(h), Value8(l), 0x100);
    ByteOfValue(h);
    ByteOfValue(l);
  }
}

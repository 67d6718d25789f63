/** The first vector of the self-test of idea.c: the key 80 00 .. 00 and a block of zeros. */
module IdeaExample {
  import opened Words
  import opened PrimeField
  import opened Idea

  const KEY: seq<bv8> := [0x80, 0, 0, 0, 0, 0, 0, 0, 0, 0, 0, 0, 0, 0, 0, 0]

  /** The words of its schedule. */
  function KeyWord(i: nat): bv16 {
    match i
    case 0 => 0x8000
    case 14 => 0x0100
    case 20 => 0x0002
    case 27 => 0x0400
    case 33 => 0x0008
    case 40 => 0x1000
    case _ => 0
  }

  lemma NextWord(g: nat, r: nat)
    requires 1 <= g && r < 8 && 8 * g + r < 52
    ensures Splice(KeyWord(8 * g - 8 + (r + 1) % 8), KeyWord(8 * g - 8 + (r + 2) % 8)) == KeyWord(8 * g + r)
  {
    SplicedWords();
    hide Splice;
    var p, q := 8 * g - 8 + (r + 1) % 8, 8 * g - 8 + (r + 2) % 8;
    if r < 6 {
      assert p == 8 * g - 7 + r && q == 8 * g - 6 + r;
    } else if r == 6 {
      assert p == 8 * g - 1 && q == 8 * g - 8;
    } else {
      assert p == 8 * g - 8 && q == 8 * g - 7;
    }
  }

  lemma SplicedWords()
    ensures Splice(0x8000, 0) == Splice(0x0100, 0) == Splice(0x0400, 0) == Splice(0, 2) == Splice(0, 8) == Splice(0, 0) == 0
    ensures Splice(0, 0x8000) == 0x0100 && Splice(0, 0x0100) == 2 && Splice(0, 0x0400) == 8
    ensures Splice(2, 0) == 0x0400 && Splice(8, 0) == 0x1000
  {
  }

  lemma {:induction false} ScheduleIs(i: nat)
    requires i < 52
    ensures EncKeyWord(KEY, i) == KeyWord(i)
  {
    hide Splice, KeyWord, EncKeyWord;
    if i < 8 {
      FirstWords(i);
    } else {
      var g, r := i / 8, i % 8;
      EncKeyWordIs(KEY, i, 8 * g - 8);
      assert (i + 1) % 8 == (r + 1) % 8 && (i + 2) % 8 == (r + 2) % 8;
      ScheduleIs(8 * g - 8 + (r + 1) % 8);
      ScheduleIs(8 * g - 8 + (r + 2) % 8);
      NextWord(g, r);
    }
  }

  lemma FirstWords(i: nat)
    requires i < 8
    ensures EncKeyWord(KEY, i) == KeyWord(i)
  {
    hide Splice, Load16H;
    assert KEY[2 * i..2 * i + 2] == if i == 0 then [0x80, 0] else [0, 0];
    LoadedWords();
  }

  lemma LoadedWords()
    ensures Load16H([0x80, 0]) == 0x8000 && Load16H([0, 0]) == 0
  {
  }

  // ---------- arithmetic on values ----------

  function ProductValue(m: nat, n: nat): nat {
    (if m == 0 then 65536 else m) * (if n == 0 then 65536 else n) % 65537 % 65536
  }

  predicate IsProduct(a: bv16, b: bv16, r: bv16, m: nat, n: nat) {
    Value16(a) == m && Value16(b) == n && Value16(r) == ProductValue(m, n)
  }

  predicate IsSum(a: bv16, b: bv16, r: bv16) {
    Value16(a) + Value16(b) == Value16(r) || Value16(a) + Value16(b) == Value16(r) + 65536
  }

  lemma ProductIs(a: bv16, b: bv16, r: bv16, m: nat, n: nat)
    requires IsProduct(a, b, r, m, n)
    ensures GroupTimes(a, b) == r
  {
    hide Value16, Word16;
    Word16OfValue(r);
  }

  lemma SumIs(a: bv16, b: bv16, r: bv16)
    requires IsSum(a, b, r)
    ensures Add(a, b) == r
  {
    hide Value16, Word16;
    Word16OfValue(r);
  }

  /** The first layer of round i, with the values that are multiplied. */
  predicate Keyed(i: nat, b: Block, a: Block, m0: nat, n0: nat, m3: nat, n3: nat)
    requires i < 8
  {
    && IsProduct(b.x0, KeyWord(6 * i), a.x0, m0, n0) && IsSum(b.x1, KeyWord(6 * i + 1), a.x1)
    && IsSum(b.x2, KeyWord(6 * i + 2), a.x2) && IsProduct(b.x3, KeyWord(6 * i + 3), a.x3, m3, n3)
  }

  /** The first multiplication of the second layer. */
  predicate Mixed(i: nat, a: Block, t0: bv16, u: bv16, m4: nat, n4: nat)
    requires i < 8
  {
    IsProduct(Xor(a.x0, a.x2), KeyWord(6 * i + 4), t0, m4, n4) && IsSum(t0, Xor(a.x1, a.x3), u)
  }

  /** The second one, and the masks that come of the two. */
  predicate Masked(i: nat, a: Block, t0: bv16, u: bv16, t1: bv16, t2: bv16, c: Block, m5: nat, n5: nat)
    requires i < 8
  {
    && IsProduct(u, KeyWord(6 * i + 5), t1, m5, n5) && IsSum(t0, t1, t2)
    && c == Block(Xor(a.x0, t1), Xor(a.x2, t1), Xor(a.x1, t2), Xor(a.x3, t2))
  }

  lemma NextRound(k: seq<bv16>, i: nat, b: Block, a: Block, t0: bv16, u: bv16, t1: bv16, t2: bv16, c: Block, m0: nat, n0: nat, m3: nat, n3: nat,
                  m4: nat, n4: nat, m5: nat, n5: nat)
    requires i < 8 && k == EncKey(KEY) && Rounds(k, Block(0, 0, 0, 0), i) == b
    requires Keyed(i, b, a, m0, n0, m3, n3) && Mixed(i, a, t0, u, m4, n4) && Masked(i, a, t0, u, t1, t2, c, m5, n5)
    ensures Rounds(k, Block(0, 0, 0, 0), i + 1) == c
  {
    hide Rounds, GroupTimes, Add, Xor, KeyLayer, Mix, IsProduct, IsSum, KeyWord, EncKeyWord;
    RoundSpelled(k, Block(0, 0, 0, 0), i);
    KeyLayerIs(KeyWord(6 * i), KeyWord(6 * i + 1), KeyWord(6 * i + 2), KeyWord(6 * i + 3), b);
    MixIs(KeyWord(6 * i + 4), KeyWord(6 * i + 5), a);
    XorCommutes(t2, a.x1);
    RowIs(k, i);
    ProductIs(b.x0, KeyWord(6 * i), a.x0, m0, n0);
    SumIs(b.x1, KeyWord(6 * i + 1), a.x1);
    SumIs(b.x2, KeyWord(6 * i + 2), a.x2);
    ProductIs(b.x3, KeyWord(6 * i + 3), a.x3, m3, n3);
    ProductIs(Xor(a.x0, a.x2), KeyWord(6 * i + 4), t0, m4, n4);
    SumIs(t0, Xor(a.x1, a.x3), u);
    ProductIs(u, KeyWord(6 * i + 5), t1, m5, n5);
    SumIs(t0, t1, t2);
  }

  lemma RowIs(k: seq<bv16>, i: nat)
    requires i < 8 && k == EncKey(KEY)
    ensures k[6 * i] == KeyWord(6 * i) && k[6 * i + 1] == KeyWord(6 * i + 1) && k[6 * i + 2] == KeyWord(6 * i + 2)
    ensures k[6 * i + 3] == KeyWord(6 * i + 3) && k[6 * i + 4] == KeyWord(6 * i + 4) && k[6 * i + 5] == KeyWord(6 * i + 5)
  {
    hide KeyWord, EncKeyWord;
    ScheduleIs(6 * i);
    ScheduleIs(6 * i + 1);
    ScheduleIs(6 * i + 2);
    ScheduleIs(6 * i + 3);
    ScheduleIs(6 * i + 4);
    ScheduleIs(6 * i + 5);
  }

  // ---------- the rounds ----------

  lemma Keyed0()
    ensures Keyed(0, Block(0x0000, 0x0000, 0x0000, 0x0000), Block(0x8001, 0x0000, 0x0000, 0x0001), 0, 0x8000, 0, 0)
  {
  }

  lemma Mixed0()
    ensures Mixed(0, Block(0x8001, 0x0000, 0x0000, 0x0001), 0x8000, 0x8001, 0x8001, 0)
  {
  }

  lemma Masked0()
    ensures Masked(0, Block(0x8001, 0x0000, 0x0000, 0x0001), 0x8000, 0x8001, 0x8000, 0x0000, Block(0x0001, 0x8000, 0x0000, 0x0001), 0x8001, 0)
  {
  }

  lemma Keyed1()
    ensures Keyed(1, Block(0x0001, 0x8000, 0x0000, 0x0001), Block(0x0000, 0x8000, 0x0000, 0x0000), 0x1, 0, 0x1, 0)
  {
  }

  lemma Mixed1()
    ensures Mixed(1, Block(0x0000, 0x8000, 0x0000, 0x0000), 0x0001, 0x8001, 0, 0)
  {
  }

  lemma Masked1()
    ensures Masked(1, Block(0x0000, 0x8000, 0x0000, 0x0000), 0x0001, 0x8001, 0x8000, 0x8001, Block(0x8000, 0x8000, 0x0001, 0x8001), 0x8001, 0)
  {
  }

  lemma Keyed2()
    ensures Keyed(2, Block(0x8000, 0x8000, 0x0001, 0x8001), Block(0x8001, 0x8000, 0x0101, 0x8000), 0x8000, 0, 0x8001, 0)
  {
  }

  lemma Mixed2()
    ensures Mixed(2, Block(0x8001, 0x8000, 0x0101, 0x8000), 0x7f01, 0x7f01, 0x8100, 0)
  {
  }

  lemma Masked2()
    ensures Masked(2, Block(0x8001, 0x8000, 0x0101, 0x8000), 0x7f01, 0x7f01, 0x8100, 0x0001, Block(0x0101, 0x8001, 0x8001, 0x8001), 0x7f01, 0)
  {
  }

  lemma Keyed3()
    ensures Keyed(3, Block(0x0101, 0x8001, 0x8001, 0x8001), Block(0xff00, 0x8001, 0x8003, 0x8000), 0x101, 0, 0x8001, 0)
  {
  }

  lemma Mixed3()
    ensures Mixed(3, Block(0xff00, 0x8001, 0x8003, 0x8000), 0x80fe, 0x80ff, 0x7f03, 0)
  {
  }

  lemma Masked3()
    ensures Masked(3, Block(0xff00, 0x8001, 0x8003, 0x8000), 0x80fe, 0x80ff, 0x7f02, 0x0000, Block(0x8002, 0xff01, 0x8001, 0x8000), 0x80ff, 0)
  {
  }

  lemma Keyed4()
    ensures Keyed(4, Block(0x8002, 0xff01, 0x8001, 0x8000), Block(0x7fff, 0xff01, 0x8001, 0xfe01), 0x8002, 0, 0x8000, 0x400)
  {
  }

  lemma Mixed4()
    ensures Mixed(4, Block(0x7fff, 0xff01, 0x8001, 0xfe01), 0x0003, 0x0103, 0xfffe, 0)
  {
  }

  lemma Masked4()
    ensures Masked(4, Block(0x7fff, 0xff01, 0x8001, 0xfe01), 0x0003, 0x0103, 0xfefe, 0xff01, Block(0x8101, 0x7eff, 0x0000, 0x0100), 0x103, 0)
  {
  }

  lemma Keyed5()
    ensures Keyed(5, Block(0x8101, 0x7eff, 0x0000, 0x0100), Block(0x7f00, 0x7eff, 0x0000, 0x0800), 0x8101, 0, 0x100, 0x8)
  {
  }

  lemma Mixed5()
    ensures Mixed(5, Block(0x7f00, 0x7eff, 0x0000, 0x0800), 0x8101, 0xf800, 0x7f00, 0)
  {
  }

  lemma Masked5()
    ensures Masked(5, Block(0x7f00, 0x7eff, 0x0000, 0x0800), 0x8101, 0xf800, 0x0801, 0x8902, Block(0x7701, 0x0801, 0xf7fd, 0x8102), 0xf800, 0)
  {
  }

  lemma Keyed6()
    ensures Keyed(6, Block(0x7701, 0x0801, 0xf7fd, 0x8102), Block(0x8900, 0x0801, 0xf7fd, 0x7eff), 0x7701, 0, 0x8102, 0)
  {
  }

  lemma Mixed6()
    ensures Mixed(6, Block(0x8900, 0x0801, 0xf7fd, 0x7eff), 0xc811, 0x3f0f, 0x7efd, 0x1000)
  {
  }

  lemma Masked6()
    ensures Masked(6, Block(0x8900, 0x0801, 0xf7fd, 0x7eff), 0xc811, 0x3f0f, 0xc0f2, 0x8903, Block(0x49f2, 0x370f, 0x8102, 0xf7fc), 0x3f0f, 0)
  {
  }

  lemma Keyed7()
    ensures Keyed(7, Block(0x49f2, 0x370f, 0x8102, 0xf7fc), Block(0xb60f, 0x370f, 0x8102, 0x0805), 0x49f2, 0, 0xf7fc, 0)
  {
  }

  lemma Mixed7()
    ensures Mixed(7, Block(0xb60f, 0x370f, 0x8102, 0x0805), 0xc8f4, 0x07fe, 0x370d, 0)
  {
  }

  lemma Masked7()
    ensures Masked(7, Block(0xb60f, 0x370f, 0x8102, 0x0805), 0xc8f4, 0x07fe, 0xf803, 0xc0f7, Block(0x4e0c, 0x7901, 0xf7f8, 0xc8f2), 0x7fe, 0)
  {
  }

  lemma NoRounds(k: seq<bv16>, x: Block)
    requires |k| == KEYLEN
    ensures Rounds(k, x, 0) == x
  {
  }

  // The number of rounds is a variable here, so that the rounds are not all unfolded at once.

  lemma FourRounds(n: nat)
    requires n == 4
    ensures Rounds(EncKey(KEY), Block(0, 0, 0, 0), n) == Block(0x8002, 0xff01, 0x8001, 0x8000)
  {
    hide Rounds, EncKey, Keyed, Mixed, Masked;
    var k := EncKey(KEY);
    NoRounds(k, Block(0, 0, 0, 0));
    Keyed0();
    Mixed0();
    Masked0();
    NextRound(k, 0, Block(0x0000, 0x0000, 0x0000, 0x0000), Block(0x8001, 0x0000, 0x0000, 0x0001),
              0x8000, 0x8001, 0x8000, 0x0000, Block(0x0001, 0x8000, 0x0000, 0x0001),
              0, 0x8000, 0, 0, 0x8001, 0, 0x8001, 0);
    Keyed1();
    Mixed1();
    Masked1();
    NextRound(k, 1, Block(0x0001, 0x8000, 0x0000, 0x0001), Block(0x0000, 0x8000, 0x0000, 0x0000),
              0x0001, 0x8001, 0x8000, 0x8001, Block(0x8000, 0x8000, 0x0001, 0x8001),
              0x1, 0, 0x1, 0, 0, 0, 0x8001, 0);
    Keyed2();
    Mixed2();
    Masked2();
    NextRound(k, 2, Block(0x8000, 0x8000, 0x0001, 0x8001), Block(0x8001, 0x8000, 0x0101, 0x8000),
              0x7f01, 0x7f01, 0x8100, 0x0001, Block(0x0101, 0x8001, 0x8001, 0x8001),
              0x8000, 0, 0x8001, 0, 0x8100, 0, 0x7f01, 0);
    Keyed3();
    Mixed3();
    Masked3();
    NextRound(k, 3, Block(0x0101, 0x8001, 0x8001, 0x8001), Block(0xff00, 0x8001, 0x8003, 0x8000),
              0x80fe, 0x80ff, 0x7f02, 0x0000, Block(0x8002, 0xff01, 0x8001, 0x8000),
              0x101, 0, 0x8001, 0, 0x7f03, 0, 0x80ff, 0);
  }

  lemma LastRound(n: nat)
    requires n == 8
    ensures Rounds(EncKey(KEY), Block(0, 0, 0, 0), n) == Block(0x4e0c, 0x7901, 0xf7f8, 0xc8f2)
  {
    hide Rounds, EncKey, Keyed, Mixed, Masked;
    var k := EncKey(KEY);
    FourRounds(4);
    Keyed4();
    Mixed4();
    Masked4();
    NextRound(k, 4, Block(0x8002, 0xff01, 0x8001, 0x8000), Block(0x7fff, 0xff01, 0x8001, 0xfe01),
              0x0003, 0x0103, 0xfefe, 0xff01, Block(0x8101, 0x7eff, 0x0000, 0x0100),
              0x8002, 0, 0x8000, 0x400, 0xfffe, 0, 0x103, 0);
    Keyed5();
    Mixed5();
    Masked5();
    NextRound(k, 5, Block(0x8101, 0x7eff, 0x0000, 0x0100), Block(0x7f00, 0x7eff, 0x0000, 0x0800),
              0x8101, 0xf800, 0x0801, 0x8902, Block(0x7701, 0x0801, 0xf7fd, 0x8102),
              0x8101, 0, 0x100, 0x8, 0x7f00, 0, 0xf800, 0);
    Keyed6();
    Mixed6();
    Masked6();
    NextRound(k, 6, Block(0x7701, 0x0801, 0xf7fd, 0x8102), Block(0x8900, 0x0801, 0xf7fd, 0x7eff),
              0xc811, 0x3f0f, 0xc0f2, 0x8903, Block(0x49f2, 0x370f, 0x8102, 0xf7fc),
              0x7701, 0, 0x8102, 0, 0x7efd, 0x1000, 0x3f0f, 0);
    Keyed7();
    Mixed7();
    Masked7();
    NextRound(k, 7, Block(0x49f2, 0x370f, 0x8102, 0xf7fc), Block(0xb60f, 0x370f, 0x8102, 0x0805),
              0xc8f4, 0x07fe, 0xf803, 0xc0f7, Block(0x4e0c, 0x7901, 0xf7f8, 0xc8f2),
              0x49f2, 0, 0xf7fc, 0, 0x370d, 0, 0x7fe, 0);
  }

  /** The words of the ciphertext. */
  lemma LastWords()
    ensures IsProduct(0x4e0c, KeyWord(48), 0xb1f5, 0x4e0c, 0) && IsSum(0xf7f8, KeyWord(49), 0xf7f8)
    ensures IsSum(0x7901, KeyWord(50), 0x7901) && IsProduct(0xc8f2, KeyWord(51), 0x370f, 0xc8f2, 0)
  {
  }

  lemma CipherBytes()
    ensures Store16H(0xb1f5) == [0xb1, 0xf5] && Store16H(0xf7f8) == [0xf7, 0xf8]
    ensures Store16H(0x7901) == [0x79, 0x01] && Store16H(0x370f) == [0x37, 0x0f]
  {
  }

  /** The block of zeros under the key 80 00 .. 00 becomes b1 f5 f7 f8 79 01 37 0f. */
  lemma Vector()
    ensures EcbEncryption(KEY, [0, 0, 0, 0, 0, 0, 0, 0]) == [0xb1, 0xf5, 0xf7, 0xf8, 0x79, 0x01, 0x37, 0x0f]
  {
    hide Rounds, Process, GroupTimes, Add, IsProduct, IsSum, KeyWord, EncKeyWord, Load16H, Store16H;
    var k, pt: seq<bv8> := EncKey(KEY), [0, 0, 0, 0, 0, 0, 0, 0];
    assert pt[0..2] == pt[2..4] == pt[4..6] == pt[6..8] == [0, 0];
    LoadedWords();
    LastRound(8);
    ProcessSpelled(k, Block(0, 0, 0, 0));
    ScheduleIs(48);
    ScheduleIs(49);
    ScheduleIs(50);
    ScheduleIs(51);
    LastWords();
    ProductIs(0x4e0c, KeyWord(48), 0xb1f5, 0x4e0c, 0);
    SumIs(0xf7f8, KeyWord(49), 0xf7f8);
    SumIs(0x7901, KeyWord(50), 0x7901);
    ProductIs(0xc8f2, KeyWord(51), 0x370f, 0xc8f2, 0);
    CipherBytes();
  }
}

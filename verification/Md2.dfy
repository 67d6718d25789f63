/** MD2 (hashes/md2.c): the hash of RFC 1319 in its order, pad, checksum, compress, and the
    library's state, which checksums and compresses block by block as bytes arrive. The 256-byte
    substitution table is a parameter. */
module Md2 {
  import opened Words
  import opened Wrappers

  type Table = bv8 -> bv8

  function Xor(x: bv8, y: bv8): bv8 { x ^ y }

  function Plus(x: bv8, y: bv8): bv8 { x + y }

  // ---------- one block ----------

  /** The checksum after the first j bytes of a block; byte L is the last one written. The rule is
      the reference code's, which xors into the old checksum byte where RFC 1319 overwrites it. */
  function ChecksumBytes(S: Table, c: seq<bv8>, block: seq<bv8>, j: nat): (r: seq<bv8>)
    requires |c| == 16 && |block| == 16 && j <= 16
    ensures |r| == 16
  {
    if j == 0 then c else
    var r := ChecksumBytes(S, c, block, j - 1);
    var L := if j == 1 then c[15] else r[j - 2];
    r[j - 1 := Xor(r[j - 1], S(Xor(block[j - 1], L)))]
  }

  function ChecksumBlock(S: Table, c: seq<bv8>, block: seq<bv8>): (r: seq<bv8>)
    requires |c| == 16 && |block| == 16
    ensures |r| == 16
  {
    ChecksumBytes(S, c, block, 16)
  }

  datatype Mixing = Mixing(x: seq<bv8>, t: bv8)

  /** The first k substitutions of a round. */
  function Substitutions(S: Table, m: Mixing, k: nat): (r: Mixing)
    requires |m.x| == 48 && k <= 48
    ensures |r.x| == 48
  {
    if k == 0 then m else
    var r := Substitutions(S, m, k - 1);
    var v := Xor(r.x[k - 1], S(r.t));
    Mixing(r.x[k - 1 := v], v)
  }

  function Rounds(S: Table, x: seq<bv8>, j: nat): (r: Mixing)
    requires |x| == 48 && j <= 18
    ensures |r.x| == 48
  {
    if j == 0 then Mixing(x, 0) else
    var r := Substitutions(S, Rounds(S, x, j - 1), 48);
    Mixing(r.x, Plus(r.t, Byte(j - 1)))
  }

  /** The 48 bytes that a block is mixed into. */
  function Laid(x: seq<bv8>, block: seq<bv8>): (r: seq<bv8>)
    requires |x| == 48 && |block| == 16
    ensures |r| == 48
  {
    x[..16] + block + seq(16, j requires 0 <= j < 16 => Xor(x[j], block[j]))
  }

  lemma LaidOut(y: seq<bv8>, x: seq<bv8>, block: seq<bv8>)
    requires |x| == 48 && |y| == 48 && |block| == 16
    requires forall i :: 0 <= i < 16 ==> y[i] == x[i]
    requires forall i :: 16 <= i < 32 ==> y[i] == block[i - 16]
    requires forall i :: 32 <= i < 48 ==> y[i] == Xor(x[i - 32], block[i - 32])
    ensures y == Laid(x, block)
  {
    hide Xor;
    forall i | 0 <= i < 48
      ensures y[i] == Laid(x, block)[i]
    {
      assert 16 <= i < 32 ==> y[16 + (i - 16)] == block[i - 16];
      assert 32 <= i ==> y[32 + (i - 32)] == Xor(x[i - 32], block[i - 32]);
    }
  }

  function CompressBlock(S: Table, x: seq<bv8>, block: seq<bv8>): (r: seq<bv8>)
    requires |x| == 48 && |block| == 16
    ensures |r| == 48
  {
    Rounds(S, Laid(x, block), 18).x
  }

  // ---------- the hash of RFC 1319 ----------

  /** Section 3.1: between 1 and 16 bytes, each holding their number. */
  function Pad(msg: seq<bv8>): (p: seq<bv8>)
    ensures |p| % 16 == 0
  {
    var n := 16 - |msg| % 16;
    msg + seq(n, _ => Byte(n))
  }

  function Zeros(n: nat): (z: seq<bv8>)
    ensures |z| == n
  {
    seq(n, _ => 0)
  }

  /** Section 3.2: the checksum of the first k blocks. */
  function Checksum(S: Table, data: seq<bv8>, k: nat): (c: seq<bv8>)
    requires 16 * k <= |data|
    ensures |c| == 16
  {
    if k == 0 then Zeros(16)
    else ChecksumBlock(S, Checksum(S, data, k - 1), data[16 * (k - 1)..16 * k])
  }

  /** Sections 3.3 and 3.4: the buffer after k blocks. */
  function Compressed(S: Table, data: seq<bv8>, k: nat): (x: seq<bv8>)
    requires 16 * k <= |data|
    ensures |x| == 48
  {
    if k == 0 then Zeros(48)
    else CompressBlock(S, Compressed(S, data, k - 1), data[16 * (k - 1)..16 * k])
  }

  /** First the checksum of the whole padded message, then the compression of message and checksum. */
  function Digest(S: Table, msg: seq<bv8>): (d: seq<bv8>)
    ensures |d| == 16
  {
    var p := Pad(msg);
    var m := p + Checksum(S, p, |p| / 16);
    Compressed(S, m, |m| / 16)[..16]
  }

  lemma {:induction false} ChecksumPrefix(S: Table, data: seq<bv8>, more: seq<bv8>, k: nat)
    requires 16 * k <= |data|
    ensures Checksum(S, data + more, k) == Checksum(S, data, k)
  {
    hide ChecksumBlock;
    if k > 0 {
      ChecksumPrefix(S, data, more, k - 1);
      assert (data + more)[16 * (k - 1)..16 * k] == data[16 * (k - 1)..16 * k];
    }
  }

  lemma {:induction false} CompressedPrefix(S: Table, data: seq<bv8>, more: seq<bv8>, k: nat)
    requires 16 * k <= |data|
    ensures Compressed(S, data + more, k) == Compressed(S, data, k)
  {
    hide CompressBlock;
    if k > 0 {
      CompressedPrefix(S, data, more, k - 1);
      assert (data + more)[16 * (k - 1)..16 * k] == data[16 * (k - 1)..16 * k];
    }
  }

  // ---------- the incremental hash ----------

  class HashState {
    const S: Table
    const chksum: array<bv8>
    const X: array<bv8>
    const buf: array<bv8>
    var curlen: nat
    ghost var fed: seq<bv8>

    ghost predicate Shape()
      reads this
    {
      chksum.Length == 16 && X.Length == 48 && buf.Length == 16 && chksum != X && chksum != buf && X != buf
    }

    /** Checksum and buffer cover the first k blocks of the data. */
    ghost predicate Covers(data: seq<bv8>, k: nat)
      requires 16 * k <= |data|
      reads this, chksum, X
    {
      Shape() && chksum[..] == Checksum(S, data, k) && X[..] == Compressed(S, data, k)
    }

    ghost predicate Valid()
      reads this, chksum, X, buf
    {
      var k := |fed| / 16;
      Covers(fed, k) && curlen == |fed| % 16 && buf[..curlen] == fed[16 * k..]
    }

    constructor (S: Table)
      ensures this.S == S && Shape() && fresh(chksum) && fresh(X) && fresh(buf)
    {
      this.S := S;
      chksum := new bv8[16];
      X := new bv8[48];
      buf := new bv8[16];
    }

    method Init()
      requires Shape()
      modifies this, chksum, X, buf
      ensures Valid() && fed == []
    {
      Put(X, 0, Zeros(48));
      Put(chksum, 0, Zeros(16));
      Put(buf, 0, Zeros(16));
      curlen := 0;
      fed := [];
    }

    method UpdateChecksum()
      requires Shape()
      modifies chksum
      ensures chksum[..] == ChecksumBlock(S, old(chksum[..]), buf[..])
    {
      hide Xor;
      var L := chksum[15];
      for j := 0 to 16
        invariant chksum[..] == ChecksumBytes(S, old(chksum[..]), buf[..], j)
        invariant L == if j == 0 then old(chksum[15]) else chksum[j - 1]
      {
        chksum[j] := Xor(chksum[j], S(Xor(buf[j], L)));
        L := chksum[j];
      }
    }

    method Compress()
      requires Shape()
      modifies X
      ensures X[..] == CompressBlock(S, old(X[..]), buf[..])
    {
      hide Xor, Plus, Byte, Laid;
      Lay();
      ghost var x := X[..];
      var t: bv8 := 0;
      for j := 0 to 18
        invariant Mixing(X[..], t) == Rounds(S, x, j)
      {
        ghost var m := Mixing(X[..], t);
        for k := 0 to 48
          invariant Mixing(X[..], t) == Substitutions(S, m, k)
        {
          X[k] := Xor(X[k], S(t));
          t := X[k];
        }
        t := Plus(t, Byte(j));
      }
    }

    method Lay()
      requires Shape()
      modifies X
      ensures X[..] == Laid(old(X[..]), buf[..])
    {
      hide Xor, Laid;
      ghost var x, block := X[..], buf[..];
      for j := 0 to 16
        invariant X.Length == 48 && buf[..] == block
        invariant forall i :: 0 <= i < 16 ==> X[i] == x[i]
        invariant forall i :: 16 <= i < 16 + j ==> X[i] == block[i - 16]
        invariant forall i :: 32 <= i < 32 + j ==> X[i] == Xor(x[i - 32], block[i - 32])
      {
        assert buf[j] == block[j];
        X[16 + j] := buf[j];
        X[32 + j] := Xor(X[j], X[16 + j]);
      }
      LaidOut(X[..], x, block);
    }

    /** A full buffer is the next block of the data: compress it, then add it to the checksum. */
    method TakeBlock(ghost data: seq<bv8>, ghost k: nat)
      requires 16 * (k + 1) <= |data| && Covers(data, k) && buf[..] == data[16 * k..16 * (k + 1)]
      modifies chksum, X
      ensures Covers(data, k + 1)
    {
      hide ChecksumBlock, CompressBlock;
      Compress();
      UpdateChecksum();
    }

    method Process(input: seq<bv8>) returns (err: Status)
      requires curlen <= 16 ==> Valid()
      modifies this, chksum, X, buf
      ensures err == if old(curlen) > 16 then CRYPT_INVALID_ARG else CRYPT_OK
      ensures err != CRYPT_OK ==> unchanged(this) && unchanged(chksum) && unchanged(X) && unchanged(buf)
      ensures err == CRYPT_OK ==> Valid() && fed == old(fed) + input
    {
      hide Checksum, Compressed;
      if curlen > 16 {
        return CRYPT_INVALID_ARG;
      }
      var pos, inlen := 0, |input|;
      assert old(fed) + input[..0] == fed;
      while inlen > 0
        invariant 0 <= pos <= |input| && pos + inlen == |input| && Valid() && fed == old(fed) + input[..pos]
      {
        var n := if inlen < 16 - curlen then inlen else 16 - curlen;
        assert input[..pos + n] == input[..pos] + input[pos..pos + n];
        Feed(input[pos..pos + n]);
        pos, inlen := pos + n, inlen - n;
      }
      assert input[..|input|] == input;
      return CRYPT_OK;
    }

    /** One turn of the loop: at most as many bytes as the buffer still takes. */
    method Feed(bytes: seq<bv8>)
      requires Valid() && curlen + |bytes| <= 16
      modifies this, chksum, X, buf
      ensures Valid() && fed == old(fed) + bytes
    {
      hide Checksum, Compressed;
      ghost var data, k := fed + bytes, |fed| / 16;
      ChecksumPrefix(S, fed, bytes, k);
      CompressedPrefix(S, fed, bytes, k);
      Put(buf, curlen, bytes);
      curlen := curlen + |bytes|;
      assert buf[..curlen] == data[16 * k..];
      fed := data;
      if curlen == 16 {
        assert buf[..] == buf[..16] && data[16 * k..16 * (k + 1)] == data[16 * k..];
        TakeBlock(data, k);
        curlen := 0;
        assert |data| == 16 * (k + 1);
        assert buf[..0] == data[16 * (k + 1)..];
      }
    }

    /** Pads, takes the last block, and runs the checksum through the compression as one more. */
    method Done(out: array<bv8>) returns (err: Status)
      requires curlen < 16 ==> Valid()
      requires Shape() && out.Length >= 16 && out != X && out != buf && out != chksum
      modifies this, chksum, X, buf, out
      ensures err == if old(curlen) >= 16 then CRYPT_INVALID_ARG else CRYPT_OK
      ensures err != CRYPT_OK ==> unchanged(this) && unchanged(chksum) && unchanged(X) && unchanged(buf) && unchanged(out)
      ensures err == CRYPT_OK ==> out[..16] == Digest(S, old(fed)) && out[16..] == old(out[16..])
    {
      hide Checksum, Compressed, Pad;
      if curlen >= 16 {
        return CRYPT_INVALID_ARG;
      }
      ghost var p := Pad(fed);
      ghost var k := |p| / 16 - 1;
      TakePadding();
      TakeChecksum(p, k + 1);
      Put(out, 0, X[..16]);
      return CRYPT_OK;
    }

    method TakePadding()
      requires Valid() && curlen < 16
      modifies chksum, X, buf
      ensures Covers(Pad(fed), |Pad(fed)| / 16)
    {
      hide Checksum, Compressed, Byte;
      ghost var p, k := Pad(fed), |fed| / 16;
      var n := 16 - curlen;
      var padding := seq(n, _ => Byte(n));
      assert p == fed + padding;
      ChecksumPrefix(S, fed, padding, k);
      CompressedPrefix(S, fed, padding, k);
      ghost var waiting := buf[..curlen];
      Put(buf, curlen, padding);
      assert buf[..] == buf[..curlen] + buf[curlen..curlen + n] == waiting + padding;
      assert p[16 * k..16 * (k + 1)] == fed[16 * k..] + padding;
      TakeBlock(p, k);
    }

    /** The checksum is compressed behind the padded message, as one more block. */
    method TakeChecksum(ghost p: seq<bv8>, ghost k: nat)
      requires |p| == 16 * k && Covers(p, k)
      modifies X, buf
      ensures X[..] == Compressed(S, p + Checksum(S, p, k), k + 1)
    {
      hide Checksum, Compressed, CompressBlock;
      ghost var m := p + chksum[..];
      CompressedPrefix(S, p, chksum[..], k);
      ghost var c := chksum[..];
      Put(buf, 0, chksum[..]);
      assert buf[..] == buf[0..16] == c;
      Behind(p, c, k);
      Compress();
      CompressedStep(S, m, k);
    }
  }

  lemma Behind(p: seq<bv8>, c: seq<bv8>, k: nat)
    requires |p| == 16 * k && |c| == 16
    ensures (p + c)[16 * k..16 * (k + 1)] == c
  {
  }

  lemma CompressedStep(S: Table, data: seq<bv8>, k: nat)
    requires 16 * (k + 1) <= |data|
    ensures Compressed(S, data, k + 1) == CompressBlock(S, Compressed(S, data, k), data[16 * k..16 * (k + 1)])
  {
    hide CompressBlock;
  }

  // ---------- every way of cutting a message ----------

  method HashChunks(S: Table, chunks: seq<seq<bv8>>, out: array<bv8>)
    requires out.Length >= 16
    modifies out
    ensures out[..16] == Digest(S, Concat(chunks)) && out[16..] == old(out[16..])
  {
    hide Digest;
    var md := new HashState(S);
    md.Init();
    for i := 0 to |chunks|
      modifies md, md.chksum, md.X, md.buf
      invariant md.Valid() && md.fed == Concat(chunks[..i])
    {
      assert chunks[..i + 1][..i] == chunks[..i];
      var _ := md.Process(chunks[i]);
    }
    assert chunks[..|chunks|] == chunks;
    var _ := md.Done(out);
  }
}

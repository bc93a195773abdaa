/** The buffering and padding of the SM3 digest, over an arbitrary compression function. */
module Sm3 {
  import opened Types
  import opened Serialization
  import opened Compact

  const CHUNK := 64

  const TWO_TO_64 := 0x1_0000_0000_0000_0000

  /** Eight words of 32 bits. */
  type State = seq<int>

  type Compress = (State, seq<Byte>) -> State

  const INIT: State := [
    0x7380166F, 0x4914B2B9, 0x172442D7, 0xDA8A0600, 0xA96F30BC, 0x163138AA, 0xE38DEE4D, 0xB0FB0E4E]

  // ----- One-shot form -----

  /** The state after the whole blocks of a message. Bytes of an incomplete block do not matter. */
  function Fold(f: Compress, h: State, s: seq<Byte>): State
    decreases |s|
  {
    if |s| < CHUNK then h else Fold(f, f(h, s[..CHUNK]), s[CHUNK..])
  }

  /** Zero bytes between the mark and the length. */
  function Gap(n: nat): nat {
    if n % 64 < 56 then 55 - n % 64 else 119 - n % 64
  }

  function ByteAt(x: nat, unit: nat): Byte
    requires unit > 0
  {
    x / unit % 256
  }

  /** Eight bytes, the most significant first. */
  function BigEndian64(x: nat): (r: seq<Byte>)
    ensures |r| == 8
  {
    var low := LittleEndian(x, 8);
    [low[7], low[6], low[5], low[4], low[3], low[2], low[1], low[0]]
  }

  /** The number of bits of the message, which counts modulo 2^64. */
  function BitCount(n: nat): nat {
    8 * n % TWO_TO_64
  }

  /** Section 5.2 of GM/T 0004-2012: a bit 1, zeros, and the length in bits. */
  function Padded(m: seq<Byte>): seq<Byte> {
    m + (([0x80] + Zeros(Gap(|m|))) + BigEndian64(BitCount(|m|)))
  }

  function WordBytes(h: State): seq<Byte> {
    if h == [] then []
    else
      var w := if h[0] < 0 then 0 else h[0];
      [ByteAt(w, 0x100_0000), ByteAt(w, 0x1_0000), ByteAt(w, 0x100), ByteAt(w, 1)] + WordBytes(h[1..])
  }

  function DigestOf(f: Compress, m: seq<Byte>): seq<Byte> {
    WordBytes(Fold(f, INIT, Padded(m)))
  }

  /** Whole blocks can be folded first. */
  lemma {:induction false} FoldAppend(f: Compress, h: State, s: seq<Byte>, t: seq<Byte>)
    requires |s| % CHUNK == 0
    ensures Fold(f, h, s + t) == Fold(f, Fold(f, h, s), t)
    decreases |s|
  {
    if |s| == 0 {
      assert s + t == t;
    } else {
      assert (s + t)[..CHUNK] == s[..CHUNK] && (s + t)[CHUNK..] == s[CHUNK..] + t;
      FoldAppend(f, f(h, s[..CHUNK]), s[CHUNK..], t);
    }
  }

  lemma GapFits(n: nat)
    ensures (n + 9 + Gap(n)) % CHUNK == 0
  {
    var q, r := n / 64, n % 64;
    assert n + 9 + Gap(n) == if r < 56 then 64 * (q + 1) else 64 * (q + 2);
  }

  /** The padded message consists of whole blocks. */
  lemma PaddedWhole(m: seq<Byte>)
    ensures |Padded(m)| % CHUNK == 0
  {
    hide BigEndian64, BitCount, Gap;
    GapFits(|m|);
    assert |Padded(m)| == |m| + 9 + Gap(|m|);
  }

  // ----- The bytes of the padding and of the digest -----

  lemma FourBytes(w: nat)
    requires w < 0x1_0000_0000
    ensures 0x100_0000 * (ByteAt(w, 0x100_0000) as int) + 0x1_0000 * (ByteAt(w, 0x1_0000) as int) +
            0x100 * (ByteAt(w, 0x100) as int) + (ByteAt(w, 1) as int) == w
  {
    FourDigits(w);
  }

  /** Four bytes of the digest denote a word of the state, the most significant byte first. */
  lemma {:induction false} DigestWord(h: State, k: nat)
    requires k < |h| && 0 <= h[k] < 0x1_0000_0000
    ensures |WordBytes(h)| == 4 * |h|
    ensures var d := WordBytes(h);
            0x100_0000 * (d[4 * k] as int) + 0x1_0000 * (d[4 * k + 1] as int) +
            0x100 * (d[4 * k + 2] as int) + (d[4 * k + 3] as int) == h[k]
  {
    WordBytesLength(h);
    if k == 0 {
      FourBytes(h[0]);
    } else {
      hide WordBytes;
      DigestWord(h[1..], k - 1);
      WordBytesRest(h, 4 * k - 4);
      WordBytesRest(h, 4 * k - 3);
      WordBytesRest(h, 4 * k - 2);
      WordBytesRest(h, 4 * k - 1);
    }
  }

  lemma WordBytesRest(h: State, i: nat)
    requires h != [] && i < |WordBytes(h[1..])|
    ensures |WordBytes(h)| == 4 + |WordBytes(h[1..])| && WordBytes(h)[4 + i] == WordBytes(h[1..])[i]
  {
    hide ByteAt;
  }

  lemma {:induction false} WordBytesLength(h: State)
    ensures |WordBytes(h)| == 4 * |h|
  {
    hide ByteAt;
    if h != [] {
      WordBytesLength(h[1..]);
    }
  }

  /** The number that eight bytes denote, the most significant first. */
  function Number64(s: seq<Byte>): nat
    requires |s| == 8
  {
    0x100_0000_0000_0000 * (s[0] as int) + 0x1_0000_0000_0000 * (s[1] as int) + 0x100_0000_0000 * (s[2] as int) +
    0x1_0000_0000 * (s[3] as int) + 0x100_0000 * (s[4] as int) + 0x1_0000 * (s[5] as int) + 0x100 * (s[6] as int) + (s[7] as int)
  }

  lemma EightBytes(s: seq<Byte>)
    requires |s| == 8
    ensures FromLittleEndian(s) == Number64([s[7], s[6], s[5], s[4], s[3], s[2], s[1], s[0]])
  {
    assert s[1..][1..] == s[2..] && s[2..][1..] == s[3..] && s[3..][1..] == s[4..] && s[4..][1..] == s[5..];
    assert s[5..][1..] == s[6..] && s[6..][1..] == s[7..] && s[7..][1..] == [];
    assert FromLittleEndian(s[7..]) == s[7] as int;
    assert FromLittleEndian(s[6..]) == (s[6] as int) + 256 * FromLittleEndian(s[7..]);
    assert FromLittleEndian(s[5..]) == (s[5] as int) + 256 * FromLittleEndian(s[6..]);
    assert FromLittleEndian(s[4..]) == (s[4] as int) + 256 * FromLittleEndian(s[5..]);
    assert FromLittleEndian(s[3..]) == (s[3] as int) + 256 * FromLittleEndian(s[4..]);
    assert FromLittleEndian(s[2..]) == (s[2] as int) + 256 * FromLittleEndian(s[3..]);
    assert FromLittleEndian(s[1..]) == (s[1] as int) + 256 * FromLittleEndian(s[2..]);
  }

  lemma BigEndian64Value(x: nat)
    requires x < TWO_TO_64
    ensures Number64(BigEndian64(x)) == x
  {
    hide LittleEndian, FromLittleEndian, Number64;
    Widths();
    LittleEndianRound(x, 8);
    EightBytes(LittleEndian(x, 8));
  }

  /**
   The padded message byte by byte: the message, the mark, zeros, and in the last eight bytes the
   length in bits, the most significant byte first. It is as short as whole blocks allow.
   */
  lemma PaddedBytes(m: seq<Byte>)
    ensures var p, n := Padded(m), |m|;
            && |p| % 64 == 0 && n + 9 <= |p| < n + 73
            && p[..n] == m && p[n] == 0x80
            && (forall i :: n < i < |p| - 8 ==> p[i] == 0)
            && Number64(p[|p| - 8..]) == 8 * n % TWO_TO_64
  {
    hide BigEndian64, Number64;
    PaddedWhole(m);
    BigEndian64Value(BitCount(|m|));
    assert Padded(m)[|Padded(m)| - 8..] == BigEndian64(BitCount(|m|));
  }

  // ----- What the buffer holds -----

  /** The last bytes of the message are in the buffer, the blocks before them in the state. */
  ghost predicate Held(f: Compress, h: State, x: seq<Byte>, nx: nat, m: seq<Byte>) {
    && |x| == CHUNK
    && nx == |m| % CHUNK
    && x[..nx] == m[|m| - nx..]
    && h == Fold(f, INIT, m[..|m| - nx])
  }

  lemma HeldNothing(f: Compress, x: seq<Byte>)
    requires |x| == CHUNK
    ensures Held(f, INIT, x, 0, [])
  {
  }

  lemma Remainder(n: nat, k: nat)
    ensures n % CHUNK + k < CHUNK ==> (n + k) % CHUNK == n % CHUNK + k
    ensures n % CHUNK + k == CHUNK ==> (n + k) % CHUNK == 0
    ensures k % CHUNK == 0 ==> (n + k) % CHUNK == n % CHUNK
    ensures (n - n % CHUNK) % CHUNK == 0
  {
  }

  /** More bytes that do not fill the buffer. */
  lemma HeldMore(f: Compress, h: State, x: seq<Byte>, nx: nat, m: seq<Byte>, q: seq<Byte>, x': seq<Byte>)
    requires Held(f, h, x, nx, m)
    requires nx + |q| < CHUNK && |x'| == CHUNK && x'[..nx + |q|] == x[..nx] + q
    ensures Held(f, h, x', nx + |q|, m + q)
  {
    hide Fold;
    Remainder(|m|, |q|);
    assert (m + q)[..|m| - nx] == m[..|m| - nx];
    assert (m + q)[|m| - nx..] == m[|m| - nx..] + q;
  }

  /** Bytes that fill the buffer, which then is compressed. */
  lemma HeldFull(f: Compress, h: State, x: seq<Byte>, nx: nat, m: seq<Byte>, q: seq<Byte>, x': seq<Byte>)
    requires Held(f, h, x, nx, m)
    requires nx + |q| == CHUNK && |x'| == CHUNK && x' == x[..nx] + q
    ensures Held(f, Fold(f, h, x'), x', 0, m + q)
  {
    hide Fold;
    Remainder(|m|, |q|);
    var head := m[..|m| - nx];
    assert m + q == head + x';
    FoldAppend(f, INIT, head, x');
    assert (m + q)[..|m + q|] == m + q;
  }

  /** Whole blocks, compressed without passing through the buffer. */
  lemma HeldBlocks(f: Compress, h: State, x: seq<Byte>, m: seq<Byte>, q: seq<Byte>)
    requires Held(f, h, x, 0, m)
    requires |q| % CHUNK == 0
    ensures Held(f, Fold(f, h, q), x, 0, m + q)
  {
    hide Fold;
    Remainder(|m|, |q|);
    assert m[..|m|] == m && (m + q)[..|m + q|] == m + q;
    FoldAppend(f, INIT, m, q);
  }

  // ----- The digest object -----

  class Digest {
    var h: State
    const x: array<Byte>
    var nx: nat
    var len: nat
    const compress: Compress
    /** Everything written so far. */
    ghost var written: seq<Byte>

    ghost predicate Valid()
      reads this, x
    {
      && x.Length == CHUNK
      && Held(compress, h, x[..], nx, written)
      && len == |written| % TWO_TO_64
    }

    constructor (f: Compress)
      ensures Valid() && written == [] && compress == f && fresh(x)
    {
      hide Held;
      compress := f;
      x := new Byte[CHUNK](i => 0);
      h := INIT;
      nx, len := 0, 0;
      written := [];
      new;
      HeldNothing(f, x[..]);
    }

    constructor Copy(d: Digest)
      requires d.Valid()
      ensures Valid() && written == d.written && compress == d.compress && fresh(x)
    {
      hide Held;
      compress := d.compress;
      x := new Byte[CHUNK](i requires 0 <= i < CHUNK && d.x.Length == CHUNK reads d.x => d.x[i]);
      h := d.h;
      nx, len := d.nx, d.len;
      written := d.written;
      new;
      assert x[..] == d.x[..];
    }

    /** Copies bytes into the buffer. */
    method Put(at: nat, q: seq<Byte>)
      requires at + |q| <= x.Length
      modifies x
      ensures x[..at + |q|] == old(x[..at]) + q
    {
      forall i | 0 <= i < |q| {
        x[at + i] := q[i];
      }
    }

    /** Compresses whole blocks one after the other. */
    method BlockGeneric(s: seq<Byte>)
      modifies this`h
      ensures h == Fold(compress, old(h), s)
    {
      var p := s;
      while |p| >= CHUNK
        invariant Fold(compress, h, p) == Fold(compress, old(h), s)
        decreases |p|
      {
        h := compress(h, p[..CHUNK]);
        p := p[CHUNK..];
      }
    }

    /** The first bytes of p go to a buffer that is not empty. */
    method Fill(p: seq<Byte>) returns (n: nat)
      requires x.Length == CHUNK && 0 < nx
      requires Held(compress, h, x[..], nx, written)
      modifies this`h, this`nx, x
      ensures n <= |p| && Held(compress, h, x[..], nx, written + p[..n])
      ensures nx > 0 ==> n == |p|
    {
      hide Fold;
      ghost var before := x[..];
      n := if |p| < CHUNK - nx then |p| else CHUNK - nx;
      assert nx < CHUNK;
      Put(nx, p[..n]);
      assert before[..nx] == old(x[..nx]);
      if nx + n == CHUNK {
        assert x[..] == x[..nx + n];
        HeldFull(compress, h, before, nx, written, p[..n], x[..]);
        BlockGeneric(x[..]);
        nx := 0;
      } else {
        HeldMore(compress, h, before, nx, written, p[..n], x[..]);
        nx := nx + n;
      }
    }

    /** However the message is cut into writes, the object only knows their concatenation. */
    method Write(q: seq<Byte>)
      requires Valid()
      modifies this, x
      ensures Valid()
      ensures written == old(written) + q
    {
      hide Held, Fold;
      LengthWraps(|written|, |q|);
      len := (len + |q|) % TWO_TO_64;
      var p := q;
      if nx > 0 {
        var n := Fill(p);
        SplitWrite(written, p, n);
        written := written + p[..n];
        p := p[n..];
      }
      EmptyWrite(written);
      if |p| >= CHUNK {
        var n := |p| - |p| % CHUNK;
        Remainder(|p|, 0);
        HeldBlocks(compress, h, x[..], written, p[..n]);
        BlockGeneric(p[..n]);
        SplitWrite(written, p, n);
        written := written + p[..n];
        p := p[n..];
      }
      EmptyWrite(written);
      if |p| > 0 {
        ghost var before := x[..];
        Put(0, p);
        HeldMore(compress, h, before, 0, written, p, x[..]);
        nx := |p|;
        written := written + p;
      }
    }

    /** The padding fills the last block, so the check that nothing is buffered cannot fail. */
    method CheckSum() returns (digest: seq<Byte>)
      requires Valid()
      modifies this, x
      ensures digest == DigestOf(compress, old(written))
    {
      hide Held, Fold, Gap, BitCount, BigEndian64, WordBytes, Zeros;
      ghost var m := written;
      var count := len;
      LengthModulo(|m|);
      Write([0x80] + Zeros(if count % 64 < 56 then 55 - count % 64 else 119 - count % 64));
      Write(BigEndian64(count * 8 % TWO_TO_64));
      Associative(m, [0x80] + Zeros(Gap(|m|)), BigEndian64(BitCount(|m|)));
      PaddedWhole(m);
      NothingLeft(compress, h, x[..], nx, written);
      assert nx == 0;
      digest := WordBytes(h);
    }

    /** The digest of what was written so far. The object itself can be written to further. */
    method Sum(prefix: seq<Byte>) returns (r: seq<Byte>)
      requires Valid()
      ensures r == prefix + DigestOf(compress, written)
    {
      var d := new Digest.Copy(this);
      var digest := d.CheckSum();
      r := prefix + digest;
    }
  }

  lemma LengthWraps(n: nat, k: nat)
    ensures (n % TWO_TO_64 + k) % TWO_TO_64 == (n + k) % TWO_TO_64
  {
  }

  lemma LengthModulo(n: nat)
    ensures n % TWO_TO_64 % 64 == n % 64
    ensures n % TWO_TO_64 * 8 % TWO_TO_64 == BitCount(n)
    ensures (if n % 64 < 56 then 55 - n % 64 else 119 - n % 64) == Gap(n)
  {
    hide BitCount;
    var q, r := n / TWO_TO_64, n % TWO_TO_64;
    SameRemainder(q * 0x400_0000_0000_0000, r);
    EightTimes(q, r);
    CountIs(n);
  }

  lemma SameRemainder(k: nat, r: nat)
    ensures (64 * k + r) % 64 == r % 64
  {
  }

  lemma CountIs(n: nat)
    ensures BitCount(n) == 8 * n % TWO_TO_64
  {
  }

  lemma EightTimes(q: nat, r: nat)
    ensures 8 * (q * TWO_TO_64 + r) % TWO_TO_64 == 8 * r % TWO_TO_64
  {
    WholeTurns(8 * q, 8 * r);
  }

  lemma WholeTurns(k: nat, x: nat)
    ensures (k * TWO_TO_64 + x) % TWO_TO_64 == x % TWO_TO_64
  {
    var m, y := x / TWO_TO_64, x % TWO_TO_64;
    RemainderOf(k + m, y);
  }

  lemma RemainderOf(k: nat, y: nat)
    requires y < TWO_TO_64
    ensures (k * TWO_TO_64 + y) % TWO_TO_64 == y
  {
  }

  lemma SplitWrite(m: seq<Byte>, p: seq<Byte>, n: nat)
    requires n <= |p|
    ensures m + p == (m + p[..n]) + p[n..]
  {
  }

  lemma EmptyWrite(m: seq<Byte>)
    ensures m + [] == m
  {
  }

  /** With whole blocks written, nothing is buffered and the state is the fold of the message. */
  lemma NothingLeft(f: Compress, h: State, x: seq<Byte>, nx: nat, m: seq<Byte>)
    requires Held(f, h, x, nx, m) && |m| % CHUNK == 0
    ensures nx == 0 && h == Fold(f, INIT, m)
  {
    assert m[..|m|] == m;
  }

  /** The buffer index is the length counter modulo the block size, also when the counter has wrapped. */
  lemma IndexIsLength(d: Digest)
    requires d.Valid()
    ensures d.nx == d.len % CHUNK
  {
    hide Fold;
    LengthModulo(|d.written|);
  }

  method SumOf(f: Compress, data: seq<Byte>) returns (r: seq<Byte>)
    ensures r == DigestOf(f, data)
  {
    var d := new Digest(f);
    d.Write(data);
    assert [] + data == data;
    r := d.CheckSum();
  }

  function Concat(chunks: seq<seq<Byte>>): seq<Byte> {
    if chunks == [] then [] else Concat(chunks[..|chunks| - 1]) + chunks[|chunks| - 1]
  }

  /** Any sequence of writes gives the digest of the whole message. */
  method SumOfWrites(f: Compress, chunks: seq<seq<Byte>>) returns (r: seq<Byte>)
    ensures r == DigestOf(f, Concat(chunks))
  {
    hide DigestOf;
    var d := new Digest(f);
    for i := 0 to |chunks|
      invariant d.Valid() && d.compress == f && fresh(d) && fresh(d.x)
      invariant d.written == Concat(chunks[..i])
    {
      assert chunks[..i + 1][..i] == chunks[..i];
      d.Write(chunks[i]);
    }
    assert chunks[..|chunks|] == chunks;
    r := d.CheckSum();
  }

  // ----- Padding is unambiguous -----

  lemma BigEndianInjective(x: nat, y: nat)
    requires x < TWO_TO_64 && y < TWO_TO_64
    requires BigEndian64(x) == BigEndian64(y)
    ensures x == y
  {
    var a, b := LittleEndian(x, 8), LittleEndian(y, 8);
    forall i | 0 <= i < 8
      ensures a[i] == b[i]
    {
      assert BigEndian64(x)[7 - i] == a[i] && BigEndian64(y)[7 - i] == b[i];
    }
    assert a == b;
    Widths();
    LittleEndianRound(x, 8);
    LittleEndianRound(y, 8);
  }

  lemma LastEight(m: seq<Byte>)
    ensures |Padded(m)| >= 8
    ensures Padded(m)[|Padded(m)| - 8..] == BigEndian64(BitCount(|m|))
    ensures Padded(m)[..|m|] == m
  {
    hide BigEndian64, BitCount, Gap, Zeros;
  }

  /** Messages whose length in bits fits in 64 bits are determined by their padded form. */
  lemma PaddedInjective(m: seq<Byte>, m': seq<Byte>)
    requires 8 * |m| < TWO_TO_64 && 8 * |m'| < TWO_TO_64
    requires Padded(m) == Padded(m')
    ensures m == m'
  {
    hide BigEndian64, Padded;
    LastEight(m);
    LastEight(m');
    BigEndianInjective(BitCount(|m|), BitCount(|m'|));
  }
}

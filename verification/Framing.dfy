/** Cutting the byte stream of a connection into messages, chunk by chunk. */
module Framing {
  import opened Types
  import opened Serialization

  const MSG_HDR_LEN := 24

  // ----- Headers -----

  function LittleEndian32(s: seq<Byte>, at: nat): nat
    requires at + 4 <= |s|
  {
    (s[at] as int) + 256 * (s[at + 1] as int) + 65536 * (s[at + 2] as int) + 16777216 * (s[at + 3] as int)
  }

  /** A header is a magic number, a command of 12 bytes, a payload length and a checksum. */
  predicate ValidMsgHdr(magic: nat, s: seq<Byte>)
    requires |s| >= MSG_HDR_LEN
  {
    LittleEndian32(s, 0) == magic
  }

  function PayloadLen(s: seq<Byte>): nat
    requires |s| >= MSG_HDR_LEN
  {
    LittleEndian32(s, 16)
  }

  lemma HeaderOnly(magic: nat, s: seq<Byte>, t: seq<Byte>)
    requires |s| >= MSG_HDR_LEN
    ensures ValidMsgHdr(magic, s + t) <==> ValidMsgHdr(magic, s)
    ensures PayloadLen(s + t) == PayloadLen(s)
  {
  }

  // ----- What a sender writes -----

  /** A message: its command, the checksum of its payload, and the payload. */
  datatype Message = Message(cmd: seq<Byte>, checksum: seq<Byte>, payload: seq<Byte>)

  predicate MessageFormed(m: Message) {
    |m.cmd| == 12 && |m.checksum| == 4 && |m.payload| < TWO_TO_32
  }

  function WriteHeader(magic: nat, cmd: seq<Byte>, length: nat, checksum: seq<Byte>): seq<Byte> {
    LittleEndian(magic, 4) + (cmd + (LittleEndian(length, 4) + checksum))
  }

  function WriteMessage(magic: nat, m: Message): seq<Byte> {
    WriteHeader(magic, m.cmd, |m.payload|, m.checksum) + m.payload
  }

  lemma FourBytes(x: nat, s: seq<Byte>, at: nat)
    requires x < TWO_TO_32 && at + 4 <= |s| && s[at..at + 4] == LittleEndian(x, 4)
    ensures LittleEndian32(s, at) == x
  {
    hide LittleEndian;
    var b := s[at..at + 4];
    assert b[0] == s[at] && b[1] == s[at + 1] && b[2] == s[at + 2] && b[3] == s[at + 3];
    BytesMakeUp(x, b);
  }

  lemma BytesMakeUp(x: nat, b: seq<Byte>)
    requires x < TWO_TO_32 && b == LittleEndian(x, 4)
    ensures (b[0] as int) + 256 * (b[1] as int) + 65536 * (b[2] as int) + 16777216 * (b[3] as int) == x
  {
    hide LittleEndian;
    UintBytes(x);
    FourDigits(x);
  }

  /** A receiver finds in a header what the sender wrote. */
  lemma HeaderRead(magic: nat, magic': nat, cmd: seq<Byte>, length: nat, checksum: seq<Byte>, rest: seq<Byte>)
    requires |cmd| == 12 && |checksum| == 4 && magic' < TWO_TO_32 && length < TWO_TO_32
    ensures var s := WriteHeader(magic', cmd, length, checksum) + rest;
            && |s| == MSG_HDR_LEN + |rest|
            && (ValidMsgHdr(magic, s) <==> magic' == magic) && PayloadLen(s) == length
            && s[4..16] == cmd && s[20..24] == checksum
  {
    hide LittleEndian, LittleEndian32;
    var s := WriteHeader(magic', cmd, length, checksum) + rest;
    assert s[0..4] == LittleEndian(magic', 4);
    assert s[16..20] == LittleEndian(length, 4);
    FourBytes(magic', s, 0);
    FourBytes(length, s, 16);
  }

  /** A header and a payload are a message exactly when the length written is that of the payload. */
  lemma FrameIff(magic: nat, magic': nat, cmd: seq<Byte>, length: nat, checksum: seq<Byte>, payload: seq<Byte>)
    requires |cmd| == 12 && |checksum| == 4 && magic' < TWO_TO_32 && length < TWO_TO_32
    ensures IsFrame(magic, WriteHeader(magic', cmd, length, checksum) + payload) <==> magic' == magic && length == |payload|
  {
    hide WriteHeader, ValidMsgHdr, PayloadLen;
    HeaderRead(magic, magic', cmd, length, checksum, payload);
  }

  /** Every proper beginning of a message is one that has begun. */
  lemma BeginningIsPartial(magic: nat, m: Message, cut: nat)
    requires MessageFormed(m) && magic < TWO_TO_32 && cut < |WriteMessage(magic, m)|
    ensures IsPartial(magic, WriteMessage(magic, m)[..cut])
  {
    hide WriteHeader, ValidMsgHdr, PayloadLen;
    var header := WriteHeader(magic, m.cmd, |m.payload|, m.checksum);
    HeaderRead(magic, magic, m.cmd, |m.payload|, m.checksum, m.payload);
    if cut >= MSG_HDR_LEN {
      var part := m.payload[..cut - MSG_HDR_LEN];
      assert WriteMessage(magic, m)[..cut] == header + part;
      HeaderRead(magic, magic, m.cmd, |m.payload|, m.checksum, part);
    }
  }

  function Written(magic: nat, ms: seq<Message>): (r: seq<seq<Byte>>)
    ensures |r| == |ms|
  {
    seq(|ms|, k requires 0 <= k < |ms| => WriteMessage(magic, ms[k]))
  }

  lemma WrittenFrames(magic: nat, ms: seq<Message>, k: nat)
    requires k < |ms| && MessageFormed(ms[k]) && magic < TWO_TO_32
    ensures IsFrame(magic, Written(magic, ms)[k])
  {
    hide IsFrame, WriteHeader;
    FrameIff(magic, magic, ms[k].cmd, |ms[k].payload|, ms[k].checksum, ms[k].payload);
  }

  // ----- One-shot parsing -----

  datatype Parsed = Parsed(frames: seq<seq<Byte>>, rest: seq<Byte>)

  /** All messages of a stream and what is left over. A bad header drops everything from it on. */
  function Parse(magic: nat, s: seq<Byte>): Parsed
    decreases |s|
  {
    if |s| < MSG_HDR_LEN then Parsed([], s)
    else if !ValidMsgHdr(magic, s) then Parsed([], [])
    else if |s| < MSG_HDR_LEN + PayloadLen(s) then Parsed([], s)
    else
      var n := MSG_HDR_LEN + PayloadLen(s);
      var more := Parse(magic, s[n..]);
      Parsed([s[..n]] + more.frames, more.rest)
  }

  /** No bad header is met while parsing. */
  predicate Clean(magic: nat, s: seq<Byte>)
    decreases |s|
  {
    |s| < MSG_HDR_LEN ||
    (ValidMsgHdr(magic, s) &&
     (|s| < MSG_HDR_LEN + PayloadLen(s) || Clean(magic, s[MSG_HDR_LEN + PayloadLen(s)..])))
  }

  /** Parsing can stop after any clean part of the stream and go on with what was left over. */
  lemma {:induction false} ParseSplit(magic: nat, s: seq<Byte>, t: seq<Byte>)
    requires Clean(magic, s)
    ensures var first := Parse(magic, s);
            var second := Parse(magic, first.rest + t);
            Parse(magic, s + t) == Parsed(first.frames + second.frames, second.rest)
    decreases |s|
  {
    hide ValidMsgHdr, PayloadLen;
    if |s| >= MSG_HDR_LEN && |s| >= MSG_HDR_LEN + PayloadLen(s) {
      var n := MSG_HDR_LEN + PayloadLen(s);
      HeaderOnly(magic, s, t);
      assert (s + t)[..n] == s[..n] && (s + t)[n..] == s[n..] + t;
      ParseSplit(magic, s[n..], t);
      var first, second := Parse(magic, s[n..]), Parse(magic, Parse(magic, s[n..]).rest + t);
      Associative([s[..n]], first.frames, second.frames);
    }
  }

  // ----- Streams of messages -----

  predicate IsFrame(magic: nat, f: seq<Byte>) {
    |f| >= MSG_HDR_LEN && ValidMsgHdr(magic, f) && |f| == MSG_HDR_LEN + PayloadLen(f)
  }

  /** A message that has begun: nothing is missing from it but at least one byte at its end. */
  predicate IsPartial(magic: nat, s: seq<Byte>) {
    |s| < MSG_HDR_LEN || (ValidMsgHdr(magic, s) && |s| < MSG_HDR_LEN + PayloadLen(s))
  }

  function Concat(fs: seq<seq<Byte>>): seq<Byte> {
    if fs == [] then [] else fs[0] + Concat(fs[1..])
  }

  /** A stream of messages and the beginning of another one parses into just these. */
  lemma {:induction false} ParseFrames(magic: nat, fs: seq<seq<Byte>>, tail: seq<Byte>)
    requires forall k :: 0 <= k < |fs| ==> IsFrame(magic, fs[k])
    requires IsPartial(magic, tail)
    ensures Parse(magic, Concat(fs) + tail) == Parsed(fs, tail)
    ensures Clean(magic, Concat(fs) + tail)
  {
    hide Parse, Clean, ValidMsgHdr, PayloadLen;
    if fs == [] {
      assert Concat(fs) + tail == tail;
      Unfinished(magic, tail);
    } else {
      ParseFrames(magic, fs[1..], tail);
      ParseOne(magic, fs[0], Concat(fs[1..]) + tail);
      Associative(fs[0], Concat(fs[1..]), tail);
      assert fs == [fs[0]] + fs[1..];
    }
  }

  lemma ParseOne(magic: nat, f: seq<Byte>, more: seq<Byte>)
    requires IsFrame(magic, f)
    ensures Parse(magic, f + more) == Parsed([f] + Parse(magic, more).frames, Parse(magic, more).rest)
    ensures Clean(magic, f + more) <==> Clean(magic, more)
  {
    hide ValidMsgHdr, PayloadLen;
    HeaderOnly(magic, f, more);
    assert (f + more)[..|f|] == f && (f + more)[|f|..] == more;
  }

  lemma {:induction false} CleanPrefix(magic: nat, s: seq<Byte>, t: seq<Byte>)
    requires Clean(magic, s + t)
    ensures Clean(magic, s)
    decreases |s|
  {
    hide ValidMsgHdr, PayloadLen;
    if |s| >= MSG_HDR_LEN {
      HeaderOnly(magic, s, t);
      if |s| >= MSG_HDR_LEN + PayloadLen(s) {
        var n := MSG_HDR_LEN + PayloadLen(s);
        assert (s + t)[n..] == s[n..] + t;
        CleanPrefix(magic, s[n..], t);
      }
    }
  }

  // ----- The receive buffer -----

  class Link {
    const magic: nat
    /** The bytes of the message that is being received. */
    var p: seq<Byte>
    /** How many bytes its payload still lacks, or 0 while its header is incomplete. */
    var len: nat
    /** The messages handed off so far, in order. */
    var handed: seq<seq<Byte>>

    predicate Valid()
      reads this
    {
      if len == 0 then |p| < MSG_HDR_LEN
      else |p| >= MSG_HDR_LEN && ValidMsgHdr(magic, p) && |p| + len == MSG_HDR_LEN + PayloadLen(p)
    }

    constructor (magic: nat)
      ensures Valid() && this.magic == magic && p == [] && handed == []
    {
      this.magic := magic;
      p, len, handed := [], 0, [];
    }

    /** One chunk has the effect of parsing what was buffered and the chunk in one go. */
    method UnpackNodeBuf(chunk: seq<Byte>)
      requires Valid()
      modifies this
      ensures Valid()
      ensures handed == old(handed) + Parse(magic, old(p) + chunk).frames
      ensures p == Parse(magic, old(p) + chunk).rest
      decreases |chunk|
    {
      hide Parse, ValidMsgHdr, PayloadLen;
      var buf := chunk;
      Unfinished(magic, p);
      if |buf| == 0 {
        assert p + buf == p;
        return;
      }
      if len == 0 {
        var length := MSG_HDR_LEN - |p|;
        if length > |buf| {
          Unfinished(magic, p + buf);
          p := p + buf;
          return;
        }
        HeaderTaken(p, buf, length);
        p := p + buf[..length];
        buf := buf[length..];
        if !ValidMsgHdr(magic, p) {
          BadHeader(magic, p, buf);
          p, len := [], 0;
          return;
        }
        len := PayloadLen(p);
      }
      var msgLen := len;
      if |buf| == msgLen {
        Completed(magic, p, buf, msgLen);
        WholeChunk(magic, buf);
        handed := handed + [p + buf];
        p, len := [], 0;
      } else if |buf| < msgLen {
        StillMissing(magic, p, buf, msgLen);
        p := p + buf;
        len := msgLen - |buf|;
      } else {
        Completed(magic, p, buf, msgLen);
        Associative(handed, [p + buf[..msgLen]], Parse(magic, buf[msgLen..]).frames);
        handed := handed + [p + buf[..msgLen]];
        p, len := [], 0;
        assert [] + buf[msgLen..] == buf[msgLen..];
        UnpackNodeBuf(buf[msgLen..]);
      }
    }

    /** However a stream of messages is cut, the messages are handed off in order and the unfinished one is kept. */
    method Receive(chunks: seq<seq<Byte>>, ghost fs: seq<seq<Byte>>, ghost tail: seq<Byte>)
      requires Valid() && p == []
      requires forall k :: 0 <= k < |fs| ==> IsFrame(magic, fs[k])
      requires IsPartial(magic, tail)
      requires Concat(chunks) == Concat(fs) + tail
      modifies this
      ensures Valid()
      ensures handed == old(handed) + fs
      ensures p == tail
    {
      hide *;
      ParseFrames(magic, fs, tail);
      ghost var done: seq<Byte> := [];
      NothingReceived(magic, chunks, handed);
      for i := 0 to |chunks|
        invariant Valid()
        invariant done + Concat(chunks[i..]) == Concat(chunks)
        invariant handed == old(handed) + Parse(magic, done).frames && p == Parse(magic, done).rest
      {
        NextChunk(magic, chunks, i, done, old(handed));
        UnpackNodeBuf(chunks[i]);
        done := done + chunks[i];
      }
      AllReceived(chunks, done);
    }

    /**
     Messages as a sender writes them and the beginning of another one, cut in any way: they are
     handed off in order, and the beginning is kept.
     */
    method ReceiveMessages(chunks: seq<seq<Byte>>, ghost ms: seq<Message>, ghost next: Message, ghost cut: nat)
      requires Valid() && p == [] && magic < TWO_TO_32
      requires MessageFormed(next) && forall k :: 0 <= k < |ms| ==> MessageFormed(ms[k])
      requires cut < |WriteMessage(magic, next)|
      requires Concat(chunks) == Concat(Written(magic, ms)) + WriteMessage(magic, next)[..cut]
      modifies this
      ensures Valid()
      ensures handed == old(handed) + Written(magic, ms)
      ensures p == WriteMessage(magic, next)[..cut]
    {
      hide *;
      BeginningIsPartial(magic, next, cut);
      forall k | 0 <= k < |ms|
        ensures IsFrame(magic, Written(magic, ms)[k])
      {
        WrittenFrames(magic, ms, k);
      }
      Receive(chunks, Written(magic, ms), WriteMessage(magic, next)[..cut]);
    }
  }

  lemma NothingReceived(magic: nat, chunks: seq<seq<Byte>>, handed: seq<seq<Byte>>)
    ensures Parse(magic, []) == Parsed([], []) && handed + [] == handed
    ensures [] + Concat(chunks[0..]) == Concat(chunks)
  {
    assert chunks[0..] == chunks;
  }

  lemma AllReceived(chunks: seq<seq<Byte>>, done: seq<Byte>)
    requires done + Concat(chunks[|chunks|..]) == Concat(chunks)
    ensures done == Concat(chunks)
  {
  }

  /** What the next chunk adds to what was parsed before it. */
  lemma NextChunk(magic: nat, chunks: seq<seq<Byte>>, i: nat, done: seq<Byte>, handed: seq<seq<Byte>>)
    requires i < |chunks|
    requires done + Concat(chunks[i..]) == Concat(chunks)
    requires Clean(magic, Concat(chunks))
    ensures (done + chunks[i]) + Concat(chunks[i + 1..]) == Concat(chunks)
    ensures var first, second := Parse(magic, done), Parse(magic, Parse(magic, done).rest + chunks[i]);
            && Parse(magic, done + chunks[i]) == Parsed(first.frames + second.frames, second.rest)
            && handed + (first.frames + second.frames) == (handed + first.frames) + second.frames
  {
    hide Parse, Clean;
    assert chunks[i..] == [chunks[i]] + chunks[i + 1..];
    Associative(done, chunks[i], Concat(chunks[i + 1..]));
    CleanPrefix(magic, done, Concat(chunks[i..]));
    ParseSplit(magic, done, chunks[i]);
    Associative(handed, Parse(magic, done).frames, Parse(magic, Parse(magic, done).rest + chunks[i]).frames);
  }

  lemma Unfinished(magic: nat, p: seq<Byte>)
    requires IsPartial(magic, p)
    ensures Parse(magic, p) == Parsed([], p) && Clean(magic, p)
  {
  }

  /** The buffered part of a message and a chunk that completes it. */
  lemma Completed(magic: nat, p: seq<Byte>, buf: seq<Byte>, missing: nat)
    requires |p| >= MSG_HDR_LEN && ValidMsgHdr(magic, p)
    requires |p| + missing == MSG_HDR_LEN + PayloadLen(p) && missing <= |buf|
    ensures var more := Parse(magic, buf[missing..]);
            Parse(magic, p + buf) == Parsed([p + buf[..missing]] + more.frames, more.rest)
  {
    hide ValidMsgHdr, PayloadLen, Parse;
    HeaderOnly(magic, p, buf[..missing]);
    ParseOne(magic, p + buf[..missing], buf[missing..]);
    assert p + buf == p + buf[..missing] + buf[missing..];
  }

  lemma StillMissing(magic: nat, p: seq<Byte>, buf: seq<Byte>, missing: nat)
    requires |p| >= MSG_HDR_LEN && ValidMsgHdr(magic, p)
    requires |p| + missing == MSG_HDR_LEN + PayloadLen(p) && |buf| < missing
    ensures Parse(magic, p + buf) == Parsed([], p + buf)
    ensures ValidMsgHdr(magic, p + buf) && PayloadLen(p + buf) == PayloadLen(p)
  {
    hide ValidMsgHdr, PayloadLen, Parse;
    HeaderOnly(magic, p, buf);
    Unfinished(magic, p + buf);
  }

  lemma BadHeader(magic: nat, p: seq<Byte>, buf: seq<Byte>)
    requires |p| >= MSG_HDR_LEN && !ValidMsgHdr(magic, p)
    ensures Parse(magic, p + buf) == Parsed([], [])
  {
    HeaderOnly(magic, p, buf);
  }

  /** After a header with another magic number everything received with it is lost, good messages too. */
  lemma OtherMagicDropsAll(magic: nat, magic': nat, m: Message, rest: seq<Byte>)
    requires MessageFormed(m) && magic' < TWO_TO_32 && magic' != magic
    ensures Parse(magic, WriteMessage(magic', m) + rest) == Parsed([], [])
  {
    hide Parse, ValidMsgHdr, PayloadLen, WriteHeader;
    var header := WriteHeader(magic', m.cmd, |m.payload|, m.checksum);
    HeaderRead(magic, magic', m.cmd, |m.payload|, m.checksum, []);
    assert header + [] == header;
    BadHeader(magic, header, m.payload + rest);
    Associative(header, m.payload, rest);
  }

  lemma HeaderTaken(p: seq<Byte>, buf: seq<Byte>, n: nat)
    requires n <= |buf|
    ensures p + buf == (p + buf[..n]) + buf[n..]
  {
  }

  lemma WholeChunk(magic: nat, buf: seq<Byte>)
    ensures buf[..|buf|] == buf && buf[|buf|..] == []
    ensures Parse(magic, []) == Parsed([], [])
  {
  }
}

/** Fixed-width numbers, variable-length numbers, byte strings and lists on a byte stream. */
module Serialization {
  import opened Types
  import opened Compact

  /** What reading gives: a value and what is left of the stream, or an error. */
  datatype Read<+T> = Fail | Got(value: T, rest: seq<Byte>)
  {
    predicate IsFailure() {
      Fail?
    }

    function PropagateFailure<U>(): Read<U>
      requires IsFailure()
    {
      Fail
    }

    function Extract(): (T, seq<Byte>)
      requires !IsFailure()
    {
      (value, rest)
    }
  }

  // ----- Fixed-width numbers -----

  /** n bytes, the least significant first. */
  function LittleEndian(x: nat, n: nat): (r: seq<Byte>)
    ensures |r| == n
    decreases n
  {
    if n == 0 then [] else [x % 256] + LittleEndian(x / 256, n - 1)
  }

  function FromLittleEndian(s: seq<Byte>): nat {
    if s == [] then 0 else (s[0] as int) + 256 * FromLittleEndian(s[1..])
  }

  lemma {:induction false} LittleEndianRound(x: nat, n: nat)
    requires x < Pow256(n)
    ensures FromLittleEndian(LittleEndian(x, n)) == x
    decreases n
  {
    if n > 0 {
      LittleEndianRound(x / 256, n - 1);
      assert LittleEndian(x, n)[1..] == LittleEndian(x / 256, n - 1);
    }
  }

  /** Byte k is what is left after the number is shifted by k bytes. */
  lemma {:induction false} LittleEndianAt(x: nat, n: nat, k: nat)
    requires k < n
    ensures LittleEndian(x, n)[k] as int == ShiftRight(x, k) % 256
    decreases n
  {
    if k > 0 {
      LittleEndianAt(x / 256, n - 1, k - 1);
      ShiftedFirst(x, k - 1);
    }
  }

  lemma {:induction false} ShiftedFirst(x: nat, k: nat)
    ensures ShiftRight(x / 256, k) == ShiftRight(x, k + 1)
  {
    if k > 0 {
      ShiftedFirst(x, k - 1);
    }
  }

  /** The bytes of a 16-bit and a 32-bit number. */
  lemma UintBytes(x: nat)
    ensures LittleEndian(x, 2) == [x % 0x100, x / 0x100 % 0x100]
    ensures LittleEndian(x, 4) == [x % 0x100, x / 0x100 % 0x100, x / 0x1_0000 % 0x100, x / 0x100_0000 % 0x100]
  {
    hide LittleEndian;
    Shifts(x);
    LittleEndianAt(x, 2, 0);
    LittleEndianAt(x, 2, 1);
    LittleEndianAt(x, 4, 0);
    LittleEndianAt(x, 4, 1);
    LittleEndianAt(x, 4, 2);
    LittleEndianAt(x, 4, 3);
  }

  lemma Shifts(x: nat)
    ensures ShiftRight(x, 0) == x && ShiftRight(x, 1) == x / 0x100
    ensures ShiftRight(x, 2) == x / 0x1_0000 && ShiftRight(x, 3) == x / 0x100_0000
  {
    assert ShiftRight(x, 1) == x / 256;
    assert ShiftRight(x, 2) == x / 256 / 256;
    assert ShiftRight(x, 3) == x / 256 / 256 / 256;
  }

  /** The four bytes make up the number. */
  lemma FourDigits(x: nat)
    requires x < 0x1_0000_0000
    ensures x == x % 0x100 + 0x100 * (x / 0x100 % 0x100) + 0x1_0000 * (x / 0x1_0000 % 0x100) + 0x100_0000 * (x / 0x100_0000 % 0x100)
  {
    var a := x / 0x100;
    var b := a / 0x100;
    var c := b / 0x100;
    Digit(x);
    Digit(a);
    Digit(b);
    assert x / 0x1_0000 == b && x / 0x100_0000 == c;
    assert c < 0x100;
  }

  lemma Digit(x: nat)
    ensures x == 0x100 * (x / 0x100) + x % 0x100
  {
  }

  function Zeros(n: nat): (r: seq<Byte>)
    ensures |r| == n
  {
    seq(n, i => 0)
  }

  /** One read of n bytes. At the end of the stream it fails, and what a shorter stream lacks stays zero. */
  function ReadBytes(s: seq<Byte>, n: nat): Read<seq<Byte>> {
    if s == [] then Fail
    else if n <= |s| then Got(s[..n], s[n..])
    else Got(s + Zeros(n - |s|), [])
  }

  function ReadUint(s: seq<Byte>, n: nat): Read<nat> {
    var b :- ReadBytes(s, n);
    Got(FromLittleEndian(b.0), b.1)
  }

  lemma ReadBack(b: seq<Byte>, rest: seq<Byte>)
    requires b + rest != []
    ensures ReadBytes(b + rest, |b|) == Got(b, rest)
  {
    assert (b + rest)[..|b|] == b && (b + rest)[|b|..] == rest;
  }

  lemma UintRound(x: nat, n: nat, rest: seq<Byte>)
    requires n > 0 && x < Pow256(n)
    ensures ReadUint(LittleEndian(x, n) + rest, n) == Got(x, rest)
  {
    hide ReadBytes;
    ReadBack(LittleEndian(x, n), rest);
    LittleEndianRound(x, n);
  }

  lemma Widths()
    ensures Pow256(1) == 0x100 && Pow256(2) == 0x1_0000 && Pow256(4) == 0x1_0000_0000 && Pow256(8) == 0x1_0000_0000_0000_0000
  {
  }

  // ----- Variable-length numbers -----

  function WriteVarUint(value: nat): seq<Byte> {
    if value < 0xFD then [value]
    else if value <= 0xFFFF then [0xFD] + LittleEndian(value, 2)
    else if value <= 0xFFFF_FFFF then [0xFE] + LittleEndian(value, 4)
    else [0xFF] + LittleEndian(value, 8)
  }

  /** The shortest of the four forms that can hold the number, in 1, 3, 5 or 9 bytes. */
  lemma VarUintBytes(value: nat)
    requires value < 0x1_0000_0000_0000_0000
    ensures var s := WriteVarUint(value);
            && (value < 0xFD ==> s == [value])
            && (0xFD <= value < 0x1_0000 ==> s == [0xFD, value % 0x100, value / 0x100])
            && (0x1_0000 <= value < 0x1_0000_0000 ==>
                  s == [0xFE, value % 0x100, value / 0x100 % 0x100, value / 0x1_0000 % 0x100, value / 0x100_0000])
            && (0x1_0000_0000 <= value ==>
                  |s| == 9 && s[0] == 0xFF && FromLittleEndian(s[1..]) == value && s[1] as int == value % 0x100)
  {
    hide LittleEndian, FromLittleEndian;
    UintBytes(value);
    if value >= 0x1_0000_0000 {
      Widths();
      LittleEndianRound(value, 8);
      LittleEndianAt(value, 8, 0);
      Shifts(value);
      assert WriteVarUint(value)[1..] == LittleEndian(value, 8);
    }
  }

  function ReadVarUint(s: seq<Byte>): Read<nat> {
    var first :- ReadBytes(s, 1);
    if first.0[0] == 0xFD then ReadUint(first.1, 2)
    else if first.0[0] == 0xFE then ReadUint(first.1, 4)
    else if first.0[0] == 0xFF then ReadUint(first.1, 8)
    else Got(first.0[0], first.1)
  }

  lemma VarUintRound(value: nat, rest: seq<Byte>)
    requires value < 0x1_0000_0000_0000_0000
    ensures ReadVarUint(WriteVarUint(value) + rest) == Got(value, rest)
  {
    hide ReadUint, LittleEndian;
    Widths();
    if value < 0xFD {
      ReadBack([value], rest);
    } else if value <= 0xFFFF {
      Marked(0xFD, LittleEndian(value, 2), rest);
      UintRound(value, 2, rest);
    } else if value <= 0xFFFF_FFFF {
      Marked(0xFE, LittleEndian(value, 4), rest);
      UintRound(value, 4, rest);
    } else {
      Marked(0xFF, LittleEndian(value, 8), rest);
      UintRound(value, 8, rest);
    }
  }

  lemma Marked(mark: Byte, b: seq<Byte>, rest: seq<Byte>)
    ensures ReadBytes([mark] + b + rest, 1) == Got([mark], b + rest)
  {
    assert [mark] + b + rest == [mark] + (b + rest);
    ReadBack([mark], b + rest);
  }

  // ----- Byte strings -----

  function WriteVarBytes(value: seq<Byte>): seq<Byte> {
    WriteVarUint(|value|) + value
  }

  function ReadVarBytes(s: seq<Byte>): Read<seq<Byte>> {
    var n :- ReadVarUint(s);
    ReadBytes(n.1, n.0)
  }

  predicate Short<T>(s: seq<T>) {
    |s| < 0x8000_0000_0000_0000
  }

  /** Only an empty string at the very end of the stream is not read back. */
  lemma VarBytesRound(value: seq<Byte>, rest: seq<Byte>)
    requires Short(value)
    ensures ReadVarBytes(WriteVarBytes(value) + rest) == if value + rest == [] then Fail else Got(value, rest)
  {
    hide ReadVarUint, WriteVarUint;
    VarUintRound(|value|, value + rest);
    assert WriteVarBytes(value) + rest == WriteVarUint(|value|) + (value + rest);
    if value + rest != [] {
      ReadBack(value, rest);
    }
  }

  // ----- Regrouping -----

  lemma RegroupThree(a: seq<Byte>, b: seq<Byte>, c: seq<Byte>, d: seq<Byte>)
    ensures a + (b + c) + d == a + (b + (c + d))
  {
    Associative(a, b + c, d);
    Associative(b, c, d);
  }

  // ----- Lists -----

  function EncodeAll<T>(enc: T -> seq<Byte>, l: seq<T>): seq<Byte> {
    if l == [] then [] else EncodeAll(enc, l[..|l| - 1]) + enc(l[|l| - 1])
  }

  function DecodeAll<T>(dec: seq<Byte> -> Read<T>, s: seq<Byte>, n: nat): Read<seq<T>> {
    if n == 0 then Got([], s)
    else
      var before :- DecodeAll(dec, s, n - 1);
      var last :- dec(before.1);
      Got(before.0 + [last.0], last.1)
  }

  function EncodeList<T>(enc: T -> seq<Byte>, l: seq<T>): seq<Byte> {
    WriteVarUint(|l|) + EncodeAll(enc, l)
  }

  function DecodeList<T>(dec: seq<Byte> -> Read<T>, s: seq<Byte>): Read<seq<T>> {
    var n :- ReadVarUint(s);
    DecodeAll(dec, n.1, n.0)
  }

  /** The element is read back from its encoding, whatever follows it; also if nothing does, when last is set. */
  ghost predicate RoundTrips<T>(enc: T -> seq<Byte>, dec: seq<Byte> -> Read<T>, x: T, last: bool) {
    forall rest :: last || rest != [] ==> dec(enc(x) + rest) == Got(x, rest)
  }

  lemma {:induction false} AllRound<T>(enc: T -> seq<Byte>, dec: seq<Byte> -> Read<T>, l: seq<T>, rest: seq<Byte>, last: bool)
    requires forall k :: 0 <= k < |l| ==> RoundTrips(enc, dec, l[k], last)
    requires last || rest != []
    ensures DecodeAll(dec, EncodeAll(enc, l) + rest, |l|) == Got(l, rest)
  {
    if l == [] {
      assert EncodeAll(enc, l) + rest == rest;
    } else {
      hide RoundTrips;
      var before, x := l[..|l| - 1], l[|l| - 1];
      AllRound(enc, dec, before, enc(x) + rest, last);
      Associative(EncodeAll(enc, before), enc(x), rest);
      OneRound(enc, dec, x, rest, last);
      assert before + [x] == l;
    }
  }

  lemma OneRound<T>(enc: T -> seq<Byte>, dec: seq<Byte> -> Read<T>, x: T, rest: seq<Byte>, last: bool)
    requires RoundTrips(enc, dec, x, last)
    requires last || rest != []
    ensures dec(enc(x) + rest) == Got(x, rest)
  {
  }

  lemma ListRound<T>(enc: T -> seq<Byte>, dec: seq<Byte> -> Read<T>, l: seq<T>, rest: seq<Byte>, last: bool)
    requires Short(l)
    requires forall k :: 0 <= k < |l| ==> RoundTrips(enc, dec, l[k], last)
    requires last || rest != []
    ensures DecodeList(dec, EncodeList(enc, l) + rest) == Got(l, rest)
  {
    hide ReadVarUint, WriteVarUint, DecodeAll, EncodeAll, RoundTrips;
    AllRound(enc, dec, l, rest, last);
    VarUintRound(|l|, EncodeAll(enc, l) + rest);
    assert EncodeList(enc, l) + rest == WriteVarUint(|l|) + (EncodeAll(enc, l) + rest);
  }

  method WriteList<T>(enc: T -> seq<Byte>, l: seq<T>) returns (w: seq<Byte>)
    ensures w == EncodeList(enc, l)
  {
    hide WriteVarUint;
    w := WriteVarUint(|l|);
    for i := 0 to |l|
      invariant w == WriteVarUint(|l|) + EncodeAll(enc, l[..i])
    {
      assert l[..i + 1][..i] == l[..i];
      w := w + enc(l[i]);
    }
    assert l[..|l|] == l;
  }

  lemma {:induction false} FailStays<T>(dec: seq<Byte> -> Read<T>, s: seq<Byte>, i: nat, n: nat)
    requires i <= n && DecodeAll(dec, s, i).Fail?
    ensures DecodeAll(dec, s, n).Fail?
  {
    if i < n {
      FailStays(dec, s, i, n - 1);
    }
  }

  method ReadList<T>(dec: seq<Byte> -> Read<T>, s: seq<Byte>) returns (r: Read<seq<T>>)
    ensures r == DecodeList(dec, s)
  {
    hide ReadVarUint;
    var n := ReadVarUint(s);
    if n.Fail? {
      return Fail;
    }
    var l, rest := [], n.rest;
    for i := 0 to n.value
      invariant DecodeAll(dec, n.rest, i) == Got(l, rest)
    {
      var x := dec(rest);
      if x.Fail? {
        FailStays(dec, n.rest, i + 1, n.value);
        return Fail;
      }
      l, rest := l + [x.value], x.rest;
    }
    return Got(l, rest);
  }

  // ----- Lists of 16-bit numbers -----

  function Uint16Bytes(x: int): seq<Byte> {
    [x % 256, x / 256 % 256]
  }

  function Uint16From(s: seq<Byte>): Read<int> {
    if |s| < 2 then Fail else Got((s[0] as int) + 256 * (s[1] as int), s[2..])
  }

  method ToByteArray(source: seq<int>) returns (dst: array<Byte>)
    ensures dst[..] == EncodeAll(Uint16Bytes, source)
  {
    dst := new Byte[2 * |source|](i => 0);
    for i := 0 to |source|
      invariant dst[..2 * i] == EncodeAll(Uint16Bytes, source[..i])
    {
      assert source[..i + 1][..i] == source[..i];
      dst[2 * i] := source[i] % 256;
      dst[2 * i + 1] := source[i] / 256 % 256;
      assert dst[..2 * (i + 1)] == dst[..2 * i] + Uint16Bytes(source[i]);
    }
    assert source[..|source|] == source;
    assert dst[..] == dst[..2 * |source|];
  }

  /** A source of odd length is an error. */
  method GetUint16Array(source: seq<Byte>) returns (ok: bool, dst: seq<int>)
    ensures ok <==> |source| % 2 == 0
    ensures ok ==> DecodeAll(Uint16From, source, |source| / 2) == Got(dst, [])
  {
    if |source| % 2 != 0 {
      return false, [];
    }
    dst := [];
    for i := 0 to |source| / 2
      invariant DecodeAll(Uint16From, source, i) == Got(dst, source[2 * i..])
    {
      assert source[2 * i..][2..] == source[2 * (i + 1)..];
      dst := dst + [(source[2 * i] as int) + (source[2 * i + 1] as int) * 256];
    }
    ok := true;
  }

  /** Numbers that fit in 16 bits come back from their bytes. */
  lemma Uint16Round(l: seq<int>)
    requires forall k :: 0 <= k < |l| ==> 0 <= l[k] < 0x1_0000
    ensures DecodeAll(Uint16From, EncodeAll(Uint16Bytes, l), |l|) == Got(l, [])
  {
    hide DecodeAll, EncodeAll, Uint16From, Uint16Bytes;
    forall k | 0 <= k < |l|
      ensures RoundTrips(Uint16Bytes, Uint16From, l[k], true)
    {
      forall rest: seq<Byte>
        ensures Uint16From(Uint16Bytes(l[k]) + rest) == Got(l[k], rest)
      {
        OneUint16Round(l[k], rest);
      }
    }
    AllRound(Uint16Bytes, Uint16From, l, [], true);
    assert EncodeAll(Uint16Bytes, l) + [] == EncodeAll(Uint16Bytes, l);
  }

  lemma OneUint16Round(x: int, rest: seq<Byte>)
    requires 0 <= x < 0x1_0000
    ensures Uint16From(Uint16Bytes(x) + rest) == Got(x, rest)
  {
    assert (Uint16Bytes(x) + rest)[2..] == rest;
    assert x / 256 % 256 == x / 256;
  }
}

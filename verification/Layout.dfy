/** The wire formats by position: which bytes of an encoding hold which field. */
module Layout {
  import opened Types
  import opened Ledger
  import opened Compact
  import Difficulty
  import opened Serialization
  import opened TransactionCodec
  import opened BlockCodec
  import opened Genesis

  // ----- Lists of parts of equal size -----

  lemma {:induction false} PartAt<T>(enc: T -> seq<Byte>, l: seq<T>, size: nat, k: nat)
    requires k < |l| && forall i :: 0 <= i < |l| ==> |enc(l[i])| == size
    ensures |EncodeAll(enc, l)| == size * |l| && 0 <= size * k <= size * k + size <= size * |l|
    ensures EncodeAll(enc, l)[size * k..size * k + size] == enc(l[k])
    decreases |l|
  {
    var n := |l| - 1;
    var before := l[..n];
    assert EncodeAll(enc, l) == EncodeAll(enc, before) + enc(l[n]);
    if n == 0 {
      assert before == [] && EncodeAll(enc, before) == [];
    } else {
      PartAt(enc, before, size, if k < n then k else 0);
      Steps(size, k, n);
      if k < n {
        assert EncodeAll(enc, l)[size * k..size * k + size] == EncodeAll(enc, before)[size * k..size * k + size];
      }
    }
  }

  lemma Steps(size: nat, k: nat, n: nat)
    requires k <= n
    ensures size * (n + 1) == size * n + size && size * k <= size * n
    ensures k < n ==> size * k + size <= size * n
  {
    NextStep(size, n);
    Difficulty.ProductBelow(size, k, n);
    if k < n {
      NextStep(size, k);
      Difficulty.ProductBelow(size, k + 1, n);
    }
  }

  lemma NextStep(size: nat, n: nat)
    ensures size * (n + 1) == size * n + size
  {
  }

  lemma {:induction false} PartsLength<T>(enc: T -> seq<Byte>, l: seq<T>, size: nat)
    requires forall i :: 0 <= i < |l| ==> |enc(l[i])| == size
    ensures |EncodeAll(enc, l)| == size * |l|
  {
    if l != [] {
      PartAt(enc, l, size, 0);
    }
  }

  /** A list of 16-bit numbers: two bytes each, the low one first. */
  lemma Uint16ListBytes(l: seq<int>, k: nat)
    requires k < |l| && 0 <= l[k] < 0x1_0000
    ensures |EncodeAll(Uint16Bytes, l)| == 2 * |l|
    ensures var e := EncodeAll(Uint16Bytes, l); (e[2 * k] as int) + 0x100 * (e[2 * k + 1] as int) == l[k]
  {
    hide EncodeAll;
    PartAt(Uint16Bytes, l, 2, k);
    var part := EncodeAll(Uint16Bytes, l)[2 * k..2 * k + 2];
    assert part[0] == EncodeAll(Uint16Bytes, l)[2 * k] && part[1] == EncodeAll(Uint16Bytes, l)[2 * k + 1];
  }

  // ----- Parts of a transaction -----

  /** 32 bytes of transaction hash, 2 of output number, 4 of sequence number. */
  lemma InputBytes(i: TxInput)
    requires InputFormed(i)
    ensures var e := EncodeInput(i);
            && |e| == 38 && e[..32] == LittleEndian(i.referTxID, 32)
            && e[32..34] == LittleEndian(i.referIndex, 2) && e[34..38] == LittleEndian(i.sequence, 4)
  {
    hide LittleEndian, Pow256;
  }

  /** 32 bytes of asset, 8 of value in two's complement, 20 of owner. */
  lemma OutputBytes(o: TxOutput)
    requires OutputFormed(o)
    ensures var e := EncodeOutput(o);
            && |e| == 60 && e[..32] == LittleEndian(o.assetID, 32)
            && e[32..40] == LittleEndian(if o.value < 0 then o.value + 0x1_0000_0000_0000_0000 else o.value, 8)
            && e[40..60] == LittleEndian(o.programHash, 20)
  {
    hide LittleEndian, Pow256;
  }

  /** The parameter comes before the code, each after its length. */
  lemma ProgramBytes(p: Program)
    requires |p.parameter| < 0xFD && |p.code| < 0xFD
    ensures EncodeProgram(p) == [|p.parameter|] + p.parameter + [|p.code|] + p.code
  {
  }

  /** Four usages have data. Of any other one only the usage is written. */
  lemma AttributeBytes(a: TxAttribute)
    requires |a.data| < 0xFD
    ensures EncodeAttribute(a) == if a.usage in {0x00, 0x20, 0x81, 0x90} then [a.usage, |a.data|] + a.data else [a.usage]
  {
  }

  /** The numbers of the transaction types, and the order of the fields of their payloads. */
  lemma PayloadBytes(t: Transaction)
    ensures EncodeUnsigned(t)[1] == t.payloadVersion
    ensures EncodeUnsigned(t)[0] as int ==
            match t.payload { case CoinBase(_) => 0 case RegisterAsset(_, _, _) => 1 case TransferAsset => 2 case Record(_, _) => 3 case Deploy(_) => 4 }
    ensures t.payload.CoinBase? && |t.payload.coinbaseData| < 0xFD ==>
              var d := t.payload.coinbaseData; EncodePayload(t.payload) == [|d|] + d
    ensures t.payload.Record? && |t.payload.recordType| < 0xFD && |t.payload.recordData| < 0xFD ==>
              var k, d := t.payload.recordType, t.payload.recordData;
              EncodePayload(t.payload) == [|k|] + k + [|d|] + d
    ensures t.payload.RegisterAsset? && |t.payload.asset.name| < 0xFD && |t.payload.asset.description| < 0xFD ==>
              var a := t.payload.asset; var e := EncodePayload(t.payload);
              var head := [|a.name|] + a.name + [|a.description|] + a.description + [a.precision, a.assetType, a.recordType];
              && |e| == |head| + 28 && e[..|head|] == head
              && e[|head|..|head| + 8] == WriteInt64(t.payload.amount)
              && e[|head| + 8..] == WriteProgramHash(t.payload.controller)
  {
    hide LittleEndian, EncodeLists, WriteInt64, WriteProgramHash;
  }

  // ----- Transactions -----

  ghost predicate ShortTransfer(t: Transaction) {
    && t.payload == TransferAsset && t.attributes == [] && |t.inputs| < 0xFD && |t.outputs| < 0xFD
    && (forall i :: 0 <= i < |t.inputs| ==> InputFormed(t.inputs[i]))
    && (forall i :: 0 <= i < |t.outputs| ==> OutputFormed(t.outputs[i]))
  }

  /**
   What the hash of a transfer covers: type, version, the number of attributes, the number of inputs,
   the inputs, the number of outputs, the outputs, the lock time.
   */
  lemma TransferBytes(t: Transaction)
    requires ShortTransfer(t)
    ensures var e, n, m := EncodeUnsigned(t), |t.inputs|, |t.outputs|;
            && |e| == 4 + 38 * n + 1 + 60 * m + 4
            && e[..4] == [2, t.payloadVersion, 0, n]
            && e[4..4 + 38 * n] == EncodeAll(EncodeInput, t.inputs)
            && e[4 + 38 * n] as int == m
            && e[5 + 38 * n..5 + 38 * n + 60 * m] == EncodeAll(EncodeOutput, t.outputs)
            && e[5 + 38 * n + 60 * m..] == LittleEndian(t.lockTime, 4)
  {
    hide LittleEndian, EncodeInput, EncodeOutput, EncodeAll, InputFormed, OutputFormed;
    InputsLength(t.inputs);
    OutputsLength(t.outputs);
    NoAttributes();
    var ins, outs, time := EncodeAll(EncodeInput, t.inputs), EncodeAll(EncodeOutput, t.outputs), LittleEndian(t.lockTime, 4);
    var e: seq<Byte> := [2, t.payloadVersion] + ([] + ([0] + (([|t.inputs|] + ins) + (([|t.outputs|] + outs) + time))));
    assert EncodeUnsigned(t) == e;
    FiveParts([2, t.payloadVersion, 0, |t.inputs|], ins, [|t.outputs|], outs, time, e);
  }

  lemma FiveParts(a: seq<Byte>, b: seq<Byte>, c: seq<Byte>, d: seq<Byte>, f: seq<Byte>, e: seq<Byte>)
    requires e == a + b + c + d + f && |c| == 1
    ensures e[..|a|] == a && e[|a|..|a| + |b|] == b && e[|a| + |b|] == c[0]
    ensures e[|a| + |b| + 1..|a| + |b| + 1 + |d|] == d && e[|a| + |b| + 1 + |d|..] == f
  {
  }

  lemma NoAttributes()
    ensures EncodeList(EncodeAttribute, []) == [0]
  {
  }

  lemma InputsLength(l: seq<TxInput>)
    requires forall i :: 0 <= i < |l| ==> InputFormed(l[i])
    ensures |EncodeAll(EncodeInput, l)| == 38 * |l|
  {
    hide EncodeAll, EncodeInput, InputFormed, LittleEndian;
    forall i | 0 <= i < |l|
      ensures |EncodeInput(l[i])| == 38
    {
      InputBytes(l[i]);
    }
    PartsLength(EncodeInput, l, 38);
  }

  lemma OutputsLength(l: seq<TxOutput>)
    ensures |EncodeAll(EncodeOutput, l)| == 60 * |l|
  {
    hide EncodeAll;
    PartsLength(EncodeOutput, l, 60);
  }

  /** The bytes that input k of a transfer is at. */
  lemma TransferInput(t: Transaction, k: nat)
    requires ShortTransfer(t) && k < |t.inputs|
    ensures |EncodeUnsigned(t)| == 9 + 38 * |t.inputs| + 60 * |t.outputs|
    ensures EncodeUnsigned(t)[4 + 38 * k..42 + 38 * k] == EncodeInput(t.inputs[k])
  {
    hide *;
    TransferBytes(t);
    InputsOf(t);
    InputsAt(t.inputs, k);
    Slice(EncodeUnsigned(t), 4, 4 + 38 * |t.inputs|, 38 * k, 38 * k + 38);
  }

  /** The bytes that output k of a transfer is at. */
  lemma TransferOutput(t: Transaction, k: nat)
    requires ShortTransfer(t) && k < |t.outputs|
    ensures |EncodeUnsigned(t)| == 9 + 38 * |t.inputs| + 60 * |t.outputs|
    ensures var at := 5 + 38 * |t.inputs| + 60 * k;
            EncodeUnsigned(t)[at..at + 60] == EncodeOutput(t.outputs[k])
  {
    hide *;
    TransferBytes(t);
    OutputsAt(t.outputs, k);
    var at := 5 + 38 * |t.inputs|;
    Slice(EncodeUnsigned(t), at, at + 60 * |t.outputs|, 60 * k, 60 * k + 60);
  }

  lemma InputsOf(t: Transaction)
    requires ShortTransfer(t)
    ensures forall i :: 0 <= i < |t.inputs| ==> InputFormed(t.inputs[i])
  {
    hide InputFormed, OutputFormed;
  }

  lemma OutputsAt(l: seq<TxOutput>, k: nat)
    requires k < |l|
    ensures |EncodeAll(EncodeOutput, l)| == 60 * |l|
    ensures EncodeAll(EncodeOutput, l)[60 * k..60 * k + 60] == EncodeOutput(l[k])
  {
    hide EncodeAll;
    PartAt(EncodeOutput, l, 60, k);
  }

  lemma InputsAt(l: seq<TxInput>, k: nat)
    requires k < |l| && forall i :: 0 <= i < |l| ==> InputFormed(l[i])
    ensures |EncodeAll(EncodeInput, l)| == 38 * |l|
    ensures EncodeAll(EncodeInput, l)[38 * k..38 * k + 38] == EncodeInput(l[k])
  {
    hide EncodeAll, EncodeInput, InputFormed, LittleEndian;
    forall i | 0 <= i < |l|
      ensures |EncodeInput(l[i])| == 38
    {
      InputBytes(l[i]);
    }
    PartAt(EncodeInput, l, 38, k);
  }

  lemma Slice(e: seq<Byte>, a: nat, b: nat, i: nat, j: nat)
    requires a <= b <= |e| && i <= j <= b - a
    ensures e[a..b][i..j] == e[a + i..a + j]
  {
    var x, y := e[a..b][i..j], e[a + i..a + j];
    assert |x| == |y|;
    forall k | 0 <= k < |x|
      ensures x[k] == y[k]
    {
      assert x[k] == e[a..b][i + k] == e[a + (i + k)];
      assert y[k] == e[(a + i) + k];
    }
  }

  /** All bytes that the hash of the registered token covers. */
  lemma TokenBytes(s: Seeds)
    ensures EncodeUnsigned(SystemToken(s)) == [1, 0, 3, 0x45, 0x4c, 0x41, 0, 8, 0, 0] + Zeros(35)
  {
    hide LittleEndian, EncodePayload, EncodeLists;
    TokenPayload(s);
    TokenLists(s);
    Together([1, 0], [3, 0x45, 0x4c, 0x41, 0, 8, 0, 0]);
  }

  lemma Together(a: seq<Byte>, b: seq<Byte>)
    ensures a + ((b + Zeros(28)) + Zeros(7)) == a + b + Zeros(35)
  {
  }

  lemma TokenPayload(s: Seeds)
    ensures EncodePayload(SystemToken(s).payload) == [3, 0x45, 0x4c, 0x41, 0, 8, 0, 0] + Zeros(28)
  {
    hide LittleEndian;
    ZeroBytes(8);
    ZeroBytes(20);
    var asset := SystemToken(s).payload.asset;
    assert EncodeAsset(asset) == [3, 0x45, 0x4c, 0x41, 0, 8, 0, 0];
    assert Zeros(8) + Zeros(20) == Zeros(28);
  }

  lemma TokenLists(s: Seeds)
    ensures EncodeLists(SystemToken(s)) == Zeros(7)
  {
    hide LittleEndian, EncodeList;
    ZeroBytes(4);
    EmptyLists();
  }

  lemma EmptyLists()
    ensures EncodeList(EncodeAttribute, []) == [0] && EncodeList(EncodeInput, []) == [0] && EncodeList(EncodeOutput, []) == [0]
  {
  }

  lemma {:induction false} ZeroBytes(n: nat)
    ensures LittleEndian(0, n) == Zeros(n)
  {
    if n > 0 {
      ZeroBytes(n - 1);
    }
  }

  /** At the end of a stream: inputs, attributes and transactions are errors, outputs and programs come out empty. */
  lemma EndOfStream(h: HashFunction)
    ensures DecodeInput([]) == Fail && DecodeAttribute([]) == Fail && Decode(h, []) == Fail
    ensures DecodeOutput([]) == Got(TxOutput(0, 0, 0), []) && DecodeProgram([]) == Got(Program([], []), [])
  {
  }

  /** An attribute with an unknown usage is an error, whatever follows it. */
  lemma UnknownUsage(usage: Byte, rest: seq<Byte>)
    ensures DecodeAttribute([usage] + rest) == Fail <== usage !in {0x00, 0x20, 0x81, 0x90}
  {
  }

  // ----- Blocks -----

  /** The 84 bytes that the hash of a block covers. */
  lemma HeaderBytes(h: Header)
    requires IsHash(h.prevHash) && IsHash(h.root)
    ensures var e := EncodeUnsignedHeader(h);
            && |e| == 84 && e[..4] == LittleEndian(h.version, 4)
            && e[4..36] == LittleEndian(h.prevHash, 32) && e[36..68] == LittleEndian(h.root, 32)
            && e[68..72] == LittleEndian(h.timestamp, 4) && e[72..76] == LittleEndian(h.bits, 4)
            && e[76..80] == LittleEndian(h.nonce, 4) && e[80..84] == LittleEndian(h.height, 4)
  {
    hide LittleEndian, Pow256;
  }

  /** The auxiliary proof of work and a mark follow the header. */
  lemma WholeHeaderBytes(h: Header)
    ensures var e := EncodeHeader(h);
            |e| == 84 + |h.auxPow| + 1 && e[..84] == EncodeUnsignedHeader(h) && e[84..84 + |h.auxPow|] == h.auxPow && e[|e| - 1] == 1
  {
    hide LittleEndian, WriteHash;
  }

  /** The trimmed form: the header, the number of transactions in four bytes, their hashes in order. */
  lemma TrimmedBytes(t: TrimmedBlock, k: nat)
    requires k < |t.txids| && IsHash(t.txids[k])
    ensures var e, n := EncodeTrimmed(t), |EncodeHeader(t.header)|;
            && |e| == n + 4 + 32 * |t.txids| && e[..n] == EncodeHeader(t.header)
            && e[n..n + 4] == LittleEndian(|t.txids|, 4)
            && e[n + 4 + 32 * k..n + 36 + 32 * k] == LittleEndian(t.txids[k], 32)
  {
    hide LittleEndian, EncodeHeader, EncodeAll, Pow256;
    PartAt(WriteHash, t.txids, 32, k);
    var a, b, c := EncodeHeader(t.header), LittleEndian(|t.txids|, 4), EncodeAll(WriteHash, t.txids);
    LastPart(a, b, c, 32 * k, 32 * k + 32);
  }

  lemma LastPart(a: seq<Byte>, b: seq<Byte>, c: seq<Byte>, i: nat, j: nat)
    requires i <= j <= |c|
    ensures var e := a + (b + c);
            e[..|a|] == a && e[|a|..|a| + |b|] == b && e[|a| + |b| + i..|a| + |b| + j] == c[i..j]
  {
  }

  /** A whole block: the header, the number of transactions in four bytes, the transactions in order. */
  lemma BlockBytes(b: Block, k: nat)
    requires k < |b.txs|
    ensures var e, n, before := EncodeBlock(b), |EncodeHeader(b.header)|, |EncodeAll(Encode, b.txs[..k])|;
            && n + 4 + before + |Encode(b.txs[k])| <= |e| && e[..n] == EncodeHeader(b.header)
            && e[n..n + 4] == LittleEndian(|b.txs|, 4)
            && e[n + 4 + before..n + 4 + before + |Encode(b.txs[k])|] == Encode(b.txs[k])
  {
    hide LittleEndian, EncodeHeader, EncodeAll, Encode;
    AllAt(Encode, b.txs, k);
    LastPart(
      EncodeHeader(b.header), LittleEndian(|b.txs|, 4), EncodeAll(Encode, b.txs),
      |EncodeAll(Encode, b.txs[..k])|, |EncodeAll(Encode, b.txs[..k])| + |Encode(b.txs[k])|);
  }

  lemma {:induction false} AllAt<T>(enc: T -> seq<Byte>, l: seq<T>, k: nat)
    requires k < |l|
    ensures var n := |EncodeAll(enc, l[..k])|;
            n + |enc(l[k])| <= |EncodeAll(enc, l)| && EncodeAll(enc, l)[n..n + |enc(l[k])|] == enc(l[k])
    decreases |l|
  {
    var last := |l| - 1;
    assert EncodeAll(enc, l) == EncodeAll(enc, l[..last]) + enc(l[last]);
    if k < last {
      AllAt(enc, l[..last], k);
      assert l[..last][..k] == l[..k];
    }
  }
}

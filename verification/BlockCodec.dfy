/** The byte forms of blocks, whole and trimmed. */
module BlockCodec {
  import opened Types
  import opened Compact
  import opened Ledger
  import opened Merkle
  import opened Serialization
  import opened TransactionCodec
  import opened Storage

  /** Reads an auxiliary proof of work off a stream: its bytes, and what follows them. */
  type AuxReader = seq<Byte> -> (seq<Byte>, seq<Byte>)

  /** The reader finds the end of these bytes, whatever follows them. */
  ghost predicate Delimits(read: AuxReader, aux: seq<Byte>) {
    forall rest :: read(aux + rest) == (aux, rest)
  }

  // ----- Headers -----

  function EncodeNumbers(h: Header): seq<Byte> {
    LittleEndian(h.timestamp, 4) + (LittleEndian(h.bits, 4) + (LittleEndian(h.nonce, 4) + LittleEndian(h.height, 4)))
  }

  /** What the header's hash covers. */
  function EncodeUnsignedHeader(h: Header): seq<Byte> {
    LittleEndian(h.version, 4) + (WriteHash(h.prevHash) + (WriteHash(h.root) + EncodeNumbers(h)))
  }

  function EncodeHeader(h: Header): seq<Byte> {
    EncodeUnsignedHeader(h) + (h.auxPow + [1])
  }

  /** Errors are not looked at: what cannot be read stays zero. */
  function Number(s: seq<Byte>, n: nat): (nat, seq<Byte>) {
    var r := ReadUint(s, n);
    if r.Fail? then (0, s) else (r.value, r.rest)
  }

  function DecodeHeader(read: AuxReader, s: seq<Byte>): (Header, seq<Byte>) {
    var version := Number(s, 4);
    var prev := Number(version.1, 32);
    var root := Number(prev.1, 32);
    var timestamp := Number(root.1, 4);
    var bits := Number(timestamp.1, 4);
    var nonce := Number(bits.1, 4);
    var height := Number(nonce.1, 4);
    var aux := read(height.1);
    var mark := Number(aux.1, 1);
    (Header(ZERO_HASH, version.0, prev.0, root.0, timestamp.0, bits.0, height.0, nonce.0, aux.0), mark.1)
  }

  function HashedHeader(hash: HashFunction, h: Header): Header {
    h.(hash := hash(EncodeUnsignedHeader(h)))
  }

  predicate IsUint32(x: nat) {
    x < 0x1_0000_0000
  }

  ghost predicate HeaderFormed(hash: HashFunction, read: AuxReader, h: Header) {
    && IsUint32(h.version) && IsUint32(h.timestamp) && IsUint32(h.bits) && IsUint32(h.nonce) && IsUint32(h.height)
    && IsHash(h.prevHash) && IsHash(h.root)
    && Delimits(read, h.auxPow)
    && h.hash == hash(EncodeUnsignedHeader(h))
  }

  lemma Uint32Round(x: nat, rest: seq<Byte>)
    requires IsUint32(x)
    ensures Number(LittleEndian(x, 4) + rest, 4) == (x, rest)
  {
    hide LittleEndian, ReadUint;
    Widths();
    UintRound(x, 4, rest);
  }

  lemma NumbersGrouped(h: Header, rest: seq<Byte>)
    ensures EncodeNumbers(h) + rest ==
            LittleEndian(h.timestamp, 4) +
            (LittleEndian(h.bits, 4) + (LittleEndian(h.nonce, 4) + (LittleEndian(h.height, 4) + rest)))
  {
    hide LittleEndian;
    RegroupThree(LittleEndian(h.timestamp, 4), LittleEndian(h.bits, 4), LittleEndian(h.nonce, 4) + LittleEndian(h.height, 4), rest);
    Associative(LittleEndian(h.nonce, 4), LittleEndian(h.height, 4), rest);
  }

  lemma UnsignedGrouped(h: Header, rest: seq<Byte>)
    ensures EncodeUnsignedHeader(h) + rest ==
            LittleEndian(h.version, 4) + (WriteHash(h.prevHash) + (WriteHash(h.root) + (EncodeNumbers(h) + rest)))
  {
    hide LittleEndian, WriteHash, EncodeNumbers;
    RegroupThree(LittleEndian(h.version, 4), WriteHash(h.prevHash), WriteHash(h.root) + EncodeNumbers(h), rest);
    Associative(WriteHash(h.root), EncodeNumbers(h), rest);
  }

  lemma HeaderRound(hash: HashFunction, read: AuxReader, h: Header, rest: seq<Byte>)
    requires HeaderFormed(hash, read, h)
    ensures DecodeHeader(read, EncodeHeader(h) + rest) == (h.(hash := ZERO_HASH), rest)
  {
    hide LittleEndian, ReadUint, WriteHash, EncodeNumbers, EncodeUnsignedHeader;
    var marked := [1] + rest;
    var aux := h.auxPow + marked;
    RegroupThree(EncodeUnsignedHeader(h), h.auxPow, [1], rest);
    UnsignedGrouped(h, aux);
    NumbersGrouped(h, aux);
    var s4 := LittleEndian(h.height, 4) + aux;
    var s3 := LittleEndian(h.nonce, 4) + s4;
    var s2 := LittleEndian(h.bits, 4) + s3;
    var s1 := LittleEndian(h.timestamp, 4) + s2;
    Uint32Round(h.version, WriteHash(h.prevHash) + (WriteHash(h.root) + s1));
    HashRound(h.prevHash, WriteHash(h.root) + s1);
    HashRound(h.root, s1);
    Uint32Round(h.timestamp, s2);
    Uint32Round(h.bits, s3);
    Uint32Round(h.nonce, s4);
    Uint32Round(h.height, aux);
    MarkRead(rest);
  }

  lemma MarkRead(rest: seq<Byte>)
    ensures Number([1] + rest, 1) == (1, rest)
  {
    ReadBack([1], rest);
  }

  // ----- Whole blocks -----

  function EncodeBlock(b: Block): seq<Byte> {
    EncodeHeader(b.header) + (LittleEndian(|b.txs|, 4) + EncodeAll(Encode, b.txs))
  }

  /** The root in the header is replaced by the one computed from the transactions. No transactions are an error. */
  function DecodeBlock(hash: HashFunction, read: AuxReader, h: PairHash, s: seq<Byte>): Read<Block> {
    var header := DecodeHeader(read, s);
    var n :- ReadUint(header.1, 4);
    var txs :- DecodeAll(t => Decode(hash, t), n.1, n.0);
    if txs.0 == [] then Fail
    else Got(Block(HashedHeader(hash, header.0.(root := Root(h, TxHashes(txs.0)))), txs.0), txs.1)
  }

  ghost predicate BlockFormed(hash: HashFunction, read: AuxReader, b: Block) {
    && HeaderFormed(hash, read, b.header)
    && IsUint32(|b.txs|)
    && forall k :: 0 <= k < |b.txs| ==> WellFormed(hash, b.txs[k])
  }

  lemma TransactionsRound(hash: HashFunction, txs: seq<Transaction>, rest: seq<Byte>)
    requires forall k :: 0 <= k < |txs| ==> WellFormed(hash, txs[k])
    ensures DecodeAll(t => Decode(hash, t), EncodeAll(Encode, txs) + rest, |txs|) == Got(txs, rest)
  {
    hide WellFormed, DecodeAll, EncodeAll, Decode, Encode;
    var dec := t => Decode(hash, t);
    forall k | 0 <= k < |txs|
      ensures RoundTrips(Encode, dec, txs[k], true)
    {
      forall more: seq<Byte>
        ensures dec(Encode(txs[k]) + more) == Got(txs[k], more)
      {
        TransactionRound(hash, txs[k], more);
      }
    }
    AllRound(Encode, dec, txs, rest, true);
  }

  /** A written block is read back exactly when its root is that of its transactions. */
  lemma BlockRound(hash: HashFunction, read: AuxReader, h: PairHash, b: Block, rest: seq<Byte>)
    requires BlockFormed(hash, read, b)
    ensures DecodeBlock(hash, read, h, EncodeBlock(b) + rest) == Got(b, rest) <==> RootValid(h, b)
  {
    hide EncodeHeader, DecodeHeader, LittleEndian, ReadUint, EncodeAll, DecodeAll, Root, WellFormed, EncodeUnsignedHeader, Encode, Decode;
    var txs := EncodeAll(Encode, b.txs) + rest;
    RegroupThree(EncodeHeader(b.header), LittleEndian(|b.txs|, 4), EncodeAll(Encode, b.txs), rest);
    HeaderRound(hash, read, b.header, LittleEndian(|b.txs|, 4) + txs);
    Widths();
    UintRound(|b.txs|, 4, txs);
    TransactionsRound(hash, b.txs, rest);
    HashUnsigned(b.header);
  }

  lemma HashUnsigned(h: Header)
    ensures EncodeUnsignedHeader(h.(hash := ZERO_HASH)) == EncodeUnsignedHeader(h)
  {
  }

  // ----- Trimmed blocks -----

  function EncodeTrimmed(t: TrimmedBlock): seq<Byte> {
    EncodeHeader(t.header) + (LittleEndian(|t.txids|, 4) + EncodeAll(WriteHash, t.txids))
  }

  function DecodeTrimmed(hash: HashFunction, read: AuxReader, h: PairHash, s: seq<Byte>): Read<TrimmedBlock> {
    var header := DecodeHeader(read, s);
    var n :- ReadUint(header.1, 4);
    var txids :- DecodeAll(ReadHash, n.1, n.0);
    if txids.0 == [] then Fail
    else Got(TrimmedBlock(HashedHeader(hash, header.0.(root := Root(h, txids.0))), txids.0), txids.1)
  }

  /** Errors are not looked at. */
  function ReadHash(s: seq<Byte>): Read<Hash> {
    var x := Number(s, 32);
    Got(x.0, x.1)
  }

  lemma HashesRound(l: seq<Hash>, rest: seq<Byte>)
    requires forall k :: 0 <= k < |l| ==> IsHash(l[k])
    ensures DecodeAll(ReadHash, EncodeAll(WriteHash, l) + rest, |l|) == Got(l, rest)
  {
    hide EncodeAll, DecodeAll, IsHash, WriteHash;
    forall k | 0 <= k < |l|
      ensures RoundTrips(WriteHash, ReadHash, l[k], true)
    {
      forall more: seq<Byte>
        ensures ReadHash(WriteHash(l[k]) + more) == Got(l[k], more)
      {
        HashRound(l[k], more);
      }
    }
    AllRound(WriteHash, ReadHash, l, rest, true);
  }

  /** What is stored of a block is read back as its header and transaction hashes exactly when its root is valid. */
  lemma TrimmedRound(hash: HashFunction, read: AuxReader, h: PairHash, b: Block, rest: seq<Byte>)
    requires HeaderFormed(hash, read, b.header) && IsUint32(|b.txs|)
    requires forall k :: 0 <= k < |b.txs| ==> IsHash(b.txs[k].hash)
    ensures DecodeTrimmed(hash, read, h, EncodeTrimmed(Trim(b)) + rest) == Got(Trim(b), rest) <==> RootValid(h, b)
  {
    hide EncodeHeader, DecodeHeader, LittleEndian, ReadUint, EncodeAll, DecodeAll, Root, EncodeUnsignedHeader, WriteHash, IsHash;
    var txids := TxHashes(b.txs);
    RegroupThree(EncodeHeader(b.header), LittleEndian(|txids|, 4), EncodeAll(WriteHash, txids), rest);
    HeaderRound(hash, read, b.header, LittleEndian(|txids|, 4) + (EncodeAll(WriteHash, txids) + rest));
    Widths();
    UintRound(|txids|, 4, EncodeAll(WriteHash, txids) + rest);
    HashesRound(txids, rest);
    HashUnsigned(b.header);
  }
}

/** Transactions and headers as a miner makes them, under the hashes of their contents. */
module Mining {
  import opened Types
  import opened Ledger
  import opened Serialization
  import opened TransactionCodec
  import opened BlockCodec
  import opened TxValidator
  import opened Genesis

  // ----- Transactions -----

  /** A coinbase: nothing for the foundation, and something for the miner. */
  function Reward(hash: HashFunction, data: seq<Byte>, lockTime: nat, token: Token, amount: int, miner: ProgramHash): Transaction {
    Hashed(hash, Transaction(
      ZERO_HASH, COINBASE_VERSION, CoinBase(data), [], [TxInput(ZERO_HASH, MAX_UINT16, 0xFFFF_FFFF)],
      RewardOutputs(token, amount, miner), lockTime, []))
  }

  function RewardOutputs(token: Token, amount: int, miner: ProgramHash): seq<TxOutput> {
    [TxOutput(token.assetID, 0, token.foundation), TxOutput(token.assetID, amount, miner)]
  }

  /** A miner who takes nothing. */
  function Unpaid(hash: HashFunction, data: seq<Byte>, lockTime: nat, token: Token): Transaction {
    Reward(hash, data, lockTime, token, 0, token.foundation)
  }

  function Transfer(hash: HashFunction, i: TxInput, outputs: seq<TxOutput>): Transaction {
    Hashed(hash, Transaction(ZERO_HASH, 0, TransferAsset, [], [i], outputs, 0, []))
  }

  lemma RewardSane(hash: HashFunction, data: seq<Byte>, lockTime: nat, token: Token, amount: int, miner: ProgramHash)
    ensures var t := Reward(hash, data, lockTime, token, amount, miner);
            && t.IsCoinBase() && t.payload == CoinBase(data) && t.lockTime == lockTime
            && t.outputs == RewardOutputs(token, amount, miner) && |t.outputs| == 2
            && InputsSane(t) && OutputsSane(t, token)
  {
    hide EncodeUnsigned;
    assert Reward(hash, data, lockTime, token, amount, miner).outputs[0].programHash == token.foundation;
  }

  lemma NothingIssued(token: Token, asset: Hash)
    ensures SumOf(RewardOutputs(token, 0, token.foundation), asset) == 0
  {
    var o := RewardOutputs(token, 0, token.foundation);
    assert o[..1] == [o[0]];
    SumOfOne(o[0], asset);
  }

  // ----- Hashes of contents -----

  /** The transaction carries the hash of its contents. */
  predicate HashRight(hash: HashFunction, t: Transaction) {
    t.hash == hash(EncodeUnsigned(t))
  }

  lemma HashedRight(hash: HashFunction, t: Transaction)
    ensures HashRight(hash, Hashed(hash, t))
  {
  }

  lemma MadeRight(
    hash: HashFunction, data: seq<Byte>, lockTime: nat, token: Token, amount: int, miner: ProgramHash, i: TxInput, outputs: seq<TxOutput>)
    ensures HashRight(hash, Reward(hash, data, lockTime, token, amount, miner))
    ensures HashRight(hash, Transfer(hash, i, outputs))
  {
    hide Hashed, HashRight;
    HashedRight(hash, Transaction(
      ZERO_HASH, COINBASE_VERSION, CoinBase(data), [], [TxInput(ZERO_HASH, MAX_UINT16, 0xFFFF_FFFF)],
      RewardOutputs(token, amount, miner), lockTime, []));
    HashedRight(hash, Transaction(ZERO_HASH, 0, TransferAsset, [], [i], outputs, 0, []));
  }

  lemma OtherType(hash: HashFunction, t: Transaction, u: Transaction)
    requires Injective(hash) && HashRight(hash, t) && HashRight(hash, u)
    requires TypeByte(t.payload) != TypeByte(u.payload)
    ensures t.hash != u.hash
  {
    hide EncodePayload, EncodeLists;
    assert EncodeUnsigned(t)[0] == TypeByte(t.payload) && EncodeUnsigned(u)[0] == TypeByte(u.payload);
  }

  /** Coinbases with different data have different hashes. */
  lemma OtherData(hash: HashFunction, t: Transaction, u: Transaction)
    requires Injective(hash) && HashRight(hash, t) && HashRight(hash, u)
    requires t.IsCoinBase() && u.IsCoinBase()
    requires Short(t.payload.coinbaseData) && Short(u.payload.coinbaseData) && t.payload.coinbaseData != u.payload.coinbaseData
    ensures t.hash != u.hash
  {
    hide EncodeUnsigned, ReadVarBytes;
    DataRead(t);
    DataRead(u);
  }

  lemma DataRead(t: Transaction)
    requires t.IsCoinBase() && Short(t.payload.coinbaseData)
    ensures |EncodeUnsigned(t)| >= 2
    ensures ReadVarBytes(EncodeUnsigned(t)[2..]) == Got(t.payload.coinbaseData, EncodeLists(t))
  {
    hide EncodeList, ReadVarBytes, WriteVarBytes, LittleEndian;
    var data, rest := t.payload.coinbaseData, EncodeLists(t);
    assert EncodeUnsigned(t)[2..] == WriteVarBytes(data) + rest;
    assert |rest| >= 4;
    VarBytesRound(data, rest);
  }

  // ----- Headers -----

  lemma NonceAt(h: Header)
    ensures |EncodeUnsignedHeader(h)| == 84
    ensures EncodeUnsignedHeader(h)[76..80] == LittleEndian(h.nonce, 4)
  {
    hide LittleEndian, WriteHash;
  }

  /** Headers with different nonces have different hashes. */
  lemma OtherNonce(hash: HashFunction, a: Header, b: Header)
    requires Injective(hash) && IsUint32(a.nonce) && IsUint32(b.nonce) && a.nonce != b.nonce
    ensures hash(EncodeUnsignedHeader(a)) != hash(EncodeUnsignedHeader(b))
  {
    hide EncodeUnsignedHeader, LittleEndian, FromLittleEndian;
    NonceAt(a);
    NonceAt(b);
    Widths();
    LittleEndianRound(a.nonce, 4);
    LittleEndianRound(b.nonce, 4);
  }
}

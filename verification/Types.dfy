/** The values that blocks, transactions and the unspent-output indexes are made of. */
module Types {

  /** A byte of a wire format, a script or a digest. */
  type Byte = b: int | 0 <= b < 256

  /** A 256-bit hash or identifier, as the number its bytes denote. */
  type Hash = int

  /** A 160-bit program hash, as the number its bytes denote. */
  type ProgramHash = int

  const ZERO_HASH: Hash := 0

  const TWO_TO_32 := 0x1_0000_0000

  datatype Option<+T> = None | Some(value: T)

  datatype Asset = Asset(name: seq<Byte>, description: seq<Byte>, precision: Byte, assetType: Byte, recordType: Byte)

  /** The payload fixes the transaction type. A deployment keeps its payload as raw bytes. */
  datatype Payload =
    | CoinBase(coinbaseData: seq<Byte>)
    | RegisterAsset(asset: Asset, amount: int, controller: ProgramHash)
    | TransferAsset
    | Record(recordType: seq<Byte>, recordData: seq<Byte>)
    | Deploy(code: seq<Byte>)

  datatype TxAttribute = TxAttribute(usage: Byte, data: seq<Byte>)

  datatype TxInput = TxInput(referTxID: Hash, referIndex: nat, sequence: nat)

  datatype TxOutput = TxOutput(assetID: Hash, value: int, programHash: ProgramHash)

  datatype Program = Program(code: seq<Byte>, parameter: seq<Byte>)

  /** A transaction together with its cached hash, which covers everything but the programs. */
  datatype Transaction = Transaction(
    hash: Hash,
    payloadVersion: Byte,
    payload: Payload,
    attributes: seq<TxAttribute>,
    inputs: seq<TxInput>,
    outputs: seq<TxOutput>,
    lockTime: nat,
    programs: seq<Program>)
  {
    predicate IsCoinBase() {
      payload.CoinBase?
    }

    predicate IsRegisterAsset() {
      payload.RegisterAsset?
    }
  }

  /** A block header together with its hash. */
  datatype Header = Header(
    hash: Hash,
    version: nat,
    prevHash: Hash,
    root: Hash,
    timestamp: nat,
    bits: nat,
    height: nat,
    nonce: nat,
    auxPow: seq<Byte>)

  datatype Block = Block(header: Header, txs: seq<Transaction>)

  function TxHashes(txs: seq<Transaction>): (r: seq<Hash>)
    ensures |r| == |txs|
  {
    seq(|txs|, i requires 0 <= i < |txs| => txs[i].hash)
  }

  /** Some element of a set, as a loop over a map takes them in no particular order. */
  method PickFrom<K(==)>(s: set<K>) returns (k: K)
    requires s != {}
    ensures k in s
  {
    k :| k in s;
  }

  lemma Associative<T>(a: seq<T>, b: seq<T>, c: seq<T>)
    ensures a + b + c == a + (b + c)
  {
  }

  lemma OneKeyLess<K, V>(m: map<K, V>, k: K)
    requires k in m
    ensures |m - {k}| == |m| - 1
  {
    assert m.Keys == (m - {k}).Keys + {k};
    assert |m.Keys| == |m| && |(m - {k}).Keys| == |m - {k}|;
  }
}

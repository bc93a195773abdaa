/** The first block and the node that starts with it. */
module Genesis {
  import opened Types
  import opened Ledger
  import opened Compact
  import opened Difficulty
  import opened Merkle
  import opened Storage
  import opened Serialization
  import opened TransactionCodec
  import opened BlockCodec
  import opened TxValidator
  import opened Conservation
  import opened BlockTree
  import opened Chain

  /** Seconds from the epoch to the start of October 2017. */
  const GENESIS_TIME: nat := 1506816000

  const GENESIS_NONCE: nat := 2083236893

  const FOUNDATION_AMOUNT := 3300 * 10000 * 100000000

  /** The usage number of an attribute that makes a transaction unique. */
  const NONCE_USAGE: Byte := 0

  const COINBASE_VERSION: Byte := 4

  /** What the code computes or draws at random: two hashes, an address and eight random bytes. */
  datatype Seeds = Seeds(blockHash: Hash, coinbaseHash: Hash, tokenHash: Hash, foundation: ProgramHash, nonce: seq<Byte>)

  function SystemToken(s: Seeds): Transaction {
    Transaction(s.tokenHash, 0, RegisterAsset(Asset([0x45, 0x4c, 0x41], [], 8, 0, 0), 0, 0), [], [], [], 0, [])
  }

  /** The coinbase pays everything to the foundation. */
  function FirstCoinbase(s: Seeds): Transaction {
    Transaction(
      s.coinbaseHash, COINBASE_VERSION, CoinBase([]), [TxAttribute(NONCE_USAGE, s.nonce)],
      [TxInput(ZERO_HASH, 0, 0)], [TxOutput(s.tokenHash, FOUNDATION_AMOUNT, s.foundation)], 0, [])
  }

  /** The registered asset is the one that coinbases issue. */
  function TokenOf(s: Seeds): Token {
    Token(s.tokenHash, s.foundation)
  }

  function GenesisBlock(h: PairHash, s: Seeds): Block {
    var txs := [FirstCoinbase(s), SystemToken(s)];
    Block(
      Header(s.blockHash, 0, ZERO_HASH, Root(h, TxHashes(txs)), GENESIS_TIME, GENESIS_BITS, 0, GENESIS_NONCE, []),
      txs)
  }

  // ----- The hashes of the first block -----

  /** The seeds whose hashes are those of the contents. */
  function HashedSeeds(hash: HashFunction, h: PairHash, foundation: ProgramHash, nonce: seq<Byte>): Seeds {
    var token := Seeds(ZERO_HASH, ZERO_HASH, hash(EncodeUnsigned(SystemToken(Seeds(ZERO_HASH, ZERO_HASH, ZERO_HASH, foundation, nonce)))), foundation, nonce);
    var coinbase := token.(coinbaseHash := hash(EncodeUnsigned(FirstCoinbase(token))));
    coinbase.(blockHash := hash(EncodeUnsignedHeader(GenesisBlock(h, coinbase).header)))
  }

  /** They are, and with a collision-free hash function they differ. */
  lemma SeedsHashed(hash: HashFunction, h: PairHash, foundation: ProgramHash, nonce: seq<Byte>)
    ensures var s := HashedSeeds(hash, h, foundation, nonce);
            && s.foundation == foundation && s.nonce == nonce
            && s.tokenHash == hash(EncodeUnsigned(SystemToken(s)))
            && s.coinbaseHash == hash(EncodeUnsigned(FirstCoinbase(s)))
            && s.blockHash == hash(EncodeUnsignedHeader(GenesisBlock(h, s).header))
            && (Injective(hash) ==> s.coinbaseHash != s.tokenHash)
  {
    hide EncodePayload, EncodeList, LittleEndian, WriteHash, Root;
    var s := HashedSeeds(hash, h, foundation, nonce);
    assert EncodeUnsigned(SystemToken(s))[0] == 0x01 && EncodeUnsigned(FirstCoinbase(s))[0] == 0x00;
    FirstHeader(h, s, s.(blockHash := ZERO_HASH));
  }

  lemma FirstHeader(h: PairHash, s: Seeds, s': Seeds)
    requires s.coinbaseHash == s'.coinbaseHash && s.tokenHash == s'.tokenHash
    ensures EncodeUnsignedHeader(GenesisBlock(h, s).header) == EncodeUnsignedHeader(GenesisBlock(h, s').header)
  {
    hide Root, LittleEndian, WriteHash;
    assert TxHashes(GenesisBlock(h, s).txs) == TxHashes(GenesisBlock(h, s').txs);
  }

  // ----- Targets -----

  /** A compact form of at most 32 bytes with a positive mantissa denotes a target within the limit. */
  lemma TargetWithinLimit(bits: nat)
    requires 3 <= Exponent(bits) <= 32 && !Negative(bits) && 0 < Mantissa(bits)
    ensures 0 < CompactToBig(bits) <= POW_LIMIT
  {
    hide ShiftLeft, Pow256, Exponent, Mantissa, Negative;
    var m, k := Mantissa(bits), Exponent(bits) - 3;
    SmallMantissa(bits);
    ShiftIsScale(m, k);
    PowMonotone(k, 29);
    ScaledBelow(m, MANTISSA_LIMIT - 1, Pow256(k), Pow256(29));
    LargestTarget();
    assert k == 0 ==> ShiftRight(m, 0) == m;
  }

  lemma SmallMantissa(bits: nat)
    ensures Mantissa(bits) <= MANTISSA_LIMIT - 1
  {
  }

  lemma ShiftIsScale(m: nat, k: nat)
    ensures ShiftLeft(m, k) == m * Pow256(k)
    ensures k == 0 ==> ShiftLeft(m, k) == m
  {
    ShiftLeftScale(m, k);
    PowShift(0, k);
  }

  lemma LargestTarget()
    ensures (MANTISSA_LIMIT - 1) * Pow256(29) <= POW_LIMIT
  {
    hide Pow256;
    ThirtyTwoBytes();
    TopBytes();
  }

  lemma TopBytes()
    ensures Pow256(32) == 0x100_0000 * Pow256(29)
  {
  }

  lemma ScaledBelow(m: nat, limit: nat, p: nat, q: nat)
    requires 0 < m <= limit && 0 < p <= q
    ensures 0 < m * p <= limit * q
  {
    assert m * p <= m * q;
    assert m * q <= limit * q;
  }

  /** The genesis block and the first block after it carry possible targets on every network. */
  lemma NetTargets()
    ensures forall p :: p in {MAIN_NET, TEST_NET, REG_NET} ==> p.Valid() && TargetOk(p, GENESIS_BITS) && TargetOk(p, p.powLimitBits)
  {
    hide CompactToBig, ChainParams.Valid;
    NetsAreValid();
    TargetWithinLimit(GENESIS_BITS);
    TargetWithinLimit(MAIN_NET.powLimitBits);
    TargetWithinLimit(TEST_NET.powLimitBits);
    TargetWithinLimit(REG_NET.powLimitBits);
  }

  // ----- The first block fits the empty ledger -----

  /** Hashes identify contents: those of the first block and of its transactions do. */
  ghost predicate SeedsKnown(r: Rules, s: Seeds) {
    && s.coinbaseHash != s.tokenHash
    && r.parentOf(s.blockHash) == ZERO_HASH
    && r.outs(s.coinbaseHash) == FirstCoinbase(s).outputs
    && r.outs(s.tokenHash) == []
  }

  lemma GenesisTxs(h: PairHash, s: Seeds)
    ensures forall t :: t in GenesisBlock(h, s).txs ==> t == FirstCoinbase(s) || t == SystemToken(s)
    ensures s.coinbaseHash != s.tokenHash ==> TxsSane(GenesisBlock(h, s).txs)
    ensures DisjointSpends(GenesisBlock(h, s).txs)
  {
    var txs := GenesisBlock(h, s).txs;
    assert |txs| == 2;
    assert SpentBy(txs[0]) == {} == SpentBy(txs[1]);
  }

  lemma GenesisConnects(h: PairHash, s: Seeds)
    requires s.coinbaseHash != s.tokenHash
    ensures Connectable(EMPTY, GenesisBlock(h, s))
  {
    hide Root, TxsSane, DisjointSpends;
    GenesisTxs(h, s);
  }

  lemma GenesisBalanced(r: Rules, s: Seeds)
    ensures Balanced(r.outs, FirstCoinbase(s), r.minFee) && Balanced(r.outs, SystemToken(s), r.minFee)
  {
  }

  lemma GenesisSane(r: Rules, s: Seeds)
    requires SeedsKnown(r, s) && TargetOk(r.params, GENESIS_BITS)
    ensures BlockSane(r, GenesisBlock(r.pairHash, s))
    ensures s.coinbaseHash != s.tokenHash
  {
    hide Root, TxsSane, DisjointSpends, TargetOk, Balanced;
    GenesisTxs(r.pairHash, s);
    GenesisBalanced(r, s);
  }

  /** The amount paid to the foundation is all there is after the first block. */
  lemma GenesisSupply(h: PairHash, s: Seeds, asset: Hash)
    requires s.coinbaseHash != s.tokenHash
    ensures ValidChain([GenesisBlock(h, s)])
    ensures Total(Replay([GenesisBlock(h, s)]).coins, asset) == if asset == s.tokenHash then 3_300_000_000_000_000 else 0
  {
    hide *;
    var outs := x => if x == s.coinbaseHash then FirstCoinbase(s).outputs else [];
    GenesisConnects(h, s);
    GenesisChain(GenesisBlock(h, s));
    GenesisIdentified(h, s, outs);
    TotalOfChain(outs, [GenesisBlock(h, s)], asset);
    GenesisIssues(h, s, outs, asset);
  }

  lemma GenesisIdentified(h: PairHash, s: Seeds, outs: Contents)
    requires s.coinbaseHash != s.tokenHash
    requires outs == (x => if x == s.coinbaseHash then FirstCoinbase(s).outputs else [])
    ensures ChainIdentified([GenesisBlock(h, s)], outs)
  {
    hide Root;
  }

  lemma GenesisIssues(h: PairHash, s: Seeds, outs: Contents, asset: Hash)
    ensures IssuedBy([GenesisBlock(h, s)], asset) == if asset == s.tokenHash then 3_300_000_000_000_000 else 0
    ensures FeesOf(outs, [GenesisBlock(h, s)], asset) == 0
  {
    hide Root, Fee, SumOf, Issued, Fees;
    var blocks := [GenesisBlock(h, s)];
    assert blocks[..0] == [];
    assert IssuedBy([], asset) == 0 == FeesOf(outs, [], asset);
    IssuedByTwo(outs, FirstCoinbase(s), SystemToken(s), asset);
    SumOfOne(TxOutput(s.tokenHash, FOUNDATION_AMOUNT, s.foundation), asset);
    NoFee(outs, SystemToken(s), asset);
  }

  /** A node on a network starts with the first block as its whole chain. */
  method NewBlockchainWithGenesisBlock(
    h: PairHash, params: ChainParams, minFee: int, maxOrphans: nat, s: Seeds, ghost rules: Rules)
    returns (bc: Blockchain)
    requires params in {MAIN_NET, TEST_NET, REG_NET} && maxOrphans > 0
    requires rules.params == params && rules.pairHash == h && rules.minFee == minFee && rules.token == TokenOf(s) && SeedsKnown(rules, s)
    ensures fresh(bc) && fresh(bc.store) && fresh(bc.root)
    ensures bc.Valid() && !bc.refused && bc.nodes == {bc.root} && bc.bestChain == bc.root && bc.orphans == map[]
    ensures bc.root.block == GenesisBlock(h, s) && bc.rules == rules
    ensures bc.oldestOrphan == null && bc.maxOrphans == maxOrphans
  {
    hide *;
    NetTargets();
    GenesisSane(rules, s);
    GenesisConnects(h, s);
    var store := new ChainStore(h);
    bc := new Blockchain(store, params, minFee, TokenOf(s), maxOrphans, GenesisBlock(h, s), rules);
  }
}

/** Inputs on which the code does not do what one would expect of it. */
module Counterexamples {
  import opened Types
  import opened Ledger
  import opened Compact
  import opened Difficulty
  import opened Merkle
  import opened Storage
  import opened Serialization
  import opened TransactionCodec
  import opened BlockCodec
  import opened TxValidator
  import opened BlockValidator
  import opened Conservation
  import opened Chain
  import opened Mining

  const TWO_TO_62: int := 0x4000_0000_0000_0000
  const TWO_TO_63: int := 0x8000_0000_0000_0000
  const TWO_TO_64: int := 0x1_0000_0000_0000_0000

  // ----- Blocks on top of a ledger -----

  /** What a miner puts into a header, and the hash that counts as work. */
  datatype Mined = Mined(bits: nat, time: nat, nonce: nat, powHash: Hash)

  /** Where a block is mined: on top of a branch and its ledger. */
  datatype Site = Site(r: Rules, hash: HashFunction, branch: seq<Header>, l: Ledger, m: Mined)

  ghost predicate MinedFor(s: Site) {
    && Sound(s.l) && s.l.height == |s.branch| - 1 >= 0
    && CheckProofOfWork(s.m.bits, s.r.params.powLimit, s.m.powHash)
    && HeaderFits(s.r.params, s.branch, s.m.bits, s.m.time)
  }

  function BlockOn(s: Site, txs: seq<Transaction>): Block
    requires 0 <= s.l.height && txs != []
  {
    var header := Header(ZERO_HASH, 0, s.l.tip, Root(s.r.pairHash, TxHashes(txs)), s.m.time, s.m.bits, s.l.height + 1, s.m.nonce, []);
    Block(HashedHeader(s.hash, header), txs)
  }

  /** Neither the block nor a transaction of it is known. */
  ghost predicate AllNew(s: Site, txs: seq<Transaction>)
    requires 0 <= s.l.height && txs != []
  {
    BlockOn(s, txs).header.hash !in s.l.headers && forall t :: t in txs ==> t.hash !in s.l.txs
  }

  /**
   The block passes the checks of a block on its own, of its header on top of the branch, of the
   finality of its transactions, and of each of them against the ledger.
   */
  ghost predicate Passes(s: Site, b: Block) {
    && SanityOk(s.l.txs, s.r.pairHash, s.r.params.powLimit, s.r.minFee, s.r.token, b, s.m.powHash)
    && HeaderFits(s.r.params, s.branch, b.header.bits, b.header.timestamp) && b.header.height == |s.branch|
    && AllFinal(b.txs, b.header.height)
    && Acceptable(s.l, b)
  }

  /** A transaction that spends one unspent output and pays out the same asset. */
  ghost predicate Transfers(l: Ledger, hash: HashFunction, t: Transaction, i: TxInput, minFee: int) {
    && t == Transfer(hash, i, t.outputs) && t.hash !in l.txs
    && InputOk(l, i) && Ref(i) != NULL_REF
    && t.outputs != [] && (forall o :: o in t.outputs ==> o.assetID == l.coins[Ref(i)].assetID && o.value > 0)
    && Wrap64(l.coins[Ref(i)].value - SumOf(t.outputs, l.coins[Ref(i)].assetID)) >= minFee
  }

  lemma InCoins(l: Ledger, i: TxInput)
    requires InputOk(l, i)
    ensures Ref(i) in l.coins && l.coins[Ref(i)].value > 0
  {
  }

  lemma TransferPasses(l: Ledger, hash: HashFunction, t: Transaction, i: TxInput, minFee: int)
    requires Sound(l) && Transfers(l, hash, t, i, minFee)
    ensures InputsSane(t) && BalanceOk(l.txs, t, minFee) && ContextOk(l, t) && t.outputs != []
  {
    hide Wrap64, SumOf, InputOk, Sound, EncodeUnsigned;
    InCoins(l, i);
    TransferRefers(l, t, i);
    var asset, refs := l.coins[Ref(i)].assetID, ReferenceOf(l.txs, t).value;
    SumOfOne(refs[0], asset);
    assert refs == [refs[0]];
    forall a | Mentions(refs, a) || Mentions(t.outputs, a)
      ensures Wrap64(SumOf(refs, a) - SumOf(t.outputs, a)) >= minFee
    {
      assert a == asset;
    }
  }

  lemma TransferRefers(l: Ledger, t: Transaction, i: TxInput)
    requires Sound(l) && InputOk(l, i) && t.inputs == [i] && t.payload == TransferAsset
    ensures ReferenceOf(l.txs, t).Some? && |ReferenceOf(l.txs, t).value| == 1
    ensures ReferenceOf(l.txs, t).value[0].assetID == l.coins[Ref(i)].assetID
    ensures ReferenceOf(l.txs, t).value[0].value == l.coins[Ref(i)].value
  {
    assert InRange(l.txs, t.inputs[0]);
  }

  ghost predicate RewardFirst(token: Token, txs: seq<Transaction>) {
    txs != [] && txs[0].IsCoinBase() && InputsSane(txs[0]) && OutputsSane(txs[0], token)
  }

  ghost predicate OthersPass(l: Ledger, txs: seq<Transaction>, minFee: int) {
    forall k :: 0 < k < |txs| ==>
                  && !txs[k].IsCoinBase() && txs[k].lockTime == 0 && txs[k].outputs != []
                  && InputsSane(txs[k]) && BalanceOk(l.txs, txs[k], minFee) && ContextOk(l, txs[k])
  }

  /** A coinbase and transactions that pass on their own make a block that passes. */
  lemma BlockPasses(s: Site, txs: seq<Transaction>)
    requires MinedFor(s) && RewardFirst(s.r.token, txs) && OthersPass(s.l, txs, s.r.minFee) && AllNew(s, txs)
    requires DistinctHashes(txs) && forall t :: t in txs ==> |t.outputs| <= MAX_OUTPUTS
    ensures Passes(s, BlockOn(s, txs))
  {
    hide CheckProofOfWork, BalanceOk, Root, InputOk, InputsSane, HeaderFits, Sound, EncodeUnsignedHeader;
    var b := BlockOn(s, txs);
    forall k | 0 <= k < |txs|
      ensures TxSanityOk(s.l.txs, txs[k], s.r.minFee, s.r.token) && ContextOk(s.l, txs[k])
    {
    }
    SanityGivesTxsSane(s.l.txs, s.r.pairHash, s.r.params.powLimit, s.r.minFee, s.r.token, b, s.m.powHash);
  }

  /** A coinbase and another transaction never have the same hash. */
  lemma RewardApart(hash: HashFunction, data: seq<Byte>, lockTime: nat, token: Token, i: TxInput, outputs: seq<TxOutput>)
    requires Injective(hash)
    ensures Unpaid(hash, data, lockTime, token).hash != Transfer(hash, i, outputs).hash
  {
    hide HashRight, Injective, EncodeUnsigned;
    MadeRight(hash, data, lockTime, token, 0, token.foundation, i, outputs);
    OtherType(hash, Unpaid(hash, data, lockTime, token), Transfer(hash, i, outputs));
  }

  // ----- The balance check wraps around -----

  function Quarters(asset: Hash, owner: ProgramHash): seq<TxOutput> {
    var o := TxOutput(asset, TWO_TO_62, owner);
    [o, o, o, o]
  }

  lemma QuartersSum(asset: Hash, owner: ProgramHash)
    ensures SumOf(Quarters(asset, owner), asset) == TWO_TO_64
  {
    var q := Quarters(asset, owner);
    assert q[..3][..2] == q[..2] && q[..2][..1] == q[..1] && q[..1][..0] == [];
    assert SumOf(q[..1], asset) == TWO_TO_62;
    assert SumOf(q[..2], asset) == 2 * TWO_TO_62;
    assert SumOf(q[..3], asset) == 3 * TWO_TO_62;
  }

  /** A coinbase that issues nothing, and a transaction that pays out 2^64. */
  function Overpaid(s: Site, i: TxInput, data: seq<Byte>, owner: ProgramHash): (r: seq<Transaction>)
    requires 0 <= s.l.height && Ref(i) in s.l.coins
    ensures |r| == 2
  {
    [Unpaid(s.hash, data, s.l.height + 1, s.r.token), Transfer(s.hash, i, Quarters(s.l.coins[Ref(i)].assetID, owner))]
  }

  /**
   Whatever output can be spent, a transaction that spends it and pays out four times 2^62 passes
   every check, and the block that holds it raises the unspent total by 2^64 less what was spent.
   */
  lemma WrapAroundRaisesTotal(s: Site, i: TxInput, data: seq<Byte>, owner: ProgramHash)
    requires MinedFor(s) && Injective(s.hash) && InputOk(s.l, i) && Ref(i) != NULL_REF
    requires s.r.minFee <= s.l.coins[Ref(i)].value < TWO_TO_63
    requires AllNew(s, Overpaid(s, i, data, owner))
    ensures var b := BlockOn(s, Overpaid(s, i, data, owner));
            var asset := s.l.coins[Ref(i)].assetID;
            && Passes(s, b) && Connectable(s.l, b)
            && Total(ApplyBlock(s.l, b).coins, asset) == Total(s.l.coins, asset) - s.l.coins[Ref(i)].value + TWO_TO_64
  {
    hide *;
    SiteParts(s);
    InCoins(s.l, i);
    OverpaidPasses(s, i, data, owner);
    var asset, txs := s.l.coins[Ref(i)].assetID, Overpaid(s, i, data, owner);
    var outs := ContentsWith(s.l, txs[0].hash, txs[0].outputs, txs[1].hash, txs[1].outputs);
    NewOnes(s, txs);
    TwoNamed(s.l, txs[0], txs[1]);
    PaidFrom(s.l, i, outs);
    TotalAfterBlock(outs, s.l, BlockOn(s, txs), asset);
    OverpaidFee(s, i, data, owner, outs);
  }

  lemma SiteParts(s: Site)
    requires MinedFor(s)
    ensures Sound(s.l) && 0 <= s.l.height
  {
    hide Sound;
  }

  lemma NewOnes(s: Site, txs: seq<Transaction>)
    requires 0 <= s.l.height && |txs| == 2 && AllNew(s, txs)
    ensures txs[0].hash !in s.l.txs && txs[1].hash !in s.l.txs && txs == [txs[0], txs[1]]
  {
    hide BlockOn;
  }

  lemma OverpaidPasses(s: Site, i: TxInput, data: seq<Byte>, owner: ProgramHash)
    requires MinedFor(s) && Injective(s.hash) && InputOk(s.l, i) && Ref(i) != NULL_REF
    requires s.r.minFee <= s.l.coins[Ref(i)].value < TWO_TO_63
    requires AllNew(s, Overpaid(s, i, data, owner))
    ensures var txs := Overpaid(s, i, data, owner);
            && Passes(s, BlockOn(s, txs)) && Connectable(s.l, BlockOn(s, txs)) && BlockOn(s, txs).txs == txs
            && txs[0].hash != txs[1].hash
  {
    hide Sound, InputOk, InputsSane, OutputsSane, BalanceOk, ContextOk, SanityOk, AllFinal, Root, CheckProofOfWork, SumOf, Wrap64, TxsSane,
      AllContextOk, HeaderFits, Injective, EncodeUnsigned, EncodeUnsignedHeader;
    InCoins(s.l, i);
    var asset, txs := s.l.coins[Ref(i)].assetID, Overpaid(s, i, data, owner);
    RewardApart(s.hash, data, s.l.height + 1, s.r.token, i, Quarters(asset, owner));
    QuartersSum(asset, owner);
    WrapsToValue(s.l, i);
    TransferPasses(s.l, s.hash, txs[1], i, s.r.minFee);
    RewardSane(s.hash, data, s.l.height + 1, s.r.token, 0, s.r.token.foundation);
    BlockPasses(s, txs);
    NothingSpentTwice(txs[0], txs[1]);
  }

  lemma NothingSpentTwice(c: Transaction, t: Transaction)
    requires c.IsCoinBase()
    ensures DisjointSpends([c, t])
  {
    assert SpentBy(c) == {};
  }

  lemma WrapsToValue(l: Ledger, i: TxInput)
    requires InputOk(l, i) && l.coins[Ref(i)].value < TWO_TO_63
    ensures Wrap64(l.coins[Ref(i)].value - TWO_TO_64) == l.coins[Ref(i)].value
  {
  }

  /** The stored contents together with those of two new transactions. */
  ghost function ContentsWith(l: Ledger, c: Hash, rewards: seq<TxOutput>, x: Hash, outputs: seq<TxOutput>): Contents {
    y => if y == c then rewards else if y == x then outputs else if y in l.txs then l.txs[y].tx.outputs else []
  }

  lemma CoinsStayNamed(l: Ledger, c: Hash, rewards: seq<TxOutput>, x: Hash, outputs: seq<TxOutput>)
    requires Sound(l) && c !in l.txs && x !in l.txs
    ensures CoinsNamed(ContentsWith(l, c, rewards, x, outputs), l.coins)
  {
    forall op | op in l.coins
      ensures CoinNamed(ContentsWith(l, c, rewards, x, outputs), l.coins, op)
    {
      assert Resolves(l.txs, op) && l.coins[op] == CoinAt(l.txs, op);
    }
  }

  lemma TwoNamed(l: Ledger, c: Transaction, t: Transaction)
    requires Sound(l) && c.hash !in l.txs && t.hash !in l.txs && c.hash != t.hash
    ensures var outs := ContentsWith(l, c.hash, c.outputs, t.hash, t.outputs);
            CoinsNamed(outs, l.coins) && TxsIdentified([c, t], outs)
  {
    hide Sound, CoinsNamed;
    CoinsStayNamed(l, c.hash, c.outputs, t.hash, t.outputs);
  }

  lemma PaidFrom(l: Ledger, i: TxInput, outs: Contents)
    requires Ref(i) in l.coins && CoinsNamed(outs, l.coins)
    ensures SumOf(Named(outs, [i]), l.coins[Ref(i)].assetID) == l.coins[Ref(i)].value
  {
    hide SumOf, CoinsNamed;
    CoinIsNamed(outs, l.coins, Ref(i));
    assert Named(outs, [i]) == [NamedBy(outs, i)];
    SumOfOne(NamedBy(outs, i), l.coins[Ref(i)].assetID);
  }

  lemma CoinIsNamed(outs: Contents, coins: map<OutPoint, Coin>, op: OutPoint)
    requires CoinsNamed(outs, coins) && op in coins
    ensures CoinNamed(outs, coins, op)
  {
  }

  lemma OverpaidFee(s: Site, i: TxInput, data: seq<Byte>, owner: ProgramHash, outs: Contents)
    requires 0 <= s.l.height && Ref(i) in s.l.coins
    requires SumOf(Named(outs, [i]), s.l.coins[Ref(i)].assetID) == s.l.coins[Ref(i)].value
    ensures Issued(Overpaid(s, i, data, owner), s.l.coins[Ref(i)].assetID) == 0
    ensures Fees(outs, Overpaid(s, i, data, owner), s.l.coins[Ref(i)].assetID) == s.l.coins[Ref(i)].value - TWO_TO_64
  {
    hide SumOf, Named, Issued, Fees, EncodeUnsigned;
    var asset, txs := s.l.coins[Ref(i)].assetID, Overpaid(s, i, data, owner);
    QuartersSum(asset, owner);
    NothingIssued(s.r.token, asset);
    IssuedByTwo(outs, txs[0], txs[1], asset);
  }

  // ----- One output spent twice in a block -----

  /** A coinbase and two transactions that pay the same output to one owner and to another. */
  function SpendTwice(s: Site, i: TxInput, data: seq<Byte>, owner: ProgramHash, other: ProgramHash): (r: seq<Transaction>)
    requires 0 <= s.l.height && Ref(i) in s.l.coins
    ensures |r| == 3
  {
    [Unpaid(s.hash, data, s.l.height + 1, s.r.token), PayOn(s, i, owner), PayOn(s, i, other)]
  }

  /** All of an output but the fee, to an owner. */
  function PayOn(s: Site, i: TxInput, owner: ProgramHash): Transaction
    requires Ref(i) in s.l.coins
  {
    Transfer(s.hash, i, [TxOutput(s.l.coins[Ref(i)].assetID, s.l.coins[Ref(i)].value - s.r.minFee, owner)])
  }

  lemma SpendsInput(t: Transaction, i: TxInput)
    requires t.payload == TransferAsset && t.inputs == [i]
    ensures Ref(i) in SpentBy(t)
  {
    assert t.inputs[0] == i;
  }

  /** The transactions are two and have two hashes, because they pay different owners. */
  lemma PaidApart(s: Site, i: TxInput, owner: ProgramHash, other: ProgramHash)
    requires Injective(s.hash) && Ref(i) in s.l.coins
    requires InputFormed(i) && IsHash(s.l.coins[Ref(i)].assetID) && IsInt64(s.l.coins[Ref(i)].value - s.r.minFee)
    requires IsProgramHash(owner) && IsProgramHash(other) && owner != other
    ensures WellFormed(s.hash, PayOn(s, i, owner)) && WellFormed(s.hash, PayOn(s, i, other))
    ensures PayOn(s, i, owner).hash != PayOn(s, i, other).hash
  {
    hide Injective;
    PaidFormed(s, i, owner);
    PaidFormed(s, i, other);
    hide WellFormed, EncodeUnsigned;
    var t, u := PayOn(s, i, owner), PayOn(s, i, other);
    assert t.outputs[0].programHash != u.outputs[0].programHash;
    if t.hash == u.hash {
      HashIdentifies(s.hash, t, u);
    }
  }

  lemma PaidFormed(s: Site, i: TxInput, owner: ProgramHash)
    requires Ref(i) in s.l.coins
    requires InputFormed(i) && IsHash(s.l.coins[Ref(i)].assetID) && IsInt64(s.l.coins[Ref(i)].value - s.r.minFee)
    requires IsProgramHash(owner)
    ensures WellFormed(s.hash, PayOn(s, i, owner))
  {
    hide EncodeUnsigned, IsHash, IsProgramHash;
    var t := PayOn(s, i, owner);
    MadeRight(s.hash, [], 0, s.r.token, 0, 0, i, t.outputs);
  }

  /** Whatever output can be spent, a block that spends it twice passes every check. */
  lemma DoubleSpendPasses(s: Site, i: TxInput, data: seq<Byte>, owner: ProgramHash, other: ProgramHash)
    requires MinedFor(s) && Injective(s.hash) && InputOk(s.l, i) && Ref(i) != NULL_REF
    requires 0 <= s.r.minFee < s.l.coins[Ref(i)].value < TWO_TO_63
    requires InputFormed(i) && IsHash(s.l.coins[Ref(i)].assetID)
    requires IsProgramHash(owner) && IsProgramHash(other) && owner != other
    requires AllNew(s, SpendTwice(s, i, data, owner, other))
    ensures var txs := SpendTwice(s, i, data, owner, other);
            Passes(s, BlockOn(s, txs)) && !DisjointSpends(txs)
  {
    hide Sound, InputOk, InputsSane, OutputsSane, BalanceOk, ContextOk, Passes, Root, CheckProofOfWork, SumOf, SpentBy, HeaderFits, Injective,
      EncodeUnsigned, EncodeUnsignedHeader, InputFormed, IsHash, IsProgramHash, WellFormed;
    InCoins(s.l, i);
    var txs := SpendTwice(s, i, data, owner, other);
    PaidApart(s, i, owner, other);
    RewardApart(s.hash, data, s.l.height + 1, s.r.token, i, txs[1].outputs);
    RewardApart(s.hash, data, s.l.height + 1, s.r.token, i, txs[2].outputs);
    SumOfOne(txs[1].outputs[0], s.l.coins[Ref(i)].assetID);
    SumOfOne(txs[2].outputs[0], s.l.coins[Ref(i)].assetID);
    TransferPasses(s.l, s.hash, txs[1], i, s.r.minFee);
    TransferPasses(s.l, s.hash, txs[2], i, s.r.minFee);
    RewardSane(s.hash, data, s.l.height + 1, s.r.token, 0, s.r.token.foundation);
    BlockPasses(s, txs);
    SpendsInput(txs[1], i);
    SpendsInput(txs[2], i);
  }

  // ----- A coinbase that need not mature -----

  /** A coinbase whose lock time is one above its height can be spent in the very next block. */
  lemma SpendableAtOnce(s: Site, data: seq<Byte>, amount: int, miner: ProgramHash, sequence: nat)
    requires MinedFor(s) && amount > 0 && s.l.height + 2 < TWO_TO_32
    requires AllNew(s, [Reward(s.hash, data, s.l.height + 2, s.r.token, amount, miner)])
    ensures var t := Reward(s.hash, data, s.l.height + 2, s.r.token, amount, miner);
            var b := BlockOn(s, [t]);
            && Passes(s, b) && Connectable(s.l, b)
            && InputOk(ApplyBlock(s.l, b), TxInput(t.hash, 1, sequence))
            && ApplyBlock(s.l, b).txs[t.hash] == StoredTx(t, ApplyBlock(s.l, b).height)
  {
    hide CheckProofOfWork, Root, SanityOk, AllFinal, TxsSane, AllContextOk, InputOk, ApplyBlock, InputsSane, OutputsSane, HeaderFits, Sound,
      EncodeUnsigned, EncodeUnsignedHeader;
    var t := Reward(s.hash, data, s.l.height + 2, s.r.token, amount, miner);
    var b := BlockOn(s, [t]);
    RewardSane(s.hash, data, s.l.height + 2, s.r.token, amount, miner);
    BlockPasses(s, [t]);
    MatureMeans(s.l.height + 1, s.l.height + 2);
    OnlyReward(s.l, b, t);
  }

  /** Of a block with a coinbase only, every output can be spent as soon as the coinbase is mature. */
  lemma OnlyReward(l: Ledger, b: Block, t: Transaction)
    requires b.txs == [t] && t.IsCoinBase() && t.hash !in l.txs
    requires Mature(b.header.height, t.lockTime)
    ensures ApplyBlock(l, b).txs[t.hash] == StoredTx(t, b.header.height) && ApplyBlock(l, b).height == b.header.height
    ensures forall i: TxInput :: i.referTxID == t.hash && i.referIndex < |t.outputs| && t.outputs[i.referIndex].value > 0 ==>
                                   InputOk(ApplyBlock(l, b), i)
  {
    hide Mature, CreatedUpTo, ApplyTxs, StoreTxs;
    OneTransaction(l, t, b.header.height);
    assert SpentBy(t) == {};
  }

  lemma OneTransaction(l: Ledger, t: Transaction, height: int)
    ensures ApplyTxs(l.coins, [t], height) == ApplyTx(l.coins, t, height)
    ensures StoreTxs(l.txs, [t], height) == l.txs[t.hash := StoredTx(t, height)]
  {
    hide ApplyTx;
    assert [t][..0] == [];
    assert ApplyTxs(l.coins, [], height) == l.coins && StoreTxs(l.txs, [], height) == l.txs;
  }
}

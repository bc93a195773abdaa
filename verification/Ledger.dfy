/** The ledger as a plain replay of blocks: what the stored tables are meant to denote. */
module Ledger {
  import opened Types

  /** One output of one transaction. */
  datatype OutPoint = OutPoint(txid: Hash, index: nat)

  /** An unspent output: who may spend it, of what asset, how much, and since which height. */
  datatype Coin = Coin(programHash: ProgramHash, assetID: Hash, value: int, height: int)

  datatype StoredTx = StoredTx(tx: Transaction, height: int)

  datatype TrimmedBlock = TrimmedBlock(header: Header, txids: seq<Hash>)

  datatype Ledger = Ledger(
    headers: map<Hash, TrimmedBlock>,
    hashes: map<int, Hash>,
    txs: map<Hash, StoredTx>,
    assets: map<Hash, Asset>,
    coins: map<OutPoint, Coin>,
    tip: Hash,
    height: int)

  /** Before the genesis block: its parent hash is zero and its height is 0. */
  const EMPTY: Ledger := Ledger(map[], map[], map[], map[], map[], ZERO_HASH, -1)

  /** Confirmations a coinbase output needs before it can be spent, on every network. */
  const SPEND_COINBASE_SPAN := 100

  /** Outputs are indexed by 16-bit numbers in one of the two indexes. */
  const MAX_OUTPUTS := 65536

  // ----- One transaction -----

  function Ref(i: TxInput): OutPoint {
    OutPoint(i.referTxID, i.referIndex)
  }

  function CoinOf(o: TxOutput, height: int): Coin {
    Coin(o.programHash, o.assetID, o.value, height)
  }

  /** The first n outputs of t, as coins of the given height. */
  function CreatedUpTo(t: Transaction, height: int, n: nat): (r: map<OutPoint, Coin>)
    requires n <= |t.outputs|
    ensures forall op :: op in r <==> op.txid == t.hash && op.index < n
    ensures forall op :: op in r ==> r[op] == CoinOf(t.outputs[op.index], height)
  {
    if n == 0 then map[]
    else CreatedUpTo(t, height, n - 1)[OutPoint(t.hash, n - 1) := CoinOf(t.outputs[n - 1], height)]
  }

  /** Registering an asset neither creates nor spends coins, whatever the transaction lists. */
  function CreatedBy(t: Transaction, height: int): map<OutPoint, Coin> {
    if t.IsRegisterAsset() then map[] else CreatedUpTo(t, height, |t.outputs|)
  }

  /** The outputs that the first n inputs name. */
  function RefsUpTo(inputs: seq<TxInput>, n: nat): (r: set<OutPoint>)
    requires n <= |inputs|
    ensures forall k :: 0 <= k < n ==> Ref(inputs[k]) in r
    ensures forall op :: op in r ==> exists k :: 0 <= k < n && Ref(inputs[k]) == op
  {
    if n == 0 then {} else RefsUpTo(inputs, n - 1) + {Ref(inputs[n - 1])}
  }

  function Refs(inputs: seq<TxInput>): set<OutPoint> {
    RefsUpTo(inputs, |inputs|)
  }

  function SpentBy(t: Transaction): set<OutPoint> {
    if t.IsRegisterAsset() || t.IsCoinBase() then {} else Refs(t.inputs)
  }

  function ApplyTx(coins: map<OutPoint, Coin>, t: Transaction, height: int): map<OutPoint, Coin> {
    (coins + CreatedBy(t, height)) - SpentBy(t)
  }

  // ----- A list of transactions, in order -----

  function ApplyTxs(coins: map<OutPoint, Coin>, ts: seq<Transaction>, height: int): map<OutPoint, Coin> {
    if ts == [] then coins
    else ApplyTx(ApplyTxs(coins, ts[..|ts| - 1], height), ts[|ts| - 1], height)
  }

  function SpentAll(ts: seq<Transaction>): set<OutPoint> {
    if ts == [] then {} else SpentAll(ts[..|ts| - 1]) + SpentBy(ts[|ts| - 1])
  }

  function CreatedAll(ts: seq<Transaction>, height: int): map<OutPoint, Coin> {
    if ts == [] then map[] else CreatedAll(ts[..|ts| - 1], height) + CreatedBy(ts[|ts| - 1], height)
  }

  function StoreTxs(txs: map<Hash, StoredTx>, ts: seq<Transaction>, height: int): map<Hash, StoredTx> {
    if ts == [] then txs
    else StoreTxs(txs, ts[..|ts| - 1], height)[ts[|ts| - 1].hash := StoredTx(ts[|ts| - 1], height)]
  }

  function StoreAssets(assets: map<Hash, Asset>, ts: seq<Transaction>): map<Hash, Asset> {
    if ts == [] then assets
    else
      var t := ts[|ts| - 1];
      var before := StoreAssets(assets, ts[..|ts| - 1]);
      if t.IsRegisterAsset() then before[t.hash := t.payload.asset] else before
  }

  // ----- Blocks and chains -----

  function Trim(b: Block): TrimmedBlock {
    TrimmedBlock(b.header, TxHashes(b.txs))
  }

  function ApplyBlock(l: Ledger, b: Block): Ledger {
    Ledger(
      l.headers[b.header.hash := Trim(b)],
      l.hashes[b.header.height := b.header.hash],
      StoreTxs(l.txs, b.txs, b.header.height),
      StoreAssets(l.assets, b.txs),
      ApplyTxs(l.coins, b.txs, b.header.height),
      b.header.hash,
      b.header.height)
  }

  function Replay(blocks: seq<Block>): Ledger {
    if blocks == [] then EMPTY else ApplyBlock(Replay(blocks[..|blocks| - 1]), blocks[|blocks| - 1])
  }

  // ----- What a block must satisfy -----

  /** The coin that output op of a stored transaction stands for. */
  predicate Resolves(txs: map<Hash, StoredTx>, op: OutPoint) {
    && op.txid in txs
    && op.index < |txs[op.txid].tx.outputs|
    && !txs[op.txid].tx.IsRegisterAsset()
  }

  function CoinAt(txs: map<Hash, StoredTx>, op: OutPoint): Coin
    requires Resolves(txs, op)
  {
    CoinOf(txs[op.txid].tx.outputs[op.index], txs[op.txid].height)
  }

  /** Every coin is an output of a stored transaction and says what that output says. */
  ghost predicate CoinsSound(txs: map<Hash, StoredTx>, coins: map<OutPoint, Coin>) {
    forall op :: op in coins ==> Resolves(txs, op) && coins[op] == CoinAt(txs, op)
  }

  /** The subtraction is on 32-bit unsigned numbers. */
  predicate Mature(height: int, lockTime: nat) {
    (height - lockTime) % TWO_TO_32 >= SPEND_COINBASE_SPAN
  }

  /** A lock time above the height passes as well, unless it is almost 2^32 above it. */
  lemma MatureMeans(height: nat, lockTime: nat)
    requires height < TWO_TO_32 && lockTime < TWO_TO_32
    ensures Mature(height, lockTime) <==>
            lockTime + 100 <= height || height < lockTime <= height + (0x1_0000_0000 - 100)
  {
    if height < lockTime {
      assert (height - lockTime) % TWO_TO_32 == height - lockTime + TWO_TO_32;
    }
  }

  /** From the height of a coinbase on it takes a hundred blocks, no fewer and no more, exactly when its lock time is that height. */
  lemma MaturesInTime(height: nat, lockTime: nat)
    requires height + SPEND_COINBASE_SPAN < TWO_TO_32 && lockTime < TWO_TO_32
    ensures (forall h: nat :: height <= h < TWO_TO_32 ==> (Mature(h, lockTime) <==> height + SPEND_COINBASE_SPAN <= h))
            <==> lockTime == height
  {
    hide Mature;
    var h := Mismatch(height, lockTime);
    MatureMeans(h, lockTime);
    if lockTime == height {
      forall k: nat | height <= k < TWO_TO_32
        ensures Mature(k, lockTime) <==> height + SPEND_COINBASE_SPAN <= k
      {
        MatureMeans(k, lockTime);
      }
    }
  }

  /** A height at which another lock time makes a difference. */
  function Mismatch(height: nat, lockTime: nat): (h: nat)
    ensures height <= h
  {
    if lockTime <= height then (if height <= lockTime + SPEND_COINBASE_SPAN then lockTime + SPEND_COINBASE_SPAN else height)
    else if lockTime <= height + (TWO_TO_32 - SPEND_COINBASE_SPAN) then height
    else lockTime - (TWO_TO_32 - SPEND_COINBASE_SPAN)
  }

  /**
   When an unspent coinbase output can be spent. Confirmations are counted from the lock time, which
   nothing ties to the height of the block that holds the coinbase.
   */
  lemma CoinbaseSpendable(l: Ledger, i: TxInput)
    requires Sound(l) && 0 <= l.height < TWO_TO_32
    requires Ref(i) in l.coins
    requires l.txs[i.referTxID].tx.IsCoinBase() && l.txs[i.referTxID].tx.lockTime < TWO_TO_32
    ensures var lockTime := l.txs[i.referTxID].tx.lockTime;
            && (InputOk(l, i) <==>
                  && l.coins[Ref(i)].value > 0
                  && (lockTime + 100 <= l.height || l.height < lockTime <= l.height + (0x1_0000_0000 - 100)))
            && (lockTime == l.txs[i.referTxID].height ==>
                  (InputOk(l, i) <==> l.coins[Ref(i)].value > 0 && l.txs[i.referTxID].height + 100 <= l.height))
  {
    MatureMeans(l.height, l.txs[i.referTxID].tx.lockTime);
  }

  ghost predicate InputOk(l: Ledger, i: TxInput) {
    && Ref(i) in l.coins
    && Resolves(l.txs, Ref(i))
    && l.coins[Ref(i)].value > 0
    && (l.txs[i.referTxID].tx.IsCoinBase() ==> Mature(l.height, l.txs[i.referTxID].tx.lockTime))
  }

  /** The checks of a transaction against the ledger it is to be added to. */
  ghost predicate ContextOk(l: Ledger, t: Transaction) {
    && t.hash !in l.txs
    && (t.IsCoinBase() || forall i :: i in t.inputs ==> InputOk(l, i))
  }

  ghost predicate AllContextOk(l: Ledger, ts: seq<Transaction>) {
    forall t :: t in ts ==> ContextOk(l, t)
  }

  ghost predicate DistinctHashes(ts: seq<Transaction>) {
    forall i, j :: 0 <= i < j < |ts| ==> ts[i].hash != ts[j].hash
  }

  ghost predicate DistinctRefs(inputs: seq<TxInput>) {
    forall i, j :: 0 <= i < j < |inputs| ==> Ref(inputs[i]) != Ref(inputs[j])
  }

  /** What the context-free checks of a block give about its transactions one by one. */
  ghost predicate TxsSane(ts: seq<Transaction>) {
    && DistinctHashes(ts)
    && (forall t :: t in ts ==> |t.outputs| <= MAX_OUTPUTS)
    && (forall t :: t in ts && !t.IsCoinBase() ==> DistinctRefs(t.inputs))
  }

  ghost predicate DisjointUpTo(ts: seq<Transaction>, n: nat)
    requires n <= |ts|
  {
    forall i, j :: 0 <= i < j < n ==> SpentBy(ts[i]) !! SpentBy(ts[j])
  }

  /** No output is spent by two transactions of the list. */
  ghost predicate DisjointSpends(ts: seq<Transaction>) {
    DisjointUpTo(ts, |ts|)
  }

  /** The block extends the ledger's tip and its transactions pass every check. */
  ghost predicate Acceptable(l: Ledger, b: Block) {
    && b.header.hash !in l.headers
    && b.header.prevHash == l.tip
    && b.header.height == l.height + 1
    && TxsSane(b.txs)
    && AllContextOk(l, b.txs)
  }

  ghost predicate Connectable(l: Ledger, b: Block) {
    Acceptable(l, b) && DisjointSpends(b.txs)
  }

  /** A sequence of blocks, each connectable to the replay of those before it. */
  ghost predicate ValidChain(blocks: seq<Block>) {
    blocks == [] ||
    (ValidChain(blocks[..|blocks| - 1]) && Connectable(Replay(blocks[..|blocks| - 1]), blocks[|blocks| - 1]))
  }

  /** What every replayed ledger satisfies. */
  ghost predicate Sound(l: Ledger) {
    && CoinsSound(l.txs, l.coins)
    && l.assets.Keys <= l.txs.Keys
    && (forall h :: h in l.hashes ==> h <= l.height)
    && (forall x :: x in l.txs ==> l.txs[x].height <= l.height && l.txs[x].tx.hash == x)
    && (forall op :: op in l.coins ==> op.index < MAX_OUTPUTS)
  }

  // ----- Lemmas: set form of applying transactions -----

  lemma AddThenRemove<K, V>(m: map<K, V>, c: map<K, V>, s: set<K>, c': map<K, V>, s': set<K>)
    requires s !! c'.Keys
    ensures (((m + c) - s) + c') - s' == (m + (c + c')) - (s + s')
  {
    var left, right := (((m + c) - s) + c') - s', (m + (c + c')) - (s + s');
    assert left.Keys == right.Keys;
  }

  lemma {:induction false} AppliedForm(coins: map<OutPoint, Coin>, ts: seq<Transaction>, height: int)
    requires SpentAll(ts) !! CreatedAll(ts, height).Keys
    ensures ApplyTxs(coins, ts, height) == (coins + CreatedAll(ts, height)) - SpentAll(ts)
  {
    if ts == [] {
      assert ApplyTxs(coins, ts, height) == coins;
    } else {
      var before, t := ts[..|ts| - 1], ts[|ts| - 1];
      AppliedForm(coins, before, height);
      AddThenRemove(coins, CreatedAll(before, height), SpentAll(before), CreatedBy(t, height), SpentBy(t));
    }
  }

  lemma {:induction false} StoredTxsForm(txs: map<Hash, StoredTx>, ts: seq<Transaction>, height: int, x: Hash)
    ensures x in StoreTxs(txs, ts, height) <==> x in txs || x in TxHashes(ts)
    ensures x in txs && x !in TxHashes(ts) ==> StoreTxs(txs, ts, height)[x] == txs[x]
    ensures x in TxHashes(ts) ==>
              && StoreTxs(txs, ts, height)[x].tx in ts
              && StoreTxs(txs, ts, height)[x] == StoredTx(StoreTxs(txs, ts, height)[x].tx, height)
              && StoreTxs(txs, ts, height)[x].tx.hash == x
  {
    if ts != [] {
      var n := |ts| - 1;
      StoredTxsForm(txs, ts[..n], height, x);
      assert TxHashes(ts) == TxHashes(ts[..n]) + [ts[n].hash];
    }
  }

  lemma {:induction false} StoredAssetsForm(assets: map<Hash, Asset>, ts: seq<Transaction>)
    ensures assets.Keys <= StoreAssets(assets, ts).Keys
    ensures StoreAssets(assets, ts).Keys <= assets.Keys + (set x | x in TxHashes(ts))
    ensures forall x :: x in assets && x !in TxHashes(ts) ==> StoreAssets(assets, ts)[x] == assets[x]
  {
    if ts != [] {
      var n := |ts| - 1;
      StoredAssetsForm(assets, ts[..n]);
      assert TxHashes(ts) == TxHashes(ts[..n]) + [ts[n].hash];
    }
  }

  // ----- Lemmas: replayed ledgers are sound -----

  lemma SoundStep(txs: map<Hash, StoredTx>, coins: map<OutPoint, Coin>, t: Transaction, height: int)
    requires CoinsSound(txs, coins)
    requires t.hash !in txs
    ensures CoinsSound(txs[t.hash := StoredTx(t, height)], ApplyTx(coins, t, height))
  {
  }

  /** A hash that is new to the ledger and unlike the earlier ones is new after they are stored. */
  lemma FreshAfter(txs: map<Hash, StoredTx>, ts: seq<Transaction>, height: int, n: nat)
    requires n < |ts|
    requires DistinctHashes(ts)
    requires ts[n].hash !in txs
    ensures ts[n].hash !in StoreTxs(txs, ts[..n], height)
  {
    StoredTxsForm(txs, ts[..n], height, ts[n].hash);
  }

  lemma {:induction false} SoundAfterTxs(
    txs: map<Hash, StoredTx>, coins: map<OutPoint, Coin>, ts: seq<Transaction>, height: int)
    requires CoinsSound(txs, coins)
    requires DistinctHashes(ts)
    requires forall t :: t in ts ==> t.hash !in txs
    ensures CoinsSound(StoreTxs(txs, ts, height), ApplyTxs(coins, ts, height))
  {
    if ts != [] {
      var n := |ts| - 1;
      SoundAfterTxs(txs, coins, ts[..n], height);
      FreshAfter(txs, ts, height, n);
      SoundStep(StoreTxs(txs, ts[..n], height), ApplyTxs(coins, ts[..n], height), ts[n], height);
    }
  }

  lemma SmallIndexStep(coins: map<OutPoint, Coin>, t: Transaction, height: int)
    requires forall op :: op in coins ==> op.index < MAX_OUTPUTS
    requires |t.outputs| <= MAX_OUTPUTS
    ensures forall op :: op in ApplyTx(coins, t, height) ==> op.index < MAX_OUTPUTS
  {
  }

  lemma {:induction false} SmallIndexes(coins: map<OutPoint, Coin>, ts: seq<Transaction>, height: int)
    requires forall op :: op in coins ==> op.index < MAX_OUTPUTS
    requires forall t :: t in ts ==> |t.outputs| <= MAX_OUTPUTS
    ensures forall op :: op in ApplyTxs(coins, ts, height) ==> op.index < MAX_OUTPUTS
  {
    if ts != [] {
      SmallIndexes(coins, ts[..|ts| - 1], height);
      SmallIndexStep(ApplyTxs(coins, ts[..|ts| - 1], height), ts[|ts| - 1], height);
    }
  }

  lemma SoundAfterBlock(l: Ledger, b: Block)
    requires Sound(l)
    requires Acceptable(l, b)
    ensures Sound(ApplyBlock(l, b))
  {
    var l' := ApplyBlock(l, b);
    assert forall t :: t in b.txs ==> ContextOk(l, t);
    SoundAfterTxs(l.txs, l.coins, b.txs, b.header.height);
    SmallIndexes(l.coins, b.txs, b.header.height);
    StoredAssetsForm(l.assets, b.txs);
    forall x | x in l'.txs
      ensures l'.txs[x].height <= l'.height && l'.txs[x].tx.hash == x
    {
      StoredTxsForm(l.txs, b.txs, b.header.height, x);
    }
    forall x | x in l'.assets
      ensures x in l'.txs
    {
      StoredTxsForm(l.txs, b.txs, b.header.height, x);
    }
  }

  lemma {:induction false} ReplaySound(blocks: seq<Block>)
    requires ValidChain(blocks)
    ensures Sound(Replay(blocks))
    ensures Replay(blocks).height == |blocks| - 1
    ensures Replay(blocks).tip == if blocks == [] then ZERO_HASH else blocks[|blocks| - 1].header.hash
  {
    if blocks != [] {
      var before := blocks[..|blocks| - 1];
      ReplaySound(before);
      SoundAfterBlock(Replay(before), blocks[|blocks| - 1]);
    }
  }

  // ----- Taking transactions back -----

  function CoinsOf(ops: set<OutPoint>, txs: map<Hash, StoredTx>): map<OutPoint, Coin> {
    map op | op in ops && Resolves(txs, op) :: CoinAt(txs, op)
  }

  /** The coins a transaction spent, read back from the stored transactions. */
  function RestoredBy(t: Transaction, txs: map<Hash, StoredTx>): map<OutPoint, Coin> {
    CoinsOf(SpentBy(t), txs)
  }

  function UndoTx(coins: map<OutPoint, Coin>, t: Transaction, height: int, txs: map<Hash, StoredTx>): map<OutPoint, Coin> {
    (coins - CreatedBy(t, height).Keys) + RestoredBy(t, txs)
  }

  /** Transactions are taken back in the order in which they were applied. */
  function UndoTxs(coins: map<OutPoint, Coin>, ts: seq<Transaction>, height: int, txs: map<Hash, StoredTx>): map<OutPoint, Coin> {
    if ts == [] then coins
    else UndoTx(UndoTxs(coins, ts[..|ts| - 1], height, txs), ts[|ts| - 1], height, txs)
  }

  function RestoredAll(ts: seq<Transaction>, txs: map<Hash, StoredTx>): map<OutPoint, Coin> {
    CoinsOf(SpentAll(ts), txs)
  }

  lemma RemoveThenAdd<K, V>(m: map<K, V>, c: set<K>, r: map<K, V>, c': set<K>, r': map<K, V>)
    requires r.Keys !! c'
    ensures (((m - c) + r) - c') + r' == (m - (c + c')) + (r + r')
  {
    var left, right := (((m - c) + r) - c') + r', (m - (c + c')) + (r + r');
    assert left.Keys == right.Keys;
  }

  lemma RestoredStep(ts: seq<Transaction>, txs: map<Hash, StoredTx>)
    requires ts != []
    ensures RestoredAll(ts, txs) == RestoredAll(ts[..|ts| - 1], txs) + RestoredBy(ts[|ts| - 1], txs)
  {
  }

  lemma CreatedStep(ts: seq<Transaction>, height: int)
    requires ts != []
    ensures CreatedAll(ts, height).Keys ==
            CreatedAll(ts[..|ts| - 1], height).Keys + CreatedBy(ts[|ts| - 1], height).Keys
  {
  }

  lemma {:induction false} UndoneForm(coins: map<OutPoint, Coin>, ts: seq<Transaction>, height: int, txs: map<Hash, StoredTx>)
    requires SpentAll(ts) !! CreatedAll(ts, height).Keys
    ensures UndoTxs(coins, ts, height, txs) == (coins - CreatedAll(ts, height).Keys) + RestoredAll(ts, txs)
  {
    if ts == [] {
      assert UndoTxs(coins, ts, height, txs) == coins;
    } else {
      var before, t := ts[..|ts| - 1], ts[|ts| - 1];
      UndoneForm(coins, before, height, txs);
      RestoredStep(ts, txs);
      CreatedStep(ts, height);
      RemoveThenAdd(coins, CreatedAll(before, height).Keys, RestoredAll(before, txs), CreatedBy(t, height).Keys, RestoredBy(t, txs));
    }
  }

  /** Outputs of transactions that are new to the ledger are no coins of it. */
  lemma {:induction false} CreatedAreNew(txs: map<Hash, StoredTx>, coins: map<OutPoint, Coin>, ts: seq<Transaction>, height: int)
    requires CoinsSound(txs, coins)
    requires forall t :: t in ts ==> t.hash !in txs
    ensures CreatedAll(ts, height).Keys !! coins.Keys
  {
    if ts != [] {
      CreatedAreNew(txs, coins, ts[..|ts| - 1], height);
      assert ts[|ts| - 1] in ts;
    }
  }

  lemma SpentIsCoins(l: Ledger, t: Transaction)
    requires ContextOk(l, t)
    ensures SpentBy(t) <= l.coins.Keys
  {
    forall op | op in SpentBy(t)
      ensures op in l.coins
    {
      var k :| 0 <= k < |t.inputs| && Ref(t.inputs[k]) == op;
      assert InputOk(l, t.inputs[k]);
    }
  }

  lemma {:induction false} SpentAreCoins(l: Ledger, ts: seq<Transaction>)
    requires AllContextOk(l, ts)
    ensures SpentAll(ts) <= l.coins.Keys
  {
    if ts != [] {
      var before, t := ts[..|ts| - 1], ts[|ts| - 1];
      assert ContextOk(l, t);
      forall u | u in before
        ensures ContextOk(l, u)
      {
        assert u in ts;
      }
      SpentAreCoins(l, before);
      SpentIsCoins(l, t);
    }
  }

  lemma TakeBack<K, V>(m: map<K, V>, c: map<K, V>, s: set<K>, r: map<K, V>)
    requires c.Keys !! m.Keys
    requires s <= m.Keys
    requires r.Keys == s
    requires forall k :: k in s ==> r[k] == m[k]
    ensures (((m + c) - s) - c.Keys) + r == m
  {
    var back := (((m + c) - s) - c.Keys) + r;
    assert back.Keys == m.Keys;
  }

  /** The coins that were spent, read back from tables that still hold their transactions. */
  lemma CoinsReadBack(l: Ledger, ops: set<OutPoint>, txs: map<Hash, StoredTx>)
    requires CoinsSound(l.txs, l.coins)
    requires ops <= l.coins.Keys
    requires forall x :: x in l.txs ==> x in txs && txs[x] == l.txs[x]
    ensures CoinsOf(ops, txs).Keys == ops
    ensures forall op :: op in ops ==> CoinsOf(ops, txs)[op] == l.coins[op]
  {
    forall op | op in ops
      ensures Resolves(txs, op) && CoinAt(txs, op) == l.coins[op]
    {
      assert Resolves(l.txs, op);
    }
  }

  /** Applying a block's transactions and taking them back gives the coins back. */
  lemma UndoApply(l: Ledger, ts: seq<Transaction>, height: int, txs: map<Hash, StoredTx>)
    requires CoinsSound(l.txs, l.coins)
    requires AllContextOk(l, ts)
    requires forall x :: x in l.txs ==> x in txs && txs[x] == l.txs[x]
    ensures UndoTxs(ApplyTxs(l.coins, ts, height), ts, height, txs) == l.coins
  {
    MidBlock(l, ts, height, |ts|);
    assert ts[..|ts|] == ts;
    UndoneForm(ApplyTxs(l.coins, ts, height), ts, height, txs);
    CoinsReadBack(l, SpentAll(ts), txs);
    TakeBack(l.coins, CreatedAll(ts, height), SpentAll(ts), RestoredAll(ts, txs));
  }

  // ----- What holds in the middle of a block -----

  lemma ContextOfPrefix(l: Ledger, ts: seq<Transaction>, n: nat)
    requires n <= |ts|
    requires AllContextOk(l, ts)
    ensures AllContextOk(l, ts[..n])
  {
  }

  /** The coins before transaction n of a block: the old ones still unspent, and the new ones. */
  lemma MidBlock(l: Ledger, ts: seq<Transaction>, height: int, n: nat)
    requires CoinsSound(l.txs, l.coins)
    requires AllContextOk(l, ts)
    requires n <= |ts|
    ensures SpentAll(ts[..n]) <= l.coins.Keys
    ensures CreatedAll(ts[..n], height).Keys !! l.coins.Keys
    ensures ApplyTxs(l.coins, ts[..n], height) == (l.coins + CreatedAll(ts[..n], height)) - SpentAll(ts[..n])
  {
    ContextOfPrefix(l, ts, n);
    assert forall t :: t in ts[..n] ==> ContextOk(l, t);
    CreatedAreNew(l.txs, l.coins, ts[..n], height);
    SpentAreCoins(l, ts[..n]);
    AppliedForm(l.coins, ts[..n], height);
  }

  lemma CreatedNewMidBlock(l: Ledger, ts: seq<Transaction>, height: int, n: nat)
    requires CoinsSound(l.txs, l.coins)
    requires DistinctHashes(ts)
    requires AllContextOk(l, ts)
    requires n < |ts|
    ensures CreatedBy(ts[n], height).Keys !! ApplyTxs(l.coins, ts[..n], height).Keys
    ensures forall op :: op in ApplyTxs(l.coins, ts[..n], height) ==> op.txid != ts[n].hash
  {
    ContextOfPrefix(l, ts, n);
    assert forall t :: t in ts[..n] ==> ContextOk(l, t);
    assert ContextOk(l, ts[n]);
    SoundAfterTxs(l.txs, l.coins, ts[..n], height);
    FreshAfter(l.txs, ts, height, n);
  }

  /** What transaction n spends was a coin of the ledger, and is one still unless spent in the block. */
  lemma SpentMidBlock(l: Ledger, ts: seq<Transaction>, height: int, n: nat)
    requires CoinsSound(l.txs, l.coins)
    requires AllContextOk(l, ts)
    requires n < |ts|
    ensures forall op :: op in SpentBy(ts[n]) ==>
                           && op in l.coins
                           && Resolves(l.txs, op)
                           && (op in ApplyTxs(l.coins, ts[..n], height) ==>
                                 ApplyTxs(l.coins, ts[..n], height)[op] == CoinAt(l.txs, op))
    ensures forall op :: op in SpentBy(ts[n]) ==>
                           (op in ApplyTxs(l.coins, ts[..n], height) <==> op !in SpentAll(ts[..n]))
  {
    MidBlock(l, ts, height, n);
    assert ContextOk(l, ts[n]);
    SpentIsCoins(l, ts[n]);
  }

  /** A set of outputs avoids what the first n transactions spend when it avoids each of them. */
  lemma {:induction false} AvoidsAll(ts: seq<Transaction>, n: nat, ops: set<OutPoint>)
    requires n <= |ts|
    ensures ops !! SpentAll(ts[..n]) <==> forall k :: 0 <= k < n ==> SpentBy(ts[k]) !! ops
  {
    if n > 0 {
      AvoidsAll(ts, n - 1, ops);
      assert ts[..n][..n - 1] == ts[..n - 1];
    }
  }

  lemma DisjointStep(ts: seq<Transaction>, n: nat)
    requires n < |ts|
    ensures DisjointUpTo(ts, n + 1) <==> DisjointUpTo(ts, n) && SpentBy(ts[n]) !! SpentAll(ts[..n])
  {
    AvoidsAll(ts, n, SpentBy(ts[n]));
  }

  // ----- What holds in the middle of taking a block back -----

  lemma {:induction false} CreatedByHash(ts: seq<Transaction>, height: int, op: OutPoint)
    requires op in CreatedAll(ts, height)
    ensures op.txid in TxHashes(ts)
  {
    var n := |ts| - 1;
    assert TxHashes(ts) == TxHashes(ts[..n]) + [ts[n].hash];
    if op !in CreatedBy(ts[n], height) {
      CreatedByHash(ts[..n], height, op);
    }
  }

  lemma {:induction false} CreatedAt(ts: seq<Transaction>, height: int, n: nat, op: OutPoint)
    requires DistinctHashes(ts)
    requires n < |ts|
    requires op in CreatedBy(ts[n], height)
    ensures op in CreatedAll(ts, height)
    ensures CreatedAll(ts, height)[op] == CreatedBy(ts[n], height)[op]
    ensures op !in CreatedAll(ts[..n], height)
  {
    if op in CreatedAll(ts[..n], height) {
      CreatedByHash(ts[..n], height, op);
    }
    var last := |ts| - 1;
    if n < last {
      CreatedAt(ts[..last], height, n, op);
      assert ts[n].hash != ts[last].hash;
      assert ts[..last][..n] == ts[..n];
    }
  }

  lemma {:induction false} SpentAt(ts: seq<Transaction>, n: nat)
    requires n < |ts|
    ensures SpentBy(ts[n]) <= SpentAll(ts)
  {
    var last := |ts| - 1;
    if n < last {
      SpentAt(ts[..last], n);
    }
  }

  /** The coins when the first n transactions of the block have been taken back. */
  lemma UndoneMidBlock(l: Ledger, ts: seq<Transaction>, height: int, n: nat, txs: map<Hash, StoredTx>)
    requires CoinsSound(l.txs, l.coins)
    requires AllContextOk(l, ts)
    requires n <= |ts|
    ensures UndoTxs(ApplyTxs(l.coins, ts, height), ts[..n], height, txs) ==
            (((l.coins + CreatedAll(ts, height)) - SpentAll(ts)) - CreatedAll(ts[..n], height).Keys) + RestoredAll(ts[..n], txs)
    ensures CreatedAll(ts, height).Keys !! l.coins.Keys
    ensures SpentAll(ts) <= l.coins.Keys
    ensures SpentAll(ts[..n]) <= l.coins.Keys
  {
    MidBlock(l, ts, height, |ts|);
    assert ts[..|ts|] == ts;
    MidBlock(l, ts, height, n);
    UndoneForm(ApplyTxs(l.coins, ts, height), ts[..n], height, txs);
  }

  /** The next transaction's outputs are still coins, and what it spent is not a coin yet. */
  lemma NextToUndo(l: Ledger, ts: seq<Transaction>, height: int, n: nat, txs: map<Hash, StoredTx>)
    requires CoinsSound(l.txs, l.coins)
    requires AllContextOk(l, ts)
    requires DistinctHashes(ts)
    requires DisjointSpends(ts)
    requires n < |ts|
    ensures var cur := UndoTxs(ApplyTxs(l.coins, ts, height), ts[..n], height, txs);
            && (forall op :: op in CreatedBy(ts[n], height) ==> op in cur && cur[op] == CreatedBy(ts[n], height)[op])
            && SpentBy(ts[n]) !! cur.Keys
  {
    UndoneMidBlock(l, ts, height, n, txs);
    var cur := UndoTxs(ApplyTxs(l.coins, ts, height), ts[..n], height, txs);
    forall op | op in CreatedBy(ts[n], height)
      ensures op in cur && cur[op] == CreatedBy(ts[n], height)[op]
    {
      CreatedAt(ts, height, n, op);
    }
    SpentAt(ts, n);
    DisjointStep(ts, n);
  }

  lemma {:induction false} CreatedOnlyBy(ts: seq<Transaction>, height: int, n: nat, op: OutPoint)
    requires DistinctHashes(ts)
    requires n < |ts|
    requires op in CreatedAll(ts, height)
    requires op.txid == ts[n].hash
    ensures op in CreatedBy(ts[n], height)
  {
    var last := |ts| - 1;
    if n < last {
      assert ts[n].hash != ts[last].hash;
      CreatedOnlyBy(ts[..last], height, n, op);
    } else if op in CreatedAll(ts[..last], height) {
      CreatedByHash(ts[..last], height, op);
    }
  }

  /** Of the next transaction to take back, only its own outputs are coins. */
  lemma NextToUndoOnly(l: Ledger, ts: seq<Transaction>, height: int, n: nat, txs: map<Hash, StoredTx>)
    requires CoinsSound(l.txs, l.coins)
    requires AllContextOk(l, ts)
    requires DistinctHashes(ts)
    requires n < |ts|
    ensures forall op :: op in UndoTxs(ApplyTxs(l.coins, ts, height), ts[..n], height, txs) && op.txid == ts[n].hash ==>
                           op in CreatedBy(ts[n], height)
  {
    UndoneMidBlock(l, ts, height, n, txs);
    assert ContextOk(l, ts[n]);
    forall op | op in UndoTxs(ApplyTxs(l.coins, ts, height), ts[..n], height, txs) && op.txid == ts[n].hash
      ensures op in CreatedBy(ts[n], height)
    {
      assert op !in l.coins;
      CreatedOnlyBy(ts, height, n, op);
    }
  }

  // ----- Taking stored transactions and assets back -----

  function DropTxs(txs: map<Hash, StoredTx>, ts: seq<Transaction>): map<Hash, StoredTx> {
    if ts == [] then txs else DropTxs(txs, ts[..|ts| - 1]) - {ts[|ts| - 1].hash}
  }

  function DropAssets(assets: map<Hash, Asset>, ts: seq<Transaction>): map<Hash, Asset> {
    if ts == [] then assets
    else
      var t := ts[|ts| - 1];
      var before := DropAssets(assets, ts[..|ts| - 1]);
      if t.IsRegisterAsset() then before - {t.hash} else before
  }

  lemma {:induction false} DroppedTxsForm(txs: map<Hash, StoredTx>, ts: seq<Transaction>, x: Hash)
    ensures x in DropTxs(txs, ts) <==> x in txs && x !in TxHashes(ts)
    ensures x in DropTxs(txs, ts) ==> DropTxs(txs, ts)[x] == txs[x]
  {
    if ts != [] {
      var n := |ts| - 1;
      DroppedTxsForm(txs, ts[..n], x);
      assert TxHashes(ts) == TxHashes(ts[..n]) + [ts[n].hash];
    }
  }

  lemma DropStoredTxs(txs: map<Hash, StoredTx>, ts: seq<Transaction>, height: int)
    requires forall t :: t in ts ==> t.hash !in txs
    ensures DropTxs(StoreTxs(txs, ts, height), ts) == txs
  {
    forall x
      ensures x in DropTxs(StoreTxs(txs, ts, height), ts) <==> x in txs
      ensures x in txs ==> DropTxs(StoreTxs(txs, ts, height), ts)[x] == txs[x]
    {
      DroppedTxsForm(StoreTxs(txs, ts, height), ts, x);
      StoredTxsForm(txs, ts, height, x);
      assert forall i :: 0 <= i < |ts| ==> TxHashes(ts)[i] == ts[i].hash && ts[i] in ts;
    }
  }

  /** The hashes of the assets that a list of transactions registers. */
  function Registered(ts: seq<Transaction>): set<Hash> {
    if ts == [] then {}
    else
      var t := ts[|ts| - 1];
      Registered(ts[..|ts| - 1]) + if t.IsRegisterAsset() then {t.hash} else {}
  }

  lemma {:induction false} RegisteredAreHashes(ts: seq<Transaction>)
    ensures forall x :: x in Registered(ts) ==> exists t :: t in ts && t.hash == x
  {
    if ts != [] {
      var n := |ts| - 1;
      RegisteredAreHashes(ts[..n]);
      forall x | x in Registered(ts)
        ensures exists t :: t in ts && t.hash == x
      {
        if x in Registered(ts[..n]) {
          var t :| t in ts[..n] && t.hash == x;
          assert t in ts;
        } else {
          assert ts[n] in ts;
        }
      }
    }
  }

  lemma {:induction false} AssetsForm(assets: map<Hash, Asset>, ts: seq<Transaction>)
    ensures StoreAssets(assets, ts).Keys == assets.Keys + Registered(ts)
    ensures forall x :: x in assets && x !in Registered(ts) ==> StoreAssets(assets, ts)[x] == assets[x]
    ensures DropAssets(assets, ts) == assets - Registered(ts)
  {
    if ts == [] {
      assert assets - {} == assets;
    } else {
      AssetsForm(assets, ts[..|ts| - 1]);
    }
  }

  lemma DropAdded<K, V>(m: map<K, V>, m': map<K, V>, s: set<K>)
    requires m'.Keys == m.Keys + s
    requires s !! m.Keys
    requires forall k :: k in m ==> m'[k] == m[k]
    ensures m' - s == m
  {
    assert (m' - s).Keys == m.Keys;
  }

  lemma DropStoredAssets(assets: map<Hash, Asset>, ts: seq<Transaction>)
    requires forall t :: t in ts ==> t.hash !in assets
    ensures DropAssets(StoreAssets(assets, ts), ts) == assets
  {
    RegisteredAreHashes(ts);
    AssetsForm(assets, ts);
    AssetsForm(StoreAssets(assets, ts), ts);
    forall x | x in Registered(ts)
      ensures x !in assets
    {
      var t :| t in ts && t.hash == x;
    }
    forall x | x in assets
      ensures StoreAssets(assets, ts)[x] == assets[x]
    {
      assert x !in Registered(ts);
    }
    DropAdded(assets, StoreAssets(assets, ts), Registered(ts));
  }

  // ----- What a chain's ledger keeps of each of its blocks -----

  lemma {:induction false} StoredTxAt(txs: map<Hash, StoredTx>, ts: seq<Transaction>, height: int, n: nat)
    requires DistinctHashes(ts)
    requires n < |ts|
    ensures ts[n].hash in StoreTxs(txs, ts, height)
    ensures StoreTxs(txs, ts, height)[ts[n].hash] == StoredTx(ts[n], height)
  {
    var last := |ts| - 1;
    if n < last {
      StoredTxAt(txs, ts[..last], height, n);
      assert ts[n].hash != ts[last].hash;
    }
  }

  /** Storing new transactions leaves the old ones in place. */
  lemma StillStored(l: Ledger, ts: seq<Transaction>, height: int, x: Hash)
    requires AllContextOk(l, ts)
    requires x in l.txs
    ensures x in StoreTxs(l.txs, ts, height) && StoreTxs(l.txs, ts, height)[x] == l.txs[x]
  {
    StoredTxsForm(l.txs, ts, height, x);
    forall i | 0 <= i < |ts|
      ensures TxHashes(ts)[i] != x
    {
      assert ContextOk(l, ts[i]);
    }
  }

  /** A block is stored, and so are its transactions with its height and the assets they register. */
  ghost predicate Stored(l: Ledger, b: Block) {
    && b.header.hash in l.headers
    && l.headers[b.header.hash] == Trim(b)
    && (forall t :: t in b.txs ==> t.hash in l.txs && l.txs[t.hash] == StoredTx(t, b.header.height))
    && (forall t :: t in b.txs && t.IsRegisterAsset() ==> t.hash in l.assets && l.assets[t.hash] == t.payload.asset)
  }

  lemma {:induction false} StoredAssetAt(assets: map<Hash, Asset>, ts: seq<Transaction>, n: nat)
    requires DistinctHashes(ts)
    requires n < |ts| && ts[n].IsRegisterAsset()
    ensures ts[n].hash in StoreAssets(assets, ts)
    ensures StoreAssets(assets, ts)[ts[n].hash] == ts[n].payload.asset
  {
    var last := |ts| - 1;
    if n < last {
      StoredAssetAt(assets, ts[..last], n);
      assert ts[n].hash != ts[last].hash;
    }
  }

  lemma TipStored(l: Ledger, b: Block)
    requires DistinctHashes(b.txs)
    ensures Stored(ApplyBlock(l, b), b)
  {
    forall t | t in b.txs && t.IsRegisterAsset()
      ensures t.hash in ApplyBlock(l, b).assets && ApplyBlock(l, b).assets[t.hash] == t.payload.asset
    {
      var i :| 0 <= i < |b.txs| && b.txs[i] == t;
      StoredAssetAt(l.assets, b.txs, i);
    }
    forall t | t in b.txs
      ensures t.hash in ApplyBlock(l, b).txs && ApplyBlock(l, b).txs[t.hash] == StoredTx(t, b.header.height)
    {
      var i :| 0 <= i < |b.txs| && b.txs[i] == t;
      StoredTxAt(l.txs, b.txs, b.header.height, i);
    }
  }

  lemma StaysStored(l: Ledger, b: Block, earlier: Block)
    requires Acceptable(l, b)
    requires Stored(l, earlier)
    ensures Stored(ApplyBlock(l, b), earlier)
  {
    forall t | t in earlier.txs
      ensures t.hash in ApplyBlock(l, b).txs && ApplyBlock(l, b).txs[t.hash] == StoredTx(t, earlier.header.height)
    {
      StillStored(l, b.txs, b.header.height, t.hash);
    }
    forall t | t in earlier.txs && t.IsRegisterAsset()
      ensures t.hash in ApplyBlock(l, b).assets && ApplyBlock(l, b).assets[t.hash] == t.payload.asset
    {
      StillRegistered(l, b.txs, t.hash);
    }
  }

  lemma StillRegistered(l: Ledger, ts: seq<Transaction>, x: Hash)
    requires AllContextOk(l, ts)
    requires x in l.txs && x in l.assets
    ensures x in StoreAssets(l.assets, ts) && StoreAssets(l.assets, ts)[x] == l.assets[x]
  {
    StoredAssetsForm(l.assets, ts);
    forall i | 0 <= i < |ts|
      ensures TxHashes(ts)[i] != x
    {
      assert ContextOk(l, ts[i]);
    }
  }

  lemma {:induction false} ChainStored(blocks: seq<Block>, k: nat)
    requires ValidChain(blocks)
    requires k < |blocks|
    ensures Stored(Replay(blocks), blocks[k])
  {
    hide *;
    var n := |blocks| - 1;
    LastOfChain(blocks);
    if k < n {
      ChainStored(blocks[..n], k);
      StaysStored(Replay(blocks[..n]), blocks[n], blocks[k]);
    } else {
      TipStored(Replay(blocks[..n]), blocks[n]);
    }
  }

  lemma LastOfChain(blocks: seq<Block>)
    requires ValidChain(blocks) && blocks != []
    ensures var before, b := blocks[..|blocks| - 1], blocks[|blocks| - 1];
            && ValidChain(before)
            && Connectable(Replay(before), b) && Acceptable(Replay(before), b) && DistinctHashes(b.txs)
            && Replay(blocks) == ApplyBlock(Replay(before), b)
  {
    hide AllContextOk, ApplyBlock, DisjointSpends;
  }

  /** Every prefix of a valid chain is one, and the next block is connectable to its replay. */
  lemma {:induction false} ValidPrefix(blocks: seq<Block>, k: nat)
    requires ValidChain(blocks)
    requires k <= |blocks|
    ensures ValidChain(blocks[..k])
    ensures k < |blocks| ==> Connectable(Replay(blocks[..k]), blocks[k])
  {
    hide *;
    var n := |blocks| - 1;
    if k == |blocks| {
      assert blocks[..k] == blocks;
    } else {
      LastOfChain(blocks);
      if k < n {
        ValidPrefix(blocks[..n], k);
        assert blocks[..n][..k] == blocks[..k];
      }
    }
  }

  /** The stored headers are those of the chain's blocks. */
  lemma {:induction false} ChainHeaders(blocks: seq<Block>, h: Hash)
    requires ValidChain(blocks)
    ensures h in Replay(blocks).headers <==> exists k :: 0 <= k < |blocks| && blocks[k].header.hash == h
  {
    if blocks != [] {
      var n := |blocks| - 1;
      ChainHeaders(blocks[..n], h);
      if h in Replay(blocks[..n]).headers {
        var k :| 0 <= k < n && blocks[..n][k].header.hash == h;
        assert blocks[k].header.hash == h;
      }
      if k :| 0 <= k < |blocks| && blocks[k].header.hash == h {
        assert k == n || blocks[..n][k].header.hash == h;
      }
    }
  }

  /** The height table names the chain's blocks in order. */
  lemma {:induction false} ChainHeights(blocks: seq<Block>, k: int)
    requires ValidChain(blocks)
    ensures k in Replay(blocks).hashes <==> 0 <= k < |blocks|
    ensures 0 <= k < |blocks| ==> blocks[k].header.height == k && Replay(blocks).hashes[k] == blocks[k].header.hash
  {
    hide ValidChain, Sound, ApplyTxs, StoreTxs, StoreAssets, AllContextOk, TxsSane, DisjointSpends;
    if blocks != [] {
      var n := |blocks| - 1;
      LastOfChain(blocks);
      ChainHeights(blocks[..n], k);
      ReplaySound(blocks[..n]);
    }
  }
}

/** How much of each asset is unspent: what coinbases issued less what other transactions gave up. */
module Conservation {
  import opened Types
  import opened Ledger
  import opened TxValidator
  import opened Storage
  import UnspentIndex

  /** The outputs that a transaction hash stands for: hashes identify contents. */
  type Contents = Hash -> seq<TxOutput>

  ghost predicate Identified(txs: map<Hash, StoredTx>, outs: Contents) {
    forall x :: x in txs ==> txs[x].tx.outputs == outs(x)
  }


  // ----- The total of a set of coins -----

  ghost function ValueOf(c: Coin, asset: Hash): int {
    if c.assetID == asset then c.value else 0
  }

  ghost function Total(coins: map<OutPoint, Coin>, asset: Hash): int
    decreases |coins|
  {
    if coins == map[] then 0
    else
      var op :| op in coins;
      OneKeyLess(coins, op);
      ValueOf(coins[op], asset) + Total(coins - {op}, asset)
  }

  lemma RemoveTwo<K, V>(m: map<K, V>, j: K, k: K)
    ensures m - {j} - {k} == m - {k} - {j}
  {
    assert (m - {j} - {k}).Keys == (m - {k} - {j}).Keys;
  }

  /** Any coin can be taken out first. */
  lemma {:induction false} TotalWithout(coins: map<OutPoint, Coin>, op: OutPoint, asset: Hash)
    requires op in coins
    ensures Total(coins, asset) == ValueOf(coins[op], asset) + Total(coins - {op}, asset)
    decreases |coins|
  {
    var first :| first in coins && Total(coins, asset) == ValueOf(coins[first], asset) + Total(coins - {first}, asset);
    if first != op {
      OneKeyLess(coins, first);
      OneKeyLess(coins, op);
      TotalWithout(coins - {first}, op, asset);
      TotalWithout(coins - {op}, first, asset);
      RemoveTwo(coins, first, op);
    }
  }

  lemma TotalWith(coins: map<OutPoint, Coin>, op: OutPoint, c: Coin, asset: Hash)
    requires op !in coins
    ensures Total(coins[op := c], asset) == Total(coins, asset) + ValueOf(c, asset)
  {
    hide Total;
    TotalWithout(coins[op := c], op, asset);
    RestoreKey(coins, op, c);
  }

  // ----- One transaction -----

  /** The outputs that inputs name, an empty one where there is none. */
  ghost function Named(outs: Contents, inputs: seq<TxInput>): (r: seq<TxOutput>)
    ensures |r| == |inputs|
  {
    seq(|inputs|, k requires 0 <= k < |inputs| => NamedBy(outs, inputs[k]))
  }

  ghost function NamedBy(outs: Contents, i: TxInput): TxOutput {
    if i.referIndex < |outs(i.referTxID)| then outs(i.referTxID)[i.referIndex] else TxOutput(ZERO_HASH, 0, 0)
  }

  ghost function TakenIn(outs: Contents, t: Transaction): seq<TxOutput> {
    if t.IsRegisterAsset() || t.IsCoinBase() then [] else Named(outs, t.inputs)
  }

  ghost function PutOut(t: Transaction): seq<TxOutput> {
    if t.IsRegisterAsset() then [] else t.outputs
  }

  /** What a transaction takes in and does not put out. */
  ghost function Fee(outs: Contents, t: Transaction, asset: Hash): int {
    SumOf(TakenIn(outs, t), asset) - SumOf(PutOut(t), asset)
  }

  ghost predicate CoinNamed(outs: Contents, coins: map<OutPoint, Coin>, op: OutPoint)
    requires op in coins
  {
    && op.index < |outs(op.txid)|
    && coins[op].assetID == outs(op.txid)[op.index].assetID
    && coins[op].value == outs(op.txid)[op.index].value
  }

  ghost predicate CoinsNamed(outs: Contents, coins: map<OutPoint, Coin>) {
    forall op :: op in coins ==> CoinNamed(outs, coins, op)
  }

  lemma AddedOne(coins: map<OutPoint, Coin>, t: Transaction, height: int, n: nat)
    requires n < |t.outputs|
    ensures coins + CreatedUpTo(t, height, n + 1) ==
            (coins + CreatedUpTo(t, height, n))[OutPoint(t.hash, n) := CoinOf(t.outputs[n], height)]
  {
  }

  lemma {:induction false} TotalCreated(coins: map<OutPoint, Coin>, t: Transaction, height: int, n: nat, asset: Hash)
    requires n <= |t.outputs|
    requires forall op :: op in coins ==> op.txid != t.hash
    ensures Total(coins + CreatedUpTo(t, height, n), asset) == Total(coins, asset) + SumOf(t.outputs[..n], asset)
  {
    hide Total;
    if n == 0 {
      assert coins + map[] == coins;
    } else {
      TotalCreated(coins, t, height, n - 1, asset);
      AddedOne(coins, t, height, n - 1);
      TotalWith(coins + CreatedUpTo(t, height, n - 1), OutPoint(t.hash, n - 1), CoinOf(t.outputs[n - 1], height), asset);
      SumNext(t.outputs, n - 1, asset);
    }
  }

  lemma {:induction false} TotalSpent(outs: Contents, coins: map<OutPoint, Coin>, inputs: seq<TxInput>, n: nat, asset: Hash)
    requires n <= |inputs|
    requires DistinctRefs(inputs)
    requires CoinsNamed(outs, coins)
    requires forall k :: 0 <= k < n ==> Ref(inputs[k]) in coins
    ensures Total(coins - RefsUpTo(inputs, n), asset) == Total(coins, asset) - SumOf(Named(outs, inputs)[..n], asset)
  {
    hide *;
    if n == 0 {
      NothingSpent(outs, coins, inputs, asset);
    } else {
      var op := Ref(inputs[n - 1]);
      TotalSpent(outs, coins, inputs, n - 1, asset);
      RefsNext(coins, inputs, n - 1);
      TotalWithout(coins - RefsUpTo(inputs, n - 1), op, asset);
      SumNext(Named(outs, inputs), n - 1, asset);
      ValueNamed(outs, coins, inputs, n - 1, asset);
    }
  }

  lemma NothingSpent(outs: Contents, coins: map<OutPoint, Coin>, inputs: seq<TxInput>, asset: Hash)
    ensures coins - RefsUpTo(inputs, 0) == coins
    ensures SumOf(Named(outs, inputs)[..0], asset) == 0
  {
    assert coins - {} == coins;
  }

  lemma RefsNext(coins: map<OutPoint, Coin>, inputs: seq<TxInput>, n: nat)
    requires n < |inputs|
    requires DistinctRefs(inputs) && Ref(inputs[n]) in coins
    ensures coins - RefsUpTo(inputs, n + 1) == coins - RefsUpTo(inputs, n) - {Ref(inputs[n])}
    ensures Ref(inputs[n]) in coins - RefsUpTo(inputs, n)
    ensures (coins - RefsUpTo(inputs, n))[Ref(inputs[n])] == coins[Ref(inputs[n])]
  {
    UnspentIndex.RemoveOneMore(coins, RefsUpTo(inputs, n), Ref(inputs[n]));
    UnspentIndex.RefsDistinct(inputs, n);
  }

  lemma ValueNamed(outs: Contents, coins: map<OutPoint, Coin>, inputs: seq<TxInput>, n: nat, asset: Hash)
    requires n < |inputs| && Ref(inputs[n]) in coins && CoinsNamed(outs, coins)
    ensures var o := Named(outs, inputs)[n];
            ValueOf(coins[Ref(inputs[n])], asset) == if o.assetID == asset then o.value else 0
  {
    assert CoinNamed(outs, coins, Ref(inputs[n]));
    assert Named(outs, inputs)[n] == NamedBy(outs, inputs[n]);
  }

  lemma RefsInCoins(coins: map<OutPoint, Coin>, inputs: seq<TxInput>)
    requires Refs(inputs) <= coins.Keys
    ensures forall k :: 0 <= k < |inputs| ==> Ref(inputs[k]) in coins
  {
  }

  lemma NamedWithCreated(outs: Contents, coins: map<OutPoint, Coin>, t: Transaction, height: int)
    requires CoinsNamed(outs, coins)
    requires t.outputs == outs(t.hash)
    ensures CoinsNamed(outs, coins + CreatedBy(t, height))
  {
  }

  /** A transaction changes the total by what it puts out less what it takes in. */
  lemma TotalAfterTx(outs: Contents, coins: map<OutPoint, Coin>, t: Transaction, height: int, asset: Hash)
    requires CoinsNamed(outs, coins)
    requires t.outputs == outs(t.hash)
    requires forall op :: op in coins ==> op.txid != t.hash
    requires SpentBy(t) <= coins.Keys
    requires !t.IsCoinBase() ==> DistinctRefs(t.inputs)
    ensures Total(ApplyTx(coins, t, height), asset) == Total(coins, asset) - Fee(outs, t, asset)
    ensures CoinsNamed(outs, ApplyTx(coins, t, height))
  {
    hide Total, SumOf;
    var grown := coins + CreatedBy(t, height);
    NamedWithCreated(outs, coins, t, height);
    assert Total(grown, asset) == Total(coins, asset) + SumOf(PutOut(t), asset) by {
      if t.IsRegisterAsset() {
        assert coins + map[] == coins;
        NoSum(asset);
      } else {
        TotalCreated(coins, t, height, |t.outputs|, asset);
        assert t.outputs[..|t.outputs|] == t.outputs;
      }
    }
    if t.IsRegisterAsset() || t.IsCoinBase() {
      assert grown - {} == grown;
      NoSum(asset);
    } else {
      RefsInCoins(coins, t.inputs);
      TotalSpent(outs, grown, t.inputs, |t.inputs|, asset);
      assert Named(outs, t.inputs)[..|t.inputs|] == Named(outs, t.inputs);
    }
  }

  lemma NoSum(asset: Hash)
    ensures SumOf([], asset) == 0
  {
  }

  // ----- Blocks and chains -----

  /** What the coinbases of a list of transactions put out. */
  ghost function Issued(ts: seq<Transaction>, asset: Hash): int {
    if ts == [] then 0
    else
      var t := ts[|ts| - 1];
      Issued(ts[..|ts| - 1], asset) + if t.IsCoinBase() then SumOf(t.outputs, asset) else 0
  }

  /** What the other transactions take in and do not put out. */
  ghost function Fees(outs: Contents, ts: seq<Transaction>, asset: Hash): int {
    if ts == [] then 0
    else
      var t := ts[|ts| - 1];
      Fees(outs, ts[..|ts| - 1], asset) + if t.IsCoinBase() then 0 else Fee(outs, t, asset)
  }

  lemma IssuedOrFee(outs: Contents, ts: seq<Transaction>, n: nat, asset: Hash)
    requires n < |ts|
    ensures Issued(ts[..n + 1], asset) - Fees(outs, ts[..n + 1], asset) ==
            Issued(ts[..n], asset) - Fees(outs, ts[..n], asset) - Fee(outs, ts[n], asset)
  {
    assert ts[..n + 1][..n] == ts[..n];
    NoSum(asset);
  }

  /** A coinbase and one other transaction. */
  lemma IssuedByTwo(outs: Contents, s: Transaction, t: Transaction, asset: Hash)
    requires s.IsCoinBase() && !t.IsCoinBase()
    ensures Issued([s, t], asset) == SumOf(s.outputs, asset)
    ensures Fees(outs, [s, t], asset) == Fee(outs, t, asset)
  {
    hide Fee, SumOf;
    assert [s, t][..1] == [s] && [s][..0] == [];
    assert Issued([], asset) == 0 && Fees(outs, [], asset) == 0;
    assert Issued([s], asset) == Issued([], asset) + SumOf(s.outputs, asset);
    assert Fees(outs, [s], asset) == Fees(outs, [], asset);
  }

  ghost predicate TxsIdentified(ts: seq<Transaction>, outs: Contents) {
    forall t :: t in ts ==> t.outputs == outs(t.hash)
  }

  lemma {:induction false} TotalAfterTxs(outs: Contents, l: Ledger, ts: seq<Transaction>, height: int, n: nat, asset: Hash)
    requires CoinsSound(l.txs, l.coins) && CoinsNamed(outs, l.coins)
    requires TxsSane(ts) && AllContextOk(l, ts) && DisjointSpends(ts)
    requires TxsIdentified(ts, outs)
    requires n <= |ts|
    ensures Total(ApplyTxs(l.coins, ts[..n], height), asset) ==
            Total(l.coins, asset) + Issued(ts[..n], asset) - Fees(outs, ts[..n], asset)
    ensures CoinsNamed(outs, ApplyTxs(l.coins, ts[..n], height))
  {
    hide *;
    if n == 0 {
      NothingYet(outs, l, ts, height, asset);
    } else {
      TotalAfterTxs(outs, l, ts, height, n - 1, asset);
      TxFacts(outs, ts, n - 1);
      CreatedNewMidBlock(l, ts, height, n - 1);
      SpentStillThere(l, ts, height, n - 1);
      TotalAfterTx(outs, ApplyTxs(l.coins, ts[..n - 1], height), ts[n - 1], height, asset);
      IssuedOrFee(outs, ts, n - 1, asset);
      UnspentIndex.ApplyNext(l.coins, ts, height, n - 1);
    }
  }

  lemma NothingYet(outs: Contents, l: Ledger, ts: seq<Transaction>, height: int, asset: Hash)
    ensures ApplyTxs(l.coins, ts[..0], height) == l.coins
    ensures Issued(ts[..0], asset) == 0 == Fees(outs, ts[..0], asset)
  {
  }

  lemma TxFacts(outs: Contents, ts: seq<Transaction>, n: nat)
    requires TxsSane(ts) && TxsIdentified(ts, outs)
    requires n < |ts|
    ensures DistinctHashes(ts)
    ensures ts[n].outputs == outs(ts[n].hash)
    ensures !ts[n].IsCoinBase() ==> DistinctRefs(ts[n].inputs)
  {
  }

  lemma SpentStillThere(l: Ledger, ts: seq<Transaction>, height: int, n: nat)
    requires CoinsSound(l.txs, l.coins) && AllContextOk(l, ts) && DisjointSpends(ts)
    requires n < |ts|
    ensures SpentBy(ts[n]) <= ApplyTxs(l.coins, ts[..n], height).Keys
  {
    hide CoinsSound, AllContextOk;
    SpentMidBlock(l, ts, height, n);
    DisjointStep(ts, n);
  }

  ghost function IssuedBy(blocks: seq<Block>, asset: Hash): int {
    if blocks == [] then 0 else IssuedBy(blocks[..|blocks| - 1], asset) + Issued(blocks[|blocks| - 1].txs, asset)
  }

  ghost function FeesOf(outs: Contents, blocks: seq<Block>, asset: Hash): int {
    if blocks == [] then 0 else FeesOf(outs, blocks[..|blocks| - 1], asset) + Fees(outs, blocks[|blocks| - 1].txs, asset)
  }

  ghost predicate ChainIdentified(blocks: seq<Block>, outs: Contents) {
    forall k :: 0 <= k < |blocks| ==> TxsIdentified(blocks[k].txs, outs)
  }

  /** Along every chain, the unspent total is what coinbases issued less the differences of the other transactions. */
  lemma {:induction false} TotalOfChain(outs: Contents, blocks: seq<Block>, asset: Hash)
    requires ValidChain(blocks)
    requires ChainIdentified(blocks, outs)
    ensures Total(Replay(blocks).coins, asset) == IssuedBy(blocks, asset) - FeesOf(outs, blocks, asset)
    ensures CoinsNamed(outs, Replay(blocks).coins)
  {
    hide Total, Fees, Issued, Connectable, TxsIdentified;
    if blocks == [] {
      NoCoins(asset);
    } else {
      var before, b := blocks[..|blocks| - 1], blocks[|blocks| - 1];
      TotalOfChain(outs, before, asset);
      ReplaySound(before);
      TotalAfterBlock(outs, Replay(before), b, asset);
    }
  }

  lemma NoCoins(asset: Hash)
    ensures Total(map[], asset) == 0
  {
  }

  lemma TotalAfterBlock(outs: Contents, l: Ledger, b: Block, asset: Hash)
    requires Sound(l) && Connectable(l, b)
    requires CoinsNamed(outs, l.coins) && TxsIdentified(b.txs, outs)
    ensures Total(ApplyBlock(l, b).coins, asset) == Total(l.coins, asset) + Issued(b.txs, asset) - Fees(outs, b.txs, asset)
    ensures CoinsNamed(outs, ApplyBlock(l, b).coins)
  {
    hide Total, Fees, Issued, CoinsNamed, TxsIdentified, TxsSane, AllContextOk, DisjointSpends, ApplyTxs;
    TotalAfterTxs(outs, l, b.txs, b.header.height, |b.txs|, asset);
    assert b.txs[..|b.txs|] == b.txs;
  }

  // ----- The balance check and the fees -----

  predicate FitsInt64(x: int) {
    -0x8000_0000_0000_0000 <= x < 0x8000_0000_0000_0000
  }

  /** What the balance check says, stated of the outputs that hashes stand for. */
  ghost predicate Balanced(outs: Contents, t: Transaction, minFee: int) {
    t.IsCoinBase() ||
    ((forall k :: 0 <= k < |t.outputs| ==> t.outputs[k].value > 0) &&
     (forall a :: Mentions(TakenIn(outs, t), a) || Mentions(t.outputs, a) ==>
                    Wrap64(SumOf(TakenIn(outs, t), a) - SumOf(t.outputs, a)) >= minFee))
  }

  /** The check made against one store keeps its meaning in every other one. */
  lemma BalanceCarries(txs: map<Hash, StoredTx>, outs: Contents, t: Transaction, minFee: int)
    requires Identified(txs, outs)
    requires t.IsCoinBase() || BalanceOk(txs, t, minFee)
    ensures Balanced(outs, t, minFee)
  {
    hide Wrap64, SumOf, Mentions;
    if !t.IsCoinBase() && !t.IsRegisterAsset() {
      assert Referenced(txs, t.inputs) == Named(outs, t.inputs);
    }
  }

  /**
   * A transaction that passes the check gives up nothing of an asset it does not mention. Of one it mentions it gives
   * up at least the minimum, exactly when its outputs do not exceed its inputs by more than 2^63.
   */
  lemma FeeAtLeast(outs: Contents, t: Transaction, minFee: int, asset: Hash)
    requires Balanced(outs, t, minFee) && !t.IsCoinBase() && !t.IsRegisterAsset()
    requires FitsInt64(minFee)
    ensures Mentions(TakenIn(outs, t), asset) || Mentions(t.outputs, asset) ==>
              (Fee(outs, t, asset) >= minFee <==> NoUnderflow(outs, t, asset))
    ensures !Mentions(TakenIn(outs, t), asset) && !Mentions(t.outputs, asset) ==> Fee(outs, t, asset) == 0
  {
    hide SumOf, Mentions;
    if !Mentions(TakenIn(outs, t), asset) && !Mentions(t.outputs, asset) {
      SumOfNone(TakenIn(outs, t), asset);
      SumOfNone(t.outputs, asset);
    }
  }

  /** The difference that the check computes does not wrap around below. */
  ghost predicate NoUnderflow(outs: Contents, t: Transaction, asset: Hash) {
    Fee(outs, t, asset) >= -0x8000_0000_0000_0000
  }

  ghost predicate AllNoUnderflow(outs: Contents, ts: seq<Transaction>, asset: Hash) {
    forall t :: t in ts && !t.IsCoinBase() ==> NoUnderflow(outs, t, asset)
  }

  ghost predicate AllBalanced(outs: Contents, ts: seq<Transaction>, minFee: int) {
    forall t :: t in ts ==> Balanced(outs, t, minFee)
  }

  /** A transaction that passes the check takes in no less than it puts out, exactly when the difference does not wrap. */
  lemma FeeNonNegative(outs: Contents, t: Transaction, minFee: int, asset: Hash)
    requires Balanced(outs, t, minFee) && !t.IsCoinBase()
    requires 0 <= minFee && FitsInt64(minFee)
    ensures Fee(outs, t, asset) >= 0 <==> NoUnderflow(outs, t, asset)
  {
    hide Fee, Balanced, SumOf, Mentions;
    if t.IsRegisterAsset() {
      NoFee(outs, t, asset);
    } else {
      FeeAtLeast(outs, t, minFee, asset);
    }
  }

  lemma {:induction false} FeesNonNegative(outs: Contents, ts: seq<Transaction>, minFee: int, asset: Hash)
    requires 0 <= minFee && FitsInt64(minFee)
    requires AllBalanced(outs, ts, minFee) && AllNoUnderflow(outs, ts, asset)
    ensures Fees(outs, ts, asset) >= 0
  {
    hide Fee, Balanced, NoUnderflow;
    if ts != [] {
      var t := ts[|ts| - 1];
      assert t in ts;
      FeesNonNegative(outs, ts[..|ts| - 1], minFee, asset);
      if !t.IsCoinBase() {
        FeeNonNegative(outs, t, minFee, asset);
      }
    }
  }

  lemma NoFee(outs: Contents, t: Transaction, asset: Hash)
    requires t.IsRegisterAsset()
    ensures Fee(outs, t, asset) == 0
  {
    NoSum(asset);
  }

  /** A transaction of a block other than its coinbase raises the total of an asset exactly when the check wraps around. */
  lemma RaisesOnUnderflow(outs: Contents, l: Ledger, ts: seq<Transaction>, height: int, n: nat, minFee: int, asset: Hash)
    requires CoinsSound(l.txs, l.coins) && CoinsNamed(outs, l.coins)
    requires TxsSane(ts) && AllContextOk(l, ts) && DisjointSpends(ts)
    requires TxsIdentified(ts, outs)
    requires n < |ts| && !ts[n].IsCoinBase() && Balanced(outs, ts[n], minFee)
    requires 0 <= minFee && FitsInt64(minFee)
    ensures Total(ApplyTxs(l.coins, ts[..n + 1], height), asset) <= Total(ApplyTxs(l.coins, ts[..n], height), asset)
            <==> NoUnderflow(outs, ts[n], asset)
  {
    hide *;
    TotalAfterTxs(outs, l, ts, height, n, asset);
    TotalAfterTxs(outs, l, ts, height, n + 1, asset);
    IssuedOrFee(outs, ts, n, asset);
    FeeNonNegative(outs, ts[n], minFee, asset);
  }

  /** Only coinbases raise the total of an asset, as long as no check wraps around. */
  lemma OnlyCoinbasesIssue(outs: Contents, l: Ledger, b: Block, minFee: int, asset: Hash)
    requires Sound(l) && Connectable(l, b)
    requires CoinsNamed(outs, l.coins) && TxsIdentified(b.txs, outs)
    requires 0 <= minFee && FitsInt64(minFee)
    requires AllBalanced(outs, b.txs, minFee) && AllNoUnderflow(outs, b.txs, asset)
    ensures Total(ApplyBlock(l, b).coins, asset) <= Total(l.coins, asset) + Issued(b.txs, asset)
  {
    hide *;
    TotalAfterBlock(outs, l, b, asset);
    FeesNonNegative(outs, b.txs, minFee, asset);
  }

  /** Along a chain whose checks do not wrap around, no more of an asset is unspent than coinbases issued. */
  lemma NoMoreThanIssued(outs: Contents, blocks: seq<Block>, minFee: int, asset: Hash)
    requires ValidChain(blocks) && ChainIdentified(blocks, outs)
    requires 0 <= minFee && FitsInt64(minFee)
    requires forall k :: 0 <= k < |blocks| ==> AllBalanced(outs, blocks[k].txs, minFee)
    requires forall k :: 0 <= k < |blocks| ==> AllNoUnderflow(outs, blocks[k].txs, asset)
    ensures Total(Replay(blocks).coins, asset) <= IssuedBy(blocks, asset)
  {
    TotalOfChain(outs, blocks, asset);
    AllFeesNonNegative(outs, blocks, minFee, asset);
  }

  lemma {:induction false} AllFeesNonNegative(outs: Contents, blocks: seq<Block>, minFee: int, asset: Hash)
    requires 0 <= minFee && FitsInt64(minFee)
    requires forall k :: 0 <= k < |blocks| ==> AllBalanced(outs, blocks[k].txs, minFee)
    requires forall k :: 0 <= k < |blocks| ==> AllNoUnderflow(outs, blocks[k].txs, asset)
    ensures FeesOf(outs, blocks, asset) >= 0
  {
    hide AllBalanced, AllNoUnderflow, Fees;
    if blocks != [] {
      AllFeesNonNegative(outs, blocks[..|blocks| - 1], minFee, asset);
      FeesNonNegative(outs, blocks[|blocks| - 1].txs, minFee, asset);
    }
  }

  /** The stored transactions of a chain are what their hashes stand for. */
  lemma {:induction false} ChainTxsIdentified(outs: Contents, blocks: seq<Block>)
    requires ChainIdentified(blocks, outs)
    ensures Identified(Replay(blocks).txs, outs)
  {
    if blocks != [] {
      var before, b := blocks[..|blocks| - 1], blocks[|blocks| - 1];
      ChainTxsIdentified(outs, before);
      forall x | x in Replay(blocks).txs
        ensures Replay(blocks).txs[x].tx.outputs == outs(x)
      {
        StoredTxsForm(Replay(before).txs, b.txs, b.header.height, x);
      }
    }
  }

  // ----- Positive values -----

  /** Every stored transaction is in a block of the chain. */
  lemma {:induction false} StoredFrom(blocks: seq<Block>, x: Hash) returns (k: nat)
    requires x in Replay(blocks).txs
    ensures k < |blocks| && Replay(blocks).txs[x].tx in blocks[k].txs
  {
    var before, b := blocks[..|blocks| - 1], blocks[|blocks| - 1];
    StoredTxsForm(Replay(before).txs, b.txs, b.header.height, x);
    if x in TxHashes(b.txs) {
      k := |blocks| - 1;
    } else {
      k := StoredFrom(before, x);
    }
  }

  /** Along a chain whose transactions pass the check, only coinbases leave unspent outputs without value. */
  lemma UnspentPositive(outs: Contents, blocks: seq<Block>, minFee: int, op: OutPoint)
    requires ValidChain(blocks)
    requires forall k :: 0 <= k < |blocks| ==> AllBalanced(outs, blocks[k].txs, minFee)
    requires op in Replay(blocks).coins
    ensures op.txid in Replay(blocks).txs
    ensures Replay(blocks).txs[op.txid].tx.IsCoinBase() || Replay(blocks).coins[op].value > 0
  {
    hide ValidChain, Replay, Mentions, SumOf, Wrap64;
    ReplaySound(blocks);
    assert Resolves(Replay(blocks).txs, op);
    var k := StoredFrom(blocks, op.txid);
    var t := Replay(blocks).txs[op.txid].tx;
    assert Balanced(outs, t, minFee);
  }
}

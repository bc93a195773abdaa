/** Checks of a block on its own, and of the finality of its transactions. */
module BlockValidator {
  import opened Types
  import opened Ledger
  import opened Compact
  import opened Difficulty
  import opened Merkle
  import opened Storage
  import opened TxValidator

  /** The target is positive and within the limit, and the hash that counts as work does not exceed it. */
  predicate CheckProofOfWork(bits: nat, powLimit: nat, powHash: Hash) {
    var target := CompactToBig(bits);
    0 < target && target <= powLimit && powHash <= target
  }

  /** The work that the target counts for is not more than the hash makes likely: one in 2^256 / (hash + 1). */
  ghost predicate Backed(bits: nat, powHash: Hash) {
    0 <= powHash ==> (powHash + 1) * CalcWork(bits) <= TWO_TO_256
  }

  /** A hash that passes backs the work that the block is credited with. */
  lemma WorkIsBacked(bits: nat, powLimit: nat, powHash: Hash)
    requires CheckProofOfWork(bits, powLimit, powHash)
    ensures Backed(bits, powHash)
  {
    hide CompactToBig, CalcWork;
    WorkIsExpectedHashes(bits);
    if 0 <= powHash {
      ProductBelow(CalcWork(bits), powHash + 1, CompactToBig(bits) + 1);
    }
  }

  /** Of the hashes for an admissible target, the target itself is the last that passes. For any other target none does. */
  lemma LastPassingHash(bits: nat, powLimit: nat, powHash: Hash)
    ensures 0 < CompactToBig(bits) <= powLimit ==>
              && CheckProofOfWork(bits, powLimit, CompactToBig(bits))
              && !CheckProofOfWork(bits, powLimit, CompactToBig(bits) + 1)
              && (CheckProofOfWork(bits, powLimit, powHash) ==> CheckProofOfWork(bits, powLimit, powHash - 1))
    ensures !(0 < CompactToBig(bits) <= powLimit) ==> !CheckProofOfWork(bits, powLimit, powHash)
  {
    hide CompactToBig;
  }

  /** A greater hash than passes on every network: 2^255 never does. */
  lemma NoWorkNoBlock(bits: nat, powHash: Hash)
    requires TWO_TO_256 / 2 <= powHash
    ensures !CheckProofOfWork(bits, POW_LIMIT, powHash)
  {
    hide CompactToBig;
  }

  /** Sequence numbers are compared with the greatest 16-bit number. */
  predicate IsFinalized(t: Transaction, height: nat) {
    || t.lockTime == 0
    || t.lockTime < height
    || forall k :: 0 <= k < |t.inputs| ==> t.inputs[k].sequence == MAX_UINT16
  }

  /**
   A transaction that is final stays so. One with a lock time and an input whose sequence number is
   not 65535 becomes final one block after its lock time.
   */
  lemma FinalAfterLockTime(t: Transaction, height: nat)
    ensures IsFinalized(t, height) ==> IsFinalized(t, height + 1)
    ensures t.lockTime > 0 && (exists k :: 0 <= k < |t.inputs| && t.inputs[k].sequence != 65535) ==>
              !IsFinalized(t, t.lockTime) && IsFinalized(t, t.lockTime + 1)
    ensures (forall k :: 0 <= k < |t.inputs| ==> t.inputs[k].sequence == 65535) ==> IsFinalized(t, height)
  {
  }

  method IsFinalizedTransaction(t: Transaction, height: nat) returns (r: bool)
    ensures r <==> IsFinalized(t, height)
  {
    if t.lockTime == 0 {
      return true;
    }
    if t.lockTime < height {
      return true;
    }
    for i := 0 to |t.inputs|
      invariant forall k :: 0 <= k < i ==> t.inputs[k].sequence == MAX_UINT16
    {
      if t.inputs[i].sequence != MAX_UINT16 {
        return false;
      }
    }
    return true;
  }

  /** Exactly the first transaction is a coinbase. */
  ghost predicate CoinBaseFirst(ts: seq<Transaction>) {
    ts != [] && ts[0].IsCoinBase() && forall k :: 0 < k < |ts| ==> !ts[k].IsCoinBase()
  }

  ghost predicate TxSanityOk(txs: map<Hash, StoredTx>, t: Transaction, minFee: int, token: Token) {
    InputsSane(t) && OutputsSane(t, token) && (t.IsCoinBase() || BalanceOk(txs, t, minFee))
  }

  ghost predicate AllTxSanityOk(txs: map<Hash, StoredTx>, ts: seq<Transaction>, minFee: int, token: Token) {
    forall k :: 0 <= k < |ts| ==> TxSanityOk(txs, ts[k], minFee, token)
  }

  ghost predicate SanityOk(txs: map<Hash, StoredTx>, h: PairHash, powLimit: nat, minFee: int, token: Token, b: Block, powHash: Hash) {
    && CheckProofOfWork(b.header.bits, powLimit, powHash)
    && CoinBaseFirst(b.txs)
    && RootValid(h, b)
    && DistinctHashes(b.txs)
    && AllTxSanityOk(txs, b.txs, minFee, token)
  }

  method CoinBaseCheck(ts: seq<Transaction>) returns (ok: bool)
    ensures ok <==> CoinBaseFirst(ts)
  {
    if ts == [] {
      return false;
    }
    if !ts[0].IsCoinBase() {
      return false;
    }
    for i := 1 to |ts|
      invariant forall k :: 0 < k < i ==> !ts[k].IsCoinBase()
    {
      if ts[i].IsCoinBase() {
        return false;
      }
    }
    return true;
  }

  /** Duplicates are found by remembering the hashes already seen. */
  method DuplicateCheck(ts: seq<Transaction>) returns (ok: bool)
    ensures ok <==> DistinctHashes(ts)
  {
    var seen: set<Hash> := {};
    for i := 0 to |ts|
      invariant forall x :: x in seen <==> exists k :: 0 <= k < i && ts[k].hash == x
      invariant forall j, k :: 0 <= j < k < i ==> ts[j].hash != ts[k].hash
    {
      if ts[i].hash in seen {
        return false;
      }
      seen := seen + {ts[i].hash};
    }
    return true;
  }

  method TxSanityCheck(txs: map<Hash, StoredTx>, ts: seq<Transaction>, minFee: int, token: Token) returns (ok: bool)
    ensures ok <==> AllTxSanityOk(txs, ts, minFee, token)
  {
    hide InputsSane, OutputsSane, BalanceOk;
    for i := 0 to |ts|
      invariant forall k :: 0 <= k < i ==> TxSanityOk(txs, ts[k], minFee, token)
    {
      ok := CheckTransactionInput(ts[i]);
      if !ok {
        return;
      }
      ok := CheckTransactionOutput(ts[i], token);
      if !ok {
        return;
      }
      if !ts[i].IsCoinBase() {
        ok := CheckTransactionBalance(txs, ts[i], minFee);
        if !ok {
          return;
        }
      }
    }
    return true;
  }

  /** The flag stands for the checks that are not modelled: sizes, clocks, scripts and asset precisions. */
  method PowCheckBlockSanity(
    txs: map<Hash, StoredTx>, h: PairHash, powLimit: nat, minFee: int, token: Token, b: Block, powHash: Hash, others: bool)
    returns (ok: bool)
    ensures ok <==> others && SanityOk(txs, h, powLimit, minFee, token, b, powHash)
    ensures ok ==> Backed(b.header.bits, powHash)
  {
    if !CheckProofOfWork(b.header.bits, powLimit, powHash) || !others {
      return false;
    }
    WorkIsBacked(b.header.bits, powLimit, powHash);
    ok := CoinBaseCheck(b.txs);
    if !ok {
      return;
    }
    var root := Root(h, TxHashes(b.txs));
    if b.header.root != root {
      return false;
    }
    ok := DuplicateCheck(b.txs);
    if !ok {
      return;
    }
    ok := TxSanityCheck(txs, b.txs, minFee, token);
  }

  /** What the block checks give the ledger: distinct hashes and distinct inputs per transaction. */
  lemma SanityGivesTxsSane(txs: map<Hash, StoredTx>, h: PairHash, powLimit: nat, minFee: int, token: Token, b: Block, powHash: Hash)
    requires SanityOk(txs, h, powLimit, minFee, token, b, powHash)
    requires forall t :: t in b.txs ==> |t.outputs| <= MAX_OUTPUTS
    ensures TxsSane(b.txs)
  {
    hide BalanceOk, OutputsSane, CompactToBig;
    forall t | t in b.txs && !t.IsCoinBase()
      ensures DistinctRefs(t.inputs)
    {
      var k :| 0 <= k < |b.txs| && b.txs[k] == t;
      assert TxSanityOk(txs, b.txs[k], minFee, token);
    }
  }

  /** The root in the header fixes the transaction list among blocks that pass the checks. */
  lemma SaneRootDeterminesTransactions(
    txs: map<Hash, StoredTx>, h: PairHash, powLimit: nat, minFee: int, token: Token, b: Block, powHash: Hash, b': Block, powHash': Hash)
    requires CollisionFree(h)
    requires SanityOk(txs, h, powLimit, minFee, token, b, powHash)
    requires SanityOk(txs, h, powLimit, minFee, token, b', powHash')
    requires b.header.root == b'.header.root
    requires Depth(|b.txs|) == Depth(|b'.txs|)
    ensures TxHashes(b.txs) == TxHashes(b'.txs)
  {
    hide AllTxSanityOk, CheckProofOfWork, CollisionFree, Root, Depth, CoinBaseFirst;
    RootDeterminesList(h, TxHashes(b.txs), TxHashes(b'.txs));
  }

  // ----- What a block that passes does -----

  /** Every transaction but the coinbase and registrations spends something, and never the null reference. */
  lemma SaneSpends(txs: map<Hash, StoredTx>, h: PairHash, powLimit: nat, minFee: int, token: Token, b: Block, powHash: Hash, k: nat)
    requires SanityOk(txs, h, powLimit, minFee, token, b, powHash) && 0 < k < |b.txs| && !b.txs[k].IsRegisterAsset()
    ensures SpentBy(b.txs[k]) != {} && OutPoint(ZERO_HASH, 65535) !in SpentBy(b.txs[k])
  {
    hide BalanceOk, CompactToBig, Root, DistinctHashes, OutputsSane;
    var t := b.txs[k];
    assert TxSanityOk(txs, t, minFee, token);
    assert Ref(t.inputs[0]) in SpentBy(t);
  }

  lemma SaneCoinbase(txs: map<Hash, StoredTx>, h: PairHash, powLimit: nat, minFee: int, token: Token, b: Block, powHash: Hash)
    requires SanityOk(txs, h, powLimit, minFee, token, b, powHash)
    ensures CoinBaseFirst(b.txs) && OutputsSane(b.txs[0], token) && b.txs[0].IsCoinBase()
  {
    hide BalanceOk, CompactToBig, Root, DistinctHashes, OutputsSane, InputsSane;
    assert TxSanityOk(txs, b.txs[0], minFee, token);
  }
}

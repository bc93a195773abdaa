/** The chain store: its tables, and the persist and rollback code of each of them. */
module Storage {
  import opened Types
  import opened Ledger
  import opened UnspentIndex
  import opened Merkle
  import OwnerIndex
  import TransactionIndex

  /** The key families of the database. */
  datatype Tables = Tables(
    headers: map<Hash, TrimmedBlock>,
    hashes: map<int, Hash>,
    txs: map<Hash, StoredTx>,
    assets: map<Hash, Asset>,
    unspent: map<Hash, seq<int>>,
    utxos: map<UnspentKey, seq<Unspent>>,
    current: Option<(Hash, int)>)

  /** The tables hold the ledger: the unspent lists up to their order, everything else exactly. */
  ghost predicate Matches(t: Tables, l: Ledger) {
    && t.headers == l.headers
    && t.hashes == l.hashes
    && t.txs == l.txs
    && t.assets == l.assets
    && UnspentOk(t.unspent, l.coins)
    && UtxosOk(t.utxos, l.coins)
    && (l.height >= 0 ==> t.current == Some((l.tip, l.height)))
  }

  /** Equal tables, except that unspent lists may be ordered differently. */
  ghost predicate SameUpToOrder(t: Tables, t': Tables) {
    && t.headers == t'.headers
    && t.hashes == t'.hashes
    && t.txs == t'.txs
    && t.assets == t'.assets
    && t.current == t'.current
    && t.unspent.Keys == t'.unspent.Keys
    && (forall x :: x in t.unspent ==> multiset(t.unspent[x]) == multiset(t'.unspent[x]))
    && t.utxos.Keys == t'.utxos.Keys
    && (forall k :: k in t.utxos ==> multiset(t.utxos[k]) == multiset(t'.utxos[k]))
  }

  function LoadedTxs(txs: map<Hash, StoredTx>, txids: seq<Hash>): seq<Transaction>
    requires forall i :: 0 <= i < |txids| ==> txids[i] in txs
  {
    seq(|txids|, i requires 0 <= i < |txids| => txs[txids[i]].tx)
  }

  /** The block that the stored trimmed block and transactions amount to, if they are all there. */
  function Rebuilt(t: Tables, h: PairHash, hash: Hash): Option<Block> {
    if hash !in t.headers || t.headers[hash].txids == [] || (exists i :: 0 <= i < |t.headers[hash].txids| && t.headers[hash].txids[i] !in t.txs) then
      None
    else
      var txids := t.headers[hash].txids;
      Some(Block(t.headers[hash].header.(root := Root(h, txids)), LoadedTxs(t.txs, txids)))
  }

  ghost predicate RootValid(h: PairHash, b: Block) {
    b.txs != [] && b.header.root == Root(h, TxHashes(b.txs))
  }

  lemma RestoreKey<K, V>(m: map<K, V>, k: K, v: V)
    requires k !in m
    ensures m[k := v] - {k} == m
  {
  }

  /** A block in which some output is spent twice changes the set of coins. */
  lemma DoubleSpendChangesCoins(l: Ledger, ts: seq<Transaction>, height: int)
    requires Sound(l)
    requires AllContextOk(l, ts)
    requires !DisjointSpends(ts)
    ensures ApplyTxs(l.coins, ts, height).Keys != l.coins.Keys
  {
    MidBlock(l, ts, height, |ts|);
    assert ts[..|ts|] == ts;
    var i, j :| 0 <= i < j < |ts| && !(SpentBy(ts[i]) !! SpentBy(ts[j]));
    var op :| op in SpentBy(ts[i]) && op in SpentBy(ts[j]);
    SpentAt(ts, i);
    assert op in l.coins && op !in ApplyTxs(l.coins, ts, height);
  }

  // ----- What tables that hold a ledger say -----

  /** The ledger determines its tables, up to the order inside the unspent lists. */
  lemma MatchesUnique(t: Tables, t': Tables, l: Ledger)
    requires l.height >= 0
    requires Matches(t, l) && Matches(t', l)
    ensures SameUpToOrder(t, t')
  {
    forall x
      ensures x in t.unspent <==> x in t'.unspent
      ensures multiset(Slot(t.unspent, x)) == multiset(Slot(t'.unspent, x))
    {
      assert Lists(Look(t.unspent, map[], x), IndexesAt(l.coins, x));
      assert Lists(Look(t'.unspent, map[], x), IndexesAt(l.coins, x));
      ListsSame(Slot(t.unspent, x), Slot(t'.unspent, x), IndexesAt(l.coins, x));
    }
    forall k
      ensures k in t.utxos <==> k in t'.utxos
      ensures multiset(Slot(t.utxos, k)) == multiset(Slot(t'.utxos, k))
    {
      assert Lists(Look(t.utxos, map[], k), CoinsAt(l.coins, k));
      assert Lists(Look(t'.utxos, map[], k), CoinsAt(l.coins, k));
      ListsSame(Slot(t.utxos, k), Slot(t'.utxos, k), CoinsAt(l.coins, k));
    }
    assert forall x :: x in t.unspent ==> Slot(t.unspent, x) == t.unspent[x] && Slot(t'.unspent, x) == t'.unspent[x];
    assert forall k :: k in t.utxos ==> Slot(t.utxos, k) == t.utxos[k] && Slot(t'.utxos, k) == t'.utxos[k];
  }

  /** Both indexes list the same outputs. */
  lemma MatchesAgree(t: Tables, l: Ledger)
    requires Matches(t, l)
    ensures IndexesAgree(t.unspent, t.utxos)
  {
    AgreeIff(t.unspent, l.coins, t.utxos, l.coins);
  }

  /** Key and entry of the index by owner say what the stored transaction says. */
  lemma EntryMatchesTransaction(t: Tables, l: Ledger, k: UnspentKey, e: Unspent)
    requires Matches(t, l) && Sound(l)
    requires e in Slot(t.utxos, k)
    ensures e.txid in t.txs
    ensures e.index < |t.txs[e.txid].tx.outputs|
    ensures t.txs[e.txid].tx.outputs[e.index] == TxOutput(k.assetID, e.value, k.programHash)
    ensures t.txs[e.txid].height == k.height
  {
    assert Lists(Look(t.utxos, map[], k), CoinsAt(l.coins, k));
    ListsMember(Slot(t.utxos, k), CoinsAt(l.coins, k), e);
    var op :| op in l.coins && KeyOf(l.coins[op]) == k && e == EntryOf(op, l.coins[op]);
    assert Resolves(l.txs, op);
  }

  /** A stored block with a valid root is rebuilt from the trimmed block and the transactions. */
  lemma StoredIsRebuilt(t: Tables, l: Ledger, h: PairHash, b: Block)
    requires Matches(t, l)
    requires Stored(l, b)
    requires RootValid(h, b)
    ensures Rebuilt(t, h, b.header.hash) == Some(b)
  {
    var txids := TxHashes(b.txs);
    forall i | 0 <= i < |b.txs|
      ensures txids[i] in t.txs && t.txs[txids[i]].tx == b.txs[i]
    {
      assert b.txs[i] in b.txs;
    }
    assert LoadedTxs(t.txs, txids) == b.txs;
  }

  /** Every block of the chain that the tables hold can be read back. */
  lemma ChainIsRebuilt(t: Tables, h: PairHash, blocks: seq<Block>, k: nat)
    requires ValidChain(blocks)
    requires Matches(t, Replay(blocks))
    requires k < |blocks|
    requires RootValid(h, blocks[k])
    ensures Rebuilt(t, h, blocks[k].header.hash) == Some(blocks[k])
  {
    ChainStored(blocks, k);
    StoredIsRebuilt(t, Replay(blocks), h, blocks[k]);
  }

  /** The deletions of a rollback leave the tables of the ledger before the block. */
  lemma TakenBack(t: Tables, l: Ledger, b: Block, unspent: map<Hash, seq<int>>, utxos: map<UnspentKey, seq<Unspent>>)
    requires Matches(t, ApplyBlock(l, b))
    requires Sound(l) && Connectable(l, b)
    requires UnspentOk(unspent, l.coins) && UtxosOk(utxos, l.coins)
    ensures Matches(
              Tables(
                t.headers - {b.header.hash}, t.hashes - {b.header.height}, DropTxs(t.txs, b.txs), DropAssets(t.assets, b.txs),
                unspent, utxos, Some((b.header.prevHash, b.header.height - 1))),
              l)
  {
    RestoreKey(l.headers, b.header.hash, Trim(b));
    RestoreKey(l.hashes, b.header.height, b.header.hash);
    forall t | t in b.txs
      ensures t.hash !in l.txs
    {
      assert ContextOk(l, t);
    }
    DropStoredTxs(l.txs, b.txs, b.header.height);
    DropStoredAssets(l.assets, b.txs);
  }

  class ChainStore {
    /** What has been committed. Reads see only this. */
    var db: Tables
    /** What the batch will commit. */
    var batch: Tables
    var currentBlockHeight: int
    const pairHash: PairHash

    /** The store holds the ledger. */
    ghost predicate Holds(l: Ledger)
      reads this
    {
      Matches(db, l) && Sound(l) && (l.height >= 0 ==> currentBlockHeight == l.height)
    }

    constructor (h: PairHash)
      ensures Holds(EMPTY)
      ensures pairHash == h
    {
      pairHash := h;
      db := Tables(map[], map[], map[], map[], map[], map[], None);
      batch := Tables(map[], map[], map[], map[], map[], map[], None);
      currentBlockHeight := 0;
    }

    // ----- Persist -----

    method PersistTrimmedBlock(b: Block)
      modifies this`batch
      ensures batch == old(batch).(headers := old(batch).headers[b.header.hash := Trim(b)])
    {
      batch := batch.(headers := batch.headers[b.header.hash := Trim(b)]);
    }

    method PersistBlockHash(b: Block)
      modifies this`batch
      ensures batch == old(batch).(hashes := old(batch).hashes[b.header.height := b.header.hash])
    {
      batch := batch.(hashes := batch.hashes[b.header.height := b.header.hash]);
    }

    method PersistTransactions(b: Block)
      modifies this`batch
      ensures batch == old(batch).(
                txs := StoreTxs(old(batch).txs, b.txs, b.header.height), assets := StoreAssets(old(batch).assets, b.txs))
    {
      for i := 0 to |b.txs|
        invariant batch == old(batch).(
                  txs := StoreTxs(old(batch).txs, b.txs[..i], b.header.height),
                  assets := StoreAssets(old(batch).assets, b.txs[..i]))
      {
        var t := b.txs[i];
        assert b.txs[..i + 1][..i] == b.txs[..i];
        batch := batch.(txs := batch.txs[t.hash := StoredTx(t, b.header.height)]);
        if t.IsRegisterAsset() {
          batch := batch.(assets := batch.assets[t.hash := t.payload.asset]);
        }
      }
      assert b.txs[..|b.txs|] == b.txs;
    }

    /** Nothing is written when an output to be spent is not listed. */
    method PersistUnspendUTXOs(b: Block, ghost l: Ledger) returns (ok: bool)
      requires Holds(l) && batch.utxos == db.utxos
      requires TxsSane(b.txs) && AllContextOk(l, b.txs)
      modifies this`batch
      ensures batch == old(batch).(utxos := batch.utxos)
      ensures ok <==> DisjointSpends(b.txs)
      ensures UtxosOk(batch.utxos, if ok then ApplyTxs(l.coins, b.txs, b.header.height) else l.coins)
    {
      var pending;
      ok, pending := OwnerIndex.UtxosApplyTxs(db.txs, db.utxos, b.txs, b.header.height, l);
      if ok {
        UtxosFlushed(db.utxos, pending, ApplyTxs(l.coins, b.txs, b.header.height));
        var table := FlushLists(batch.utxos, pending);
        batch := batch.(utxos := table);
      }
    }

    method PersistUnspend(b: Block, ghost l: Ledger) returns (ok: bool)
      requires Holds(l) && batch.unspent == db.unspent
      requires TxsSane(b.txs) && AllContextOk(l, b.txs)
      modifies this`batch
      ensures batch == old(batch).(unspent := batch.unspent)
      ensures ok && UnspentOk(batch.unspent, ApplyTxs(l.coins, b.txs, b.header.height))
    {
      var pending;
      ok, pending := TransactionIndex.UnspentApplyTxs(db.unspent, b.txs, b.header.height, l);
      if ok {
        UnspentFlushed(db.unspent, pending, ApplyTxs(l.coins, b.txs, b.header.height));
        var table := FlushLists(batch.unspent, pending);
        batch := batch.(unspent := table);
      }
    }

    method PersistCurrentBlock(b: Block)
      modifies this`batch
      ensures batch == old(batch).(current := Some((b.header.hash, b.header.height)))
    {
      batch := batch.(current := Some((b.header.hash, b.header.height)));
    }

    /** The errors of the single steps are not looked at. */
    method Persist(b: Block, ghost l: Ledger)
      requires Holds(l)
      requires TxsSane(b.txs) && AllContextOk(l, b.txs)
      modifies this`db, this`batch
      ensures DisjointSpends(b.txs) ==> Matches(db, ApplyBlock(l, b))
      ensures IndexesAgree(db.unspent, db.utxos) <==> DisjointSpends(b.txs)
    {
      batch := db;
      PersistTrimmedBlock(b);
      PersistBlockHash(b);
      PersistTransactions(b);
      var ok := PersistUnspendUTXOs(b, l);
      var ok' := PersistUnspend(b, l);
      PersistCurrentBlock(b);
      db := batch;
      ghost var coins := ApplyTxs(l.coins, b.txs, b.header.height);
      if !ok {
        DoubleSpendChangesCoins(l, b.txs, b.header.height);
      }
      AgreeIff(db.unspent, coins, db.utxos, if ok then coins else l.coins);
    }

    // ----- Rollback -----

    method RollbackTrimmedBlock(b: Block)
      modifies this`batch
      ensures batch == old(batch).(headers := old(batch).headers - {b.header.hash})
    {
      batch := batch.(headers := batch.headers - {b.header.hash});
    }

    method RollbackBlockHash(b: Block)
      modifies this`batch
      ensures batch == old(batch).(hashes := old(batch).hashes - {b.header.height})
    {
      batch := batch.(hashes := batch.hashes - {b.header.height});
    }

    method RollbackTransactions(b: Block)
      modifies this`batch
      ensures batch == old(batch).(txs := DropTxs(old(batch).txs, b.txs), assets := DropAssets(old(batch).assets, b.txs))
    {
      for i := 0 to |b.txs|
        invariant batch == old(batch).(
                  txs := DropTxs(old(batch).txs, b.txs[..i]), assets := DropAssets(old(batch).assets, b.txs[..i]))
      {
        var t := b.txs[i];
        assert b.txs[..i + 1][..i] == b.txs[..i];
        batch := batch.(txs := batch.txs - {t.hash});
        if t.IsRegisterAsset() {
          batch := batch.(assets := batch.assets - {t.hash});
        }
      }
      assert b.txs[..|b.txs|] == b.txs;
    }

    method RollbackUnspendUTXOs(b: Block, ghost l: Ledger) returns (ok: bool)
      requires Holds(ApplyBlock(l, b)) && batch.utxos == db.utxos
      requires Sound(l) && Connectable(l, b)
      modifies this`batch
      ensures batch == old(batch).(utxos := batch.utxos)
      ensures ok && UtxosOk(batch.utxos, l.coins)
    {
      var pending;
      ok, pending := OwnerIndex.UtxosUndoTxs(db.txs, db.utxos, b.txs, b.header.height, l);
      if ok {
        UtxosFlushed(db.utxos, pending, l.coins);
        var table := FlushLists(batch.utxos, pending);
        batch := batch.(utxos := table);
      }
    }

    method RollbackUnspend(b: Block, ghost l: Ledger)
      requires Holds(ApplyBlock(l, b)) && batch.unspent == db.unspent
      requires Sound(l) && Connectable(l, b)
      modifies this`batch
      ensures batch == old(batch).(unspent := batch.unspent)
      ensures UnspentOk(batch.unspent, l.coins)
    {
      var table, pending := TransactionIndex.UnspentUndoTxs(db.unspent, b.txs, b.header.height, l);
      UnspentFlushed(table, pending, l.coins);
      table := FlushLists(table, pending);
      batch := batch.(unspent := table);
    }

    method RollbackCurrentBlock(b: Block)
      modifies this`batch
      ensures batch == old(batch).(current := Some((b.header.prevHash, b.header.height - 1)))
    {
      batch := batch.(current := Some((b.header.prevHash, b.header.height - 1)));
    }

    /** Taking back the tip gives the ledger before it, every key family of it. */
    method Rollback(b: Block, ghost l: Ledger)
      requires Holds(ApplyBlock(l, b))
      requires Sound(l) && Connectable(l, b)
      modifies this
      ensures Holds(l)
    {
      hide Sound, Matches, TxsSane, AllContextOk, DisjointSpends;
      batch := db;
      RollbackTrimmedBlock(b);
      RollbackBlockHash(b);
      RollbackTransactions(b);
      ghost var was := db;
      var ok := RollbackUnspendUTXOs(b, l);
      RollbackUnspend(b, l);
      RollbackCurrentBlock(b);
      db := batch;
      currentBlockHeight := b.header.height - 1;
      TakenBack(was, l, b, db.unspent, db.utxos);
    }

    /** A block that is persisted and rolled back leaves every key family as it was, up to list order. */
    method PersistAndRollback(b: Block, ghost l: Ledger)
      requires Holds(l) && l.height >= 0
      requires Connectable(l, b)
      modifies this
      ensures SameUpToOrder(db, old(db))
      ensures Holds(l)
    {
      SoundAfterBlock(l, b);
      Persist(b, l);
      currentBlockHeight := b.header.height;
      Rollback(b, l);
      MatchesUnique(db, old(db), l);
    }

    // ----- Reading -----

    method GetBlock(hash: Hash) returns (block: Option<Block>)
      ensures block == Rebuilt(db, pairHash, hash)
    {
      if hash !in db.headers {
        return None;
      }
      var trimmed := db.headers[hash];
      if trimmed.txids == [] {
        return None;
      }
      var txs := [];
      for i := 0 to |trimmed.txids|
        invariant forall k :: 0 <= k < i ==> trimmed.txids[k] in db.txs
        invariant |txs| == i && forall k :: 0 <= k < i ==> txs[k] == db.txs[trimmed.txids[k]].tx
      {
        if trimmed.txids[i] !in db.txs {
          return None;
        }
        txs := txs + [db.txs[trimmed.txids[i]].tx];
      }
      var root := Root(pairHash, trimmed.txids);
      assert txs == LoadedTxs(db.txs, trimmed.txids);
      return Some(Block(trimmed.header.(root := root), txs));
    }

    method ContainsUnspent(txid: Hash, index: nat, ghost l: Ledger) returns (r: bool)
      requires Holds(l)
      ensures r <==> OutPoint(txid, index) in l.coins
    {
      r := TransactionIndex.Contains(db.unspent, txid, index, l.coins);
    }

    /** The output lookup after a successful search is in range. */
    method GetUnspent(txid: Hash, index: nat, ghost l: Ledger) returns (r: Option<TxOutput>)
      requires Holds(l)
      ensures r.Some? <==> OutPoint(txid, index) in l.coins
      ensures r.Some? ==> l.coins[OutPoint(txid, index)] == CoinOf(r.value, l.txs[txid].height)
    {
      var found := ContainsUnspent(txid, index, l);
      if found {
        assert Resolves(l.txs, OutPoint(txid, index));
        return Some(db.txs[txid].tx.outputs[index]);
      }
      return None;
    }

    method IsDoubleSpend(t: Transaction, ghost l: Ledger) returns (r: bool)
      requires Holds(l)
      ensures r <==> !(Refs(t.inputs) <= l.coins.Keys)
    {
      r := TransactionIndex.SomeMissing(db.unspent, t.inputs, l.coins);
    }

    // ----- Tasks -----

    /** A block that is not above the current height is not persisted. */
    method SaveBlock(b: Block, ghost l: Ledger)
      requires Holds(l) && l.height >= 0
      requires b.header.height > l.height ==> Connectable(l, b)
      modifies this
      ensures b.header.height > l.height ==> Holds(ApplyBlock(l, b))
      ensures b.header.height <= l.height ==> Holds(l) && db == old(db)
    {
      if b.header.height <= currentBlockHeight {
        return;
      }
      SoundAfterBlock(l, b);
      Persist(b, l);
      currentBlockHeight := b.header.height;
    }

    method RollbackBlock(hash: Hash, ghost l: Ledger, ghost b: Block)
      requires Holds(ApplyBlock(l, b))
      requires Sound(l) && Connectable(l, b)
      requires RootValid(pairHash, b) && hash == b.header.hash
      modifies this
      ensures Holds(l)
    {
      TipStored(l, b);
      StoredIsRebuilt(db, ApplyBlock(l, b), pairHash, b);
      var block := GetBlock(hash);
      if block.None? {
        return;
      }
      Rollback(block.value, l);
    }
  }
}

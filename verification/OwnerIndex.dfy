/** Persist and rollback of the index by program hash, asset and height. */
module OwnerIndex {
  import opened Types
  import opened Ledger
  import opened UnspentIndex

  /** Entries are looked up by scanning the list for the output they name. */
  method FindEntry(list: seq<Unspent>, txid: Hash, index: nat) returns (pos: nat)
    ensures pos <= |list|
    ensures pos < |list| ==> list[pos].txid == txid && list[pos].index == index
    ensures pos == |list| ==> forall e :: e in list ==> !(e.txid == txid && e.index == index)
  {
    pos := 0;
    while pos < |list|
      invariant pos <= |list|
      invariant forall i :: 0 <= i < pos ==> !(list[i].txid == txid && list[i].index == index)
    {
      if list[pos].txid == txid && list[pos].index == index {
        return;
      }
      pos := pos + 1;
    }
  }

  /** Takes an output's entry out of the list of its key by moving the last entry into its place. */
  method SwapOut(table: map<UnspentKey, seq<Unspent>>, pending: map<UnspentKey, seq<Unspent>>, key: UnspentKey, txid: Hash, index: nat)
    returns (ok: bool, pending': map<UnspentKey, seq<Unspent>>, ghost e: Unspent)
    ensures ok ==>
              && e.txid == txid && e.index == index
              && key in pending' && pending' == pending[key := pending'[key]]
              && multiset(Look(table, pending, key)) == multiset(pending'[key]) + multiset{e}
    ensures !ok ==> forall u :: u in Look(table, pending, key) ==> !(u.txid == txid && u.index == index)
  {
    pending' := pending;
    e := Unspent(txid, index, 0);
    if key !in pending' {
      if key !in table {
        return false, pending', e;
      }
      pending' := pending'[key := table[key]];
    }
    var list := pending'[key];
    var pos := FindEntry(list, txid, index);
    if pos == |list| {
      return false, pending', e;
    }
    e := list[pos];
    SwapParts(list, pos);
    pending' := pending'[key := SwapRemove(list, pos)];
    ok := true;
  }

  /** Takes an output's entry out of the list of its key by closing the gap; entry 0 if it is not found. */
  method CutOut(table: map<UnspentKey, seq<Unspent>>, pending: map<UnspentKey, seq<Unspent>>, key: UnspentKey, txid: Hash, index: nat)
    returns (ok: bool, pending': map<UnspentKey, seq<Unspent>>, ghost e: Unspent)
    requires key in pending ==> pending[key] != []
    requires NoEmptyLists(table)
    ensures ok <==> Look(table, pending, key) != []
    ensures ok ==>
              && e in Look(table, pending, key)
              && ((exists u :: u in Look(table, pending, key) && u.txid == txid && u.index == index) ==>
                    e.txid == txid && e.index == index)
              && key in pending' && pending' == pending[key := pending'[key]]
              && multiset(Look(table, pending, key)) == multiset(pending'[key]) + multiset{e}
  {
    pending' := pending;
    e := Unspent(txid, index, 0);
    if key !in pending' {
      if key !in table {
        return false, pending', e;
      }
      pending' := pending'[key := table[key]];
    }
    var list := pending'[key];
    var pos := FindEntry(list, txid, index);
    if pos == |list| {
      pos := 0;
    }
    e := list[pos];
    CutParts(list, pos);
    pending' := pending'[key := Cut(list, pos)];
    ok := true;
  }

  /** Appending an output's entry to the list of its key adds the coin. */
  lemma OutputListed(
    db: map<UnspentKey, seq<Unspent>>, pending: map<UnspentKey, seq<Unspent>>, coins: map<OutPoint, Coin>,
    t: Transaction, height: int, n: nat, key: UnspentKey)
    requires n < |t.outputs|
    requires CreatedUpTo(t, height, |t.outputs|).Keys !! coins.Keys
    requires UtxosView(db, pending, coins + CreatedUpTo(t, height, n))
    requires key == KeyOf(CoinOf(t.outputs[n], height))
    ensures UtxosView(
              db, pending[key := Look(db, pending, key) + [Unspent(t.hash, n, t.outputs[n].value)]],
              coins + CreatedUpTo(t, height, n + 1))
  {
    AddOneMore(coins, CreatedUpTo(t, height, n), OutPoint(t.hash, n), CoinOf(t.outputs[n], height));
    UtxosAdd(db, pending, coins + CreatedUpTo(t, height, n), OutPoint(t.hash, n), CoinOf(t.outputs[n], height));
  }

  // ----- Index by program hash, asset and height: one transaction -----

  method AddOutputs(
    utxos: map<UnspentKey, seq<Unspent>>, t: Transaction, height: int, pending: map<UnspentKey, seq<Unspent>>,
    ghost coins: map<OutPoint, Coin>)
    returns (pending': map<UnspentKey, seq<Unspent>>)
    requires UtxosView(utxos, pending, coins)
    requires CreatedUpTo(t, height, |t.outputs|).Keys !! coins.Keys
    ensures UtxosView(utxos, pending', coins + CreatedUpTo(t, height, |t.outputs|))
  {
    pending' := pending;
    AddNone(coins);
    for i := 0 to |t.outputs|
      invariant UtxosView(utxos, pending', coins + CreatedUpTo(t, height, i))
    {
      var key := UnspentKey(t.outputs[i].programHash, t.outputs[i].assetID, height);
      OutputListed(utxos, pending', coins, t, height, i, key);
      pending' := AppendTo(utxos, pending', key, Unspent(t.hash, i, t.outputs[i].value));
    }
  }

  method SpendOne(
    txs: map<Hash, StoredTx>, utxos: map<UnspentKey, seq<Unspent>>, input: TxInput, pending: map<UnspentKey, seq<Unspent>>,
    ghost coins: map<OutPoint, Coin>)
    returns (ok: bool, pending': map<UnspentKey, seq<Unspent>>)
    requires UtxosView(utxos, pending, coins)
    requires Known(txs, coins, input)
    ensures ok <==> Ref(input) in coins
    ensures ok ==> UtxosView(utxos, pending', coins - {Ref(input)})
  {
    var refer := txs[input.referTxID];
    var output := refer.tx.outputs[input.referIndex];
    var key := UnspentKey(output.programHash, output.assetID, refer.height);
    UtxosLookup(utxos, pending, coins, Ref(input), key);
    ghost var e;
    ok, pending', e := SwapOut(utxos, pending, key, refer.tx.hash, input.referIndex);
    if ok {
      assert e in multiset(Look(utxos, pending, key));
      UtxosRemove(utxos, pending, coins, Ref(input), pending'[key]);
    }
  }

  method SpendInputs(
    txs: map<Hash, StoredTx>, utxos: map<UnspentKey, seq<Unspent>>, inputs: seq<TxInput>, pending: map<UnspentKey, seq<Unspent>>,
    ghost coins: map<OutPoint, Coin>)
    returns (ok: bool, pending': map<UnspentKey, seq<Unspent>>)
    requires UtxosView(utxos, pending, coins)
    requires DistinctRefs(inputs)
    requires forall k :: 0 <= k < |inputs| ==> Known(txs, coins, inputs[k])
    ensures ok <==> Refs(inputs) <= coins.Keys
    ensures ok ==> UtxosView(utxos, pending', coins - Refs(inputs))
  {
    pending' := pending;
    RemoveNone(coins);
    for i := 0 to |inputs|
      invariant UtxosView(utxos, pending', coins - RefsUpTo(inputs, i))
      invariant RefsUpTo(inputs, i) <= coins.Keys
    {
      assert Known(txs, coins, inputs[i]);
      RefsDistinct(inputs, i);
      ok, pending' := SpendOne(txs, utxos, inputs[i], pending', coins - RefsUpTo(inputs, i));
      if !ok {
        assert Ref(inputs[i]) in Refs(inputs);
        return;
      }
      RemoveOneMore(coins, RefsUpTo(inputs, i), Ref(inputs[i]));
    }
    ok := true;
  }

  method UtxosApplyTx(
    txs: map<Hash, StoredTx>, utxos: map<UnspentKey, seq<Unspent>>, t: Transaction, height: int,
    pending: map<UnspentKey, seq<Unspent>>, ghost coins: map<OutPoint, Coin>)
    returns (ok: bool, pending': map<UnspentKey, seq<Unspent>>)
    requires UtxosView(utxos, pending, coins)
    requires CreatedBy(t, height).Keys !! coins.Keys
    requires Spends(t) ==> DistinctRefs(t.inputs) && AllKnown(txs, coins + CreatedBy(t, height), t.inputs)
    ensures ok <==> SpentBy(t) <= (coins + CreatedBy(t, height)).Keys
    ensures ok ==> UtxosView(utxos, pending', ApplyTx(coins, t, height))
  {
    pending' := pending;
    ok := true;
    ghost var after := coins + CreatedBy(t, height);
    if !t.IsRegisterAsset() {
      pending' := AddOutputs(utxos, t, height, pending', coins);
      if !t.IsCoinBase() {
        ok, pending' := SpendInputs(txs, utxos, t.inputs, pending', after);
      } else {
        ApplyCoinBase(coins, t, height, map[]);
      }
    } else {
      ApplyRegisterAsset(coins, t, height, map[]);
    }
  }

  /** In the middle of an acceptable block, the next transaction finds what it needs. */
  lemma ReadyToApply(l: Ledger, ts: seq<Transaction>, height: int, n: nat)
    requires Sound(l)
    requires TxsSane(ts)
    requires AllContextOk(l, ts)
    requires n < |ts|
    ensures CreatedBy(ts[n], height).Keys !! ApplyTxs(l.coins, ts[..n], height).Keys
    ensures Spends(ts[n]) ==>
              && DistinctRefs(ts[n].inputs)
              && AllKnown(l.txs, ApplyTxs(l.coins, ts[..n], height) + CreatedBy(ts[n], height), ts[n].inputs)
    ensures SpentBy(ts[n]) <= (ApplyTxs(l.coins, ts[..n], height) + CreatedBy(ts[n], height)).Keys <==>
            SpentBy(ts[n]) !! SpentAll(ts[..n])
  {
    var t, cur := ts[n], ApplyTxs(l.coins, ts[..n], height);
    CreatedNewMidBlock(l, ts, height, n);
    SpentMidBlock(l, ts, height, n);
    assert t in ts && ContextOk(l, t);
    forall op | op in SpentBy(t)
      ensures op !in CreatedBy(t, height)
    {
      assert op.txid in l.txs;
    }
    if Spends(t) {
      forall k | 0 <= k < |t.inputs|
        ensures Known(l.txs, cur + CreatedBy(t, height), t.inputs[k])
      {
        assert Ref(t.inputs[k]) in SpentBy(t);
      }
    }
  }

  method UtxosApplyTxs(
    txs: map<Hash, StoredTx>, utxos: map<UnspentKey, seq<Unspent>>, ts: seq<Transaction>, height: int, ghost l: Ledger)
    returns (ok: bool, pending: map<UnspentKey, seq<Unspent>>)
    requires Sound(l) && txs == l.txs && UtxosOk(utxos, l.coins)
    requires TxsSane(ts)
    requires AllContextOk(l, ts)
    ensures ok <==> DisjointSpends(ts)
    ensures ok ==> UtxosView(utxos, pending, ApplyTxs(l.coins, ts, height))
  {
    pending := map[];
    for i := 0 to |ts|
      invariant UtxosView(utxos, pending, ApplyTxs(l.coins, ts[..i], height))
      invariant DisjointUpTo(ts, i)
    {
      ReadyToApply(l, ts, height, i);
      DisjointStep(ts, i);
      ok, pending := UtxosApplyTx(txs, utxos, ts[i], height, pending, ApplyTxs(l.coins, ts[..i], height));
      if !ok {
        return;
      }
      ApplyNext(l.coins, ts, height, i);
    }
    Whole(ts);
    ok := true;
  }

  // ----- Index by program hash, asset and height: taking transactions back -----

  method UnlistOutput(
    utxos: map<UnspentKey, seq<Unspent>>, op: OutPoint, output: TxOutput, height: int,
    pending: map<UnspentKey, seq<Unspent>>, ghost coins: map<OutPoint, Coin>)
    returns (ok: bool, pending': map<UnspentKey, seq<Unspent>>)
    requires NoEmptyLists(utxos) && UtxosView(utxos, pending, coins)
    requires op in coins && coins[op] == CoinOf(output, height)
    ensures ok && UtxosView(utxos, pending', coins - {op})
  {
    var key := UnspentKey(output.programHash, output.assetID, height);
    UtxosLookup(utxos, pending, coins, op, key);
    ghost var e;
    ok, pending', e := CutOut(utxos, pending, key, op.txid, op.index);
    UtxosRemove(utxos, pending, coins, op, pending'[key]);
  }

  /** The coins without the first n outputs of t. */
  ghost function Dropped(coins: map<OutPoint, Coin>, t: Transaction, n: nat): (r: map<OutPoint, Coin>)
    ensures forall op :: op in r <==> op in coins && !(op.txid == t.hash && op.index < n)
    ensures forall op :: op in r ==> r[op] == coins[op]
  {
    if n == 0 then coins else Dropped(coins, t, n - 1) - {OutPoint(t.hash, n - 1)}
  }

  lemma DroppedForm(coins: map<OutPoint, Coin>, t: Transaction, height: int)
    ensures Dropped(coins, t, |t.outputs|) == coins - CreatedUpTo(t, height, |t.outputs|).Keys
  {
  }

  ghost predicate OutputIsCoin(coins: map<OutPoint, Coin>, t: Transaction, height: int, i: nat)
    requires i < |t.outputs|
  {
    OutPoint(t.hash, i) in coins && coins[OutPoint(t.hash, i)] == CoinOf(t.outputs[i], height)
  }

  method UnlistOutputs(
    utxos: map<UnspentKey, seq<Unspent>>, t: Transaction, height: int,
    pending: map<UnspentKey, seq<Unspent>>, ghost coins: map<OutPoint, Coin>)
    returns (ok: bool, pending': map<UnspentKey, seq<Unspent>>)
    requires NoEmptyLists(utxos) && UtxosView(utxos, pending, coins)
    requires forall i :: 0 <= i < |t.outputs| ==> OutputIsCoin(coins, t, height, i)
    ensures ok && UtxosView(utxos, pending', coins - CreatedUpTo(t, height, |t.outputs|).Keys)
  {
    pending' := pending;
    ok := true;
    for i := 0 to |t.outputs|
      invariant ok
      invariant UtxosView(utxos, pending', Dropped(coins, t, i))
    {
      assert OutputIsCoin(coins, t, height, i);
      ok, pending' := UnlistOutput(utxos, OutPoint(t.hash, i), t.outputs[i], height, pending', Dropped(coins, t, i));
      if !ok {
        return;
      }
    }
    DroppedForm(coins, t, height);
  }

  method RelistOne(
    txs: map<Hash, StoredTx>, utxos: map<UnspentKey, seq<Unspent>>, input: TxInput,
    pending: map<UnspentKey, seq<Unspent>>, ghost coins: map<OutPoint, Coin>)
    returns (pending': map<UnspentKey, seq<Unspent>>)
    requires UtxosView(utxos, pending, coins)
    requires Known(txs, map[], input)
    requires Ref(input) !in coins
    ensures UtxosView(utxos, pending', coins[Ref(input) := CoinAt(txs, Ref(input))])
  {
    var refer := txs[input.referTxID];
    var output := refer.tx.outputs[input.referIndex];
    var key := UnspentKey(output.programHash, output.assetID, refer.height);
    UtxosAdd(utxos, pending, coins, Ref(input), CoinAt(txs, Ref(input)));
    pending' := AppendTo(utxos, pending, key, Unspent(refer.tx.hash, input.referIndex, output.value));
  }

  method RelistInputs(
    txs: map<Hash, StoredTx>, utxos: map<UnspentKey, seq<Unspent>>, inputs: seq<TxInput>,
    pending: map<UnspentKey, seq<Unspent>>, ghost coins: map<OutPoint, Coin>)
    returns (pending': map<UnspentKey, seq<Unspent>>)
    requires UtxosView(utxos, pending, coins)
    requires DistinctRefs(inputs)
    requires Refs(inputs) !! coins.Keys
    requires AllKnown(txs, map[], inputs)
    ensures UtxosView(utxos, pending', Restored(coins, inputs, |inputs|, txs))
  {
    pending' := pending;
    RestoredNone(coins, inputs, txs);
    for i := 0 to |inputs|
      invariant UtxosView(utxos, pending', Restored(coins, inputs, i, txs))
    {
      RestoredNext(coins, inputs, i, txs);
      pending' := RelistOne(txs, utxos, inputs[i], pending', Restored(coins, inputs, i, txs));
    }
  }

  method UtxosUndoTx(
    txs: map<Hash, StoredTx>, utxos: map<UnspentKey, seq<Unspent>>, t: Transaction, height: int,
    pending: map<UnspentKey, seq<Unspent>>, ghost coins: map<OutPoint, Coin>)
    returns (ok: bool, pending': map<UnspentKey, seq<Unspent>>)
    requires NoEmptyLists(utxos) && UtxosView(utxos, pending, coins)
    requires forall op :: op in CreatedBy(t, height) ==> op in coins && coins[op] == CreatedBy(t, height)[op]
    requires SpentBy(t) !! coins.Keys
    requires Spends(t) ==> DistinctRefs(t.inputs) && AllKnown(txs, map[], t.inputs)
    ensures ok && UtxosView(utxos, pending', UndoTx(coins, t, height, txs))
  {
    pending' := pending;
    ok := true;
    ghost var before := coins - CreatedBy(t, height).Keys;
    if t.IsRegisterAsset() {
      ApplyRegisterAsset(coins, t, height, txs);
      return;
    }
    forall i | 0 <= i < |t.outputs|
      ensures OutputIsCoin(coins, t, height, i)
    {
      assert OutPoint(t.hash, i) in CreatedBy(t, height);
    }
    ok, pending' := UnlistOutputs(utxos, t, height, pending', coins);
    if !t.IsCoinBase() {
      pending' := RelistInputs(txs, utxos, t.inputs, pending', before);
    } else {
      ApplyCoinBase(coins, t, height, txs);
    }
  }

  method UtxosUndoTxs(
    txs: map<Hash, StoredTx>, utxos: map<UnspentKey, seq<Unspent>>, ts: seq<Transaction>, height: int, ghost l: Ledger)
    returns (ok: bool, pending: map<UnspentKey, seq<Unspent>>)
    requires Sound(l) && txs == StoreTxs(l.txs, ts, height) && UtxosOk(utxos, ApplyTxs(l.coins, ts, height))
    requires TxsSane(ts)
    requires AllContextOk(l, ts)
    requires DisjointSpends(ts)
    ensures ok && UtxosView(utxos, pending, l.coins)
  {
    pending := map[];
    ok := true;
    ghost var full := ApplyTxs(l.coins, ts, height);
    for i := 0 to |ts|
      invariant ok
      invariant UtxosView(utxos, pending, UndoTxs(full, ts[..i], height, txs))
    {
      ReadyToUndo(l, ts, height, i);
      NextToUndo(l, ts, height, i, txs);
      ok, pending := UtxosUndoTx(txs, utxos, ts[i], height, pending, UndoTxs(full, ts[..i], height, txs));
      UndoNext(full, ts, height, i, txs);
    }
    Whole(ts);
    forall x | x in l.txs
      ensures x in txs && txs[x] == l.txs[x]
    {
      StillStored(l, ts, height, x);
    }
    UndoApply(l, ts, height, txs);
  }
}

/** Persist and rollback of the index by transaction. */
module TransactionIndex {
  import opened Types
  import opened Ledger
  import opened UnspentIndex

  method FindIndex(list: seq<int>, index: nat) returns (pos: nat)
    ensures pos <= |list|
    ensures pos < |list| ==> list[pos] == index
    ensures pos == |list| ==> index !in list
  {
    pos := 0;
    while pos < |list|
      invariant pos <= |list|
      invariant index !in list[..pos]
    {
      if list[pos] == index {
        return;
      }
      pos := pos + 1;
    }
  }

  method Contains(unspent: map<Hash, seq<int>>, txid: Hash, index: nat, ghost coins: map<OutPoint, Coin>) returns (r: bool)
    requires UnspentOk(unspent, coins)
    ensures r <==> OutPoint(txid, index) in coins
  {
    UnspentLookup(unspent, map[], coins, OutPoint(txid, index));
    if txid !in unspent {
      return false;
    }
    var pos := FindIndex(unspent[txid], index);
    return pos < |unspent[txid]|;
  }

  method SomeMissing(unspent: map<Hash, seq<int>>, inputs: seq<TxInput>, ghost coins: map<OutPoint, Coin>) returns (r: bool)
    requires UnspentOk(unspent, coins)
    ensures r <==> !(Refs(inputs) <= coins.Keys)
  {
    for i := 0 to |inputs|
      invariant RefsUpTo(inputs, i) <= coins.Keys
    {
      var found := Contains(unspent, inputs[i].referTxID, inputs[i].referIndex, coins);
      if !found {
        assert Ref(inputs[i]) in Refs(inputs);
        return true;
      }
    }
    return false;
  }

  // ----- Index by transaction: applying transactions -----

  /** Conversion to a 16-bit number. */
  function Uint16(n: nat): (r: int)
    ensures n < MAX_OUTPUTS ==> r == n
  {
    n % MAX_OUTPUTS
  }

  lemma IndexListed(
    unspent: map<Hash, seq<int>>, pending: map<Hash, seq<int>>, coins: map<OutPoint, Coin>, t: Transaction, height: int, n: nat)
    requires n < |t.outputs|
    requires t.hash !in unspent
    requires CreatedUpTo(t, height, |t.outputs|).Keys !! coins.Keys
    requires UnspentView(unspent, pending, coins + CreatedUpTo(t, height, n))
    ensures UnspentView(
              unspent, pending[t.hash := Look(map[], pending, t.hash) + [n]], coins + CreatedUpTo(t, height, n + 1))
  {
    var op, c := OutPoint(t.hash, n), CoinOf(t.outputs[n], height);
    AddOneMore(coins, CreatedUpTo(t, height, n), op, c);
    UnspentAdd(unspent, pending, coins + CreatedUpTo(t, height, n), op, c);
  }

  /** Indexes are stored as 16-bit numbers, and the list of a new transaction starts empty. */
  method ListIndexes(
    unspent: map<Hash, seq<int>>, t: Transaction, ghost height: int, pending: map<Hash, seq<int>>, ghost coins: map<OutPoint, Coin>)
    returns (pending': map<Hash, seq<int>>)
    requires UnspentView(unspent, pending, coins)
    requires t.hash !in unspent
    requires |t.outputs| <= MAX_OUTPUTS
    requires CreatedUpTo(t, height, |t.outputs|).Keys !! coins.Keys
    ensures UnspentView(unspent, pending', coins + CreatedUpTo(t, height, |t.outputs|))
  {
    pending' := pending;
    AddNone(coins);
    for i := 0 to |t.outputs|
      invariant UnspentView(unspent, pending', coins + CreatedUpTo(t, height, i))
    {
      IndexListed(unspent, pending', coins, t, height, i);
      pending' := AppendTo(map[], pending', t.hash, Uint16(i));
    }
  }

  method TakeIndex(unspent: map<Hash, seq<int>>, input: TxInput, pending: map<Hash, seq<int>>, ghost coins: map<OutPoint, Coin>)
    returns (ok: bool, pending': map<Hash, seq<int>>)
    requires UnspentView(unspent, pending, coins)
    ensures ok <==> input.referTxID in pending || input.referTxID in unspent
    ensures ok ==> UnspentView(unspent, pending', coins - {Ref(input)})
  {
    var x := input.referTxID;
    pending' := pending;
    if x !in pending' {
      if x !in unspent {
        return false, pending';
      }
      pending' := pending'[x := unspent[x]];
    }
    ok := true;
    UnspentLookup(unspent, pending, coins, Ref(input));
    var list := pending'[x];
    var pos := FindIndex(list, input.referIndex);
    if pos < |list| {
      pending' := pending'[x := SwapRemove(list, pos)];
      SwapParts(list, pos);
      UnspentRemove(unspent, pending, coins, Ref(input), SwapRemove(list, pos));
    } else {
      RemoveAbsent(coins, Ref(input));
    }
  }

  method TakeIndexes(unspent: map<Hash, seq<int>>, inputs: seq<TxInput>, pending: map<Hash, seq<int>>, ghost coins: map<OutPoint, Coin>)
    returns (ok: bool, pending': map<Hash, seq<int>>)
    requires UnspentView(unspent, pending, coins)
    requires RefersTo(inputs, unspent.Keys)
    ensures ok && UnspentView(unspent, pending', coins - Refs(inputs))
  {
    pending' := pending;
    ok := true;
    RemoveNone(coins);
    for i := 0 to |inputs|
      invariant ok
      invariant UnspentView(unspent, pending', coins - RefsUpTo(inputs, i))
    {
      assert inputs[i].referTxID in unspent.Keys;
      ok, pending' := TakeIndex(unspent, inputs[i], pending', coins - RefsUpTo(inputs, i));
      RemoveOneMore(coins, RefsUpTo(inputs, i), Ref(inputs[i]));
    }
  }

  method UnspentApplyTx(
    unspent: map<Hash, seq<int>>, t: Transaction, ghost height: int, pending: map<Hash, seq<int>>, ghost coins: map<OutPoint, Coin>)
    returns (ok: bool, pending': map<Hash, seq<int>>)
    requires UnspentView(unspent, pending, coins)
    requires t.hash !in unspent
    requires |t.outputs| <= MAX_OUTPUTS
    requires CreatedBy(t, height).Keys !! coins.Keys
    requires Spends(t) ==> RefersTo(t.inputs, unspent.Keys)
    ensures ok && UnspentView(unspent, pending', ApplyTx(coins, t, height))
  {
    pending' := pending;
    ok := true;
    ghost var after := coins + CreatedBy(t, height);
    if !t.IsRegisterAsset() {
      pending' := ListIndexes(unspent, t, height, pending', coins);
      if !t.IsCoinBase() {
        ok, pending' := TakeIndexes(unspent, t.inputs, pending', after);
      } else {
        ApplyCoinBase(coins, t, height, map[]);
      }
    } else {
      ApplyRegisterAsset(coins, t, height, map[]);
    }
  }

  /** A transaction has a key in the index exactly when one of its outputs is a coin. */
  lemma KeyIffCoin(unspent: map<Hash, seq<int>>, coins: map<OutPoint, Coin>, x: Hash)
    requires UnspentOk(unspent, coins)
    ensures x in unspent <==> exists op :: op in coins && op.txid == x
  {
    assert Lists(Look(unspent, map[], x), IndexesAt(coins, x));
    ListsOfNone(Slot(unspent, x), IndexesAt(coins, x));
    if x in unspent {
      var i :| i in IndexesAt(coins, x);
      assert exists op :: op in coins && op.txid == x && op.index == i;
    }
    if op :| op in coins && op.txid == x {
      assert op.index in IndexesAt(coins, x);
    }
  }

  lemma KeysMidBlock(unspent: map<Hash, seq<int>>, l: Ledger, t: Transaction)
    requires Sound(l)
    requires UnspentOk(unspent, l.coins)
    requires ContextOk(l, t)
    ensures t.hash !in unspent
    ensures Spends(t) ==> RefersTo(t.inputs, unspent.Keys)
  {
    KeyIffCoin(unspent, l.coins, t.hash);
    if Spends(t) {
      forall k | 0 <= k < |t.inputs|
        ensures t.inputs[k].referTxID in unspent
      {
        assert InputOk(l, t.inputs[k]);
        assert Ref(t.inputs[k]).txid == t.inputs[k].referTxID;
        KeyIffCoin(unspent, l.coins, t.inputs[k].referTxID);
      }
    }
  }

  method UnspentApplyTxs(unspent: map<Hash, seq<int>>, ts: seq<Transaction>, ghost height: int, ghost l: Ledger)
    returns (ok: bool, pending: map<Hash, seq<int>>)
    requires Sound(l) && UnspentOk(unspent, l.coins)
    requires TxsSane(ts)
    requires AllContextOk(l, ts)
    ensures ok && UnspentView(unspent, pending, ApplyTxs(l.coins, ts, height))
  {
    pending := map[];
    ok := true;
    for i := 0 to |ts|
      invariant ok
      invariant UnspentView(unspent, pending, ApplyTxs(l.coins, ts[..i], height))
    {
      assert ts[i] in ts && ContextOk(l, ts[i]);
      CreatedNewMidBlock(l, ts, height, i);
      KeysMidBlock(unspent, l, ts[i]);
      ok, pending := UnspentApplyTx(unspent, ts[i], height, pending, ApplyTxs(l.coins, ts[..i], height));
      ApplyNext(l.coins, ts, height, i);
    }
    Whole(ts);
  }

  // ----- Index by transaction: taking transactions back -----

  lemma KeyDeleted(table: map<Hash, seq<int>>, pending: map<Hash, seq<int>>, coins: map<OutPoint, Coin>, t: Transaction, height: int)
    requires UnspentView(table, pending, coins)
    requires t.hash !in pending
    requires forall op :: op in coins && op.txid == t.hash ==> op in CreatedUpTo(t, height, |t.outputs|)
    ensures UnspentView(table - {t.hash}, pending, coins - CreatedUpTo(t, height, |t.outputs|).Keys)
  {
    var left := coins - CreatedUpTo(t, height, |t.outputs|).Keys;
    forall x
      ensures Lists(Look(table - {t.hash}, pending, x), IndexesAt(left, x))
    {
      assert Lists(Look(table, pending, x), IndexesAt(coins, x));
      if x == t.hash {
        assert IndexesAt(left, x) == {};
        assert Look(table - {t.hash}, pending, x) == [];
      } else {
        SameIndexes(coins, left, x);
        assert Look(table - {t.hash}, pending, x) == Look(table, pending, x);
      }
    }
  }

  lemma SameIndexes(coins: map<OutPoint, Coin>, coins': map<OutPoint, Coin>, x: Hash)
    requires forall op: OutPoint :: op.txid == x ==> (op in coins <==> op in coins')
    ensures IndexesAt(coins, x) == IndexesAt(coins', x)
  {
    forall i
      ensures i in IndexesAt(coins, x) <==> i in IndexesAt(coins', x)
    {
      if i in IndexesAt(coins, x) || i in IndexesAt(coins', x) {
        assert OutPoint(x, i) in coins <==> OutPoint(x, i) in coins';
        assert OutPoint(x, i).index == i;
      }
    }
  }

  /** The lists of transactions older than the block are the committed ones. */
  ghost predicate SameLists(unspent: map<Hash, seq<int>>, table: map<Hash, seq<int>>, olds: set<Hash>) {
    forall x :: x in olds ==> Slot(unspent, x) == Slot(table, x)
  }

  ghost predicate RefersTo(inputs: seq<TxInput>, olds: set<Hash>) {
    forall k :: 0 <= k < |inputs| ==> inputs[k].referTxID in olds
  }

  /** Lists are read from the committed table, which outside the block's own transactions is the batch's. */
  method GiveIndex(
    unspent: map<Hash, seq<int>>, input: TxInput, pending: map<Hash, seq<int>>,
    ghost table: map<Hash, seq<int>>, ghost coins: map<OutPoint, Coin>, ghost c: Coin, ghost olds: set<Hash>)
    returns (pending': map<Hash, seq<int>>)
    requires UnspentView(table, pending, coins)
    requires Ref(input) !in coins
    requires pending.Keys <= olds && input.referTxID in olds && SameLists(unspent, table, olds)
    ensures UnspentView(table, pending', coins[Ref(input) := c])
    ensures pending'.Keys <= olds
  {
    UnspentAdd(table, pending, coins, Ref(input), c);
    assert Slot(unspent, input.referTxID) == Slot(table, input.referTxID);
    pending' := AppendTo(unspent, pending, input.referTxID, input.referIndex);
  }

  method GiveIndexes(
    unspent: map<Hash, seq<int>>, inputs: seq<TxInput>, pending: map<Hash, seq<int>>,
    ghost table: map<Hash, seq<int>>, ghost coins: map<OutPoint, Coin>, ghost txs: map<Hash, StoredTx>, ghost olds: set<Hash>)
    returns (pending': map<Hash, seq<int>>)
    requires UnspentView(table, pending, coins)
    requires DistinctRefs(inputs)
    requires Refs(inputs) !! coins.Keys
    requires AllKnown(txs, map[], inputs)
    requires pending.Keys <= olds && RefersTo(inputs, olds) && SameLists(unspent, table, olds)
    ensures UnspentView(table, pending', Restored(coins, inputs, |inputs|, txs))
    ensures pending'.Keys <= olds
  {
    pending' := pending;
    RestoredNone(coins, inputs, txs);
    for i := 0 to |inputs|
      invariant UnspentView(table, pending', Restored(coins, inputs, i, txs))
      invariant pending'.Keys <= olds
    {
      RestoredNext(coins, inputs, i, txs);
      pending' := GiveIndex(
        unspent, inputs[i], pending', table, Restored(coins, inputs, i, txs), CoinAt(txs, Ref(inputs[i])), olds);
    }
  }

  method UnspentUndoTx(
    unspent: map<Hash, seq<int>>, t: Transaction, ghost height: int, table: map<Hash, seq<int>>, pending: map<Hash, seq<int>>,
    ghost coins: map<OutPoint, Coin>, ghost txs: map<Hash, StoredTx>, ghost olds: set<Hash>)
    returns (table': map<Hash, seq<int>>, pending': map<Hash, seq<int>>)
    requires UnspentView(table, pending, coins)
    requires forall op :: op in coins && op.txid == t.hash ==> op in CreatedBy(t, height)
    requires SpentBy(t) !! coins.Keys
    requires Spends(t) ==> DistinctRefs(t.inputs) && AllKnown(txs, map[], t.inputs)
    requires pending.Keys <= olds && t.hash !in olds
    requires Spends(t) ==> RefersTo(t.inputs, olds)
    requires SameLists(unspent, table, olds)
    ensures UnspentView(table', pending', UndoTx(coins, t, height, txs))
    ensures pending'.Keys <= olds
    ensures SameLists(unspent, table', olds)
    ensures NoEmptyLists(table) ==> NoEmptyLists(table')
  {
    table', pending' := table, pending;
    ghost var before := coins - CreatedBy(t, height).Keys;
    if t.IsRegisterAsset() {
      ApplyRegisterAsset(coins, t, height, txs);
      return;
    }
    KeyDeleted(table, pending, coins, t, height);
    table' := table - {t.hash};
    if !t.IsCoinBase() {
      pending' := GiveIndexes(unspent, t.inputs, pending, table', before, txs, olds);
    } else {
      ApplyCoinBase(coins, t, height, txs);
    }
  }

  lemma OldReferences(l: Ledger, t: Transaction)
    requires ContextOk(l, t)
    ensures t.hash !in l.txs
    ensures Spends(t) ==> RefersTo(t.inputs, l.txs.Keys)
  {
    if Spends(t) {
      forall k | 0 <= k < |t.inputs|
        ensures t.inputs[k].referTxID in l.txs
      {
        assert InputOk(l, t.inputs[k]);
      }
    }
  }

  lemma ReadyToUnlist(l: Ledger, ts: seq<Transaction>, height: int, n: nat)
    requires Sound(l)
    requires TxsSane(ts)
    requires AllContextOk(l, ts)
    requires DisjointSpends(ts)
    requires n < |ts|
    ensures var t, txs := ts[n], StoreTxs(l.txs, ts, height);
            var cur := UndoTxs(ApplyTxs(l.coins, ts, height), ts[..n], height, txs);
            && (forall op :: op in cur && op.txid == t.hash ==> op in CreatedBy(t, height))
            && SpentBy(t) !! cur.Keys
            && (Spends(t) ==> DistinctRefs(t.inputs) && AllKnown(txs, map[], t.inputs))
            && t.hash !in l.txs
            && (Spends(t) ==> RefersTo(t.inputs, l.txs.Keys))
  {
    assert ContextOk(l, ts[n]);
    OldReferences(l, ts[n]);
    ReadyToUndo(l, ts, height, n);
    NextToUndo(l, ts, height, n, StoreTxs(l.txs, ts, height));
    NextToUndoOnly(l, ts, height, n, StoreTxs(l.txs, ts, height));
  }

  method UnspentUndoTxs(unspent: map<Hash, seq<int>>, ts: seq<Transaction>, ghost height: int, ghost l: Ledger)
    returns (table: map<Hash, seq<int>>, pending: map<Hash, seq<int>>)
    requires Sound(l) && UnspentOk(unspent, ApplyTxs(l.coins, ts, height))
    requires TxsSane(ts)
    requires AllContextOk(l, ts)
    requires DisjointSpends(ts)
    ensures NoEmptyLists(table) && UnspentView(table, pending, l.coins)
  {
    table, pending := unspent, map[];
    ghost var full, txs := ApplyTxs(l.coins, ts, height), StoreTxs(l.txs, ts, height);
    for i := 0 to |ts|
      invariant NoEmptyLists(table)
      invariant UnspentView(table, pending, UndoTxs(full, ts[..i], height, txs))
      invariant pending.Keys <= l.txs.Keys
      invariant SameLists(unspent, table, l.txs.Keys)
    {
      ReadyToUnlist(l, ts, height, i);
      table, pending := UnspentUndoTx(
        unspent, ts[i], height, table, pending, UndoTxs(full, ts[..i], height, txs), txs, l.txs.Keys);
      UndoNext(full, ts, height, i, txs);
    }
    Whole(ts);
    forall x | x in l.txs
      ensures x in txs && txs[x] == l.txs[x]
    {
      StillStored(l, ts, height, x);
    }
    UndoApply(l, ts, height, txs);
  }
}

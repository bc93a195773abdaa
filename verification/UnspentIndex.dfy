/**
 The two unspent-output indexes as maps from keys to lists, and what it means for such lists to
 describe a set of coins. Lists are compared with sets through multisets, so that each entry
 occurs exactly once and the order does not matter.
 */
module UnspentIndex {
  import opened Types
  import opened Ledger

  /** Key and entry of the index by program hash, asset and height. */
  datatype UnspentKey = UnspentKey(programHash: ProgramHash, assetID: Hash, height: int)

  datatype Unspent = Unspent(txid: Hash, index: nat, value: int)

  // ----- Lists that hold each element of a set once -----

  ghost predicate Lists<T>(list: seq<T>, s: set<T>) {
    multiset(list) == multiset(s)
  }

  function SwapRemove<T>(list: seq<T>, i: nat): seq<T>
    requires i < |list|
  {
    list[i := list[|list| - 1]][..|list| - 1]
  }

  function Cut<T>(list: seq<T>, i: nat): seq<T>
    requires i < |list|
  {
    list[..i] + list[i + 1..]
  }

  lemma ListsMember<T>(list: seq<T>, s: set<T>, x: T)
    requires Lists(list, s)
    ensures x in list <==> x in s
  {
    assert x in list <==> x in multiset(list);
  }

  lemma ListsOfNone<T>(list: seq<T>, s: set<T>)
    requires Lists(list, s)
    ensures list == [] <==> s == {}
  {
    if list != [] {
      ListsMember(list, s, list[0]);
    }
    if s != {} {
      var x :| x in s;
      ListsMember(list, s, x);
    }
  }

  lemma ListsAppend<T>(list: seq<T>, s: set<T>, x: T)
    requires Lists(list, s)
    requires x !in s
    ensures Lists(list + [x], s + {x})
  {
    assert multiset(s + {x}) == multiset(s) + multiset{x};
  }

  lemma CutParts<T>(list: seq<T>, i: nat)
    requires i < |list|
    ensures multiset(list) == multiset(Cut(list, i)) + multiset{list[i]}
  {
    assert list == list[..i] + [list[i]] + list[i + 1..];
  }

  lemma SwapParts<T>(list: seq<T>, i: nat)
    requires i < |list|
    ensures multiset(list) == multiset(SwapRemove(list, i)) + multiset{list[i]}
  {
    var last := |list| - 1;
    assert list == list[..last] + [list[last]];
    if i < last {
      assert SwapRemove(list, i) == list[..i] + [list[last]] + list[i + 1..last];
      assert list == list[..i] + [list[i]] + list[i + 1..last] + [list[last]];
    } else {
      assert SwapRemove(list, i) == list[..last];
    }
  }

  lemma ListsTakeOut<T>(list: seq<T>, s: set<T>, list': seq<T>, x: T)
    requires Lists(list, s)
    requires multiset(list) == multiset(list') + multiset{x}
    ensures x in s
    ensures Lists(list', s - {x})
  {
    assert x in multiset(list);
    assert multiset(list') == multiset(list) - multiset{x};
    assert multiset(s - {x}) == multiset(s) - multiset{x};
  }

  /** Two lists of one set hold the same elements equally often. */
  lemma ListsSame<T>(a: seq<T>, b: seq<T>, s: set<T>)
    requires Lists(a, s) && Lists(b, s)
    ensures multiset(a) == multiset(b)
    ensures a == [] <==> b == []
  {
    ListsOfNone(a, s);
    ListsOfNone(b, s);
  }

  // ----- Tables of lists, with pending lists that shadow the committed ones -----

  function Slot<K, V>(db: map<K, seq<V>>, k: K): seq<V> {
    if k in db then db[k] else []
  }

  function Look<K, V>(db: map<K, seq<V>>, pending: map<K, seq<V>>, k: K): seq<V> {
    if k in pending then pending[k] else Slot(db, k)
  }

  ghost predicate NoEmptyLists<K, V>(db: map<K, seq<V>>) {
    forall k :: k in db ==> db[k] != []
  }

  /** Writing the pending lists: an empty list deletes its key. */
  function Flushed<K, V(==)>(db: map<K, seq<V>>, pending: map<K, seq<V>>): map<K, seq<V>> {
    (db + pending) - (set k | k in pending && pending[k] == [])
  }

  lemma FlushedSlots<K, V>(db: map<K, seq<V>>, pending: map<K, seq<V>>)
    requires NoEmptyLists(db)
    ensures NoEmptyLists(Flushed(db, pending))
    ensures forall k :: Slot(Flushed(db, pending), k) == Look(db, pending, k)
  {
  }

  // ----- The coins each key stands for -----

  function KeyOf(c: Coin): UnspentKey {
    UnspentKey(c.programHash, c.assetID, c.height)
  }

  function EntryOf(op: OutPoint, c: Coin): Unspent {
    Unspent(op.txid, op.index, c.value)
  }

  ghost function CoinsAt(coins: map<OutPoint, Coin>, k: UnspentKey): set<Unspent> {
    set op | op in coins && KeyOf(coins[op]) == k :: EntryOf(op, coins[op])
  }

  ghost function IndexesAt(coins: map<OutPoint, Coin>, txid: Hash): set<int> {
    set op | op in coins && op.txid == txid :: op.index
  }

  /** The lists, pending ones first, are those of the coins. */
  ghost predicate UtxosView(
    db: map<UnspentKey, seq<Unspent>>, pending: map<UnspentKey, seq<Unspent>>, coins: map<OutPoint, Coin>)
  {
    forall k :: Lists(Look(db, pending, k), CoinsAt(coins, k))
  }

  ghost predicate UnspentView(db: map<Hash, seq<int>>, pending: map<Hash, seq<int>>, coins: map<OutPoint, Coin>) {
    forall x :: Lists(Look(db, pending, x), IndexesAt(coins, x))
  }

  ghost predicate UtxosOk(db: map<UnspentKey, seq<Unspent>>, coins: map<OutPoint, Coin>) {
    NoEmptyLists(db) && UtxosView(db, map[], coins)
  }

  ghost predicate UnspentOk(db: map<Hash, seq<int>>, coins: map<OutPoint, Coin>) {
    NoEmptyLists(db) && UnspentView(db, map[], coins)
  }

  lemma UtxosFlushed(db: map<UnspentKey, seq<Unspent>>, pending: map<UnspentKey, seq<Unspent>>, coins: map<OutPoint, Coin>)
    requires NoEmptyLists(db)
    requires UtxosView(db, pending, coins)
    ensures UtxosOk(Flushed(db, pending), coins)
  {
    FlushedSlots(db, pending);
    forall k
      ensures Lists(Look(Flushed(db, pending), map[], k), CoinsAt(coins, k))
    {
      assert Lists(Look(db, pending, k), CoinsAt(coins, k));
    }
  }

  lemma UnspentFlushed(db: map<Hash, seq<int>>, pending: map<Hash, seq<int>>, coins: map<OutPoint, Coin>)
    requires NoEmptyLists(db)
    requires UnspentView(db, pending, coins)
    ensures UnspentOk(Flushed(db, pending), coins)
  {
    FlushedSlots(db, pending);
    forall x
      ensures Lists(Look(Flushed(db, pending), map[], x), IndexesAt(coins, x))
    {
      assert Lists(Look(db, pending, x), IndexesAt(coins, x));
    }
  }

  // ----- One coin more, one coin less: index by program hash, asset and height -----

  lemma CoinsAtAdd(coins: map<OutPoint, Coin>, op: OutPoint, c: Coin, k: UnspentKey)
    requires op !in coins
    ensures CoinsAt(coins[op := c], k) ==
            if KeyOf(c) == k then CoinsAt(coins, k) + {EntryOf(op, c)} else CoinsAt(coins, k)
    ensures EntryOf(op, c) !in CoinsAt(coins, k)
  {
    var after := coins[op := c];
    forall e | e in CoinsAt(coins, k)
      ensures e in CoinsAt(after, k)
    {
      var q :| q in coins && KeyOf(coins[q]) == k && e == EntryOf(q, coins[q]);
      assert q in after && after[q] == coins[q];
    }
    forall e | e in CoinsAt(after, k)
      ensures e in CoinsAt(coins, k) || (KeyOf(c) == k && e == EntryOf(op, c))
    {
      var q :| q in after && KeyOf(after[q]) == k && e == EntryOf(q, after[q]);
      assert q == op || (q in coins && after[q] == coins[q]);
    }
    if KeyOf(c) == k {
      assert op in after && KeyOf(after[op]) == k;
    }
  }

  lemma CoinsAtRemove(coins: map<OutPoint, Coin>, op: OutPoint, k: UnspentKey)
    requires op in coins
    ensures CoinsAt(coins - {op}, k) ==
            if KeyOf(coins[op]) == k then CoinsAt(coins, k) - {EntryOf(op, coins[op])} else CoinsAt(coins, k)
  {
    var before := coins - {op};
    CoinsAtAdd(before, op, coins[op], k);
    assert before[op := coins[op]] == coins;
  }

  lemma UtxosAdd(
    db: map<UnspentKey, seq<Unspent>>, pending: map<UnspentKey, seq<Unspent>>,
    coins: map<OutPoint, Coin>, op: OutPoint, c: Coin)
    requires UtxosView(db, pending, coins)
    requires op !in coins
    ensures UtxosView(db, pending[KeyOf(c) := Look(db, pending, KeyOf(c)) + [EntryOf(op, c)]], coins[op := c])
  {
    var pending' := pending[KeyOf(c) := Look(db, pending, KeyOf(c)) + [EntryOf(op, c)]];
    forall k
      ensures Lists(Look(db, pending', k), CoinsAt(coins[op := c], k))
    {
      assert Lists(Look(db, pending, k), CoinsAt(coins, k));
      CoinsAtAdd(coins, op, c, k);
      if k == KeyOf(c) {
        ListsAppend(Look(db, pending, k), CoinsAt(coins, k), EntryOf(op, c));
      }
    }
  }

  lemma UtxosRemove(
    db: map<UnspentKey, seq<Unspent>>, pending: map<UnspentKey, seq<Unspent>>,
    coins: map<OutPoint, Coin>, op: OutPoint, list': seq<Unspent>)
    requires UtxosView(db, pending, coins)
    requires op in coins
    requires multiset(Look(db, pending, KeyOf(coins[op]))) == multiset(list') + multiset{EntryOf(op, coins[op])}
    ensures UtxosView(db, pending[KeyOf(coins[op]) := list'], coins - {op})
  {
    var key := KeyOf(coins[op]);
    forall k
      ensures Lists(Look(db, pending[key := list'], k), CoinsAt(coins - {op}, k))
    {
      assert Lists(Look(db, pending, k), CoinsAt(coins, k));
      CoinsAtRemove(coins, op, k);
      if k == key {
        ListsTakeOut(Look(db, pending, k), CoinsAt(coins, k), list', EntryOf(op, coins[op]));
      }
    }
  }

  /** Looking an output up in the list of its key decides whether it is a coin. */
  lemma UtxosLookup(
    db: map<UnspentKey, seq<Unspent>>, pending: map<UnspentKey, seq<Unspent>>,
    coins: map<OutPoint, Coin>, op: OutPoint, key: UnspentKey)
    requires UtxosView(db, pending, coins)
    requires op in coins ==> key == KeyOf(coins[op])
    ensures op in coins ==> EntryOf(op, coins[op]) in Look(db, pending, key)
    ensures forall e :: e in Look(db, pending, key) && e.txid == op.txid && e.index == op.index ==>
                          op in coins && e == EntryOf(op, coins[op])
  {
    var list := Look(db, pending, key);
    assert Lists(list, CoinsAt(coins, key));
    if op in coins {
      ListsMember(list, CoinsAt(coins, key), EntryOf(op, coins[op]));
    }
    forall e | e in list && e.txid == op.txid && e.index == op.index
      ensures op in coins && e == EntryOf(op, coins[op])
    {
      ListsMember(list, CoinsAt(coins, key), e);
      var q :| q in coins && KeyOf(coins[q]) == key && e == EntryOf(q, coins[q]);
      assert q == op;
    }
  }

  // ----- One coin more, one coin less: index by transaction -----

  lemma IndexesAtAdd(coins: map<OutPoint, Coin>, op: OutPoint, c: Coin, x: Hash)
    requires op !in coins
    ensures IndexesAt(coins[op := c], x) ==
            if op.txid == x then IndexesAt(coins, x) + {op.index} else IndexesAt(coins, x)
    ensures op.txid == x ==> op.index !in IndexesAt(coins, x)
  {
    var after := coins[op := c];
    forall i | i in IndexesAt(coins, x)
      ensures i in IndexesAt(after, x)
    {
      assert OutPoint(x, i) in after;
    }
    forall i | i in IndexesAt(after, x)
      ensures i in IndexesAt(coins, x) || (op.txid == x && i == op.index)
    {
      assert OutPoint(x, i) in after;
      assert OutPoint(x, i) == op || OutPoint(x, i) in coins;
    }
    if op.txid == x {
      assert op in after;
    }
  }

  lemma IndexesAtRemove(coins: map<OutPoint, Coin>, op: OutPoint, x: Hash)
    requires op in coins
    ensures IndexesAt(coins - {op}, x) ==
            if op.txid == x then IndexesAt(coins, x) - {op.index} else IndexesAt(coins, x)
  {
    var before := coins - {op};
    IndexesAtAdd(before, op, coins[op], x);
    assert before[op := coins[op]] == coins;
  }

  lemma UnspentAdd(
    db: map<Hash, seq<int>>, pending: map<Hash, seq<int>>, coins: map<OutPoint, Coin>, op: OutPoint, c: Coin)
    requires UnspentView(db, pending, coins)
    requires op !in coins
    ensures UnspentView(db, pending[op.txid := Look(db, pending, op.txid) + [op.index]], coins[op := c])
  {
    var pending' := pending[op.txid := Look(db, pending, op.txid) + [op.index]];
    forall x
      ensures Lists(Look(db, pending', x), IndexesAt(coins[op := c], x))
    {
      assert Lists(Look(db, pending, x), IndexesAt(coins, x));
      IndexesAtAdd(coins, op, c, x);
      if x == op.txid {
        ListsAppend(Look(db, pending, x), IndexesAt(coins, x), op.index);
      }
    }
  }

  lemma UnspentRemove(
    db: map<Hash, seq<int>>, pending: map<Hash, seq<int>>,
    coins: map<OutPoint, Coin>, op: OutPoint, list': seq<int>)
    requires UnspentView(db, pending, coins)
    requires op in coins
    requires multiset(Look(db, pending, op.txid)) == multiset(list') + multiset{op.index}
    ensures UnspentView(db, pending[op.txid := list'], coins - {op})
  {
    forall x
      ensures Lists(Look(db, pending[op.txid := list'], x), IndexesAt(coins - {op}, x))
    {
      assert Lists(Look(db, pending, x), IndexesAt(coins, x));
      IndexesAtRemove(coins, op, x);
      if x == op.txid {
        ListsTakeOut(Look(db, pending, x), IndexesAt(coins, x), list', op.index);
      }
    }
  }

  lemma UnspentLookup(db: map<Hash, seq<int>>, pending: map<Hash, seq<int>>, coins: map<OutPoint, Coin>, op: OutPoint)
    requires UnspentView(db, pending, coins)
    ensures op in coins <==> op.index in Look(db, pending, op.txid)
  {
    assert Lists(Look(db, pending, op.txid), IndexesAt(coins, op.txid));
    ListsMember(Look(db, pending, op.txid), IndexesAt(coins, op.txid), op.index);
    if op.index in IndexesAt(coins, op.txid) {
      var q :| q in coins && q.txid == op.txid && q.index == op.index;
      assert q == op;
    }
  }

  // ----- The two indexes describe the same outputs -----

  /** The outputs that the index by transaction lists. */
  ghost predicate ListedByTransaction(unspent: map<Hash, seq<int>>, op: OutPoint) {
    op.index in Slot(unspent, op.txid)
  }

  /** The outputs that the index by program hash, asset and height lists. */
  ghost predicate ListedByOwner(utxos: map<UnspentKey, seq<Unspent>>, op: OutPoint) {
    exists k, e :: e in Slot(utxos, k) && e.txid == op.txid && e.index == op.index
  }

  ghost predicate IndexesAgree(unspent: map<Hash, seq<int>>, utxos: map<UnspentKey, seq<Unspent>>) {
    forall op :: ListedByTransaction(unspent, op) <==> ListedByOwner(utxos, op)
  }

  lemma OwnerListing(utxos: map<UnspentKey, seq<Unspent>>, coins: map<OutPoint, Coin>, op: OutPoint)
    requires UtxosOk(utxos, coins)
    ensures ListedByOwner(utxos, op) <==> op in coins
  {
    if op in coins {
      var k := KeyOf(coins[op]);
      UtxosLookup(utxos, map[], coins, op, k);
      assert EntryOf(op, coins[op]) in Slot(utxos, k);
    }
    if ListedByOwner(utxos, op) {
      var k, e :| e in Slot(utxos, k) && e.txid == op.txid && e.index == op.index;
      assert Lists(Look(utxos, map[], k), CoinsAt(coins, k));
      ListsMember(Slot(utxos, k), CoinsAt(coins, k), e);
      var q :| q in coins && KeyOf(coins[q]) == k && e == EntryOf(q, coins[q]);
      assert q == op;
    }
  }

  lemma TransactionListing(unspent: map<Hash, seq<int>>, coins: map<OutPoint, Coin>, op: OutPoint)
    requires UnspentOk(unspent, coins)
    ensures ListedByTransaction(unspent, op) <==> op in coins
  {
    UnspentLookup(unspent, map[], coins, op);
  }

  /** Indexes of coin maps with the same keys agree, and only those do. */
  lemma AgreeIff(
    unspent: map<Hash, seq<int>>, coins: map<OutPoint, Coin>,
    utxos: map<UnspentKey, seq<Unspent>>, coins': map<OutPoint, Coin>)
    requires UnspentOk(unspent, coins)
    requires UtxosOk(utxos, coins')
    ensures IndexesAgree(unspent, utxos) <==> coins.Keys == coins'.Keys
  {
    forall op
      ensures ListedByTransaction(unspent, op) <==> op in coins
      ensures ListedByOwner(utxos, op) <==> op in coins'
    {
      TransactionListing(unspent, coins, op);
      OwnerListing(utxos, coins', op);
    }
    if IndexesAgree(unspent, utxos) {
      forall op
        ensures op in coins <==> op in coins'
      {
        assert ListedByTransaction(unspent, op) <==> ListedByOwner(utxos, op);
      }
    }
  }

  // ----- Steps that the two indexes share -----

  lemma PutBackOne<K>(s: set<K>, k: K)
    requires k in s
    ensures (s - {k}) + {k} == s
  {
  }

  lemma FlushedNone<K, V>(table: map<K, seq<V>>, pending: map<K, seq<V>>)
    ensures Flushed(table, pending - pending.Keys) == table
  {
  }

  lemma FlushedStep<K, V>(table: map<K, seq<V>>, pending: map<K, seq<V>>, todo: set<K>, k: K)
    requires k in pending && k !in todo
    ensures Flushed(table, pending - todo) ==
            var before := Flushed(table, pending - (todo + {k}));
            if pending[k] == [] then before - {k} else before[k := pending[k]]
  {
  }

  /** Puts every pending list into the batch, and deletes the keys whose list became empty. */
  method FlushLists<K, V(==)>(table: map<K, seq<V>>, pending: map<K, seq<V>>) returns (table': map<K, seq<V>>)
    ensures table' == Flushed(table, pending)
  {
    table' := table;
    var todo := pending.Keys;
    FlushedNone(table, pending);
    while todo != {}
      invariant todo <= pending.Keys
      invariant table' == Flushed(table, pending - todo)
      decreases todo
    {
      var k :| k in todo;
      PutBackOne(todo, k);
      todo := todo - {k};
      if pending[k] == [] {
        table' := table' - {k};
      } else {
        table' := table'[k := pending[k]];
      }
      FlushedStep(table, pending, todo, k);
    }
    RemoveNone(pending);
  }

  lemma AddOneMore<K, V>(m: map<K, V>, c: map<K, V>, k: K, v: V)
    ensures m + c[k := v] == (m + c)[k := v]
  {
  }

  lemma AddNone<K, V>(m: map<K, V>)
    ensures m + map[] == m
  {
  }

  lemma RemoveNone<K, V>(m: map<K, V>)
    ensures m - {} == m
  {
  }

  lemma RemoveAbsent<K, V>(m: map<K, V>, k: K)
    requires k !in m
    ensures m - {k} == m
  {
  }

  lemma RemoveOneMore<K, V>(m: map<K, V>, s: set<K>, k: K)
    ensures m - (s + {k}) == (m - s) - {k}
  {
  }

  lemma CoinsOfOneMore(ops: set<OutPoint>, txs: map<Hash, StoredTx>, op: OutPoint)
    requires Resolves(txs, op)
    ensures CoinsOf(ops + {op}, txs) == CoinsOf(ops, txs)[op := CoinAt(txs, op)]
  {
  }

  lemma {:induction false} RefsDistinct(inputs: seq<TxInput>, n: nat)
    requires n < |inputs|
    requires DistinctRefs(inputs)
    ensures Ref(inputs[n]) !in RefsUpTo(inputs, n)
  {
  }

  /** Appends to the list of a key, reading the list from the table the first time. */
  method AppendTo<K, V>(table: map<K, seq<V>>, pending: map<K, seq<V>>, k: K, v: V) returns (pending': map<K, seq<V>>)
    ensures pending' == pending[k := Look(table, pending, k) + [v]]
  {
    pending' := pending;
    if k !in pending' {
      pending' := pending'[k := Slot(table, k)];
    }
    pending' := pending'[k := pending'[k] + [v]];
  }

  /** The output is one of a stored transaction and, if it is a coin, the coin says the same. */
  ghost predicate Known(txs: map<Hash, StoredTx>, coins: map<OutPoint, Coin>, input: TxInput) {
    && Resolves(txs, Ref(input))
    && txs[input.referTxID].tx.hash == input.referTxID
    && (Ref(input) in coins ==> coins[Ref(input)] == CoinAt(txs, Ref(input)))
  }

  predicate Spends(t: Transaction) {
    !t.IsRegisterAsset() && !t.IsCoinBase()
  }

  ghost predicate AllKnown(txs: map<Hash, StoredTx>, coins: map<OutPoint, Coin>, inputs: seq<TxInput>) {
    forall k :: 0 <= k < |inputs| ==> Known(txs, coins, inputs[k])
  }

  lemma ReadyToUndo(l: Ledger, ts: seq<Transaction>, height: int, n: nat)
    requires Sound(l)
    requires TxsSane(ts)
    requires AllContextOk(l, ts)
    requires n < |ts|
    ensures Spends(ts[n]) ==> DistinctRefs(ts[n].inputs) && AllKnown(StoreTxs(l.txs, ts, height), map[], ts[n].inputs)
  {
    var t := ts[n];
    assert t in ts;
    if Spends(t) {
      forall k | 0 <= k < |t.inputs|
        ensures Known(StoreTxs(l.txs, ts, height), map[], t.inputs[k])
      {
        assert ContextOk(l, t) && InputOk(l, t.inputs[k]);
        StillStored(l, ts, height, t.inputs[k].referTxID);
      }
    }
  }

  lemma ApplyRegisterAsset(coins: map<OutPoint, Coin>, t: Transaction, height: int, txs: map<Hash, StoredTx>)
    requires t.IsRegisterAsset()
    ensures ApplyTx(coins, t, height) == coins
    ensures UndoTx(coins, t, height, txs) == coins
  {
  }

  lemma ApplyCoinBase(coins: map<OutPoint, Coin>, t: Transaction, height: int, txs: map<Hash, StoredTx>)
    requires t.IsCoinBase()
    ensures ApplyTx(coins, t, height) == coins + CreatedUpTo(t, height, |t.outputs|)
    ensures UndoTx(coins, t, height, txs) == coins - CreatedUpTo(t, height, |t.outputs|).Keys
  {
  }

  lemma ApplyNext(coins: map<OutPoint, Coin>, ts: seq<Transaction>, height: int, n: nat)
    requires n < |ts|
    ensures ApplyTxs(coins, ts[..n + 1], height) == ApplyTx(ApplyTxs(coins, ts[..n], height), ts[n], height)
  {
    assert ts[..n + 1][..n] == ts[..n];
  }

  lemma UndoNext(coins: map<OutPoint, Coin>, ts: seq<Transaction>, height: int, n: nat, txs: map<Hash, StoredTx>)
    requires n < |ts|
    ensures UndoTxs(coins, ts[..n + 1], height, txs) == UndoTx(UndoTxs(coins, ts[..n], height, txs), ts[n], height, txs)
  {
    assert ts[..n + 1][..n] == ts[..n];
  }

  lemma Whole<T>(s: seq<T>)
    ensures s[..|s|] == s
  {
  }

  /** The coins with those that the first n inputs name given back. */
  ghost function Restored(coins: map<OutPoint, Coin>, inputs: seq<TxInput>, n: nat, txs: map<Hash, StoredTx>): map<OutPoint, Coin>
    requires n <= |inputs|
  {
    coins + CoinsOf(RefsUpTo(inputs, n), txs)
  }

  lemma RestoredNone(coins: map<OutPoint, Coin>, inputs: seq<TxInput>, txs: map<Hash, StoredTx>)
    ensures Restored(coins, inputs, 0, txs) == coins
  {
  }

  lemma RestoredNext(coins: map<OutPoint, Coin>, inputs: seq<TxInput>, n: nat, txs: map<Hash, StoredTx>)
    requires n < |inputs|
    requires DistinctRefs(inputs)
    requires Refs(inputs) !! coins.Keys
    requires AllKnown(txs, map[], inputs)
    ensures Known(txs, map[], inputs[n])
    ensures Ref(inputs[n]) !in Restored(coins, inputs, n, txs)
    ensures Restored(coins, inputs, n + 1, txs) ==
            Restored(coins, inputs, n, txs)[Ref(inputs[n]) := CoinAt(txs, Ref(inputs[n]))]
  {
    var op := Ref(inputs[n]);
    assert Known(txs, map[], inputs[n]);
    RefsDistinct(inputs, n);
    assert op in Refs(inputs);
    CoinsOfOneMore(RefsUpTo(inputs, n), txs, op);
    AddOneMore(coins, CoinsOf(RefsUpTo(inputs, n), txs), op, CoinAt(txs, op));
  }
}

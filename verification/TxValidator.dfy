/** Checks of a single transaction: against the ledger, and of its inputs and balance on its own. */
module TxValidator {
  import opened Types
  import opened Ledger
  import opened UnspentIndex
  import opened Storage

  datatype ErrCode =
    | NoError
    | TxHashDuplicate
    | DoubleSpend
    | UnknownReferedTxn
    | InvalidReferedTxn
    | IneffectiveCoinbase

  // ----- Against the ledger -----

  method CheckReference(txs: map<Hash, StoredTx>, height: int, input: TxInput, ghost l: Ledger) returns (code: ErrCode)
    requires Sound(l) && txs == l.txs && height == l.height
    requires Ref(input) in l.coins
    ensures code == NoError <==> InputOk(l, input)
    ensures code in {NoError, InvalidReferedTxn, IneffectiveCoinbase}
  {
    assert Resolves(l.txs, Ref(input));
    if input.referTxID !in txs {
      return UnknownReferedTxn;
    }
    var refer := txs[input.referTxID].tx;
    if refer.outputs[input.referIndex].value <= 0 {
      return InvalidReferedTxn;
    }
    if refer.IsCoinBase() && (height - refer.lockTime) % TWO_TO_32 < SPEND_COINBASE_SPAN {
      return IneffectiveCoinbase;
    }
    return NoError;
  }

  ghost predicate InputsOkUpTo(l: Ledger, inputs: seq<TxInput>, n: nat)
    requires n <= |inputs|
  {
    forall k :: 0 <= k < n ==> InputOk(l, inputs[k])
  }

  method CheckReferences(txs: map<Hash, StoredTx>, height: int, inputs: seq<TxInput>, ghost l: Ledger) returns (code: ErrCode)
    requires Sound(l) && txs == l.txs && height == l.height
    requires Refs(inputs) <= l.coins.Keys
    ensures code == NoError <==> InputsOkUpTo(l, inputs, |inputs|)
    ensures code in {NoError, InvalidReferedTxn, IneffectiveCoinbase}
  {
    hide Sound, InputOk;
    for i := 0 to |inputs|
      invariant InputsOkUpTo(l, inputs, i)
    {
      assert Ref(inputs[i]) in Refs(inputs);
      code := CheckReference(txs, height, inputs[i], l);
      if code != NoError {
        return;
      }
    }
    return NoError;
  }

  /** A transaction passes exactly when the ledger allows it, and the lookup of spent outputs never fails. */
  method CheckTransactionContext(store: ChainStore, t: Transaction, ghost l: Ledger) returns (code: ErrCode)
    requires store.Holds(l) && l.height >= 0
    ensures code == NoError <==> ContextOk(l, t)
    ensures code == TxHashDuplicate <==> t.hash in l.txs
    ensures code != UnknownReferedTxn
  {
    hide Sound, UnspentOk, UtxosOk, InputOk;
    if t.hash in store.db.txs {
      return TxHashDuplicate;
    }
    if t.IsCoinBase() {
      return NoError;
    }
    var spent := store.IsDoubleSpend(t, l);
    InputsAreCoins(l, t);
    if spent {
      return DoubleSpend;
    }
    code := CheckReferences(store.db.txs, store.currentBlockHeight, t.inputs, l);
  }

  lemma InputsAreCoins(l: Ledger, t: Transaction)
    ensures (forall i :: i in t.inputs ==> InputOk(l, i)) ==> Refs(t.inputs) <= l.coins.Keys
    ensures (forall i :: i in t.inputs ==> InputOk(l, i)) <==> InputsOkUpTo(l, t.inputs, |t.inputs|)
  {
    if forall i :: i in t.inputs ==> InputOk(l, i) {
      forall op | op in Refs(t.inputs)
        ensures op in l.coins
      {
        var k :| 0 <= k < |t.inputs| && Ref(t.inputs[k]) == op;
        assert t.inputs[k] in t.inputs;
      }
    }
  }

  // ----- Inputs on their own -----

  const MAX_UINT16 := 0xFFFF

  const NULL_REF: OutPoint := OutPoint(ZERO_HASH, MAX_UINT16)

  ghost predicate InputsSane(t: Transaction) {
    if t.IsCoinBase() then
      |t.inputs| == 1 && Ref(t.inputs[0]) == NULL_REF
    else
      && t.inputs != []
      && (forall k :: 0 <= k < |t.inputs| ==> Ref(t.inputs[k]) != NULL_REF)
      && DistinctRefs(t.inputs)
  }

  /** The asset that coinbases issue, and who must be among those they pay. */
  datatype Token = Token(assetID: Hash, foundation: ProgramHash)

  ghost predicate OutputsSane(t: Transaction, token: Token) {
    if t.IsCoinBase() then
      && |t.outputs| >= 2
      && (forall k :: 0 <= k < |t.outputs| ==> t.outputs[k].assetID == token.assetID)
      && (exists k :: 0 <= k < |t.outputs| && t.outputs[k].programHash == token.foundation)
    else
      t.outputs != []
  }

  method CheckTransactionOutput(t: Transaction, token: Token) returns (ok: bool)
    ensures ok <==> OutputsSane(t, token)
  {
    if !t.IsCoinBase() {
      return t.outputs != [];
    }
    if |t.outputs| < 2 {
      return false;
    }
    ok := false;
    for i := 0 to |t.outputs|
      invariant forall k :: 0 <= k < i ==> t.outputs[k].assetID == token.assetID
      invariant ok <==> exists k :: 0 <= k < i && t.outputs[k].programHash == token.foundation
    {
      if t.outputs[i].assetID != token.assetID {
        return false;
      }
      if t.outputs[i].programHash == token.foundation {
        ok := true;
      }
    }
  }

  method CheckTransactionInput(t: Transaction) returns (ok: bool)
    ensures ok <==> InputsSane(t)
  {
    if t.IsCoinBase() {
      return |t.inputs| == 1 && t.inputs[0].referTxID == ZERO_HASH && t.inputs[0].referIndex == MAX_UINT16;
    }
    if t.inputs == [] {
      return false;
    }
    for i := 0 to |t.inputs|
      invariant forall k :: 0 <= k < i ==> Ref(t.inputs[k]) != NULL_REF
      invariant forall j, k :: 0 <= j < k < i ==> Ref(t.inputs[j]) != Ref(t.inputs[k])
    {
      var input := t.inputs[i];
      if input.referTxID == ZERO_HASH && input.referIndex == MAX_UINT16 {
        assert Ref(t.inputs[i]) == NULL_REF;
        return false;
      }
      for j := 0 to i
        invariant forall k :: 0 <= k < j ==> Ref(t.inputs[k]) != Ref(t.inputs[i])
      {
        if input.referTxID == t.inputs[j].referTxID && input.referIndex == t.inputs[j].referIndex {
          assert Ref(t.inputs[j]) == Ref(t.inputs[i]);
          return false;
        }
      }
    }
    return true;
  }

  // ----- Balance -----

  /** Arithmetic on 64-bit signed numbers keeps the low 64 bits. */
  function Wrap64(x: int): (r: int)
    ensures -0x8000_0000_0000_0000 <= x < 0x8000_0000_0000_0000 ==> r == x
  {
    (x + 0x8000_0000_0000_0000) % 0x1_0000_0000_0000_0000 - 0x8000_0000_0000_0000
  }

  lemma WrapShift(x: int, k: int)
    ensures Wrap64(x + k * 0x1_0000_0000_0000_0000) == Wrap64(x)
  {
    var m, z := 0x1_0000_0000_0000_0000, x + 0x8000_0000_0000_0000;
    assert (z + k * m) / m == z / m + k;
  }

  lemma WrapForm(x: int) returns (k: int)
    ensures Wrap64(x) == x + k * 0x1_0000_0000_0000_0000
  {
    k := -((x + 0x8000_0000_0000_0000) / 0x1_0000_0000_0000_0000);
  }

  lemma WrapSum(x: int, y: int)
    ensures Wrap64(Wrap64(x) + y) == Wrap64(x + y)
  {
    hide Wrap64;
    var k := WrapForm(x);
    WrapShift(x + y, k);
  }

  lemma WrapDifference(x: int, y: int)
    ensures Wrap64(Wrap64(x) - Wrap64(y)) == Wrap64(x - y)
  {
    hide Wrap64;
    var j := WrapForm(x);
    var k := WrapForm(y);
    WrapShift(x - y, j - k);
  }

  /** The exact sum of the values of one asset. */
  function SumOf(outputs: seq<TxOutput>, asset: Hash): int {
    if outputs == [] then 0
    else
      var last := outputs[|outputs| - 1];
      SumOf(outputs[..|outputs| - 1], asset) + if last.assetID == asset then last.value else 0
  }

  lemma SumOfOne(o: TxOutput, asset: Hash)
    ensures SumOf([o], asset) == if o.assetID == asset then o.value else 0
  {
    assert [o][..0] == [];
  }

  ghost predicate Mentions(outputs: seq<TxOutput>, asset: Hash) {
    exists k :: 0 <= k < |outputs| && outputs[k].assetID == asset
  }

  /** The map of sums, asset by asset, in 64-bit arithmetic. */
  ghost predicate IsMerged(m: map<Hash, int>, outputs: seq<TxOutput>) {
    forall a :: (a in m <==> Mentions(outputs, a)) && (a in m ==> m[a] == Wrap64(SumOf(outputs, a)))
  }

  lemma MergedNext(m: map<Hash, int>, outputs: seq<TxOutput>, n: nat)
    requires n < |outputs|
    requires IsMerged(m, outputs[..n])
    ensures var o := outputs[n];
            var v := if o.assetID in m then m[o.assetID] else 0;
            IsMerged(m[o.assetID := Wrap64(v + o.value)], outputs[..n + 1])
  {
    var o := outputs[n];
    var v := if o.assetID in m then m[o.assetID] else 0;
    var m' := m[o.assetID := Wrap64(v + o.value)];
    forall a
      ensures a in m' <==> Mentions(outputs[..n + 1], a)
      ensures a in m' ==> m'[a] == Wrap64(SumOf(outputs[..n + 1], a))
    {
      assert a in m <==> Mentions(outputs[..n], a);
      MentionsNext(outputs, n, a);
      SumNext(outputs, n, a);
      WrapSum(SumOf(outputs[..n], a), o.value);
      if a !in m {
        SumOfNone(outputs[..n], a);
      }
    }
  }

  lemma MentionsNext(outputs: seq<TxOutput>, n: nat, asset: Hash)
    requires n < |outputs|
    ensures Mentions(outputs[..n + 1], asset) <==> Mentions(outputs[..n], asset) || outputs[n].assetID == asset
  {
    if Mentions(outputs[..n], asset) {
      var k :| 0 <= k < n && outputs[..n][k].assetID == asset;
      assert outputs[..n + 1][k].assetID == asset;
    }
    if outputs[n].assetID == asset {
      assert outputs[..n + 1][n].assetID == asset;
    }
    if Mentions(outputs[..n + 1], asset) {
      var k :| 0 <= k < n + 1 && outputs[..n + 1][k].assetID == asset;
      assert k < n ==> outputs[..n][k].assetID == asset;
    }
  }

  lemma SumNext(outputs: seq<TxOutput>, n: nat, asset: Hash)
    requires n < |outputs|
    ensures SumOf(outputs[..n + 1], asset) == SumOf(outputs[..n], asset) + if outputs[n].assetID == asset then outputs[n].value else 0
  {
    assert outputs[..n + 1][..n] == outputs[..n];
  }

  lemma {:induction false} SumOfNone(outputs: seq<TxOutput>, asset: Hash)
    requires !Mentions(outputs, asset)
    ensures SumOf(outputs, asset) == 0
  {
    if outputs != [] {
      var n := |outputs| - 1;
      assert outputs[n].assetID != asset;
      MentionsNext(outputs, n, asset);
      assert outputs[..n + 1] == outputs;
      SumOfNone(outputs[..n], asset);
    }
  }

  method MergeValues(outputs: seq<TxOutput>) returns (result: map<Hash, int>)
    ensures IsMerged(result, outputs)
  {
    hide IsMerged, Wrap64;
    result := map[];
    MergedNone(outputs);
    for i := 0 to |outputs|
      invariant IsMerged(result, outputs[..i])
    {
      var o := outputs[i];
      MergedNext(result, outputs, i);
      if o.assetID in result {
        result := result[o.assetID := Wrap64(result[o.assetID] + o.value)];
      } else {
        result := result[o.assetID := Wrap64(0 + o.value)];
      }
    }
    Whole(outputs);
  }

  lemma MergedNone(outputs: seq<TxOutput>)
    ensures IsMerged(map[], outputs[..0])
  {
  }

  // ----- What a transaction takes in and puts out -----

  predicate InRange(txs: map<Hash, StoredTx>, input: TxInput) {
    input.referTxID in txs && input.referIndex < |txs[input.referTxID].tx.outputs|
  }

  predicate AllInRange(txs: map<Hash, StoredTx>, inputs: seq<TxInput>) {
    forall k :: 0 <= k < |inputs| ==> InRange(txs, inputs[k])
  }

  /** The outputs that the inputs name, input by input. */
  function Referenced(txs: map<Hash, StoredTx>, inputs: seq<TxInput>): (r: seq<TxOutput>)
    requires AllInRange(txs, inputs)
    ensures |r| == |inputs|
    ensures forall k :: 0 <= k < |inputs| ==> InRange(txs, inputs[k]) && r[k] == txs[inputs[k].referTxID].tx.outputs[inputs[k].referIndex]
  {
    seq(|inputs|, k requires 0 <= k < |inputs| && InRange(txs, inputs[k]) => txs[inputs[k].referTxID].tx.outputs[inputs[k].referIndex])
  }

  /** Registering an asset takes nothing in, whatever its inputs are. */
  function ReferenceOf(txs: map<Hash, StoredTx>, t: Transaction): Option<seq<TxOutput>> {
    if t.IsRegisterAsset() then Some([])
    else if AllInRange(txs, t.inputs) then Some(Referenced(txs, t.inputs))
    else None
  }

  method GetReference(txs: map<Hash, StoredTx>, t: Transaction) returns (r: Option<seq<TxOutput>>)
    ensures r == ReferenceOf(txs, t)
  {
    if t.IsRegisterAsset() {
      return Some([]);
    }
    var outputs := [];
    for i := 0 to |t.inputs|
      invariant |outputs| == i
      invariant forall k :: 0 <= k < i ==> InRange(txs, t.inputs[k]) && outputs[k] == txs[t.inputs[k].referTxID].tx.outputs[t.inputs[k].referIndex]
    {
      var input := t.inputs[i];
      if input.referTxID !in txs {
        assert !InRange(txs, t.inputs[i]);
        return None;
      }
      if input.referIndex >= |txs[input.referTxID].tx.outputs| {
        assert !InRange(txs, t.inputs[i]);
        return None;
      }
      outputs := outputs + [txs[input.referTxID].tx.outputs[input.referIndex]];
    }
    assert outputs == Referenced(txs, t.inputs);
    return Some(outputs);
  }

  /** What comes in minus what goes out, for every asset that occurs. */
  ghost predicate IsResult(m: map<Hash, int>, refs: seq<TxOutput>, outputs: seq<TxOutput>) {
    forall a ::
      && (a in m <==> Mentions(refs, a) || Mentions(outputs, a))
      && (a in m ==> m[a] == Wrap64(SumOf(refs, a) - SumOf(outputs, a)))
  }

  /** The difference as computed: an amount that nothing is subtracted from is taken over. */
  ghost predicate IsDifference(v: int, ins: map<Hash, int>, outs: map<Hash, int>, a: Hash) {
    if a in outs then v == Wrap64((if a in ins then ins[a] else 0) - outs[a]) else a in ins && v == ins[a]
  }

  method Differences(ins: map<Hash, int>, outs: map<Hash, int>) returns (result: map<Hash, int>)
    ensures result.Keys == ins.Keys + outs.Keys
    ensures forall a :: a in result ==> IsDifference(result[a], ins, outs, a)
  {
    hide Wrap64;
    result := map[];
    var todo := outs.Keys;
    while todo != {}
      invariant todo <= outs.Keys
      invariant result.Keys == outs.Keys - todo
      invariant forall a :: a in result ==> result[a] == Wrap64((if a in ins then ins[a] else 0) - outs[a])
      decreases todo
    {
      var a := PickFrom(todo);
      todo := todo - {a};
      if a in ins {
        result := result[a := Wrap64(ins[a] - outs[a])];
      } else {
        result := result[a := Wrap64(0 - outs[a])];
      }
    }
    todo := ins.Keys;
    ghost var first := result;
    while todo != {}
      invariant todo <= ins.Keys
      invariant result.Keys == outs.Keys + (ins.Keys - todo)
      invariant forall a :: a in result ==> if a in outs then result[a] == first[a] else result[a] == ins[a]
      decreases todo
    {
      var a := PickFrom(todo);
      todo := todo - {a};
      if a !in result {
        result := result[a := ins[a]];
      }
    }
  }

  lemma ResultIsDifference(refs: seq<TxOutput>, outputs: seq<TxOutput>, ins: map<Hash, int>, outs: map<Hash, int>, result: map<Hash, int>)
    requires IsMerged(ins, refs) && IsMerged(outs, outputs)
    requires result.Keys == ins.Keys + outs.Keys
    requires forall a :: a in result ==> IsDifference(result[a], ins, outs, a)
    ensures IsResult(result, refs, outputs)
  {
    forall a
      ensures a in result <==> Mentions(refs, a) || Mentions(outputs, a)
      ensures a in result ==> result[a] == Wrap64(SumOf(refs, a) - SumOf(outputs, a))
    {
      hide Wrap64;
      assert a in ins <==> Mentions(refs, a);
      assert a in outs <==> Mentions(outputs, a);
      WrapDifference(SumOf(refs, a), SumOf(outputs, a));
      WrapZero();
      if a !in ins {
        SumOfNone(refs, a);
      }
      if a !in outs {
        SumOfNone(outputs, a);
      }
    }
  }

  lemma WrapZero()
    ensures Wrap64(0) == 0
    ensures forall x :: Wrap64(Wrap64(x)) == Wrap64(x)
  {
  }

  method GetTransactionResults(txs: map<Hash, StoredTx>, t: Transaction) returns (r: Option<map<Hash, int>>)
    ensures r.Some? <==> ReferenceOf(txs, t).Some?
    ensures r.Some? ==> IsResult(r.value, ReferenceOf(txs, t).value, t.outputs)
  {
    var outs := MergeValues(t.outputs);
    var refs := GetReference(txs, t);
    if refs.None? {
      return None;
    }
    var ins := MergeValues(refs.value);
    var result := Differences(ins, outs);
    ResultIsDifference(refs.value, t.outputs, ins, outs, result);
    return Some(result);
  }

  /** Every output is positive, and of every asset that occurs at least the fee is left over. */
  ghost predicate BalanceOk(txs: map<Hash, StoredTx>, t: Transaction, minFee: int) {
    && (forall k :: 0 <= k < |t.outputs| ==> t.outputs[k].value > 0)
    && ReferenceOf(txs, t).Some?
    && forall a :: Mentions(ReferenceOf(txs, t).value, a) || Mentions(t.outputs, a) ==>
                     Wrap64(SumOf(ReferenceOf(txs, t).value, a) - SumOf(t.outputs, a)) >= minFee
  }

  method CheckTransactionBalance(txs: map<Hash, StoredTx>, t: Transaction, minFee: int) returns (ok: bool)
    ensures ok <==> BalanceOk(txs, t, minFee)
  {
    hide Wrap64, ReferenceOf, SumOf, Mentions;
    for i := 0 to |t.outputs|
      invariant forall k :: 0 <= k < i ==> t.outputs[k].value > 0
    {
      if t.outputs[i].value <= 0 {
        return false;
      }
    }
    var r := GetTransactionResults(txs, t);
    if r.None? {
      return false;
    }
    var todo := r.value.Keys;
    while todo != {}
      invariant todo <= r.value.Keys
      invariant forall a :: a in r.value && a !in todo ==> r.value[a] >= minFee
      decreases todo
    {
      var a := PickFrom(todo);
      if r.value[a] < minFee {
        return false;
      }
      todo := todo - {a};
    }
    return true;
  }
}

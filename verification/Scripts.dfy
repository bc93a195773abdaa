/** Spending scripts: how they are built, and what running them decides. */
module Scripts {
  import opened Types
  import opened Compact
  import opened Serialization
  import opened Vm

  // ----- Building -----

  function PushDataBytes(data: seq<Byte>): seq<Byte> {
    if |data| <= 75 then [|data|] + data
    else if |data| < 0x100 then [PUSHDATA1, |data|] + data
    else if |data| < 0x1_0000 then [PUSHDATA2] + (LittleEndian(|data|, 2) + data)
    else [PUSHDATA4] + (LittleEndian(|data|, 4) + data)
  }

  function PushNumberBytes(number: int): seq<Byte> {
    if number == -1 then [PUSHM1]
    else if number == 0 then [0x00]
    else if 0 < number <= 16 then [PUSH1 - 1 + number]
    else PushDataBytes(BigEndian(if number < 0 then -number else number))
  }

  class ProgramBuilder {
    var buffer: seq<Byte>

    constructor ()
      ensures buffer == []
    {
      buffer := [];
    }

    method AddOp(op: Byte)
      modifies this
      ensures buffer == old(buffer) + [op]
    {
      buffer := buffer + [op];
    }

    method PushData(data: seq<Byte>)
      modifies this
      ensures buffer == old(buffer) + PushDataBytes(data)
    {
      hide LittleEndian;
      if |data| <= 75 {
        buffer := buffer + [|data|];
        buffer := buffer + data;
      } else if |data| < 0x100 {
        AddOp(PUSHDATA1);
        buffer := buffer + [|data|];
        buffer := buffer + data;
      } else if |data| < 0x1_0000 {
        AddOp(PUSHDATA2);
        buffer := buffer + LittleEndian(|data|, 2);
        buffer := buffer + data;
      } else {
        AddOp(PUSHDATA4);
        buffer := buffer + LittleEndian(|data|, 4);
        buffer := buffer + data;
      }
    }

    method PushNumber(number: int)
      modifies this
      ensures buffer == old(buffer) + PushNumberBytes(number)
    {
      hide PushDataBytes;
      if number == -1 {
        AddOp(PUSHM1);
      } else if number == 0 {
        AddOp(0x00);
      } else if 0 < number <= 16 {
        AddOp(PUSH1 - 1 + number);
      } else {
        PushData(BigEndian(if number < 0 then -number else number));
      }
    }
  }

  function Pushes(l: seq<seq<Byte>>): seq<Byte> {
    EncodeAll(PushDataBytes, l)
  }

  /** The key's coordinate that keys are sorted by, and its compressed encoding. */
  datatype PubKey = PubKey(x: int, code: seq<Byte>)

  function Codes(keys: seq<PubKey>): (r: seq<seq<Byte>>)
    ensures |r| == |keys|
  {
    seq(|keys|, i requires 0 <= i < |keys| => keys[i].code)
  }

  /** The script for m of the given keys, in their order. */
  function MultiSigScript(m: int, codes: seq<seq<Byte>>): seq<Byte> {
    PushNumberBytes(m) + (Pushes(codes) + (PushNumberBytes(|codes|) + [CHECKMULTISIG]))
  }

  ghost predicate SortedKeys(keys: seq<PubKey>) {
    forall i, j :: 0 <= i < j < |keys| ==> keys[i].x <= keys[j].x
  }

  method SortKeys(keys: seq<PubKey>) returns (r: seq<PubKey>)
    ensures multiset(r) == multiset(keys) && SortedKeys(r)
  {
    r := [];
    for i := 0 to |keys|
      invariant multiset(r) == multiset(keys[..i]) && SortedKeys(r)
    {
      assert keys[..i + 1] == keys[..i] + [keys[i]];
      r := InsertKey(r, keys[i]);
    }
    assert keys[..|keys|] == keys;
  }

  method InsertKey(keys: seq<PubKey>, key: PubKey) returns (r: seq<PubKey>)
    requires SortedKeys(keys)
    ensures multiset(r) == multiset(keys) + multiset{key} && SortedKeys(r)
  {
    var k: nat := |keys|;
    while k > 0 && keys[k - 1].x > key.x
      invariant k <= |keys|
      invariant forall j :: k <= j < |keys| ==> key.x < keys[j].x
    {
      k := k - 1;
    }
    Inserted(keys, key, k);
    r := keys[..k] + [key] + keys[k..];
  }

  lemma Inserted(keys: seq<PubKey>, key: PubKey, k: nat)
    requires SortedKeys(keys) && k <= |keys|
    requires k > 0 ==> keys[k - 1].x <= key.x
    requires forall j :: k <= j < |keys| ==> key.x < keys[j].x
    ensures multiset(keys[..k] + [key] + keys[k..]) == multiset(keys) + multiset{key}
    ensures SortedKeys(keys[..k] + [key] + keys[k..])
  {
    assert multiset(keys[..k] + [key] + keys[k..]) == multiset(keys[..k]) + multiset{key} + multiset(keys[k..]);
    assert multiset(keys) == multiset(keys[..k]) + multiset(keys[k..]) by {
      assert keys == keys[..k] + keys[k..];
    }
    InsertedSorted(keys, key, k);
  }

  lemma InsertedSorted(keys: seq<PubKey>, key: PubKey, k: nat)
    requires SortedKeys(keys) && k <= |keys|
    requires k > 0 ==> keys[k - 1].x <= key.x
    requires forall j :: k <= j < |keys| ==> key.x < keys[j].x
    ensures SortedKeys(keys[..k] + [key] + keys[k..])
  {
    var r := keys[..k] + [key] + keys[k..];
    forall j | 0 <= j < k
      ensures keys[j].x <= key.x
    {
      assert j == k - 1 || keys[j].x <= keys[k - 1].x;
    }
    forall i, j | 0 <= i < j < |r|
      ensures r[i].x <= r[j].x
    {
      assert r[i] == if i < k then keys[i] else if i == k then key else keys[i - 1];
      assert r[j] == if j < k then keys[j] else if j == k then key else keys[j - 1];
    }
  }

  /** The keys are sorted before the script is built. There is no script for numbers out of range. */
  method CreateMultiSigRedeemScript(m: int, pubkeys: seq<PubKey>) returns (r: Option<seq<Byte>>, ghost sorted: seq<PubKey>)
    ensures r.Some? <==> 1 <= m <= |pubkeys| <= 24
    ensures multiset(sorted) == multiset(pubkeys) && SortedKeys(sorted)
    ensures r.Some? ==> r.value == MultiSigScript(m, Codes(sorted))
  {
    hide PushNumberBytes, PushDataBytes;
    var keys := SortKeys(pubkeys);
    sorted := keys;
    if !(1 <= m <= |pubkeys| <= 24) {
      return None, sorted;
    }
    assert |keys| == |multiset(keys)| == |pubkeys|;
    var sb := new ProgramBuilder();
    sb.PushNumber(m);
    ghost var codes := Codes(keys);
    for i := 0 to |keys|
      invariant sb.buffer == PushNumberBytes(m) + Pushes(codes[..i])
    {
      assert codes[..i + 1][..i] == codes[..i];
      sb.PushData(keys[i].code);
    }
    assert codes[..|keys|] == codes;
    sb.PushNumber(|pubkeys|);
    sb.AddOp(CHECKMULTISIG);
    return Some(sb.buffer), sorted;
  }

  // ----- Running pushes -----

  function Items(l: seq<seq<Byte>>): (r: seq<Item>)
    ensures |r| == |l|
  {
    seq(|l|, i requires 0 <= i < |l| => ByteArray(l[i]))
  }

  /** What pushing a number leaves on the stack. */
  function NumberItem(number: nat): Item {
    if number == 0 then ByteArray([0])
    else if number <= 16 then Integer(number)
    else ByteArray(BigEndian(number))
  }

  lemma NumberItemValue(number: nat)
    ensures NumberItem(number).GetBigInteger() == number
  {
    BigEndianRound(number);
  }

  lemma TakeBack(data: seq<Byte>, tail: seq<Byte>)
    ensures Take(data + tail, |data|) == data && Skip(data + tail, |data|) == tail
  {
  }

  /** The pushing operation that the builder writes puts exactly the data on the stack. */
  lemma PushedData(data: seq<Byte>, tail: seq<Byte>)
    requires 0 < |data| < 0x1_0000
    ensures PushDataBytes(data) != [] && PushDataBytes(data)[0] <= PUSH16
    ensures Pushed(PushDataBytes(data)[0], PushDataBytes(data)[1..] + tail) == Some((ByteArray(data), tail))
  {
    hide Take, Skip, LittleEndian, FromLittleEndian;
    TakeBack(data, tail);
    if |data| <= 75 {
      assert PushDataBytes(data)[1..] == data;
    } else if |data| < 0x100 {
      assert PushDataBytes(data)[1..] + tail == [|data|] + (data + tail);
      TakeBack([|data|], data + tail);
    } else {
      var size := LittleEndian(|data|, 2);
      assert PushDataBytes(data)[1..] == size + data;
      Associative(size, data, tail);
      TakeBack(size, data + tail);
      Widths();
      LittleEndianRound(|data|, 2);
    }
  }

  /** What the pushing operation that the builder writes puts on the stack is the data. */
  predicate PushesBack(data: seq<Byte>, tail: seq<Byte>) {
    PushDataBytes(data) != [] && Pushed(PushDataBytes(data)[0], PushDataBytes(data)[1..] + tail) == Some((ByteArray(data), tail))
  }

  /**
   It is, except for no data and for data whose length takes three bytes or more: the builder writes
   such a length with the least significant byte first, and the machine reads it the other way round.
   */
  lemma PushRoundTrip(data: seq<Byte>, tail: seq<Byte>)
    requires |data| < 0x1_0000_0000
    ensures PushesBack(data, tail) <==>
            0 < |data| && (|data| < 0x1_0000 || ReadInt32(LittleEndian(|data|, 4)) == |data|)
  {
    hide LittleEndian, FromLittleEndian, ReadInt32, Take, Skip;
    if 0 < |data| < 0x1_0000 {
      PushedData(data, tail);
    } else if |data| >= 0x1_0000 {
      PushedLong(data, tail);
      TakeBack(data, tail);
    }
  }

  lemma PushedLong(data: seq<Byte>, tail: seq<Byte>)
    requires 0x1_0000 <= |data| < 0x1_0000_0000
    ensures PushDataBytes(data) != []
    ensures var n := AtLeastZero(ReadInt32(LittleEndian(|data|, 4)));
            Pushed(PushDataBytes(data)[0], PushDataBytes(data)[1..] + tail)
            == Some((ByteArray(Take(data + tail, n)), Skip(data + tail, n)))
  {
    hide LittleEndian, FromLittleEndian, Take, Skip, FromBigEndian;
    var size := LittleEndian(|data|, 4);
    Widths();
    assert PushDataBytes(data)[1..] == size + data;
    Associative(size, data, tail);
    TakeBack(size, data + tail);
    TakeBack(size, []);
    assert size + [] == size;
  }

  /** Of 65536 bytes, 256 are pushed. */
  lemma LongPushMisread(data: seq<Byte>, tail: seq<Byte>)
    requires |data| == 0x1_0000
    ensures ReadInt32(LittleEndian(|data|, 4)) == 256 && !PushesBack(data, tail)
  {
    hide PushesBack, Take;
    var size := LittleEndian(0x1_0000, 4);
    assert size == [0, 0, 1, 0];
    TakeBack(size, []);
    assert size + [] == size;
    ReadBytes();
    PushRoundTrip(data, tail);
  }

  lemma ReadBytes()
    ensures FromBigEndian([0, 0, 1, 0]) == 256
  {
    var s: seq<Byte> := [0, 0, 1, 0];
    assert s[..3] == [0, 0, 1] && s[..3][..2] == [0, 0] && s[..3][..2][..1] == [0] && s[..3][..2][..1][..0] == [];
    assert FromBigEndian([0]) == 0 && FromBigEndian([0, 0]) == 0 && FromBigEndian([0, 0, 1]) == 1;
  }

  lemma RunFirst(v: Verify, maxSteps: int, pushOnly: bool, b: seq<Byte>, tail: seq<Byte>, item: Item, stack: seq<Item>, opCount: int)
    requires b != [] && b[0] <= PUSH16
    requires Pushed(b[0], b[1..] + tail) == Some((item, tail))
    ensures RunScript(v, maxSteps, pushOnly, b + tail, stack, opCount) == RunScript(v, maxSteps, pushOnly, tail, stack + [item], opCount + 1)
  {
    hide Pushed, MultiSig, SingleSig;
    assert (b + tail)[0] == b[0] && (b + tail)[1..] == b[1..] + tail;
  }

  lemma RunPushData(v: Verify, maxSteps: int, pushOnly: bool, data: seq<Byte>, tail: seq<Byte>, stack: seq<Item>, opCount: int)
    requires 0 < |data| < 0x1_0000
    ensures RunScript(v, maxSteps, pushOnly, PushDataBytes(data) + tail, stack, opCount)
         == RunScript(v, maxSteps, pushOnly, tail, stack + [ByteArray(data)], opCount + 1)
  {
    hide PushDataBytes, RunScript, Pushed;
    PushedData(data, tail);
    RunFirst(v, maxSteps, pushOnly, PushDataBytes(data), tail, ByteArray(data), stack, opCount);
  }

  lemma RunPushNumber(v: Verify, maxSteps: int, pushOnly: bool, number: nat, tail: seq<Byte>, stack: seq<Item>, opCount: int)
    requires 0 < number < 256
    ensures RunScript(v, maxSteps, pushOnly, PushNumberBytes(number) + tail, stack, opCount)
         == RunScript(v, maxSteps, pushOnly, tail, stack + [NumberItem(number)], opCount + 1)
  {
    hide RunScript, PushDataBytes;
    if number <= 16 {
      var b: seq<Byte> := [PUSH1 - 1 + number];
      assert b[1..] + tail == tail;
      RunFirst(v, maxSteps, pushOnly, b, tail, Integer(number), stack, opCount);
    } else {
      assert BigEndian(number) == BigEndian(0) + [number % 256];
      RunPushData(v, maxSteps, pushOnly, BigEndian(number), tail, stack, opCount);
    }
  }

  lemma ItemsAppend(stack: seq<Item>, l: seq<seq<Byte>>)
    requires l != []
    ensures stack + Items(l) == stack + Items(l[..|l| - 1]) + [ByteArray(l[|l| - 1])]
  {
  }

  lemma {:induction false} RunPushes(v: Verify, maxSteps: int, pushOnly: bool, l: seq<seq<Byte>>, tail: seq<Byte>, stack: seq<Item>, opCount: int)
    requires forall k :: 0 <= k < |l| ==> 0 < |l[k]| < 0x1_0000
    ensures RunScript(v, maxSteps, pushOnly, Pushes(l) + tail, stack, opCount)
         == RunScript(v, maxSteps, pushOnly, tail, stack + Items(l), opCount + |l|)
    decreases |l|
  {
    hide RunScript, PushDataBytes;
    if l == [] {
      assert Pushes(l) + tail == tail && stack + Items(l) == stack;
    } else {
      var before, last := l[..|l| - 1], l[|l| - 1];
      Associative(Pushes(before), PushDataBytes(last), tail);
      RunPushes(v, maxSteps, pushOnly, before, PushDataBytes(last) + tail, stack, opCount);
      RunPushData(v, maxSteps, pushOnly, last, tail, stack + Items(before), opCount + |before|);
      ItemsAppend(stack, l);
    }
  }

  // ----- Running a script for several signatures -----

  function Reversed<T>(s: seq<T>): (r: seq<T>)
    ensures |r| == |s|
  {
    seq(|s|, i requires 0 <= i < |s| => s[|s| - 1 - i])
  }

  lemma TopItems(stack: seq<Item>, l: seq<seq<Byte>>)
    ensures TopBytes(stack + Items(l), |l|) == Reversed(l)
    ensures Drop(stack + Items(l), |l|) == stack
  {
    var s := stack + Items(l);
    forall i | 0 <= i < |l|
      ensures TopBytes(s, |l|)[i] == Reversed(l)[i]
    {
      var j := |l| - 1 - i;
      assert s[|s| - 1 - i] == Items(l)[j];
      assert Items(l)[j] == ByteArray(l[j]);
      assert TopBytes(s, |l|)[i] == s[|s| - 1 - i].GetByteArray();
      assert Reversed(l)[i] == l[j];
    }
  }

  lemma TopNumber(stack: seq<Item>, number: nat)
    requires number < 256
    ensures Top(stack + [NumberItem(number)]) == number
    ensures Drop(stack + [NumberItem(number)], 1) == stack
  {
    NumberItemValue(number);
  }

  /** The check on any stack with the number m, n keys and the number n on top. */
  lemma CheckOnStack(v: Verify, m: nat, signed: seq<Item>, codes: seq<seq<Byte>>, opCount: int)
    requires 1 <= m <= |codes| <= 24
    ensures MultiSig(v, MAXSTEPS, signed + [NumberItem(m)] + Items(codes) + [NumberItem(|codes|)], opCount)
         == if |signed| < m || opCount + |codes| > MAXSTEPS then None
            else Some((Drop(signed, m) + [Boolean(Greedy(v, TopBytes(signed, m), Reversed(codes)))], opCount + |codes|))
  {
    hide Greedy, NumberItem, Items, TopBytes, Top, Drop, Reversed;
    var below := signed + [NumberItem(m)] + Items(codes);
    TopNumber(below, |codes|);
    TopItems(signed + [NumberItem(m)], codes);
    TopNumber(signed, m);
    if |signed| >= 1 {
      DropMore(below, |codes|, 1);
      assert Top(Drop(below, |codes|)) == m;
      assert Drop(below, |codes| + 1) == signed;
    }
  }

  lemma RunCheck(v: Verify, stack: seq<Item>, opCount: int)
    ensures RunScript(v, MAXSTEPS, false, [CHECKMULTISIG], stack, opCount)
         == if opCount < MAXSTEPS then MultiSig(v, MAXSTEPS, stack, opCount + 1) else None
  {
    hide MultiSig, SingleSig;
    assert [CHECKMULTISIG][1..] == [];
  }

  ghost predicate Sizes(l: seq<seq<Byte>>, n: nat) {
    forall k :: 0 <= k < |l| ==> |l[k]| == n
  }

  /** The script takes m items off the stack, whatever they are, and adds whether they are signatures of distinct keys. */
  lemma RunMultiSigScript(v: Verify, m: nat, codes: seq<seq<Byte>>, signed: seq<Item>, opCount: nat)
    requires 1 <= m <= |codes| <= 24 && Sizes(codes, 33)
    ensures RunScript(v, MAXSTEPS, false, MultiSigScript(m, codes), signed, opCount)
         == if |signed| < m || opCount + 3 + 2 * |codes| > MAXSTEPS then None
            else Some((Drop(signed, m) + [Boolean(Greedy(v, TopBytes(signed, m), Reversed(codes)))], opCount + 3 + 2 * |codes|))
  {
    hide RunScript, PushNumberBytes, Pushes, MultiSig, Greedy, Items, NumberItem, TopBytes, Drop, Reversed;
    var n, last := |codes|, [CHECKMULTISIG];
    var stack := signed + [NumberItem(m)];
    RunPushNumber(v, MAXSTEPS, false, m, Pushes(codes) + (PushNumberBytes(n) + last), signed, opCount);
    RunPushes(v, MAXSTEPS, false, codes, PushNumberBytes(n) + last, stack, opCount + 1);
    RunPushNumber(v, MAXSTEPS, false, n, last, stack + Items(codes), opCount + 1 + n);
    RunCheck(v, stack + Items(codes) + [NumberItem(n)], opCount + 2 + n);
    CheckOnStack(v, m, signed, codes, opCount + 3 + n);
  }

  /** The validator's run: the signatures are pushed first, then the script runs on them. */
  function RunProgram(v: Verify, code: seq<Byte>, parameter: seq<Byte>): Option<(seq<Item>, int)> {
    RunAll(v, MAXSTEPS, [Context(code, false), Context(parameter, true)], [], 0)
  }

  lemma RunTwo(v: Verify, code: seq<Byte>, parameter: seq<Byte>)
    ensures var first := RunScript(v, MAXSTEPS, true, parameter, [], 0);
            RunProgram(v, code, parameter) ==
            if first.None? then None else RunScript(v, MAXSTEPS, false, code, first.value.0, first.value.1)
  {
    hide RunScript, RunAll;
    var first := RunScript(v, MAXSTEPS, true, parameter, [], 0);
    assert [Context(code, false), Context(parameter, true)] == [Context(code, false)] + [Context(parameter, true)];
    RunLast(v, [Context(code, false)], Context(parameter, true), [], 0);
    if first.Some? {
      assert [Context(code, false)] == [] + [Context(code, false)];
      RunLast(v, [], Context(code, false), first.value.0, first.value.1);
    }
  }

  lemma RunLast(v: Verify, before: seq<Context>, c: Context, stack: seq<Item>, opCount: int)
    ensures var r := RunScript(v, MAXSTEPS, c.pushOnly, c.script, stack, opCount);
            RunAll(v, MAXSTEPS, before + [c], stack, opCount) ==
            if r.None? then None else if before == [] then r else RunAll(v, MAXSTEPS, before, r.value.0, r.value.1)
  {
    hide RunScript;
    assert (before + [c])[..|before|] == before;
  }

  lemma RunParameter(v: Verify, sigs: seq<seq<Byte>>)
    requires Sizes(sigs, 64)
    ensures RunScript(v, MAXSTEPS, true, Pushes(sigs), [], 0) == Some((Items(sigs), |sigs|))
  {
    hide RunScript, Pushes;
    RunPushes(v, MAXSTEPS, true, sigs, [], [], 0);
    assert Pushes(sigs) + [] == Pushes(sigs) && [] + Items(sigs) == Items(sigs);
    RunNothing(v, Items(sigs), |sigs|);
  }

  lemma RunNothing(v: Verify, stack: seq<Item>, opCount: int)
    ensures RunScript(v, MAXSTEPS, true, [], stack, opCount) == Some((stack, opCount))
  {
  }

  /** A script for m of n keys after m signatures ends with one item: whether each signature found a key of its own. */
  lemma MultiSigRun(v: Verify, m: nat, codes: seq<seq<Byte>>, sigs: seq<seq<Byte>>)
    requires 1 <= m <= |codes| <= 24 && |sigs| == m
    requires Sizes(codes, 33) && Sizes(sigs, 64)
    ensures RunProgram(v, MultiSigScript(m, codes), Pushes(sigs))
         == Some(([Boolean(Greedy(v, Reversed(sigs), Reversed(codes)))], m + 3 + 2 * |codes|))
  {
    hide RunProgram, RunScript, Greedy, Reversed, Items, Pushes, MultiSigScript, Sizes, TopBytes;
    RunTwo(v, MultiSigScript(m, codes), Pushes(sigs));
    RunParameter(v, sigs);
    RunMultiSigScript(v, m, codes, Items(sigs), m);
    TopItems([], sigs);
    assert [] + Items(sigs) == Items(sigs);
    assert [] + [Boolean(Greedy(v, Reversed(sigs), Reversed(codes)))] == [Boolean(Greedy(v, Reversed(sigs), Reversed(codes)))];
  }

  // ----- What the result means -----

  lemma {:induction false} SameElements<T>(s: seq<T>)
    ensures multiset(Reversed(s)) == multiset(s)
    decreases |s|
  {
    if s != [] {
      SameElements(s[..|s| - 1]);
      assert s == s[..|s| - 1] + [s[|s| - 1]];
      assert Reversed(s) == [s[|s| - 1]] + Reversed(s[..|s| - 1]);
    }
  }

  lemma SignedReversed(v: Verify, sigs: seq<seq<Byte>>, keys: multiset<seq<Byte>>)
    requires Signed(v, sigs, keys)
    ensures Signed(v, Reversed(sigs), keys)
  {
    var ks :| SignedBy(v, sigs, ks, keys);
    SameElements(ks);
    assert SignedBy(v, Reversed(sigs), Reversed(ks), keys);
  }

  lemma ReversedTwice<T>(s: seq<T>)
    ensures Reversed(Reversed(s)) == s
  {
  }

  lemma OneKeyReversed(v: Verify, sigs: seq<seq<Byte>>, keys: seq<seq<Byte>>)
    requires OneKeyEach(v, sigs, keys)
    ensures OneKeyEach(v, Reversed(sigs), Reversed(keys))
  {
    forall s, a, b | s in Reversed(sigs) && a in Reversed(keys) && b in Reversed(keys) && v(s, a) && v(s, b)
      ensures a == b
    {
      assert s in sigs && a in keys && b in keys;
    }
  }

  /**
   True implies that the signatures are valid under distinct keys of the script. When no signature
   is valid under two different keys, the converse holds as well.
   */
  lemma MultiSigMeaning(v: Verify, sigs: seq<seq<Byte>>, codes: seq<seq<Byte>>)
    ensures Greedy(v, Reversed(sigs), Reversed(codes)) ==> Signed(v, sigs, multiset(codes))
    ensures OneKeyEach(v, sigs, codes) && Signed(v, sigs, multiset(codes)) ==> Greedy(v, Reversed(sigs), Reversed(codes))
  {
    hide Greedy, Signed, OneKeyEach, Reversed;
    SameElements(codes);
    if Greedy(v, Reversed(sigs), Reversed(codes)) {
      GreedyIsSigned(v, Reversed(sigs), Reversed(codes));
      SignedReversed(v, Reversed(sigs), multiset(codes));
      ReversedTwice(sigs);
    }
    if OneKeyEach(v, sigs, codes) && Signed(v, sigs, multiset(codes)) {
      OneKeyReversed(v, sigs, codes);
      SignedReversed(v, sigs, multiset(codes));
      SignedIsGreedy(v, Reversed(sigs), Reversed(codes));
    }
  }

  // ----- A script for one signature -----

  function SignatureScript(code: seq<Byte>): seq<Byte> {
    PushDataBytes(code) + [CHECKSIG]
  }

  method CreateSignatureRedeemScript(pubkey: PubKey) returns (r: seq<Byte>)
    ensures r == SignatureScript(pubkey.code)
  {
    hide PushDataBytes;
    var sb := new ProgramBuilder();
    sb.PushData(pubkey.code);
    sb.AddOp(CHECKSIG);
    return sb.buffer;
  }

  lemma RunSingleCheck(v: Verify, stack: seq<Item>, opCount: int)
    ensures RunScript(v, MAXSTEPS, false, [CHECKSIG], stack, opCount)
         == if opCount < MAXSTEPS then Some((SingleSig(v, stack), opCount + 1)) else None
  {
    hide MultiSig, SingleSig;
    assert [CHECKSIG][1..] == [];
  }

  lemma KeyOnStack(v: Verify, stack: seq<Item>, code: seq<Byte>)
    ensures SingleSig(v, stack + [ByteArray(code)])
         == if stack == [] then [ByteArray(code)]
            else Drop(stack, 1) + [Boolean(v(stack[|stack| - 1].GetByteArray(), code))]
  {
    var all := stack + [ByteArray(code)];
    if stack == [] {
      assert all == [ByteArray(code)];
    } else {
      assert Drop(all, 2) == Drop(stack, 1);
    }
  }

  /** The script takes one item off the stack, if there is any, and adds whether it is a signature of the key. */
  lemma RunSignatureScript(v: Verify, code: seq<Byte>, stack: seq<Item>, opCount: int)
    requires |code| == 33
    ensures RunScript(v, MAXSTEPS, false, SignatureScript(code), stack, opCount)
         == if opCount + 2 > MAXSTEPS then None
            else if stack == [] then Some(([ByteArray(code)], opCount + 2))
            else Some((Drop(stack, 1) + [Boolean(v(stack[|stack| - 1].GetByteArray(), code))], opCount + 2))
  {
    hide RunScript, PushDataBytes, SingleSig, Drop;
    KeyOnStack(v, stack, code);
    RunPushData(v, MAXSTEPS, false, code, [CHECKSIG], stack, opCount);
    RunSingleCheck(v, stack + [ByteArray(code)], opCount + 1);
  }

  lemma SignatureRun(v: Verify, code: seq<Byte>, sig: seq<Byte>)
    requires |code| == 33 && |sig| == 64
    ensures RunProgram(v, SignatureScript(code), Pushes([sig])) == Some(([Boolean(v(sig, code))], 3))
  {
    hide RunScript, Pushes, SignatureScript, RunProgram;
    RunTwo(v, SignatureScript(code), Pushes([sig]));
    RunParameter(v, [sig]);
    RunSignatureScript(v, code, Items([sig]), 1);
    assert Items([sig]) == [ByteArray(sig)];
    assert Drop(Items([sig]), 1) + [Boolean(v(sig, code))] == [Boolean(v(sig, code))];
  }

  /** The 35 bytes of the script for one key. */
  lemma SignatureScriptBytes(code: seq<Byte>)
    requires |code| == 33
    ensures var s := SignatureScript(code);
            |s| == 35 && s[0] == 0x21 && s[1..34] == code && s[34] == 0xAC
  {
  }

  lemma KeyPushBytes(code: seq<Byte>)
    requires |code| == 33
    ensures PushDataBytes(code) == [0x21] + code
  {
  }

  lemma {:induction false} KeysPushBytes(codes: seq<seq<Byte>>, k: nat)
    requires Sizes(codes, 33) && k < |codes|
    ensures |Pushes(codes)| == 34 * |codes|
    ensures Pushes(codes)[34 * k] == 0x21 && Pushes(codes)[34 * k + 1..34 * k + 34] == codes[k]
    decreases |codes|
  {
    hide PushDataBytes;
    var n := |codes| - 1;
    var before, last := codes[..n], codes[n];
    KeyPushBytes(last);
    assert Pushes(codes) == Pushes(before) + PushDataBytes(last);
    if n == 0 {
      assert Pushes(before) == [];
    } else {
      KeysPushBytes(before, if k < n then k else 0);
    }
    if k < n {
      assert Pushes(codes)[34 * k + 1..34 * k + 34] == Pushes(before)[34 * k + 1..34 * k + 34];
    } else {
      assert Pushes(codes)[34 * k + 1..34 * k + 34] == PushDataBytes(last)[1..34];
    }
  }

  /** The bytes of a number in a script: one up to 16, and two above. */
  lemma NumberBytes(number: nat)
    requires 1 <= number <= 24
    ensures PushNumberBytes(number) == if number <= 16 then [0x50 + number] else [1, number]
  {
    assert BigEndian(number) == BigEndian(number / 256) + [number % 256];
    assert BigEndian(0) == [];
  }

  /** The bytes of the script for m of n keys: the number m, each key after its length, the number n, the operation. */
  lemma MultiSigScriptBytes(m: nat, codes: seq<seq<Byte>>, k: nat)
    requires 1 <= m <= |codes| <= 24 && Sizes(codes, 33) && k < |codes|
    ensures var s, n := MultiSigScript(m, codes), |codes|;
            var at := if m <= 16 then 1 else 2;
            && |s| == at + 34 * n + (if n <= 16 then 1 else 2) + 1
            && s[..at] == (if m <= 16 then [0x50 + m] else [1, m])
            && s[at + 34 * k] == 0x21 && s[at + 34 * k + 1..at + 34 * k + 34] == codes[k]
            && s[at + 34 * n..] == (if n <= 16 then [0x50 + n] else [1, n]) + [0xAE]
  {
    hide PushNumberBytes, Pushes, Sizes;
    NumberBytes(m);
    NumberBytes(|codes|);
    KeysPushBytes(codes, k);
    ThreeParts(PushNumberBytes(m), Pushes(codes), PushNumberBytes(|codes|) + [CHECKMULTISIG], 34 * k, 34 * k + 34);
  }

  lemma ThreeParts(a: seq<Byte>, b: seq<Byte>, c: seq<Byte>, i: nat, j: nat)
    requires i < j <= |b|
    ensures var s := a + (b + c);
            && s[..|a|] == a && s[|a| + |b|..] == c
            && s[|a| + i] == b[i] && s[|a| + i + 1..|a| + j] == b[i + 1..j]
  {
  }

  // ----- Validation -----

  /** The run halts with one item on the stack, and that item is true. */
  predicate Accepts(v: Verify, p: Program) {
    var r := RunProgram(v, p.code, p.parameter);
    r.Some? && |r.value.0| == 1 && r.value.0[0].GetBoolean()
  }

  method RunAndCheck(v: Verify, p: Program) returns (ok: bool)
    ensures ok <==> Accepts(v, p)
  {
    hide RunAll;
    var se := new ExecutionEngine(v, MAXSTEPS);
    se.LoadScript(p.code, false);
    se.LoadScript(p.parameter, true);
    assert se.invocationStack == [Context(p.code, false), Context(p.parameter, true)];
    se.Execute();
    if se.state != Halt {
      return false;
    }
    if |se.evaluationStack| != 1 {
      return false;
    }
    var item := se.Pop();
    return item.GetBoolean();
  }

  /** Every program must hash to the expected hash and be accepted when run. */
  method VerifySignableData(v: Verify, codeHash: seq<Byte> -> ProgramHash, hashes: seq<ProgramHash>, programs: seq<Program>) returns (ok: bool)
    ensures ok <==> |hashes| == |programs| && forall k :: 0 <= k < |programs| ==> codeHash(programs[k].code) == hashes[k] && Accepts(v, programs[k])
  {
    hide Accepts;
    if |hashes| != |programs| {
      return false;
    }
    for i := 0 to |programs|
      invariant forall k :: 0 <= k < i ==> codeHash(programs[k].code) == hashes[k] && Accepts(v, programs[k])
    {
      if hashes[i] != codeHash(programs[i].code) {
        return false;
      }
      ok := RunAndCheck(v, programs[i]);
      if !ok {
        return false;
      }
    }
    return true;
  }

  /** Whatever a program's script is: its parameter does not unlock anything when an operation follows its pushes. */
  lemma NoOperationInParameter(v: Verify, code: seq<Byte>, l: seq<seq<Byte>>, op: Byte, tail: seq<Byte>)
    requires forall k :: 0 <= k < |l| ==> 0 < |l[k]| < 0x1_0000
    requires op > 0x60 && op != 0x66
    ensures !Accepts(v, Program(code, Pushes(l) + ([op] + tail)))
  {
    hide RunScript, Pushes, RunAll, Items;
    RunTwo(v, code, Pushes(l) + ([op] + tail));
    RunPushes(v, MAXSTEPS, true, l, [op] + tail, [], 0);
    PushOnlyRefuses(v, MAXSTEPS, op, tail, [] + Items(l), 0 + |l|);
  }

  /** The items of a parameter do not depend on what signatures are valid. */
  lemma ParameterIsData(v: Verify, v': Verify, parameter: seq<Byte>)
    ensures RunScript(v, MAXSTEPS, true, parameter, [], 0) == RunScript(v', MAXSTEPS, true, parameter, [], 0)
  {
    hide RunScript;
    var none: seq<Item> := [];
    PushOnlyAdds(v, v', MAXSTEPS, parameter, none, none, 0);
    assert none + none == none;
    var r := RunScript(v', MAXSTEPS, true, parameter, none, 0);
    if r.Some? {
      assert none + r.value.0 == r.value.0;
    }
  }

  /** A parameter that ends in the middle of a push pushes all the same, with zeros for what is missing. */
  lemma CutPush(v: Verify, data: seq<Byte>, cut: nat)
    requires 0 < |data| <= 75 && cut <= |data|
    ensures RunScript(v, MAXSTEPS, true, PushDataBytes(data)[..1 + cut], [], 0) == Some(([ByteArray(data[..cut] + Zeros(|data| - cut))], 1))
  {
    hide ExecOp, Pushed;
    var s, op: Byte, none: seq<Item> := PushDataBytes(data)[..1 + cut], |data|, [];
    var item := ByteArray(data[..cut] + Zeros(|data| - cut));
    assert s == [op] + data[..cut] && s[1..] == data[..cut];
    CutItem(data, cut);
    PushOnlyOp(v, MAXSTEPS, op, s[1..], none, 1);
    assert none + [item] == [item];
    RunNothing(v, [item], 1);
  }

  lemma CutItem(data: seq<Byte>, cut: nat)
    requires 0 < |data| <= 75 && cut <= |data|
    ensures Pushed(|data|, data[..cut]) == Some((ByteArray(data[..cut] + Zeros(|data| - cut)), []))
  {
    assert Take(data[..cut], |data|) == data[..cut] + Zeros(|data| - cut);
    assert Skip(data[..cut], |data|) == [];
  }

  /** The byte strings of the items on a stack. */
  function BytesOf(stack: seq<Item>): (r: seq<seq<Byte>>)
    ensures |r| == |stack|
  {
    seq(|stack|, k requires 0 <= k < |stack| => stack[k].GetByteArray())
  }

  lemma TopIsReversed(stack: seq<Item>)
    ensures TopBytes(stack, |stack|) == Reversed(BytesOf(stack))
  {
  }

  /** The run of a parameter takes no more steps than leaves room for a script with n keys. */
  predicate InTime(steps: int, n: nat) {
    steps + 3 + 2 * n <= 1200
  }

  /**
   Whatever the parameter is, an output locked by m of n keys is unlocked exactly when the parameter
   pushes m items, in time, that find keys in turn.
   */
  lemma MultiSigUnlocked(v: Verify, m: nat, codes: seq<seq<Byte>>, parameter: seq<Byte>)
    requires 1 <= m <= |codes| <= 24 && Sizes(codes, 33)
    ensures var first := RunScript(v, MAXSTEPS, true, parameter, [], 0);
            Accepts(v, Program(MultiSigScript(m, codes), parameter)) <==>
            && first.Some? && |first.value.0| == m && InTime(first.value.1, |codes|)
            && Greedy(v, Reversed(BytesOf(first.value.0)), Reversed(codes))
  {
    hide RunScript, MultiSigScript, Greedy, Reversed, BytesOf, TopBytes, Sizes, RunAll;
    RunTwo(v, MultiSigScript(m, codes), parameter);
    var first := RunScript(v, MAXSTEPS, true, parameter, [], 0);
    if first.Some? {
      PushOnlySteps(v, MAXSTEPS, parameter, [], 0);
      RunMultiSigScript(v, m, codes, first.value.0, first.value.1);
      if |first.value.0| == m {
        TopIsReversed(first.value.0);
      }
    }
  }

  /**
   Whatever the parameter is, whoever unlocks an output locked by m of n keys pushed m items that
   are signatures of m distinct keys. With no signature valid under two keys that is also enough.
   */
  lemma MultiSigNeedsKeys(v: Verify, m: nat, codes: seq<seq<Byte>>, parameter: seq<Byte>)
    requires 1 <= m <= |codes| <= 24 && Sizes(codes, 33)
    ensures var first := RunScript(v, MAXSTEPS, true, parameter, [], 0);
            var accepted := Accepts(v, Program(MultiSigScript(m, codes), parameter));
            && (accepted ==> first.Some? && |first.value.0| == m && Signed(v, BytesOf(first.value.0), multiset(codes)))
            && (first.Some? && |first.value.0| == m && InTime(first.value.1, |codes|) && OneKeyEach(v, BytesOf(first.value.0), codes) ==>
                  (accepted <==> Signed(v, BytesOf(first.value.0), multiset(codes))))
  {
    hide *;
    MultiSigUnlocked(v, m, codes, parameter);
    var first := RunScript(v, MAXSTEPS, true, parameter, [], 0);
    if first.Some? {
      MultiSigMeaning(v, BytesOf(first.value.0), codes);
    }
  }

  /** Some byte is not zero, which is what makes a byte string count as true. */
  predicate CountsAsTrue(s: seq<Byte>) {
    exists k :: 0 <= k < |s| && s[k] != 0
  }

  /**
   Whatever the parameter is, an output locked by one key is unlocked exactly when the parameter
   pushes, in time, one item that is a signature of the key, or nothing at all. The check of a
   signature does nothing on a stack with the key alone, and the key then counts as the result.
   */
  lemma SignatureUnlocked(v: Verify, code: seq<Byte>, parameter: seq<Byte>)
    requires |code| == 33
    ensures var first := RunScript(v, MAXSTEPS, true, parameter, [], 0);
            Accepts(v, Program(SignatureScript(code), parameter)) <==>
            && first.Some? && first.value.1 + 2 <= 1200
            && ((first.value.0 == [] && CountsAsTrue(code)) ||
                (|first.value.0| == 1 && v(first.value.0[0].GetByteArray(), code)))
  {
    hide RunScript, SignatureScript, RunAll, Item.GetByteArray;
    RunTwo(v, SignatureScript(code), parameter);
    var first := RunScript(v, MAXSTEPS, true, parameter, [], 0);
    if first.Some? {
      RunSignatureScript(v, code, first.value.0, first.value.1);
    }
  }

  /** With an empty parameter no signature is looked at. Encoded keys start with 2 or 3, so the output is unlocked. */
  lemma UnlockedWithoutSignature(v: Verify, code: seq<Byte>)
    requires |code| == 33
    ensures Accepts(v, Program(SignatureScript(code), [])) <==> CountsAsTrue(code)
    ensures code[0] in {2, 3} ==> Accepts(v, Program(SignatureScript(code), []))
  {
    hide Accepts, SignatureScript;
    SignatureUnlocked(v, code, []);
  }

  /**
   An output locked by one key needs its signature exactly when the parameter pushes something, or
   the key is all zero.
   */
  lemma SignatureNeedsKey(v: Verify, code: seq<Byte>, parameter: seq<Byte>)
    requires |code| == 33 && Accepts(v, Program(SignatureScript(code), parameter))
    ensures var first := RunScript(v, MAXSTEPS, true, parameter, [], 0);
            && first.Some?
            && (first.value.0 != [] || !CountsAsTrue(code) <==> |first.value.0| == 1 && v(first.value.0[0].GetByteArray(), code))
  {
    hide Accepts, SignatureScript, RunScript, CountsAsTrue;
    SignatureUnlocked(v, code, parameter);
  }

  /** What the validator decides about an output locked by m of n keys. */
  lemma MultiSigAccepted(v: Verify, m: nat, codes: seq<seq<Byte>>, sigs: seq<seq<Byte>>)
    requires 1 <= m <= |codes| <= 24 && |sigs| == m
    requires Sizes(codes, 33) && Sizes(sigs, 64)
    ensures var accepted := Accepts(v, Program(MultiSigScript(m, codes), Pushes(sigs)));
            && (accepted ==> Signed(v, sigs, multiset(codes)))
            && (OneKeyEach(v, sigs, codes) ==> (accepted <==> Signed(v, sigs, multiset(codes))))
  {
    hide Greedy, Signed, OneKeyEach, Reversed, RunProgram, MultiSigScript, Pushes, Sizes;
    MultiSigRun(v, m, codes, sigs);
    MultiSigMeaning(v, sigs, codes);
  }
}

/** The part of the stack machine that standard spending scripts use. */
module Vm {
  import opened Types
  import opened Serialization
  import opened TxValidator

  const PUSHBYTES75: Byte := 0x4B
  const PUSHDATA1: Byte := 0x4C
  const PUSHDATA2: Byte := 0x4D
  const PUSHDATA4: Byte := 0x4E
  const PUSHM1: Byte := 0x4F
  const PUSH1: Byte := 0x51
  const PUSH16: Byte := 0x60
  const RET: Byte := 0x66
  const CHECKSIG: Byte := 0xAC
  const CHECKMULTISIG: Byte := 0xAE

  const MAXSTEPS := 1200

  /** Whether a signature of the message at hand is valid under an encoded key. */
  type Verify = (seq<Byte>, seq<Byte>) -> bool

  // ----- Stack items -----

  datatype Item = Integer(value: int) | ByteArray(bytes: seq<Byte>) | Boolean(flag: bool)
  {
    function GetBigInteger(): int {
      match this
      case Integer(value) => value
      case ByteArray(bytes) => FromBigEndian(bytes)
      case Boolean(flag) => if flag then 1 else 0
    }

    function GetByteArray(): seq<Byte> {
      match this
      case Integer(value) => BigEndian(if value < 0 then -value else value)
      case ByteArray(bytes) => bytes
      case Boolean(flag) => if flag then [1] else [0]
    }

    predicate GetBoolean() {
      match this
      case Integer(value) => value != 0
      case ByteArray(bytes) => exists k :: 0 <= k < |bytes| && bytes[k] != 0
      case Boolean(flag) => flag
    }
  }

  /** Bytes of a number, the most significant first and none for zero. */
  function BigEndian(x: nat): seq<Byte> {
    if x == 0 then [] else BigEndian(x / 256) + [x % 256]
  }

  function FromBigEndian(s: seq<Byte>): nat {
    if s == [] then 0 else 256 * FromBigEndian(s[..|s| - 1]) + (s[|s| - 1] as int)
  }

  lemma {:induction false} BigEndianRound(x: nat)
    ensures FromBigEndian(BigEndian(x)) == x
  {
    if x > 0 {
      BigEndianRound(x / 256);
      assert BigEndian(x)[..|BigEndian(x)| - 1] == BigEndian(x / 256);
    }
  }

  // ----- Reading a script -----

  /** The next n bytes, with zeros past the end of the script. */
  function Take(s: seq<Byte>, n: nat): (r: seq<Byte>)
    ensures |r| == n
  {
    if n <= |s| then s[..n] else s + Zeros(n - |s|)
  }

  function Skip(s: seq<Byte>, n: nat): (r: seq<Byte>)
    ensures |r| <= |s|
  {
    if n <= |s| then s[n..] else []
  }

  /** A signed 32-bit number, which the machine reads with the most significant byte first. */
  function ReadInt32(s: seq<Byte>): int {
    var x := FromBigEndian(Take(s, 4));
    if x < 0x8000_0000 then x else x - 0x1_0000_0000
  }

  function AtLeastZero(n: int): nat {
    if n < 0 then 0 else n
  }

  /** The item that a pushing operation puts on the stack, and what is left of the script. */
  function Pushed(op: Byte, s: seq<Byte>): Option<(Item, seq<Byte>)> {
    if op == 0x00 then Some((ByteArray([0]), s))
    else if op <= PUSHBYTES75 then Some((ByteArray(Take(s, op)), Skip(s, op)))
    else if op == PUSHDATA1 then
      var n := Take(s, 1)[0];
      var rest := Skip(s, 1);
      Some((ByteArray(Take(rest, n)), Skip(rest, n)))
    else if op == PUSHDATA2 then
      var n := FromLittleEndian(Take(s, 2));
      var rest := Skip(s, 2);
      Some((ByteArray(Take(rest, n)), Skip(rest, n)))
    else if op == PUSHDATA4 then
      var n := AtLeastZero(ReadInt32(s));
      var rest := Skip(s, 4);
      Some((ByteArray(Take(rest, n)), Skip(rest, n)))
    else if op == PUSHM1 then Some((Integer(-1), s))
    else if PUSH1 <= op <= PUSH16 then Some((Integer(op - PUSH1 + 1), s))
    else None
  }

  // ----- Multiple signatures -----

  /** The first key that a signature is valid under, or the number of keys if there is none. */
  function FirstKey(v: Verify, sig: seq<Byte>, keys: seq<seq<Byte>>, from: nat): (r: nat)
    requires from <= |keys|
    ensures from <= r <= |keys|
    ensures r < |keys| ==> v(sig, keys[r])
    ensures forall k :: from <= k < r ==> !v(sig, keys[k])
    decreases |keys| - from
  {
    if from == |keys| || v(sig, keys[from]) then from else FirstKey(v, sig, keys, from + 1)
  }

  /** Each signature in turn takes the first remaining key it is valid under. */
  function Greedy(v: Verify, sigs: seq<seq<Byte>>, keys: seq<seq<Byte>>): bool
    decreases |sigs|
  {
    sigs == [] ||
    (var k := FirstKey(v, sigs[0], keys, 0);
     k < |keys| && Greedy(v, sigs[1..], keys[..k] + keys[k + 1..]))
  }

  /** Every signature has a key of its own that it is valid under. */
  ghost predicate SignedBy(v: Verify, sigs: seq<seq<Byte>>, ks: seq<seq<Byte>>, keys: multiset<seq<Byte>>) {
    && |ks| == |sigs|
    && multiset(ks) <= keys
    && forall k :: 0 <= k < |sigs| ==> v(sigs[k], ks[k])
  }

  ghost predicate Signed(v: Verify, sigs: seq<seq<Byte>>, keys: multiset<seq<Byte>>) {
    exists ks :: SignedBy(v, sigs, ks, keys)
  }

  /** No signature is valid under two different keys. */
  ghost predicate OneKeyEach(v: Verify, sigs: seq<seq<Byte>>, keys: seq<seq<Byte>>) {
    forall s, a, b :: s in sigs && a in keys && b in keys && v(s, a) && v(s, b) ==> a == b
  }

  lemma WithoutOne(keys: seq<seq<Byte>>, k: nat)
    requires k < |keys|
    ensures multiset(keys[..k] + keys[k + 1..]) == multiset(keys) - multiset{keys[k]}
    ensures multiset(keys)[keys[k]] > 0
  {
    assert keys == keys[..k] + [keys[k]] + keys[k + 1..];
  }

  /** Success means that the signatures can be matched to distinct keys. */
  lemma {:induction false} GreedyIsSigned(v: Verify, sigs: seq<seq<Byte>>, keys: seq<seq<Byte>>)
    requires Greedy(v, sigs, keys)
    ensures Signed(v, sigs, multiset(keys))
    decreases |sigs|
  {
    hide SignedBy;
    if sigs == [] {
      NothingToSign(v, multiset(keys));
    } else {
      var k := FirstKey(v, sigs[0], keys, 0);
      var rest := keys[..k] + keys[k + 1..];
      GreedyIsSigned(v, sigs[1..], rest);
      var ks :| SignedBy(v, sigs[1..], ks, multiset(rest));
      WithoutOne(keys, k);
      AddKey(v, sigs, ks, keys, k);
    }
  }

  lemma NothingToSign(v: Verify, keys: multiset<seq<Byte>>)
    ensures SignedBy(v, [], [], keys)
  {
  }

  lemma AddKey(v: Verify, sigs: seq<seq<Byte>>, ks: seq<seq<Byte>>, keys: seq<seq<Byte>>, k: nat)
    requires sigs != [] && k < |keys| && v(sigs[0], keys[k])
    requires SignedBy(v, sigs[1..], ks, multiset(keys) - multiset{keys[k]})
    requires multiset(keys)[keys[k]] > 0
    ensures SignedBy(v, sigs, [keys[k]] + ks, multiset(keys))
  {
    var all := [keys[k]] + ks;
    assert multiset(all) == multiset{keys[k]} + multiset(ks);
    forall i | 0 <= i < |sigs|
      ensures v(sigs[i], all[i])
    {
      if i > 0 {
        assert sigs[i] == sigs[1..][i - 1];
      }
    }
  }

  /** When no signature is valid under two different keys, every matching makes the greedy search succeed. */
  lemma {:induction false} SignedIsGreedy(v: Verify, sigs: seq<seq<Byte>>, keys: seq<seq<Byte>>)
    requires OneKeyEach(v, sigs, keys)
    requires Signed(v, sigs, multiset(keys))
    ensures Greedy(v, sigs, keys)
    decreases |sigs|
  {
    if sigs != [] {
      var ks :| SignedBy(v, sigs, ks, multiset(keys));
      KeyIsListed(ks, keys);
      var k := FirstKey(v, sigs[0], keys, 0);
      assert sigs[0] in sigs && ks[0] in keys && v(sigs[0], ks[0]);
      assert keys[k] == ks[0];
      var rest := keys[..k] + keys[k + 1..];
      WithoutOne(keys, k);
      RemoveKey(v, sigs, ks, keys);
      assert SignedBy(v, sigs[1..], ks[1..], multiset(rest));
      StillOneKeyEach(v, sigs, keys, k);
      SignedIsGreedy(v, sigs[1..], rest);
    }
  }

  lemma KeyIsListed(ks: seq<seq<Byte>>, keys: seq<seq<Byte>>)
    requires ks != [] && multiset(ks) <= multiset(keys)
    ensures ks[0] in keys
  {
    assert ks[0] in multiset(ks);
    assert ks[0] in multiset(keys);
  }

  lemma RemoveKey(v: Verify, sigs: seq<seq<Byte>>, ks: seq<seq<Byte>>, keys: seq<seq<Byte>>)
    requires sigs != [] && SignedBy(v, sigs, ks, multiset(keys))
    ensures SignedBy(v, sigs[1..], ks[1..], multiset(keys) - multiset{ks[0]})
  {
    assert ks == [ks[0]] + ks[1..];
  }

  lemma StillOneKeyEach(v: Verify, sigs: seq<seq<Byte>>, keys: seq<seq<Byte>>, k: nat)
    requires OneKeyEach(v, sigs, keys) && sigs != [] && k < |keys|
    ensures OneKeyEach(v, sigs[1..], keys[..k] + keys[k + 1..])
  {
    var rest := keys[..k] + keys[k + 1..];
    forall s, a, b | s in sigs[1..] && a in rest && b in rest && v(s, a) && v(s, b)
      ensures a == b
    {
      assert s in sigs && a in keys && b in keys;
    }
  }

  // ----- Operations -----

  /** 64-bit truncation of a number. */
  function ToInt64(x: int): int {
    Wrap64(x)
  }

  /** The byte strings of the top n items, the topmost first. */
  function TopBytes(stack: seq<Item>, n: nat): (r: seq<seq<Byte>>)
    requires n <= |stack|
    ensures |r| == n
  {
    seq(n, i requires 0 <= i < n => stack[|stack| - 1 - i].GetByteArray())
  }

  function Drop(stack: seq<Item>, n: nat): (r: seq<Item>)
    requires n <= |stack|
    ensures |r| == |stack| - n
  {
    stack[..|stack| - n]
  }

  lemma DropMore(stack: seq<Item>, n: nat, k: nat)
    requires n + k <= |stack|
    ensures Drop(Drop(stack, n), k) == Drop(stack, n + k)
  {
  }

  function Top(stack: seq<Item>): int
    requires stack != []
  {
    ToInt64(stack[|stack| - 1].GetBigInteger())
  }

  /** Stack and operation count after a check of multiple signatures, or a fault. */
  function MultiSig(v: Verify, maxSteps: int, stack: seq<Item>, opCount: int): Option<(seq<Item>, int)> {
    if |stack| < 4 then None
    else
      var n := Top(stack);
      var below := Drop(stack, 1);
      if n < 1 || |below| < n + 2 || opCount + n > maxSteps then None
      else
        var keys := TopBytes(below, n);
        var m := Top(Drop(below, n));
        var signed := Drop(below, n + 1);
        if m < 1 || m > n || |signed| < m then None
        else Some((Drop(signed, m) + [Boolean(Greedy(v, TopBytes(signed, m), keys))], opCount + n))
  }

  /** Too few items are not an error here: the operation then does nothing. */
  function SingleSig(v: Verify, stack: seq<Item>): seq<Item> {
    if |stack| < 2 then stack
    else Drop(stack, 2) + [Boolean(v(stack[|stack| - 2].GetByteArray(), stack[|stack| - 1].GetByteArray()))]
  }

  datatype Progress = Progress(stack: seq<Item>, opCount: int, rest: seq<Byte>)

  /**
   One operation. A return does nothing while fewer than two scripts wait, since the fault it
   reports comes without an error. Others that standard scripts do not use count as unassigned.
   */
  function ExecOp(v: Verify, maxSteps: int, pushOnly: bool, op: Byte, s: seq<Byte>, stack: seq<Item>, opCount: int): Option<Progress> {
    if op > PUSH16 && op != RET && pushOnly then None
    else if op > PUSH16 && opCount > maxSteps then None
    else if Pushed(op, s).Some? then Some(Progress(stack + [Pushed(op, s).value.0], opCount, Pushed(op, s).value.1))
    else if op == CHECKSIG then Some(Progress(SingleSig(v, stack), opCount, s))
    else if op == CHECKMULTISIG then
      var r := MultiSig(v, maxSteps, stack, opCount);
      if r.None? then None else Some(Progress(r.value.0, r.value.1, s))
    else if op == RET then Some(Progress(stack, opCount, s))
    else None
  }

  lemma ExecShrinks(v: Verify, maxSteps: int, pushOnly: bool, op: Byte, s: seq<Byte>, stack: seq<Item>, opCount: int)
    ensures var r := ExecOp(v, maxSteps, pushOnly, op, s, stack, opCount);
            r.Some? ==> |r.value.rest| <= |s|
  {
    hide MultiSig, SingleSig, Take, ReadInt32;
  }

  /** A whole script. */
  function RunScript(v: Verify, maxSteps: int, pushOnly: bool, s: seq<Byte>, stack: seq<Item>, opCount: int): Option<(seq<Item>, int)>
    decreases |s|
  {
    if s == [] then Some((stack, opCount))
    else
      var r := ExecOp(v, maxSteps, pushOnly, s[0], s[1..], stack, opCount + 1);
      ExecShrinks(v, maxSteps, pushOnly, s[0], s[1..], stack, opCount + 1);
      if r.None? then None else RunScript(v, maxSteps, pushOnly, r.value.rest, r.value.stack, r.value.opCount)
  }

  // ----- What a script that may only push can do -----

  /** An operation above the pushing ones, other than a return, faults. */
  lemma PushOnlyRefuses(v: Verify, maxSteps: int, op: Byte, tail: seq<Byte>, stack: seq<Item>, opCount: int)
    requires op > 0x60 && op != 0x66
    ensures RunScript(v, maxSteps, true, [op] + tail, stack, opCount) == None
  {
    hide MultiSig, SingleSig, Pushed;
    assert ([op] + tail)[0] == op;
  }

  lemma PushOnlyOp(v: Verify, maxSteps: int, op: Byte, s: seq<Byte>, stack: seq<Item>, opCount: int)
    ensures var r := ExecOp(v, maxSteps, true, op, s, stack, opCount);
            && (op <= 0x60 ==> r == if Pushed(op, s).None? then None else Some(Progress(stack + [Pushed(op, s).value.0], opCount, Pushed(op, s).value.1)))
            && (op > 0x60 ==> r == if op == 0x66 && opCount <= maxSteps then Some(Progress(stack, opCount, s)) else None)
  {
    hide Take, Skip, ReadInt32, FromLittleEndian, MultiSig, SingleSig;
  }

  /** Its outcome on a stack that has other items below. */
  function OnTopOf(stack: seq<Item>, r: Option<(seq<Item>, int)>): Option<(seq<Item>, int)> {
    if r.None? then None else Some((stack + r.value.0, r.value.1))
  }

  /**
   It adds items to the stack and does nothing else: which ones, and in how many steps, depends
   neither on the stack nor on any signature.
   */
  lemma {:induction false} PushOnlyAdds(
    v: Verify, v': Verify, maxSteps: int, s: seq<Byte>, below: seq<Item>, stack: seq<Item>, opCount: int)
    ensures RunScript(v, maxSteps, true, s, below + stack, opCount) == OnTopOf(below, RunScript(v', maxSteps, true, s, stack, opCount))
    decreases |s|
  {
    hide Pushed, ExecOp;
    if s != [] {
      var op, rest := s[0], s[1..];
      PushOnlyOp(v, maxSteps, op, rest, below + stack, opCount + 1);
      PushOnlyOp(v', maxSteps, op, rest, stack, opCount + 1);
      ExecShrinks(v, maxSteps, true, op, rest, below + stack, opCount + 1);
      var r := ExecOp(v, maxSteps, true, op, rest, below + stack, opCount + 1);
      if r.Some? {
        var more := stack;
        if op <= 0x60 {
          more := stack + [Pushed(op, rest).value.0];
          Associative(below, stack, [Pushed(op, rest).value.0]);
        }
        PushOnlyAdds(v, v', maxSteps, r.value.rest, below, more, opCount + 1);
      }
    }
  }

  /** Every item takes a step, and what was on the stack stays below. */
  lemma {:induction false} PushOnlySteps(v: Verify, maxSteps: int, s: seq<Byte>, stack: seq<Item>, opCount: int)
    ensures var r := RunScript(v, maxSteps, true, s, stack, opCount);
            r.Some? ==> stack <= r.value.0 && |r.value.0| - |stack| <= r.value.1 - opCount <= |s|
    decreases |s|
  {
    hide Pushed, ExecOp;
    if s != [] {
      var op, rest := s[0], s[1..];
      PushOnlyOp(v, maxSteps, op, rest, stack, opCount + 1);
      ExecShrinks(v, maxSteps, true, op, rest, stack, opCount + 1);
      var r := ExecOp(v, maxSteps, true, op, rest, stack, opCount + 1);
      if r.Some? {
        PushOnlySteps(v, maxSteps, r.value.rest, r.value.stack, r.value.opCount);
      }
    }
  }

  datatype Context = Context(script: seq<Byte>, pushOnly: bool)

  /** The loaded scripts, the last one first. */
  function RunAll(v: Verify, maxSteps: int, contexts: seq<Context>, stack: seq<Item>, opCount: int): Option<(seq<Item>, int)>
    decreases |contexts|
  {
    if contexts == [] then Some((stack, opCount))
    else
      var c := contexts[|contexts| - 1];
      var r := RunScript(v, maxSteps, c.pushOnly, c.script, stack, opCount);
      if r.None? then None else RunAll(v, maxSteps, contexts[..|contexts| - 1], r.value.0, r.value.1)
  }

  // ----- The engine -----

  datatype State = NoState | Halt | Fault | Break

  class ExecutionEngine {
    const verify: Verify
    const maxSteps: int
    var invocationStack: seq<Context>
    var evaluationStack: seq<Item>
    var opCount: int
    var state: State

    constructor (verify: Verify, maxSteps: int)
      ensures this.verify == verify && this.maxSteps == maxSteps
      ensures invocationStack == [] && evaluationStack == [] && opCount == 0 && state == Break
    {
      this.verify := verify;
      this.maxSteps := maxSteps;
      invocationStack, evaluationStack := [], [];
      opCount, state := 0, Break;
    }

    method LoadScript(script: seq<Byte>, pushOnly: bool)
      modifies this`invocationStack
      ensures invocationStack == old(invocationStack) + [Context(script, pushOnly)]
    {
      invocationStack := invocationStack + [Context(script, pushOnly)];
    }

    method Pop() returns (item: Item)
      requires evaluationStack != []
      modifies this`evaluationStack
      ensures item == old(evaluationStack)[|old(evaluationStack)| - 1]
      ensures evaluationStack == Drop(old(evaluationStack), 1)
    {
      item := evaluationStack[|evaluationStack| - 1];
      evaluationStack := evaluationStack[..|evaluationStack| - 1];
    }

    /** Pops n items and keeps their byte strings. */
    method PopBytes(n: nat) returns (r: seq<seq<Byte>>)
      requires n <= |evaluationStack|
      modifies this`evaluationStack
      ensures r == TopBytes(old(evaluationStack), n)
      ensures evaluationStack == Drop(old(evaluationStack), n)
    {
      r := [];
      for i := 0 to n
        invariant r == TopBytes(old(evaluationStack), i)
        invariant evaluationStack == Drop(old(evaluationStack), i)
      {
        var item := Pop();
        r := r + [item.GetByteArray()];
      }
    }

    /** The search for keys: each signature removes the key it is valid under. */
    method MatchSignatures(signatures: seq<seq<Byte>>, pubkeys: seq<seq<Byte>>) returns (success: bool)
      ensures success <==> Greedy(verify, signatures, pubkeys)
    {
      var keys := pubkeys;
      for j := 0 to |signatures|
        invariant Greedy(verify, signatures, pubkeys) <==> Greedy(verify, signatures[j..], keys)
      {
        var index := FindKey(signatures[j], keys);
        assert signatures[j..][0] == signatures[j] && signatures[j..][1..] == signatures[j + 1..];
        if index == |keys| {
          return false;
        }
        keys := keys[..index] + keys[index + 1..];
      }
      return true;
    }

    method FindKey(sig: seq<Byte>, keys: seq<seq<Byte>>) returns (index: nat)
      ensures index == FirstKey(verify, sig, keys, 0)
    {
      index := 0;
      while index < |keys|
        invariant 0 <= index <= |keys|
        invariant FirstKey(verify, sig, keys, 0) == FirstKey(verify, sig, keys, index)
      {
        if verify(sig, keys[index]) {
          return;
        }
        index := index + 1;
      }
    }

    method OpCheckMultiSig() returns (ok: bool)
      modifies this`evaluationStack, this`opCount
      ensures ok <==> MultiSig(verify, maxSteps, old(evaluationStack), old(opCount)).Some?
      ensures ok ==> MultiSig(verify, maxSteps, old(evaluationStack), old(opCount)) == Some((evaluationStack, opCount))
    {
      hide Greedy;
      if |evaluationStack| < 4 {
        return false;
      }
      var item := Pop();
      var n := ToInt64(item.GetBigInteger());
      if n < 1 || |evaluationStack| < n + 2 {
        return false;
      }
      opCount := opCount + n;
      if opCount > maxSteps {
        return false;
      }
      ghost var below := evaluationStack;
      var pubkeys := PopBytes(n);
      item := Pop();
      DropMore(below, n, 1);
      var m := ToInt64(item.GetBigInteger());
      if m < 1 || m > n || |evaluationStack| < m {
        return false;
      }
      var signatures := PopBytes(m);
      var success := MatchSignatures(signatures, pubkeys);
      evaluationStack := evaluationStack + [Boolean(success)];
      return true;
    }

    method OpCheckSig()
      modifies this`evaluationStack
      ensures evaluationStack == SingleSig(verify, old(evaluationStack))
    {
      if |evaluationStack| < 2 {
        return;
      }
      ghost var all := evaluationStack;
      var pubkey := Pop();
      var signature := Pop();
      DropMore(all, 1, 1);
      evaluationStack := evaluationStack + [Boolean(verify(signature.GetByteArray(), pubkey.GetByteArray()))];
    }

    /** One operation of a script. Only an operation that reports an error makes the engine fault. */
    method ExecuteOp(op: Byte, s: seq<Byte>, pushOnly: bool) returns (ok: bool, rest: seq<Byte>)
      requires |invocationStack| < 2
      modifies this`evaluationStack, this`opCount
      ensures ok <==> ExecOp(verify, maxSteps, pushOnly, op, s, old(evaluationStack), old(opCount)).Some?
      ensures ok ==> ExecOp(verify, maxSteps, pushOnly, op, s, old(evaluationStack), old(opCount)) == Some(Progress(evaluationStack, opCount, rest))
    {
      hide MultiSig, SingleSig, Take, Skip;
      rest := s;
      if op > PUSH16 && op != RET && pushOnly {
        return false, rest;
      }
      if op > PUSH16 && opCount > maxSteps {
        return false, rest;
      }
      var pushed := Pushed(op, s);
      if pushed.Some? {
        evaluationStack := evaluationStack + [pushed.value.0];
        return true, pushed.value.1;
      }
      if op == CHECKSIG {
        OpCheckSig();
        return true, rest;
      }
      if op == CHECKMULTISIG {
        ok := OpCheckMultiSig();
        return ok, rest;
      }
      if op == RET {
        return true, rest;
      }
      return false, rest;
    }

    /** Runs the script that was loaded last, or halts when none is left. */
    method StepInto()
      requires state == NoState && |invocationStack| <= 2
      modifies this
      ensures old(invocationStack) == [] ==>
                state == Halt && invocationStack == [] && evaluationStack == old(evaluationStack) && opCount == old(opCount)
      ensures old(invocationStack) != [] ==>
                && invocationStack == old(invocationStack)[..|old(invocationStack)| - 1]
                && var c := old(invocationStack)[|old(invocationStack)| - 1];
                   var r := RunScript(verify, maxSteps, c.pushOnly, c.script, old(evaluationStack), old(opCount));
                   (if r.None? then state == Fault else state == NoState && r == Some((evaluationStack, opCount)))
    {
      hide ExecOp;
      if invocationStack == [] {
        state := Halt;
        return;
      }
      var context := invocationStack[|invocationStack| - 1];
      invocationStack := invocationStack[..|invocationStack| - 1];
      ghost var r := RunScript(verify, maxSteps, context.pushOnly, context.script, evaluationStack, opCount);
      var rest := context.script;
      while rest != []
        invariant state == NoState && invocationStack == old(invocationStack)[..|old(invocationStack)| - 1]
        invariant RunScript(verify, maxSteps, context.pushOnly, rest, evaluationStack, opCount) == r
        decreases |rest|
      {
        opCount := opCount + 1;
        var ok;
        ExecShrinks(verify, maxSteps, context.pushOnly, rest[0], rest[1..], evaluationStack, opCount);
        ok, rest := ExecuteOp(rest[0], rest[1..], context.pushOnly);
        if !ok {
          state := Fault;
          return;
        }
      }
    }

    /** Runs all loaded scripts, each on the stack that the one before it left. */
    method Execute()
      requires state == Break && |invocationStack| <= 2
      modifies this
      ensures var r := RunAll(verify, maxSteps, old(invocationStack), old(evaluationStack), old(opCount));
              if r.None? then state == Fault else state == Halt && evaluationStack == r.value.0
    {
      hide RunScript;
      state := NoState;
      ghost var r := RunAll(verify, maxSteps, invocationStack, evaluationStack, opCount);
      while state != Fault && state != Halt && state != Break
        invariant state == NoState ==> RunAll(verify, maxSteps, invocationStack, evaluationStack, opCount) == r
        invariant state == Fault ==> r.None?
        invariant state == Halt ==> r.Some? && evaluationStack == r.value.0
        invariant state != Break && |invocationStack| <= 2
        decreases |invocationStack|, if state == NoState then 1 else 0
      {
        StepInto();
      }
    }
  }
}

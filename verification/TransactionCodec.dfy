/** The byte form of transactions. */
module TransactionCodec {
  import opened Types
  import opened Compact
  import opened Serialization

  /** The hash of the unsigned byte form. */
  type HashFunction = seq<Byte> -> Hash

  ghost predicate Injective(h: HashFunction) {
    forall a, b :: h(a) == h(b) ==> a == b
  }

  // ----- Numbers -----

  predicate IsHash(x: int) {
    0 <= x < Pow256(32)
  }

  predicate IsProgramHash(x: int) {
    0 <= x < Pow256(20)
  }

  predicate IsInt64(x: int) {
    -0x8000_0000_0000_0000 <= x < 0x8000_0000_0000_0000
  }

  function NonNegative(x: int): nat {
    if x < 0 then 0 else x
  }

  function WriteHash(x: int): (r: seq<Byte>)
    ensures |r| == 32
  {
    LittleEndian(NonNegative(x), 32)
  }

  function WriteProgramHash(x: int): (r: seq<Byte>)
    ensures |r| == 20
  {
    LittleEndian(NonNegative(x), 20)
  }

  /** Two's complement in eight bytes. */
  function WriteInt64(x: int): (r: seq<Byte>)
    ensures |r| == 8
  {
    LittleEndian(NonNegative(if x < 0 then x + 0x1_0000_0000_0000_0000 else x), 8)
  }

  function Signed(x: nat): int {
    if x >= 0x8000_0000_0000_0000 then x - 0x1_0000_0000_0000_0000 else x
  }

  function ReadInt64(s: seq<Byte>): Read<int> {
    var x :- ReadUint(s, 8);
    Got(Signed(x.0), x.1)
  }

  lemma HashRound(x: int, rest: seq<Byte>)
    requires IsHash(x)
    ensures ReadUint(WriteHash(x) + rest, 32) == Got(x, rest)
  {
    hide LittleEndian, ReadUint, Pow256;
    UintRound(x, 32, rest);
  }

  lemma ProgramHashRound(x: int, rest: seq<Byte>)
    requires IsProgramHash(x)
    ensures ReadUint(WriteProgramHash(x) + rest, 20) == Got(x, rest)
  {
    hide LittleEndian, ReadUint, Pow256;
    UintRound(x, 20, rest);
  }

  lemma Int64Round(x: int, rest: seq<Byte>)
    requires IsInt64(x)
    ensures ReadInt64(WriteInt64(x) + rest) == Got(x, rest)
  {
    hide LittleEndian, ReadUint;
    Widths();
    UintRound(if x < 0 then x + 0x1_0000_0000_0000_0000 else x, 8, rest);
  }

  // ----- Parts of a transaction -----

  predicate IsValidAttributeType(usage: Byte) {
    usage == 0x00 || usage == 0x20 || usage == 0x81 || usage == 0x90
  }

  /** An unsupported usage is written without its data. */
  function EncodeAttribute(a: TxAttribute): seq<Byte> {
    [a.usage] + if IsValidAttributeType(a.usage) then WriteVarBytes(a.data) else []
  }

  function DecodeAttribute(s: seq<Byte>): Read<TxAttribute> {
    var usage :- ReadBytes(s, 1);
    if !IsValidAttributeType(usage.0[0]) then Fail
    else
      var data :- ReadVarBytes(usage.1);
      Got(TxAttribute(usage.0[0], data.0), data.1)
  }

  function EncodeInput(i: TxInput): seq<Byte> {
    WriteHash(i.referTxID) + (LittleEndian(i.referIndex, 2) + LittleEndian(i.sequence, 4))
  }

  function DecodeInput(s: seq<Byte>): Read<TxInput> {
    var txid :- ReadUint(s, 32);
    var index :- ReadUint(txid.1, 2);
    var sequence :- ReadUint(index.1, 4);
    Got(TxInput(txid.0, index.0, sequence.0), sequence.1)
  }

  function EncodeOutput(o: TxOutput): (r: seq<Byte>)
    ensures |r| == 60
  {
    WriteHash(o.assetID) + (WriteInt64(o.value) + WriteProgramHash(o.programHash))
  }

  /** Errors are not looked at: what cannot be read stays zero. */
  function OrZero(r: Read<int>, s: seq<Byte>): (int, seq<Byte>) {
    if r.Fail? then (0, s) else (r.value, r.rest)
  }

  function DecodeOutput(s: seq<Byte>): Read<TxOutput> {
    var asset := OrZero(ReadUint(s, 32), s);
    var value := OrZero(ReadInt64(asset.1), asset.1);
    var programHash := OrZero(ReadUint(value.1, 20), value.1);
    Got(TxOutput(asset.0, value.0, programHash.0), programHash.1)
  }

  function EncodeProgram(p: Program): seq<Byte> {
    WriteVarBytes(p.parameter) + WriteVarBytes(p.code)
  }

  /** Errors are not looked at: a program that cannot be read stays empty from there on. */
  function DecodeProgram(s: seq<Byte>): Read<Program> {
    var parameter := ReadVarBytes(s);
    if parameter.Fail? then Got(Program([], []), AfterVarBytes(s))
    else
      var code := ReadVarBytes(parameter.rest);
      if code.Fail? then Got(Program([], parameter.value), AfterVarBytes(parameter.rest))
      else Got(Program(code.value, parameter.value), code.rest)
  }

  /** What a failed read of a byte string leaves of the stream. */
  function AfterVarBytes(s: seq<Byte>): seq<Byte> {
    if s == [] then []
    else
      var n := ReadVarUint(s);
      if n.Got? then n.rest else []
  }

  predicate AttributeFormed(a: TxAttribute) {
    IsValidAttributeType(a.usage) && Short(a.data)
  }

  predicate InputFormed(i: TxInput) {
    IsHash(i.referTxID) && i.referIndex < 0x1_0000 && i.sequence < 0x1_0000_0000
  }

  predicate OutputFormed(o: TxOutput) {
    IsHash(o.assetID) && IsInt64(o.value) && IsProgramHash(o.programHash)
  }

  predicate ProgramFormed(p: Program) {
    Short(p.code) && Short(p.parameter)
  }

  /** An empty data field is read back only when something follows, as the counts of the other lists do. */
  lemma AttributeRound(a: TxAttribute)
    requires AttributeFormed(a)
    ensures RoundTrips(EncodeAttribute, DecodeAttribute, a, false)
  {
    forall rest | rest != []
      ensures DecodeAttribute(EncodeAttribute(a) + rest) == Got(a, rest)
    {
      hide ReadVarBytes, WriteVarBytes;
      Marked(a.usage, WriteVarBytes(a.data), rest);
      VarBytesRound(a.data, rest);
    }
  }

  lemma InputRound(i: TxInput)
    requires InputFormed(i)
    ensures RoundTrips(EncodeInput, DecodeInput, i, true)
  {
    forall rest: seq<Byte>
      ensures DecodeInput(EncodeInput(i) + rest) == Got(i, rest)
    {
      hide ReadUint, LittleEndian, WriteHash;
      Widths();
      var third := LittleEndian(i.sequence, 4) + rest;
      var second := LittleEndian(i.referIndex, 2) + third;
      RegroupThree(WriteHash(i.referTxID), LittleEndian(i.referIndex, 2), LittleEndian(i.sequence, 4), rest);
      HashRound(i.referTxID, second);
      UintRound(i.referIndex, 2, third);
      UintRound(i.sequence, 4, rest);
    }
  }

  lemma OutputRound(o: TxOutput)
    requires OutputFormed(o)
    ensures RoundTrips(EncodeOutput, DecodeOutput, o, true)
  {
    forall rest: seq<Byte>
      ensures DecodeOutput(EncodeOutput(o) + rest) == Got(o, rest)
    {
      hide ReadUint, ReadInt64, WriteHash, WriteInt64, WriteProgramHash;
      var third := WriteProgramHash(o.programHash) + rest;
      var second := WriteInt64(o.value) + third;
      RegroupThree(WriteHash(o.assetID), WriteInt64(o.value), WriteProgramHash(o.programHash), rest);
      HashRound(o.assetID, second);
      Int64Round(o.value, third);
      ProgramHashRound(o.programHash, rest);
    }
  }

  /** Even an empty program at the very end comes back, because the error is not looked at. */
  lemma ProgramRound(p: Program)
    requires ProgramFormed(p)
    ensures RoundTrips(EncodeProgram, DecodeProgram, p, true)
  {
    forall rest: seq<Byte>
      ensures DecodeProgram(EncodeProgram(p) + rest) == Got(p, rest)
    {
      OneProgramRound(p, rest);
    }
  }

  lemma OneProgramRound(p: Program, rest: seq<Byte>)
    requires ProgramFormed(p)
    ensures DecodeProgram(EncodeProgram(p) + rest) == Got(p, rest)
  {
    hide ReadVarBytes, WriteVarUint, ReadVarUint;
    var second := WriteVarBytes(p.code) + rest;
    assert EncodeProgram(p) + rest == WriteVarBytes(p.parameter) + second;
    CountNotEmpty(|p.code|);
    VarBytesRound(p.parameter, second);
    VarBytesRound(p.code, rest);
    if p.code + rest == [] {
      VarUintRound(0, []);
      assert WriteVarUint(0) + [] == WriteVarUint(0);
      assert second == WriteVarUint(0);
    }
  }

  lemma CountNotEmpty(n: nat)
    ensures WriteVarUint(n) != []
  {
  }

  // ----- Payloads -----

  function TypeByte(p: Payload): Byte {
    match p
    case CoinBase(_) => 0x00
    case RegisterAsset(_, _, _) => 0x01
    case TransferAsset => 0x02
    case Record(_, _) => 0x03
    case Deploy(_) => 0x04
  }

  function EncodeAsset(a: Asset): seq<Byte> {
    WriteVarBytes(a.name) + (WriteVarBytes(a.description) + [a.precision, a.assetType, a.recordType])
  }

  function DecodeAsset(s: seq<Byte>): Read<Asset> {
    var name :- ReadVarBytes(s);
    var description :- ReadVarBytes(name.1);
    var precision :- ReadBytes(description.1, 1);
    var assetType :- ReadBytes(precision.1, 1);
    var recordType :- ReadBytes(assetType.1, 1);
    Got(Asset(name.0, description.0, precision.0[0], assetType.0[0], recordType.0[0]), recordType.1)
  }

  function EncodePayload(p: Payload): seq<Byte> {
    match p
    case CoinBase(data) => WriteVarBytes(data)
    case RegisterAsset(asset, amount, controller) => EncodeAsset(asset) + (WriteInt64(amount) + WriteProgramHash(controller))
    case TransferAsset => []
    case Record(recordType, recordData) => WriteVarBytes(recordType) + WriteVarBytes(recordData)
    case Deploy(code) => code
  }

  /** The payload of a deployment is not decoded here. */
  function DecodePayload(t: Byte, s: seq<Byte>): Read<Payload> {
    if t == 0x00 then
      var data :- ReadVarBytes(s);
      Got(CoinBase(data.0), data.1)
    else if t == 0x01 then
      var asset :- DecodeAsset(s);
      var amount :- ReadInt64(asset.1);
      var controller :- ReadUint(amount.1, 20);
      Got(RegisterAsset(asset.0, amount.0, controller.0), controller.1)
    else if t == 0x02 then Got(TransferAsset, s)
    else if t == 0x03 then
      var recordType :- ReadVarBytes(s);
      var recordData :- ReadVarBytes(recordType.1);
      Got(Record(recordType.0, recordData.0), recordData.1)
    else Fail
  }

  predicate PayloadFormed(p: Payload) {
    match p
    case CoinBase(data) => Short(data)
    case RegisterAsset(asset, amount, controller) =>
      Short(asset.name) && Short(asset.description) && IsInt64(amount) && IsProgramHash(controller)
    case TransferAsset => true
    case Record(recordType, recordData) => Short(recordType) && Short(recordData)
    case Deploy(_) => false
  }

  lemma AssetRound(a: Asset, rest: seq<Byte>)
    requires Short(a.name) && Short(a.description)
    ensures DecodeAsset(EncodeAsset(a) + rest) == Got(a, rest)
  {
    hide ReadVarBytes, WriteVarBytes, ReadBytes;
    var flags := [a.precision, a.assetType, a.recordType];
    RegroupThree(WriteVarBytes(a.name), WriteVarBytes(a.description), flags, rest);
    VarBytesRound(a.name, WriteVarBytes(a.description) + (flags + rest));
    VarBytesRound(a.description, flags + rest);
    assert flags + rest == [a.precision] + ([a.assetType] + ([a.recordType] + rest));
    ReadBack([a.precision], [a.assetType] + ([a.recordType] + rest));
    ReadBack([a.assetType], [a.recordType] + rest);
    ReadBack([a.recordType], rest);
    StringNotEmpty(a.description);
  }

  lemma StringNotEmpty(value: seq<Byte>)
    ensures WriteVarBytes(value) != []
  {
    CountNotEmpty(|value|);
  }

  lemma PayloadRound(p: Payload, rest: seq<Byte>)
    requires PayloadFormed(p) && rest != []
    ensures DecodePayload(TypeByte(p), EncodePayload(p) + rest) == Got(p, rest)
  {
    hide ReadVarBytes, WriteVarBytes, EncodeAsset, DecodeAsset, ReadInt64, ReadUint, WriteInt64, WriteProgramHash;
    match p
    case CoinBase(data) =>
      VarBytesRound(data, rest);
    case RegisterAsset(asset, amount, controller) =>
      RegroupThree(EncodeAsset(asset), WriteInt64(amount), WriteProgramHash(controller), rest);
      AssetRound(asset, WriteInt64(amount) + (WriteProgramHash(controller) + rest));
      Int64Round(amount, WriteProgramHash(controller) + rest);
      ProgramHashRound(controller, rest);
    case TransferAsset =>
      assert [] + rest == rest;
    case Record(recordType, recordData) =>
      Associative(WriteVarBytes(recordType), WriteVarBytes(recordData), rest);
      VarBytesRound(recordType, WriteVarBytes(recordData) + rest);
      VarBytesRound(recordData, rest);
  }

  // ----- Transactions -----

  function EncodeLists(t: Transaction): seq<Byte> {
    EncodeList(EncodeAttribute, t.attributes) +
    (EncodeList(EncodeInput, t.inputs) + (EncodeList(EncodeOutput, t.outputs) + LittleEndian(t.lockTime, 4)))
  }

  /** Everything but the programs. This is what the hash covers. */
  function EncodeUnsigned(t: Transaction): seq<Byte> {
    [TypeByte(t.payload), t.payloadVersion] + (EncodePayload(t.payload) + EncodeLists(t))
  }

  function Encode(t: Transaction): seq<Byte> {
    EncodeUnsigned(t) + EncodeList(EncodeProgram, t.programs)
  }

  /** The hash is taken of the unsigned form. */
  function Hashed(h: HashFunction, t: Transaction): Transaction {
    t.(hash := h(EncodeUnsigned(t)))
  }

  function DecodeUnsigned(h: HashFunction, s: seq<Byte>): Read<Transaction> {
    var first :- ReadBytes(s, 1);
    var version :- ReadBytes(first.1, 1);
    var payload :- DecodePayload(first.0[0], version.1);
    var attributes :- DecodeList(DecodeAttribute, payload.1);
    var inputs :- DecodeList(DecodeInput, attributes.1);
    var outputs :- DecodeList(DecodeOutput, inputs.1);
    var lockTime :- ReadUint(outputs.1, 4);
    Got(
      Hashed(h, Transaction(ZERO_HASH, version.0[0], payload.0, attributes.0, inputs.0, outputs.0, lockTime.0, [])),
      lockTime.1)
  }

  function Decode(h: HashFunction, s: seq<Byte>): Read<Transaction> {
    var t :- DecodeUnsigned(h, s);
    var programs :- DecodeList(DecodeProgram, t.1);
    Got(t.0.(programs := programs.0), programs.1)
  }

  /** Every field fits its place in the byte form, and the hash is that of the byte form. */
  ghost predicate WellFormed(h: HashFunction, t: Transaction) {
    && PayloadFormed(t.payload)
    && Short(t.attributes) && Short(t.inputs) && Short(t.outputs) && Short(t.programs)
    && (forall k :: 0 <= k < |t.attributes| ==> AttributeFormed(t.attributes[k]))
    && (forall k :: 0 <= k < |t.inputs| ==> InputFormed(t.inputs[k]))
    && (forall k :: 0 <= k < |t.outputs| ==> OutputFormed(t.outputs[k]))
    && (forall k :: 0 <= k < |t.programs| ==> ProgramFormed(t.programs[k]))
    && t.lockTime < 0x1_0000_0000
    && t.hash == h(EncodeUnsigned(t))
  }

  lemma AttributesRound(h: HashFunction, t: Transaction, rest: seq<Byte>)
    requires WellFormed(h, t) && rest != []
    ensures DecodeList(DecodeAttribute, EncodeList(EncodeAttribute, t.attributes) + rest) == Got(t.attributes, rest)
  {
    hide EncodeList, DecodeList, RoundTrips, EncodeAttribute, DecodeAttribute;
    forall k | 0 <= k < |t.attributes|
      ensures RoundTrips(EncodeAttribute, DecodeAttribute, t.attributes[k], false)
    {
      AttributeRound(t.attributes[k]);
    }
    ListRound(EncodeAttribute, DecodeAttribute, t.attributes, rest, false);
  }

  lemma InputsRound(h: HashFunction, t: Transaction, rest: seq<Byte>)
    requires WellFormed(h, t)
    ensures DecodeList(DecodeInput, EncodeList(EncodeInput, t.inputs) + rest) == Got(t.inputs, rest)
  {
    hide EncodeList, DecodeList, RoundTrips, EncodeInput, DecodeInput;
    forall k | 0 <= k < |t.inputs|
      ensures RoundTrips(EncodeInput, DecodeInput, t.inputs[k], true)
    {
      InputRound(t.inputs[k]);
    }
    ListRound(EncodeInput, DecodeInput, t.inputs, rest, true);
  }

  lemma OutputsRound(h: HashFunction, t: Transaction, rest: seq<Byte>)
    requires WellFormed(h, t)
    ensures DecodeList(DecodeOutput, EncodeList(EncodeOutput, t.outputs) + rest) == Got(t.outputs, rest)
  {
    hide EncodeList, DecodeList, RoundTrips, EncodeOutput, DecodeOutput;
    forall k | 0 <= k < |t.outputs|
      ensures RoundTrips(EncodeOutput, DecodeOutput, t.outputs[k], true)
    {
      OutputRound(t.outputs[k]);
    }
    ListRound(EncodeOutput, DecodeOutput, t.outputs, rest, true);
  }

  lemma ProgramsRound(h: HashFunction, t: Transaction, rest: seq<Byte>)
    requires WellFormed(h, t)
    ensures DecodeList(DecodeProgram, EncodeList(EncodeProgram, t.programs) + rest) == Got(t.programs, rest)
  {
    hide EncodeList, DecodeList, RoundTrips, EncodeProgram, DecodeProgram;
    forall k | 0 <= k < |t.programs|
      ensures RoundTrips(EncodeProgram, DecodeProgram, t.programs[k], true)
    {
      ProgramRound(t.programs[k]);
    }
    ListRound(EncodeProgram, DecodeProgram, t.programs, rest, true);
  }

  lemma ListsGrouped(t: Transaction, rest: seq<Byte>)
    ensures EncodeLists(t) + rest ==
            EncodeList(EncodeAttribute, t.attributes) +
            (EncodeList(EncodeInput, t.inputs) + (EncodeList(EncodeOutput, t.outputs) + (LittleEndian(t.lockTime, 4) + rest)))
  {
    hide EncodeList, LittleEndian;
    var a, b, c, d := EncodeList(EncodeAttribute, t.attributes), EncodeList(EncodeInput, t.inputs),
      EncodeList(EncodeOutput, t.outputs), LittleEndian(t.lockTime, 4);
    RegroupThree(a, b, c + d, rest);
    Associative(c, d, rest);
  }

  /** The unsigned form, with the transaction's programs left out. */
  lemma UnsignedRound(h: HashFunction, t: Transaction, rest: seq<Byte>)
    requires WellFormed(h, t)
    ensures DecodeUnsigned(h, EncodeUnsigned(t) + rest) == Got(t.(programs := []), rest)
  {
    hide EncodeList, DecodeList, LittleEndian, ReadUint, EncodePayload, DecodePayload, EncodeLists;
    var head := [TypeByte(t.payload), t.payloadVersion];
    var last := LittleEndian(t.lockTime, 4) + rest;
    var outputs := EncodeList(EncodeOutput, t.outputs) + last;
    var inputs := EncodeList(EncodeInput, t.inputs) + outputs;
    var attributes := EncodeList(EncodeAttribute, t.attributes) + inputs;
    RegroupThree(head, EncodePayload(t.payload), EncodeLists(t), rest);
    ListsGrouped(t, rest);
    TwoBytes(TypeByte(t.payload), t.payloadVersion, EncodePayload(t.payload) + attributes);
    PayloadRound(t.payload, attributes);
    AttributesRound(h, t, inputs);
    InputsRound(h, t, outputs);
    OutputsRound(h, t, last);
    Widths();
    UintRound(t.lockTime, 4, rest);
    ProgramsUnsigned(t);
  }

  lemma TwoBytes(a: Byte, b: Byte, rest: seq<Byte>)
    ensures ReadBytes([a, b] + rest, 1) == Got([a], [b] + rest)
    ensures ReadBytes([b] + rest, 1) == Got([b], rest)
  {
    assert [a, b] + rest == [a] + ([b] + rest);
    ReadBack([a], [b] + rest);
    ReadBack([b], rest);
  }

  /** Programs and the cached hash are not part of the unsigned form. */
  lemma ProgramsUnsigned(t: Transaction)
    ensures EncodeUnsigned(t.(hash := ZERO_HASH, programs := [])) == EncodeUnsigned(t)
  {
  }

  /** Reading a written transaction gives it back and leaves what follows it. */
  lemma TransactionRound(h: HashFunction, t: Transaction, rest: seq<Byte>)
    requires WellFormed(h, t)
    ensures Decode(h, Encode(t) + rest) == Got(t, rest)
  {
    hide EncodeUnsigned, DecodeUnsigned, EncodeList, DecodeList, WellFormed;
    Associative(EncodeUnsigned(t), EncodeList(EncodeProgram, t.programs), rest);
    UnsignedRound(h, t, EncodeList(EncodeProgram, t.programs) + rest);
    ProgramsRound(h, t, rest);
  }

  /** No unsigned form is the beginning of another one followed by something else. */
  lemma UniquelyDecodable(h: HashFunction, t: Transaction, rest: seq<Byte>, t': Transaction, rest': seq<Byte>)
    requires WellFormed(h, t) && WellFormed(h, t')
    requires EncodeUnsigned(t) + rest == EncodeUnsigned(t') + rest'
    ensures t.(programs := []) == t'.(programs := []) && rest == rest'
  {
    hide *;
    UnsignedRound(h, t, rest);
    UnsignedRound(h, t', rest');
  }

  /** With a hash function without collisions, a transaction hash identifies everything but the programs. */
  lemma HashIdentifies(h: HashFunction, t: Transaction, t': Transaction)
    requires Injective(h)
    requires WellFormed(h, t) && WellFormed(h, t')
    requires t.hash == t'.hash
    ensures t.(programs := []) == t'.(programs := [])
  {
    hide EncodeUnsigned, PayloadFormed;
    UniquelyDecodable(h, t, [], t', []);
  }

  // ----- Sizes -----

  lemma {:induction false} OutputsSize(l: seq<TxOutput>)
    ensures |EncodeAll(EncodeOutput, l)| == 60 * |l|
  {
    if l != [] {
      OutputsSize(l[..|l| - 1]);
    }
  }

  /** A limit on the size of a transaction limits the number of its outputs. */
  lemma SizeLimitsOutputs(t: Transaction)
    ensures 60 * |t.outputs| <= |Encode(t)|
  {
    hide EncodeAll, EncodeOutput, WriteVarUint, LittleEndian, EncodePayload;
    OutputsSize(t.outputs);
  }

  // ----- Writing and reading -----

  method SerializeUnsigned(t: Transaction) returns (w: seq<Byte>)
    ensures w == EncodeUnsigned(t)
  {
    hide EncodeList, EncodePayload, LittleEndian;
    w := [TypeByte(t.payload)];
    w := w + [t.payloadVersion];
    w := w + EncodePayload(t.payload);
    var attributes := WriteList(EncodeAttribute, t.attributes);
    var inputs := WriteList(EncodeInput, t.inputs);
    var outputs := WriteList(EncodeOutput, t.outputs);
    WrittenInOrder(t);
    w := w + attributes + inputs + outputs + LittleEndian(t.lockTime, 4);
  }

  lemma WrittenInOrder(t: Transaction)
    ensures [TypeByte(t.payload)] + [t.payloadVersion] + EncodePayload(t.payload) + EncodeList(EncodeAttribute, t.attributes)
            + EncodeList(EncodeInput, t.inputs) + EncodeList(EncodeOutput, t.outputs) + LittleEndian(t.lockTime, 4) == EncodeUnsigned(t)
  {
    hide EncodeList, EncodePayload, LittleEndian;
  }

  method Serialize(t: Transaction) returns (w: seq<Byte>)
    ensures w == Encode(t)
  {
    hide EncodeUnsigned, EncodeList;
    w := SerializeUnsigned(t);
    var programs := WriteList(EncodeProgram, t.programs);
    w := w + programs;
  }

  method DeserializeUnsigned(h: HashFunction, s: seq<Byte>) returns (r: Read<Transaction>)
    ensures r == DecodeUnsigned(h, s)
  {
    hide DecodeList, DecodePayload, ReadBytes, ReadUint, EncodeUnsigned;
    var first := ReadBytes(s, 1);
    if first.Fail? {
      return Fail;
    }
    OneByte(s);
    var version := ReadBytes(first.rest, 1);
    if version.Fail? {
      return Fail;
    }
    OneByte(first.rest);
    var payload := DecodePayload(first.value[0], version.rest);
    if payload.Fail? {
      return Fail;
    }
    var attributes := ReadList(DecodeAttribute, payload.rest);
    if attributes.Fail? {
      return Fail;
    }
    var inputs := ReadList(DecodeInput, attributes.rest);
    if inputs.Fail? {
      return Fail;
    }
    var outputs := ReadList(DecodeOutput, inputs.rest);
    if outputs.Fail? {
      return Fail;
    }
    var lockTime := ReadUint(outputs.rest, 4);
    if lockTime.Fail? {
      return Fail;
    }
    var t := Transaction(
      ZERO_HASH, version.value[0], payload.value, attributes.value, inputs.value, outputs.value, lockTime.value, []);
    var unsigned := SerializeUnsigned(t);
    return Got(t.(hash := h(unsigned)), lockTime.rest);
  }

  lemma OneByte(s: seq<Byte>)
    ensures ReadBytes(s, 1).Got? ==> |ReadBytes(s, 1).value| == 1
  {
  }

  method Deserialize(h: HashFunction, s: seq<Byte>) returns (r: Read<Transaction>)
    ensures r == Decode(h, s)
  {
    hide DecodeUnsigned, DecodeList;
    var t := DeserializeUnsigned(h, s);
    if t.Fail? {
      return Fail;
    }
    var programs := ReadList(DecodeProgram, t.rest);
    if programs.Fail? {
      return Fail;
    }
    return Got(t.value.(programs := programs.value), programs.rest);
  }

  /** What is written is read back, whatever follows it in the stream. */
  method WriteThenRead(h: HashFunction, t: Transaction, rest: seq<Byte>) returns (r: Read<Transaction>)
    requires WellFormed(h, t)
    ensures r == Got(t, rest)
  {
    hide *;
    var w := Serialize(t);
    TransactionRound(h, t, rest);
    r := Deserialize(h, w + rest);
  }
}

/** With hash functions without collisions, the hashes of well-formed blocks identify what the chain needs of them. */
module Identity {
  import opened Types
  import opened Ledger
  import opened Merkle
  import opened Difficulty
  import opened TxValidator
  import opened Serialization
  import opened TransactionCodec
  import opened BlockCodec
  import opened Conservation
  import opened Chain

  // ----- Transactions -----

  ghost predicate Listed(ts: seq<Transaction>, x: Hash) {
    exists t :: t in ts && t.hash == x
  }

  ghost function OutputsAt(ts: seq<Transaction>, x: Hash): (r: seq<TxOutput>)
    requires Listed(ts, x)
    ensures exists t :: t in ts && t.hash == x && t.outputs == r
  {
    var t :| t in ts && t.hash == x;
    t.outputs
  }

  /** The outputs that the hashes of the given transactions stand for. */
  ghost function ContentsOf(ts: seq<Transaction>): Contents {
    x => if Listed(ts, x) then OutputsAt(ts, x) else []
  }

  /** All transactions of a run agree with one assignment of outputs to hashes. */
  lemma HashesIdentifyOutputs(h: HashFunction, ts: seq<Transaction>)
    requires Injective(h)
    requires forall t :: t in ts ==> WellFormed(h, t)
    ensures TxsIdentified(ts, ContentsOf(ts))
  {
    hide WellFormed, Injective;
    forall t | t in ts
      ensures t.outputs == ContentsOf(ts)(t.hash)
    {
      assert Listed(ts, t.hash);
      var u :| u in ts && u.hash == t.hash && u.outputs == OutputsAt(ts, t.hash);
      HashIdentifies(h, t, u);
    }
  }

  // ----- Headers -----

  lemma PrevHashRead(hash: HashFunction, read: AuxReader, h: Header)
    requires HeaderFormed(hash, read, h)
    ensures Number(Number(EncodeUnsignedHeader(h), 4).1, 32).0 == h.prevHash
  {
    hide LittleEndian, WriteHash, EncodeNumbers, Number, Delimits, IsHash;
    var rest := WriteHash(h.root) + EncodeNumbers(h);
    Uint32Round(h.version, WriteHash(h.prevHash) + rest);
    PrevRead(h.prevHash, rest);
  }

  lemma PrevRead(x: Hash, rest: seq<Byte>)
    requires IsHash(x)
    ensures Number(WriteHash(x) + rest, 32) == (x, rest)
  {
    hide WriteHash, ReadUint;
    HashRound(x, rest);
  }

  /** A block hash identifies the parent, though not the auxiliary proof of work. */
  lemma HashIdentifiesParent(hash: HashFunction, read: AuxReader, h: Header, h': Header)
    requires Injective(hash)
    requires HeaderFormed(hash, read, h) && HeaderFormed(hash, read, h')
    requires h.hash == h'.hash
    ensures h.prevHash == h'.prevHash
  {
    hide EncodeUnsignedHeader, Number, Delimits, IsHash;
    PrevHashRead(hash, read, h);
    PrevHashRead(hash, read, h');
  }

  // ----- Everything that is submitted to a node -----

  ghost function TxsOf(blocks: seq<Block>): seq<Transaction> {
    if blocks == [] then [] else TxsOf(blocks[..|blocks| - 1]) + blocks[|blocks| - 1].txs
  }

  lemma {:induction false} TxsFrom(blocks: seq<Block>, t: Transaction)
    ensures t in TxsOf(blocks) <==> exists k :: 0 <= k < |blocks| && t in blocks[k].txs
  {
    if blocks != [] {
      TxsFrom(blocks[..|blocks| - 1], t);
    }
  }

  ghost predicate Given(blocks: seq<Block>, x: Hash) {
    exists b :: b in blocks && b.header.hash == x
  }

  ghost function ParentAt(blocks: seq<Block>, x: Hash): (r: Hash)
    requires Given(blocks, x)
    ensures exists b :: b in blocks && b.header.hash == x && b.header.prevHash == r
  {
    var b :| b in blocks && b.header.hash == x;
    b.header.prevHash
  }

  /** The parents that the hashes of the given blocks stand for. */
  ghost function ParentsOf(blocks: seq<Block>): Hash -> Hash {
    x => if Given(blocks, x) then ParentAt(blocks, x) else ZERO_HASH
  }

  ghost predicate AllFormed(h: HashFunction, read: AuxReader, blocks: seq<Block>) {
    forall k :: 0 <= k < |blocks| ==> BlockFormed(h, read, blocks[k])
  }

  /** One assignment of parents and outputs to hashes fits every block of a list. */
  lemma BlocksIdentified(h: HashFunction, read: AuxReader, blocks: seq<Block>, k: nat)
    requires Injective(h) && AllFormed(h, read, blocks) && k < |blocks|
    ensures blocks[k].header.prevHash == ParentsOf(blocks)(blocks[k].header.hash)
    ensures TxsIdentified(blocks[k].txs, ContentsOf(TxsOf(blocks)))
  {
    hide BlockFormed, Injective, WellFormed, HeaderFormed, TxsOf, ContentsOf;
    forall t | t in TxsOf(blocks)
      ensures WellFormed(h, t)
    {
      TxsFrom(blocks, t);
      var j :| 0 <= j < |blocks| && t in blocks[j].txs;
      FormedParts(h, read, blocks[j]);
    }
    HashesIdentifyOutputs(h, TxsOf(blocks));
    forall t | t in blocks[k].txs
      ensures t in TxsOf(blocks)
    {
      TxsFrom(blocks, t);
    }
    var b := blocks[k];
    assert Given(blocks, b.header.hash);
    var other :| other in blocks && other.header.hash == b.header.hash && other.header.prevHash == ParentAt(blocks, b.header.hash);
    FormedParts(h, read, b);
    FormedParts(h, read, other);
    HashIdentifiesParent(h, read, b.header, other.header);
  }

  lemma FormedParts(h: HashFunction, read: AuxReader, b: Block)
    requires BlockFormed(h, read, b)
    ensures HeaderFormed(h, read, b.header)
    ensures forall t :: t in b.txs ==> WellFormed(h, t)
  {
    hide WellFormed, HeaderFormed;
  }

  ghost function BlocksOf(steps: seq<Submission>): (r: seq<Block>)
    ensures |r| == |steps|
  {
    seq(|steps|, k requires 0 <= k < |steps| => steps[k].block)
  }

  /** The rules under which a first block and a run of submissions are judged. */
  ghost function RulesFor(params: ChainParams, pairHash: PairHash, minFee: int, token: Token, genesis: Block, steps: seq<Submission>): Rules {
    var blocks := [genesis] + BlocksOf(steps);
    Rules(params, pairHash, minFee, token, ParentsOf(blocks), ContentsOf(TxsOf(blocks)))
  }

  /**
   Of the hypotheses about a run, those about hashes follow from a hash function without collisions.
   What is left to assume of a block is that it spends no output twice, has few enough outputs and
   is no second genesis block.
   */
  lemma RunIsSubmittable(
    h: HashFunction, read: AuxReader, params: ChainParams, pairHash: PairHash, minFee: int, token: Token, genesis: Block, steps: seq<Submission>)
    requires Injective(h) && AllFormed(h, read, [genesis] + BlocksOf(steps))
    ensures var r := RulesFor(params, pairHash, minFee, token, genesis, steps);
            && genesis.header.prevHash == r.parentOf(genesis.header.hash) && TxsIdentified(genesis.txs, r.outs)
            && (AllSubmittable(r, steps) <==> forall k :: 0 <= k < |steps| ==> Remaining(steps[k].block))
  {
    hide AllFormed, Injective, TxsOf, ContentsOf, ParentsOf, TxsIdentified, DisjointSpends, Remaining;
    var blocks, r := [genesis] + BlocksOf(steps), RulesFor(params, pairHash, minFee, token, genesis, steps);
    BlocksIdentified(h, read, blocks, 0);
    forall k | 0 <= k < |steps|
      ensures Submittable(r, steps[k].block) <==> Remaining(steps[k].block)
    {
      BlocksIdentified(h, read, blocks, k + 1);
      assert blocks[k + 1] == steps[k].block;
      RemainingMeans(r, steps[k].block);
    }
  }

  ghost predicate Remaining(b: Block) {
    && DisjointSpends(b.txs)
    && (forall t :: t in b.txs ==> |t.outputs| <= MAX_OUTPUTS)
    && (b.header.prevHash != ZERO_HASH || b.header.height != 0)
  }

  lemma RemainingMeans(r: Rules, b: Block)
    requires b.header.prevHash == r.parentOf(b.header.hash) && TxsIdentified(b.txs, r.outs)
    ensures Submittable(r, b) <==> Remaining(b)
  {
    hide TxsIdentified, DisjointSpends;
  }
}

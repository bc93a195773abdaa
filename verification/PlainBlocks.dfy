/** Blocks of the main network with nothing but a coinbase, for runs of the node. */
module PlainBlocks {
  import opened Types
  import opened Ledger
  import opened Compact
  import opened MedianTime
  import opened Difficulty
  import opened Merkle
  import opened Storage
  import opened Serialization
  import opened TransactionCodec
  import opened BlockCodec
  import opened TxValidator
  import opened BlockValidator
  import opened Conservation
  import opened BlockTree
  import opened Chain
  import opened Identity
  import opened Genesis
  import opened Mining
  import Counterexamples

  /** The hash functions, the address of the foundation, and the random bytes of the first block. */
  datatype World = World(hash: HashFunction, pairHash: PairHash, foundation: ProgramHash, salt: seq<Byte>)

  /** The hash function has no collisions, and zero, which stands for no parent, is no hash. */
  ghost predicate Proper(w: World) {
    Injective(w.hash) && forall s :: w.hash(s) != ZERO_HASH
  }

  /** The number that the bytes and a leading one denote. */
  function AsNumber(s: seq<Byte>): (r: nat)
    ensures r >= 1 && (s != [] ==> r >= 256)
  {
    if s == [] then 1 else (s[0] as int) + 256 * AsNumber(s[1..])
  }

  lemma {:induction false} AsNumberInjective(a: seq<Byte>, b: seq<Byte>)
    requires AsNumber(a) == AsNumber(b)
    ensures a == b
    decreases |a|
  {
    if a != [] {
      assert b != [];
      assert a[0] == b[0];
      AsNumberInjective(a[1..], b[1..]);
      assert a == [a[0]] + a[1..] && b == [b[0]] + b[1..];
    }
  }

  /** There are such hash functions, so that the runs below are runs. */
  lemma SomeProper(w: World)
    ensures Proper(w.(hash := s => AsNumber(s)))
  {
    hide AsNumber;
    var h: HashFunction := s => AsNumber(s);
    forall a, b | h(a) == h(b)
      ensures a == b
    {
      AsNumberInjective(a, b);
    }
    forall s
      ensures h(s) != ZERO_HASH
    {
      assert AsNumber(s) >= 1;
    }
  }

  function First(w: World): Seeds {
    HashedSeeds(w.hash, w.pairHash, w.foundation, w.salt)
  }

  function Origin(w: World): Block {
    GenesisBlock(w.pairHash, First(w))
  }

  /** A coinbase that issues nothing, told apart by a byte of its data. */
  function Marked(w: World, mark: Byte): Transaction {
    Unpaid(w.hash, [mark], 1, TokenOf(First(w)))
  }

  /** One block a second, all with the first target. */
  function Plain(w: World, prevHash: Hash, height: nat, mark: Byte, nonce: nat): Block {
    var c := Marked(w, mark);
    Block(
      HashedHeader(w.hash, Header(
        ZERO_HASH, 0, prevHash, Root(w.pairHash, [c.hash]), GENESIS_TIME + height, MAIN_NET.powLimitBits, height, nonce, [])),
      [c])
  }

  ghost predicate IsPlain(w: World, b: Block) {
    exists mark :: b == Plain(w, b.header.prevHash, b.header.height, mark, b.header.nonce)
  }

  lemma PlainIsPlain(w: World, prevHash: Hash, height: nat, mark: Byte, nonce: nat)
    ensures var b := Plain(w, prevHash, height, mark, nonce);
            && IsPlain(w, b) && b.txs == [Marked(w, mark)]
            && b.header.prevHash == prevHash && b.header.height == height && b.header.nonce == nonce
  {
    hide EncodeUnsigned, EncodeUnsignedHeader, Root, First;
    var b := Plain(w, prevHash, height, mark, nonce);
    assert b == Plain(w, b.header.prevHash, b.header.height, mark, b.header.nonce);
  }

  lemma PlainHeader(w: World, b: Block)
    requires IsPlain(w, b)
    ensures b.header.timestamp == GENESIS_TIME + b.header.height && b.header.bits == MAIN_NET.powLimitBits
    ensures b.header.hash == w.hash(EncodeUnsignedHeader(b.header))
  {
    hide EncodeUnsigned, LittleEndian, WriteHash, Root, First;
  }

  lemma PlainTxs(w: World, b: Block)
    requires IsPlain(w, b)
    ensures exists mark :: b.txs == [Marked(w, mark)]
    ensures TxsSane(b.txs) && DisjointSpends(b.txs) && RootValid(w.pairHash, b)
    ensures forall t :: t in b.txs ==> |t.outputs| <= MAX_OUTPUTS
  {
    hide EncodeUnsigned, EncodeUnsignedHeader, Root, First;
    var mark :| b == Plain(w, b.header.prevHash, b.header.height, mark, b.header.nonce);
    var c := Marked(w, mark);
    RewardSane(w.hash, [mark], 1, TokenOf(First(w)), 0, w.foundation);
    assert b.txs == [c] && TxHashes(b.txs) == [c.hash];
    assert forall t :: t in b.txs ==> t == c;
  }

  // ----- The rules of a run -----

  ghost function NoReward(w: World): seq<TxOutput> {
    RewardOutputs(TokenOf(First(w)), 0, First(w).foundation)
  }

  ghost function OutsIn(w: World): Contents {
    x => if x == First(w).tokenHash then [] else if x == First(w).coinbaseHash then FirstCoinbase(First(w)).outputs else NoReward(w)
  }

  /** A run: the first block, and others numbered by their nonces. */
  ghost predicate Numbered(w: World, blocks: seq<Block>) {
    && 0 < |blocks| < GENESIS_NONCE && blocks[0] == Origin(w)
    && forall k :: 0 < k < |blocks| ==> IsPlain(w, blocks[k]) && blocks[k].header.nonce == k
  }

  ghost function RulesIn(w: World, minFee: int, blocks: seq<Block>): Rules {
    Rules(MAIN_NET, w.pairHash, minFee, TokenOf(First(w)), ParentsOf(blocks), OutsIn(w))
  }

  /** Marked coinbases and the transactions of the first block have different hashes. */
  lemma MarkedApart(w: World, mark: Byte)
    requires Injective(w.hash)
    ensures Marked(w, mark).hash != First(w).tokenHash
    ensures Marked(w, mark).hash != First(w).coinbaseHash
    ensures First(w).coinbaseHash != First(w).tokenHash
  {
    hide Injective, EncodeUnsigned, First, HashedSeeds, GenesisBlock, EncodeUnsignedHeader;
    SeedsAre(w);
    var s, c := First(w), Marked(w, mark);
    MadeRight(w.hash, [mark], 1, TokenOf(s), 0, s.foundation, TxInput(0, 0, 0), []);
    OtherType(w.hash, c, SystemToken(s));
    OtherData(w.hash, c, FirstCoinbase(s));
  }

  lemma SeedsAre(w: World)
    ensures var s := First(w);
            && s.foundation == w.foundation
            && HashRight(w.hash, SystemToken(s)) && HashRight(w.hash, FirstCoinbase(s))
            && s.blockHash == w.hash(EncodeUnsignedHeader(GenesisBlock(w.pairHash, s).header))
            && (Injective(w.hash) ==> s.coinbaseHash != s.tokenHash)
  {
    hide HashedSeeds, EncodeUnsigned, GenesisBlock, EncodeUnsignedHeader, Injective;
    SeedsHashed(w.hash, w.pairHash, w.foundation, w.salt);
  }

  lemma TwoMarks(w: World, mark: Byte, mark': Byte)
    requires Injective(w.hash) && mark != mark'
    ensures Marked(w, mark).hash != Marked(w, mark').hash
  {
    hide Injective, EncodeUnsigned, First, HashRight;
    var token := TokenOf(First(w));
    MadeRight(w.hash, [mark], 1, token, 0, token.foundation, TxInput(0, 0, 0), []);
    MadeRight(w.hash, [mark'], 1, token, 0, token.foundation, TxInput(0, 0, 0), []);
    DifferentBytes(mark, mark');
    OtherData(w.hash, Marked(w, mark), Marked(w, mark'));
  }

  lemma DifferentBytes(a: Byte, b: Byte)
    requires a != b
    ensures [a] != [b]
  {
    assert [a][0] != [b][0];
  }

  /** Different numbers, different hashes. */
  lemma NumbersApart(w: World, blocks: seq<Block>, i: nat, j: nat)
    requires Proper(w) && Numbered(w, blocks) && i < j < |blocks|
    ensures blocks[i].header.hash != blocks[j].header.hash
  {
    hide EncodeUnsignedHeader, First, IsPlain, Injective;
    NumberedHeader(w, blocks, i);
    NumberedHeader(w, blocks, j);
    OtherNonce(w.hash, blocks[i].header, blocks[j].header);
  }

  lemma NumberedHeader(w: World, blocks: seq<Block>, k: nat)
    requires Numbered(w, blocks) && k < |blocks|
    ensures blocks[k].header.hash == w.hash(EncodeUnsignedHeader(blocks[k].header))
    ensures blocks[k].header.nonce == if k == 0 then GENESIS_NONCE else k
  {
    hide EncodeUnsignedHeader, First, IsPlain, Root;
    if k == 0 {
      SeedsAre(w);
    } else {
      PlainHeader(w, blocks[k]);
    }
  }

  lemma ParentsRight(w: World, blocks: seq<Block>, k: nat)
    requires Proper(w) && Numbered(w, blocks) && k < |blocks|
    ensures ParentsOf(blocks)(blocks[k].header.hash) == blocks[k].header.prevHash
  {
    hide Numbered, Proper;
    var b := blocks[k];
    assert Given(blocks, b.header.hash);
    var other :| other in blocks && other.header.hash == b.header.hash && other.header.prevHash == ParentAt(blocks, b.header.hash);
    var j :| 0 <= j < |blocks| && blocks[j] == other;
    if j < k {
      NumbersApart(w, blocks, j, k);
    } else if k < j {
      NumbersApart(w, blocks, k, j);
    }
  }

  lemma MarkedIdentified(w: World, mark: Byte)
    requires Proper(w)
    ensures OutsIn(w)(Marked(w, mark).hash) == Marked(w, mark).outputs
  {
    hide EncodeUnsigned, First, Injective, Marked;
    MarkedApart(w, mark);
    MarkedOutputs(w, mark);
  }

  lemma MarkedOutputs(w: World, mark: Byte)
    ensures Marked(w, mark).outputs == NoReward(w)
  {
    hide EncodeUnsigned, First;
  }

  lemma OneIdentified(t: Transaction, outs: Contents)
    requires outs(t.hash) == t.outputs
    ensures TxsIdentified([t], outs)
  {
  }

  lemma PlainIdentified(w: World, b: Block)
    requires Proper(w) && IsPlain(w, b)
    ensures TxsIdentified(b.txs, OutsIn(w))
  {
    hide *;
    PlainTxs(w, b);
    var mark :| b.txs == [Marked(w, mark)];
    MarkedIdentified(w, mark);
    OneIdentified(Marked(w, mark), OutsIn(w));
  }

  lemma PlainSubmittable(w: World, minFee: int, blocks: seq<Block>, k: nat)
    requires Proper(w) && Numbered(w, blocks) && 0 < k < |blocks| && blocks[k].header.prevHash != ZERO_HASH
    ensures Submittable(RulesIn(w, minFee, blocks), blocks[k])
  {
    hide Proper, ParentsOf, OutsIn, TxsSane, DisjointSpends, RootValid, TxsIdentified, IsPlain, First;
    ParentsRight(w, blocks, k);
    PlainTxs(w, blocks[k]);
    PlainIdentified(w, blocks[k]);
  }

  lemma FirstKnown(w: World, minFee: int, blocks: seq<Block>)
    requires Proper(w) && Numbered(w, blocks)
    ensures SeedsKnown(RulesIn(w, minFee, blocks), First(w))
  {
    hide ParentsOf, First, IsPlain, Injective, Root;
    ParentsRight(w, blocks, 0);
    SeedsAre(w);
  }

  /** Whatever the ledger is, such a block passes the checks of a block on its own. */
  lemma PlainPasses(w: World, txs: map<Hash, StoredTx>, minFee: int, b: Block, powHash: Hash)
    requires IsPlain(w, b) && powHash <= CompactToBig(MAIN_NET.powLimitBits)
    ensures SanityOk(txs, w.pairHash, MAIN_NET.powLimit, minFee, TokenOf(First(w)), b, powHash)
  {
    hide CompactToBig, IsPlain, RootValid, TxsSane, DisjointSpends, EncodeUnsigned, First, InputsSane, OutputsSane;
    PlainHeader(w, b);
    PlainTxs(w, b);
    var mark :| b.txs == [Marked(w, mark)];
    var token := TokenOf(First(w));
    RewardSane(w.hash, [mark], 1, token, 0, token.foundation);
    NetTargets();
  }

  // ----- Targets and times -----

  ghost predicate Steady(hs: seq<Header>) {
    && 0 < |hs| < 720
    && (forall k :: 0 <= k < |hs| ==> hs[k].timestamp == GENESIS_TIME + k)
    && 0 < CompactToBig(hs[|hs| - 1].bits)
    && (|hs| > 1 ==> hs[|hs| - 1].bits == MAIN_NET.powLimitBits)
  }

  lemma SteadyNext(hs: seq<Header>)
    requires Steady(hs)
    ensures HeaderFits(MAIN_NET, hs, MAIN_NET.powLimitBits, GENESIS_TIME + |hs|)
  {
    hide CompactToBig, PastMedianTime, NewTarget, BigToCompact;
    NetsAreValid();
    MedianBelow(hs, GENESIS_TIME + |hs|);
  }

  lemma SteadyGrows(hs: seq<Header>, h: Header)
    requires Steady(hs) && |hs| < 719
    requires h.timestamp == GENESIS_TIME + |hs| && h.bits == MAIN_NET.powLimitBits
    ensures Steady(hs + [h])
  {
    hide CompactToBig;
    NetTargets();
  }

  lemma PlainFits(w: World, prev: BlockNode, b: Block)
    requires IsPlain(w, b) && b.header.height == prev.header.height + 1
    requires Steady(Headers(prev)) && |Headers(prev)| == prev.header.height + 1
    ensures FitsOn(MAIN_NET, prev, b)
  {
    hide HeaderFits, Headers, IsPlain, TxsSane, DisjointSpends, RootValid, Steady, Marked, First;
    PlainHeader(w, b);
    PlainTxs(w, b);
    SteadyNext(Headers(prev));
  }

  lemma WorkOfPlain()
    ensures CalcWork(MAIN_NET.powLimitBits) > 0
  {
    hide CompactToBig, CalcWork, ChainParams.Valid;
    NetTargets();
    TargetWithinHalf();
    WorkPositive(MAIN_NET.powLimitBits);
  }

  lemma TargetWithinHalf()
    ensures 2 * (MAIN_NET.powLimit + 1) <= TWO_TO_256
  {
  }

  // ----- Chains -----

  lemma Grown(blocks: seq<Block>, b: Block)
    requires ValidChain(blocks) && Connectable(Replay(blocks), b)
    ensures ValidChain(blocks + [b]) && Replay(blocks + [b]) == ApplyBlock(Replay(blocks), b)
  {
    hide Connectable, ApplyBlock;
    assert (blocks + [b])[..|blocks|] == blocks;
  }

  lemma PlainConnects(w: World, l: Ledger, b: Block)
    requires IsPlain(w, b) && b.header.prevHash == l.tip && b.header.height == l.height + 1
    requires b.header.hash !in l.headers && forall t :: t in b.txs ==> t.hash !in l.txs
    ensures Connectable(l, b)
  {
    hide IsPlain, TxsSane, DisjointSpends, RootValid, EncodeUnsigned, First;
    PlainTxs(w, b);
    var mark :| b.txs == [Marked(w, mark)];
  }

  /** What a block leaves in the ledger. */
  lemma PlainLeaves(l: Ledger, b: Block, c: Transaction)
    requires b.txs == [c]
    ensures var l' := ApplyBlock(l, b);
            && l'.headers.Keys == l.headers.Keys + {b.header.hash} && l'.txs.Keys == l.txs.Keys + {c.hash}
            && l'.tip == b.header.hash && l'.height == b.header.height
  {
    hide ApplyTxs, StoreTxs;
    Counterexamples.OneTransaction(l, c, b.header.height);
  }

  lemma OriginLeaves(w: World)
    requires Injective(w.hash)
    ensures var g := Origin(w); var l := Replay([g]);
            && ValidChain([g]) && l.tip == g.header.hash && l.height == 0
            && l.headers.Keys == {g.header.hash} && l.txs.Keys == {First(w).coinbaseHash, First(w).tokenHash}
  {
    hide *;
    OriginIs(w);
    SeedsAre(w);
    GenesisConnects(w.pairHash, First(w));
    GenesisChain(Origin(w));
    FirstTables(w.pairHash, First(w));
  }

  lemma FirstTables(h: PairHash, s: Seeds)
    ensures var g := GenesisBlock(h, s); var l := ApplyBlock(EMPTY, g);
            && l.headers.Keys == {g.header.hash} && l.txs.Keys == {s.coinbaseHash, s.tokenHash}
            && l.tip == g.header.hash && l.height == 0
  {
    hide Root, StoreTxs, StoreAssets, ApplyTxs, TxHashes;
    TwoStored(map[], FirstCoinbase(s), SystemToken(s));
  }

  lemma TwoStored(txs: map<Hash, StoredTx>, s: Transaction, t: Transaction)
    ensures StoreTxs(txs, [s, t], 0).Keys == txs.Keys + {s.hash, t.hash}
  {
    assert [s, t][..1] == [s] && [s][..0] == [];
    assert StoreTxs(txs, [s], 0) == txs[s.hash := StoredTx(s, 0)];
  }

  // ----- The node of a run -----

  /** The node follows the rules of the run, and its first block is that of the code. */
  ghost predicate Follows(bc: Blockchain, w: World, minFee: int, blocks: seq<Block>) {
    bc.rules == RulesIn(w, minFee, blocks) && RootIs(bc.root, w)
  }

  ghost predicate RootIs(root: BlockNode, w: World) {
    && root.header == Origin(w).header && root.header.height == 0
    && Path(root) == [root] && Blocks(root) == [Origin(w)]
    && Steady(Headers(root)) && |Headers(root)| == 1
  }

  lemma RootMeans(root: BlockNode, w: World)
    ensures RootIs(root, w) <==>
            && root.header == Origin(w).header && root.header.height == 0
            && Path(root) == [root] && Blocks(root) == [Origin(w)]
            && Steady(Headers(root)) && |Headers(root)| == 1
  {
    hide Path, Blocks, Headers, Steady, Origin;
  }

  lemma FollowsMeans(bc: Blockchain, w: World, minFee: int, blocks: seq<Block>)
    ensures Follows(bc, w, minFee, blocks) <==> bc.rules == RulesIn(w, minFee, blocks) && RootIs(bc.root, w)
  {
    hide RootIs, RulesIn;
  }

  method Start(w: World, minFee: int, limit: nat, ghost blocks: seq<Block>) returns (bc: Blockchain)
    requires Proper(w) && Numbered(w, blocks) && limit > 0
    ensures fresh(bc) && fresh(bc.store) && fresh(bc.root) && bc.nodes == {bc.root} && bc.bestChain == bc.root
    ensures bc.Valid() && !bc.refused && bc.orphans == map[] && bc.oldestOrphan == null && bc.maxOrphans == limit
    ensures Follows(bc, w, minFee, blocks)
    ensures forall x :: x in bc.index ==> x == Origin(w).header.hash
  {
    hide *;
    FirstKnown(w, minFee, blocks);
    RulesAre(w, minFee, blocks);
    bc := NewBlockchainWithGenesisBlock(w.pairHash, MAIN_NET, minFee, limit, First(w), RulesIn(w, minFee, blocks));
    OriginIs(w);
    bc.Parts();
    bc.TreeParts();
    RootKnown(bc.rules, bc.nodes, bc.root, w);
    OneIndexed(bc.index, bc.root);
    FollowsMeans(bc, w, minFee, blocks);
    RootMeans(bc.root, w);
  }

  lemma OriginIs(w: World)
    ensures Origin(w) == GenesisBlock(w.pairHash, First(w))
  {
    hide GenesisBlock, First;
  }

  lemma RulesAre(w: World, minFee: int, blocks: seq<Block>)
    ensures var r := RulesIn(w, minFee, blocks);
            && r.params == MAIN_NET && r.pairHash == w.pairHash && r.minFee == minFee && r.token == TokenOf(First(w))
            && MAIN_NET in {MAIN_NET, TEST_NET, REG_NET}
  {
    hide First, ParentsOf, OutsIn;
  }

  lemma RootKnown(r: Rules, nodes: set<BlockNode>, root: BlockNode, w: World)
    requires TreeOk(r, nodes, root) && root in nodes && root.block == Origin(w)
    ensures RootIs(root, w)
  {
    hide AcceptedBranch, BlockSane, Root, CompactToBig, TreeLinked, First;
    assert NodeOk(r, root);
    NetTargets();
  }

  lemma OneIndexed(index: map<Hash, BlockNode>, root: BlockNode)
    requires IndexOk(index, {root})
    ensures forall x :: x in index ==> x == root.header.hash
  {
  }

  /** A block of the run that is new can be submitted and passes the checks of a block on its own. */
  lemma CanSubmit(bc: Blockchain, w: World, minFee: int, blocks: seq<Block>, k: nat)
    requires bc.Valid() && Follows(bc, w, minFee, blocks)
    requires Proper(w) && Numbered(w, blocks) && 0 < k < |blocks| && blocks[k].header.prevHash != ZERO_HASH
    ensures Submittable(bc.rules, blocks[k])
    ensures blocks[k].header.hash !in bc.index && blocks[k].header.hash !in bc.orphans ==> bc.Checked(blocks[k], 0, true)
    ensures bc.params == MAIN_NET
  {
    hide *;
    bc.Parts();
    FollowsMeans(bc, w, minFee, blocks);
    RulesAre(w, minFee, blocks);
    PlainSubmittable(w, minFee, blocks, k);
    NumberedPlain(w, blocks, k);
    SomeTarget();
    PlainPasses(w, bc.store.db.txs, minFee, blocks[k], 0);
    bc.CheckedMeans(blocks[k], 0, true);
  }

  lemma NumberedPlain(w: World, blocks: seq<Block>, k: nat)
    requires Numbered(w, blocks) && 0 < k < |blocks|
    ensures IsPlain(w, blocks[k])
  {
    hide IsPlain, Origin;
  }

  lemma SomeTarget()
    ensures 0 <= CompactToBig(MAIN_NET.powLimitBits)
  {
    hide CompactToBig, ChainParams.Valid;
    NetTargets();
  }

  lemma FitsInTree(bc: Blockchain, w: World, b: Block, prev: BlockNode)
    requires IndexOk(bc.index, bc.nodes) && prev in bc.nodes && bc.params == MAIN_NET
    requires IsPlain(w, b) && b.header.prevHash == prev.header.hash != ZERO_HASH && b.header.height == prev.header.height + 1
    requires Steady(Headers(prev)) && |Headers(prev)| == prev.header.height + 1
    ensures bc.Fits(b) && !bc.Unparented(b) && bc.index[b.header.prevHash] == prev
  {
    hide FitsOn, IsPlain, Steady, Headers;
    PlainFits(w, prev, b);
    bc.FitsMeans(b);
  }

  /** The node is the child of the other one for a block. */
  ghost predicate OnTop(prev: BlockNode, node: BlockNode, b: Block) {
    && node.parent == prev && node.header == b.header && node.header.height == prev.header.height + 1
    && node.workSum == CalcWork(MAIN_NET.powLimitBits) + prev.workSum
    && Path(node) == Path(prev) + [node]
    && Blocks(node) == Blocks(prev) + [b]
    && Steady(Headers(node)) && |Headers(node)| == node.header.height + 1
  }

  lemma TopMeans(prev: BlockNode, node: BlockNode, b: Block)
    ensures OnTop(prev, node, b) <==>
            && node.parent == prev && node.header == b.header && node.header.height == prev.header.height + 1
            && node.workSum == CalcWork(MAIN_NET.powLimitBits) + prev.workSum
            && Path(node) == Path(prev) + [node]
            && Blocks(node) == Blocks(prev) + [b]
            && Steady(Headers(node)) && |Headers(node)| == node.header.height + 1
  {
    hide Path, Blocks, Headers, Steady, CalcWork;
  }

  lemma Topped(w: World, prev: BlockNode, node: BlockNode, b: Block, index: map<Hash, BlockNode>)
    requires NodeFor(node, b, index) && b.header.prevHash in index && index[b.header.prevHash] == prev
    requires IsPlain(w, b) && b.header.height == prev.header.height + 1 < 719
    requires Steady(Headers(prev)) && |Headers(prev)| == prev.header.height + 1
    ensures OnTop(prev, node, b)
  {
    hide *;
    PlainHeader(w, b);
    NodeForMeans(node, b, index);
    PathsOnTop(prev, node);
    SteadyGrows(Headers(prev), node.header);
    TopMeans(prev, node, b);
  }

  lemma PathsOnTop(prev: BlockNode, node: BlockNode)
    requires node.parent == prev && node.header.height == prev.header.height + 1
    ensures Path(node) == Path(prev) + [node]
    ensures Headers(node) == Headers(prev) + [node.header]
    ensures Blocks(node) == Blocks(prev) + [node.block]
  {
  }
}

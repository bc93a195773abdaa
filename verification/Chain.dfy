/** The block tree with its heaviest branch kept in the store, and the pool of orphans. */
module Chain {
  import opened Types
  import opened Ledger
  import opened Compact
  import opened MedianTime
  import opened Difficulty
  import opened Merkle
  import opened Storage
  import opened TxValidator
  import opened BlockValidator
  import opened Conservation
  import opened BlockTree
  import opened OrphanPool
  import UnspentIndex

  /** What blocks are checked against. Hashes identify contents: a block's its parent, a transaction's its outputs. */
  datatype Rules = Rules(params: ChainParams, pairHash: PairHash, minFee: int, token: Token, parentOf: Hash -> Hash, outs: Contents)

  /** What holds of a block that passed the context-free checks. */
  ghost predicate BlockSane(r: Rules, b: Block) {
    && TxsSane(b.txs)
    && RootValid(r.pairHash, b)
    && DisjointSpends(b.txs)
    && b.header.prevHash == r.parentOf(b.header.hash)
    && TxsIdentified(b.txs, r.outs)
    && AllBalanced(r.outs, b.txs, r.minFee)
    && TargetOk(r.params, b.header.bits)
  }

  /** All transactions after the coinbase are final at the height. */
  ghost predicate AllFinal(txs: seq<Transaction>, height: nat) {
    forall k :: 0 < k < |txs| ==> IsFinalized(txs[k], height)
  }

  /** Target, time and finality of a block on top of a node. */
  ghost predicate FitsOn(p: ChainParams, prev: BlockNode, block: Block) {
    && HeaderFits(p, Headers(prev), block.header.bits, block.header.timestamp)
    && AllFinal(block.txs, prev.header.height + 1)
  }

  // ----- The tree -----

  ghost predicate NodeOk(r: Rules, n: BlockNode)
    requires r.params.Valid()
  {
    && n.block.header == n.header
    && BlockSane(r, n.block)
    && AcceptedBranch(r.params, Headers(n))
    && (n.parent != null ==>
          && n.header.prevHash == n.parent.header.hash
          && n.workSum == n.parent.workSum + CalcWork(n.header.bits)
          && AllFinal(n.block.txs, n.header.height))
  }

  ghost predicate TreeOk(r: Rules, nodes: set<BlockNode>, root: BlockNode) {
    && r.params.Valid()
    && TreeLinked(nodes, root)
    && forall n :: n in nodes ==> NodeOk(r, n)
  }

  /** The index holds every node under its hash. */
  ghost predicate IndexOk(index: map<Hash, BlockNode>, nodes: set<BlockNode>) {
    && (forall h :: h in index ==> index[h] in nodes && index[h].header.hash == h)
    && (forall n :: n in nodes ==> n.header.hash in index && index[n.header.hash] == n)
  }

  /** The flag marks the nodes from the root to the end of the best chain. */
  ghost predicate MainOk(nodes: set<BlockNode>, best: BlockNode)
    reads nodes
  {
    forall n :: n in nodes ==> (n.inMainChain <==> n in Path(best))
  }

  /** The side-chain cache holds the blocks of exactly the nodes off the main chain. */
  ghost predicate CacheOk(index: map<Hash, BlockNode>, best: BlockNode, cache: map<Hash, Block>) {
    && (forall h :: h in cache <==> h in index && index[h] !in Path(best))
    && (forall h :: h in cache ==> cache[h] == index[h].block)
  }

  /** The store is a replay of the blocks from the root to the end of the best chain. */
  ghost predicate StoreOk(store: ChainStore, best: BlockNode)
    reads store
  {
    ValidChain(Blocks(best)) && store.Holds(Replay(Blocks(best)))
  }

  /** More work, or as much of it and seen first. */
  ghost predicate Beats(best: BlockNode, n: BlockNode) {
    n.workSum < best.workSum || (n.workSum == best.workSum && best.arrival <= n.arrival)
  }

  ghost predicate WorkOk(nodes: set<BlockNode>, best: BlockNode) {
    forall n :: n in nodes ==> Beats(best, n)
  }

  ghost predicate ArrivedBefore(nodes: set<BlockNode>, clock: nat) {
    forall n :: n in nodes ==> n.arrival < clock
  }

  /** Neither on top of the best node nor heavier. */
  ghost predicate StaysAside(node: BlockNode, best: BlockNode) {
    node.parent != best && node.workSum <= best.workSum
  }

  /** Heavier than the best node and not on top of it, but not a valid chain. */
  ghost predicate Refusable(node: BlockNode, best: BlockNode) {
    node.parent != best && node.workSum > best.workSum && !ValidChain(Blocks(node))
  }

  /** Work strictly increases from parent to child. */
  lemma WorkIncreases(r: Rules, nodes: set<BlockNode>, root: BlockNode, n: BlockNode)
    requires TreeOk(r, nodes, root) && n in nodes && n.parent != null
    ensures n.parent.workSum < n.workSum
  {
    hide AcceptedBranch, Pow256, CompactToBig, CalcWork, TxsSane, RootValid, DisjointSpends, AllBalanced;
    assert NodeOk(r, n);
    WorkPositive(n.header.bits);
  }

  lemma {:induction false} WorkAlongPath(r: Rules, nodes: set<BlockNode>, root: BlockNode, n: BlockNode, k: nat)
    requires TreeOk(r, nodes, root) && n in nodes && k <= n.header.height
    ensures |Path(n)| == n.header.height + 1 && Path(n)[n.header.height] == n
    ensures k < n.header.height ==> Path(n)[k].workSum < n.workSum
    decreases n.header.height
  {
    hide NodeOk, Path;
    PathFacts(nodes, root, n);
    if k < n.header.height {
      StepBack(nodes, root, n, n.header.height);
      NextOnPath(nodes, root, n);
      WorkIncreases(r, nodes, root, n);
      assert NodeLinked(nodes, root, n);
      WorkAlongPath(r, nodes, root, n.parent, k);
    }
  }

  // ----- Pooled blocks -----

  ghost predicate ParentKnown(r: Rules, o: OrphanBlock) {
    ParentOf(o) == r.parentOf(HashOf(o))
  }

  ghost predicate AllPooledOk(r: Rules, orphans: map<Hash, OrphanBlock>) {
    forall h :: h in orphans ==> BlockSane(r, orphans[h].block) && ParentOf(orphans[h]) != ZERO_HASH
  }

  ghost predicate NoneIndexed(orphans: map<Hash, OrphanBlock>, index: map<Hash, BlockNode>) {
    forall h :: h in orphans ==> h !in index
  }

  /** No pooled block could be accepted: none has its parent in the tree. */
  ghost predicate NoneReady(orphans: map<Hash, OrphanBlock>, index: map<Hash, BlockNode>) {
    forall h :: h in orphans ==> ParentOf(orphans[h]) !in index
  }

  /** What a call of the node can change, besides its store. */
  datatype Snapshot = Snapshot(
    index: map<Hash, BlockNode>, nodes: set<BlockNode>, best: BlockNode, refused: bool, orphans: map<Hash, OrphanBlock>, oldest: OrphanBlock?)

  /** The node made for a block, with its parent and the work of its branch. */
  ghost predicate NodeFor(node: BlockNode, block: Block, index: map<Hash, BlockNode>) {
    && node.block == block && node.header == block.header
    && block.header.prevHash in index && node.parent == index[block.header.prevHash]
    && node.workSum == CalcWork(block.header.bits) + index[block.header.prevHash].workSum
  }

  lemma NodeForMeans(node: BlockNode, block: Block, index: map<Hash, BlockNode>)
    ensures NodeFor(node, block, index) <==>
            && node.block == block && node.header == block.header
            && block.header.prevHash in index && node.parent == index[block.header.prevHash]
            && node.workSum == CalcWork(block.header.bits) + index[block.header.prevHash].workSum
  {
    hide CalcWork;
  }

  // ----- Adding a node on top of the best chain -----

  lemma IndexGrows(index: map<Hash, BlockNode>, nodes: set<BlockNode>, node: BlockNode)
    requires IndexOk(index, nodes)
    requires node.header.hash in index ==> index[node.header.hash] == node
    ensures IndexOk(index[node.header.hash := node], nodes + {node})
  {
  }

  method Mark(ghost nodes: set<BlockNode>, ghost best: BlockNode, node: BlockNode)
    requires MainOk(nodes, best)
    requires Path(node) == Path(best) + [node]
    modifies node`inMainChain
    ensures MainOk(nodes + {node}, node)
  {
    hide Path;
    node.inMainChain := true;
  }

  method Unmark(ghost nodes: set<BlockNode>, node: BlockNode)
    requires MainOk(nodes, node)
    requires node.parent != null && Path(node) == Path(node.parent) + [node] && node !in Path(node.parent)
    modifies node`inMainChain
    ensures MainOk(nodes, node.parent)
  {
    hide Path;
    node.inMainChain := false;
  }

  /** A block that names the best chain's hash as its parent is a child of its last node. */
  lemma ParentIsBest(
    r: Rules, index: map<Hash, BlockNode>, nodes: set<BlockNode>, root: BlockNode, best: BlockNode, node: BlockNode)
    requires TreeOk(r, nodes + {node}, root) && TreeLinked(nodes, root)
    requires IndexOk(index, nodes)
    requires best in nodes && node !in Path(best)
    requires node.header.prevHash == best.header.hash
    ensures node.parent == best
  {
    hide AcceptedBranch, BlockSane;
    PathParents(nodes, root, best, 0);
    assert node != root;
    assert NodeLinked(nodes + {node}, root, node);
    assert NodeOk(r, node);
    UniqueIfSame(index, nodes, node.parent, best);
  }

  lemma HashIsNew(index: map<Hash, BlockNode>, nodes: set<BlockNode>, root: BlockNode, best: BlockNode, node: BlockNode, k: nat)
    requires TreeLinked(nodes, root)
    requires IndexOk(index, nodes)
    requires forall n :: n in nodes ==> n.block.header == n.header
    requires node.header.hash in index ==> index[node.header.hash] == node
    requires best in nodes && node !in Path(best)
    requires k < |Blocks(best)|
    ensures Blocks(best)[k].header.hash != node.header.hash
  {
    PathFacts(nodes, root, best);
    var n := Path(best)[k];
    assert n in nodes && n != node;
  }

  /** A child of the best chain's last node whose transactions fit the ledger extends the valid chain. */
  lemma ChainGrows(
    r: Rules, index: map<Hash, BlockNode>, nodes: set<BlockNode>, root: BlockNode, best: BlockNode, node: BlockNode)
    requires TreeOk(r, nodes + {node}, root) && TreeOk(r, nodes, root)
    requires IndexOk(index, nodes)
    requires node.header.hash in index ==> index[node.header.hash] == node
    requires best in nodes && node !in Path(best) && node.parent == best
    requires ValidChain(Blocks(best))
    requires AllContextOk(Replay(Blocks(best)), node.block.txs)
    ensures Connectable(Replay(Blocks(best)), node.block)
    ensures Replay(Blocks(best)).height >= 0 && node.block.header.height == Replay(Blocks(best)).height + 1
    ensures Path(node) == Path(best) + [node]
    ensures Blocks(node) == Blocks(best) + [node.block]
    ensures ValidChain(Blocks(node))
    ensures Replay(Blocks(node)) == ApplyBlock(Replay(Blocks(best)), node.block)
  {
    hide AcceptedBranch, TxsSane, RootValid, DisjointSpends, AllBalanced, TargetOk, AllContextOk, TxsIdentified, ApplyBlock, Headers, Path, Blocks;
    var l := Replay(Blocks(best));
    assert NodeOk(r, node) && NodeOk(r, best);
    assert NodeLinked(nodes + {node}, root, node);
    NextOnPath(nodes + {node}, root, node);
    PathFacts(nodes, root, best);
    ReplaySound(Blocks(best));
    ChainHeaders(Blocks(best), node.header.hash);
    forall k | 0 <= k < |Blocks(best)|
      ensures Blocks(best)[k].header.hash != node.header.hash
    {
      HashIsNew(index, nodes, root, best, node, k);
    }
    assert Blocks(node)[..|Blocks(node)| - 1] == Blocks(best);
  }

  // ----- Taking the last node off the best chain -----

  lemma ChainShrinks(r: Rules, nodes: set<BlockNode>, root: BlockNode, best: BlockNode)
    requires TreeOk(r, nodes, root)
    requires best in nodes && best.parent != null
    requires ValidChain(Blocks(best))
    ensures best.parent in nodes
    ensures Path(best) == Path(best.parent) + [best] && best !in Path(best.parent)
    ensures ValidChain(Blocks(best.parent))
    ensures Sound(Replay(Blocks(best.parent)))
    ensures Connectable(Replay(Blocks(best.parent)), best.block)
    ensures Replay(Blocks(best)) == ApplyBlock(Replay(Blocks(best.parent)), best.block)
    ensures RootValid(r.pairHash, best.block) && best.block.header == best.header
  {
    hide AcceptedBranch, TxsSane, RootValid, DisjointSpends, AllBalanced, TargetOk, Connectable, TxsIdentified, ApplyBlock, Headers, Path, Blocks, Sound;
    assert NodeOk(r, best);
    assert NodeLinked(nodes, root, best);
    NextOnPath(nodes, root, best);
    assert Blocks(best)[..|Blocks(best)| - 1] == Blocks(best.parent);
    ReplaySound(Blocks(best.parent));
  }

  class Blockchain {
    var index: map<Hash, BlockNode>
    var bestChain: BlockNode
    var blockCache: map<Hash, Block>
    const root: BlockNode
    const store: ChainStore
    const params: ChainParams
    const minFee: int
    const token: Token
    var orphans: map<Hash, OrphanBlock>
    var prevOrphans: map<Hash, seq<OrphanBlock>>
    var oldestOrphan: OrphanBlock?
    const maxOrphans: nat

    ghost const rules: Rules
    /** The indexed nodes. */
    ghost var nodes: set<BlockNode>
    /** How many nodes were made so far. */
    ghost var clock: nat
    /** Some reorganisation stopped at a block that does not fit. */
    ghost var refused: bool

    /**
     What becomes of a new node. All of it is fixed before the call: a node that is neither on top
     of the best one nor heavier stays aside; any other one becomes the best node if its branch is a
     valid chain. Otherwise a node on top of the best one is dropped, and any other one leaves the
     best chain at the last node on its branch up to which that is a valid chain.
     */
    ghost predicate Outcome(
      node: BlockNode, index0: map<Hash, BlockNode>, nodes0: set<BlockNode>, best0: BlockNode, refused0: bool, inMain: bool, ok: bool)
      reads this`index, this`nodes, this`bestChain, this`refused
    {
      && (ok <==> StaysAside(node, best0) || ValidChain(Blocks(node)))
      && (inMain <==> !StaysAside(node, best0) && ValidChain(Blocks(node)))
      && (refused <==> refused0 || Refusable(node, best0))
      && (if node.parent == best0 && !ok then index == index0 && nodes == nodes0
          else index == index0[node.header.hash := node] && nodes == nodes0 + {node})
      && (if inMain then bestChain == node
          else if Refusable(node, best0) then RefusedAbove(bestChain, node)
          else bestChain == best0)
    }

    ghost predicate RulesOk() {
      rules.params == params && rules.pairHash == store.pairHash && rules.minFee == minFee && rules.token == token
    }

    /** Tree, flags and store agree. */
    ghost predicate ChainOk()
      reads this`index, this`nodes, this`bestChain, store, nodes
    {
      && RulesOk()
      && IndexOk(index, nodes)
      && TreeOk(rules, nodes, root)
      && bestChain in nodes
      && MainOk(nodes, bestChain)
      && StoreOk(store, bestChain)
    }

    /** Side-chain cache and fork choice agree with the tree as well. */
    ghost predicate TreeValid()
      reads this`index, this`nodes, this`bestChain, this`blockCache, this`clock, this`refused, store, nodes
    {
      && ChainOk()
      && CacheOk(index, bestChain, blockCache)
      && ArrivedBefore(nodes, clock)
      && (!refused ==> WorkOk(nodes, bestChain))
    }

    /** The orphan pool: both maps agree, and no pooled block is in the tree. */
    ghost predicate PoolValid()
      reads this`orphans, this`prevOrphans, this`oldestOrphan, this`index
    {
      && PoolOk(orphans, prevOrphans)
      && AllPooledOk(rules, orphans)
      && NoneIndexed(orphans, index)
      && (oldestOrphan != null ==> ParentKnown(rules, oldestOrphan))
      && maxOrphans > 0
    }

    /** What every run keeps. */
    ghost predicate Valid()
      reads this, store, nodes
    {
      TreeValid() && PoolValid()
    }

    /** The genesis block is persisted without checks and becomes the root. */
    constructor (store: ChainStore, params: ChainParams, minFee: int, token: Token, maxOrphans: nat, genesis: Block, ghost rules: Rules)
      requires maxOrphans > 0
      requires store.Holds(EMPTY)
      requires rules.params == params && rules.pairHash == store.pairHash && rules.minFee == minFee && rules.token == token
      requires params.Valid()
      requires BlockSane(rules, genesis) && Connectable(EMPTY, genesis)
      modifies store
      ensures this.store == store && this.rules == rules && bestChain == root && root.block == genesis
      ensures Valid() && !refused && nodes == {root} && orphans == map[] && fresh(root)
      ensures oldestOrphan == null && this.maxOrphans == maxOrphans
    {
      hide BlockSane, AcceptedBranch, Path, Headers, Blocks, ValidChain, Replay, ApplyBlock, Sound, Connectable, TreeOk, Matches, MainOk, IndexOk, CacheOk, WorkOk, ArrivedBefore, PoolOk, AllPooledOk, NoneIndexed;
      GenesisChain(genesis);
      store.Persist(genesis, EMPTY);
      store.currentBlockHeight := genesis.header.height;
      var node := new BlockNode(genesis.header, null, genesis, 0);
      node.inMainChain := true;
      GenesisNode(rules, node);
      GenesisState(rules, node);
      this.store := store;
      this.params := params;
      this.minFee := minFee;
      this.token := token;
      this.rules := rules;
      index := map[genesis.header.hash := node];
      bestChain := node;
      blockCache := map[];
      root := node;
      nodes := {node};
      clock := 1;
      refused := false;
      orphans := map[];
      prevOrphans := map[];
      oldestOrphan := null;
      this.maxOrphans := maxOrphans;
    }

    // ----- Connecting and disconnecting one block -----

    /** The checks of all transactions against the ledger before the block. */
    method CheckContexts(txs: seq<Transaction>, ghost l: Ledger) returns (ok: bool)
      requires store.Holds(l) && l.height >= 0
      ensures ok <==> AllContextOk(l, txs)
    {
      hide ContextOk;
      for i := 0 to |txs|
        invariant forall k :: 0 <= k < i ==> ContextOk(l, txs[k])
      {
        var code := CheckTransactionContext(store, txs[i], l);
        if code != NoError {
          return false;
        }
      }
      return true;
    }

    method ConnectBlock(node: BlockNode, block: Block) returns (ok: bool)
      requires ChainOk()
      requires TreeOk(rules, nodes + {node}, root)
      requires node !in Path(bestChain) && !node.inMainChain
      requires node.header.hash in index ==> index[node.header.hash] == node
      requires block == node.block
      modifies this`index, this`nodes, this`bestChain, store, node`inMainChain
      ensures ChainOk()
      ensures ok <==> block.header.prevHash == old(bestChain).header.hash && AllContextOk(Replay(Blocks(old(bestChain))), block.txs)
      ensures ok ==> node.parent == old(bestChain) && bestChain == node
      ensures ok ==> index == old(index)[node.header.hash := node] && nodes == old(nodes) + {node}
      ensures !ok ==> bestChain == old(bestChain) && index == old(index) && nodes == old(nodes) && !node.inMainChain
    {
      hide AllContextOk, TreeOk, NodeOk, TreeLinked, Path, Blocks, ValidChain, Replay, ApplyBlock, IndexOk, MainOk, ChainStore.Holds, Connectable, BlockSane;
      ghost var best, l := bestChain, Replay(Blocks(bestChain));
      HeightKnown(rules, nodes, root, bestChain);
      ok := CheckContexts(block.txs, l);
      if !ok {
        return;
      }
      if block.header.prevHash != bestChain.header.hash {
        return false;
      }
      NodeFacts(rules, nodes + {node}, root, node);
      ParentIsBest(rules, index, nodes, root, best, node);
      ChainGrows(rules, index, nodes, root, best, node);
      IndexGrows(index, nodes, node);
      store.SaveBlock(block, l);
      Mark(nodes, best, node);
      index := index[node.header.hash := node];
      nodes := nodes + {node};
      bestChain := node;
    }

    /** The last block of the best chain goes to the side-chain cache. */
    method DisconnectBlock(node: BlockNode, block: Block) returns (ok: bool)
      requires ChainOk()
      requires node == bestChain && node.parent != null
      requires block == node.block
      modifies this`bestChain, this`blockCache, store, node`inMainChain
      ensures ChainOk()
      ensures ok
      ensures bestChain == node.parent
      ensures blockCache == old(blockCache)[node.header.hash := block]
    {
      hide TreeOk, NodeOk, TreeLinked, Path, Blocks, ValidChain, Replay, ApplyBlock, IndexOk, MainOk, ChainStore.Holds, Sound, Connectable, RootValid;
      if node.header.hash != bestChain.header.hash {
        return false;
      }
      ChainShrinks(rules, nodes, root, node);
      store.RollbackBlock(node.header.hash, Replay(Blocks(node.parent)), node.block);
      Unmark(nodes, node);
      blockCache := blockCache[node.header.hash := block];
      bestChain := node.parent;
      return true;
    }

    // ----- Reorganising -----

    /** The nodes above the last common node: those of the best chain downwards, those of the new branch upwards. */
    method GetReorganizeNodes(node: BlockNode) returns (detach: seq<BlockNode>, attach: seq<BlockNode>, ghost fork: nat)
      requires ChainOk()
      requires node in nodes
      ensures ForksAt(bestChain, node, fork)
      ensures attach == Path(node)[fork + 1..]
      ensures Downwards(bestChain, fork, detach)
    {
      hide TreeOk, StoreOk, TreeLinked, Path, MainOk, IndexOk;
      LinksKnown(rules, nodes, root);
      var ancestor: BlockNode;
      attach, ancestor := NewBranch(node, bestChain, nodes, root);
      fork := ancestor.header.height;
      detach := OldBranch(bestChain, ancestor, index, nodes, root);
    }

    /** Every detached block can be read from the store and goes to the cache. */
    method Detach(detach: seq<BlockNode>, ghost fork: nat) returns (ok: bool)
      requires ChainOk() && CacheOk(index, bestChain, blockCache)
      requires Downwards(bestChain, fork, detach)
      modifies this`bestChain, this`blockCache, store, nodes`inMainChain
      ensures ok
      ensures ChainOk() && CacheOk(index, bestChain, blockCache)
      ensures fork < |Path(old(bestChain))| && bestChain == Path(old(bestChain))[fork]
    {
      hide TreeOk, TreeLinked, Path, Blocks, MainOk, IndexOk, StoreOk, CacheOk, Rebuilt;
      ghost var best := bestChain;
      LinksKnown(rules, nodes, root);
      StepBack(nodes, root, best, best.header.height);
      for i := 0 to |detach|
        invariant ChainOk() && CacheOk(index, bestChain, blockCache)
        invariant bestChain == Path(best)[|Path(best)| - 1 - i]
      {
        ghost var k := |Path(best)| - 1 - i;
        NodesOnPath(nodes, root, best, k);
        StepBack(nodes, root, best, k);
        var n := detach[i];
        BestBlockStored(rules, nodes, root, store, bestChain);
        var block := store.GetBlock(n.header.hash);
        if block.None? {
          return false;
        }
        CacheDetach(index, nodes, root, bestChain, blockCache);
        ok := DisconnectBlock(n, block.value);
        if !ok {
          return false;
        }
      }
      return true;
    }

    /** One block goes from the cache to the main chain, or is refused and stays. */
    method AttachNext(n: BlockNode, ghost node: BlockNode, ghost k: nat) returns (ok: bool)
      requires ChainOk() && CacheOk(index, bestChain, blockCache)
      requires node in nodes && k + 1 < |Path(node)|
      requires bestChain == Path(node)[k] && n == Path(node)[k + 1] && n in nodes && n.parent != null
      modifies this`index, this`nodes, this`bestChain, this`blockCache, store, n`inMainChain
      ensures ChainOk() && CacheOk(index, bestChain, blockCache)
      ensures index == old(index) && nodes == old(nodes)
      ensures ok <==> ValidChain(Blocks(n))
      ensures ok ==> bestChain == n
      ensures !ok ==> bestChain == old(bestChain) && RefusedAbove(bestChain, node)
    {
      hide TreeOk, TreeLinked, Path, Blocks, MainOk, IndexOk, CacheOk, AllContextOk, NodeOk, Replay, ValidChain, ChainStore.Holds;
      ValidNeedsContext(rules, nodes, root, n);
      StepUp(rules, index, nodes, root, node, k, blockCache);
      FlagOff(nodes, bestChain, n);
      var block := blockCache[n.header.hash];
      ok := ConnectBlock(n, block);
      if ok {
        blockCache := blockCache - {n.header.hash};
      }
    }

    /** Blocks are attached until one is refused, which leaves the best chain ending below it. */
    method Attach(attach: seq<BlockNode>, ghost node: BlockNode, ghost fork: nat) returns (ok: bool)
      requires ChainOk() && CacheOk(index, bestChain, blockCache)
      requires node in nodes && fork < |Path(node)| && bestChain == Path(node)[fork]
      requires attach == Path(node)[fork + 1..]
      modifies this`index, this`nodes, this`bestChain, this`blockCache, store, nodes`inMainChain
      ensures ChainOk() && CacheOk(index, bestChain, blockCache)
      ensures index == old(index) && nodes == old(nodes)
      ensures ok <==> ValidChain(Blocks(node))
      ensures ok ==> bestChain == node
      ensures !ok ==> RefusedAbove(bestChain, node) && bestChain.workSum < node.workSum
    {
      hide TreeOk, TreeLinked, Path, Blocks, MainOk, IndexOk, CacheOk, NodeOk, RefusedAbove, ValidChain, ChainStore.Holds, Replay;
      LinksKnown(rules, nodes, root);
      StepBack(nodes, root, node, node.header.height);
      for i := 0 to |attach|
        invariant ChainOk() && CacheOk(index, bestChain, blockCache)
        invariant index == old(index) && nodes == old(nodes)
        invariant bestChain == Path(node)[fork + i]
      {
        NodesOnPath(nodes, root, node, fork + i + 1);
        StepBack(nodes, root, node, fork + i + 1);
        ok := AttachNext(attach[i], node, fork + i);
        if !ok {
          RefusedMeans(rules, nodes, root, bestChain, node);
          return false;
        }
      }
      return true;
    }

    method InCache(attach: seq<BlockNode>) returns (ok: bool)
      ensures ok <==> forall k :: 0 <= k < |attach| ==> attach[k].header.hash in blockCache
    {
      for i := 0 to |attach|
        invariant forall k :: 0 <= k < i ==> attach[k].header.hash in blockCache
      {
        if attach[i].header.hash !in blockCache {
          return false;
        }
      }
      return true;
    }

    /** The cache has every block to attach, so the error for a missing one does not occur. */
    method ReorganizeChain(detach: seq<BlockNode>, attach: seq<BlockNode>, ghost node: BlockNode, ghost fork: nat)
      returns (ok: bool)
      requires ChainOk() && CacheOk(index, bestChain, blockCache)
      requires node in nodes && ForksAt(bestChain, node, fork)
      requires attach == Path(node)[fork + 1..] && Downwards(bestChain, fork, detach)
      modifies this`index, this`nodes, this`bestChain, this`blockCache, store, nodes`inMainChain
      ensures ChainOk() && CacheOk(index, bestChain, blockCache)
      ensures index == old(index) && nodes == old(nodes)
      ensures ok <==> ValidChain(Blocks(node))
      ensures ok ==> bestChain == node
      ensures !ok ==> RefusedAbove(bestChain, node) && bestChain.workSum < node.workSum
    {
      hide TreeOk, TreeLinked, Path, Blocks, MainOk, IndexOk, StoreOk, CacheOk, NodeOk, RefusedAbove, ForksAt, Downwards, ValidChain;
      ForkNode(bestChain, node, fork);
      AllCached(rules, index, nodes, root, bestChain, node, fork, blockCache, attach);
      ok := InCache(attach);
      if !ok {
        return false;
      }
      ok := Detach(detach, fork);
      if !ok {
        return false;
      }
      ok := Attach(attach, node, fork);
    }

    // ----- Fork choice -----

    ghost predicate NewChild(node: BlockNode)
      reads this, node
    {
      && TreeOk(rules, nodes + {node}, root)
      && node !in nodes && node.parent != null && node.parent in nodes
      && node.header.hash !in index
      && !node.inMainChain && node.arrival == clock
    }

    /** The new block goes on top of the best chain. */
    method ExtendBest(node: BlockNode, block: Block) returns (ok: bool)
      requires TreeValid() && NewChild(node) && block == node.block
      requires node.parent.header.hash == bestChain.header.hash
      modifies this`index, this`nodes, this`bestChain, this`clock, store, node`inMainChain
      ensures TreeValid()
      ensures ok <==> ValidChain(Blocks(node))
      ensures old(WorkOk(nodes, bestChain)) ==> WorkOk(nodes, bestChain)
      ensures ok ==> index == old(index)[node.header.hash := node] && nodes == old(nodes) + {node} && bestChain == node
      ensures !ok ==> index == old(index) && nodes == old(nodes) && bestChain == old(bestChain)
    {
      hide TreeOk, TreeLinked, Path, Blocks, MainOk, IndexOk, CacheOk, NodeOk, ArrivedBefore, WorkOk, AllContextOk, Replay, ValidChain, ChainStore.Holds;
      UniqueIfSame(index, nodes, node.parent, bestChain);
      ValidNeedsContext(rules, nodes + {node}, root, node);
      NotOnPath(rules, nodes, root, bestChain, node);
      CacheExtend(index, nodes, root, bestChain, node, blockCache, rules);
      Arrive(nodes, clock, node);
      HeaviestAbove(rules, nodes, root, bestChain, node);
      ok := ConnectBlock(node, block);
      if ok {
        clock := clock + 1;
      }
    }

    /** The new block goes to a side chain. */
    method AddSide(node: BlockNode, block: Block)
      requires TreeValid() && NewChild(node) && block == node.block
      modifies this`index, this`nodes, this`blockCache, this`clock, node`inMainChain
      ensures ChainOk() && CacheOk(index, bestChain, blockCache) && ArrivedBefore(nodes, clock)
      ensures index == old(index)[node.header.hash := node] && nodes == old(nodes) + {node}
      ensures old(WorkOk(nodes, bestChain)) && node.workSum <= bestChain.workSum ==> WorkOk(nodes, bestChain)
      ensures old(WorkOk(nodes, bestChain)) && node.workSum > bestChain.workSum ==> WorkOk(nodes, node)
    {
      hide TreeOk, TreeLinked, Path, Blocks, IndexOk, StoreOk, CacheOk, NodeOk, ArrivedBefore, WorkOk;
      NotOnPath(rules, nodes, root, bestChain, node);
      CacheSide(index, nodes, bestChain, node, blockCache);
      IndexGrows(index, nodes, node);
      Arrive(nodes, clock, node);
      if node.workSum <= bestChain.workSum {
        LighterLater(nodes, bestChain, node, clock);
      } else {
        HeavierThanAll(nodes, bestChain, node);
      }
      blockCache := blockCache[node.header.hash := block];
      index := index[node.header.hash := node];
      nodes := nodes + {node};
      clock := clock + 1;
      node.inMainChain := false;
    }

    /** The heaviest branch is kept as the main chain. Of equally heavy ones the first stays. */
    method ConnectBestChain(node: BlockNode, block: Block) returns (inMain: bool, ok: bool)
      requires TreeValid() && NewChild(node) && block == node.block
      modifies this`index, this`nodes, this`bestChain, this`blockCache, this`clock, this`refused, store, nodes`inMainChain, node`inMainChain
      ensures TreeValid()
      ensures Outcome(node, old(index), old(nodes), old(bestChain), old(refused), inMain, ok)
      ensures nodes == old(nodes) || nodes == old(nodes) + {node}
      ensures old(WorkOk(nodes, bestChain)) ==> (WorkOk(nodes, bestChain) <==> !Refusable(node, old(bestChain)))
    {
      hide TreeOk, TreeLinked, Path, Blocks, MainOk, IndexOk, StoreOk, CacheOk, NodeOk, RefusedAbove, ForksAt, Downwards, ArrivedBefore, WorkOk, ValidChain;
      UniqueIfSame(index, nodes, node.parent, bestChain);
      if node.parent.header.hash == bestChain.header.hash {
        ok := ExtendBest(node, block);
        return ok, ok;
      }
      AddSide(node, block);
      if node.workSum <= bestChain.workSum {
        return false, true;
      }
      var detach, attach;
      ghost var fork;
      detach, attach, fork := GetReorganizeNodes(node);
      ok := ReorganizeChain(detach, attach, node, fork);
      if !ok {
        RefusedMeans(rules, nodes, root, bestChain, node);
        refused := true;
      }
      return ok, ok;
    }

    // ----- Accepting a block -----

    /** The store knows no block that the index does not know. */
    method BlockExists(hash: Hash) returns (r: bool)
      requires ChainOk()
      ensures r <==> hash in index
    {
      hide TreeOk, MainOk, IndexOk, StoreOk;
      StoredAreIndexed(rules, index, nodes, root, store, bestChain, hash);
      return hash in index || hash in store.db.headers;
    }

    /** No parent for a zero hash, an error for an unknown one. */
    method GetPrevNodeFromBlock(block: Block) returns (prev: BlockNode?, ok: bool)
      requires ChainOk()
      ensures ok <==> block.header.prevHash == ZERO_HASH || block.header.prevHash in index
      ensures prev == if ok && block.header.prevHash != ZERO_HASH then index[block.header.prevHash] else null
    {
      if block.header.prevHash == ZERO_HASH {
        return null, true;
      }
      if block.header.prevHash in index {
        return index[block.header.prevHash], true;
      }
      return null, false;
    }

    lemma TreeParts()
      requires TreeValid()
      ensures ChainOk() && IndexOk(index, nodes) && TreeOk(rules, nodes, root) && rules.params == params
    {
      hide TreeOk, StoreOk, IndexOk, MainOk, CacheOk;
    }

    lemma FitsMeans(block: Block)
      ensures Fits(block) <==>
              && block.header.prevHash != ZERO_HASH && block.header.prevHash in index
              && block.header.height == index[block.header.prevHash].header.height + 1
              && FitsOn(params, index[block.header.prevHash], block)
    {
    }

    lemma ChildReady(node: BlockNode)
      requires TreeOk(rules, nodes + {node}, root)
      requires node !in nodes && node.parent != null && node.parent in nodes && node.header.hash !in index
      requires !node.inMainChain && node.arrival == clock
      ensures NewChild(node)
    {
      hide TreeOk;
    }

    /** The parent is known, one below, and the block fits on top of it. */
    ghost predicate Fits(block: Block)
      reads this`index
    {
      && block.header.prevHash != ZERO_HASH && block.header.prevHash in index
      && block.header.height == index[block.header.prevHash].header.height + 1
      && FitsOn(params, index[block.header.prevHash], block)
    }

    /** Exactly a block that passes the contextual checks becomes a node, on the best chain or beside it. */
    method MaybeAcceptBlock(block: Block) returns (inMain: bool, ok: bool, ghost node: BlockNode?)
      requires TreeValid()
      requires BlockSane(rules, block) && block.header.hash !in index
      requires block.header.prevHash != ZERO_HASH || block.header.height != 0
      modifies this`index, this`nodes, this`bestChain, this`blockCache, this`clock, this`refused, store, nodes`inMainChain
      ensures TreeValid()
      ensures forall n :: n in nodes && n !in old(nodes) ==> fresh(n)
      ensures node != null <==> old(Fits(block))
      ensures node != null ==> NodeFor(node, block, old(index))
      ensures node != null && old(WorkOk(nodes, bestChain)) ==> (WorkOk(nodes, bestChain) <==> !Refusable(node, old(bestChain)))
      ensures node != null ==> Outcome(node, old(index), old(nodes), old(bestChain), old(refused), inMain, ok)
      ensures node == null ==> !ok && !inMain
      ensures node == null ==> index == old(index) && nodes == old(nodes) && bestChain == old(bestChain) && refused == old(refused)
    {
      hide *;
      TreeParts();
      node := null;
      var prev;
      prev, ok := GetPrevNodeFromBlock(block);
      FitsMeans(block);
      if !ok {
        return false, false, null;
      }
      var height := 0;
      if prev != null {
        height := prev.header.height + 1;
      }
      if block.header.height != height {
        return false, false, null;
      }
      IndexedNode(index, nodes, block.header.prevHash);
      LinksKnown(rules, nodes, root);
      BranchKnown(rules, nodes, root, prev);
      SaneNotEmpty(rules, block);
      ok := PowCheckBlockContext(params, block, prev, nodes, root);
      if !ok {
        return false, false, null;
      }
      var newNode := new BlockNode(block.header, prev, block, clock);
      node := newNode;
      ChildNode(rules, nodes, root, prev, newNode);
      ChildReady(newNode);
      NodeForMeans(newNode, block, index);
      inMain, ok := ConnectBestChain(newNode, block);
    }


    // ----- Orphans -----

    method RemoveOrphanBlock(o: OrphanBlock)
      requires PoolValid() && ParentKnown(rules, o)
      modifies this`orphans, this`prevOrphans
      ensures PoolValid()
      ensures orphans == old(orphans) - {HashOf(o)}
    {
      hide PoolOk;
      SameParent(rules, orphans, prevOrphans, o);
      orphans, prevOrphans := Remove(orphans, prevOrphans, o);
    }

    /** Exactly the expired blocks leave the pool. */
    method ExpireOrphans(now: int)
      requires PoolValid()
      modifies this`orphans, this`prevOrphans, this`oldestOrphan
      ensures PoolValid()
      ensures orphans == Live(old(orphans), now)
      ensures oldestOrphan == Remembered(old(oldestOrphan), old(orphans), now)
    {
      hide *;
      var todo := orphans.Keys;
      ghost var dropped: set<Hash> := {};
      SiftStart(oldestOrphan, orphans, now);
      while todo != {}
        invariant PoolValid()
        invariant Sifted(old(orphans), now, todo, dropped)
        invariant orphans == old(orphans) - dropped
        invariant oldestOrphan == Kept(old(oldestOrphan), old(orphans), dropped)
        decreases |todo|
      {
        var h := PickFrom(todo);
        SiftNext(old(orphans), now, todo, dropped, h);
        todo := todo - {h};
        var o := orphans[h];
        InPool(h);
        if now > o.expiration {
          KeptNext(old(oldestOrphan), old(orphans), dropped, h);
          dropped := dropped + {h};
          RemoveOrphanBlock(o);
          if oldestOrphan == o {
            ForgetOldest();
          }
        }
      }
      SiftEnd(old(oldestOrphan), old(orphans), now, dropped);
    }

    method ForgetOldest()
      requires PoolValid()
      modifies this`oldestOrphan
      ensures PoolValid() && oldestOrphan == null
    {
      hide PoolOk, AllPooledOk, NoneIndexed, ParentKnown;
      oldestOrphan := null;
    }

    lemma InPool(h: Hash)
      requires PoolValid() && h in orphans
      ensures HashOf(orphans[h]) == h && ParentKnown(rules, orphans[h])
    {
      hide PoolOk, BlockSane, ParentKnown, NoneIndexed, HashOf;
      PooledKnown(rules, orphans, prevOrphans, h);
    }

    /** Nothing pooled expires before the chosen block, which stays the one of before unless a pooled one expires sooner. */
    method UpdateOldest()
      requires PoolValid()
      modifies this`oldestOrphan
      ensures PoolValid()
      ensures ChosenFrom(oldestOrphan, old(oldestOrphan), orphans)
    {
      hide PoolOk, BlockSane;
      var todo := orphans.Keys;
      while todo != {}
        invariant todo <= orphans.Keys
        invariant PoolValid()
        invariant todo == orphans.Keys || oldestOrphan != null
        invariant forall h :: h in orphans && h !in todo ==> oldestOrphan.expiration <= orphans[h].expiration
        invariant oldestOrphan == old(oldestOrphan) || (oldestOrphan != null && Pooled(oldestOrphan, orphans))
        invariant old(oldestOrphan) != null && Oldest(old(oldestOrphan), orphans) ==> oldestOrphan == old(oldestOrphan)
        decreases |todo|
      {
        var h := PickFrom(todo);
        todo := todo - {h};
        PooledKnown(rules, orphans, prevOrphans, h);
        if oldestOrphan == null || orphans[h].expiration < oldestOrphan.expiration {
          oldestOrphan := orphans[h];
        }
      }
    }

    /** Makes room if need be and possible, then adds the block to both maps. */
    method AddOrphanBlock(block: Block, now: int)
      requires PoolValid()
      requires BlockSane(rules, block) && block.header.prevHash != ZERO_HASH
      requires block.header.hash !in orphans && block.header.hash !in index
      modifies this`orphans, this`prevOrphans, this`oldestOrphan
      ensures PoolValid()
      ensures Added(old(orphans), old(oldestOrphan), now, maxOrphans, block, orphans, oldestOrphan)
      ensures forall h :: h in orphans && h != block.header.hash ==> h in old(orphans) && orphans[h] == old(orphans)[h]
      ensures |orphans| ==
              |Live(old(orphans), now)| + if NoneLeaves(old(oldestOrphan), old(orphans), now, maxOrphans) then 1 else 0
    {
      hide PoolOk, BlockSane, AllPooledOk, NoneIndexed, Live, Gone, OneLess, NoneLeaves, ChosenFrom, Remembered, Added;
      MakeRoom(now);
      var o := new OrphanBlock(block, now + ONE_HOUR);
      Leftover(now, block.header.hash, old(orphans), old(oldestOrphan));
      OneMorePooled(rules, orphans, index, o);
      AddedNow(old(orphans), old(oldestOrphan), now, maxOrphans, o, orphans, oldestOrphan);
      orphans, prevOrphans := Add(orphans, prevOrphans, o);
      AddedSize(old(orphans), old(oldestOrphan), now, maxOrphans, block, orphans, oldestOrphan);
    }

    lemma Leftover(now: int, hash: Hash, before: map<Hash, OrphanBlock>, o: OrphanBlock?)
      requires if NoneLeaves(o, before, now, maxOrphans) then orphans == Live(before, now) else OneLess(o, Live(before, now), orphans)
      requires hash !in before
      ensures hash !in orphans
    {
      hide Live, NoneLeaves, OneLess;
      RoomLeft(o, before, now, orphans);
    }

    lemma OldestKnown()
      requires PoolValid()
      ensures oldestOrphan != null ==> ParentKnown(rules, oldestOrphan)
      ensures |orphans| + 1 > maxOrphans ==> orphans != map[]
    {
      hide PoolOk, AllPooledOk, NoneIndexed;
    }

    method DropOldest()
      requires PoolValid() && oldestOrphan != null
      modifies this`orphans, this`prevOrphans, this`oldestOrphan
      ensures PoolValid()
      ensures orphans == old(orphans) - {HashOf(old(oldestOrphan))} && oldestOrphan == null
    {
      hide PoolOk, AllPooledOk, NoneIndexed, ParentKnown;
      RemoveOrphanBlock(oldestOrphan);
      oldestOrphan := null;
    }

    /**
     The expired blocks leave the pool and, if it is full then, the oldest one does. But the block
     remembered as the oldest may have left the pool before: then none does.
     */
    method MakeRoom(now: int)
      requires PoolValid()
      modifies this`orphans, this`prevOrphans, this`oldestOrphan
      ensures PoolValid()
      ensures if NoneLeaves(old(oldestOrphan), old(orphans), now, maxOrphans) then orphans == Live(old(orphans), now)
              else OneLess(old(oldestOrphan), Live(old(orphans), now), orphans)
      ensures if |Live(old(orphans), now)| < maxOrphans
              then ChosenFrom(oldestOrphan, Remembered(old(oldestOrphan), old(orphans), now), Live(old(orphans), now))
              else oldestOrphan == null
    {
      hide *;
      ExpireOrphans(now);
      UpdateOldest();
      OldestKnown();
      RoomMeans(old(oldestOrphan), old(orphans), now, maxOrphans);
      if |orphans| + 1 > maxOrphans {
        ghost var chosen := oldestOrphan;
        ChosenSome(chosen, Remembered(old(oldestOrphan), old(orphans), now), orphans);
        DropOldest();
        RoomMade(old(oldestOrphan), chosen, old(orphans), now, orphans);
      }
    }

    /** The first pooled child of a block leaves the pool and is submitted. */
    method SubmitFirst(parent: Hash) returns (ok: bool, hash: Hash)
      requires Valid() && parent in prevOrphans
      modifies this, store, nodes`inMainChain
      ensures Valid()
      ensures forall n :: n in nodes && n !in old(nodes) ==> fresh(n)
      ensures hash in old(orphans) && ParentOf(old(orphans)[hash]) == parent
      ensures orphans == old(orphans) - {hash}
      ensures old(index).Keys <= index.Keys <= old(index).Keys + {hash}
      ensures ok ==> hash in index
      ensures oldestOrphan == old(oldestOrphan)
      ensures (old(refused) ==> refused) && (ok ==> refused == old(refused))
    {
      hide *;
      Parts();
      PoolKnown();
      FirstChild(orphans, prevOrphans, parent);
      var o := prevOrphans[parent][0];
      hash := o.block.header.hash;
      OrphanKnown(o);
      RemoveOrphanBlock(o);
      PoolGives();
      var inMain;
      ghost var node;
      inMain, ok, node := MaybeAcceptBlock(o.block);
      Accepted(node, o.block, old(index), old(nodes), old(bestChain), old(refused), inMain, ok);
      StillPooled(orphans, old(index), index, hash);
      Join();
    }

    lemma OrphanKnown(o: OrphanBlock)
      requires PoolParts() && NoneIndexed(orphans, index) && HashOf(o) in orphans && orphans[HashOf(o)] == o
      ensures HashOf(o) == o.block.header.hash && o.block.header.hash !in index && ParentKnown(rules, o)
      ensures BlockSane(rules, o.block) && o.block.header.prevHash != ZERO_HASH
    {
      hide PoolOk, BlockSane, ParentKnown;
      PooledKnown(rules, orphans, prevOrphans, HashOf(o));
    }

    lemma PoolGives()
      requires PoolValid()
      ensures PoolParts() && NoneIndexed(orphans, index)
    {
      hide PoolOk, AllPooledOk, NoneIndexed, ParentKnown;
    }

    lemma PoolKnown()
      requires Valid()
      ensures PoolOk(orphans, prevOrphans) && NoneIndexed(orphans, index)
    {
      hide TreeOk, StoreOk, IndexOk, MainOk, CacheOk, PoolOk;
    }

    /** All pooled children of a block are submitted, until one is rejected. */
    method SubmitChildren(parent: Hash, queue: seq<Hash>, ghost start: map<Hash, OrphanBlock>, ghost h: Hash, ghost trace: seq<Hash>)
      returns (ok: bool, queue': seq<Hash>, ghost added: seq<Hash>)
      requires Valid()
      requires Traced(start, orphans, h, trace)
      requires parent == h || parent in trace
      modifies this, store, nodes`inMainChain
      ensures Valid()
      ensures forall n :: n in nodes && n !in old(nodes) ==> fresh(n)
      ensures Traced(start, orphans, h, trace + added)
      ensures Shrunk(old(orphans), orphans, added) && Within(old(index).Keys, index.Keys, added)
      ensures ok ==> queue' == queue + added
      ensures ok ==> forall x :: x in orphans ==> ParentOf(orphans[x]) != parent
      ensures oldestOrphan == old(oldestOrphan)
      ensures added == [] ==> ok && index == old(index) && nodes == old(nodes) && bestChain == old(bestChain)
      ensures (old(refused) ==> refused) && (ok ==> refused == old(refused))
    {
      hide *;
      queue', added := queue, [];
      NothingSubmitted(orphans, index.Keys, trace);
      while parent in prevOrphans
        invariant Valid()
        invariant forall n :: n in nodes && n !in old(nodes) ==> fresh(n)
        invariant Traced(start, orphans, h, trace + added)
        invariant Shrunk(old(orphans), orphans, added) && Within(old(index).Keys, index.Keys, added)
        invariant queue' == queue + added
        invariant refused == old(refused) && oldestOrphan == old(oldestOrphan)
        invariant added == [] ==> index == old(index) && nodes == old(nodes) && bestChain == old(bestChain)
        decreases |orphans|
      {
        ghost var before, indexed := orphans, index.Keys;
        var hash;
        ok, hash := SubmitFirst(parent);
        OneSubmitted(start, before, h, trace, added, hash);
        ShrunkMore(old(orphans), before, added, hash);
        WithinMore(old(index).Keys, indexed, index.Keys, added, hash);
        Associative(queue, added, [hash]);
        added := added + [hash];
        if !ok {
          return;
        }
        queue' := queue' + [hash];
      }
      PoolKnown();
      FirstChild(orphans, prevOrphans, parent);
      ok := true;
    }

    /**
     The pooled descendants of an accepted block are submitted, each after its parent. Without an
     error these are all of them, and no block left in the pool is a child of one of them.
     */
    method ProcessOrphans(hash: Hash) returns (ok: bool, ghost trace: seq<Hash>)
      requires Valid()
      modifies this, store, nodes`inMainChain
      ensures Valid()
      ensures forall n :: n in nodes && n !in old(nodes) ==> fresh(n)
      ensures Traced(old(orphans), orphans, hash, trace)
      ensures ok ==> forall x :: x in trace <==> Descends(old(orphans), hash, x)
      ensures ok ==> forall x :: x in orphans ==> ParentOf(orphans[x]) != hash && ParentOf(orphans[x]) !in trace
      ensures Within(old(index).Keys, index.Keys, trace)
      ensures oldestOrphan == old(oldestOrphan)
      ensures trace == [] ==> ok && index == old(index) && nodes == old(nodes) && bestChain == old(bestChain)
      ensures (old(refused) ==> refused) && (ok ==> refused == old(refused))
    {
      hide *;
      ghost var start := orphans;
      var queue := [hash];
      trace := [];
      ghost var done: set<Hash> := {};
      QueueStart(start, index.Keys, hash);
      while queue != []
        invariant Valid()
        invariant forall n :: n in nodes && n !in old(nodes) ==> fresh(n)
        invariant Traced(start, orphans, hash, trace)
        invariant Covered(hash, trace, queue, done) && NoChildOf(orphans, done)
        invariant Within(old(index).Keys, index.Keys, trace)
        invariant refused == old(refused) && oldestOrphan == old(oldestOrphan)
        invariant trace == [] ==> index == old(index) && nodes == old(nodes) && bestChain == old(bestChain)
        decreases |orphans|, |queue|
      {
        ghost var before, indexed, was := orphans, index.Keys, queue;
        var parent := queue[0];
        QueueHead(hash, trace, queue, done);
        ghost var added;
        ok, queue, added := SubmitChildren(parent, queue[1..], start, hash, trace);
        WithinBoth(old(index).Keys, indexed, index.Keys, trace, added);
        if !ok {
          trace := trace + added;
          return;
        }
        QueueNext(hash, trace, was, done, added);
        NoChildNext(start, before, orphans, hash, trace, added, done, parent);
        Progress(before, orphans, added, was, queue);
        trace := trace + added;
        done := done + {parent};
      }
      QueueEmpty(start, orphans, hash, trace, done);
      ok := true;
    }


    // ----- Processing a block -----

    lemma Parts()
      requires Valid()
      ensures TreeValid() && ChainOk() && PoolValid()
      ensures TreeOk(rules, nodes, root) && bestChain in nodes && StoreOk(store, bestChain)
      ensures rules.params == params && rules.pairHash == store.pairHash && rules.minFee == minFee && rules.token == token
      ensures PoolParts()
    {
      hide TreeOk, StoreOk, IndexOk, MainOk, CacheOk, PoolOk;
    }

    ghost predicate PoolParts()
      reads this`orphans, this`prevOrphans, this`oldestOrphan
    {
      && PoolOk(orphans, prevOrphans)
      && AllPooledOk(rules, orphans)
      && (oldestOrphan != null ==> ParentKnown(rules, oldestOrphan))
      && maxOrphans > 0
    }

    lemma Join()
      requires TreeValid()
      requires PoolValid() || (PoolParts() && NoneIndexed(orphans, index))
      ensures Valid()
    {
      hide TreeValid, PoolOk, AllPooledOk, NoneIndexed;
    }

    lemma Accepted(
      node: BlockNode?, block: Block, index0: map<Hash, BlockNode>, nodes0: set<BlockNode>, best0: BlockNode, refused0: bool, inMain: bool, ok: bool)
      requires node != null ==> NodeFor(node, block, index0) && Outcome(node, index0, nodes0, best0, refused0, inMain, ok)
      requires node == null ==> !ok && index == index0 && refused == refused0
      ensures index0.Keys <= index.Keys <= index0.Keys + {block.header.hash}
      ensures ok ==> block.header.hash in index
      ensures (refused0 ==> refused) && (ok ==> refused == refused0)
    {
      hide RefusedAbove, ValidChain, Blocks, CalcWork;
    }

    ghost function Now(): Snapshot
      reads this`index, this`nodes, this`bestChain, this`refused, this`orphans, this`oldestOrphan
    {
      Snapshot(index, nodes, bestChain, refused, orphans, oldestOrphan)
    }

    lemma NowIs()
      ensures Now() == Snapshot(index, nodes, bestChain, refused, orphans, oldestOrphan)
    {
    }

    /**
     What becomes of a block whose parent is known. Without a node nothing changes. With one the
     pooled descendants follow, and if none does the outcome is that of the block alone. The block
     remembered as the oldest stays the same.
     */
    ghost predicate Taken(was: Snapshot, block: Block, node: BlockNode?, trace: seq<Hash>, inMain: bool, ok: bool)
      reads this
    {
      && (node == null ==> !ok && trace == [] && Now() == was)
      && (node != null ==> NodeFor(node, block, was.index))
      && (node != null && trace == [] ==> Outcome(node, was.index, was.nodes, was.best, was.refused, inMain, ok))
      && (node != null && (StaysAside(node, was.best) || ValidChain(Blocks(node))) && !ok ==> trace != [])
      && Traced(was.orphans, orphans, block.header.hash, trace) && oldestOrphan == was.oldest
      && Within(was.index.Keys, index.Keys, [block.header.hash] + trace)
      && (ok ==> forall x :: x in trace <==> Descends(was.orphans, block.header.hash, x))
    }

    /** A rejected block, and one that nothing follows. */
    lemma TakenAlone(was: Snapshot, block: Block, node: BlockNode?, inMain: bool, ok: bool)
      requires node == null ==> !ok && Now() == was
      requires node != null ==> NodeFor(node, block, was.index) && Outcome(node, was.index, was.nodes, was.best, was.refused, inMain, ok)
      requires orphans == was.orphans && oldestOrphan == was.oldest && !ok
      ensures Taken(was, block, node, [], false, false)
    {
      hide RefusedAbove, ValidChain, Blocks, Descends, ParentOf;
      if node != null {
        Accepted(node, block, was.index, was.nodes, was.best, was.refused, inMain, ok);
      }
      forall x | x in index.Keys
        ensures x in was.index.Keys || x in [block.header.hash] + []
      {
      }
    }

    /** A block that is accepted, and the pooled ones that follow. */
    lemma TakenWith(
      was: Snapshot, block: Block, node: BlockNode, trace: seq<Hash>, indexed: set<Hash>, inMain: bool, ok: bool)
      requires NodeFor(node, block, was.index)
      requires trace == [] ==> ok && Outcome(node, was.index, was.nodes, was.best, was.refused, inMain, ok)
      requires was.index.Keys <= indexed <= was.index.Keys + {block.header.hash} && Within(indexed, index.Keys, trace)
      requires Traced(was.orphans, orphans, block.header.hash, trace) && oldestOrphan == was.oldest
      requires ok ==> forall x :: x in trace <==> Descends(was.orphans, block.header.hash, x)
      ensures Taken(was, block, node, trace, inMain, ok)
    {
      hide Outcome, RefusedAbove, ValidChain, Blocks, Descends, Traced, NodeFor;
    }

    /** An accepted block is followed by the orphans that descend from it. */
    method AcceptAndFollow(block: Block)
      returns (inMain: bool, isOrphan: bool, ok: bool, ghost node: BlockNode?, ghost trace: seq<Hash>)
      requires Valid() && BlockSane(rules, block)
      requires block.header.hash !in index && block.header.hash !in orphans
      requires block.header.prevHash != ZERO_HASH || block.header.height != 0
      modifies this, store, nodes`inMainChain
      ensures Valid()
      ensures forall n :: n in nodes && n !in old(nodes) ==> fresh(n)
      ensures node != null <==> old(Fits(block))
      ensures Taken(old(Now()), block, node, trace, inMain, ok)
      ensures node != null && trace == [] && old(WorkOk(nodes, bestChain)) ==>
                (WorkOk(nodes, bestChain) <==> !Refusable(node, old(bestChain)))
      ensures ok && old(NoneReady(orphans, index)) ==> NoneReady(orphans, index)
      ensures ok ==> !isOrphan && block.header.hash in index
      ensures (old(refused) ==> refused) && (ok ==> refused == old(refused))
    {
      hide *;
      Parts();
      PoolKnown();
      NowIs();
      ghost var was := Now();
      inMain, ok, node := MaybeAcceptBlock(block);
      trace := [];
      Accepted(node, block, old(index), old(nodes), old(bestChain), old(refused), inMain, ok);
      StillPooled(orphans, old(index), index, block.header.hash);
      Join();
      NowIs();
      if !ok {
        TakenAlone(was, block, node, inMain, ok);
        return false, true, false, node, trace;
      }
      ghost var indexed, pooled := index.Keys, orphans;
      ok, trace := ProcessOrphans(block.header.hash);
      TakenWith(was, block, node, trace, indexed, inMain && ok, ok);
      if !ok {
        return false, false, false, node, trace;
      }
      StillWaiting(old(index), indexed, index, pooled, orphans, block.header.hash, trace);
      return inMain, false, true, node, trace;
    }

    /** The block is new and passes the checks of a block on its own. */
    ghost predicate Checked(block: Block, powHash: Hash, others: bool)
      reads this`index, this`orphans, store
    {
      && block.header.hash !in index && block.header.hash !in orphans
      && others && SanityOk(store.db.txs, store.pairHash, params.powLimit, minFee, token, block, powHash)
    }

    /** The block names a parent that is not known. */
    predicate Unparented(block: Block)
      reads this`index
    {
      block.header.prevHash != ZERO_HASH && block.header.prevHash !in index
    }

    /**
     Every way a block can go, all of it fixed before the call: known or not sane, and nothing
     changes; without a known parent, and it is pooled; or accepted or rejected on top of its parent.
     */
    method ProcessBlock(block: Block, powHash: Hash, others: bool, now: int)
      returns (inMain: bool, isOrphan: bool, ok: bool, ghost node: BlockNode?, ghost trace: seq<Hash>)
      requires Valid() && Submittable(rules, block)
      modifies this, store, nodes`inMainChain
      ensures Valid()
      ensures forall n :: n in nodes && n !in old(nodes) ==> fresh(n)
      ensures !old(Checked(block, powHash, others)) ==> !ok && !isOrphan && Now() == old(Now())
      ensures old(Checked(block, powHash, others) && Unparented(block)) ==>
                && ok && isOrphan
                && Now().(orphans := old(orphans), oldest := old(oldestOrphan)) == old(Now())
                && Added(old(orphans), old(oldestOrphan), now, maxOrphans, block, orphans, oldestOrphan)
      ensures old(Checked(block, powHash, others) && !Unparented(block)) ==>
                && (node != null <==> old(Fits(block)))
                && Taken(old(Now()), block, node, trace, inMain, ok)
                && (node != null && trace == [] && old(WorkOk(nodes, bestChain)) ==>
                      (WorkOk(nodes, bestChain) <==> !Refusable(node, old(bestChain))))
      ensures ok || isOrphan || node != null ==> Backed(block.header.bits, powHash)
      ensures ok && old(NoneReady(orphans, index)) ==> NoneReady(orphans, index)
      ensures ok && isOrphan ==> block.header.hash in orphans && index == old(index)
      ensures ok && !isOrphan ==> block.header.hash in index
      ensures (old(refused) ==> refused) && (ok ==> refused == old(refused))
    {
      hide *;
      Parts();
      CheckedMeans(block, powHash, others);
      NowIs();
      node, trace := null, [];
      var known := BlockExists(block.header.hash);
      if known || block.header.hash in orphans {
        return false, false, false, node, trace;
      }
      ok := PowCheckBlockSanity(store.db.txs, store.pairHash, params.powLimit, minFee, token, block, powHash, others);
      if !ok {
        return false, false, false, node, trace;
      }
      LedgerIdentified(rules, nodes, root, store, bestChain);
      SanityGivesBlockSane(rules, store.db.txs, block, powHash);
      if block.header.prevHash != ZERO_HASH {
        known := BlockExists(block.header.prevHash);
        if !known {
          AddOrphanBlock(block, now);
          AddedBlock(old(orphans), old(oldestOrphan), now, maxOrphans, block, orphans, oldestOrphan);
          OneMoreWaiting(old(orphans), orphans, index, block);
          Join();
          NowIs();
          return false, true, true, node, trace;
        }
      }
      inMain, isOrphan, ok, node, trace := AcceptAndFollow(block);
    }

    lemma CheckedMeans(block: Block, powHash: Hash, others: bool)
      ensures Checked(block, powHash, others) <==>
              && block.header.hash !in index && block.header.hash !in orphans
              && others && SanityOk(store.db.txs, store.pairHash, params.powLimit, minFee, token, block, powHash)
      ensures Unparented(block) <==> block.header.prevHash != ZERO_HASH && block.header.prevHash !in index
    {
      hide SanityOk;
    }

    // ----- Whole runs -----

    /**
     Whatever blocks are submitted, in whatever order and with whatever forks, the invariant holds.
     Every block that is taken is backed by its work. As long as every call succeeds no
     reorganisation is refused, and no block that could be accepted waits in the pool.
     */
    method Run(steps: seq<Submission>) returns (oks: seq<bool>)
      requires Valid()
      requires AllSubmittable(rules, steps)
      modifies this, store, nodes`inMainChain
      ensures Valid()
      ensures forall n :: n in nodes && n !in old(nodes) ==> fresh(n)
      ensures |oks| == |steps|
      ensures forall k :: 0 <= k < |steps| && oks[k] ==> Backed(steps[k].block.header.bits, steps[k].powHash)
      ensures false !in oks ==> refused == old(refused)
      ensures false !in oks && old(NoneReady(orphans, index)) ==> NoneReady(orphans, index)
    {
      hide *;
      oks := [];
      for i := 0 to |steps|
        invariant Valid()
        invariant forall n :: n in nodes && n !in old(nodes) ==> fresh(n)
        invariant |oks| == i
        invariant forall k :: 0 <= k < i && oks[k] ==> Backed(steps[k].block.header.bits, steps[k].powHash)
        invariant false !in oks ==> refused == old(refused)
        invariant false !in oks && old(NoneReady(orphans, index)) ==> NoneReady(orphans, index)
      {
        SubmittableAt(rules, steps, i);
        var inMain, isOrphan, ok, node, trace := ProcessBlock(steps[i].block, steps[i].powHash, steps[i].others, steps[i].now);
        oks := oks + [ok];
      }
    }

    /** The store is a replay of the best branch, and its two unspent indexes agree. */
    lemma StoreIsReplay()
      requires Valid()
      ensures ValidChain(Blocks(bestChain))
      ensures Matches(store.db, Replay(Blocks(bestChain)))
      ensures UnspentIndex.IndexesAgree(store.db.unspent, store.db.utxos)
    {
      hide *;
      Parts();
      StoreHolds(store, bestChain);
      MatchesAgree(store.db, Replay(Blocks(bestChain)));
    }

    /**
     The unspent total of every asset is what coinbases issued less the differences of other
     transactions. It is no more than what coinbases issued as long as no balance check wraps around.
     */
    lemma TotalsConserved(asset: Hash)
      requires Valid()
      ensures Total(Replay(Blocks(bestChain)).coins, asset) ==
              IssuedBy(Blocks(bestChain), asset) - FeesOf(rules.outs, Blocks(bestChain), asset)
      ensures forall k :: 0 <= k < |Blocks(bestChain)| ==> AllBalanced(rules.outs, Blocks(bestChain)[k].txs, minFee)
      ensures 0 <= minFee && FitsInt64(minFee) &&
              (forall k :: 0 <= k < |Blocks(bestChain)| ==> AllNoUnderflow(rules.outs, Blocks(bestChain)[k].txs, asset)) ==>
                Total(Replay(Blocks(bestChain)).coins, asset) <= IssuedBy(Blocks(bestChain), asset)
    {
      hide *;
      Parts();
      StoreHolds(store, bestChain);
      PathIdentified(rules, nodes, root, bestChain);
      TotalOfChain(rules.outs, Blocks(bestChain), asset);
      if 0 <= minFee && FitsInt64(minFee) &&
         (forall k :: 0 <= k < |Blocks(bestChain)| ==> AllNoUnderflow(rules.outs, Blocks(bestChain)[k].txs, asset)) {
        NoMoreThanIssued(rules.outs, Blocks(bestChain), minFee, asset);
      }
    }

    /** On the best branch only coinbases leave unspent outputs without value. */
    lemma UnspentHasValue(op: OutPoint)
      requires Valid() && op in Replay(Blocks(bestChain)).coins
      ensures op.txid in store.db.txs
      ensures store.db.txs[op.txid].tx.IsCoinBase() || Replay(Blocks(bestChain)).coins[op].value > 0
    {
      hide *;
      Parts();
      StoreHolds(store, bestChain);
      PathIdentified(rules, nodes, root, bestChain);
      UnspentPositive(rules.outs, Blocks(bestChain), minFee, op);
    }

    /** The branch of every node obeys the difficulty and time rules, so its median time never decreased. */
    lemma BranchesAccepted(n: BlockNode, i: nat, j: nat)
      requires Valid() && n in nodes
      requires 0 < i <= j <= |Headers(n)|
      ensures params.Valid() && AcceptedBranch(params, Headers(n))
      ensures PastMedianTime(Headers(n)[..i]) <= PastMedianTime(Headers(n)[..j])
    {
      hide *;
      Parts();
      BranchKnown(rules, nodes, root, n);
      AcceptedTimes(params, Headers(n));
      MedianNeverDecreases(Headers(n), i, j);
    }

    /**
     Of all known branches the best one has the most work, the first of equals, unless an attach was
     refused. Every other node on it has strictly less.
     */
    lemma BestHasMostWork(n: BlockNode)
      requires Valid() && n in nodes
      ensures !refused ==> Beats(bestChain, n)
      ensures n in Path(bestChain) && n != bestChain ==> n.workSum < bestChain.workSum
    {
      hide TreeOk, StoreOk, IndexOk, MainOk, CacheOk, PoolOk, AllPooledOk, Path;
      if n in Path(bestChain) {
        LinksKnown(rules, nodes, root);
        OnPath(nodes, root, bestChain, n);
        WorkAlongPath(rules, nodes, root, bestChain, n.header.height);
      }
    }
  }

  lemma GenesisChain(genesis: Block)
    requires Connectable(EMPTY, genesis)
    ensures ValidChain([genesis])
    ensures Replay([genesis]) == ApplyBlock(EMPTY, genesis)
    ensures Sound(EMPTY) && Sound(ApplyBlock(EMPTY, genesis))
    ensures TxsSane(genesis.txs) && AllContextOk(EMPTY, genesis.txs) && DisjointSpends(genesis.txs)
    ensures genesis.header.height == 0 == ApplyBlock(EMPTY, genesis).height
  {
    hide Connectable;
    assert [genesis][..0] == [];
    ConnectableGives(EMPTY, genesis);
    SoundAfterBlock(EMPTY, genesis);
  }

  lemma ConnectableGives(l: Ledger, b: Block)
    requires Connectable(l, b)
    ensures Acceptable(l, b) && TxsSane(b.txs) && AllContextOk(l, b.txs) && DisjointSpends(b.txs) && b.header.height == l.height + 1
  {
  }

  lemma GenesisNode(r: Rules, node: BlockNode)
    requires r.params.Valid()
    requires node.parent == null && node.header == node.block.header && node.header.height == 0
    requires BlockSane(r, node.block)
    ensures TreeOk(r, {node}, node)
    ensures Path(node) == [node] && Blocks(node) == [node.block]
  {
    hide TxsSane, RootValid, DisjointSpends, AllBalanced, TxsIdentified, TargetOk;
    assert Headers(node) == [node.header];
    assert NodeLinked({node}, node, node);
  }

  // ----- Forks -----

  /** Up to the fork the paths are the same, and the node's path leaves the best chain there. */
  ghost predicate ForksAt(best: BlockNode, node: BlockNode, fork: nat) {
    && fork < |Path(best)| && fork < |Path(node)|
    && Path(best)[..fork + 1] == Path(node)[..fork + 1]
    && forall k :: fork < k < |Path(node)| ==> Path(node)[k] !in Path(best)
  }

  /** The nodes of the best chain from its end down to the one after the given height. */
  ghost predicate Downwards(best: BlockNode, height: nat, s: seq<BlockNode>) {
    && |Path(best)| == height + 1 + |s|
    && forall i :: 0 <= i < |s| ==> s[i] == Path(best)[|Path(best)| - 1 - i]
  }

  lemma NodesOnPath(nodes: set<BlockNode>, root: BlockNode, n: BlockNode, k: nat)
    requires TreeLinked(nodes, root)
    requires n in nodes && k <= n.header.height
    ensures |Path(n)| == n.header.height + 1 && Path(n)[k] in nodes && Path(n)[k].header.height == k
    ensures Path(Path(n)[k]) == Path(n)[..k + 1]
    ensures Path(n)[k].parent == null ==> k == 0
  {
    hide Path, TreeLinked;
    PathFacts(nodes, root, n);
    PathParents(nodes, root, n, k);
  }

  /** A node that is on the best chain, or has no parent, is where both paths still agree. */
  lemma CommonNode(nodes: set<BlockNode>, root: BlockNode, best: BlockNode, node: BlockNode, x: BlockNode)
    requires TreeLinked(nodes, root)
    requires best in nodes && node in nodes
    requires x in Path(node)
    requires x in Path(best) || x.parent == null
    ensures x in Path(best)
    ensures x.header.height < |Path(best)| && x.header.height < |Path(node)|
    ensures Path(best)[x.header.height] == x
    ensures Path(best)[..x.header.height + 1] == Path(node)[..x.header.height + 1]
  {
    hide Path;
    OnPath(nodes, root, node, x);
    assert NodeLinked(nodes, root, x);
    PathParents(nodes, root, best, 0);
    assert root in Path(best);
    OnPath(nodes, root, best, x);
  }

  /** The node's branch back to the first node on the main chain. */
  method NewBranch(node: BlockNode, ghost best: BlockNode, ghost nodes: set<BlockNode>, ghost root: BlockNode)
    returns (attach: seq<BlockNode>, ancestor: BlockNode)
    requires TreeLinked(nodes, root) && MainOk(nodes, best)
    requires node in nodes && best in nodes
    ensures ancestor in Path(best)
    ensures ForksAt(best, node, ancestor.header.height)
    ensures Path(best)[ancestor.header.height] == ancestor
    ensures attach == Path(node)[ancestor.header.height + 1..]
  {
    hide TreeLinked, Path;
    attach, ancestor := [], node;
    StepBack(nodes, root, node, node.header.height);
    ghost var k := node.header.height;
    while ancestor.parent != null
      invariant 0 <= k < |Path(node)| == node.header.height + 1
      invariant ancestor == Path(node)[k]
      invariant attach == Path(node)[k + 1..]
      invariant forall j :: k < j < |Path(node)| ==> Path(node)[j] !in Path(best)
      decreases k
    {
      NodesOnPath(nodes, root, node, k);
      if ancestor.inMainChain {
        break;
      }
      StepBack(nodes, root, node, k);
      assert Path(node)[k..] == [Path(node)[k]] + Path(node)[k + 1..];
      attach := [ancestor] + attach;
      ancestor := ancestor.parent;
      k := k - 1;
    }
    NodesOnPath(nodes, root, node, k);
    CommonNode(nodes, root, best, node, ancestor);
  }

  /** The best chain from its end back to the fork. */
  method OldBranch(
    best: BlockNode, ancestor: BlockNode, ghost index: map<Hash, BlockNode>, ghost nodes: set<BlockNode>, ghost root: BlockNode)
    returns (detach: seq<BlockNode>)
    requires TreeLinked(nodes, root) && IndexOk(index, nodes)
    requires best in nodes
    requires ancestor.header.height < |Path(best)| && Path(best)[ancestor.header.height] == ancestor
    ensures Downwards(best, ancestor.header.height, detach)
  {
    hide TreeLinked, Path, IndexOk;
    detach := [];
    var n: BlockNode? := best;
    ghost var k := best.header.height;
    StepBack(nodes, root, best, k);
    while n != null && n.parent != null
      invariant ancestor.header.height <= k < |Path(best)|
      invariant n == Path(best)[k]
      invariant Downwards(best, k, detach)
      decreases k
    {
      NodesOnPath(nodes, root, best, k);
      if n.header.hash == ancestor.header.hash {
        break;
      }
      StepBack(nodes, root, best, k);
      detach := detach + [n];
      n := n.parent;
      k := k - 1;
    }
    NodesOnPath(nodes, root, best, k);
    NodesOnPath(nodes, root, best, ancestor.header.height);
    UniqueIfSame(index, nodes, n, ancestor);
  }

  /** The last block of the best chain can be read back. */
  lemma BestBlockStored(r: Rules, nodes: set<BlockNode>, root: BlockNode, store: ChainStore, best: BlockNode)
    requires TreeOk(r, nodes, root) && best in nodes && StoreOk(store, best)
    requires r.pairHash == store.pairHash
    ensures Rebuilt(store.db, store.pairHash, best.header.hash) == Some(best.block)
  {
    hide AcceptedBranch, TxsSane, RootValid, DisjointSpends, AllBalanced, TargetOk, TxsIdentified, Headers, ValidChain, Replay, Rebuilt, Sound, Matches;
    assert NodeOk(r, best);
    ChainIsRebuilt(store.db, store.pairHash, Blocks(best), |Blocks(best)| - 1);
  }

  lemma CacheDetach(index: map<Hash, BlockNode>, nodes: set<BlockNode>, root: BlockNode, best: BlockNode, cache: map<Hash, Block>)
    requires TreeLinked(nodes, root) && IndexOk(index, nodes)
    requires CacheOk(index, best, cache)
    requires best in nodes && best.parent != null
    ensures CacheOk(index, best.parent, cache[best.header.hash := best.block])
  {
    hide Path, TreeLinked;
    NextOnPath(nodes, root, best);
  }

  /** Everything that attaching the next node of a path needs. */
  lemma StepUp(
    r: Rules, index: map<Hash, BlockNode>, nodes: set<BlockNode>, root: BlockNode, node: BlockNode, k: nat, cache: map<Hash, Block>)
    requires TreeOk(r, nodes, root) && IndexOk(index, nodes)
    requires node in nodes && k + 1 < |Path(node)|
    requires CacheOk(index, Path(node)[k], cache)
    ensures var n, best := Path(node)[k + 1], Path(node)[k];
            && n in nodes && nodes + {n} == nodes && n.parent == best && n !in Path(best)
            && n.header.hash in index && index[n.header.hash] == n && index[n.header.hash := n] == index
            && n.header.hash in cache && cache[n.header.hash] == n.block
            && n.block.header.prevHash == best.header.hash
            && CacheOk(index, n, cache - {n.header.hash})
            && best.header.height == k
  {
    hide AcceptedBranch, BlockSane, Path, Headers;
    var n, best := Path(node)[k + 1], Path(node)[k];
    PathFacts(nodes, root, node);
    NodesOnPath(nodes, root, node, k);
    NodesOnPath(nodes, root, node, k + 1);
    StepBack(nodes, root, node, k + 1);
    assert NodeOk(r, n);
    NextOnPath(nodes, root, n);
    CacheAttach(index, nodes, n, cache);
    assert index[n.header.hash := n] == index;
  }

  lemma CacheAttach(index: map<Hash, BlockNode>, nodes: set<BlockNode>, n: BlockNode, cache: map<Hash, Block>)
    requires IndexOk(index, nodes)
    requires n in nodes && n.parent != null && Path(n) == Path(n.parent) + [n] && n !in Path(n.parent)
    requires CacheOk(index, n.parent, cache)
    ensures CacheOk(index, n, cache - {n.header.hash})
    ensures n.header.hash in cache && cache[n.header.hash] == n.block
  {
    hide Path;
  }

  lemma FlagOff(nodes: set<BlockNode>, best: BlockNode, n: BlockNode)
    requires MainOk(nodes, best)
    requires n in nodes && n !in Path(best)
    ensures !n.inMainChain
  {
    hide Path;
  }

  /** The best chain ends at the last node on the way to the given one whose branch is a valid chain. */
  ghost predicate RefusedAbove(best: BlockNode, node: BlockNode) {
    && best.header.height + 1 < |Path(node)|
    && Path(node)[best.header.height] == best
    && ValidChain(Blocks(best))
    && !ValidChain(Blocks(Path(node)[best.header.height + 1]))
  }

  /** A block whose branch is a valid chain names its parent and fits the ledger of the parent. */
  lemma ValidNeedsContext(r: Rules, nodes: set<BlockNode>, root: BlockNode, n: BlockNode)
    requires TreeOk(r, nodes, root) && n in nodes && n.parent != null
    ensures n.block.header.prevHash == n.parent.header.hash
    ensures ValidChain(Blocks(n)) ==> AllContextOk(Replay(Blocks(n.parent)), n.block.txs)
  {
    hide AcceptedBranch, BlockSane, Headers, Path, Blocks, ValidChain, Replay, AllContextOk, TreeLinked, AllFinal;
    assert NodeOk(r, n);
    if ValidChain(Blocks(n)) {
      ChainShrinks(r, nodes, root, n);
      ConnectableGives(Replay(Blocks(n.parent)), n.block);
    }
  }

  lemma BlocksUpTo(nodes: set<BlockNode>, root: BlockNode, n: BlockNode, k: nat)
    requires TreeLinked(nodes, root) && n in nodes && k <= n.header.height
    ensures |Path(n)| == n.header.height + 1 == |Blocks(n)|
    ensures Path(n)[k] in nodes && Path(n)[k].header.height == k
    ensures Blocks(Path(n)[k]) == Blocks(n)[..k + 1]
  {
    hide TreeLinked, Path, Blocks;
    NodesOnPath(nodes, root, n, k);
    PathFacts(nodes, root, n);
    PathFacts(nodes, root, Path(n)[k]);
  }

  /** After a refusal the branch of the node is no valid chain, and the best chain is lighter than the node. */
  lemma RefusedMeans(r: Rules, nodes: set<BlockNode>, root: BlockNode, best: BlockNode, node: BlockNode)
    requires TreeOk(r, nodes, root) && node in nodes && RefusedAbove(best, node)
    ensures !ValidChain(Blocks(node))
    ensures best.workSum < node.workSum
    ensures !WorkOk(nodes, best)
  {
    hide NodeOk, ValidChain, Path, Blocks;
    var k := best.header.height;
    PathFacts(nodes, root, node);
    BlocksUpTo(nodes, root, node, k + 1);
    if ValidChain(Blocks(node)) {
      ValidPrefix(Blocks(node), k + 2);
    }
    WorkAlongPath(r, nodes, root, node, k);
    assert !Beats(best, node);
  }

  lemma AllCached(
    r: Rules, index: map<Hash, BlockNode>, nodes: set<BlockNode>, root: BlockNode, best: BlockNode, node: BlockNode, fork: nat,
    cache: map<Hash, Block>, attach: seq<BlockNode>)
    requires TreeOk(r, nodes, root) && IndexOk(index, nodes)
    requires CacheOk(index, best, cache)
    requires node in nodes && ForksAt(best, node, fork)
    requires attach == Path(node)[fork + 1..]
    ensures forall k :: 0 <= k < |attach| ==> attach[k].header.hash in cache
  {
    hide Path, NodeOk;
    forall k | 0 <= k < |attach|
      ensures attach[k].header.hash in cache
    {
      PathFacts(nodes, root, node);
      NodesOnPath(nodes, root, node, fork + 1 + k);
    }
  }

  lemma ForkNode(best: BlockNode, node: BlockNode, fork: nat)
    requires ForksAt(best, node, fork)
    ensures fork < |Path(best)| && fork < |Path(node)|
    ensures Path(best)[fork] == Path(node)[fork]
  {
    hide Path;
    assert Path(best)[fork] == Path(best)[..fork + 1][fork];
  }

  /** One call: the block, the hash its work is measured by, the checks that are not modelled, and the clock. */
  datatype Submission = Submission(block: Block, powHash: Hash, others: bool, now: int)

  ghost predicate AllSubmittable(r: Rules, steps: seq<Submission>) {
    forall k :: 0 <= k < |steps| ==> Submittable(r, steps[k].block)
  }

  lemma SubmittableAt(r: Rules, steps: seq<Submission>, k: nat)
    requires AllSubmittable(r, steps) && k < |steps|
    ensures Submittable(r, steps[k].block)
  {
    hide Submittable;
  }

  /** Hypotheses about a submitted block: hashes identify contents, and no output is spent by two of its transactions. */
  ghost predicate Submittable(r: Rules, b: Block) {
    && b.header.prevHash == r.parentOf(b.header.hash)
    && TxsIdentified(b.txs, r.outs)
    && DisjointSpends(b.txs)
    && (forall t :: t in b.txs ==> |t.outputs| <= MAX_OUTPUTS)
    && (b.header.prevHash != ZERO_HASH || b.header.height != 0)
  }

  /** The stored transactions are those that their hashes stand for. */
  lemma LedgerIdentified(r: Rules, nodes: set<BlockNode>, root: BlockNode, store: ChainStore, best: BlockNode)
    requires TreeOk(r, nodes, root) && best in nodes && StoreOk(store, best)
    ensures Identified(store.db.txs, r.outs)
  {
    hide *;
    PathIdentified(r, nodes, root, best);
    ChainTxsIdentified(r.outs, Blocks(best));
    StoreHolds(store, best);
  }

  lemma StoreHolds(store: ChainStore, best: BlockNode)
    requires StoreOk(store, best)
    ensures ValidChain(Blocks(best)) && Matches(store.db, Replay(Blocks(best))) && store.db.txs == Replay(Blocks(best)).txs
  {
    hide ValidChain, Replay, Blocks, Sound, UnspentIndex.UnspentOk, UnspentIndex.UtxosOk;
  }

  /** Every block on the way to a node is identified and balanced. */
  lemma PathIdentified(r: Rules, nodes: set<BlockNode>, root: BlockNode, n: BlockNode)
    requires TreeOk(r, nodes, root) && n in nodes
    ensures ChainIdentified(Blocks(n), r.outs)
    ensures forall k :: 0 <= k < |Blocks(n)| ==> AllBalanced(r.outs, Blocks(n)[k].txs, r.minFee)
  {
    hide AcceptedBranch, TxsSane, RootValid, DisjointSpends, AllBalanced, TxsIdentified, TargetOk, AllFinal, Headers, Blocks, Path;
    PathFacts(nodes, root, n);
    forall k | 0 <= k < |Blocks(n)|
      ensures TxsIdentified(Blocks(n)[k].txs, r.outs) && AllBalanced(r.outs, Blocks(n)[k].txs, r.minFee)
    {
      assert NodeOk(r, Path(n)[k]);
    }
  }

  lemma {:induction false} OnlyFirstIssues(ts: seq<Transaction>, asset: Hash)
    requires ts != [] && ts[0].IsCoinBase() && forall k :: 0 < k < |ts| ==> !ts[k].IsCoinBase()
    ensures Issued(ts, asset) == SumOf(ts[0].outputs, asset)
  {
    hide SumOf;
    if |ts| == 1 {
      assert ts[..0] == [];
    } else {
      OnlyFirstIssues(ts[..|ts| - 1], asset);
    }
  }

  lemma {:induction false} SumOfOthers(outputs: seq<TxOutput>, asset: Hash)
    requires forall k :: 0 <= k < |outputs| ==> outputs[k].assetID != asset
    ensures SumOf(outputs, asset) == 0
  {
    if outputs != [] {
      SumOfOthers(outputs[..|outputs| - 1], asset);
    }
  }

  /** A block that passes issues the token only, by its first transaction, and pays some of it to the foundation. */
  lemma SaneBlockIssues(
    txs: map<Hash, StoredTx>, h: PairHash, powLimit: nat, minFee: int, token: Token, b: Block, powHash: Hash, asset: Hash)
    requires SanityOk(txs, h, powLimit, minFee, token, b, powHash)
    ensures b.txs != [] && Issued(b.txs, asset) == if asset == token.assetID then SumOf(b.txs[0].outputs, asset) else 0
    ensures exists op :: op in CreatedBy(b.txs[0], b.header.height) &&
                         CreatedBy(b.txs[0], b.header.height)[op].programHash == token.foundation
  {
    hide SanityOk, Issued, SumOf;
    SaneCoinbase(txs, h, powLimit, minFee, token, b, powHash);
    OnlyFirstIssues(b.txs, asset);
    var t := b.txs[0];
    if asset != token.assetID {
      SumOfOthers(t.outputs, asset);
    }
    var k :| 0 <= k < |t.outputs| && t.outputs[k].programHash == token.foundation;
    assert OutPoint(t.hash, k) in CreatedBy(t, b.header.height);
  }

  lemma SanityGivesBlockSane(r: Rules, txs: map<Hash, StoredTx>, b: Block, powHash: Hash)
    requires SanityOk(txs, r.pairHash, r.params.powLimit, r.minFee, r.token, b, powHash)
    requires Submittable(r, b) && Identified(txs, r.outs)
    ensures BlockSane(r, b)
    ensures b.header.prevHash != ZERO_HASH || b.header.height != 0
  {
    hide BalanceOk, CompactToBig, Root, DisjointSpends, TxsIdentified, InputsSane, Identified, Balanced;
    SanityGivesTxsSane(txs, r.pairHash, r.params.powLimit, r.minFee, r.token, b, powHash);
    forall t | t in b.txs
      ensures Balanced(r.outs, t, r.minFee)
    {
      var k :| 0 <= k < |b.txs| && b.txs[k] == t;
      assert TxSanityOk(txs, b.txs[k], r.minFee, r.token);
      BalanceCarries(txs, r.outs, t, r.minFee);
    }
  }

  lemma OneMoreWaiting(before: map<Hash, OrphanBlock>, after: map<Hash, OrphanBlock>, index: map<Hash, BlockNode>, b: Block)
    requires b.header.hash in after && after[b.header.hash].block == b && b.header.prevHash !in index
    requires forall h :: h in after && h != b.header.hash ==> h in before && after[h] == before[h]
    ensures NoneReady(before, index) ==> NoneReady(after, index)
  {
  }

  lemma StillPooled(orphans: map<Hash, OrphanBlock>, before: map<Hash, BlockNode>, after: map<Hash, BlockNode>, hash: Hash)
    requires NoneIndexed(orphans, before) && hash !in orphans
    requires after.Keys <= before.Keys + {hash}
    ensures NoneIndexed(orphans, after)
  {
    forall h | h in orphans
      ensures h !in after
    {
      assert h !in before.Keys + {hash};
    }
  }

  /** After a complete submission nothing in the pool is ready, if nothing was before. */
  lemma StillWaiting(
    before: map<Hash, BlockNode>, accepted: set<Hash>, after: map<Hash, BlockNode>, pooled: map<Hash, OrphanBlock>, left: map<Hash, OrphanBlock>, hash: Hash, trace: seq<Hash>)
    requires accepted <= before.Keys + {hash} && Within(accepted, after.Keys, trace)
    requires Traced(pooled, left, hash, trace)
    requires forall x :: x in left ==> ParentOf(left[x]) != hash && ParentOf(left[x]) !in trace
    ensures NoneReady(pooled, before) ==> NoneReady(left, after)
    ensures accepted <= after.Keys
  {
    hide ParentsFirst;
    if NoneReady(pooled, before) {
      forall x | x in left
        ensures ParentOf(left[x]) !in after
      {
        assert ParentOf(left[x]) !in before.Keys + {hash};
      }
    }
  }

  lemma Progress(before: map<Hash, OrphanBlock>, after: map<Hash, OrphanBlock>, added: seq<Hash>, was: seq<Hash>, queue: seq<Hash>)
    requires Shrunk(before, after, added) && was != [] && queue == was[1..] + added
    ensures |after| < |before| || (|after| == |before| && |queue| < |was|)
  {
  }

  lemma OneMorePooled(r: Rules, orphans: map<Hash, OrphanBlock>, index: map<Hash, BlockNode>, o: OrphanBlock)
    requires AllPooledOk(r, orphans) && NoneIndexed(orphans, index)
    requires BlockSane(r, o.block) && ParentOf(o) != ZERO_HASH && HashOf(o) !in index
    ensures AllPooledOk(r, orphans[HashOf(o) := o]) && NoneIndexed(orphans[HashOf(o) := o], index)
  {
    hide BlockSane;
  }

  lemma SameParent(r: Rules, orphans: map<Hash, OrphanBlock>, prev: map<Hash, seq<OrphanBlock>>, o: OrphanBlock)
    requires PoolOk(orphans, prev) && AllPooledOk(r, orphans) && ParentKnown(r, o)
    ensures HashOf(o) in orphans ==> ParentOf(orphans[HashOf(o)]) == ParentOf(o)
  {
    hide TxsSane, RootValid, DisjointSpends, AllBalanced, TxsIdentified, TargetOk;
  }

  lemma PooledKnown(r: Rules, orphans: map<Hash, OrphanBlock>, prev: map<Hash, seq<OrphanBlock>>, h: Hash)
    requires PoolOk(orphans, prev) && AllPooledOk(r, orphans) && h in orphans
    ensures HashOf(orphans[h]) == h && ParentKnown(r, orphans[h])
    ensures BlockSane(r, orphans[h].block) && ParentOf(orphans[h]) != ZERO_HASH
  {
    hide TxsSane, RootValid, DisjointSpends, AllBalanced, TxsIdentified, TargetOk;
  }

  // ----- A new node -----

  lemma StoredAreIndexed(
    r: Rules, index: map<Hash, BlockNode>, nodes: set<BlockNode>, root: BlockNode, store: ChainStore, best: BlockNode, hash: Hash)
    requires TreeOk(r, nodes, root) && IndexOk(index, nodes) && best in nodes && StoreOk(store, best)
    ensures hash in store.db.headers ==> hash in index
  {
    hide AcceptedBranch, BlockSane, ValidChain, Replay, Sound, UnspentIndex.UnspentOk, UnspentIndex.UtxosOk, Path, Headers, Blocks, AllFinal;
    ChainHeaders(Blocks(best), hash);
    PathFacts(nodes, root, best);
    if hash in store.db.headers {
      var k :| 0 <= k < |Blocks(best)| && Blocks(best)[k].header.hash == hash;
      var n := Path(best)[k];
      assert n in nodes && NodeOk(r, n);
    }
  }

  lemma SaneNotEmpty(r: Rules, b: Block)
    requires BlockSane(r, b)
    ensures b.txs != []
  {
  }

  lemma IndexedNode(index: map<Hash, BlockNode>, nodes: set<BlockNode>, hash: Hash)
    requires IndexOk(index, nodes)
    ensures hash in index ==> index[hash] in nodes && index[hash].header.hash == hash
  {
  }

  lemma BranchKnown(r: Rules, nodes: set<BlockNode>, root: BlockNode, n: BlockNode)
    requires TreeOk(r, nodes, root) && n in nodes
    ensures r.params.Valid()
    ensures |Headers(n)| == n.header.height + 1
    ensures AcceptedBranch(r.params, Headers(n)) && 0 < CompactToBig(n.header.bits)
  {
    hide BlockSane, NextBits, PastMedianTime, CompactToBig, AllFinal;
    assert NodeOk(r, n);
    PathFacts(nodes, root, n);
  }

  /** Difficulty, time and finality of a block on top of a node. Without a node there is nothing to check. */
  method PowCheckBlockContext(p: ChainParams, block: Block, prev: BlockNode?, ghost nodes: set<BlockNode>, ghost root: BlockNode)
    returns (ok: bool)
    requires prev != null ==> p.Valid() && TreeLinked(nodes, root) && prev in nodes && 0 < CompactToBig(prev.header.bits)
    requires block.txs != []
    ensures ok <==> prev == null || FitsOn(p, prev, block)
  {
    hide NextBits, PastMedianTime, Headers, TreeLinked, CompactToBig, IsFinalized;
    if prev == null {
      return true;
    }
    var bits := CalcNextRequiredDifficulty(p, prev, nodes, root);
    if block.header.bits != bits {
      return false;
    }
    var median := CalcPastMedianTime(prev, nodes, root);
    if block.header.timestamp <= median {
      return false;
    }
    for i := 1 to |block.txs|
      invariant forall k :: 0 < k < i ==> IsFinalized(block.txs[k], prev.header.height + 1)
    {
      var final := IsFinalizedTransaction(block.txs[i], prev.header.height + 1);
      if !final {
        return false;
      }
    }
    return true;
  }

  /** A node made for a block that passed the checks fits the tree. */
  lemma ChildNode(r: Rules, nodes: set<BlockNode>, root: BlockNode, prev: BlockNode, node: BlockNode)
    requires TreeOk(r, nodes, root) && prev in nodes && node !in nodes
    requires node.parent == prev && node.header == node.block.header && node.header.height == prev.header.height + 1
    requires node.header.prevHash == prev.header.hash
    requires node.workSum == CalcWork(node.header.bits) + prev.workSum
    requires BlockSane(r, node.block) && FitsOn(r.params, prev, node.block)
    ensures TreeOk(r, nodes + {node}, root)
  {
    hide *;
    LinksKnown(r, nodes, root);
    ChildLinked(nodes, root, prev, node);
    ChildOk(r, nodes, root, prev, node);
    OneNodeMore(r, nodes, root, node);
  }

  lemma ChildLinked(nodes: set<BlockNode>, root: BlockNode, prev: BlockNode, node: BlockNode)
    requires TreeLinked(nodes, root) && prev in nodes
    requires node.parent == prev && node.header.height == prev.header.height + 1
    ensures TreeLinked(nodes + {node}, root)
  {
    forall n | n in nodes + {node}
      ensures NodeLinked(nodes + {node}, root, n)
    {
      if n in nodes {
        assert NodeLinked(nodes, root, n);
      } else {
        assert NodeLinked(nodes, root, root);
      }
    }
  }

  lemma ChildOk(r: Rules, nodes: set<BlockNode>, root: BlockNode, prev: BlockNode, node: BlockNode)
    requires TreeOk(r, nodes, root) && prev in nodes
    requires node.parent == prev && node.header == node.block.header && node.header.height == prev.header.height + 1
    requires node.header.prevHash == prev.header.hash
    requires node.workSum == CalcWork(node.header.bits) + prev.workSum
    requires BlockSane(r, node.block) && FitsOn(r.params, prev, node.block)
    ensures r.params.Valid() && NodeOk(r, node)
  {
    hide TreeOk, TxsSane, RootValid, DisjointSpends, AllBalanced, TxsIdentified, AllFinal, NextBits, PastMedianTime, TargetOk, CalcWork, CompactToBig;
    BranchKnown(r, nodes, root, prev);
    assert Headers(node) == Headers(prev) + [node.header];
    ExtendBranch(r.params, Headers(prev), node.header);
  }

  lemma OneNodeMore(r: Rules, nodes: set<BlockNode>, root: BlockNode, node: BlockNode)
    requires TreeOk(r, nodes, root) && TreeLinked(nodes + {node}, root) && NodeOk(r, node)
    ensures TreeOk(r, nodes + {node}, root)
  {
    hide TreeLinked, NodeOk;
  }

  lemma NotOnPath(r: Rules, nodes: set<BlockNode>, root: BlockNode, best: BlockNode, node: BlockNode)
    requires TreeOk(r, nodes, root) && best in nodes && node !in nodes
    ensures node !in Path(best)
  {
    hide NodeOk;
    PathFacts(nodes, root, best);
  }

  /** Extending the best chain leaves the cache right. */
  lemma CacheExtend(
    index: map<Hash, BlockNode>, nodes: set<BlockNode>, root: BlockNode, best: BlockNode, node: BlockNode, cache: map<Hash, Block>, r: Rules)
    requires TreeOk(r, nodes + {node}, root) && IndexOk(index, nodes)
    requires CacheOk(index, best, cache)
    requires best in nodes && node !in nodes && node.parent == best && node.header.hash !in index
    ensures CacheOk(index[node.header.hash := node], node, cache)
  {
    hide Path, NodeOk;
    NextOnPath(nodes + {node}, root, node);
  }

  lemma CacheSide(index: map<Hash, BlockNode>, nodes: set<BlockNode>, best: BlockNode, node: BlockNode, cache: map<Hash, Block>)
    requires IndexOk(index, nodes) && CacheOk(index, best, cache)
    requires node.header.hash !in index && node !in Path(best)
    ensures CacheOk(index[node.header.hash := node], best, cache[node.header.hash := node.block])
  {
    hide Path;
  }

  lemma Arrive(nodes: set<BlockNode>, clock: nat, node: BlockNode)
    requires ArrivedBefore(nodes, clock) && node.arrival == clock
    ensures ArrivedBefore(nodes + {node}, clock + 1)
  {
  }

  /** A child of the best node has more work than every other node. */
  lemma HeaviestAbove(r: Rules, nodes: set<BlockNode>, root: BlockNode, best: BlockNode, node: BlockNode)
    requires TreeOk(r, nodes + {node}, root) && node.parent == best
    ensures WorkOk(nodes, best) ==> WorkOk(nodes + {node}, node)
  {
    hide NodeOk;
    WorkIncreases(r, nodes + {node}, root, node);
  }

  lemma LighterLater(nodes: set<BlockNode>, best: BlockNode, node: BlockNode, clock: nat)
    requires best in nodes && ArrivedBefore(nodes, clock) && node.arrival == clock
    requires node.workSum <= best.workSum
    ensures WorkOk(nodes, best) ==> WorkOk(nodes + {node}, best)
  {
  }

  lemma HeavierThanAll(nodes: set<BlockNode>, best: BlockNode, node: BlockNode)
    requires best.workSum < node.workSum
    ensures WorkOk(nodes, best) ==> WorkOk(nodes + {node}, node)
  {
  }

  lemma LinksKnown(r: Rules, nodes: set<BlockNode>, root: BlockNode)
    requires TreeOk(r, nodes, root)
    ensures TreeLinked(nodes, root)
  {
  }

  lemma UniqueIfSame(index: map<Hash, BlockNode>, nodes: set<BlockNode>, a: BlockNode, b: BlockNode)
    requires IndexOk(index, nodes)
    requires a in nodes && b in nodes
    ensures a.header.hash == b.header.hash ==> a == b
  {
  }

  lemma GenesisState(r: Rules, node: BlockNode)
    requires node.inMainChain && node.arrival == 0 && Path(node) == [node]
    ensures var index := map[node.header.hash := node];
            IndexOk(index, {node}) && CacheOk(index, node, map[]) && NoneIndexed(map[], index)
    ensures MainOk({node}, node) && WorkOk({node}, node) && ArrivedBefore({node}, 1)
    ensures PoolOk(map[], map[]) && AllPooledOk(r, map[])
  {
    hide Path;
  }

  lemma HeightKnown(r: Rules, nodes: set<BlockNode>, root: BlockNode, best: BlockNode)
    requires TreeOk(r, nodes, root)
    requires best in nodes && ValidChain(Blocks(best))
    ensures Replay(Blocks(best)).height == best.header.height
    ensures TreeLinked(nodes, root)
  {
    hide NodeOk, ValidChain, Replay;
    ReplaySound(Blocks(best));
    PathFacts(nodes, root, best);
  }

  lemma NodeFacts(r: Rules, nodes: set<BlockNode>, root: BlockNode, n: BlockNode)
    requires TreeOk(r, nodes, root) && n in nodes
    ensures n.block.header == n.header && BlockSane(r, n.block) && TreeLinked(nodes, root)
  {
    assert NodeOk(r, n);
  }
}

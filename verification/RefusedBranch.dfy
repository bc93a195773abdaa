/** A reorganisation that is refused, and what it leaves behind. */
module RefusedBranch {
  import opened Types
  import opened Ledger
  import opened Compact
  import opened Difficulty
  import opened BlockValidator
  import opened TransactionCodec
  import opened Conservation
  import opened BlockTree
  import opened OrphanPool
  import opened Chain
  import opened Genesis
  import opened PlainBlocks

  // ----- The blocks -----

  /** Two blocks, one on top of the other. */
  function A1(w: World): Block {
    Plain(w, Origin(w).header.hash, 1, 1, 1)
  }

  function A2(w: World): Block {
    Plain(w, A1(w).header.hash, 2, 2, 2)
  }

  /** Three blocks beside them. The second holds the very transaction that the first holds. */
  function B1(w: World): Block {
    Plain(w, Origin(w).header.hash, 1, 3, 3)
  }

  function B2(w: World): Block {
    Plain(w, B1(w).header.hash, 2, 3, 4)
  }

  function B3(w: World): Block {
    Plain(w, B2(w).header.hash, 3, 5, 5)
  }

  function TwoBranches(w: World): seq<Block> {
    [Origin(w), A1(w), A2(w), B1(w), B2(w), B3(w)]
  }

  lemma Links(w: World)
    ensures IsPlain(w, A1(w)) && A1(w).header.nonce == 1 && A1(w).header.prevHash == Origin(w).header.hash && A1(w).header.height == 1
    ensures IsPlain(w, A2(w)) && A2(w).header.nonce == 2 && A2(w).header.prevHash == A1(w).header.hash && A2(w).header.height == 2
    ensures IsPlain(w, B1(w)) && B1(w).header.nonce == 3 && B1(w).header.prevHash == Origin(w).header.hash && B1(w).header.height == 1
    ensures IsPlain(w, B2(w)) && B2(w).header.nonce == 4 && B2(w).header.prevHash == B1(w).header.hash && B2(w).header.height == 2
    ensures IsPlain(w, B3(w)) && B3(w).header.nonce == 5 && B3(w).header.prevHash == B2(w).header.hash && B3(w).header.height == 3
    ensures A1(w).txs == [Marked(w, 1)] && A2(w).txs == [Marked(w, 2)]
    ensures B1(w).txs == [Marked(w, 3)] && B2(w).txs == [Marked(w, 3)] && B3(w).txs == [Marked(w, 5)]
  {
    hide Plain, IsPlain, Origin, Marked;
    PlainIsPlain(w, Origin(w).header.hash, 1, 1, 1);
    PlainIsPlain(w, A1(w).header.hash, 2, 2, 2);
    PlainIsPlain(w, Origin(w).header.hash, 1, 3, 3);
    PlainIsPlain(w, B1(w).header.hash, 2, 3, 4);
    PlainIsPlain(w, B2(w).header.hash, 3, 5, 5);
  }

  lemma Branches(w: World)
    ensures Numbered(w, TwoBranches(w))
  {
    hide A1, A2, B1, B2, B3, IsPlain, Origin, Marked;
    Links(w);
  }

  lemma Listing(w: World)
    ensures |TwoBranches(w)| == 6
    ensures TwoBranches(w)[0] == Origin(w) && TwoBranches(w)[1] == A1(w) && TwoBranches(w)[2] == A2(w)
    ensures TwoBranches(w)[3] == B1(w) && TwoBranches(w)[4] == B2(w) && TwoBranches(w)[5] == B3(w)
  {
    hide A1, A2, B1, B2, B3, Origin;
  }

  /** The hashes of the run are no zeros and all different. */
  lemma HashesApart(w: World, i: nat, j: nat)
    requires Proper(w) && i < j < |TwoBranches(w)|
    ensures TwoBranches(w)[i].header.hash != TwoBranches(w)[j].header.hash
    ensures TwoBranches(w)[i].header.hash != ZERO_HASH
  {
    hide TwoBranches, Numbered, Injective;
    Branches(w);
    NumbersApart(w, TwoBranches(w), i, j);
    NumberedHeader(w, TwoBranches(w), i);
  }

  // ----- Branches on values -----

  lemma FirstBranchValid(w: World)
    requires Proper(w)
    ensures ValidChain([Origin(w)] + [A1(w)]) && ValidChain([Origin(w)] + [A1(w)] + [A2(w)])
  {
    hide *;
    Listing(w);
    Links(w);
    HashesApart(w, 0, 1);
    HashesApart(w, 0, 2);
    HashesApart(w, 1, 2);
    ProperParts(w);
    OriginLeaves(w);
    var g, a1, a2 := Origin(w), A1(w), A2(w);
    MarkedApart(w, 1);
    MarkedApart(w, 2);
    TwoMarks(w, 1, 2);
    PlainConnects(w, Replay([g]), a1);
    Grown([g], a1);
    PlainLeaves(Replay([g]), a1, Marked(w, 1));
    PlainConnects(w, Replay([g] + [a1]), a2);
    Grown([g] + [a1], a2);
  }

  lemma ProperParts(w: World)
    requires Proper(w)
    ensures Injective(w.hash)
  {
  }

  /** A block that holds the transaction of the one below it makes its branch invalid, and every branch on top. */
  lemma RepeatedRefused(g: Block, one: Block, two: Block, three: Block)
    requires one.txs != [] && two.txs != [] && two.txs[0] == one.txs[0]
    ensures !ValidChain([g] + [one] + [two])
    ensures !ValidChain([g] + [one] + [two] + [three])
  {
    hide ApplyBlock, DisjointSpends, TxsSane, StoreTxs;
    var below := [g] + [one];
    assert (below + [two])[..2] == below && (below + [two] + [three])[..3] == below + [two];
    assert below[..1] == [g];
    HeldAfter(Replay([g]), one);
    assert two.txs[0] in two.txs;
  }

  lemma HeldAfter(l: Ledger, b: Block)
    requires b.txs != []
    ensures b.txs[0].hash in ApplyBlock(l, b).txs
  {
    StoredTxsForm(l.txs, b.txs, b.header.height, b.txs[0].hash);
    assert TxHashes(b.txs)[0] == b.txs[0].hash;
  }

  // ----- One block after another -----

  /** A block of the run on top of a known one, with no block in the pool. */
  method Submit(bc: Blockchain, w: World, minFee: int, ghost k: nat, b: Block, ghost prev: BlockNode)
    returns (ghost node: BlockNode, ghost inMain: bool, ghost ok: bool)
    requires Proper(w) && 0 < k < |TwoBranches(w)| && b == TwoBranches(w)[k]
    requires bc.Valid() && Follows(bc, w, minFee, TwoBranches(w)) && bc.orphans == map[]
    requires b.header.hash !in bc.index && prev in bc.nodes
    requires b.header.prevHash == prev.header.hash != ZERO_HASH && b.header.height == prev.header.height + 1 < 719
    requires Steady(Headers(prev)) && |Headers(prev)| == prev.header.height + 1
    modifies bc, bc.store, bc.nodes`inMainChain
    ensures bc.Valid() && bc.orphans == map[]
    ensures forall n :: n in bc.nodes && n !in old(bc.nodes) ==> fresh(n)
    ensures OnTop(prev, node, b)
    ensures bc.Outcome(node, old(bc.index), old(bc.nodes), old(bc.bestChain), old(bc.refused), inMain, ok)
    ensures old(WorkOk(bc.nodes, bc.bestChain)) ==> (WorkOk(bc.nodes, bc.bestChain) <==> !Refusable(node, old(bc.bestChain)))
  {
    hide *;
    Branches(w);
    ghost var blocks := TwoBranches(w);
    NumberedPlain(w, blocks, k);
    bc.Parts();
    bc.TreeParts();
    bc.NowIs();
    CanSubmit(bc, w, minFee, blocks, k);
    FitsInTree(bc, w, b, prev);
    ghost var was := bc.Now();
    var main, orphan, fine;
    ghost var made, trace;
    main, orphan, fine, made, trace := bc.ProcessBlock(b, 0, true, 0);
    NoneFollows(bc, was, b, made, trace, main, fine);
    node, inMain, ok := made, main, fine;
    Topped(w, prev, node, b, was.index);
  }

  lemma NoneFollows(bc: Blockchain, was: Snapshot, b: Block, node: BlockNode?, trace: seq<Hash>, inMain: bool, ok: bool)
    requires bc.Taken(was, b, node, trace, inMain, ok) && node != null && was.orphans == map[]
    ensures trace == [] && bc.orphans == map[] && NodeFor(node, b, was.index)
    ensures b.header.prevHash in was.index
    ensures bc.Outcome(node, was.index, was.nodes, was.best, was.refused, inMain, ok)
  {
    hide Blockchain.Outcome, ValidChain, Blocks, Descends, CalcWork, ParentsFirst;
    NothingPooled(bc.orphans, b.header.hash, trace);
  }

  lemma NothingPooled(orphans: map<Hash, OrphanBlock>, h: Hash, trace: seq<Hash>)
    requires Traced(map[], orphans, h, trace)
    ensures trace == [] && orphans == map[]
  {
    if trace != [] {
      FirstIsChild(map[], orphans, h, trace);
    }
    assert forall x :: x !in orphans;
  }

  /** What the outcome is for a node on top of the best one, for one that stays aside and for one that is refused. */
  lemma OutcomeMeans(
    bc: Blockchain, node: BlockNode, index0: map<Hash, BlockNode>, nodes0: set<BlockNode>, best0: BlockNode, refused0: bool,
    inMain: bool, ok: bool)
    requires bc.Outcome(node, index0, nodes0, best0, refused0, inMain, ok)
    ensures node.parent == best0 && ValidChain(Blocks(node)) ==>
              bc.bestChain == node && bc.nodes == nodes0 + {node} && bc.refused == refused0
    ensures node.parent != best0 && node.workSum <= best0.workSum ==>
              bc.bestChain == best0 && bc.nodes == nodes0 + {node} && bc.refused == refused0
    ensures forall x :: x in bc.index ==> x in index0 || x == node.header.hash
    ensures Refusable(node, best0) ==> bc.nodes == nodes0 + {node} && RefusedAbove(bc.bestChain, node)
  {
    hide RefusedAbove, ValidChain, Blocks;
  }

  /** A block on top of the best one whose branch is a valid chain becomes the best one. */
  method Extend(bc: Blockchain, w: World, minFee: int, ghost k: nat, b: Block) returns (ghost node: BlockNode)
    requires Proper(w) && 0 < k < |TwoBranches(w)| && b == TwoBranches(w)[k]
    requires bc.Valid() && Follows(bc, w, minFee, TwoBranches(w)) && bc.orphans == map[]
    requires b.header.hash !in bc.index && bc.bestChain in bc.nodes
    requires b.header.prevHash == bc.bestChain.header.hash != ZERO_HASH && b.header.height == bc.bestChain.header.height + 1 < 719
    requires Steady(Headers(bc.bestChain)) && |Headers(bc.bestChain)| == bc.bestChain.header.height + 1
    requires ValidChain(Blocks(bc.bestChain) + [b])
    modifies bc, bc.store, bc.nodes`inMainChain
    ensures bc.Valid() && bc.orphans == map[] && bc.bestChain == node && bc.refused == old(bc.refused)
    ensures bc.nodes == old(bc.nodes) + {node} && (node in old(bc.nodes) || fresh(node))
    ensures OnTop(old(bc.bestChain), node, b)
    ensures forall x :: x in bc.index ==> x in old(bc.index) || x == b.header.hash
  {
    hide *;
    ghost var inMain, ok;
    node, inMain, ok := Submit(bc, w, minFee, k, b, bc.bestChain);
    TopMeans(old(bc.bestChain), node, b);
    OutcomeMeans(bc, node, old(bc.index), old(bc.nodes), old(bc.bestChain), old(bc.refused), inMain, ok);
  }

  /** A block elsewhere that is not heavier than the best one stays aside. */
  method Aside(bc: Blockchain, w: World, minFee: int, ghost k: nat, b: Block, ghost prev: BlockNode) returns (ghost node: BlockNode)
    requires Proper(w) && 0 < k < |TwoBranches(w)| && b == TwoBranches(w)[k]
    requires bc.Valid() && Follows(bc, w, minFee, TwoBranches(w)) && bc.orphans == map[]
    requires b.header.hash !in bc.index && prev in bc.nodes
    requires b.header.prevHash == prev.header.hash != ZERO_HASH && b.header.height == prev.header.height + 1 < 719
    requires Steady(Headers(prev)) && |Headers(prev)| == prev.header.height + 1
    requires prev != bc.bestChain && CalcWork(MAIN_NET.powLimitBits) + prev.workSum <= bc.bestChain.workSum
    modifies bc, bc.store, bc.nodes`inMainChain
    ensures bc.Valid() && bc.orphans == map[] && bc.bestChain == old(bc.bestChain) && bc.refused == old(bc.refused)
    ensures bc.nodes == old(bc.nodes) + {node} && (node in old(bc.nodes) || fresh(node))
    ensures OnTop(prev, node, b)
    ensures forall x :: x in bc.index ==> x in old(bc.index) || x == b.header.hash
  {
    hide *;
    ghost var inMain, ok;
    node, inMain, ok := Submit(bc, w, minFee, k, b, prev);
    TopMeans(prev, node, b);
    OutcomeMeans(bc, node, old(bc.index), old(bc.nodes), old(bc.bestChain), old(bc.refused), inMain, ok);
  }

  // ----- The run -----

  lemma HeaviestUnlessRefused(bc: Blockchain)
    requires bc.Valid() && !bc.refused
    ensures WorkOk(bc.nodes, bc.bestChain) && bc.bestChain in bc.nodes
  {
    hide WorkOk, TreeOk, StoreOk, IndexOk, MainOk, CacheOk, ArrivedBefore, PoolOk, AllPooledOk, NoneIndexed;
  }

  lemma RefusableMeans(node: BlockNode, best: BlockNode)
    ensures Refusable(node, best) <==> node.parent != best && node.workSum > best.workSum && !ValidChain(Blocks(node))
  {
    hide ValidChain, Blocks;
  }

  /** The node that is left as the best one is below the block that repeats a transaction. */
  lemma LeftBelow(w: World, best: BlockNode, root: BlockNode, b1: BlockNode, b2: BlockNode, b3: BlockNode)
    requires RefusedAbove(best, b3) && RootIs(root, w)
    requires OnTop(root, b1, B1(w)) && OnTop(b1, b2, B2(w)) && OnTop(b2, b3, B3(w))
    ensures best == root || best == b1
  {
    hide *;
    Links(w);
    RootMeans(root, w);
    TopMeans(root, b1, B1(w));
    TopMeans(b1, b2, B2(w));
    TopMeans(b2, b3, B3(w));
    RepeatedRefused(Origin(w), B1(w), B2(w), B3(w));
    assert [root] + [b1] + [b2] + [b3] == [root, b1, b2, b3];
    LeftOnPath(best, root, b1, b2, b3);
  }

  lemma LeftOnPath(best: BlockNode, root: BlockNode, b1: BlockNode, b2: BlockNode, b3: BlockNode)
    requires RefusedAbove(best, b3) && Path(b3) == [root, b1, b2, b3] && !ValidChain(Blocks(b2))
    ensures best == root || best == b1
  {
    hide ValidChain, Blocks, Path;
  }

  /** Two blocks on top of the first one. */
  method FirstBranch(w: World, minFee: int) returns (bc: Blockchain, ghost former: BlockNode)
    requires Proper(w)
    ensures fresh(bc) && fresh(bc.store) && forall n :: n in bc.nodes ==> fresh(n)
    ensures bc.Valid() && bc.orphans == map[] && !bc.refused && Follows(bc, w, minFee, TwoBranches(w))
    ensures bc.root in bc.nodes && RootIs(bc.root, w)
    ensures bc.bestChain == former && former in bc.nodes && ValidChain(Blocks(former)) && former.header.height == 2
    ensures former.workSum == bc.root.workSum + 2 * CalcWork(MAIN_NET.powLimitBits)
    ensures forall x :: x in bc.index ==> x in {Origin(w).header.hash, A1(w).header.hash, A2(w).header.hash}
  {
    hide *;
    Branches(w);
    Listing(w);
    Links(w);
    HashesApart(w, 0, 1);
    HashesApart(w, 0, 2);
    HashesApart(w, 1, 2);
    bc := Start(w, minFee, 1, TwoBranches(w));
    FollowsMeans(bc, w, minFee, TwoBranches(w));
    RootMeans(bc.root, w);
    FirstBranchValid(w);
    ghost var a1 := Extend(bc, w, minFee, 1, A1(w));
    TopMeans(bc.root, a1, A1(w));
    former := Extend(bc, w, minFee, 2, A2(w));
    TopMeans(a1, former, A2(w));
  }

  /** Two blocks beside them, of which the second repeats the transaction of the first. Both stay aside. */
  method SecondBranch(bc: Blockchain, w: World, minFee: int, ghost former: BlockNode) returns (ghost b1: BlockNode, ghost b2: BlockNode)
    requires Proper(w) && bc.Valid() && bc.orphans == map[] && !bc.refused && Follows(bc, w, minFee, TwoBranches(w))
    requires bc.root in bc.nodes && RootIs(bc.root, w)
    requires bc.bestChain == former && former.header.height == 2
    requires former.workSum == bc.root.workSum + 2 * CalcWork(MAIN_NET.powLimitBits)
    requires forall x :: x in bc.index ==> x in {Origin(w).header.hash, A1(w).header.hash, A2(w).header.hash}
    modifies bc, bc.store, bc.nodes`inMainChain
    ensures bc.Valid() && bc.orphans == map[] && !bc.refused && bc.bestChain == former
    ensures bc.nodes == old(bc.nodes) + {b1, b2} && forall n :: n in {b1, b2} && n !in old(bc.nodes) ==> fresh(n)
    ensures OnTop(bc.root, b1, B1(w)) && OnTop(b1, b2, B2(w)) && b1 != former
    ensures B3(w).header.hash !in bc.index
  {
    hide *;
    Listing(w);
    Links(w);
    WorkOfPlain();
    RootMeans(bc.root, w);
    AllApart(w);
    b1 := Aside(bc, w, minFee, 3, B1(w), bc.root);
    TopMeans(bc.root, b1, B1(w));
    b2 := Aside(bc, w, minFee, 4, B2(w), b1);
    TopMeans(b1, b2, B2(w));
  }

  lemma AllApart(w: World)
    requires Proper(w)
    ensures Origin(w).header.hash != ZERO_HASH && B1(w).header.hash != ZERO_HASH && B2(w).header.hash != ZERO_HASH
    ensures B1(w).header.hash !in {Origin(w).header.hash, A1(w).header.hash, A2(w).header.hash}
    ensures B2(w).header.hash !in {Origin(w).header.hash, A1(w).header.hash, A2(w).header.hash, B1(w).header.hash}
    ensures B3(w).header.hash !in {Origin(w).header.hash, A1(w).header.hash, A2(w).header.hash, B1(w).header.hash, B2(w).header.hash}
  {
    hide *;
    Listing(w);
    HashesApart(w, 0, 3);
    HashesApart(w, 1, 3);
    HashesApart(w, 2, 3);
    HashesApart(w, 0, 4);
    HashesApart(w, 1, 4);
    HashesApart(w, 2, 4);
    HashesApart(w, 3, 4);
    HashesApart(w, 0, 5);
    HashesApart(w, 1, 5);
    HashesApart(w, 2, 5);
    HashesApart(w, 3, 5);
    HashesApart(w, 4, 5);
  }

  /**
   The branch of the last block has the most work but is not a valid chain. The attempt to make it
   the main chain ends on a block with less work than the former best one, whose branch is valid.
   */
  method HeavierBranchRefused(w: World, minFee: int) returns (bc: Blockchain, ghost former: BlockNode, ghost last: BlockNode)
    requires Proper(w)
    ensures fresh(bc) && bc.Valid() && former in bc.nodes && last in bc.nodes
    ensures !ValidChain(Blocks(last)) && former.workSum < last.workSum
    ensures ValidChain(Blocks(former)) && bc.bestChain.workSum < former.workSum
    ensures !WorkOk(bc.nodes, bc.bestChain)
  {
    hide *;
    Listing(w);
    Links(w);
    AllApart(w);
    WorkOfPlain();
    ghost var b1, b2, inMain, ok;
    bc, former := FirstBranch(w, minFee);
    RootMeans(bc.root, w);
    b1, b2 := SecondBranch(bc, w, minFee, former);
    TopMeans(bc.root, b1, B1(w));
    TopMeans(b1, b2, B2(w));
    HeaviestUnlessRefused(bc);

    label Fifth:
    last, inMain, ok := Submit(bc, w, minFee, 5, B3(w), b2);
    TopMeans(b2, last, B3(w));
    RepeatedRefused(Origin(w), B1(w), B2(w), B3(w));
    RefusableMeans(last, former);
    OutcomeMeans(bc, last, old@Fifth(bc.index), old@Fifth(bc.nodes), former, false, inMain, ok);
    LeftBelow(w, bc.bestChain, bc.root, b1, b2, last);
  }
}

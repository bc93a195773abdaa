/** The nodes of the block tree, linked to their parents, and the branches they end. */
module BlockTree {
  import opened Types
  import opened Compact
  import opened MedianTime
  import opened Difficulty

  class BlockNode {
    const header: Header
    const parent: BlockNode?
    /** The work of the branch up to and including this block. */
    const workSum: nat
    var inMainChain: bool
    /** The block that the node was made for. */
    ghost const block: Block
    /** The place of the node in the order in which nodes were made. */
    ghost const arrival: nat

    constructor (header: Header, parent: BlockNode?, ghost block: Block, ghost arrival: nat)
      ensures this.header == header && this.parent == parent && this.block == block && this.arrival == arrival
      ensures workSum == CalcWork(header.bits) + if parent == null then 0 else parent.workSum
      ensures !inMainChain
    {
      this.header := header;
      this.parent := parent;
      this.block := block;
      this.arrival := arrival;
      this.inMainChain := false;
      if parent == null {
        workSum := CalcWork(header.bits);
      } else {
        workSum := parent.workSum + CalcWork(header.bits);
      }
    }
  }

  // ----- Branches -----

  /** The nodes from the root to n. */
  ghost function Path(n: BlockNode): seq<BlockNode>
    decreases n.header.height
  {
    if n.parent == null || n.parent.header.height >= n.header.height then [n] else Path(n.parent) + [n]
  }

  ghost function Headers(n: BlockNode): (r: seq<Header>)
    decreases n.header.height
    ensures r != [] && r[|r| - 1] == n.header
  {
    if n.parent == null || n.parent.header.height >= n.header.height then [n.header] else Headers(n.parent) + [n.header]
  }

  ghost function Blocks(n: BlockNode): (r: seq<Block>)
    decreases n.header.height
    ensures r != [] && r[|r| - 1] == n.block
  {
    if n.parent == null || n.parent.header.height >= n.header.height then [n.block] else Blocks(n.parent) + [n.block]
  }

  /** The root is the only node without a parent, and heights count the links from it. */
  ghost predicate NodeLinked(nodes: set<BlockNode>, root: BlockNode, n: BlockNode) {
    && (n.parent == null <==> n == root)
    && (n.parent == null ==> n.header.height == 0)
    && (n.parent != null ==> n.parent in nodes && n.header.height == n.parent.header.height + 1)
  }

  ghost predicate TreeLinked(nodes: set<BlockNode>, root: BlockNode) {
    root in nodes && forall n :: n in nodes ==> NodeLinked(nodes, root, n)
  }

  lemma {:induction false} PathNodes(nodes: set<BlockNode>, root: BlockNode, n: BlockNode)
    requires TreeLinked(nodes, root)
    requires n in nodes
    ensures |Path(n)| == n.header.height + 1
    ensures Path(n)[n.header.height] == n
    ensures forall k :: 0 <= k < |Path(n)| ==> Path(n)[k] in nodes && Path(n)[k].header.height == k
    decreases n.header.height
  {
    assert NodeLinked(nodes, root, n);
    if n.parent != null {
      PathNodes(nodes, root, n.parent);
    }
  }

  lemma {:induction false} PathHeaders(nodes: set<BlockNode>, root: BlockNode, n: BlockNode)
    requires TreeLinked(nodes, root)
    requires n in nodes
    ensures |Headers(n)| == |Path(n)|
    ensures forall k :: 0 <= k < |Path(n)| ==> Headers(n)[k] == Path(n)[k].header
    decreases n.header.height
  {
    assert NodeLinked(nodes, root, n);
    if n.parent != null {
      PathHeaders(nodes, root, n.parent);
    }
  }

  lemma {:induction false} PathBlocks(nodes: set<BlockNode>, root: BlockNode, n: BlockNode)
    requires TreeLinked(nodes, root)
    requires n in nodes
    ensures |Blocks(n)| == |Path(n)|
    ensures forall k :: 0 <= k < |Path(n)| ==> Blocks(n)[k] == Path(n)[k].block
    decreases n.header.height
  {
    assert NodeLinked(nodes, root, n);
    if n.parent != null {
      PathBlocks(nodes, root, n.parent);
    }
  }

  lemma PathFacts(nodes: set<BlockNode>, root: BlockNode, n: BlockNode)
    requires TreeLinked(nodes, root)
    requires n in nodes
    ensures |Path(n)| == n.header.height + 1 == |Headers(n)| == |Blocks(n)|
    ensures Path(n)[n.header.height] == n
    ensures forall k :: 0 <= k < |Path(n)| ==> Path(n)[k] in nodes && Path(n)[k].header.height == k
    ensures forall k :: 0 <= k < |Path(n)| ==> Headers(n)[k] == Path(n)[k].header && Blocks(n)[k] == Path(n)[k].block
  {
    hide *;
    PathNodes(nodes, root, n);
    PathHeaders(nodes, root, n);
    PathBlocks(nodes, root, n);
  }

  lemma {:induction false} PathParents(nodes: set<BlockNode>, root: BlockNode, n: BlockNode, k: nat)
    requires TreeLinked(nodes, root)
    requires n in nodes
    requires k <= n.header.height
    ensures |Path(n)| == n.header.height + 1
    ensures k > 0 ==> Path(n)[k].parent == Path(n)[k - 1]
    ensures Path(Path(n)[k]) == Path(n)[..k + 1]
    ensures k == 0 ==> Path(n)[k] == root
    decreases n.header.height
  {
    PathFacts(nodes, root, n);
    assert NodeLinked(nodes, root, n);
    if n.parent != null {
      PathFacts(nodes, root, n.parent);
      if k < n.header.height {
        PathParents(nodes, root, n.parent, k);
        assert Path(n)[..k + 1] == Path(n.parent)[..k + 1];
      }
    }
  }

  /** A node on a path is where its height says. */
  lemma OnPath(nodes: set<BlockNode>, root: BlockNode, n: BlockNode, x: BlockNode)
    requires TreeLinked(nodes, root)
    requires n in nodes
    requires x in Path(n)
    ensures x in nodes && x.header.height <= n.header.height
    ensures |Path(n)| == n.header.height + 1
    ensures Path(n)[x.header.height] == x
    ensures Path(x) == Path(n)[..x.header.height + 1]
  {
    PathFacts(nodes, root, n);
    var k :| 0 <= k < |Path(n)| && Path(n)[k] == x;
    PathParents(nodes, root, n, k);
  }

  lemma NextOnPath(nodes: set<BlockNode>, root: BlockNode, n: BlockNode)
    requires TreeLinked(nodes, root)
    requires n in nodes
    requires n.parent != null
    ensures Path(n) == Path(n.parent) + [n]
    ensures Headers(n) == Headers(n.parent) + [n.header]
    ensures Blocks(n) == Blocks(n.parent) + [n.block]
    ensures n !in Path(n.parent)
  {
    assert NodeLinked(nodes, root, n);
    PathFacts(nodes, root, n.parent);
  }

  // ----- Rules that walk the branch -----

  /** One step of a walk from n towards the root. */
  lemma StepBack(nodes: set<BlockNode>, root: BlockNode, n: BlockNode, k: nat)
    requires TreeLinked(nodes, root)
    requires n in nodes
    requires k <= n.header.height
    ensures |Path(n)| == n.header.height + 1 == |Headers(n)|
    ensures Path(n)[k].header.height == k && Path(n)[k].header == Headers(n)[k]
    ensures Path(n)[k].parent == if k == 0 then null else Path(n)[k - 1]
    ensures Path(n)[n.header.height] == n
  {
    PathFacts(nodes, root, n);
    PathParents(nodes, root, n, k);
    assert NodeLinked(nodes, root, root);
  }

  lemma WindowGrows(all: seq<int>, k: nat)
    requires k < |all|
    ensures multiset(all[k..]) == multiset(all[k + 1..]) + multiset{all[k]}
  {
    assert all[k..] == [all[k]] + all[k + 1..];
  }

  method CalcPastMedianTime(node: BlockNode, ghost nodes: set<BlockNode>, ghost root: BlockNode) returns (median: int)
    requires TreeLinked(nodes, root) && node in nodes
    ensures median == PastMedianTime(Headers(node))
  {
    hide TreeLinked, Path, Headers, Sort;
    var times := [];
    var iter: BlockNode? := node;
    ghost var all := Timestamps(Headers(node));
    StepBack(nodes, root, node, node.header.height);
    ghost var k := node.header.height;
    while |times| < MEDIAN_TIME_BLOCKS && iter != null
      invariant |times| <= MEDIAN_TIME_BLOCKS
      invariant -1 <= k && k + 1 + |times| == |all|
      invariant iter == if k < 0 then null else Path(node)[k]
      invariant multiset(times) == multiset(all[k + 1..])
      decreases MEDIAN_TIME_BLOCKS - |times|
    {
      StepBack(nodes, root, node, k);
      WindowGrows(all, k);
      times := times + [iter.header.timestamp];
      iter := iter.parent;
      k := k - 1;
    }
    MedianPermuted(times, Window(all));
    SortLength(times);
    median := Sort(times)[|times| / 2];
  }

  /** The walk back ends exactly one period minus one ancestor before the previous block. */
  method FirstOfPeriod(prev: BlockNode, height: nat, ghost nodes: set<BlockNode>, ghost root: BlockNode)
    returns (first: BlockNode?)
    requires TreeLinked(nodes, root) && prev in nodes
    requires height <= prev.header.height
    ensures first != null
    ensures |Headers(prev)| == prev.header.height + 1
    ensures first.header == Headers(prev)[height]
  {
    hide TreeLinked, Path, Headers;
    first := prev;
    StepBack(nodes, root, prev, prev.header.height);
    while first != null && first.header.height != height
      invariant first != null && height <= first.header.height <= prev.header.height
      invariant first == Path(prev)[first.header.height] && first.header == Headers(prev)[first.header.height]
      decreases if first == null then 0 else first.header.height
    {
      StepBack(nodes, root, prev, first.header.height);
      StepBack(nodes, root, prev, first.header.height - 1);
      first := first.parent;
    }
  }

  method CalcNextRequiredDifficulty(p: ChainParams, prev: BlockNode, ghost nodes: set<BlockNode>, ghost root: BlockNode)
    returns (bits: nat)
    requires p.Valid()
    requires TreeLinked(nodes, root) && prev in nodes
    requires 0 < CompactToBig(prev.header.bits)
    ensures bits == NextBits(p, Headers(prev))
  {
    hide TreeLinked, Path, Headers, CompactToBig, BigToCompact, NewTarget, Timespan, p.Valid, p.BlocksPerRetarget;
    StepBack(nodes, root, prev, prev.header.height);
    if prev.header.height == 0 || p.regNet {
      return p.powLimitBits;
    }
    var period := p.BlocksPerRetarget();
    if (prev.header.height + 1) % period != 0 {
      return prev.header.bits;
    }
    PeriodFits(prev.header.height + 1, period);
    var first := FirstOfPeriod(prev, prev.header.height + 1 - period, nodes, root);
    var timespan := Timespan(prev.header.timestamp, first.header.timestamp);
    bits := BigToCompact(NewTarget(p, CompactToBig(prev.header.bits), timespan));
  }
}

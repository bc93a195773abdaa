/** The Merkle tree over transaction hashes, whose odd levels pair their last node with itself. */
module Merkle {
  import opened Types

  /** The double SHA-256 of two hashes, left abstract. */
  type PairHash = (Hash, Hash) -> Hash

  // ----- The root as a function of the leaves -----

  /** One level up: node i hashes nodes 2i and 2i+1, or node 2i twice when it is the last one. */
  function NextLevel(h: PairHash, level: seq<Hash>): (r: seq<Hash>)
    ensures |r| == (|level| + 1) / 2
  {
    seq((|level| + 1) / 2, i requires 0 <= i < (|level| + 1) / 2 =>
      h(level[2 * i], if 2 * i + 1 < |level| then level[2 * i + 1] else level[2 * i]))
  }

  function Root(h: PairHash, level: seq<Hash>): Hash
    requires level != []
    decreases |level|
  {
    if |level| == 1 then level[0] else Root(h, NextLevel(h, level))
  }

  /** The number of levels of the tree over n leaves. */
  function Depth(n: nat): (r: nat)
    requires n > 0
    ensures r > 0
  {
    if n == 1 then 1 else 1 + Depth((n + 1) / 2)
  }

  function Pow2(k: nat): (r: nat)
    ensures r > 0
  {
    if k == 0 then 1 else 2 * Pow2(k - 1)
  }

  /** The depth is the least that leaves room for n leaves. */
  lemma {:induction false} DepthBounds(n: nat)
    requires n > 0
    ensures n <= Pow2(Depth(n) - 1)
    ensures n > 1 ==> Pow2(Depth(n) - 2) < n
  {
    if n > 1 {
      var half := (n + 1) / 2;
      DepthBounds(half);
      if half == 1 {
        assert n == 2 && Depth(2) == 2;
      }
    }
  }

  // ----- The root from the top down -----

  /**
   The hash that stands at place i of the lowest level, when every level with an odd number of nodes
   repeats its last one: the place above it, left or right, but never beyond the end.
   */
  function Source(n: nat, i: nat): (r: nat)
    requires n > 0
    ensures r < n
    ensures i < n ==> r == i
    decreases n
  {
    if n == 1 then 0
    else
      var place := 2 * Source((n + 1) / 2, i / 2) + i % 2;
      if place < n then place else n - 1
  }

  /** The given hashes, and after them the repeated ones, up to a power of two. */
  function Filled(s: seq<Hash>): (r: seq<Hash>)
    requires s != []
    ensures |r| == Pow2(Depth(|s|) - 1)
  {
    seq(Pow2(Depth(|s|) - 1), i requires 0 <= i => s[Source(|s|, i)])
  }

  /** The hash of 2^k hashes: that of the left half and that of the right half, in this order. */
  function Halves(h: PairHash, s: seq<Hash>, k: nat): Hash
    requires |s| == Pow2(k)
  {
    if k == 0 then s[0] else h(Halves(h, s[..Pow2(k - 1)], k - 1), Halves(h, s[Pow2(k - 1)..], k - 1))
  }

  /** The given hashes come first, in their order. */
  lemma FilledStarts(s: seq<Hash>)
    requires s != []
    ensures s <= Filled(s)
  {
    DepthBounds(|s|);
    forall i | 0 <= i < |s|
      ensures Filled(s)[i] == s[i]
    {
    }
  }

  function Pairs(h: PairHash, s: seq<Hash>): (r: seq<Hash>)
    ensures |r| == |s| / 2
  {
    seq(|s| / 2, i requires 0 <= i < |s| / 2 => h(s[2 * i], s[2 * i + 1]))
  }

  lemma Pow2Next(k: nat)
    ensures Pow2(0) == 1 && Pow2(k + 1) == 2 * Pow2(k)
  {
  }

  lemma HalvesNext(h: PairHash, s: seq<Hash>, k: nat)
    requires |s| == Pow2(k + 1) == 2 * Pow2(k)
    ensures Halves(h, s, k + 1) == h(Halves(h, s[..Pow2(k)], k), Halves(h, s[Pow2(k)..], k))
  {
    hide Pow2;
  }

  lemma HalvesOfOne(h: PairHash, s: seq<Hash>)
    requires |s| == 1 == Pow2(0)
    ensures Halves(h, s, 0) == s[0]
  {
  }

  /** Hashing neighbours first gives the same. */
  lemma {:induction false} HalvesOfPairs(h: PairHash, s: seq<Hash>, k: nat)
    requires |s| == Pow2(k + 1) && |s| / 2 == Pow2(k)
    ensures Halves(h, Pairs(h, s), k) == Halves(h, s, k + 1)
  {
    hide Pow2, Halves;
    var n := Pow2(k);
    Pow2Next(k);
    HalvesNext(h, s, k);
    if k == 0 {
      HalvesOfOne(h, s[..1]);
      HalvesOfOne(h, s[1..]);
      HalvesOfOne(h, Pairs(h, s));
    } else {
      hide Pairs;
      Pow2Next(k - 1);
      HalvesOfPairs(h, s[..n], k - 1);
      HalvesOfPairs(h, s[n..], k - 1);
      PairsSplit(h, s, n);
      HalvesNext(h, Pairs(h, s), k - 1);
    }
  }

  lemma PairsSplit(h: PairHash, s: seq<Hash>, n: nat)
    requires n <= |s| && n % 2 == 0 && |s| % 2 == 0
    ensures Pairs(h, s)[..n / 2] == Pairs(h, s[..n])
    ensures Pairs(h, s)[n / 2..] == Pairs(h, s[n..])
  {
  }

  lemma DepthNext(n: nat)
    requires n > 1
    ensures Depth(n) == 1 + Depth((n + 1) / 2)
    ensures Pow2(Depth(n) - 1) == 2 * Pow2(Depth((n + 1) / 2) - 1)
  {
  }

  lemma FilledAt(s: seq<Hash>, i: nat)
    requires s != [] && i < |Filled(s)|
    ensures Filled(s)[i] == s[Source(|s|, i)]
  {
    hide Source, Depth;
  }

  lemma PairsOfFilled(h: PairHash, s: seq<Hash>)
    requires |s| > 1
    ensures Pairs(h, Filled(s)) == Filled(NextLevel(h, s))
  {
    hide Filled, Source, Depth, Pow2;
    var n, up := |s|, NextLevel(h, s);
    DepthNext(n);
    forall i | 0 <= i < |Filled(up)|
      ensures Pairs(h, Filled(s))[i] == Filled(up)[i]
    {
      SourceBelow(n, i);
      FilledAt(up, i);
      FilledAt(s, 2 * i);
      FilledAt(s, 2 * i + 1);
    }
  }

  lemma SourceBelow(n: nat, i: nat)
    requires n > 1
    ensures var j := Source((n + 1) / 2, i);
            && Source(n, 2 * i) == 2 * j < n
            && Source(n, 2 * i + 1) == if 2 * j + 1 < n then 2 * j + 1 else 2 * j
  {
    assert (2 * i) / 2 == i && (2 * i + 1) / 2 == i;
  }

  /** The root is the hash of the filled list, halved from the top down. */
  lemma {:induction false} RootFromTop(h: PairHash, s: seq<Hash>)
    requires s != []
    ensures Root(h, s) == Halves(h, Filled(s), Depth(|s|) - 1)
    decreases |s|
  {
    hide Halves, Filled, NextLevel, Depth, Pow2;
    if |s| > 1 {
      DepthNext(|s|);
      RootFromTop(h, NextLevel(h, s));
      HalvesOfPairs(h, Filled(s), Depth(|s|) - 2);
      PairsOfFilled(h, s);
    } else {
      OnlyOne(h, s);
    }
  }

  lemma OnlyOne(h: PairHash, s: seq<Hash>)
    requires |s| == 1
    ensures Depth(|s|) == 1 && |Filled(s)| == 1 == Pow2(0) && Halves(h, Filled(s), 0) == s[0]
  {
  }

  lemma RootOfTwo(h: PairHash, a: Hash, b: Hash)
    ensures Root(h, [a, b]) == h(a, b)
  {
    assert NextLevel(h, [a, b]) == [h(a, b)];
  }

  lemma RootOfThree(h: PairHash, a: Hash, b: Hash, c: Hash)
    ensures Root(h, [a, b, c]) == h(h(a, b), h(c, c))
  {
    assert NextLevel(h, [a, b, c]) == [h(a, b), h(c, c)];
    RootOfTwo(h, h(a, b), h(c, c));
  }

  // ----- Building the tree -----

  datatype Tree = Leaf(hash: Hash) | Node(hash: Hash, left: Tree, right: Tree)

  ghost function Hashes(nodes: seq<Tree>): (r: seq<Hash>)
    ensures |r| == |nodes|
  {
    seq(|nodes|, i requires 0 <= i < |nodes| => nodes[i].hash)
  }

  /** Every inner node carries the hash of its children. */
  ghost predicate WellHashed(h: PairHash, t: Tree) {
    t.Node? ==> t.hash == h(t.left.hash, t.right.hash) && WellHashed(h, t.left) && WellHashed(h, t.right)
  }

  ghost predicate AllWellHashed(h: PairHash, nodes: seq<Tree>) {
    forall t :: t in nodes ==> WellHashed(h, t)
  }

  /** The leaves from left to right. */
  ghost function Leaves(t: Tree): (r: seq<Hash>)
    ensures r != []
  {
    match t
    case Leaf(hash) => [hash]
    case Node(_, left, right) => Leaves(left) + Leaves(right)
  }

  /** All leaves are on one level. */
  ghost predicate Level(t: Tree, k: nat) {
    match t
    case Leaf(_) => k == 0
    case Node(_, left, right) => k > 0 && Level(left, k - 1) && Level(right, k - 1)
  }

  ghost predicate AllLevel(nodes: seq<Tree>, k: nat) {
    forall t :: t in nodes ==> Level(t, k)
  }

  /** A tree whose nodes carry the hashes of their children, left before right, has the hash of its leaves. */
  lemma {:induction false} HashOfLeaves(h: PairHash, t: Tree, k: nat)
    requires WellHashed(h, t) && Level(t, k)
    ensures |Leaves(t)| == Pow2(k) && t.hash == Halves(h, Leaves(t), k)
  {
    if t.Node? {
      HashOfLeaves(h, t.left, k - 1);
      HashOfLeaves(h, t.right, k - 1);
      assert Leaves(t)[..Pow2(k - 1)] == Leaves(t.left) && Leaves(t)[Pow2(k - 1)..] == Leaves(t.right);
    }
  }

  /** The leaves under the first places of the lowest level that the nodes will have as one tree. */
  ghost function Spread(nodes: seq<Tree>, n: nat): seq<Hash>
    requires nodes != []
  {
    if n == 0 then [] else Spread(nodes, n - 1) + Leaves(nodes[Source(|nodes|, n - 1)])
  }

  /** The nodes of the next level: those at even places, each before its neighbour. */
  ghost predicate PairedUp(nodes: seq<Tree>, next: seq<Tree>) {
    && |next| == (|nodes| + 1) / 2
    && forall j :: 0 <= j < |next| ==>
                     && next[j].Node? && next[j].left == nodes[2 * j]
                     && next[j].right == nodes[if 2 * j + 1 < |nodes| then 2 * j + 1 else 2 * j]
  }

  lemma SpreadNext(nodes: seq<Tree>, n: nat)
    requires nodes != []
    ensures Spread(nodes, 0) == []
    ensures Spread(nodes, n + 1) == Spread(nodes, n) + Leaves(nodes[Source(|nodes|, n)])
  {
    hide Source, Leaves;
  }

  lemma LeavesOfPair(nodes: seq<Tree>, next: seq<Tree>, j: nat)
    requires PairedUp(nodes, next) && j < |next|
    ensures 2 * j < |nodes|
    ensures Leaves(next[j]) == Leaves(nodes[2 * j]) + Leaves(nodes[if 2 * j + 1 < |nodes| then 2 * j + 1 else 2 * j])
  {
  }

  lemma {:induction false} SpreadKept(nodes: seq<Tree>, next: seq<Tree>, n: nat)
    requires |nodes| > 1 && PairedUp(nodes, next)
    ensures Spread(next, n) == Spread(nodes, 2 * n)
  {
    hide Spread, Source, Leaves;
    if n == 0 {
      SpreadNext(nodes, 0);
      SpreadNext(next, 0);
    } else {
      SpreadKept(nodes, next, n - 1);
      SourceBelow(|nodes|, n - 1);
      SpreadNext(next, n - 1);
      SpreadNext(nodes, 2 * n - 2);
      SpreadNext(nodes, 2 * n - 1);
      var j := Source(|next|, n - 1);
      LeavesOfPair(nodes, next, j);
      Associative(Spread(nodes, 2 * n - 2), Leaves(nodes[2 * j]), Leaves(nodes[if 2 * j + 1 < |nodes| then 2 * j + 1 else 2 * j]));
    }
  }

  lemma {:induction false} SpreadOfLeaves(leaves: seq<Tree>, n: nat)
    requires leaves != [] && AllLevel(leaves, 0) && n <= Pow2(Depth(|leaves|) - 1)
    ensures Spread(leaves, n) == Filled(Hashes(leaves))[..n]
  {
    hide Spread, Source, Filled, Depth, Pow2;
    SpreadNext(leaves, 0);
    if n > 0 {
      SpreadOfLeaves(leaves, n - 1);
      SpreadNext(leaves, n - 1);
      FilledAt(Hashes(leaves), n - 1);
      var t := leaves[Source(|leaves|, n - 1)];
      assert t in leaves;
      assert Leaves(t) == [t.hash];
    }
  }

  method GenerateLeaves(h: PairHash, hashes: seq<Hash>) returns (leaves: seq<Tree>)
    ensures Hashes(leaves) == hashes
    ensures AllWellHashed(h, leaves) && AllLevel(leaves, 0)
  {
    leaves := [];
    for i := 0 to |hashes|
      invariant Hashes(leaves) == hashes[..i]
      invariant AllWellHashed(h, leaves) && AllLevel(leaves, 0)
    {
      leaves := leaves + [Leaf(hashes[i])];
    }
  }

  method LevelUp(h: PairHash, nodes: seq<Tree>) returns (next: seq<Tree>)
    requires AllWellHashed(h, nodes)
    ensures Hashes(next) == NextLevel(h, Hashes(nodes))
    ensures AllWellHashed(h, next) && PairedUp(nodes, next)
  {
    next := [];
    for i := 0 to |nodes| / 2
      invariant |next| == i
      invariant forall j :: 0 <= j < i ==> next[j].Node? && next[j].left == nodes[2 * j] && next[j].right == nodes[2 * j + 1]
      invariant AllWellHashed(h, next)
    {
      var left, right := nodes[2 * i], nodes[2 * i + 1];
      next := next + [Node(h(left.hash, right.hash), left, right)];
    }
    if |nodes| % 2 == 1 {
      var last := nodes[|nodes| - 1];
      next := next + [Node(h(last.hash, last.hash), last, last)];
    }
    PairedHashes(h, nodes, next);
  }

  lemma PairedHashes(h: PairHash, nodes: seq<Tree>, next: seq<Tree>)
    requires AllWellHashed(h, next) && PairedUp(nodes, next)
    ensures Hashes(next) == NextLevel(h, Hashes(nodes))
  {
    forall j | 0 <= j < |next|
      ensures Hashes(next)[j] == NextLevel(h, Hashes(nodes))[j]
    {
      assert next[j] in next;
      assert WellHashed(h, next[j]);
    }
  }

  lemma PairedLevel(nodes: seq<Tree>, next: seq<Tree>, k: nat)
    requires AllLevel(nodes, k) && PairedUp(nodes, next)
    ensures AllLevel(next, k + 1)
  {
    forall t | t in next
      ensures Level(t, k + 1)
    {
      var j :| 0 <= j < |next| && next[j] == t;
      assert t.left in nodes && t.right in nodes;
    }
  }

  /**
   The tree has the least depth. Its leaves, from left to right, start with the hashes in their order
   and only repeat some of them after that. With the hashes of its nodes this fixes its root.
   */
  method NewMerkleTree(h: PairHash, hashes: seq<Hash>) returns (tree: Option<(Tree, nat)>)
    ensures tree.None? <==> hashes == []
    ensures tree.Some? ==>
              && tree.value.0.hash == Root(h, hashes)
              && WellHashed(h, tree.value.0)
              && tree.value.1 == Depth(|hashes|)
              && Level(tree.value.0, tree.value.1 - 1)
              && Leaves(tree.value.0) == Filled(hashes)
              && hashes <= Leaves(tree.value.0)
  {
    hide Root, Depth, Pow2, Spread, Leaves, Filled, NextLevel, Level, AllLevel, WellHashed, AllWellHashed, PairedUp;
    if hashes == [] {
      return None;
    }
    var height := 1;
    var nodes := GenerateLeaves(h, hashes);
    ghost var n := Pow2(Depth(|hashes|) - 1);
    SpreadOfLeaves(nodes, n);
    FilledStarts(hashes);
    while |nodes| > 1
      invariant nodes != []
      invariant AllWellHashed(h, nodes) && AllLevel(nodes, height - 1)
      invariant Root(h, Hashes(nodes)) == Root(h, hashes)
      invariant height - 1 + Depth(|nodes|) == Depth(|hashes|)
      invariant n == Pow2(Depth(|nodes|) - 1) && Spread(nodes, n) == Filled(hashes)
    {
      ghost var before := nodes;
      DepthNext(|nodes|);
      RootNext(h, Hashes(nodes));
      nodes := LevelUp(h, nodes);
      PairedLevel(before, nodes, height - 1);
      SpreadKept(before, nodes, n / 2);
      height := height + 1;
      n := n / 2;
    }
    OneSpread(h, nodes, height - 1);
    return Some((nodes[0], height));
  }

  lemma RootNext(h: PairHash, s: seq<Hash>)
    requires |s| > 1
    ensures Root(h, s) == Root(h, NextLevel(h, s))
  {
    hide NextLevel;
  }

  lemma OneSpread(h: PairHash, nodes: seq<Tree>, k: nat)
    requires |nodes| == 1 && AllWellHashed(h, nodes) && AllLevel(nodes, k)
    ensures Depth(1) == 1 && Pow2(0) == 1 && Spread(nodes, 1) == Leaves(nodes[0])
    ensures WellHashed(h, nodes[0]) && Level(nodes[0], k) && Root(h, Hashes(nodes)) == nodes[0].hash
  {
    assert Spread(nodes, 0) == [];
    assert nodes[0] in nodes;
  }

  // ----- What the root determines -----

  ghost predicate CollisionFree(h: PairHash) {
    forall a, b, c, d :: h(a, b) == h(c, d) ==> a == c && b == d
  }

  ghost predicate NoDuplicates(s: seq<Hash>) {
    forall i, j :: 0 <= i < j < |s| ==> s[i] != s[j]
  }

  lemma NextLevelNoDuplicates(h: PairHash, s: seq<Hash>)
    requires CollisionFree(h)
    requires NoDuplicates(s)
    ensures NoDuplicates(NextLevel(h, s))
  {
  }

  /** The level above determines the level below, the doubled last node included. */
  lemma NextLevelInjective(h: PairHash, xs: seq<Hash>, ys: seq<Hash>)
    requires CollisionFree(h)
    requires NoDuplicates(xs) && NoDuplicates(ys)
    requires NextLevel(h, xs) == NextLevel(h, ys)
    ensures xs == ys
  {
    var n := (|xs| + 1) / 2;
    forall i | 0 <= i < n
      ensures xs[2 * i] == ys[2 * i]
      ensures (if 2 * i + 1 < |xs| then xs[2 * i + 1] else xs[2 * i]) == (if 2 * i + 1 < |ys| then ys[2 * i + 1] else ys[2 * i])
    {
      assert NextLevel(h, xs)[i] == NextLevel(h, ys)[i];
    }
    if n > 0 {
      assert |xs| == |ys| by {
        assert 2 * (n - 1) + 1 < |xs| ==> xs[2 * (n - 1)] != xs[2 * (n - 1) + 1];
        assert 2 * (n - 1) + 1 < |ys| ==> ys[2 * (n - 1)] != ys[2 * (n - 1) + 1];
      }
      forall k | 0 <= k < |xs|
        ensures xs[k] == ys[k]
      {
        assert k == 2 * (k / 2) || k == 2 * (k / 2) + 1;
      }
    }
  }

  /** Lists of equal depth and equal root are equal, although odd levels double their last node. */
  lemma {:induction false} RootDeterminesList(h: PairHash, xs: seq<Hash>, ys: seq<Hash>)
    requires CollisionFree(h)
    requires xs != [] && ys != []
    requires NoDuplicates(xs) && NoDuplicates(ys)
    requires Depth(|xs|) == Depth(|ys|)
    requires Root(h, xs) == Root(h, ys)
    ensures xs == ys
    decreases |xs|
  {
    if |xs| > 1 && |ys| > 1 {
      NextLevelNoDuplicates(h, xs);
      NextLevelNoDuplicates(h, ys);
      RootDeterminesList(h, NextLevel(h, xs), NextLevel(h, ys));
      NextLevelInjective(h, xs, ys);
    }
  }

  /** The list k levels above s. */
  ghost function Ascend(h: PairHash, s: seq<Hash>, k: nat): seq<Hash>
    decreases k
  {
    if k == 0 then s else Ascend(h, NextLevel(h, s), k - 1)
  }

  lemma NextLevelPairs(h: PairHash, s: seq<Hash>)
    ensures forall i :: 0 <= i < |NextLevel(h, s)| ==> IsPair(h, NextLevel(h, s)[i])
  {
    forall i | 0 <= i < |NextLevel(h, s)|
      ensures IsPair(h, NextLevel(h, s)[i])
    {
      var a, b := s[2 * i], if 2 * i + 1 < |s| then s[2 * i + 1] else s[2 * i];
      assert NextLevel(h, s)[i] == h(a, b);
    }
  }

  lemma {:induction false} AscendFacts(h: PairHash, s: seq<Hash>, k: nat)
    requires s != [] && k < Depth(|s|)
    ensures Ascend(h, s, k) != []
    ensures Depth(|Ascend(h, s, k)|) == Depth(|s|) - k
    ensures Root(h, Ascend(h, s, k)) == Root(h, s)
    ensures CollisionFree(h) && NoDuplicates(s) ==> NoDuplicates(Ascend(h, s, k))
    ensures k > 0 ==> forall i :: 0 <= i < |Ascend(h, s, k)| ==> IsPair(h, Ascend(h, s, k)[i])
    decreases k
  {
    hide NextLevel, CollisionFree, NoDuplicates, IsPair;
    if k > 0 {
      AscendFacts(h, NextLevel(h, s), k - 1);
      NextLevelPairs(h, s);
      if CollisionFree(h) && NoDuplicates(s) {
        NextLevelNoDuplicates(h, s);
      }
    }
  }

  /** Two lists share their root exactly when the shallower one is a level of the deeper one's tree. */
  lemma SameRootIff(h: PairHash, xs: seq<Hash>, ys: seq<Hash>)
    requires CollisionFree(h)
    requires xs != [] && ys != []
    requires NoDuplicates(xs) && NoDuplicates(ys)
    requires Depth(|xs|) <= Depth(|ys|)
    ensures Root(h, xs) == Root(h, ys) <==> xs == Ascend(h, ys, Depth(|ys|) - Depth(|xs|))
  {
    var k := Depth(|ys|) - Depth(|xs|);
    AscendFacts(h, ys, k);
    if Root(h, xs) == Root(h, ys) {
      RootDeterminesList(h, xs, Ascend(h, ys, k));
    }
  }

  ghost predicate IsPair(h: PairHash, x: Hash) {
    exists a, b :: x == h(a, b)
  }

  ghost predicate NoPairs(h: PairHash, s: seq<Hash>) {
    forall i :: 0 <= i < |s| ==> !IsPair(h, s[i])
  }

  /** The levels above the leaves hold only hashes of pairs. */
  lemma LeavesAreNoLevel(h: PairHash, xs: seq<Hash>, ys: seq<Hash>, k: nat)
    requires xs != [] && ys != [] && k < Depth(|ys|)
    requires NoPairs(h, xs)
    requires xs == Ascend(h, ys, k)
    ensures xs == ys
  {
    AscendFacts(h, ys, k);
    assert !IsPair(h, xs[0]);
    assert k == 0;
  }

  lemma ShallowerLeaves(h: PairHash, xs: seq<Hash>, ys: seq<Hash>)
    requires CollisionFree(h)
    requires xs != [] && ys != []
    requires NoDuplicates(xs) && NoDuplicates(ys)
    requires NoPairs(h, xs)
    requires Depth(|xs|) <= Depth(|ys|)
    requires Root(h, xs) == Root(h, ys)
    ensures xs == ys
  {
    hide *;
    SameRootIff(h, xs, ys);
    LeavesAreNoLevel(h, xs, ys, Depth(|ys|) - Depth(|xs|));
  }

  /** When no leaf is itself the hash of a pair, the root alone determines the leaves. */
  lemma RootDeterminesLeaves(h: PairHash, xs: seq<Hash>, ys: seq<Hash>)
    requires CollisionFree(h)
    requires xs != [] && ys != []
    requires NoDuplicates(xs) && NoDuplicates(ys)
    requires NoPairs(h, xs) && NoPairs(h, ys)
    requires Root(h, xs) == Root(h, ys)
    ensures xs == ys
  {
    if Depth(|xs|) <= Depth(|ys|) {
      ShallowerLeaves(h, xs, ys);
    } else {
      ShallowerLeaves(h, ys, xs);
    }
  }

  /** Without the check for duplicates the root is not enough: a last hash may be listed twice. */
  lemma DuplicateLeavesRoot(h: PairHash, a: Hash, b: Hash, c: Hash)
    ensures Root(h, [a, b, c]) == Root(h, [a, b, c, c])
    ensures Depth(|[a, b, c]|) == Depth(|[a, b, c, c]|)
  {
    assert NextLevel(h, [a, b, c]) == [h(a, b), h(c, c)];
    assert NextLevel(h, [a, b, c, c]) == [h(a, b), h(c, c)];
  }
}

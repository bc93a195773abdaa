/** A run in which the orphan pool exceeds its limit. */
module FullPool {
  import opened Types
  import opened Ledger
  import opened Compact
  import opened Difficulty
  import opened TransactionCodec
  import opened BlockTree
  import opened OrphanPool
  import opened Chain
  import opened Genesis
  import opened PlainBlocks

  // ----- The pool on values -----

  lemma AllLive(orphans: map<Hash, OrphanBlock>, now: int)
    requires forall h :: h in orphans ==> now <= orphans[h].expiration
    ensures Live(orphans, now) == orphans
  {
    assert forall h :: h !in Expired(orphans, now);
    assert Expired(orphans, now) <= {};
    assert orphans - {} == orphans;
  }

  /** One block in an empty pool. */
  lemma OneAdded(now: int, limit: nat, b: Block, after: map<Hash, OrphanBlock>, o': OrphanBlock?)
    requires limit > 0 && Added(map[], null, now, limit, b, after, o')
    ensures after.Keys == {b.header.hash} && after[b.header.hash].block == b && after[b.header.hash].expiration == now + ONE_HOUR
    ensures o' == null
  {
    hide Live, Remembered, OneLess, Gone, Oldest;
    AllLive(map[], now);
    RememberedNone(map[], now);
    KeysWith(after, b.header.hash);
  }

  lemma RememberedNone(orphans: map<Hash, OrphanBlock>, now: int)
    ensures Remembered(null, orphans, now) == null
  {
  }

  lemma KeysWith(m: map<Hash, OrphanBlock>, x: Hash)
    requires x in m
    ensures m.Keys == (m - {x}).Keys + {x}
  {
  }

  /** A second one: the first is remembered as the oldest. */
  lemma TwoAdded(before: map<Hash, OrphanBlock>, x: Hash, now: int, b: Block, after: map<Hash, OrphanBlock>, o': OrphanBlock?)
    requires before.Keys == {x} && HashOf(before[x]) == x && now <= before[x].expiration && b.header.hash != x
    requires Added(before, null, now, 2, b, after, o')
    ensures after.Keys == {x, b.header.hash} && after[x] == before[x] && o' == before[x]
    ensures after[b.header.hash].block == b && after[b.header.hash].expiration == now + ONE_HOUR
  {
    hide Live, Remembered, OneLess, Gone, Oldest;
    AllLive(before, now);
    RememberedNone(before, now);
    assert |before.Keys| == 1;
    KeysWith(after, b.header.hash);
    assert (after - {b.header.hash})[x] == before[x];
  }

  /** A block in a pool of one, when the remembered block has left: it stays remembered. */
  lemma StillRemembered(
    before: map<Hash, OrphanBlock>, y: Hash, o: OrphanBlock, now: int, b: Block, after: map<Hash, OrphanBlock>, o': OrphanBlock?)
    requires before.Keys == {y} && o.expiration <= before[y].expiration && now <= before[y].expiration
    requires HashOf(o) != y && b.header.hash != y
    requires Added(before, o, now, 2, b, after, o')
    ensures after.Keys == {y, b.header.hash} && after[y] == before[y] && o' == o
    ensures after[b.header.hash].block == b && after[b.header.hash].expiration == now + ONE_HOUR
  {
    hide Live, OneLess, Gone;
    AllLive(before, now);
    assert |before.Keys| == 1;
    KeysWith(after, b.header.hash);
    assert (after - {b.header.hash})[y] == before[y];
  }

  /** A block in a full pool, when the remembered block has left: none leaves. */
  lemma NoRoomMade(before: map<Hash, OrphanBlock>, y: Hash, z: Hash, o: OrphanBlock, now: int, b: Block, after: map<Hash, OrphanBlock>, o': OrphanBlock?)
    requires before.Keys == {y, z} && y != z && HashOf(o) !in before
    requires o.expiration <= before[y].expiration && o.expiration <= before[z].expiration
    requires now <= before[y].expiration && now <= before[z].expiration
    requires Added(before, o, now, 2, b, after, o')
    ensures |after| == 3
  {
    hide Live, OneLess, Remembered, ChosenFrom, Added;
    AllLive(before, now);
    assert |before.Keys| == 2;
    AddedSize(before, o, now, 2, b, after, o');
  }

  // ----- The blocks -----

  /** A block and one on top of it. */
  function P(w: World): Block {
    Plain(w, Origin(w).header.hash, 1, 1, 1)
  }

  function X(w: World): Block {
    Plain(w, P(w).header.hash, 2, 2, 2)
  }

  /** A block that is never submitted, and three on top of it. */
  function Q(w: World): Block {
    Plain(w, Origin(w).header.hash, 1, 3, 3)
  }

  function Y(w: World, mark: Byte): Block {
    Plain(w, Q(w).header.hash, 2, mark, mark)
  }

  function Waiting(w: World): seq<Block> {
    [Origin(w), P(w), X(w), Q(w), Y(w, 4), Y(w, 5), Y(w, 6)]
  }

  lemma Links(w: World)
    ensures IsPlain(w, P(w)) && P(w).header.nonce == 1 && P(w).header.prevHash == Origin(w).header.hash && P(w).header.height == 1
    ensures P(w).txs == [Marked(w, 1)]
    ensures IsPlain(w, X(w)) && X(w).header.nonce == 2 && X(w).header.prevHash == P(w).header.hash
    ensures IsPlain(w, Q(w)) && Q(w).header.nonce == 3
    ensures forall m: Byte :: IsPlain(w, Y(w, m)) && Y(w, m).header.nonce == m && Y(w, m).header.prevHash == Q(w).header.hash
  {
    hide Plain, IsPlain, Origin, Marked;
    PlainIsPlain(w, Origin(w).header.hash, 1, 1, 1);
    PlainIsPlain(w, P(w).header.hash, 2, 2, 2);
    PlainIsPlain(w, Origin(w).header.hash, 1, 3, 3);
    forall m: Byte
      ensures IsPlain(w, Y(w, m)) && Y(w, m).header.nonce == m && Y(w, m).header.prevHash == Q(w).header.hash
    {
      PlainIsPlain(w, Q(w).header.hash, 2, m, m);
    }
  }

  lemma Listing(w: World)
    ensures |Waiting(w)| == 7 && Waiting(w)[0] == Origin(w) && Waiting(w)[1] == P(w) && Waiting(w)[2] == X(w) && Waiting(w)[3] == Q(w)
    ensures Waiting(w)[4] == Y(w, 4) && Waiting(w)[5] == Y(w, 5) && Waiting(w)[6] == Y(w, 6)
  {
    hide Origin, P, X, Q, Y;
  }

  lemma WaitingNumbered(w: World)
    ensures Numbered(w, Waiting(w))
  {
    hide P, X, Q, Y, IsPlain, Origin, Marked;
    Links(w);
  }

  lemma HashesApart(w: World, i: nat, j: nat)
    requires Proper(w) && i < j < |Waiting(w)|
    ensures Waiting(w)[i].header.hash != Waiting(w)[j].header.hash
    ensures Waiting(w)[i].header.hash != ZERO_HASH
  {
    hide Waiting, Numbered, Injective;
    WaitingNumbered(w);
    NumbersApart(w, Waiting(w), i, j);
    NumberedHeader(w, Waiting(w), i);
  }

  /** What the run needs of its hashes. */
  lemma AllApart(w: World)
    requires Proper(w)
    ensures Origin(w).header.hash != ZERO_HASH && P(w).header.hash != ZERO_HASH && Q(w).header.hash != ZERO_HASH
    ensures Q(w).header.hash !in {Origin(w).header.hash, P(w).header.hash, X(w).header.hash}
    ensures P(w).header.hash != Origin(w).header.hash
    ensures X(w).header.hash !in {Origin(w).header.hash, P(w).header.hash}
    ensures Y(w, 4).header.hash !in {Origin(w).header.hash, P(w).header.hash, X(w).header.hash}
    ensures Y(w, 5).header.hash !in {Origin(w).header.hash, P(w).header.hash, X(w).header.hash, Y(w, 4).header.hash}
    ensures Y(w, 6).header.hash !in {Origin(w).header.hash, P(w).header.hash, X(w).header.hash, Y(w, 4).header.hash, Y(w, 5).header.hash}
  {
    hide *;
    Listing(w);
    HashesApart(w, 0, 1);
    HashesApart(w, 0, 2);
    HashesApart(w, 0, 3);
    HashesApart(w, 0, 4);
    HashesApart(w, 0, 5);
    HashesApart(w, 0, 6);
    HashesApart(w, 1, 2);
    HashesApart(w, 1, 3);
    HashesApart(w, 1, 4);
    HashesApart(w, 1, 5);
    HashesApart(w, 1, 6);
    HashesApart(w, 2, 3);
    HashesApart(w, 2, 4);
    HashesApart(w, 2, 5);
    HashesApart(w, 2, 6);
    HashesApart(w, 3, 4);
    HashesApart(w, 4, 5);
    HashesApart(w, 4, 6);
    HashesApart(w, 5, 6);
  }

  lemma ParentValid(w: World)
    requires Proper(w)
    ensures ValidChain([Origin(w)] + [P(w)])
  {
    hide *;
    Links(w);
    AllApart(w);
    ProperParts(w);
    OriginLeaves(w);
    MarkedApart(w, 1);
    PlainConnects(w, Replay([Origin(w)]), P(w));
    Grown([Origin(w)], P(w));
  }

  lemma ProperParts(w: World)
    requires Proper(w)
    ensures Injective(w.hash)
  {
  }

  // ----- The calls -----

  /** A block of the run whose parent is not known. */
  method Pool(bc: Blockchain, w: World, minFee: int, ghost k: nat, b: Block, now: int)
    requires Proper(w) && 0 < k < |Waiting(w)| && b == Waiting(w)[k]
    requires bc.Valid() && Follows(bc, w, minFee, Waiting(w))
    requires b.header.hash !in bc.index && b.header.hash !in bc.orphans && b.header.prevHash !in bc.index && b.header.prevHash != ZERO_HASH
    modifies bc, bc.store, bc.nodes`inMainChain
    ensures bc.Valid()
    ensures bc.index == old(bc.index) && bc.nodes == old(bc.nodes) && bc.bestChain == old(bc.bestChain)
    ensures Added(old(bc.orphans), old(bc.oldestOrphan), now, bc.maxOrphans, b, bc.orphans, bc.oldestOrphan)
  {
    hide *;
    WaitingNumbered(w);
    CanSubmit(bc, w, minFee, Waiting(w), k);
    bc.CheckedMeans(b, 0, true);
    bc.NowIs();
    var inMain, isOrphan, ok;
    ghost var node, trace;
    inMain, isOrphan, ok, node, trace := bc.ProcessBlock(b, 0, true, now);
    bc.NowIs();
  }

  /** The parent of a pooled block is accepted. The pooled block leaves, and stays remembered. */
  method Accept(bc: Blockchain, w: World, minFee: int, ghost y: Hash)
    requires Proper(w) && bc.Valid() && Follows(bc, w, minFee, Waiting(w)) && bc.nodes == {bc.root} && bc.bestChain == bc.root
    requires bc.orphans.Keys == {X(w).header.hash, y} && X(w).header.hash != y && P(w).header.hash !in {X(w).header.hash, y}
    requires ParentOf(bc.orphans[X(w).header.hash]) == P(w).header.hash
    requires ParentOf(bc.orphans[y]) !in {P(w).header.hash, X(w).header.hash}
    requires P(w).header.hash !in bc.index
    modifies bc, bc.store, bc.nodes`inMainChain
    ensures bc.Valid() && bc.oldestOrphan == old(bc.oldestOrphan)
    ensures forall n :: n in bc.nodes && n !in old(bc.nodes) ==> fresh(n)
    ensures bc.orphans.Keys == {y} && bc.orphans[y] == old(bc.orphans)[y]
    ensures forall x :: x in bc.index ==> x in old(bc.index) || x in {P(w).header.hash, X(w).header.hash}
  {
    hide *;
    WaitingNumbered(w);
    Listing(w);
    Links(w);
    AllApart(w);
    FollowsMeans(bc, w, minFee, Waiting(w));
    RootMeans(bc.root, w);
    ghost var root, p, x := bc.root, P(w), X(w).header.hash;
    bc.Parts();
    bc.TreeParts();
    bc.NowIs();
    CanSubmit(bc, w, minFee, Waiting(w), 1);
    FitsInTree(bc, w, p, root);
    ghost var was := bc.Now();
    var inMain, isOrphan, ok;
    ghost var node, trace;
    inMain, isOrphan, ok, node, trace := bc.ProcessBlock(P(w), 0, true, 2);
    TakenParts(bc, was, p, node, trace, inMain, ok);
    Topped(w, root, node, p, was.index);
    TopMeans(root, node, p);
    ParentValid(w);
    OneLeaves(was.orphans, bc.orphans, p.header.hash, x, y, trace, ok);
    IndexedNow(was.index.Keys, bc.index, p.header.hash, x, trace);
  }

  lemma TakenParts(bc: Blockchain, was: Snapshot, b: Block, node: BlockNode?, trace: seq<Hash>, inMain: bool, ok: bool)
    requires bc.Taken(was, b, node, trace, inMain, ok) && node != null
    ensures NodeFor(node, b, was.index) && b.header.prevHash in was.index
    ensures ValidChain(Blocks(node)) && !ok ==> trace != []
    ensures Traced(was.orphans, bc.orphans, b.header.hash, trace) && bc.oldestOrphan == was.oldest
    ensures Within(was.index.Keys, bc.index.Keys, [b.header.hash] + trace)
    ensures ok ==> forall x :: x in trace <==> Descends(was.orphans, b.header.hash, x)
  {
    hide Blockchain.Outcome, ValidChain, Blocks, Descends, CalcWork, Traced, Within;
  }

  /** Of two pooled blocks only the child of the accepted one is submitted. */
  lemma OneLeaves(
    start: map<Hash, OrphanBlock>, orphans: map<Hash, OrphanBlock>, h: Hash, x: Hash, y: Hash, trace: seq<Hash>, ok: bool)
    requires Traced(start, orphans, h, trace) && start.Keys == {x, y} && x != y
    requires ParentOf(start[x]) == h && ParentOf(start[y]) !in {h, x}
    requires ok ==> forall z :: z in trace <==> Descends(start, h, z)
    requires !ok ==> trace != []
    ensures trace == [x] && orphans.Keys == {y} && orphans[y] == start[y]
  {
    hide Descends;
    if ok {
      ChildDescends(start, h, x);
    }
    FirstIsChild(start, orphans, h, trace);
    assert trace[0] in start.Keys;
    SecondSubmitted(start, orphans, h, trace);
    assert |trace| == 1;
    assert forall z :: z in orphans <==> z == y;
  }

  lemma ChildDescends(start: map<Hash, OrphanBlock>, h: Hash, x: Hash)
    requires x in start && ParentOf(start[x]) == h
    ensures Descends(start, h, x)
  {
    assert Lineage(start, h, [x]);
    assert [x][|[x]| - 1] == x;
  }

  lemma SecondSubmitted(start: map<Hash, OrphanBlock>, orphans: map<Hash, OrphanBlock>, h: Hash, trace: seq<Hash>)
    requires Traced(start, orphans, h, trace)
    ensures |trace| > 1 ==> trace[1] in start && trace[1] != trace[0] && ParentOf(start[trace[1]]) in {h, trace[0]}
  {
    if |trace| > 1 {
      assert trace[..1] == [trace[0]];
    }
  }

  lemma IndexedNow(before: set<Hash>, index: map<Hash, BlockNode>, h: Hash, x: Hash, trace: seq<Hash>)
    requires Within(before, index.Keys, [h] + trace) && trace == [x]
    ensures forall z :: z in index ==> z in before || z in {h, x}
  {
    assert forall z :: z in [h] + trace ==> z in {h, x};
  }

  /**
   With a limit of two: two blocks are pooled, the older one is remembered and then accepted, and two
   more are pooled. The second of these finds the pool full, and nothing to make room.
   */
  method PoolExceedsLimit(w: World, minFee: int) returns (bc: Blockchain)
    requires Proper(w)
    ensures fresh(bc) && bc.Valid() && bc.maxOrphans == 2 && |bc.orphans| == 3
  {
    hide *;
    WaitingNumbered(w);
    Listing(w);
    Links(w);
    AllApart(w);
    ghost var x, y, z := X(w).header.hash, Y(w, 4).header.hash, Y(w, 5).header.hash;
    bc := Start(w, minFee, 2, Waiting(w));
    Pool(bc, w, minFee, 2, X(w), 0);
    OneAdded(0, 2, X(w), bc.orphans, bc.oldestOrphan);
    ghost var one := bc.orphans;
    HourAhead();
    OrphanIs(one[x]);
    Pool(bc, w, minFee, 4, Y(w, 4), 1);
    TwoAdded(one, x, 1, Y(w, 4), bc.orphans, bc.oldestOrphan);
    OrphanIs(bc.orphans[y]);
    ghost var o := bc.oldestOrphan;
    Accept(bc, w, minFee, y);
    ghost var left := bc.orphans;
    Pool(bc, w, minFee, 5, Y(w, 5), 3);
    StillRemembered(left, y, o, 3, Y(w, 5), bc.orphans, bc.oldestOrphan);
    ghost var full := bc.orphans;
    Pool(bc, w, minFee, 6, Y(w, 6), 4);
    NoRoomMade(full, y, z, o, 4, Y(w, 6), bc.orphans, bc.oldestOrphan);
  }

  lemma HourAhead()
    ensures ONE_HOUR == 3600
  {
  }

  lemma OrphanIs(o: OrphanBlock)
    ensures HashOf(o) == o.block.header.hash && ParentOf(o) == o.block.header.prevHash
  {
  }
}

/** Blocks whose parents are not known yet, indexed by their own hash and by their parent's. */
module OrphanPool {
  import opened Types

  class OrphanBlock {
    const block: Block
    const expiration: int

    constructor (block: Block, expiration: int)
      ensures this.block == block && this.expiration == expiration
    {
      this.block := block;
      this.expiration := expiration;
    }
  }

  function HashOf(o: OrphanBlock): Hash {
    o.block.header.hash
  }

  function ParentOf(o: OrphanBlock): Hash {
    o.block.header.prevHash
  }

  ghost predicate NoDuplicates(s: seq<OrphanBlock>) {
    forall i, j :: 0 <= i < j < |s| ==> s[i] != s[j]
  }

  ghost predicate ByHash(orphans: map<Hash, OrphanBlock>, prev: map<Hash, seq<OrphanBlock>>) {
    forall h :: h in orphans ==>
                  HashOf(orphans[h]) == h && ParentOf(orphans[h]) in prev && orphans[h] in prev[ParentOf(orphans[h])]
  }

  /** A list under a parent hash: not empty, without duplicates, and of pooled children of that parent. */
  ghost predicate ChildrenOk(orphans: map<Hash, OrphanBlock>, parent: Hash, s: seq<OrphanBlock>) {
    && s != []
    && NoDuplicates(s)
    && forall k :: 0 <= k < |s| ==> ParentOf(s[k]) == parent && HashOf(s[k]) in orphans && orphans[HashOf(s[k])] == s[k]
  }

  /** Both maps index the same blocks. */
  ghost predicate PoolOk(orphans: map<Hash, OrphanBlock>, prev: map<Hash, seq<OrphanBlock>>) {
    && ByHash(orphans, prev)
    && forall p :: p in prev ==> ChildrenOk(orphans, p, prev[p])
  }

  // ----- The oldest block -----

  ghost predicate Pooled(o: OrphanBlock, orphans: map<Hash, OrphanBlock>) {
    HashOf(o) in orphans && orphans[HashOf(o)] == o
  }

  ghost function Live(orphans: map<Hash, OrphanBlock>, now: int): map<Hash, OrphanBlock> {
    orphans - Expired(orphans, now)
  }

  ghost function Expired(orphans: map<Hash, OrphanBlock>, now: int): set<Hash> {
    set h | h in orphans && now > orphans[h].expiration
  }

  /** Nothing pooled expires before the block. */
  ghost predicate Oldest(o: OrphanBlock, orphans: map<Hash, OrphanBlock>) {
    forall h :: h in orphans ==> o.expiration <= orphans[h].expiration
  }

  /** What is remembered as the oldest block once the expired ones have left. */
  ghost function Remembered(o: OrphanBlock?, orphans: map<Hash, OrphanBlock>, now: int): OrphanBlock? {
    if o != null && Pooled(o, orphans) && now > o.expiration then null else o
  }

  /** The remembered block if nothing pooled expires before it, else a pooled one that nothing pooled expires before. */
  ghost predicate ChosenFrom(chosen: OrphanBlock?, remembered: OrphanBlock?, live: map<Hash, OrphanBlock>) {
    && (live != map[] ==> chosen != null)
    && (chosen != null ==> Oldest(chosen, live))
    && (chosen == remembered || (chosen != null && Pooled(chosen, live)))
    && (remembered != null && Oldest(remembered, live) ==> chosen == remembered)
  }

  /** The block remembered as the oldest left the pool earlier, other than by expiring. */
  ghost predicate Gone(o: OrphanBlock?, orphans: map<Hash, OrphanBlock>, live: map<Hash, OrphanBlock>) {
    o != null && !Pooled(o, orphans) && HashOf(o) !in live && Oldest(o, live)
  }

  /** The pool without a block that was remembered or chosen as its oldest one. */
  ghost predicate OneLess(o: OrphanBlock?, live: map<Hash, OrphanBlock>, rest: map<Hash, OrphanBlock>) {
    exists h :: h in live && rest == live - {h} && (Oldest(live[h], live) || (o != null && h == HashOf(o)))
  }

  lemma RoomMade(o: OrphanBlock?, chosen: OrphanBlock, orphans: map<Hash, OrphanBlock>, now: int, rest: map<Hash, OrphanBlock>)
    requires rest == Live(orphans, now) - {HashOf(chosen)}
    requires ChosenFrom(chosen, Remembered(o, orphans, now), Live(orphans, now))
    ensures var live := Live(orphans, now);
            if Gone(o, orphans, live) then rest == live else OneLess(o, live, rest)
  {
    var live := Live(orphans, now);
    if HashOf(chosen) in live {
      assert HashOf(chosen) in live && rest == live - {HashOf(chosen)};
    } else {
      assert rest == live;
    }
  }

  /** Nothing comes in, and one block less is one block less. */
  lemma RoomLeft(o: OrphanBlock?, orphans: map<Hash, OrphanBlock>, now: int, rest: map<Hash, OrphanBlock>)
    requires rest == Live(orphans, now) || OneLess(o, Live(orphans, now), rest)
    ensures |Live(orphans, now)| <= |orphans|
    ensures forall h :: h in rest ==> h in orphans && rest[h] == orphans[h]
    ensures OneLess(o, Live(orphans, now), rest) ==> |rest| == |Live(orphans, now)| - 1
  {
    hide Oldest, OneLess;
    var live := Live(orphans, now);
    NoMore(live.Keys, orphans.Keys);
    assert |live.Keys| == |live| && |orphans.Keys| == |orphans|;
    if OneLess(o, live, rest) {
      SizeLess(o, live, rest);
    }
  }

  lemma SizeLess(o: OrphanBlock?, live: map<Hash, OrphanBlock>, rest: map<Hash, OrphanBlock>)
    requires OneLess(o, live, rest)
    ensures |rest| == |live| - 1
    ensures forall h :: h in rest ==> h in live && rest[h] == live[h]
  {
    hide Oldest, HashOf;
    var h :| h in live && rest == live - {h};
    OneKeyLess(live, h);
  }

  /** Seconds that a block stays in the pool. */
  const ONE_HOUR := 3600

  /** Whether a block can be added without another one leaving, apart from the expired ones. */
  ghost predicate NoneLeaves(o: OrphanBlock?, before: map<Hash, OrphanBlock>, now: int, limit: nat) {
    |Live(before, now)| < limit || Gone(o, before, Live(before, now))
  }

  lemma RoomMeans(o: OrphanBlock?, before: map<Hash, OrphanBlock>, now: int, limit: nat)
    ensures NoneLeaves(o, before, now, limit) <==> |Live(before, now)| < limit || Gone(o, before, Live(before, now))
  {
    hide Live, Gone;
  }

  lemma ChosenSome(chosen: OrphanBlock?, remembered: OrphanBlock?, live: map<Hash, OrphanBlock>)
    requires ChosenFrom(chosen, remembered, live)
    ensures live != map[] ==> chosen != null
  {
  }

  /** A pool and its remembered block before and after a block is added. */
  ghost predicate Added(
    before: map<Hash, OrphanBlock>, o: OrphanBlock?, now: int, limit: nat, b: Block, after: map<Hash, OrphanBlock>, o': OrphanBlock?)
  {
    var live, x := Live(before, now), b.header.hash;
    && x in after && after[x].block == b && after[x].expiration == now + 3600
    && (if NoneLeaves(o, before, now, limit) then after - {x} == live else OneLess(o, live, after - {x}))
    && (if |live| < limit then ChosenFrom(o', Remembered(o, before, now), live) else o' == null)
  }

  /** Whatever the size of the pool was: one block comes in, and one leaves unless none has to or can. */
  lemma AddedSize(
    before: map<Hash, OrphanBlock>, o: OrphanBlock?, now: int, limit: nat, b: Block, after: map<Hash, OrphanBlock>, o': OrphanBlock?)
    requires Added(before, o, now, limit, b, after, o')
    ensures |after| == |Live(before, now)| + if NoneLeaves(o, before, now, limit) then 1 else 0
    ensures |Live(before, now)| <= |before|
    ensures forall h :: h in after && h != b.header.hash ==> h in before && after[h] == before[h]
  {
    hide Live, OneLess, NoneLeaves, ChosenFrom, Remembered;
    RoomLeft(o, before, now, after - {b.header.hash});
    OneKeyLess(after, b.header.hash);
    forall h | h in after && h != b.header.hash
      ensures h in before && after[h] == before[h]
    {
      assert h in after - {b.header.hash};
    }
  }

  /** A block stays for an hour to the second, unless it leaves in another way. */
  lemma StaysAnHour(
    before: map<Hash, OrphanBlock>, o: OrphanBlock?, now: int, limit: nat, b: Block, after: map<Hash, OrphanBlock>, o': OrphanBlock?)
    requires Added(before, o, now, limit, b, after, o')
    ensures b.header.hash in Live(after, now + 3600) && b.header.hash !in Live(after, now + 3601)
  {
    hide OneLess, NoneLeaves, ChosenFrom, Remembered;
  }

  lemma AddedBlock(
    before: map<Hash, OrphanBlock>, o: OrphanBlock?, now: int, limit: nat, b: Block, after: map<Hash, OrphanBlock>, o': OrphanBlock?)
    requires Added(before, o, now, limit, b, after, o')
    ensures b.header.hash in after && after[b.header.hash].block == b
  {
  }

  lemma AddedNow(
    before: map<Hash, OrphanBlock>, o: OrphanBlock?, now: int, limit: nat, n: OrphanBlock, rest: map<Hash, OrphanBlock>, o': OrphanBlock?)
    requires n.expiration == now + ONE_HOUR && HashOf(n) !in rest
    requires if NoneLeaves(o, before, now, limit) then rest == Live(before, now) else OneLess(o, Live(before, now), rest)
    requires if |Live(before, now)| < limit then ChosenFrom(o', Remembered(o, before, now), Live(before, now)) else o' == null
    ensures Added(before, o, now, limit, n.block, rest[HashOf(n) := n], o')
  {
    hide Live, OneLess, NoneLeaves, ChosenFrom, Remembered;
    assert rest[HashOf(n) := n] - {HashOf(n)} == rest;
  }

  lemma {:induction false} NoMore<T>(a: set<T>, b: set<T>)
    requires a <= b
    ensures |a| <= |b|
    decreases |b|
  {
    if h :| h in a {
      assert a == a - {h} + {h} && b == b - {h} + {h};
      NoMore(a - {h}, b - {h});
    } else {
      assert a == {};
    }
  }

  /** Of the hashes that are done, exactly those of expired blocks were dropped. */
  ghost predicate Sifted(orphans: map<Hash, OrphanBlock>, now: int, todo: set<Hash>, dropped: set<Hash>) {
    && todo <= orphans.Keys
    && forall h :: h in dropped <==> h in orphans && h !in todo && now > orphans[h].expiration
  }

  /** What is remembered as the oldest block once some have been dropped. */
  ghost function Kept(o: OrphanBlock?, orphans: map<Hash, OrphanBlock>, dropped: set<Hash>): OrphanBlock? {
    if o != null && Pooled(o, orphans) && HashOf(o) in dropped then null else o
  }

  lemma SiftStart(o: OrphanBlock?, orphans: map<Hash, OrphanBlock>, now: int)
    ensures Sifted(orphans, now, orphans.Keys, {})
    ensures orphans - {} == orphans && Kept(o, orphans, {}) == o
  {
  }

  lemma SiftNext(orphans: map<Hash, OrphanBlock>, now: int, todo: set<Hash>, dropped: set<Hash>, h: Hash)
    requires Sifted(orphans, now, todo, dropped) && h in todo
    ensures h in orphans - dropped && (orphans - dropped)[h] == orphans[h]
    ensures Sifted(orphans, now, todo - {h}, if now > orphans[h].expiration then dropped + {h} else dropped)
    ensures orphans - (dropped + {h}) == orphans - dropped - {h}
  {
    assert (orphans - dropped - {h}).Keys == (orphans - (dropped + {h})).Keys;
  }

  lemma KeptNext(o: OrphanBlock?, orphans: map<Hash, OrphanBlock>, dropped: set<Hash>, h: Hash)
    requires h in orphans && HashOf(orphans[h]) == h && h !in dropped
    ensures Kept(o, orphans, dropped + {h}) ==
            if Kept(o, orphans, dropped) == orphans[h] then null else Kept(o, orphans, dropped)
  {
  }

  lemma SiftEnd(o: OrphanBlock?, orphans: map<Hash, OrphanBlock>, now: int, dropped: set<Hash>)
    requires Sifted(orphans, now, {}, dropped)
    ensures orphans - dropped == Live(orphans, now)
    ensures Kept(o, orphans, dropped) == Remembered(o, orphans, now)
  {
    var expired := Expired(orphans, now);
    assert forall h :: h in dropped ==> h in expired;
    assert forall h :: h in expired ==> h in dropped;
    assert dropped <= expired && expired <= dropped;
  }

  // ----- Removing -----

  function Children(prev: map<Hash, seq<OrphanBlock>>, parent: Hash): seq<OrphanBlock> {
    if parent in prev then prev[parent] else []
  }

  /** A list without the blocks of a given hash. */
  function Without(s: seq<OrphanBlock>, hash: Hash): seq<OrphanBlock> {
    if s == [] then []
    else if HashOf(s[|s| - 1]) == hash then Without(s[..|s| - 1], hash)
    else Without(s[..|s| - 1], hash) + [s[|s| - 1]]
  }

  lemma {:induction false} WithoutMembers(s: seq<OrphanBlock>, hash: Hash, o: OrphanBlock)
    ensures o in Without(s, hash) <==> o in s && HashOf(o) != hash
  {
    if s != [] {
      WithoutMembers(s[..|s| - 1], hash, o);
      assert s == s[..|s| - 1] + [s[|s| - 1]];
    }
  }

  lemma {:induction false} WithoutKeepsDistinct(s: seq<OrphanBlock>, hash: Hash)
    requires NoDuplicates(s)
    ensures NoDuplicates(Without(s, hash))
  {
    if s != [] {
      var last := s[|s| - 1];
      WithoutKeepsDistinct(s[..|s| - 1], hash);
      WithoutMembers(s[..|s| - 1], hash, last);
    }
  }

  lemma {:induction false} WithoutSplit(s: seq<OrphanBlock>, t: seq<OrphanBlock>, hash: Hash)
    ensures Without(s + t, hash) == Without(s, hash) + Without(t, hash)
  {
    if t == [] {
      assert s + t == s;
    } else {
      assert (s + t)[..|s + t| - 1] == s + t[..|t| - 1];
      WithoutSplit(s, t[..|t| - 1], hash);
    }
  }

  lemma CutAt(r: seq<OrphanBlock>, i: nat, hash: Hash)
    requires i < |r| && HashOf(r[i]) == hash
    ensures Without(r[..i] + r[i + 1..], hash) == Without(r, hash)
  {
    assert r == r[..i] + ([r[i]] + r[i + 1..]);
    WithoutSplit(r[..i], [r[i]] + r[i + 1..], hash);
    WithoutSplit([r[i]], r[i + 1..], hash);
    assert Without([r[i]], hash) == [];
    WithoutSplit(r[..i], r[i + 1..], hash);
  }

  lemma PassAt(r: seq<OrphanBlock>, i: nat, hash: Hash)
    requires i < |r| && HashOf(r[i]) != hash
    requires Without(r[..i], hash) == r[..i]
    ensures Without(r[..i + 1], hash) == r[..i + 1]
  {
    assert r[..i + 1][..i] == r[..i];
  }

  /** Every block of the hash is cut out of the list. */
  method CutOut(s: seq<OrphanBlock>, hash: Hash) returns (r: seq<OrphanBlock>)
    ensures r == Without(s, hash)
  {
    hide Without;
    r := s;
    var i := 0;
    NothingBefore(r, hash);
    while i < |r|
      invariant 0 <= i <= |r|
      invariant Without(r[..i], hash) == r[..i]
      invariant Without(r, hash) == Without(s, hash)
      decreases |r| - i
    {
      if HashOf(r[i]) == hash {
        CutAt(r, i, hash);
        assert (r[..i] + r[i + 1..])[..i] == r[..i];
        r := r[..i] + r[i + 1..];
      } else {
        PassAt(r, i, hash);
        i := i + 1;
      }
    }
    assert r[..|r|] == r;
  }

  lemma NothingBefore(r: seq<OrphanBlock>, hash: Hash)
    ensures Without(r[..0], hash) == r[..0]
  {
  }

  ghost function PrevWithout(prev: map<Hash, seq<OrphanBlock>>, parent: Hash, hash: Hash): map<Hash, seq<OrphanBlock>> {
    var rest := Without(Children(prev, parent), hash);
    if rest == [] then prev - {parent} else prev[parent := rest]
  }

  lemma PoolWithout(orphans: map<Hash, OrphanBlock>, prev: map<Hash, seq<OrphanBlock>>, parent: Hash, hash: Hash)
    requires PoolOk(orphans, prev)
    requires hash in orphans ==> ParentOf(orphans[hash]) == parent
    ensures PoolOk(orphans - {hash}, PrevWithout(prev, parent, hash))
  {
    var orphans', prev' := orphans - {hash}, PrevWithout(prev, parent, hash);
    forall h | h in orphans'
      ensures HashOf(orphans'[h]) == h && ParentOf(orphans'[h]) in prev' && orphans'[h] in prev'[ParentOf(orphans'[h])]
    {
      WithoutMembers(Children(prev, parent), hash, orphans[h]);
    }
    forall p | p in prev'
      ensures ChildrenOk(orphans', p, prev'[p])
    {
      ListWithout(orphans, prev, parent, hash, p);
    }
  }

  lemma ListWithout(orphans: map<Hash, OrphanBlock>, prev: map<Hash, seq<OrphanBlock>>, parent: Hash, hash: Hash, p: Hash)
    requires PoolOk(orphans, prev)
    requires hash in orphans ==> ParentOf(orphans[hash]) == parent
    requires p in PrevWithout(prev, parent, hash)
    ensures ChildrenOk(orphans - {hash}, p, PrevWithout(prev, parent, hash)[p])
  {
    hide ByHash;
    var s := PrevWithout(prev, parent, hash)[p];
    if p == parent && p in prev {
      assert ChildrenOk(orphans, p, prev[p]);
      WithoutKeepsDistinct(prev[p], hash);
      forall k | 0 <= k < |s|
        ensures ParentOf(s[k]) == p && HashOf(s[k]) in orphans - {hash} && orphans[HashOf(s[k])] == s[k]
      {
        WithoutMembers(prev[p], hash, s[k]);
      }
    } else {
      assert ChildrenOk(orphans, p, prev[p]);
    }
  }

  /** The block of the given hash leaves both maps. A hash that is not pooled changes nothing. */
  method Remove(orphans: map<Hash, OrphanBlock>, prev: map<Hash, seq<OrphanBlock>>, o: OrphanBlock)
    returns (orphans': map<Hash, OrphanBlock>, prev': map<Hash, seq<OrphanBlock>>)
    requires PoolOk(orphans, prev)
    requires HashOf(o) in orphans ==> ParentOf(orphans[HashOf(o)]) == ParentOf(o)
    ensures PoolOk(orphans', prev')
    ensures orphans' == orphans - {HashOf(o)}
  {
    hide PoolOk;
    PoolWithout(orphans, prev, ParentOf(o), HashOf(o));
    orphans' := orphans - {HashOf(o)};
    var rest := CutOut(Children(prev, ParentOf(o)), HashOf(o));
    prev' := prev[ParentOf(o) := rest];
    if rest == [] {
      PutThenDelete(prev, ParentOf(o), rest);
      prev' := prev' - {ParentOf(o)};
    }
  }

  lemma PutThenDelete<K, V>(m: map<K, V>, k: K, v: V)
    ensures m[k := v] - {k} == m - {k}
  {
  }

  // ----- Adding -----

  lemma PoolWith(orphans: map<Hash, OrphanBlock>, prev: map<Hash, seq<OrphanBlock>>, o: OrphanBlock)
    requires PoolOk(orphans, prev)
    requires HashOf(o) !in orphans
    ensures PoolOk(orphans[HashOf(o) := o], prev[ParentOf(o) := Children(prev, ParentOf(o)) + [o]])
  {
    var orphans', prev' := orphans[HashOf(o) := o], prev[ParentOf(o) := Children(prev, ParentOf(o)) + [o]];
    forall p | p in prev'
      ensures ChildrenOk(orphans', p, prev'[p])
    {
      if p in prev {
        assert ChildrenOk(orphans, p, prev[p]);
      }
    }
  }

  method Add(orphans: map<Hash, OrphanBlock>, prev: map<Hash, seq<OrphanBlock>>, o: OrphanBlock)
    returns (orphans': map<Hash, OrphanBlock>, prev': map<Hash, seq<OrphanBlock>>)
    requires PoolOk(orphans, prev)
    requires HashOf(o) !in orphans
    ensures PoolOk(orphans', prev')
    ensures orphans' == orphans[HashOf(o) := o]
  {
    hide PoolOk;
    PoolWith(orphans, prev, o);
    orphans' := orphans[HashOf(o) := o];
    prev' := prev[ParentOf(o) := Children(prev, ParentOf(o)) + [o]];
  }

  // ----- Descendants -----

  /** The hashes of pooled blocks, each the child of the one before it and the first a child of h. */
  ghost predicate Lineage(orphans: map<Hash, OrphanBlock>, h: Hash, path: seq<Hash>) {
    && path != []
    && (forall k :: 0 <= k < |path| ==> path[k] in orphans)
    && ParentOf(orphans[path[0]]) == h
    && forall k :: 0 < k < |path| ==> ParentOf(orphans[path[k]]) == path[k - 1]
  }

  /** A pooled block reached from h through pooled blocks. */
  ghost predicate Descends(orphans: map<Hash, OrphanBlock>, h: Hash, x: Hash) {
    exists path :: Lineage(orphans, h, path) && path[|path| - 1] == x
  }

  /** The order of submission: each block after its parent. */
  ghost predicate ParentsFirst(orphans: map<Hash, OrphanBlock>, h: Hash, trace: seq<Hash>) {
    forall k :: 0 <= k < |trace| ==>
                  && trace[k] in orphans
                  && trace[k] !in trace[..k]
                  && (ParentOf(orphans[trace[k]]) == h || ParentOf(orphans[trace[k]]) in trace[..k])
  }

  lemma {:induction false} SubmittedDescend(orphans: map<Hash, OrphanBlock>, h: Hash, trace: seq<Hash>, k: nat)
    requires ParentsFirst(orphans, h, trace)
    requires k < |trace|
    ensures Descends(orphans, h, trace[k])
    decreases k
  {
    var parent := ParentOf(orphans[trace[k]]);
    if parent == h {
      assert Lineage(orphans, h, [trace[k]]);
    } else {
      var j :| 0 <= j < k && trace[j] == parent;
      SubmittedDescend(orphans, h, trace, j);
      var path :| Lineage(orphans, h, path) && path[|path| - 1] == parent;
      assert Lineage(orphans, h, path + [trace[k]]);
    }
  }

  /** No block left in the pool has h or a submitted block as its parent. */
  ghost predicate NothingLeft(orphans: map<Hash, OrphanBlock>, h: Hash, trace: seq<Hash>) {
    forall x :: x in orphans && x !in trace ==> ParentOf(orphans[x]) != h && ParentOf(orphans[x]) !in trace
  }

  lemma {:induction false} LineageSubmitted(orphans: map<Hash, OrphanBlock>, h: Hash, trace: seq<Hash>, path: seq<Hash>, k: nat)
    requires NothingLeft(orphans, h, trace)
    requires Lineage(orphans, h, path)
    requires k < |path|
    ensures path[k] in trace
    decreases k
  {
    var x := path[k];
    assert x in orphans && ParentOf(orphans[x]) == if k == 0 then h else path[k - 1];
    if k > 0 {
      LineageSubmitted(orphans, h, trace, path, k - 1);
    }
    assert x in trace;
  }

  /** What was submitted is exactly what descends from h in the pool. */
  lemma SubmittedExactly(orphans: map<Hash, OrphanBlock>, h: Hash, trace: seq<Hash>)
    requires ParentsFirst(orphans, h, trace)
    requires NothingLeft(orphans, h, trace)
    ensures forall x :: x in trace <==> Descends(orphans, h, x)
  {
    forall x
      ensures x in trace <==> Descends(orphans, h, x)
    {
      if x in trace {
        var k :| 0 <= k < |trace| && trace[k] == x;
        SubmittedDescend(orphans, h, trace, k);
      }
      if Descends(orphans, h, x) {
        var path :| Lineage(orphans, h, path) && path[|path| - 1] == x;
        LineageSubmitted(orphans, h, trace, path, |path| - 1);
      }
    }
  }

  /** The pool is what it was at the start less what was submitted since. */
  ghost predicate Traced(start: map<Hash, OrphanBlock>, orphans: map<Hash, OrphanBlock>, h: Hash, trace: seq<Hash>) {
    && ParentsFirst(start, h, trace)
    && (forall x :: x in orphans <==> x in start && x !in trace)
    && (forall x :: x in orphans ==> orphans[x] == start[x])
  }

  lemma TraceNext(start: map<Hash, OrphanBlock>, orphans: map<Hash, OrphanBlock>, h: Hash, trace: seq<Hash>, x: Hash)
    requires Traced(start, orphans, h, trace)
    requires x in orphans
    requires ParentOf(orphans[x]) == h || ParentOf(orphans[x]) in trace
    ensures Traced(start, orphans - {x}, h, trace + [x])
  {
    var longer := trace + [x];
    forall k | 0 <= k < |longer|
      ensures longer[k] in start && longer[k] !in longer[..k]
      ensures ParentOf(start[longer[k]]) == h || ParentOf(start[longer[k]]) in longer[..k]
    {
      if k < |trace| {
        assert longer[..k] == trace[..k];
        assert trace[k] in start;
      } else {
        assert longer[..k] == trace;
      }
    }
  }

  /** With no pooled child of a submitted block left, everything that descends from h was submitted. */
  lemma TraceComplete(start: map<Hash, OrphanBlock>, orphans: map<Hash, OrphanBlock>, h: Hash, trace: seq<Hash>)
    requires Traced(start, orphans, h, trace)
    requires forall x :: x in orphans ==> ParentOf(orphans[x]) != h && ParentOf(orphans[x]) !in trace
    ensures forall x :: x in trace <==> Descends(start, h, x)
  {
    hide Descends, ParentsFirst;
    forall x | x in start && x !in trace
      ensures ParentOf(start[x]) != h && ParentOf(start[x]) !in trace
    {
      assert x in orphans;
    }
    SubmittedExactly(start, h, trace);
  }

  lemma FirstChild(orphans: map<Hash, OrphanBlock>, prev: map<Hash, seq<OrphanBlock>>, parent: Hash)
    requires PoolOk(orphans, prev)
    ensures parent in prev ==>
              && prev[parent] != []
              && ParentOf(prev[parent][0]) == parent
              && HashOf(prev[parent][0]) in orphans
              && orphans[HashOf(prev[parent][0])] == prev[parent][0]
    ensures parent !in prev ==> forall x :: x in orphans ==> ParentOf(orphans[x]) != parent
  {
    if parent in prev {
      assert ChildrenOk(orphans, parent, prev[parent]);
    }
  }

  // ----- Progress of a submission -----

  ghost predicate Shrunk(before: map<Hash, OrphanBlock>, after: map<Hash, OrphanBlock>, added: seq<Hash>) {
    if added == [] then after == before else |after| < |before|
  }

  /** Only submitted hashes were added to a set. */
  ghost predicate Within(before: set<Hash>, after: set<Hash>, added: seq<Hash>) {
    before <= after && forall x :: x in after ==> x in before || x in added
  }

  lemma NothingSubmitted(orphans: map<Hash, OrphanBlock>, keys: set<Hash>, trace: seq<Hash>)
    ensures Shrunk(orphans, orphans, []) && Within(keys, keys, [])
    ensures trace + [] == trace
  {
  }

  lemma ShrunkMore(start: map<Hash, OrphanBlock>, before: map<Hash, OrphanBlock>, added: seq<Hash>, hash: Hash)
    requires Shrunk(start, before, added)
    requires hash in before
    ensures Shrunk(start, before - {hash}, added + [hash])
    ensures |before - {hash}| < |before|
  {
    assert before.Keys == (before - {hash}).Keys + {hash};
    assert |before.Keys| == |before| && |(before - {hash}).Keys| == |before - {hash}|;
  }

  lemma WithinMore(start: set<Hash>, before: set<Hash>, after: set<Hash>, added: seq<Hash>, hash: Hash)
    requires Within(start, before, added)
    requires before <= after <= before + {hash}
    ensures Within(start, after, added + [hash])
  {
  }

  lemma OneSubmitted(start: map<Hash, OrphanBlock>, orphans: map<Hash, OrphanBlock>, h: Hash, trace: seq<Hash>, added: seq<Hash>, x: Hash)
    requires Traced(start, orphans, h, trace + added)
    requires x in orphans
    requires ParentOf(orphans[x]) == h || ParentOf(orphans[x]) in trace
    ensures Traced(start, orphans - {x}, h, trace + (added + [x]))
  {
    hide Traced;
    TraceNext(start, orphans, h, trace + added, x);
    assert trace + added + [x] == trace + (added + [x]);
  }

  // ----- The queue of a submission -----

  /** The submitted blocks, and h itself, are queued or done with. */
  ghost predicate Covered(h: Hash, trace: seq<Hash>, queue: seq<Hash>, done: set<Hash>) {
    && (forall x :: x in queue || x in done ==> x == h || x in trace)
    && (forall x :: x == h || x in trace ==> x in queue || x in done)
  }

  ghost predicate NoChildOf(orphans: map<Hash, OrphanBlock>, done: set<Hash>) {
    forall x :: x in orphans ==> ParentOf(orphans[x]) !in done
  }

  lemma QueueStart(start: map<Hash, OrphanBlock>, keys: set<Hash>, h: Hash)
    ensures Traced(start, start, h, []) && Covered(h, [], [h], {}) && NoChildOf(start, {}) && Within(keys, keys, [])
  {
  }

  lemma QueueHead(h: Hash, trace: seq<Hash>, queue: seq<Hash>, done: set<Hash>)
    requires Covered(h, trace, queue, done) && queue != []
    ensures queue[0] == h || queue[0] in trace
  {
    assert queue[0] in queue;
  }

  lemma QueueNext(h: Hash, trace: seq<Hash>, queue: seq<Hash>, done: set<Hash>, added: seq<Hash>)
    requires Covered(h, trace, queue, done) && queue != []
    ensures Covered(h, trace + added, queue[1..] + added, done + {queue[0]})
  {
    assert queue == [queue[0]] + queue[1..];
    assert forall x :: x in queue <==> x == queue[0] || x in queue[1..];
  }

  lemma NoChildNext(
    start: map<Hash, OrphanBlock>, before: map<Hash, OrphanBlock>, after: map<Hash, OrphanBlock>, h: Hash, trace: seq<Hash>, added: seq<Hash>,
    done: set<Hash>, parent: Hash)
    requires Traced(start, before, h, trace) && Traced(start, after, h, trace + added)
    requires NoChildOf(before, done)
    requires forall x :: x in after ==> ParentOf(after[x]) != parent
    ensures NoChildOf(after, done + {parent})
  {
    hide ParentsFirst;
    forall x | x in after
      ensures ParentOf(after[x]) !in done + {parent}
    {
      assert x in start && x !in trace + added;
      assert x in before && before[x] == after[x];
    }
  }

  lemma QueueEmpty(start: map<Hash, OrphanBlock>, orphans: map<Hash, OrphanBlock>, h: Hash, trace: seq<Hash>, done: set<Hash>)
    requires Traced(start, orphans, h, trace)
    requires Covered(h, trace, [], done) && NoChildOf(orphans, done)
    ensures forall x :: x in orphans ==> ParentOf(orphans[x]) != h && ParentOf(orphans[x]) !in trace
    ensures forall x :: x in trace <==> Descends(start, h, x)
  {
    hide Traced, Descends;
    forall x | x in orphans
      ensures ParentOf(orphans[x]) != h && ParentOf(orphans[x]) !in trace
    {
      assert ParentOf(orphans[x]) !in done;
    }
    TraceComplete(start, orphans, h, trace);
  }

  lemma WithinBoth(a: set<Hash>, b: set<Hash>, c: set<Hash>, s: seq<Hash>, t: seq<Hash>)
    requires Within(a, b, s) && Within(b, c, t)
    ensures Within(a, c, s + t)
  {
  }

  /** A child of the block is the first to be submitted. */
  lemma FirstIsChild(start: map<Hash, OrphanBlock>, orphans: map<Hash, OrphanBlock>, h: Hash, trace: seq<Hash>)
    requires Traced(start, orphans, h, trace) && trace != []
    ensures trace[0] in start && ParentOf(start[trace[0]]) == h
  {
    assert trace[..0] == [];
    assert ParentOf(start[trace[0]]) !in trace[..0];
  }
}

/** The median of the timestamps of the last blocks of a branch. */
module MedianTime {
  import opened Types

  const MEDIAN_TIME_BLOCKS := 11

  // ----- Sorting -----

  ghost predicate Sorted(s: seq<int>) {
    forall i, j :: 0 <= i < j < |s| ==> s[i] <= s[j]
  }

  function Insert(x: int, s: seq<int>): (r: seq<int>)
    requires Sorted(s)
    ensures Sorted(r)
    ensures multiset(r) == multiset(s) + multiset{x}
  {
    if s == [] then [x]
    else if x <= s[0] then [x] + s
    else
      assert s == [s[0]] + s[1..];
      var r := Insert(x, s[1..]);
      InsertedAbove(x, s, r);
      [s[0]] + r
  }

  lemma InsertedAbove(x: int, s: seq<int>, r: seq<int>)
    requires Sorted(s) && s != [] && s[0] < x
    requires multiset(r) == multiset(s[1..]) + multiset{x}
    ensures forall i :: 0 <= i < |r| ==> s[0] <= r[i]
  {
    forall i | 0 <= i < |r|
      ensures s[0] <= r[i]
    {
      assert r[i] in multiset(r);
      assert r[i] == x || r[i] in s[1..];
    }
  }

  /** The timestamps in ascending order. */
  function Sort(s: seq<int>): (r: seq<int>)
    ensures Sorted(r)
    ensures multiset(r) == multiset(s)
  {
    if s == [] then []
    else
      assert s == s[..|s| - 1] + [s[|s| - 1]];
      Insert(s[|s| - 1], Sort(s[..|s| - 1]))
  }

  lemma SortLength(s: seq<int>)
    ensures |Sort(s)| == |s|
  {
    assert |multiset(Sort(s))| == |multiset(s)|;
  }

  // ----- Counting -----

  ghost function CountBelow(s: seq<int>, m: int): nat {
    if s == [] then 0 else CountBelow(s[..|s| - 1], m) + if s[|s| - 1] < m then 1 else 0
  }

  lemma {:induction false} CountAppend(s: seq<int>, t: seq<int>, m: int)
    ensures CountBelow(s + t, m) == CountBelow(s, m) + CountBelow(t, m)
  {
    if t == [] {
      assert s + t == s;
    } else {
      assert (s + t)[..|s + t| - 1] == s + t[..|t| - 1];
      CountAppend(s, t[..|t| - 1], m);
    }
  }

  lemma {:induction false} CountPermuted(s: seq<int>, t: seq<int>, m: int)
    requires multiset(s) == multiset(t)
    ensures CountBelow(s, m) == CountBelow(t, m)
  {
    if s == [] {
      assert |multiset(t)| == 0;
    } else {
      var x := s[|s| - 1];
      assert x in multiset(t);
      var i :| 0 <= i < |t| && t[i] == x;
      var t' := t[..i] + t[i + 1..];
      assert t == t[..i] + [x] + t[i + 1..];
      assert s == s[..|s| - 1] + [x];
      assert multiset(s[..|s| - 1]) == multiset(t') by {
        assert multiset(t') + multiset{x} == multiset(s[..|s| - 1]) + multiset{x};
        assert multiset(t') == (multiset(t') + multiset{x}) - multiset{x};
        assert multiset(s[..|s| - 1]) == (multiset(s[..|s| - 1]) + multiset{x}) - multiset{x};
      }
      CountPermuted(s[..|s| - 1], t', m);
      CountAppend(t[..i] + [x], t[i + 1..], m);
      CountAppend(t[..i], [x], m);
      CountAppend(t[..i], t[i + 1..], m);
      assert CountBelow([x], m) == if x < m then 1 else 0;
    }
  }

  /** In a sorted sequence, the numbers below m come first. */
  lemma {:induction false} CountSorted(s: seq<int>, m: int, k: nat)
    requires Sorted(s)
    requires k < |s|
    ensures m <= s[k] <==> CountBelow(s, m) <= k
  {
    hide CountBelow;
    if m <= s[k] {
      assert s == s[..k] + s[k..];
      CountAppend(s[..k], s[k..], m);
      CountNone(s[k..], m);
      CountAtMost(s[..k], m);
    } else {
      assert s == s[..k + 1] + s[k + 1..];
      CountAppend(s[..k + 1], s[k + 1..], m);
      CountEvery(s[..k + 1], m);
    }
  }

  lemma {:induction false} CountNone(s: seq<int>, m: int)
    requires forall i :: 0 <= i < |s| ==> m <= s[i]
    ensures CountBelow(s, m) == 0
  {
    if s != [] {
      CountNone(s[..|s| - 1], m);
    }
  }

  lemma {:induction false} CountEvery(s: seq<int>, m: int)
    requires forall i :: 0 <= i < |s| ==> s[i] < m
    ensures CountBelow(s, m) == |s|
  {
    if s != [] {
      CountEvery(s[..|s| - 1], m);
    }
  }

  lemma {:induction false} CountAtMost(s: seq<int>, m: int)
    ensures CountBelow(s, m) <= |s|
  {
    if s != [] {
      CountAtMost(s[..|s| - 1], m);
    }
  }

  // ----- The median of a branch -----

  function Timestamps(branch: seq<Header>): (r: seq<int>)
    ensures |r| == |branch|
  {
    seq(|branch|, i requires 0 <= i < |branch| => branch[i].timestamp)
  }

  /** The timestamps of the last blocks, all of them when the branch is shorter than the window. */
  function Window(times: seq<int>): seq<int> {
    if |times| <= MEDIAN_TIME_BLOCKS then times else times[|times| - MEDIAN_TIME_BLOCKS..]
  }

  function Median(window: seq<int>): int
    requires window != []
  {
    SortLength(window);
    Sort(window)[|window| / 2]
  }

  function PastMedianTime(branch: seq<Header>): int
    requires branch != []
  {
    Median(Window(Timestamps(branch)))
  }

  /** A number is at most the median when at most half of the window is below it. */
  lemma MedianAtLeast(window: seq<int>, m: int)
    requires window != []
    ensures m <= Median(window) <==> CountBelow(window, m) <= |window| / 2
  {
    SortLength(window);
    CountSorted(Sort(window), m, |window| / 2);
    CountPermuted(Sort(window), window, m);
  }

  /** The median does not depend on the order of the window. */
  lemma MedianPermuted(a: seq<int>, b: seq<int>)
    requires a != [] && b != []
    requires multiset(a) == multiset(b)
    ensures Median(a) == Median(b)
  {
    hide Median, CountBelow;
    assert |a| == |multiset(a)| == |multiset(b)| == |b|;
    MedianAtLeast(a, Median(a));
    MedianAtLeast(b, Median(a));
    MedianAtLeast(a, Median(b));
    MedianAtLeast(b, Median(b));
    CountPermuted(a, b, Median(a));
    CountPermuted(a, b, Median(b));
  }

  /** A timestamp above the median does not lower it, whether the window grows or slides. */
  lemma LaterTimeKeepsMedian(times: seq<int>, t: int)
    requires times != []
    requires Median(Window(times)) < t
    ensures Median(Window(times)) <= Median(Window(times + [t]))
  {
    hide Median, CountBelow;
    var w, w' := Window(times), Window(times + [t]);
    var m := Median(w);
    MedianAtLeast(w, m);
    MedianAtLeast(w', m);
    CountAppend(w, [t], m);
    CountNone([t], m);
    if |times| < MEDIAN_TIME_BLOCKS {
      assert w' == w + [t];
    } else {
      assert w + [t] == [w[0]] + w';
      CountAppend([w[0]], w', m);
    }
  }

  /**
   What the median time of a branch is, by counting: of its last eleven timestamps, or of all of them
   if there are fewer, at most half of them, rounded down, are below a number exactly when the number
   is not above the median.
   */
  lemma MedianOfEleven(branch: seq<Header>, m: int)
    requires branch != []
    ensures var n := if |branch| < 11 then |branch| else 11;
            m <= PastMedianTime(branch) <==> CountBelow(Timestamps(branch[|branch| - n..]), m) <= n / 2
  {
    var n := if |branch| < 11 then |branch| else 11;
    var times := Timestamps(branch);
    assert Window(times) == times[|branch| - n..] == Timestamps(branch[|branch| - n..]);
    MedianAtLeast(Window(times), m);
  }

  /** A time after all those of a branch is after their median. */
  lemma MedianBelow(branch: seq<Header>, t: int)
    requires branch != [] && forall k :: 0 <= k < |branch| ==> branch[k].timestamp < t
    ensures PastMedianTime(branch) < t
  {
    var window := Window(Timestamps(branch));
    CountEvery(window, t);
    MedianAtLeast(window, t);
  }

  /** Every block's timestamp exceeds the median of the blocks before it. */
  ghost predicate TimesAccepted(branch: seq<Header>) {
    forall k :: 0 < k < |branch| ==> PastMedianTime(branch[..k]) < branch[k].timestamp
  }

  lemma NextKeepsMedian(before: seq<Header>, h: Header)
    requires before != []
    requires PastMedianTime(before) < h.timestamp
    ensures PastMedianTime(before) <= PastMedianTime(before + [h])
  {
    hide Median, Window;
    assert Timestamps(before + [h]) == Timestamps(before) + [h.timestamp];
    LaterTimeKeepsMedian(Timestamps(before), h.timestamp);
  }

  /** Along an accepted branch the median never decreases. */
  lemma {:induction false} MedianNeverDecreases(branch: seq<Header>, i: nat, j: nat)
    requires TimesAccepted(branch)
    requires 0 < i <= j <= |branch|
    ensures PastMedianTime(branch[..i]) <= PastMedianTime(branch[..j])
    decreases j
  {
    hide PastMedianTime;
    if i < j {
      MedianNeverDecreases(branch, i, j - 1);
      NextKeepsMedian(branch[..j - 1], branch[j - 1]);
      assert branch[..j] == branch[..j - 1] + [branch[j - 1]];
    }
  }
}

/** A branch that the rules accept although its target rises when it should fall. */
module Backdated {
  import opened Types
  import opened Compact
  import opened MedianTime
  import opened Difficulty
  import opened Genesis

  /** Eleven seconds a block in the first period, then one dated far ahead, then a second a block. */
  function Time(k: nat): nat {
    if k <= 8 then GENESIS_TIME + 11 * k
    else if k == 10 then GENESIS_TIME + 1000
    else GENESIS_TIME + 91 + k
  }

  function HeaderAt(k: nat): Header {
    Header(k + 1, 0, k, 0, Time(k), if k == 0 then GENESIS_BITS else TEST_NET.powLimitBits, k, 0, [])
  }

  function UpTo(n: nat): (r: seq<Header>)
    ensures |r| == n && forall k :: 0 <= k < n ==> r[k] == HeaderAt(k)
  {
    seq(n, k requires 0 <= k < n => HeaderAt(k))
  }

  // ----- Times -----

  lemma AllButOne(s: seq<int>, m: int, j: nat)
    requires j < |s| && forall i :: 0 <= i < |s| && i != j ==> s[i] < m
    ensures CountBelow(s, m) >= |s| - 1
  {
    hide CountBelow;
    CountEvery(s[..j], m);
    CountEvery(s[j + 1..], m);
    CountAppend(s[..j] + [s[j]], s[j + 1..], m);
    CountAppend(s[..j], [s[j]], m);
    assert s == s[..j] + [s[j]] + s[j + 1..];
  }

  lemma TimeOk(n: nat)
    requires 0 < n <= 20
    ensures PastMedianTime(UpTo(n)) < Time(n)
  {
    hide PastMedianTime, CountBelow;
    var branch := UpTo(n);
    if n <= 10 {
      MedianBelow(branch, Time(n));
    } else {
      var window := Timestamps(branch[n - 11..]);
      AllButOne(window, Time(n), 21 - n);
      MedianOfEleven(branch, Time(n));
    }
  }

  // ----- Targets -----

  lemma OldTarget()
    ensures Canonical(0x1e1d_a5ff) && Canonical(0x1e76_97fc)
    ensures CompactToBig(0x1e76_97fc) == 4 * CompactToBig(0x1e1d_a5ff)
    ensures 0 < CompactToBig(0x1e1d_a5ff) && CompactToBig(0x1e76_97fc) <= POW_LIMIT
  {
    hide ShiftLeft, Pow256;
    ShiftIsScale(0x1d_a5ff, 27);
    ShiftIsScale(0x76_97fc, 27);
    TargetWithinLimit(0x1e1d_a5ff);
    TargetWithinLimit(0x1e76_97fc);
  }

  lemma BitsOk(n: nat)
    requires 0 < n < 20
    ensures TEST_NET.Valid() && TargetOk(TEST_NET, HeaderAt(n - 1).bits) && TargetOk(TEST_NET, HeaderAt(n).bits)
    ensures NextBits(TEST_NET, UpTo(n)) == TEST_NET.powLimitBits
  {
    hide CompactToBig, BigToCompact, NewTarget;
    NetTargets();
    NetsAreValid();
    if n == 10 {
      OldTarget();
      var x := CompactToBig(TEST_NET.powLimitBits);
      KeptByTimespan(TEST_NET, x);
      EncodeDecode(TEST_NET.powLimitBits);
      assert Timespan(Time(9), Time(0)) == 100;
    }
  }

  lemma {:induction false} Accepted(n: nat)
    requires 0 < n <= 20
    ensures TEST_NET.Valid() && AcceptedBranch(TEST_NET, UpTo(n))
  {
    hide CompactToBig, NextBits, PastMedianTime;
    NetTargets();
    if n == 1 {
      assert UpTo(1) == [HeaderAt(0)];
    } else {
      Accepted(n - 1);
      BitsOk(n - 1);
      TimeOk(n - 1);
      ExtendBranch(TEST_NET, UpTo(n - 1), HeaderAt(n - 1));
      assert UpTo(n) == UpTo(n - 1) + [HeaderAt(n - 1)];
    }
  }

  /**
   Ten blocks that took ten seconds, where a hundred are aimed at, multiply the target by four instead
   of dividing it, because the first of them is dated ahead and the difference wraps around.
   */
  lemma FastPeriodRaises()
    ensures TEST_NET.Valid() && AcceptedBranch(TEST_NET, UpTo(20))
    ensures UpTo(20)[19].timestamp - UpTo(20)[9].timestamp == 10 && TEST_NET.targetTimespan == 100
    ensures UpTo(20)[19].timestamp < UpTo(20)[10].timestamp
    ensures CompactToBig(NextBits(TEST_NET, UpTo(20))) == 4 * CompactToBig(UpTo(20)[19].bits)
  {
    hide CompactToBig, BigToCompact, NewTarget, AcceptedBranch;
    Accepted(20);
    OldTarget();
    NetsAreValid();
    var x := CompactToBig(TEST_NET.powLimitBits);
    BackwardsPeriod(TEST_NET, x, Time(10), Time(19));
    EncodeDecode(0x1e76_97fc);
  }
}

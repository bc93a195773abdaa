/** The target each block must have, and what accepted branches do with it. */
module Difficulty {
  import opened Types
  import opened Compact
  import opened MedianTime

  datatype ChainParams = ChainParams(
    regNet: bool,
    powLimit: nat,
    powLimitBits: nat,
    targetTimespan: nat,
    targetTimePerBlock: nat,
    adjustmentFactor: nat)
  {
    predicate Valid() {
      && targetTimePerBlock > 0
      && adjustmentFactor > 0
      && 2 * targetTimePerBlock <= targetTimespan
      && 2 * (powLimit + 1) <= TWO_TO_256
    }

    /** The timespan can be divided by the factor without remainder. */
    predicate EvenFactor() {
      adjustmentFactor > 0 && targetTimespan % adjustmentFactor == 0
    }

    /** Blocks between two changes of the target. */
    function BlocksPerRetarget(): (r: nat)
      requires Valid()
      ensures r > 1
    {
      AtLeastTwice(targetTimespan, targetTimePerBlock);
      targetTimespan / targetTimePerBlock
    }

    function MinTimespan(): nat
      requires Valid()
    {
      targetTimespan / adjustmentFactor
    }

    function MaxTimespan(): nat
      requires Valid()
    {
      targetTimespan * adjustmentFactor
    }
  }

  /** 2^255 - 1, the same on every network. */
  const POW_LIMIT: nat := TWO_TO_256 / 2 - 1

  const MAIN_NET := ChainParams(false, POW_LIMIT, 0x1f0008ff, 60 * 2 * 720, 60 * 2, 4)
  const TEST_NET := ChainParams(false, POW_LIMIT, 0x1e1da5ff, 10 * 10, 10, 4)
  const REG_NET := ChainParams(true, POW_LIMIT, 0x207fffff, 1 * 10, 1, 4)

  lemma NetsAreValid()
    ensures MAIN_NET.Valid() && TEST_NET.Valid() && REG_NET.Valid()
    ensures MAIN_NET.EvenFactor() && TEST_NET.EvenFactor()
    ensures MAIN_NET.BlocksPerRetarget() == 720 && TEST_NET.BlocksPerRetarget() == 10
    ensures MAIN_NET.adjustmentFactor == 4 && TEST_NET.adjustmentFactor == 4
  {
    assert (60 * 2 * 720) / (60 * 2) == 720;
  }

  // ----- The next target -----

  /** The difference of two 32-bit unsigned timestamps, which wraps around when it would be negative. */
  function Timespan(last: nat, first: nat): (r: nat)
    ensures last < TWO_TO_32 && first <= last ==> r == last - first
  {
    (last - first) % TWO_TO_32
  }

  function Clamped(p: ChainParams, timespan: nat): (r: nat)
    requires p.Valid()
    ensures p.MinTimespan() <= p.MaxTimespan() ==> p.MinTimespan() <= r <= p.MaxTimespan()
  {
    if timespan < p.MinTimespan() then p.MinTimespan()
    else if timespan > p.MaxTimespan() then p.MaxTimespan()
    else timespan
  }

  /** The old target scaled by the clamped timespan, cut off at the limit. */
  function NewTarget(p: ChainParams, oldTarget: nat, timespan: nat): nat
    requires p.Valid()
  {
    var scaled := Quotient(Product(oldTarget, Clamped(p, timespan)), p.targetTimespan);
    if scaled > p.powLimit then p.powLimit else scaled
  }

  function Product(a: nat, b: nat): nat {
    a * b
  }

  lemma PeriodFits(n: nat, period: nat)
    requires n > 0 && period > 0
    requires n % period == 0
    ensures period <= n
  {
    ModSmall(n, period);
  }

  lemma ModSmall(n: nat, period: nat)
    requires period > 0
    ensures n < period ==> n % period == n
  {
  }

  /** The compact target that a block on top of the branch must carry. */
  function NextBits(p: ChainParams, branch: seq<Header>): nat
    requires p.Valid()
    requires branch != []
    requires 0 < CompactToBig(branch[|branch| - 1].bits)
  {
    var last := branch[|branch| - 1];
    var period := p.BlocksPerRetarget();
    if |branch| == 1 || p.regNet then p.powLimitBits
    else if |branch| % period != 0 then last.bits
    else
      PeriodFits(|branch|, period);
      var first := branch[|branch| - period];
      BigToCompact(NewTarget(p, CompactToBig(last.bits), Timespan(last.timestamp, first.timestamp)))
  }

  // ----- Accepted branches -----

  ghost predicate TargetOk(p: ChainParams, bits: nat) {
    0 < CompactToBig(bits) <= p.powLimit
  }

  ghost predicate Linked(branch: seq<Header>) {
    forall k :: 0 <= k < |branch| ==> branch[k].height == k
  }

  /** The target and the time that a block on top of a branch may have. */
  ghost predicate HeaderFits(p: ChainParams, branch: seq<Header>, bits: nat, time: int) {
    && p.Valid() && branch != [] && 0 < CompactToBig(branch[|branch| - 1].bits)
    && bits == NextBits(p, branch)
    && PastMedianTime(branch) < time
  }

  /** What is checked of a header before it is added on top of a branch. */
  ghost predicate HeaderOk(p: ChainParams, before: seq<Header>, h: Header)
    requires p.Valid()
    requires before != [] && Linked(before) && TargetOk(p, before[|before| - 1].bits)
  {
    && h.height == |before|
    && h.bits == NextBits(p, before)
    && TargetOk(p, h.bits)
    && PastMedianTime(before) < h.timestamp
  }

  /** A branch from the genesis block on, each header of which was accepted on top of those before it. */
  ghost predicate AcceptedBranch(p: ChainParams, branch: seq<Header>)
    requires p.Valid()
  {
    && branch != []
    && Linked(branch)
    && (forall k :: 0 <= k < |branch| ==> TargetOk(p, branch[k].bits))
    && (forall k :: 0 < k < |branch| ==> HeaderOk(p, branch[..k], branch[k]))
  }

  lemma ExtendBranch(p: ChainParams, branch: seq<Header>, h: Header)
    requires p.Valid()
    requires AcceptedBranch(p, branch)
    requires HeaderOk(p, branch, h)
    ensures AcceptedBranch(p, branch + [h])
  {
    hide NextBits, PastMedianTime, TargetOk;
    var longer := branch + [h];
    forall k | 0 < k < |longer|
      ensures HeaderOk(p, longer[..k], longer[k])
    {
      if k < |branch| {
        assert longer[..k] == branch[..k];
      } else {
        assert longer[..k] == branch;
      }
    }
  }

  /** Accepted branches have accepted timestamps, so their median never decreases. */
  lemma AcceptedTimes(p: ChainParams, branch: seq<Header>)
    requires p.Valid()
    requires AcceptedBranch(p, branch)
    ensures TimesAccepted(branch)
  {
    hide NextBits, PastMedianTime, TargetOk;
    forall k | 0 < k < |branch|
      ensures PastMedianTime(branch[..k]) < branch[k].timestamp
    {
      assert HeaderOk(p, branch[..k], branch[k]);
    }
  }

  /** Off the retarget heights a block carries the target of its parent, and the limit on top of the genesis block. */
  lemma OffRetarget(p: ChainParams, branch: seq<Header>, k: nat)
    requires p.Valid()
    requires AcceptedBranch(p, branch)
    requires 0 < k < |branch|
    requires k % p.BlocksPerRetarget() != 0
    ensures branch[k].bits == if k == 1 || p.regNet then p.powLimitBits else branch[k - 1].bits
  {
    hide PastMedianTime, CompactToBig, BigToCompact, NewTarget, Timespan;
    assert HeaderOk(p, branch[..k], branch[k]);
  }

  /** Whatever target the genesis block carries, the block on top of it carries the limit. */
  lemma FirstTarget(p: ChainParams, branch: seq<Header>)
    requires p.Valid()
    requires AcceptedBranch(p, branch)
    requires 1 < |branch|
    ensures branch[1].bits == p.powLimitBits
  {
    hide PastMedianTime, CompactToBig, BigToCompact, NewTarget, Timespan;
    assert HeaderOk(p, branch[..1], branch[1]);
  }

  /** Off the retarget heights the target stays the same, except at height 1 if the genesis block does not carry the limit. */
  lemma ChangesOnlyAtRetarget(p: ChainParams, branch: seq<Header>, k: nat)
    requires p.Valid()
    requires AcceptedBranch(p, branch)
    requires 0 < k < |branch|
    requires k % p.BlocksPerRetarget() != 0
    ensures branch[k].bits == branch[k - 1].bits <==> k > 1 || branch[0].bits == p.powLimitBits
  {
    hide AcceptedBranch;
    OffRetarget(p, branch, k);
    if k > 1 && p.regNet {
      RegNetTarget(p, branch, k - 1);
    }
  }

  lemma RegNetTarget(p: ChainParams, branch: seq<Header>, k: nat)
    requires p.Valid() && p.regNet
    requires AcceptedBranch(p, branch)
    requires 0 < k < |branch|
    ensures branch[k].bits == p.powLimitBits
  {
    hide PastMedianTime, CompactToBig;
    assert HeaderOk(p, branch[..k], branch[k]);
  }

  /** All blocks up to the next retarget height have the same target, the genesis block only if it carries the limit. */
  lemma {:induction false} ConstantWithinPeriod(p: ChainParams, branch: seq<Header>, i: nat, j: nat)
    requires p.Valid()
    requires AcceptedBranch(p, branch)
    requires i < j < |branch|
    requires forall k :: i < k <= j ==> k % p.BlocksPerRetarget() != 0
    ensures branch[j].bits == branch[i].bits <==> i > 0 || branch[0].bits == p.powLimitBits
    decreases j
  {
    hide AcceptedBranch, ChainParams.Valid, ChainParams.BlocksPerRetarget;
    ChangesOnlyAtRetarget(p, branch, j);
    if i < j - 1 {
      ConstantWithinPeriod(p, branch, i, j - 1);
    }
  }

  /** The target of the genesis block in the code. */
  const GENESIS_BITS: nat := 0x1d03ffff

  /** On the public networks the target of every branch changes on top of the code's genesis block. */
  lemma GenesisTargetChanges(branch: seq<Header>)
    requires 1 < |branch| && branch[0].bits == GENESIS_BITS
    ensures MAIN_NET.Valid() && TEST_NET.Valid()
    ensures AcceptedBranch(MAIN_NET, branch) ==> branch[1].bits == 0x1f0008ff != branch[0].bits
    ensures AcceptedBranch(TEST_NET, branch) ==> branch[1].bits == 0x1e1da5ff != branch[0].bits
  {
    hide AcceptedBranch, ChainParams.Valid;
    NetsAreValid();
    if AcceptedBranch(MAIN_NET, branch) {
      FirstTarget(MAIN_NET, branch);
    }
    if AcceptedBranch(TEST_NET, branch) {
      FirstTarget(TEST_NET, branch);
    }
  }

  // ----- How far one retarget goes -----

  lemma ProductBelow(a: nat, b: nat, limit: nat)
    requires b <= limit
    ensures a * b <= a * limit
  {
    assert a * (limit - b) >= 0;
  }

  lemma QuotientAtMost(a: nat, b: nat, limit: nat)
    requires b > 0 && a <= limit * b
    ensures a / b <= limit
  {
    assert a == (a / b) * b + a % b;
    if a / b > limit {
      ProductBelow(b, limit + 1, a / b);
    }
  }

  lemma QuotientAtLeast(a: nat, b: nat, limit: nat)
    requires b > 0 && limit * b <= a
    ensures limit <= a / b
  {
    assert a == (a / b) * b + a % b;
    if a / b < limit {
      ProductBelow(b, a / b + 1, limit);
    }
  }

  lemma ScaledUp(oldTarget: nat, timespan: nat, whole: nat, factor: nat)
    requires whole > 0
    requires timespan <= whole * factor
    ensures (oldTarget * timespan) / whole <= oldTarget * factor
  {
    ProductBelow(oldTarget, timespan, whole * factor);
    assert oldTarget * (whole * factor) == (oldTarget * factor) * whole;
    QuotientAtMost(oldTarget * timespan, whole, oldTarget * factor);
  }

  lemma ScaledDown(oldTarget: nat, timespan: nat, whole: nat, factor: nat)
    requires whole > 0 && factor > 0
    requires whole <= timespan * factor
    ensures oldTarget / factor <= (oldTarget * timespan) / whole
  {
    var q := oldTarget / factor;
    ProductBelow(q, whole, timespan * factor);
    assert q * (timespan * factor) == timespan * (q * factor);
    assert q * factor <= oldTarget;
    ProductBelow(timespan, q * factor, oldTarget);
    QuotientAtLeast(oldTarget * timespan, whole, q);
  }

  lemma Limits(whole: nat, factor: nat)
    requires factor > 0 && whole % factor == 0
    ensures (whole / factor) * factor == whole
    ensures whole / factor <= whole * factor
  {
    assert whole == (whole / factor) * factor + whole % factor;
    ProductBelow(whole / factor, 1, factor);
    ProductBelow(whole, 1, factor);
  }

  /** The clamped timespan is between the timespan divided and multiplied by the factor. */
  lemma ClampedBounds(p: ChainParams, timespan: nat)
    requires p.Valid() && p.EvenFactor()
    ensures p.targetTimespan <= Clamped(p, timespan) * p.adjustmentFactor
    ensures Clamped(p, timespan) <= p.targetTimespan * p.adjustmentFactor
  {
    hide Clamped, Pow256;
    Limits(p.targetTimespan, p.adjustmentFactor);
    ProductBelow(p.adjustmentFactor, p.MinTimespan(), Clamped(p, timespan));
  }

  lemma ScaledBounds(oldTarget: nat, timespan: nat, whole: nat, factor: nat)
    requires whole > 0 && factor > 0
    requires whole <= timespan * factor && timespan <= whole * factor
    ensures Quotient(oldTarget, factor) <= Quotient(Product(oldTarget, timespan), whole) <= Product(oldTarget, factor)
    ensures Quotient(oldTarget, factor) <= oldTarget
  {
    ScaledUp(oldTarget, timespan, whole, factor);
    ScaledDown(oldTarget, timespan, whole, factor);
    ProductBelow(oldTarget, 1, factor);
    QuotientAtMost(oldTarget, factor, oldTarget);
  }

  /** One retarget multiplies or divides the target by at most the factor, before rounding. */
  lemma NewTargetBounds(p: ChainParams, oldTarget: nat, timespan: nat)
    requires p.Valid() && p.EvenFactor()
    requires oldTarget <= p.powLimit
    ensures Quotient(oldTarget, p.adjustmentFactor) <= NewTarget(p, oldTarget, timespan) <= Product(oldTarget, p.adjustmentFactor)
    ensures NewTarget(p, oldTarget, timespan) <= p.powLimit
  {
    hide Clamped, Pow256, Product, Quotient;
    ClampedBounds(p, timespan);
    ScaledBounds(oldTarget, Clamped(p, timespan), p.targetTimespan, p.adjustmentFactor);
  }

  /** Targets up to the limit have an exponent that fits in a byte. */
  lemma BelowLimitEncodable(p: ChainParams, n: nat)
    requires p.Valid()
    requires n <= p.powLimit
    ensures Encodable(n)
  {
    hide Pow256;
    if n > 0 {
      FinalBounds(n);
      ByteLenBounds(n);
      if ByteLen(n) > 32 {
        PowMonotone(32, ByteLen(n) - 1);
        ThirtyTwoBytes();
      }
    }
  }

  lemma ThirtyTwoBytes()
    ensures Pow256(32) == TWO_TO_256
  {
    assert Pow256(8) == 0x1_0000_0000_0000_0000;
    assert Pow256(16) == 0x1_0000_0000_0000_0000_0000_0000_0000_0000;
    assert Pow256(24) == 0x1_0000_0000_0000_0000_0000_0000_0000_0000_0000_0000_0000_0000;
  }

  /**
   At a retarget height the new target is at most the old one times the factor and, as far as
   integer division and the compact form allow, at least the old one divided by it, whatever
   the two timestamps are.
   */
  lemma RetargetBounds(p: ChainParams, branch: seq<Header>, k: nat)
    requires p.Valid() && p.EvenFactor() && !p.regNet
    requires AcceptedBranch(p, branch)
    requires 1 < k < |branch|
    requires k % p.BlocksPerRetarget() == 0
    ensures var oldTarget, target := CompactToBig(branch[k - 1].bits), CompactToBig(branch[k].bits);
            && target <= Product(oldTarget, p.adjustmentFactor)
            && target <= p.powLimit
            && (oldTarget >= p.adjustmentFactor ==>
                  (Quotient(oldTarget, p.adjustmentFactor) - target) * 0x8000 < Quotient(oldTarget, p.adjustmentFactor))
  {
    var exact := RetargetedFrom(p, branch, k);
    var oldTarget := CompactToBig(branch[k - 1].bits);
    var timespan := Timespan(branch[k - 1].timestamp, branch[k - p.BlocksPerRetarget()].timestamp);
    hide NewTarget, CompactToBig, BigToCompact, Product, Quotient, AcceptedBranch;
    NewTargetBounds(p, oldTarget, timespan);
    RoundedTarget(p, exact, Quotient(oldTarget, p.adjustmentFactor));
    if oldTarget >= p.adjustmentFactor {
      QuotientPositive(oldTarget, p.adjustmentFactor);
    }
  }

  lemma QuotientPositive(a: nat, b: nat)
    requires 0 < b <= a
    ensures Quotient(a, b) > 0
  {
    QuotientAtLeast(a, b, 1);
  }

  /** The timestamps used are those of the previous block and of the one a period before the new block. */
  lemma RetargetedFrom(p: ChainParams, branch: seq<Header>, k: nat) returns (exact: nat)
    requires p.Valid() && !p.regNet
    requires AcceptedBranch(p, branch)
    requires 1 < k < |branch|
    requires k % p.BlocksPerRetarget() == 0
    ensures p.BlocksPerRetarget() <= k
    ensures 0 < CompactToBig(branch[k - 1].bits) <= p.powLimit
    ensures exact == NewTarget(p, CompactToBig(branch[k - 1].bits),
                               Timespan(branch[k - 1].timestamp, branch[k - p.BlocksPerRetarget()].timestamp))
    ensures branch[k].bits == BigToCompact(exact)
  {
    hide NewTarget, CompactToBig, BigToCompact, Timespan, PastMedianTime;
    assert HeaderOk(p, branch[..k], branch[k]);
    PeriodFits(k, p.BlocksPerRetarget());
    assert TargetOk(p, branch[k - 1].bits);
    exact := NewTarget(p, CompactToBig(branch[k - 1].bits),
                       Timespan(branch[k - 1].timestamp, branch[k - p.BlocksPerRetarget()].timestamp));
  }

  lemma RoundedTarget(p: ChainParams, exact: nat, low: nat)
    requires p.Valid()
    requires low <= exact <= p.powLimit
    ensures CompactToBig(BigToCompact(exact)) <= exact
    ensures low > 0 ==> (low - CompactToBig(BigToCompact(exact))) * 0x8000 < low
  {
    hide CompactToBig, BigToCompact;
    BelowLimitEncodable(p, exact);
    BelowLimitEncodable(p, low);
    RoundingMonotone(low, exact);
    if exact > 0 {
      GreatestNotAbove(exact, 0);
    } else {
      DecodeEncode(exact);
    }
    if low > 0 {
      RelativeError(low);
    }
  }

  // ----- What the timespan does to the target -----

  lemma QuotientBounds(a: nat, d: nat)
    requires d > 0
    ensures Quotient(a, d) * d <= a < (Quotient(a, d) + 1) * d
    ensures Quotient(a, d) <= a
  {
    DivisionBounds(a, d);
  }

  lemma QuotientReaches(a: nat, d: nat, q: nat)
    requires d > 0 && q * d <= a
    ensures q <= Quotient(a, d)
  {
    QuotientAtLeast(a, d, q);
  }

  lemma QuotientMonotone(a: nat, b: nat, d: nat)
    requires d > 0 && a <= b
    ensures Quotient(a, d) <= Quotient(b, d)
  {
    hide Quotient;
    QuotientBounds(a, d);
    QuotientReaches(b, d, Quotient(a, d));
  }

  /** A longer period never gives a lower target. */
  lemma NewTargetMonotone(p: ChainParams, oldTarget: nat, s: nat, t: nat)
    requires p.Valid() && s <= t
    ensures NewTarget(p, oldTarget, s) <= NewTarget(p, oldTarget, t)
  {
    hide Product, Quotient, Clamped;
    ClampedMonotone(p, s, t);
    ProductMonotone(oldTarget, Clamped(p, s), Clamped(p, t));
    QuotientMonotone(Product(oldTarget, Clamped(p, s)), Product(oldTarget, Clamped(p, t)), p.targetTimespan);
  }

  lemma ProductMonotone(a: nat, b: nat, c: nat)
    requires b <= c
    ensures Product(a, b) <= Product(a, c)
  {
    ProductBelow(a, b, c);
  }

  lemma ClampedMonotone(p: ChainParams, s: nat, t: nat)
    requires p.Valid() && s <= t
    ensures Clamped(p, s) <= Clamped(p, t)
  {
    SpansInOrder(p);
  }

  lemma SpansInOrder(p: ChainParams)
    requires p.Valid()
    ensures p.MinTimespan() <= p.targetTimespan <= p.MaxTimespan()
  {
    ProductBelow(p.targetTimespan, 1, p.adjustmentFactor);
    QuotientAtMost(p.targetTimespan, p.adjustmentFactor, p.targetTimespan);
  }

  /** Where the timespan is not limited: it lies between the timespan aimed at divided and multiplied by the factor. */
  ghost predicate WithinFactor(p: ChainParams, timespan: nat) {
    p.targetTimespan <= timespan * p.adjustmentFactor && timespan <= p.targetTimespan * p.adjustmentFactor
  }

  lemma WithinSpans(p: ChainParams, timespan: nat)
    requires p.Valid() && p.EvenFactor()
    ensures p.MinTimespan() <= timespan <==> p.targetTimespan <= timespan * p.adjustmentFactor
    ensures p.MinTimespan() * p.adjustmentFactor == p.targetTimespan
  {
    var whole, f := p.targetTimespan, p.adjustmentFactor;
    assert whole == (whole / f) * f + whole % f;
    if whole / f <= timespan {
      ProductBelow(f, whole / f, timespan);
    } else {
      ProductBelow(f, timespan + 1, whole / f);
    }
  }

  /** Within the factor the target is scaled by the timespan, rounded down and cut off at the limit. */
  lemma ScaledByTimespan(p: ChainParams, oldTarget: nat, timespan: nat)
    requires p.Valid() && p.EvenFactor() && WithinFactor(p, timespan)
    ensures var target := NewTarget(p, oldTarget, timespan);
            && target * p.targetTimespan <= oldTarget * timespan
            && target <= p.powLimit
            && (target < p.powLimit ==> oldTarget * timespan < (target + 1) * p.targetTimespan)
  {
    hide *;
    NotLimited(p, oldTarget, timespan);
    ProductIs(oldTarget, timespan);
    ProductIs(NewTarget(p, oldTarget, timespan), p.targetTimespan);
    ProductIs(NewTarget(p, oldTarget, timespan) + 1, p.targetTimespan);
    CutOff(Product(oldTarget, timespan), p.targetTimespan, p.powLimit, NewTarget(p, oldTarget, timespan));
  }

  lemma ProductIs(a: nat, b: nat)
    ensures Product(a, b) == a * b
  {
  }

  lemma NotLimited(p: ChainParams, oldTarget: nat, timespan: nat)
    requires p.Valid() && p.EvenFactor() && WithinFactor(p, timespan)
    ensures p.targetTimespan > 0
    ensures var scaled := Quotient(Product(oldTarget, timespan), p.targetTimespan);
            NewTarget(p, oldTarget, timespan) == if scaled > p.powLimit then p.powLimit else scaled
  {
    hide Quotient, Product;
    WithinSpans(p, timespan);
    assert Clamped(p, timespan) == timespan;
  }

  lemma CutOff(a: nat, d: nat, limit: nat, q: nat)
    requires d > 0 && q == if Quotient(a, d) > limit then limit else Quotient(a, d)
    ensures Product(q, d) <= a && q <= limit
    ensures q < limit ==> a < Product(q + 1, d)
  {
    hide Quotient;
    QuotientBounds(a, d);
    if Quotient(a, d) > limit {
      ProductBelow(d, limit, Quotient(a, d));
    }
  }

  /** A period shorter than the factor allows divides the target by the factor. */
  lemma DividedByFactor(p: ChainParams, oldTarget: nat, timespan: nat)
    requires p.Valid() && p.EvenFactor() && oldTarget <= p.powLimit
    requires timespan * p.adjustmentFactor < p.targetTimespan
    ensures NewTarget(p, oldTarget, timespan) == Quotient(oldTarget, p.adjustmentFactor)
  {
    hide Product, Quotient, Clamped, ChainParams.Valid;
    WithinSpans(p, timespan);
    ShortPeriod(p, oldTarget, timespan);
    QuotientBounds(oldTarget, p.adjustmentFactor);
  }

  lemma ShortPeriod(p: ChainParams, oldTarget: nat, timespan: nat)
    requires p.Valid() && timespan < p.MinTimespan() && p.MinTimespan() * p.adjustmentFactor == p.targetTimespan
    ensures Quotient(Product(oldTarget, Clamped(p, timespan)), p.targetTimespan) == Quotient(oldTarget, p.adjustmentFactor)
  {
    var least, f := p.MinTimespan(), p.adjustmentFactor;
    CancelFactor(oldTarget, f, least);
  }

  lemma CancelFactor(a: nat, b: nat, c: nat)
    requires b > 0 && c > 0
    ensures c * b > 0 && (a * c) / (c * b) == a / b
  {
    var q := a / b;
    DivisionBounds(a, b);
    ProductBelow(c, q * b, a);
    ProductBelow(c, a + 1, (q + 1) * b);
    assert c * (q * b) == q * (c * b);
    assert c * ((q + 1) * b) == (q + 1) * (c * b);
    QuotientAtLeast(a * c, c * b, q);
    if (a * c) / (c * b) > q {
      DivisionBounds(a * c, c * b);
      ProductBelow(c * b, q + 1, (a * c) / (c * b));
    }
  }

  /** A period longer than the factor allows multiplies the target by the factor, up to the limit. */
  lemma MultipliedByFactor(p: ChainParams, oldTarget: nat, timespan: nat)
    requires p.Valid() && timespan > p.targetTimespan * p.adjustmentFactor
    ensures NewTarget(p, oldTarget, timespan) ==
            if oldTarget * p.adjustmentFactor > p.powLimit then p.powLimit else oldTarget * p.adjustmentFactor
  {
    var whole, f := p.targetTimespan, p.adjustmentFactor;
    SpansInOrder(p);
    assert Clamped(p, timespan) == whole * f;
    assert oldTarget * (whole * f) == (oldTarget * f) * whole;
    QuotientAtLeast((oldTarget * f) * whole, whole, oldTarget * f);
    QuotientAtMost((oldTarget * f) * whole, whole, oldTarget * f);
  }

  /** A period as long as aimed at keeps the target. */
  lemma KeptByTimespan(p: ChainParams, oldTarget: nat)
    requires p.Valid() && oldTarget <= p.powLimit
    ensures NewTarget(p, oldTarget, p.targetTimespan) == oldTarget
  {
    SpansInOrder(p);
    assert Clamped(p, p.targetTimespan) == p.targetTimespan;
    QuotientAtLeast(oldTarget * p.targetTimespan, p.targetTimespan, oldTarget);
    QuotientAtMost(oldTarget * p.targetTimespan, p.targetTimespan, oldTarget);
  }

  /**
   At a retarget height of an accepted branch: a period that did not take longer than aimed at never
   raises the target, and one that did not take less never lowers it, not even by rounding.
   */
  lemma RetargetDirection(p: ChainParams, branch: seq<Header>, k: nat)
    requires p.Valid() && !p.regNet
    requires AcceptedBranch(p, branch)
    requires 1 < k < |branch| && branch[k - 1].bits < COMPACT_LIMIT
    requires k % p.BlocksPerRetarget() == 0
    ensures p.BlocksPerRetarget() <= k
    ensures var span := Timespan(branch[k - 1].timestamp, branch[k - p.BlocksPerRetarget()].timestamp);
            var oldTarget, target := CompactToBig(branch[k - 1].bits), CompactToBig(branch[k].bits);
            && (span <= p.targetTimespan ==> target <= oldTarget)
            && (span >= p.targetTimespan ==> target >= oldTarget)
  {
    var exact := RetargetedFrom(p, branch, k);
    var span := Timespan(branch[k - 1].timestamp, branch[k - p.BlocksPerRetarget()].timestamp);
    hide *;
    var oldTarget := CompactToBig(branch[k - 1].bits);
    KeptByTimespan(p, oldTarget);
    NewTargetCapped(p, oldTarget, span);
    BelowLimitEncodable(p, exact);
    if span >= p.targetTimespan {
      NewTargetMonotone(p, oldTarget, p.targetTimespan, span);
      GreatestNotAbove(exact, branch[k - 1].bits);
    }
    if span <= p.targetTimespan {
      NewTargetMonotone(p, oldTarget, span, p.targetTimespan);
      RoundedTarget(p, exact, 0);
    }
  }

  lemma NewTargetCapped(p: ChainParams, oldTarget: nat, timespan: nat)
    requires p.Valid()
    ensures NewTarget(p, oldTarget, timespan) <= p.powLimit
  {
    hide Clamped, Product, Quotient;
  }

  /**
   The same by the timestamps themselves. When the last block of a period is dated before its first
   one, by less than 2^32 seconds less the longest period, the difference wraps around, and the
   target is multiplied by the factor, up to the limit.
   */
  lemma BackwardsPeriod(p: ChainParams, oldTarget: nat, first: nat, last: nat)
    requires p.Valid() && first < TWO_TO_32 && last < TWO_TO_32
    ensures first <= last ==> NewTarget(p, oldTarget, Timespan(last, first)) == NewTarget(p, oldTarget, last - first)
    ensures last < first < last + (TWO_TO_32 - p.targetTimespan * p.adjustmentFactor) ==>
              NewTarget(p, oldTarget, Timespan(last, first)) ==
              if oldTarget * p.adjustmentFactor > p.powLimit then p.powLimit else oldTarget * p.adjustmentFactor
  {
    hide NewTarget;
    if last < first {
      assert Timespan(last, first) == last - first + TWO_TO_32;
      if first < last + (TWO_TO_32 - p.targetTimespan * p.adjustmentFactor) {
        MultipliedByFactor(p, oldTarget, Timespan(last, first));
      }
    }
  }

  /** On the main network, an hour for 720 blocks quarters the target and a week multiplies it by four. */
  lemma MainNetPeriods(oldTarget: nat)
    requires 4 * oldTarget <= POW_LIMIT
    ensures NewTarget(MAIN_NET, oldTarget, 3600) == oldTarget / 4
    ensures NewTarget(MAIN_NET, oldTarget, 86400) == oldTarget
    ensures NewTarget(MAIN_NET, oldTarget, 604800) == 4 * oldTarget
  {
    hide NewTarget;
    NetsAreValid();
    DividedByFactor(MAIN_NET, oldTarget, 3600);
    KeptByTimespan(MAIN_NET, oldTarget);
    MultipliedByFactor(MAIN_NET, oldTarget, 604800);
  }
}

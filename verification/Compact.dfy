/** The compact form of targets: an exponent byte and a 23-bit mantissa, standing for mantissa * 256^(exponent - 3). */
module Compact {

  const MANTISSA_LIMIT := 0x80_0000
  const MANTISSA_MIN := 0x8000
  const EXPONENT_UNIT := 0x100_0000
  const COMPACT_LIMIT := 0x1_0000_0000

  function Pow256(k: nat): (r: nat)
    ensures r > 0
  {
    if k == 0 then 1 else 256 * Pow256(k - 1)
  }

  /** The number of bytes of n without leading zeros. */
  function ByteLen(n: nat): nat {
    if n == 0 then 0 else 1 + ByteLen(n / 256)
  }

  function ShiftLeft(n: nat, bytes: nat): nat {
    if bytes == 0 then n else 256 * ShiftLeft(n, bytes - 1)
  }

  function ShiftRight(n: nat, bytes: nat): nat {
    if bytes == 0 then n else ShiftRight(n, bytes - 1) / 256
  }

  /** n with its leading byte moved to the third byte. */
  function LeadingBytes(n: nat): nat {
    var length := ByteLen(n);
    if length <= 3 then ShiftLeft(n, 3 - length) else ShiftRight(n, length - 3)
  }

  /** The exponent keeps its low 8 bits. */
  function BigToCompact(n: nat): nat {
    if n == 0 then 0
    else
      var exponent, mantissa := ByteLen(n), LeadingBytes(n);
      if (mantissa / MANTISSA_LIMIT) % 2 == 1 then
        ((exponent + 1) % 256) * EXPONENT_UNIT + mantissa / 256
      else
        (exponent % 256) * EXPONENT_UNIT + mantissa
  }

  function Exponent(compact: nat): nat {
    compact / EXPONENT_UNIT
  }

  function Mantissa(compact: nat): nat {
    compact % MANTISSA_LIMIT
  }

  predicate Negative(compact: nat) {
    (compact / MANTISSA_LIMIT) % 2 == 1
  }

  function Magnitude(exponent: nat, mantissa: nat): nat {
    if exponent <= 3 then ShiftRight(mantissa, 3 - exponent) else ShiftLeft(mantissa, exponent - 3)
  }

  function CompactToBig(compact: nat): int {
    if Negative(compact) then 0 - Magnitude(Exponent(compact), Mantissa(compact))
    else Magnitude(Exponent(compact), Mantissa(compact))
  }

  const TWO_TO_256: nat := 0x1_0000_0000_0000_0000_0000_0000_0000_0000_0000_0000_0000_0000_0000_0000_0000_0000

  /** The work of a block whose target has this compact form. */
  function CalcWork(bits: nat): nat {
    if CompactToBig(bits) <= 0 then 0 else Quotient(TWO_TO_256, CompactToBig(bits) + 1)
  }

  function Quotient(a: nat, b: nat): nat
    requires b > 0
  {
    a / b
  }

  // ----- Powers, lengths and shifts -----

  lemma {:induction false} PowMonotone(a: nat, b: nat)
    requires a <= b
    ensures Pow256(a) <= Pow256(b)
  {
    if a < b {
      PowMonotone(a, b - 1);
    }
  }

  /** n has exactly ByteLen(n) bytes. */
  lemma {:induction false} ByteLenBounds(n: nat)
    requires n > 0
    ensures ByteLen(n) > 0
    ensures Pow256(ByteLen(n) - 1) <= n < Pow256(ByteLen(n))
  {
    if n >= 256 {
      ByteLenBounds(n / 256);
    } else {
      assert n / 256 == 0;
      assert Pow256(1) == 256 * Pow256(0);
    }
  }

  lemma {:induction false} ShiftLeftTwice(n: nat, a: nat, b: nat)
    ensures ShiftLeft(ShiftLeft(n, a), b) == ShiftLeft(n, a + b)
  {
    if b > 0 {
      ShiftLeftTwice(n, a, b - 1);
    }
  }

  lemma {:induction false} ShiftLeftMonotone(m: nat, n: nat, k: nat)
    requires m <= n
    ensures ShiftLeft(m, k) <= ShiftLeft(n, k)
  {
    if k > 0 {
      ShiftLeftMonotone(m, n, k - 1);
    }
  }

  /** Shifting right is the greatest number that shifts left to at most n. */
  lemma {:induction false} ShiftRightBounds(n: nat, k: nat)
    ensures ShiftLeft(ShiftRight(n, k), k) <= n < ShiftLeft(ShiftRight(n, k) + 1, k)
  {
    if k > 0 {
      var q := ShiftRight(n, k - 1);
      ShiftRightBounds(n, k - 1);
      ShiftLeftTwice(q / 256, 1, k - 1);
      ShiftLeftTwice(q / 256 + 1, 1, k - 1);
      assert ShiftLeft(q / 256, 1) == 256 * ShiftLeft(q / 256, 0);
      assert ShiftLeft(q / 256 + 1, 1) == 256 * ShiftLeft(q / 256 + 1, 0);
      ShiftLeftMonotone(256 * (q / 256), q, k - 1);
      ShiftLeftMonotone(q + 1, 256 * (q / 256 + 1), k - 1);
    }
  }

  lemma ShiftRightOfLeft(n: nat, k: nat)
    ensures ShiftRight(ShiftLeft(n, k), k) == n
  {
    var m := ShiftLeft(n, k);
    var q := ShiftRight(m, k);
    ShiftRightBounds(m, k);
    if q < n {
      ShiftLeftMonotone(q + 1, n, k);
    } else if n < q {
      ShiftLeftMonotone(n + 1, q, k);
      ShiftLeftStrict(n, k);
    }
  }

  lemma {:induction false} ShiftLeftStrict(n: nat, k: nat)
    ensures ShiftLeft(n, k) < ShiftLeft(n + 1, k)
  {
    if k > 0 {
      ShiftLeftStrict(n, k - 1);
    }
  }

  lemma {:induction false} PowShift(a: nat, b: nat)
    ensures ShiftLeft(Pow256(a), b) == Pow256(a + b)
  {
    if b > 0 {
      PowShift(a, b - 1);
    }
  }

  // ----- Encoding -----

  /** The exponent and mantissa that encoding settles on. */
  ghost function FinalExponent(n: nat): nat {
    if LeadingBytes(n) >= MANTISSA_LIMIT then ByteLen(n) + 1 else ByteLen(n)
  }

  ghost function FinalMantissa(n: nat): nat {
    if LeadingBytes(n) >= MANTISSA_LIMIT then LeadingBytes(n) / 256 else LeadingBytes(n)
  }

  lemma ShortBounds(n: nat, length: nat)
    requires 0 < length <= 3
    requires Pow256(length - 1) <= n < Pow256(length)
    ensures Pow256(2) <= ShiftLeft(n, 3 - length) < Pow256(3)
  {
    hide *;
    PowShift(length - 1, 3 - length);
    PowShift(length, 3 - length);
    ShiftLeftMonotone(Pow256(length - 1), n, 3 - length);
    ShiftLeftMonotone(n + 1, Pow256(length), 3 - length);
    ShiftLeftStrict(n, 3 - length);
  }

  lemma LongBounds(n: nat, length: nat)
    requires length > 3
    requires Pow256(length - 1) <= n < Pow256(length)
    ensures Pow256(2) <= ShiftRight(n, length - 3) < Pow256(3)
  {
    hide *;
    var q := ShiftRight(n, length - 3);
    ShiftRightBounds(n, length - 3);
    PowShift(3, length - 3);
    PowShift(2, length - 3);
    if q >= Pow256(3) {
      ShiftLeftMonotone(Pow256(3), q, length - 3);
    }
    if q + 1 <= Pow256(2) {
      ShiftLeftMonotone(q + 1, Pow256(2), length - 3);
    }
  }

  lemma LeadingBytesBounds(n: nat)
    requires n > 0
    ensures 0x1_0000 <= LeadingBytes(n) < 0x100_0000
  {
    hide Pow256, ByteLen, ShiftLeft, ShiftRight;
    ByteLenBounds(n);
    SmallPowers();
    if ByteLen(n) <= 3 {
      ShortBounds(n, ByteLen(n));
    } else {
      LongBounds(n, ByteLen(n));
    }
  }

  lemma SmallPowers()
    ensures Pow256(0) == 1
    ensures Pow256(1) == 0x100
    ensures Pow256(2) == 0x1_0000
    ensures Pow256(3) == 0x100_0000
  {
    assert Pow256(1) == 256 * Pow256(0);
    assert Pow256(2) == 256 * Pow256(1);
    assert Pow256(3) == 256 * Pow256(2);
  }

  lemma FinalBounds(n: nat)
    requires n > 0
    ensures MANTISSA_MIN <= FinalMantissa(n) < MANTISSA_LIMIT
    ensures FinalExponent(n) > 0
    ensures ByteLen(n) <= FinalExponent(n) <= ByteLen(n) + 1
    ensures BigToCompact(n) == (FinalExponent(n) % 256) * EXPONENT_UNIT + FinalMantissa(n)
  {
    hide ByteLen, LeadingBytes;
    LeadingBytesBounds(n);
    ByteLenBounds(n);
    TopBit(LeadingBytes(n));
  }

  lemma TopBit(m: nat)
    requires m < 0x100_0000
    ensures (m / MANTISSA_LIMIT) % 2 == 1 <==> m >= MANTISSA_LIMIT
    ensures m >= MANTISSA_LIMIT ==> MANTISSA_MIN <= m / 256 < MANTISSA_LIMIT
  {
  }

  /** The mantissa is n shifted so that exactly its highest 23 bits, sign bit excluded, are kept. */
  lemma FinalForm(n: nat)
    requires n > 0
    ensures FinalExponent(n) <= 3 ==> FinalMantissa(n) == ShiftLeft(n, 3 - FinalExponent(n))
    ensures FinalExponent(n) > 3 ==> FinalMantissa(n) == ShiftRight(n, FinalExponent(n) - 3)
  {
    var length := ByteLen(n);
    if LeadingBytes(n) >= MANTISSA_LIMIT {
      if length <= 2 {
        assert ShiftLeft(n, 3 - length) == 256 * ShiftLeft(n, 2 - length);
      } else {
        assert length == 3 ==> ShiftLeft(n, 0) == ShiftRight(n, 0);
        assert ShiftRight(n, length - 2) == ShiftRight(n, length - 3) / 256;
      }
    }
  }

  /** The value left after encoding and decoding. */
  ghost function Rounded(n: nat): nat {
    Magnitude(FinalExponent(n), FinalMantissa(n))
  }

  lemma RoundedBounds(n: nat)
    requires n > 0
    ensures FinalExponent(n) <= 3 ==> Rounded(n) == n
    ensures FinalExponent(n) > 3 ==>
              && Rounded(n) == ShiftLeft(FinalMantissa(n), FinalExponent(n) - 3)
              && Rounded(n) <= n < ShiftLeft(FinalMantissa(n) + 1, FinalExponent(n) - 3)
  {
    FinalForm(n);
    if FinalExponent(n) <= 3 {
      ShiftRightOfLeft(n, 3 - FinalExponent(n));
    } else {
      ShiftRightBounds(n, FinalExponent(n) - 3);
    }
  }

  lemma Unpack(exponent: nat, mantissa: nat)
    requires exponent < 256 && mantissa < MANTISSA_LIMIT
    ensures Exponent(exponent * EXPONENT_UNIT + mantissa) == exponent
    ensures Mantissa(exponent * EXPONENT_UNIT + mantissa) == mantissa
    ensures !Negative(exponent * EXPONENT_UNIT + mantissa)
  {
    var c := exponent * EXPONENT_UNIT + mantissa;
    assert c / MANTISSA_LIMIT == 2 * exponent;
  }

  lemma DecodePacked(exponent: nat, mantissa: nat)
    requires exponent < 256 && mantissa < MANTISSA_LIMIT
    ensures exponent % 256 == exponent
    ensures CompactToBig(exponent * EXPONENT_UNIT + mantissa) == Magnitude(exponent, mantissa)
    ensures exponent * EXPONENT_UNIT + mantissa < COMPACT_LIMIT
  {
    hide Magnitude, Exponent, Mantissa, Negative;
    Unpack(exponent, mantissa);
  }

  /** Numbers whose exponent fits in a byte. */
  ghost predicate Encodable(n: nat) {
    n > 0 ==> FinalExponent(n) < 256
  }

  lemma DecodeEncode(n: nat)
    requires Encodable(n)
    ensures CompactToBig(BigToCompact(n)) == if n == 0 then 0 else Rounded(n)
    ensures BigToCompact(n) < COMPACT_LIMIT
  {
    if n > 0 {
      FinalBounds(n);
      DecodePacked(FinalExponent(n), FinalMantissa(n));
    } else {
      ZeroMagnitude(3);
    }
  }

  lemma {:induction false} ZeroMagnitude(k: nat)
    ensures ShiftRight(0, k) == 0
  {
    if k > 0 {
      ZeroMagnitude(k - 1);
    }
  }

  // ----- Rounding -----

  lemma {:induction false} MagnitudeBelow(exponent: nat, mantissa: nat, limit: nat)
    requires mantissa < MANTISSA_LIMIT
    requires exponent < limit && limit > 3
    ensures Magnitude(exponent, mantissa) < ShiftLeft(MANTISSA_MIN, limit - 3)
  {
    if exponent <= 3 {
      ShrinkingRight(mantissa, 3 - exponent);
      ShiftLeftTwice(MANTISSA_MIN, 1, limit - 4);
      assert ShiftLeft(MANTISSA_MIN, 1) == 256 * ShiftLeft(MANTISSA_MIN, 0);
      GrowingLeft(MANTISSA_LIMIT, limit - 4);
    } else {
      ShiftLeftStrict(mantissa, exponent - 3);
      ShiftLeftMonotone(mantissa + 1, MANTISSA_LIMIT, exponent - 3);
      assert ShiftLeft(MANTISSA_MIN, 1) == 256 * ShiftLeft(MANTISSA_MIN, 0) == MANTISSA_LIMIT;
      ShiftLeftTwice(MANTISSA_MIN, 1, exponent - 3);
      ShiftLeftTwice(MANTISSA_MIN, exponent - 2, limit - 1 - exponent);
      GrowingLeft(ShiftLeft(MANTISSA_MIN, exponent - 2), limit - 1 - exponent);
    }
  }

  lemma {:induction false} ShrinkingRight(n: nat, k: nat)
    ensures ShiftRight(n, k) <= n
  {
    if k > 0 {
      ShrinkingRight(n, k - 1);
    }
  }

  lemma {:induction false} GrowingLeft(n: nat, k: nat)
    ensures n <= ShiftLeft(n, k)
  {
    if k > 0 {
      GrowingLeft(n, k - 1);
    }
  }

  /** Multiples of a coarser unit are multiples of a finer one. */
  lemma CoarserBelow(n: nat, exponent: nat, mantissa: nat)
    requires n > 0 && FinalExponent(n) > 3
    requires exponent >= FinalExponent(n)
    requires Magnitude(exponent, mantissa) <= n
    ensures Magnitude(exponent, mantissa) <= Rounded(n)
  {
    var e := FinalExponent(n);
    RoundedBounds(n);
    var multiple := ShiftLeft(mantissa, exponent - e);
    ShiftLeftTwice(mantissa, exponent - e, e - 3);
    if multiple >= FinalMantissa(n) + 1 {
      ShiftLeftMonotone(FinalMantissa(n) + 1, multiple, e - 3);
    } else {
      ShiftLeftMonotone(multiple, FinalMantissa(n), e - 3);
    }
  }

  /** Encoding and decoding gives the greatest number that has a compact form and is not above n. */
  lemma GreatestNotAbove(n: nat, c: nat)
    requires n > 0 && Encodable(n)
    requires c < COMPACT_LIMIT
    ensures 0 < CompactToBig(BigToCompact(n)) <= n
    ensures CompactToBig(c) <= n ==> CompactToBig(c) <= CompactToBig(BigToCompact(n))
  {
    DecodeEncode(n);
    FinalBounds(n);
    RoundedBounds(n);
    var e := FinalExponent(n);
    if e > 3 {
      ShiftLeftMonotone(MANTISSA_MIN, FinalMantissa(n), e - 3);
      GrowingLeft(MANTISSA_MIN, e - 3);
      if !Negative(c) && CompactToBig(c) <= n {
        if Exponent(c) >= e {
          CoarserBelow(n, Exponent(c), Mantissa(c));
        } else {
          MagnitudeBelow(Exponent(c), Mantissa(c), e);
        }
      }
    }
  }

  /** Less than one part in 2^15 is lost. */
  lemma RelativeError(n: nat)
    requires n > 0 && Encodable(n)
    ensures (n - CompactToBig(BigToCompact(n))) * 0x8000 < n
  {
    hide ShiftLeft, FinalExponent, FinalMantissa, Rounded, Magnitude, CompactToBig, BigToCompact;
    DecodeEncode(n);
    FinalBounds(n);
    RoundedBounds(n);
    var e, m := FinalExponent(n), FinalMantissa(n);
    if e > 3 {
      ShiftLeftAdd(m, 1, e - 3);
      ShiftLeftScale(MANTISSA_MIN, e - 3);
      ShiftLeftMonotone(MANTISSA_MIN, m, e - 3);
    }
  }

  lemma {:induction false} ShiftLeftAdd(a: nat, b: nat, k: nat)
    ensures ShiftLeft(a + b, k) == ShiftLeft(a, k) + ShiftLeft(b, k)
  {
    if k > 0 {
      ShiftLeftAdd(a, b, k - 1);
    }
  }

  lemma {:induction false} ShiftLeftScale(a: nat, k: nat)
    ensures ShiftLeft(a, k) == a * ShiftLeft(1, k)
  {
    if k > 0 {
      ShiftLeftScale(a, k - 1);
      assert 256 * (a * ShiftLeft(1, k - 1)) == a * (256 * ShiftLeft(1, k - 1));
    }
  }

  /** Rounding keeps the order. */
  lemma RoundingMonotone(m: nat, n: nat)
    requires m <= n
    requires Encodable(m) && Encodable(n)
    ensures CompactToBig(BigToCompact(m)) <= CompactToBig(BigToCompact(n))
  {
    DecodeEncode(m);
    DecodeEncode(n);
    if m > 0 {
      GreatestNotAbove(m, 0);
      GreatestNotAbove(n, BigToCompact(m));
    }
  }

  /** The codes without sign whose mantissa is as long as it can be and loses nothing. */
  ghost predicate Canonical(c: nat) {
    && c < COMPACT_LIMIT
    && !Negative(c)
    && Exponent(c) > 0
    && MANTISSA_MIN <= Mantissa(c)
    && (Exponent(c) < 3 ==> ShiftLeft(Magnitude(Exponent(c), Mantissa(c)), 3 - Exponent(c)) == Mantissa(c))
  }

  /** The mantissa m with exponent e reaches n, and m + 1 exceeds it. */
  ghost predicate Fits(n: nat, e: nat, m: nat) {
    ShiftLeft(m, e) <= ShiftLeft(n, 3) < ShiftLeft(m + 1, e)
  }

  lemma FinalFits(n: nat)
    requires n > 0
    ensures Fits(n, FinalExponent(n), FinalMantissa(n))
  {
    hide FinalExponent, FinalMantissa, ShiftLeft, ShiftRight;
    var e, m := FinalExponent(n), FinalMantissa(n);
    FinalForm(n);
    if e <= 3 {
      ShiftLeftTwice(n, 3 - e, e);
      ShiftLeftStrict(m, e);
    } else {
      ShiftRightBounds(n, e - 3);
      FitsAbove(n, e, m);
    }
  }

  lemma FitsAbove(n: nat, e: nat, m: nat)
    requires e > 3
    requires ShiftLeft(m, e - 3) <= n < ShiftLeft(m + 1, e - 3)
    ensures Fits(n, e, m)
  {
    hide ShiftLeft;
    ShiftLeftTwice(m, e - 3, 3);
    ShiftLeftTwice(m + 1, e - 3, 3);
    ShiftLeftMonotone(ShiftLeft(m, e - 3), n, 3);
    ShiftLeftMonotone(n + 1, ShiftLeft(m + 1, e - 3), 3);
    ShiftLeftStrict(n, 3);
  }

  /** Only one exponent and one full-length mantissa fit a number. */
  lemma FitsOnce(n: nat, e: nat, m: nat, e': nat, m': nat)
    requires MANTISSA_MIN <= m < MANTISSA_LIMIT && MANTISSA_MIN <= m' < MANTISSA_LIMIT
    requires Fits(n, e, m) && Fits(n, e', m')
    ensures e == e' && m == m'
  {
    FitsOrdered(n, e, m, e', m');
    FitsOrdered(n, e', m', e, m);
    if m < m' {
      ShiftLeftMonotone(m + 1, m', e);
    } else if m' < m {
      ShiftLeftMonotone(m' + 1, m, e);
    }
  }

  lemma FitsOrdered(n: nat, e: nat, m: nat, e': nat, m': nat)
    requires MANTISSA_MIN <= m < MANTISSA_LIMIT && MANTISSA_MIN <= m' < MANTISSA_LIMIT
    requires Fits(n, e, m) && Fits(n, e', m')
    ensures e >= e'
  {
    if e < e' {
      ShiftLeftMonotone(m + 1, MANTISSA_LIMIT, e);
      assert ShiftLeft(MANTISSA_MIN, 1) == 256 * ShiftLeft(MANTISSA_MIN, 0) == MANTISSA_LIMIT;
      ShiftLeftTwice(MANTISSA_MIN, 1, e);
      ShiftLeftTwice(MANTISSA_MIN, e + 1, e' - e - 1);
      GrowingLeft(ShiftLeft(MANTISSA_MIN, e + 1), e' - e - 1);
      ShiftLeftMonotone(MANTISSA_MIN, m', e');
    }
  }

  lemma CanonicalFits(c: nat)
    requires Canonical(c)
    ensures CompactToBig(c) > 0
    ensures Fits(CompactToBig(c), Exponent(c), Mantissa(c))
  {
    hide ShiftLeft, ShiftRight, Exponent, Mantissa, Negative;
    var e, m := Exponent(c), Mantissa(c);
    var n := CompactToBig(c);
    if e <= 3 {
      ShiftLeftTwice(n, 3 - e, e);
      ShiftLeftStrict(m, e);
      if e == 3 {
        ShiftNone(m);
      }
      if n == 0 {
        ShiftLeftScale(n, 3 - e);
      }
    } else {
      ShiftLeftStrict(m, e - 3);
      FitsAbove(n, e, m);
      GrowingLeft(m, e - 3);
    }
  }

  lemma ShiftNone(n: nat)
    ensures ShiftLeft(n, 0) == n && ShiftRight(n, 0) == n
  {
  }

  /** Encoding after decoding is the identity on canonical codes. */
  lemma EncodeDecode(c: nat)
    requires Canonical(c)
    ensures CompactToBig(c) > 0
    ensures Encodable(CompactToBig(c))
    ensures BigToCompact(CompactToBig(c)) == c
  {
    hide CompactToBig, BigToCompact, FinalExponent, FinalMantissa, Fits;
    CanonicalFits(c);
    var n := CompactToBig(c);
    FinalFits(n);
    FinalBounds(n);
    FitsOnce(n, FinalExponent(n), FinalMantissa(n), Exponent(c), Mantissa(c));
    Repack(c);
  }

  lemma Repack(c: nat)
    requires c < COMPACT_LIMIT && !Negative(c)
    ensures Exponent(c) < 256 && Mantissa(c) < MANTISSA_LIMIT
    ensures (Exponent(c) % 256) * EXPONENT_UNIT + Mantissa(c) == c
  {
  }

  /** The encoder produces exactly the canonical codes. */
  lemma EncodingIsCanonical(n: nat)
    requires n > 0 && Encodable(n)
    ensures Canonical(BigToCompact(n))
  {
    hide BigToCompact, FinalExponent, FinalMantissa, ShiftLeft, ShiftRight, Exponent, Mantissa, Negative;
    var e, m := FinalExponent(n), FinalMantissa(n);
    FinalBounds(n);
    DecodeEncode(n);
    Unpack(e, m);
    FinalForm(n);
    RoundedBounds(n);
  }

  // ----- Work -----

  lemma AtMostOnce(q: int, b: nat)
    ensures q <= 1 ==> q * b <= b
  {
    if q <= 1 {
      assert (1 - q) * b >= 0;
    }
  }

  lemma AtLeastTwice(a: nat, b: nat)
    requires b > 0 && a >= 2 * b
    ensures a / b >= 2
  {
    AtMostOnce(a / b, b);
    assert a == (a / b) * b + a % b;
  }

  /** Every target below 2^255 counts for some work. */
  lemma WorkPositive(bits: nat)
    requires 0 < CompactToBig(bits)
    requires 2 * (CompactToBig(bits) + 1) <= TWO_TO_256
    ensures CalcWork(bits) >= 2
  {
    hide Pow256, CompactToBig;
    AtLeastTwice(TWO_TO_256, CompactToBig(bits) + 1);
  }

  /** The work is the expected number of hashes: the greatest w with w * (target + 1) <= 2^256. */
  lemma WorkIsExpectedHashes(bits: nat)
    requires 0 < CompactToBig(bits)
    ensures CalcWork(bits) * (CompactToBig(bits) + 1) <= TWO_TO_256 < (CalcWork(bits) + 1) * (CompactToBig(bits) + 1)
  {
    hide Pow256, CompactToBig;
    DivisionBounds(TWO_TO_256, CompactToBig(bits) + 1);
  }

  lemma DivisionBounds(a: nat, b: nat)
    requires b > 0
    ensures (a / b) * b <= a < (a / b + 1) * b
  {
    assert a == (a / b) * b + a % b;
    assert (a / b + 1) * b == (a / b) * b + b;
  }

  /** A lower target counts for at least as much work. */
  lemma LowerTargetMoreWork(bits: nat, bits': nat)
    requires 0 < CompactToBig(bits) <= CompactToBig(bits')
    ensures CalcWork(bits') <= CalcWork(bits)
  {
    hide Pow256, CompactToBig, CalcWork;
    WorkIsExpectedHashes(bits);
    WorkIsExpectedHashes(bits');
    LessOften(CalcWork(bits'), CalcWork(bits), CompactToBig(bits) + 1, CompactToBig(bits') + 1);
  }

  lemma LessOften(w': nat, w: nat, t: nat, t': nat)
    requires 0 < t <= t'
    requires w' * t' < (w + 1) * t
    ensures w' <= w
  {
    Grows(t, t', w');
    Grows(w + 1, w', t);
  }

  lemma Grows(a: nat, b: nat, c: nat)
    ensures a <= b ==> a * c <= b * c
  {
    if a <= b {
      assert (b - a) * c >= 0;
    }
  }

  // ----- What a code stands for -----

  lemma {:induction false} ExactAbove(exponent: nat, mantissa: nat)
    requires exponent >= 3
    ensures Magnitude(exponent, mantissa) * 0x100_0000 == mantissa * Pow256(exponent)
  {
    if exponent == 3 {
      assert Pow256(3) == 0x100_0000;
    } else {
      ExactAbove(exponent - 1, mantissa);
      assert ShiftLeft(mantissa, exponent - 3) == 256 * ShiftLeft(mantissa, exponent - 4);
      assert ShiftRight(mantissa, 0) == mantissa == ShiftLeft(mantissa, 0);
      assert mantissa * (256 * Pow256(exponent - 1)) == 256 * (mantissa * Pow256(exponent - 1));
    }
  }

  /** A code stands for mantissa * 256^(exponent - 3), rounded down to a whole number, with its sign. */
  lemma DecodedValue(c: nat)
    ensures var n := if Negative(c) then -CompactToBig(c) else CompactToBig(c);
            n * 0x100_0000 <= Mantissa(c) * Pow256(Exponent(c)) < (n + 1) * 0x100_0000
  {
    hide Exponent, Mantissa, Negative;
    var e, m := Exponent(c), Mantissa(c);
    if e >= 3 {
      ExactAbove(e, m);
    } else {
      RoundedBelow(e, m);
    }
  }

  lemma RoundedBelow(exponent: nat, mantissa: nat)
    requires exponent < 3
    ensures var n := Magnitude(exponent, mantissa);
            n * 0x100_0000 <= mantissa * Pow256(exponent) < (n + 1) * 0x100_0000
  {
    assert Pow256(0) == 1 && Pow256(1) == 0x100 && Pow256(2) == 0x1_0000;
    assert ShiftRight(mantissa, 0) == mantissa;
    assert ShiftRight(mantissa, 1) == mantissa / 256;
    assert ShiftRight(mantissa, 2) == mantissa / 256 / 256;
    assert ShiftRight(mantissa, 3) == mantissa / 256 / 256 / 256;
  }

  /** Codes and the numbers they stand for: fractions are cut off, and bit 23 is a sign. */
  lemma KnownCodes()
    ensures CompactToBig(0x0100_3456) == 0 && CompactToBig(0x0200_8000) == 0x80 && CompactToBig(0x0312_3456) == 0x12_3456
    ensures CompactToBig(0x0412_3456) == 0x1234_5600 && CompactToBig(0x0492_3456) == -0x1234_5600
    ensures CompactToBig(0x0500_9234) == 0x9234_0000
  {
    assert ShiftRight(0x3456, 2) == ShiftRight(0x3456, 1) / 256 == 0;
    assert ShiftRight(0x8000, 1) == ShiftRight(0x8000, 0) / 256 == 0x80;
    assert ShiftLeft(0x12_3456, 1) == 256 * ShiftLeft(0x12_3456, 0) == 0x1234_5600;
    assert ShiftLeft(0x9234, 2) == 256 * ShiftLeft(0x9234, 1) == 0x9234_0000;
  }
}

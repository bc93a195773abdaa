/** Lucas sequences by the binary ladder of Annex A.2.4 of IEEE Std 1363-2000. */
module Lucas {

  // ----- The sequences -----

  /** The sequence that starts with a, b and satisfies X(k) = p * X(k - 1) - q * X(k - 2). */
  function Term(p: int, q: int, a: int, b: int, k: nat): int {
    if k == 0 then a
    else if k == 1 then b
    else p * Term(p, q, a, b, k - 1) - q * Term(p, q, a, b, k - 2)
  }

  function U(p: int, q: int, k: nat): int {
    Term(p, q, 0, 1, k)
  }

  function V(p: int, q: int, k: nat): int {
    Term(p, q, 2, p, k)
  }

  function Power(q: int, k: nat): int {
    if k == 0 then 1 else q * Power(q, k - 1)
  }

  /** X(m + n) = X(m) * V(n) - q^n * X(m - n), for every sequence X of the recurrence. */
  lemma {:induction false} Addition(p: int, q: int, a: int, b: int, m: nat, n: nat)
    requires n <= m
    ensures Term(p, q, a, b, m + n) == Term(p, q, a, b, m) * V(p, q, n) - Power(q, n) * Term(p, q, a, b, m - n)
    decreases n
  {
    hide Term, Power;
    FirstTerms(p, q, 2, p);
    FirstPowers(q);
    if n == 0 {
      Doubled(Term(p, q, a, b, m));
    } else if n == 1 {
      NextTerm(p, q, a, b, m + 1);
    } else {
      Addition(p, q, a, b, m, n - 1);
      Addition(p, q, a, b, m, n - 2);
      NextTerm(p, q, a, b, m + n);
      NextTerm(p, q, 2, p, n);
      NextTerm(p, q, a, b, m - n + 2);
      NextPower(q, n);
      NextPower(q, n - 1);
      AdditionStep(
        p, q, Term(p, q, a, b, m), V(p, q, n - 1), V(p, q, n - 2), Power(q, n - 2), Term(p, q, a, b, m - n + 1), Term(p, q, a, b, m - n));
    }
  }

  lemma NextTerm(p: int, q: int, a: int, b: int, k: nat)
    requires k >= 2
    ensures Term(p, q, a, b, k) == p * Term(p, q, a, b, k - 1) - q * Term(p, q, a, b, k - 2)
  {
  }

  lemma FirstPowers(q: int)
    ensures Power(q, 0) == 1 && Power(q, 1) == q
  {
    assert Power(q, 1) == q * Power(q, 0);
  }

  lemma NextPower(q: int, k: nat)
    requires k > 0
    ensures Power(q, k) == q * Power(q, k - 1)
  {
  }

  lemma Doubled(x: int)
    ensures x == x * 2 - 1 * x
  {
  }

  lemma AdditionStep(p: int, q: int, x: int, v: int, w: int, e: int, c: int, f: int)
    ensures p * (x * v - q * e * c) - q * (x * w - e * (p * c - q * f)) == x * (p * v - q * w) - q * (q * e) * f
  {
  }

  /** The four doubling rules that the ladder uses. */
  lemma Doubling(p: int, q: int, m: nat)
    ensures V(p, q, 2 * m) == V(p, q, m) * V(p, q, m) - 2 * Power(q, m)
    ensures V(p, q, 2 * m + 1) == V(p, q, m + 1) * V(p, q, m) - p * Power(q, m)
    ensures U(p, q, 2 * m + 1) == U(p, q, m + 1) * V(p, q, m) - Power(q, m)
    ensures U(p, q, 2 * m + 2) == U(p, q, m + 1) * V(p, q, m + 1)
  {
    hide Term, Power;
    Addition(p, q, 2, p, m, m);
    Addition(p, q, 2, p, m + 1, m);
    Addition(p, q, 0, 1, m + 1, m);
    Addition(p, q, 0, 1, m + 1, m + 1);
    FirstTerms(p, q, 2, p);
    FirstTerms(p, q, 0, 1);
  }

  lemma FirstTerms(p: int, q: int, a: int, b: int)
    ensures Term(p, q, a, b, 0) == a && Term(p, q, a, b, 1) == b
  {
  }

  lemma {:induction false} PowerSum(q: int, m: nat, n: nat)
    ensures Power(q, m + n) == Power(q, m) * Power(q, n)
  {
    if m > 0 {
      PowerSum(q, m - 1, n);
      Associate(q, Power(q, m - 1), Power(q, n));
    }
  }

  lemma Associate(a: int, b: int, c: int)
    ensures a * (b * c) == a * b * c
  {
  }

  // ----- Congruence -----

  ghost predicate Cong(a: int, b: int, n: int) {
    exists k :: a == b + Multiple(k, n)
  }

  function Multiple(k: int, n: int): int {
    k * n
  }

  lemma CongMade(a: int, b: int, n: int, k: int)
    requires a == b + k * n
    ensures Cong(a, b, n)
  {
    assert a == b + Multiple(k, n);
  }

  lemma CongSame(a: int, n: int)
    ensures Cong(a, a, n)
  {
    CongMade(a, a, n, 0);
  }

  lemma CongMod(a: int, b: int, n: int)
    requires n > 0 && Cong(a, b, n)
    ensures Cong(a % n, b, n)
  {
    var k :| a == b + Multiple(k, n);
    assert a == (a / n) * n + a % n;
    CongMade(a % n, b, n, k - a / n);
  }

  lemma CongProduct(a: int, b: int, c: int, d: int, n: int)
    requires Cong(a, b, n) && Cong(c, d, n)
    ensures Cong(a * c, b * d, n)
  {
    var k :| a == b + Multiple(k, n);
    var l :| c == d + Multiple(l, n);
    ProductParts(b, d, k, l, n);
    CongMade(a * c, b * d, n, b * l + k * d + k * l * n);
  }

  lemma ProductParts(b: int, d: int, k: int, l: int, n: int)
    ensures (b + k * n) * (d + l * n) == b * d + (b * l + k * d + k * l * n) * n
  {
    assert (b + k * n) * (d + l * n) == b * (d + l * n) + (k * n) * (d + l * n);
    assert b * (d + l * n) == b * d + b * l * n;
    assert (k * n) * (d + l * n) == k * d * n + k * l * n * n;
  }

  lemma CongDifference(a: int, b: int, c: int, d: int, n: int)
    requires Cong(a, b, n) && Cong(c, d, n)
    ensures Cong(a - c, b - d, n)
  {
    var k :| a == b + Multiple(k, n);
    var l :| c == d + Multiple(l, n);
    assert (k - l) * n == k * n - l * n;
    CongMade(a - c, b - d, n, k - l);
  }

  lemma SmallMultiple(d: int, n: int)
    requires n > 0 && -n < d * n < n
    ensures d * n == 0
  {
  }

  /** A reduced number is the remainder of everything it is congruent to. */
  lemma CongReduced(a: int, b: int, n: int)
    requires n > 0 && 0 <= a < n && Cong(a, b, n)
    ensures a == b % n
  {
    var k :| a == b + Multiple(k, n);
    assert b == (b / n) * n + b % n;
    assert a - b % n == (b / n + k) * n;
    SmallMultiple(b / n + k, n);
  }

  /** A product less another one, reduced. */
  lemma CongStep(a: int, a': int, b: int, b': int, c: int, c': int, n: int)
    requires n > 0 && Cong(a, a', n) && Cong(b, b', n) && Cong(c, c', n)
    ensures Cong((a * b - c) % n, a' * b' - c', n)
    ensures Cong(a * b % n, a' * b', n)
  {
    hide Cong;
    CongProduct(a, a', b, b', n);
    CongDifference(a * b, a' * b', c, c', n);
    CongMod(a * b - c, a' * b' - c', n);
    CongMod(a * b, a' * b', n);
  }

  // ----- Bits -----

  function Shifted(k: nat, j: nat): nat {
    if j == 0 then k else Shifted(k, j - 1) / 2
  }

  function Bit(k: nat, j: nat): nat {
    Shifted(k, j) % 2
  }

  function BitLen(k: nat): nat {
    if k == 0 then 0 else 1 + BitLen(k / 2)
  }

  lemma BitParts(k: nat, j: nat)
    ensures Shifted(k, j) == 2 * Shifted(k, j + 1) + Bit(k, j)
  {
  }

  lemma {:induction false} ShiftedInside(k: nat, j: nat)
    ensures Shifted(k / 2, j) == Shifted(k, j + 1)
  {
    if j > 0 {
      ShiftedInside(k, j - 1);
    }
  }

  lemma {:induction false} NoBitsAbove(k: nat, j: nat)
    requires BitLen(k) <= j
    ensures Shifted(k, j) == 0
    decreases k
  {
    if k == 0 {
      ZeroShifted(j);
    } else {
      NoBitsAbove(k / 2, j - 1);
      ShiftedInside(k, j - 1);
    }
  }

  lemma {:induction false} ZeroShifted(j: nat)
    ensures Shifted(0, j) == 0
  {
    if j > 0 {
      ZeroShifted(j - 1);
    }
  }

  method GetLowestSetBit(k: nat) returns (s: nat)
    requires k > 0
    ensures Bit(k, s) == 1 && forall i :: 0 <= i < s ==> Bit(k, i) == 0
  {
    s := 0;
    while Bit(k, s) != 1
      invariant Shifted(k, s) > 0
      invariant forall i :: 0 <= i < s ==> Bit(k, i) == 0
      decreases Shifted(k, s)
    {
      BitParts(k, s);
      s := s + 1;
    }
  }

  // ----- The ladder -----

  /** What the five variables stand for when the bits read so far make m. */
  ghost predicate Ladder(n: int, p: int, q: int, m: nat, uh: int, vl: int, vh: int, ql: int, qh: int) {
    && Cong(vl, V(p, q, m), n)
    && Cong(vh, V(p, q, m + 1), n)
    && Cong(uh, U(p, q, m + 1), n)
    && Cong(ql * qh, Power(q, m), n)
  }

  lemma LadderStart(n: int, p: int, q: int)
    ensures Ladder(n, p, q, 0, 1, 2, p, 1, 1)
  {
    CongSame(1, n);
    CongSame(2, n);
    CongSame(p, n);
  }

  /** The variables after a bit 1 was read. */
  lemma LadderOne(n: int, p: int, q: int, m: nat, uh: int, vl: int, vh: int, ql: int, qh: int, ql': int, qh': int)
    requires n > 0 && Ladder(n, p, q, m, uh, vl, vh, ql, qh)
    requires ql' == ql * qh % n && qh' == ql' * q % n
    ensures Ladder(n, p, q, 2 * m + 1, uh * vh % n, (vh * vl - p * ql') % n, (vh * vh - 2 * qh') % n, ql', qh')
  {
    hide Cong, U, V, Power;
    Doubling(p, q, m);
    Doubling(p, q, m + 1);
    Reduced(n, p, q, m, ql * qh);
    PowerNext(n, q, m, ql');
    CongSame(0, n);
    CongStep(uh, U(p, q, m + 1), vh, V(p, q, m + 1), 0, 0, n);
    CongStep(vh, V(p, q, m + 1), vl, V(p, q, m), p * ql', p * Power(q, m), n);
    CongStep(vh, V(p, q, m + 1), vh, V(p, q, m + 1), 2 * qh', 2 * Power(q, m + 1), n);
    CongProduct(ql', Power(q, m), qh', Power(q, m + 1), n);
    PowerSum(q, m, m + 1);
  }

  /** A reduced power is congruent to it, and so are its multiples. */
  lemma Reduced(n: int, p: int, q: int, m: nat, x: int)
    requires n > 0 && Cong(x, Power(q, m), n)
    ensures Cong(x % n, Power(q, m), n)
    ensures Cong(p * (x % n), p * Power(q, m), n)
    ensures Cong(2 * (x % n), 2 * Power(q, m), n)
  {
    hide Cong, Power;
    CongMod(x, Power(q, m), n);
    CongSame(p, n);
    CongSame(2, n);
    CongProduct(p, p, x % n, Power(q, m), n);
    CongProduct(2, 2, x % n, Power(q, m), n);
  }

  lemma PowerNext(n: int, q: int, m: nat, x: int)
    requires n > 0 && Cong(x, Power(q, m), n)
    ensures Cong(x * q % n, Power(q, m + 1), n)
    ensures Cong(2 * (x * q % n), 2 * Power(q, m + 1), n)
  {
    hide Cong, Power;
    CongSame(q, n);
    CongSame(2, n);
    CongProduct(x, Power(q, m), q, q, n);
    NextPower(q, m + 1);
    CongMod(x * q, Power(q, m + 1), n);
    CongProduct(2, 2, x * q % n, Power(q, m + 1), n);
  }

  /** The variables after a bit 0 was read. */
  lemma LadderZero(n: int, p: int, q: int, m: nat, uh: int, vl: int, vh: int, ql: int, qh: int, ql': int)
    requires n > 0 && Ladder(n, p, q, m, uh, vl, vh, ql, qh)
    requires ql' == ql * qh % n
    ensures Ladder(n, p, q, 2 * m, (uh * vl - ql') % n, (vl * vl - 2 * ql') % n, (vh * vl - p * ql') % n, ql', ql')
  {
    hide Cong, U, V, Power;
    Doubling(p, q, m);
    Reduced(n, p, q, m, ql * qh);
    CongStep(uh, U(p, q, m + 1), vl, V(p, q, m), ql', Power(q, m), n);
    CongStep(vl, V(p, q, m), vl, V(p, q, m), 2 * ql', 2 * Power(q, m), n);
    CongStep(vh, V(p, q, m + 1), vl, V(p, q, m), p * ql', p * Power(q, m), n);
    CongProduct(ql', Power(q, m), ql', Power(q, m), n);
    PowerSum(q, m, m);
  }

  /** The last bit 1, after which only the lower sequence and the power are kept. */
  lemma LadderLast(n: int, p: int, q: int, m: nat, uh: int, vl: int, vh: int, ql: int, qh: int, ql': int, qh': int)
    requires n > 0 && Ladder(n, p, q, m, uh, vl, vh, ql, qh)
    requires ql' == ql * qh % n && qh' == ql' * q % n
    ensures Cong((uh * vl - ql') % n, U(p, q, 2 * m + 1), n)
    ensures Cong((vh * vl - p * ql') % n, V(p, q, 2 * m + 1), n)
    ensures Cong(ql' * qh' % n, Power(q, 2 * m + 1), n)
  {
    hide Cong, U, V, Power;
    Doubling(p, q, m);
    Reduced(n, p, q, m, ql * qh);
    PowerNext(n, q, m, ql');
    CongStep(uh, U(p, q, m + 1), vl, V(p, q, m), ql', Power(q, m), n);
    CongStep(vh, V(p, q, m + 1), vl, V(p, q, m), p * ql', p * Power(q, m), n);
    CongStep(ql', Power(q, m), qh', Power(q, m + 1), ql', Power(q, m), n);
    PowerSum(q, m, m + 1);
  }

  /** A trailing bit 0. */
  lemma TailStep(n: int, p: int, q: int, m: nat, vl: int, ql: int)
    requires n > 0 && Cong(vl, V(p, q, m), n) && Cong(ql, Power(q, m), n)
    ensures Cong((vl * vl - 2 * ql) % n, V(p, q, 2 * m), n)
    ensures Cong(ql * ql % n, Power(q, 2 * m), n)
  {
    hide Cong, U, V, Power;
    Doubling(p, q, m);
    CongSame(2, n);
    CongProduct(2, 2, ql, Power(q, m), n);
    CongStep(vl, V(p, q, m), vl, V(p, q, m), 2 * ql, 2 * Power(q, m), n);
    CongStep(ql, Power(q, m), ql, Power(q, m), ql, Power(q, m), n);
    PowerSum(q, m, m);
  }

  lemma MultipleOf(u: int, v: int, n: int)
    requires n > 0
    ensures u * v * n % n == 0
  {
    CongMade(0, u * v * n, n, -(u * v));
    CongReduced(0, u * v * n, n);
  }

  /**
   The second result is V(k) reduced, for every k. The first is U(k) reduced when k is odd. For even
   k the closing loop multiplies by the modulus where the others reduce, so the first result is a
   multiple of the modulus, and congruent to U(k) only when U(k) is one too.
   */
  method FastLucasSequence(curveP: int, p: int, q: int, k: nat) returns (u: int, v: int)
    requires curveP > 0 && k > 0
    ensures v == V(p, q, k) % curveP
    ensures k % 2 == 1 ==> u == U(p, q, k) % curveP
    ensures k % 2 == 0 ==> u % curveP == 0
    ensures k % 2 == 0 ==> (u % curveP == U(p, q, k) % curveP <==> U(p, q, k) % curveP == 0)
  {
    hide Cong, U, V, Power, Ladder, Shifted;
    var n := BitLen(k);
    var s := GetLowestSetBit(k);
    BelowLength(k, s);
    NoBitsAbove(k, n);
    var uh, vl, ql, qh, vh := 1, 2, 1, 1, p;
    LadderStart(curveP, p, q);
    var j := n - 1;
    while j >= s + 1
      invariant s <= j <= n - 1
      invariant Ladder(curveP, p, q, Shifted(k, j + 1), uh, vl, vh, ql, qh)
    {
      ghost var m := Shifted(k, j + 1);
      BitParts(k, j);
      ghost var ql0, qh0 := ql, qh;
      ql := ql * qh % curveP;
      if Bit(k, j) == 1 {
        qh := ql * q % curveP;
        LadderOne(curveP, p, q, m, uh, vl, vh, ql0, qh0, ql, qh);
        uh := uh * vh % curveP;
        vl := (vh * vl - p * ql) % curveP;
        vh := (vh * vh - 2 * qh) % curveP;
      } else {
        qh := ql;
        LadderZero(curveP, p, q, m, uh, vl, vh, ql0, qh0, ql);
        uh := (uh * vl - ql) % curveP;
        vh := (vh * vl - p * ql) % curveP;
        vl := (vl * vl - 2 * ql) % curveP;
      }
      j := j - 1;
    }
    ghost var ql0, qh0 := ql, qh;
    BitParts(k, s);
    ql := ql * qh % curveP;
    qh := ql * q % curveP;
    LadderLast(curveP, p, q, Shifted(k, s + 1), uh, vl, vh, ql0, qh0, ql, qh);
    uh := (uh * vl - ql) % curveP;
    vl := (vh * vl - p * ql) % curveP;
    ql := ql * qh % curveP;
    u, v := CloseLadder(curveP, p, q, k, s, uh, vl, ql);
  }

  /** The trailing zero bits. */
  method CloseLadder(curveP: int, ghost p: int, ghost q: int, ghost k: nat, s: nat, uh: int, vl: int, ql: int) returns (u: int, v: int)
    requires curveP > 0
    requires Bit(k, s) == 1 && forall i :: 0 <= i < s ==> Bit(k, i) == 0
    requires Cong(uh, U(p, q, Shifted(k, s)), curveP) && Cong(vl, V(p, q, Shifted(k, s)), curveP)
    requires Cong(ql, Power(q, Shifted(k, s)), curveP)
    requires 0 <= uh < curveP && 0 <= vl < curveP
    ensures v == V(p, q, k) % curveP
    ensures k % 2 == 1 ==> u == U(p, q, k) % curveP
    ensures k % 2 == 0 ==> u % curveP == 0
  {
    hide Cong, U, V, Power, Shifted;
    u, v := uh, vl;
    var w := ql;
    for j := 0 to s
      invariant Cong(v, V(p, q, Shifted(k, s - j)), curveP) && 0 <= v < curveP
      invariant Cong(w, Power(q, Shifted(k, s - j)), curveP)
      invariant if j == 0 then u == uh else u % curveP == 0
    {
      BitParts(k, s - j - 1);
      TailStep(curveP, p, q, Shifted(k, s - j), v, w);
      MultipleOf(u, v, curveP);
      u := u * v * curveP;
      v := (v * v - 2 * w) % curveP;
      w := w * w % curveP;
    }
    Unshifted(k);
    CongReduced(v, V(p, q, k), curveP);
    if s == 0 {
      CongReduced(u, U(p, q, k), curveP);
    }
  }

  /** U(2) = 3 for the parameters 3 and 1, but what comes out for it is a multiple of 7. */
  method EvenFirstResult() returns (u: int, v: int)
    ensures u % 7 != U(3, 1, 2) % 7
    ensures U(3, 1, 2) == 3 && v == V(3, 1, 2) % 7
  {
    hide U, V;
    u, v := FastLucasSequence(7, 3, 1, 2);
    SecondTerm();
  }

  lemma SecondTerm()
    ensures U(3, 1, 2) == 3
  {
    assert U(3, 1, 2) == 3 * U(3, 1, 1) - U(3, 1, 0);
  }

  lemma Unshifted(k: nat)
    ensures Shifted(k, 0) == k && Bit(k, 0) == k % 2
  {
  }

  lemma BelowLength(k: nat, s: nat)
    requires Bit(k, s) == 1
    ensures s < BitLen(k)
  {
    if BitLen(k) <= s {
      NoBitsAbove(k, s);
    }
  }
}

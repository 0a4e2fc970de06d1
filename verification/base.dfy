/**
 * Shared vocabulary for the player model: an option type (a `double` that may be
 * NaN is an `Option<real>` whose `None` is NaN), and the C integer semantics the
 * sources rely on — truncating division, 16- and 32-bit two's-complement
 * wrap-around, clipping, and the float-to-int conversion.
 */
module Base {

  datatype Option<+T> = None | Some(value: T)

  const INT16_MIN: int := -32768
  const INT16_MAX: int := 32767
  const INT32_MIN: int := -0x8000_0000
  const INT32_MAX: int := 0x7fff_ffff

  predicate IsInt16(x: int) { INT16_MIN <= x <= INT16_MAX }

  predicate IsInt32(x: int) { INT32_MIN <= x <= INT32_MAX }

  function Abs(x: int): int { if x < 0 then -x else x }

  function Min(a: int, b: int): int { if a <= b then a else b }

  function Max(a: int, b: int): int { if a >= b then a else b }

  /** `fabs`, `FFMIN` and `FFMAX` on doubles. */
  function RealAbs(x: real): real { if x < 0.0 then -x else x }

  function RealMin(a: real, b: real): real { if a <= b then a else b }

  function RealMax(a: real, b: real): real { if a >= b then a else b }

  /** C's `/` on `int`: the quotient is truncated toward zero, so the remainder
      has the sign of the dividend and is smaller than the divisor in magnitude. */
  function TruncDiv(a: int, b: int): (q: int)
    requires b != 0
    ensures a >= 0 ==> 0 <= a - q * b < Abs(b)
    ensures a < 0 ==> -Abs(b) < a - q * b <= 0
  {
    var na := Abs(a);
    var nb := Abs(b);
    var m := na / nb;
    var rem := na % nb;
    var p := m * nb;
    assert na == p + rem && 0 <= rem < nb;
    NegMul(m, nb);
    NegMul(-m, nb);
    if a >= 0 && b > 0 then
      assert m * b == p;
      m
    else if a >= 0 then
      assert (-m) * b == p;
      -m
    else if b > 0 then
      assert (-m) * b == -p;
      -m
    else
      assert m * b == -p;
      m
  }

  /** Negating either factor negates the product. */
  lemma NegMul(x: int, y: int)
    ensures (-x) * y == -(x * y) && x * (-y) == -(x * y)
  {
  }

  /** C's `%` on `int`: the remainder that goes with `TruncDiv`. */
  function TruncRem(a: int, b: int): (r: int)
    requires b != 0
    ensures a == TruncDiv(a, b) * b + r
    ensures Abs(r) < Abs(b)
    ensures a >= 0 ==> r >= 0
    ensures a < 0 ==> r <= 0
  {
    a - TruncDiv(a, b) * b
  }

  /** Reduction modulo 2^32 into the signed range: what a 32-bit `int`
      addition or multiplication stores when the exact result does not fit. */
  function Wrap32(x: int): (r: int)
    ensures IsInt32(r)
    ensures (x - r) % 0x1_0000_0000 == 0
    ensures IsInt32(x) ==> r == x
  {
    (x + 0x8000_0000) % 0x1_0000_0000 - 0x8000_0000
  }

  /** Reduction modulo 2^16 into the signed range: what storing an `int` into a
      `short` keeps. */
  function Wrap16(x: int): (r: int)
    ensures IsInt16(r)
    ensures (x - r) % 0x1_0000 == 0
    ensures IsInt16(x) ==> r == x
  {
    (x + 0x8000) % 0x1_0000 - 0x8000
  }

  /** Clamp into [lo, hi]; `av_clip` and the explicit `if` chains of the sources. */
  function Clip(x: int, lo: int, hi: int): (r: int)
    requires lo <= hi
    ensures lo <= r <= hi
    ensures lo <= x <= hi ==> r == x
    ensures x < lo ==> r == lo
    ensures x > hi ==> r == hi
  {
    if x < lo then lo else if x > hi then hi else x
  }

  /** The C conversion of a floating value to an integer: truncation toward zero. */
  function Trunc(x: real): (r: int)
    ensures x >= 0.0 ==> r as real <= x < r as real + 1.0
    ensures x < 0.0 ==> r as real - 1.0 < x <= r as real
  {
    if x >= 0.0 then x.Floor else -((-x).Floor)
  }

  /** `x >> k` on a signed `int`: an arithmetic shift, i.e. division by 2^k
      rounded toward minus infinity. */
  function ShiftRight(x: int, k: nat): (r: int)
    ensures r * Pow2(k) <= x < (r + 1) * Pow2(k)
  {
    x / Pow2(k)
  }

  function Pow2(k: nat): (p: int)
    ensures p >= 1
  {
    if k == 0 then 1 else 2 * Pow2(k - 1)
  }
}

/**
 * Small facts about multiplication and truncating division that the solver
 * does not find by itself; every sample kernel of the model leans on them.
 */
module Arith {
  import opened Base

  lemma MulLeMono(a: int, b: int, c: int)
    requires a <= b && c >= 0
    ensures a * c <= b * c
  {
    assert b * c - a * c == (b - a) * c;
  }

  lemma MulCancelLe(a: int, b: int, c: int)
    requires c > 0 && a * c <= b * c
    ensures a <= b
  {
    if a > b {
      MulLeMono(b + 1, a, c);
    }
  }

  lemma MulCancelLt(a: int, b: int, c: int)
    requires c > 0 && a * c < b * c
    ensures a < b
  {
    if a >= b {
      MulLeMono(b, a, c);
    }
  }

  /** A truncated quotient stays within bounds that scale with the divisor. */
  lemma TruncDivBounds(s: int, n: int, lo: int, hi: int)
    requires n > 0 && lo * n <= s <= hi * n
    ensures lo <= TruncDiv(s, n) <= hi
  {
    var q := TruncDiv(s, n);
    assert Abs(n) == n;
    if s >= 0 {
      assert q * n <= s;
      MulCancelLe(q, hi, n);
      assert (q + 1) * n == q * n + n;
      MulCancelLt(lo, q + 1, n);
    } else {
      assert s <= q * n;
      MulCancelLe(lo, q, n);
      assert (hi + 1) * n == hi * n + n;
      MulCancelLt(q, hi + 1, n);
    }
  }

  /** Swapping the last two factors of a triple product. */
  lemma MulSwap(a: int, b: int, c: int)
    ensures a * b * c == a * c * b
  {
  }

  /** A strict comparison scaled by a positive factor stays strict. */
  lemma MulLtMono(a: int, b: int, c: int)
    requires a < b && c > 0
    ensures a * c < b * c
  {
    MulLeMono(a + 1, b, c);
    assert (a + 1) * c == a * c + c;
  }

  /** Rational comparison by cross-multiplication is transitive. */
  lemma CrossLeTrans(d1: int, p1: int, d2: int, p2: int, d3: int, p3: int)
    requires p1 > 0 && p2 > 0 && p3 > 0
    requires d1 * p2 <= d2 * p1 && d2 * p3 <= d3 * p2
    ensures d1 * p3 <= d3 * p1
  {
    var x, y := d1 * p3, d3 * p1;
    CrossChain(d1, p1, d2, p2, d3, p3);
    MulLeMono(d1 * p2, d2 * p1, p3);
    MulLeMono(d2 * p3, d3 * p2, p1);
    assert x * p2 <= y * p2;
    MulCancelLe(x, y, p2);
  }
  /** Floors respect a cross-multiplied comparison of non-negative ratios. */
  lemma FloorRatioMono(a: int, b: int, c: int, d: int)
    requires a >= 0 && c >= 0 && b > 0 && d > 0 && a * d <= c * b
    ensures a / b <= c / d
  {
    var q := a / b;
    assert q * b <= a;
    MulLeMono(q * b, a, d);
    assert q * d * b <= c * b by { assert q * b * d == q * d * b; }
    MulCancelLe(q * d, c, b);
    assert q * d <= c;
    if q > c / d {
      MulLeMono(c / d + 1, q, d);
    }
  }

  /** Floor division by a positive constant is monotone. */
  lemma DivMono(a: int, b: int, k: int)
    requires k > 0 && a <= b
    ensures a / k <= b / k
  {
    if a / k > b / k {
      MulLeMono(b / k + 1, a / k, k);
    }
  }

  /** Dividing by a larger positive divisor never gives a larger floor. */
  lemma DivAntiMono(a: int, j: int, k: int)
    requires a >= 0 && 0 < j <= k
    ensures a / k <= a / j
  {
    var q := a / k;
    assert q * k <= a;
    assert q >= 0;
    MulLeMono(j, k, q);
    assert q * j <= a;
    if q > a / j {
      MulLeMono(a / j + 1, q, j);
    }
  }

  /** `2 * (m / k) <= (2 * m) / k` for a positive k. */
  lemma DoubleFloor(m: int, k: int)
    requires m >= 0 && k > 0
    ensures 2 * (m / k) <= (2 * m) / k
  {
    var q := m / k;
    assert q * k <= m;
    assert (2 * q) * k <= 2 * m;
    if 2 * q > (2 * m) / k {
      MulLeMono((2 * m) / k + 1, 2 * q, k);
    }
  }

  /** Floor division brackets its dividend. */
  lemma DivMulBounds(a: int, k: int)
    requires k > 0
    ensures (a / k) * k <= a < (a / k) * k + k
  {
    assert a == (a / k) * k + a % k;
  }

  /** A multiple of k below the dividend bounds the floor quotient from below. */
  lemma DivLower(a: int, k: int, m: int)
    requires k > 0 && m * k <= a
    ensures m <= a / k
  {
    DivMulBounds(a, k);
    assert (m - 1) * k == m * k - k;
    MulCancelLt(m - 1, a / k, k);
  }

  /** The products the cross-multiplication lemmas chain through, each
      reordered so that consecutive comparisons share a term. */
  lemma CrossChain(d1: int, p1: int, d2: int, p2: int, d3: int, p3: int)
    ensures d1 * p2 * p3 == d1 * p3 * p2
    ensures d2 * p1 * p3 == d2 * p3 * p1
    ensures d3 * p2 * p1 == d3 * p1 * p2
  {
    MulSwap(d1, p2, p3);
    MulSwap(d2, p1, p3);
    MulSwap(d3, p2, p1);
  }

  /** As `CrossLeTrans`, strict when the first comparison is. */
  lemma CrossLtLeTrans(d1: int, p1: int, d2: int, p2: int, d3: int, p3: int)
    requires p1 > 0 && p2 > 0 && p3 > 0
    requires d1 * p2 < d2 * p1 && d2 * p3 <= d3 * p2
    ensures d1 * p3 < d3 * p1
  {
    var x, y := d1 * p3, d3 * p1;
    CrossChain(d1, p1, d2, p2, d3, p3);
    MulLtMono(d1 * p2, d2 * p1, p3);
    MulLeMono(d2 * p3, d3 * p2, p1);
    assert x * p2 < y * p2;
    MulCancelLt(x, y, p2);
  }

  /** As `CrossLeTrans`, strict when the second comparison is. */
  lemma CrossLeLtTrans(d1: int, p1: int, d2: int, p2: int, d3: int, p3: int)
    requires p1 > 0 && p2 > 0 && p3 > 0
    requires d1 * p2 <= d2 * p1 && d2 * p3 < d3 * p2
    ensures d1 * p3 < d3 * p1
  {
    var x, y := d1 * p3, d3 * p1;
    CrossChain(d1, p1, d2, p2, d3, p3);
    MulLeMono(d1 * p2, d2 * p1, p3);
    MulLtMono(d2 * p3, d3 * p2, p1);
    assert x * p2 < y * p2;
    MulCancelLt(x, y, p2);
  }

  /** A dividend below m multiples of k has a floor quotient below m. */
  lemma DivUpper(a: int, k: int, m: int)
    requires k > 0 && a < m * k
    ensures a / k < m
  {
    DivMulBounds(a, k);
    MulCancelLt(a / k, m, k);
  }

  /** Multiplying both sides of a real inequality by a non-negative factor. */
  lemma RealMulLe(u: real, v: real, c: real)
    requires u <= v && c >= 0.0
    ensures u * c <= v * c
  {
    assert v * c - u * c == (v - u) * c;
  }

  /** A fraction between 0 and 1 of a non-negative amount lies between 0
      and that amount. */
  lemma FractionOf(p: real, k: real)
    requires k >= 0.0
    ensures 0.0 <= p <= 1.0 ==> 0.0 <= p * k <= k
  {
    if 0.0 <= p <= 1.0 {
      RealMulLe(p, 1.0, k);
      RealMulLe(0.0, p, k);
    }
  }

  /** Multiplying both sides of a strict real inequality by a positive factor. */
  lemma RealMulLt(u: real, v: real, c: real)
    requires u < v && c > 0.0
    ensures u * c < v * c
  {
    assert v * c - u * c == (v - u) * c;
  }

  lemma QuotientLower(a: real, b: real, x: real, t: real)
    requires b > 0.0 && x * b == a && t <= x
    ensures t * b <= a
  {
    RealMulLe(t, x, b);
  }

  lemma QuotientUpper(a: real, b: real, x: real, t: real)
    requires b > 0.0 && x * b == a && x < t + 1.0
    ensures a < (t + 1.0) * b
  {
    RealMulLt(x, t + 1.0, b);
  }

  /** The C conversion of a non-negative quotient a / b is the floor: the
      largest whole number of b that fits in a. */
  lemma TruncQuotient(a: real, b: real)
    requires a >= 0.0 && b > 0.0
    ensures Trunc(a / b) >= 0
    ensures Trunc(a / b) as real * b <= a < (Trunc(a / b) as real + 1.0) * b
  {
    assert (a / b) * b == a;
    assert a / b >= 0.0;
    QuotientLower(a, b, a / b, Trunc(a / b) as real);
    QuotientUpper(a, b, a / b, Trunc(a / b) as real);
  }

  /** Cancelling a positive factor from a strict real inequality. */
  lemma RealCancelLt(u: real, v: real, c: real)
    requires c > 0.0 && u * c < v * c
    ensures u < v
  {
    if u >= v {
      RealMulLe(v, u, c);
    }
  }

  /** The remainder of a floor quotient lies in [0, b). */
  lemma Bracket(a: real, b: real, q: real)
    requires b > 0.0 && q * b <= a < (q + 1.0) * b
    ensures 0.0 <= a - q * b < b
  {
    assert (q + 1.0) * b == q * b + b;
  }

  /** The remainder a - trunc(a / b) * b of a non-negative real division lies
      in [0, b). */
  lemma TruncBracket(a: real, b: real)
    requires a >= 0.0 && b > 0.0
    ensures 0 <= Trunc(a / b)
    ensures 0.0 <= a - Trunc(a / b) as real * b < b
  {
    TruncQuotient(a, b);
    Bracket(a, b, Trunc(a / b) as real);
  }

  /** A quotient a / c with a = p * s and 0 < s < c stays below p. */
  lemma TruncBelow(a: real, c: real, p: real, s: real)
    requires c > 0.0 && 0.0 < s < c && p > 0.0 && a == p * s
    ensures 0 <= Trunc(a / c) && (Trunc(a / c) as real) < p
  {
    var t := Trunc(a / c) as real;
    TruncQuotient(a, c);
    RealMulLt(s, c, p);
    var tc, sp, cp := t * c, s * p, c * p;
    assert tc <= a == sp < cp;
    assert cp == p * c;
    RealCancelLt(t, p, c);
  }

  /** Truncation toward zero stays at or below an integer bound. */
  lemma TruncAtMost(x: real, n: int)
    requires 0.0 <= x < (n + 1) as real
    ensures Trunc(x) <= n
  {
  }

  /** Truncation toward zero stays at or above a non-negative integer bound. */
  lemma TruncAtLeast(x: real, n: int)
    requires n >= 0 && x >= n as real
    ensures Trunc(x) >= n
  {
  }

  /** Dividing by at least one does not increase a non-negative real. */
  lemma DivShrinks(a: real, b: real)
    requires a >= 0.0 && b >= 1.0
    ensures 0.0 <= a / b <= a
  {
    assert (a / b) * b == a;
    if a / b > a {
      RealMulLt(a, a / b, b);
      RealMulLe(1.0, b, a);
    }
  }

  /** Dividing by a factor below one increases a positive real. */
  lemma DivGrows(a: real, b: real)
    requires a > 0.0 && 0.0 < b < 1.0
    ensures a / b > a
  {
    assert (a / b) * b == a;
    if a / b <= a {
      RealMulLe(a / b, a, b);
      RealMulLt(b, 1.0, a);
    }
  }

  /** Dividing by a factor of at least one third at most triples. */
  lemma DivAtMostTriple(a: real, b: real)
    requires a >= 0.0 && b > 0.0 && 3.0 * b >= 1.0
    ensures a / b <= 3.0 * a
  {
    assert (a / b) * b == a;
    if a / b > 3.0 * a {
      RealMulLt(3.0 * a, a / b, b);
      RealMulLe(1.0, 3.0 * b, a);
    }
  }

  /** A quotient of a non-negative real by a larger one lies in [0, 1). */
  lemma DivBelowOne(a: real, b: real)
    requires 0.0 <= a < b
    ensures 0.0 <= a / b < 1.0
  {
    assert (a / b) * b == a;
    if a / b >= 1.0 {
      RealMulLe(1.0, a / b, b);
    }
  }

  /** A quotient by a positive real no larger than the dividend is at least 1. */
  lemma DivAtLeastOne(a: real, b: real)
    requires 0.0 < b <= a
    ensures a / b >= 1.0
  {
    assert (a / b) * b == a;
  }

  /** Adding to a residue is adding to the number it is the residue of. */
  lemma ModAddLeft(a: int, k: int, n: int)
    requires n > 0
    ensures (a % n + k) % n == (a + k) % n
  {
    var q := a / n;
    assert a == q * n + a % n;
    ModShiftBy(a % n + k, q, n);
    assert a % n + k + q * n == a + k;
  }

  /** Whole multiples of n do not change a residue. */
  lemma ModShiftBy(x: int, q: int, n: int)
    requires n > 0
    ensures (x + q * n) % n == x % n
  {
    var a := x / n;
    assert x == a * n + x % n;
    assert x + q * n == (a + q) * n + x % n;
    ModUnique(x + q * n, a + q, x % n, n);
  }

  /** A remainder in [0, n) is the residue. */
  lemma ModUnique(y: int, a: int, m: int, n: int)
    requires n > 0 && y == a * n + m && 0 <= m < n
    ensures y % n == m
  {
    var b := y / n;
    assert (b - a) * n == m - y % n;
    MultipleBelow(b - a, n);
  }

  /** The only multiple of n strictly between -n and n is 0. */
  lemma MultipleBelow(d: int, n: int)
    requires n > 0 && -n < d * n < n
    ensures d == 0
  {
    if d >= 1 {
      MulLeMono(1, d, n);
    } else if d <= -1 {
      MulLeMono(d, -1, n);
    }
  }
}

/** Integer and real helpers: powers of ten, int64 wrap-around, truncated quotients and rounding half
    away from zero. Widening, quotients and rationals are defined by recursion on linear steps. */
module Arith {

  const MIN_INT64: int := -0x8000_0000_0000_0000
  const MAX_INT64: int := 0x7FFF_FFFF_FFFF_FFFF
  const TWO_64: int := 0x1_0000_0000_0000_0000

  type int64 = x: int | MIN_INT64 <= x <= MAX_INT64
  type uint8 = x: int | 0 <= x < 256

  predicate IsInt64(x: int) {
    MIN_INT64 <= x <= MAX_INT64
  }

  function Abs(x: int): nat {
    if x < 0 then -x else x
  }

  function AbsReal(x: real): real {
    if x < 0.0 then -x else x
  }

  // ---- int64 ----------------------------------------------------------------------------------

  /** Two's-complement truncation to 64 bits: what Go's int64 operators keep of an exact result. */
  function Wrap(x: int): int64
    decreases if IsInt64(x) then 0 else Abs(x)
  {
    if x > MAX_INT64 then Wrap(x - TWO_64) else if x < MIN_INT64 then Wrap(x + TWO_64) else x
  }

  lemma {:induction false} WrapDistance(x: int) returns (k: int)
    ensures Wrap(x) == x + TWO_64 * k
    ensures k == 0 <==> IsInt64(x)
    ensures x > MAX_INT64 ==> k < 0
    ensures x < MIN_INT64 ==> k > 0
    decreases if IsInt64(x) then 0 else Abs(x)
  {
    if x > MAX_INT64 {
      k := WrapDistance(x - TWO_64);
      k := k - 1;
    } else if x < MIN_INT64 {
      k := WrapDistance(x + TWO_64);
      k := k + 1;
    } else {
      k := 0;
    }
  }

  // ---- truncated division ---------------------------------------------------------------------

  /** Quotient of magnitudes. */
  function Quo(a: nat, b: nat): nat
    requires b > 0
  {
    if a < b then 0 else 1 + Quo(a - b, b)
  }

  /** Remainder of magnitudes. */
  function Rem(a: nat, b: nat): (r: nat)
    requires b > 0
    ensures r < b
  {
    if a < b then a else Rem(a - b, b)
  }

  lemma {:induction false} QuoRem(a: nat, b: nat)
    requires b > 0
    ensures a == Quo(a, b) * b + Rem(a, b)
  {
    if a >= b {
      QuoRem(a - b, b);
      assert (1 + Quo(a - b, b)) * b == b + Quo(a - b, b) * b;
    }
  }

  /** Quotient truncated toward zero, as Go's `/` and big.Int's QuoRem. */
  function TruncQuo(a: int, b: int): int
    requires b != 0
  {
    var q: int := Quo(Abs(a), Abs(b));
    if (a < 0) == (b < 0) then q else -q
  }

  /** The matching remainder, with the dividend's sign. */
  function TruncRem(a: int, b: int): int
    requires b != 0
  {
    var r: int := Rem(Abs(a), Abs(b));
    if a < 0 then -r else r
  }

  lemma TruncQuoRem(a: int, b: int)
    requires b != 0
    ensures a == TruncQuo(a, b) * b + TruncRem(a, b)
    ensures Abs(TruncRem(a, b)) < Abs(b)
  {
    QuoRem(Abs(a), Abs(b));
    NegateProduct(Quo(Abs(a), Abs(b)), b);
  }

  /** a * b by repeated addition: the product, kept out of sight of nonlinear arithmetic. */
  function Times(a: int, b: int): int
    decreases Abs(b), Abs(a)
  {
    if b == 0 then 0 else if b > 0 then Times(a, b - 1) + a else Times(a, b + 1) - a
  }

  lemma {:induction false} TimesIsProduct(a: int, b: int)
    ensures Times(a, b) == a * b
    decreases Abs(b)
  {
    if b > 0 {
      TimesIsProduct(a, b - 1);
    } else if b < 0 {
      TimesIsProduct(a, b + 1);
    }
  }

  lemma NegateProduct(q: int, b: int)
    ensures (-q) * b == -(q * b)
    ensures q * (-b) == -(q * b)
  {
  }

  lemma MulStep(p: int, q: int, den: int)
    requires p < q && den >= 0
    ensures p * den + den <= q * den
  {
    var d := q - p - 1;
    assert q * den == p * den + den + d * den;
  }

  // ---- rounding half away from zero -----------------------------------------------------------

  /** `num / den` rounded to the nearest integer, ties away from zero: the quotient and remainder
      form used throughout decimal_math.go. */
  function RoundDiv(num: int, den: int): int
    requires den != 0
  {
    var q := TruncQuo(num, den);
    if 2 * Abs(TruncRem(num, den)) >= Abs(den) then
      if (num < 0) != (den < 0) then q - 1 else q + 1
    else q
  }

  /** What "nearest, ties away from zero" means, without saying how to compute it. */
  predicate IsNearest(q: int, num: int, den: int)
  {
    var e := num - q * den;
    && 2 * Abs(e) <= Abs(den)
    && (2 * Abs(e) == Abs(den) ==> (num > 0 ==> e < 0) && (num < 0 ==> e > 0))
  }

  lemma RoundDivIsNearest(num: int, den: int)
    requires den != 0
    ensures IsNearest(RoundDiv(num, den), num, den)
  {
    var q := TruncQuo(num, den);
    TruncQuoRem(num, den);
    NextMultiples(q, den);
    NearestByRemainder(num, den, q * den, TruncRem(num, den), RoundDiv(num, den), RoundDiv(num, den) * den);
  }

  lemma NextMultiples(q: int, den: int)
    ensures (q + 1) * den == q * den + den && (q - 1) * den == q * den - den
  {
  }

  /** The multiple that a half-way test on the remainder picks is the nearest. */
  lemma NearestByRemainder(num: int, den: int, qd: int, r: int, p: int, pd: int)
    requires num == qd + r && Abs(r) < Abs(den) && (if num < 0 then r <= 0 else r >= 0) && p * den == pd
    requires pd == if 2 * Abs(r) < Abs(den) then qd else if (num < 0) != (den < 0) then qd - den else qd + den
    ensures IsNearest(p, num, den)
  {
  }

  /** Rounding is monotone, and so the nearest value is unique. */
  lemma NearestMonotone(p: int, a: int, q: int, b: int, den: int)
    requires den > 0 && a <= b
    requires IsNearest(p, a, den) && IsNearest(q, b, den)
    ensures p <= q
  {
    if q < p {
      MulStep(q, p, den);
    }
  }

  lemma RoundDivMonotone(a: int, b: int, den: int)
    requires den > 0 && a <= b
    ensures RoundDiv(a, den) <= RoundDiv(b, den)
  {
    RoundDivIsNearest(a, den);
    RoundDivIsNearest(b, den);
    NearestMonotone(RoundDiv(a, den), a, RoundDiv(b, den), b, den);
  }

  lemma RoundDivSign(num: int, den: int)
    requires den > 0
    ensures num >= 0 ==> RoundDiv(num, den) >= 0
    ensures num <= 0 ==> RoundDiv(num, den) <= 0
  {
  }

  // ---- powers of ten --------------------------------------------------------------------------

  function Pow10(n: nat): (p: int)
    ensures p >= 1
  {
    if n == 0 then 1 else 10 * Pow10(n - 1)
  }

  lemma {:induction false} Pow10Monotone(m: nat, n: nat)
    requires m <= n
    ensures Pow10(m) <= Pow10(n)
  {
    if m < n {
      Pow10Monotone(m, n - 1);
    }
  }

  lemma Pow10At18()
    ensures Pow10(18) == 1_000_000_000_000_000_000
  {
    assert Pow10(6) == 1_000_000;
    assert Pow10(12) == 1_000_000_000_000;
  }

  /** v with k zeros appended: v * 10^k. */
  function Widen(v: int, k: nat): int {
    if k == 0 then v else 10 * Widen(v, k - 1)
  }

  lemma {:induction false} WidenIsProduct(v: int, k: nat)
    ensures Widen(v, k) == v * Pow10(k)
  {
    if k > 0 {
      WidenIsProduct(v, k - 1);
      assert v * (10 * Pow10(k - 1)) == 10 * (v * Pow10(k - 1));
    }
  }

  lemma {:induction false} WidenAdd(v: int, j: nat, k: nat)
    ensures Widen(Widen(v, j), k) == Widen(v, j + k)
  {
    if k > 0 {
      WidenAdd(v, j, k - 1);
    }
  }

  lemma {:induction false} WidenLinear(x: int, y: int, k: nat)
    ensures Widen(x, k) + Widen(y, k) == Widen(x + y, k)
    ensures Widen(x, k) - Widen(y, k) == Widen(x - y, k)
    ensures x <= y ==> Widen(x, k) <= Widen(y, k)
    ensures Widen(Abs(x), k) == Abs(Widen(x, k))
  {
    if k > 0 {
      WidenLinear(x, y, k - 1);
    }
  }

  lemma {:induction false} WidenTimes(c: int, x: int, k: nat)
    ensures Widen(c * x, k) == c * Widen(x, k)
  {
    if k > 0 {
      WidenTimes(c, x, k - 1);
      assert c * (10 * Widen(x, k - 1)) == 10 * (c * Widen(x, k - 1));
    }
  }

  lemma {:induction false} WidenOne(k: nat)
    ensures Widen(1, k) == Pow10(k)
  {
    if k > 0 {
      WidenOne(k - 1);
    }
  }

  // ---- decimal fractions as reals -------------------------------------------------------------

  /** v / 10^scale. */
  function Rat(v: int, scale: nat): real {
    if scale == 0 then v as real else Rat(v, scale - 1) / 10.0
  }

  lemma {:induction false} RatLinear(x: int, y: int, s: nat)
    ensures Rat(x, s) + Rat(y, s) == Rat(x + y, s)
    ensures Rat(x, s) - Rat(y, s) == Rat(x - y, s)
    ensures x < y <==> Rat(x, s) < Rat(y, s)
    ensures x == y <==> Rat(x, s) == Rat(y, s)
    ensures Rat(0, s) == 0.0
  {
    if s > 0 {
      RatLinear(x, y, s - 1);
    }
  }

  lemma {:induction false} RatTimesTen(x: int, s: nat)
    ensures Rat(10 * x, s) == 10.0 * Rat(x, s)
  {
    if s > 0 {
      RatTimesTen(x, s - 1);
    }
  }

  lemma {:induction false} RatWiden(v: int, s: nat, k: nat)
    ensures Rat(Widen(v, k), s + k) == Rat(v, s)
  {
    if k > 0 {
      RatWiden(v, s, k - 1);
      RatTimesTen(Widen(v, k - 1), s + k - 1);
    }
  }

  lemma {:induction false} RatAbs(x: int, s: nat)
    ensures AbsReal(Rat(x, s)) == Rat(Abs(x), s)
  {
    if s > 0 {
      RatAbs(x, s - 1);
    }
  }

  lemma TenthTimes(a: real, b: real)
    ensures a / 10.0 * b == (a * b) / 10.0 && a * (b / 10.0) == (a * b) / 10.0
  {
  }

  lemma {:induction false} RatProduct(x: int, s: nat, y: int, t: nat)
    ensures Rat(x, s) * Rat(y, t) == Rat(x * y, s + t)
    decreases s + t
  {
    if s > 0 {
      RatProduct(x, s - 1, y, t);
      TenthTimes(Rat(x, s - 1), Rat(y, t));
    } else if t > 0 {
      RatProduct(x, s, y, t - 1);
      TenthTimes(x as real, Rat(y, t - 1));
    }
  }

  lemma ScaleOrder(x: real, y: real, u: real)
    requires u > 0.0
    ensures x < y <==> x * u < y * u
    ensures x == y <==> x * u == y * u
  {
  }
}

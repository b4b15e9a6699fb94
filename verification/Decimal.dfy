/** Exact base-10 fixed point (internal/model/decimal_math.go): an int64 mantissa and a scale, int64
    fast paths behind overflow tests, and an arbitrary-precision fallback. */
module Decimal {
  import opened Arith

  const MAX_SCALE := 18

  /** The scale money is rounded to. */
  const CENTS: uint8 := 2

  datatype Option<+T> = None | Some(value: T)

  datatype Decimal = Decimal(unscaled: int64, scale: uint8)

  const ZERO := Decimal(0, 0)

  /** The domain every constructor in the program stays in: pow10 is a power of ten only up to 18. */
  predicate InScale(d: Decimal) {
    d.scale <= MAX_SCALE
  }

  /** The rational number a decimal stands for. */
  function Value(d: Decimal): real {
    Rat(d.unscaled, d.scale)
  }

  /** One unit in the last place. */
  function Ulp(d: Decimal): real {
    Rat(1, d.scale)
  }

  function MaxScaleOf(a: Decimal, b: Decimal): uint8 {
    if a.scale > b.scale then a.scale else b.scale
  }

  // ---- int64 fast paths -----------------------------------------------------------------------

  function Pow10Int64(n: uint8): int64 {
    if n > MAX_SCALE then MAX_INT64 else Pow10Fits(n); Pow10(n)
  }

  lemma Pow10Fits(n: nat)
    requires n <= MAX_SCALE
    ensures Pow10(n) <= 1_000_000_000_000_000_000
  {
    Pow10Monotone(n, 18);
    Pow10At18();
  }

  method Pow10Loop(n: uint8) returns (p: int64)
    ensures p == if n > MAX_SCALE then MAX_INT64 else Pow10(n)
    ensures p == Pow10Int64(n)
  {
    if n > MAX_SCALE {
      return MAX_INT64;
    }
    p := 1;
    var i := 0;
    while i < n
      invariant 0 <= i <= n
      invariant p == Pow10(i)
    {
      Pow10Fits(i + 1);
      p := Wrap(p * 10);
      i := i + 1;
    }
  }

  /** `p := a * b; p / b != a`, both operators in wrapping int64. */
  predicate OverflowsMul(a: int64, b: int64) {
    a != 0 && b != 0 && Wrap(TruncQuo(Wrap(Times(a, b)), b)) != a
  }

  /** The division test is exact on every pair but one. */
  lemma OverflowsMulExact(a: int64, b: int64)
    ensures OverflowsMul(a, b) <==> (!IsInt64(a * b) && !(a == MIN_INT64 && b == -1))
  {
    TimesIsProduct(a, b);
    if a != 0 && b != 0 {
      var k := WrapDistance(a * b);
      var p := Wrap(a * b);
      TruncQuoRem(p, b);
      QuotientInt64(p, b);
      if k == 0 {
        QuotientOfProduct(a, b, TruncQuo(p, b), TruncRem(p, b));
      } else {
        WrappedTooFar(p, a * b, k, TruncQuo(p, b) * b, TruncRem(p, b), b);
      }
    }
  }

  /** 2^64 is further than any int64 remainder reaches. */
  lemma WrappedTooFar(p: int, exact: int, k: int, qb: int, r: int, b: int64)
    requires k != 0 && p == exact + TWO_64 * k && p == qb + r && Abs(r) < Abs(b)
    ensures qb != exact
  {
  }

  lemma QuotientOfProduct(a: int, b: int, q: int, r: int)
    requires a * b == q * b + r && Abs(r) < Abs(b)
    ensures q == a
  {
    if q < a {
      MulStep(q, a, Abs(b));
      NegateProduct(q, b);
      NegateProduct(a, b);
    } else if a < q {
      MulStep(a, q, Abs(b));
      NegateProduct(q, b);
      NegateProduct(a, b);
    }
  }

  /** Only MinInt64 / -1 leaves the int64 range. */
  lemma QuotientInt64(p: int64, b: int64)
    requires b != 0
    ensures IsInt64(TruncQuo(p, b)) || (p == MIN_INT64 && b == -1)
  {
    if Abs(b) >= 2 {
      QuoHalves(Abs(p), Abs(b));
    } else {
      QuoByOne(Abs(p));
    }
  }

  lemma {:induction false} QuoHalves(n: nat, m: nat)
    requires m >= 2
    ensures 2 * Quo(n, m) <= n
  {
    if n >= m {
      QuoHalves(n - m, m);
    }
  }

  lemma {:induction false} QuoByOne(n: nat)
    ensures Quo(n, 1) == n
  {
    if n >= 1 {
      QuoByOne(n - 1);
    }
  }

  function AddFast(x: int64, y: int64): Option<int64> {
    var sum := Wrap(x + y);
    if (x > 0 && y > 0 && sum < 0) || (x < 0 && y < 0 && sum >= 0) then None else Some(sum)
  }

  /** The sign test catches every two's-complement overflow and nothing else. */
  lemma AddFastExact(x: int64, y: int64)
    ensures AddFast(x, y) == if IsInt64(x + y) then Some(x + y) else None
  {
    var sum := Wrap(x + y);
    var k := WrapDistance(x + y);
  }

  function AlignFast(a: Decimal, b: Decimal): Option<(int64, int64)> {
    if a.scale == b.scale then Some((a.unscaled, b.unscaled))
    else if a.scale < b.scale then
      var f := Pow10Int64(b.scale - a.scale);
      if OverflowsMul(a.unscaled, f) then None else Some((Wrap(Times(a.unscaled, f)), b.unscaled))
    else
      var f := Pow10Int64(a.scale - b.scale);
      if OverflowsMul(b.unscaled, f) then None else Some((a.unscaled, Wrap(Times(b.unscaled, f))))
  }

  // ---- arbitrary precision --------------------------------------------------------------------

  /** d's mantissa at a coarser-or-equal view: its value as an integer at `scale`. */
  function BigAt(d: Decimal, scale: uint8): int {
    Widen(d.unscaled, if scale > d.scale then scale - d.scale else 0)
  }

  /** Drop n digits, rounding half away from zero. */
  function ReduceScale(v: int, n: nat): int {
    RoundDiv(v, Pow10(n))
  }

  /** The loop of fromBig: drop one digit at a time until the mantissa fits or no digit is left. */
  function Shrink(v: int, scale: nat): (r: (int, nat))
    ensures r.1 <= scale
    ensures IsInt64(r.0) || r.1 == 0
    decreases scale, Abs(v)
  {
    if scale > 0 && !IsInt64(v) then Shrink(ReduceScale(v, 1), scale - 1) else (v, scale)
  }

  /** The unsaturated mantissa and scale fromBig ends with. */
  function Settle(v: int, scale: nat): (r: (int, nat))
    ensures r.1 <= scale && r.1 <= MAX_SCALE
    ensures IsInt64(r.0) || r.1 == 0
  {
    if scale > MAX_SCALE then Shrink(ReduceScale(v, scale - MAX_SCALE), MAX_SCALE) else Shrink(v, scale)
  }

  /** True when even scale 0 does not fit. */
  predicate Saturates(v: int, scale: nat) {
    !IsInt64(Settle(v, scale).0)
  }

  function FromBig(v: int, scale: nat): (d: Decimal)
    ensures InScale(d)
  {
    var (w, t) := Settle(v, scale);
    if IsInt64(w) then Decimal(w, t)
    else if w >= 0 then Decimal(MAX_INT64, 0)
    else Decimal(MIN_INT64 + 1, 0)
  }

  /** fromBig as the source writes it, proved to compute the function above. */
  method FromBigLoop(big: int, bigScale: nat) returns (d: Decimal)
    ensures d == FromBig(big, bigScale)
  {
    var v: int, scale: nat := big, bigScale;
    if scale > MAX_SCALE {
      v := ReduceScale(v, scale - MAX_SCALE);
      scale := MAX_SCALE;
    }
    while scale > 0 && !IsInt64(v)
      invariant scale <= MAX_SCALE
      invariant Shrink(v, scale) == Settle(big, bigScale)
    {
      v := ReduceScale(v, 1);
      scale := scale - 1;
    }
    if !IsInt64(v) {
      if v >= 0 {
        return Decimal(MAX_INT64, 0);
      }
      return Decimal(MIN_INT64 + 1, 0);
    }
    d := Decimal(v, scale);
  }

  // ---- operations -----------------------------------------------------------------------------

  function Compare(x: int, y: int): int {
    if x < y then -1 else if x > y then 1 else 0
  }

  function Cmp(d: Decimal, o: Decimal): int {
    if d.scale == o.scale then Compare(d.unscaled, o.unscaled)
    else
      match AlignFast(d, o)
      case Some((x, y)) => Compare(x, y)
      case None =>
        var scale := MaxScaleOf(d, o);
        Compare(BigAt(d, scale), BigAt(o, scale))
  }

  predicate Less(d: Decimal, o: Decimal) {
    Cmp(d, o) < 0
  }

  function Add(d: Decimal, o: Decimal): Decimal {
    var scale := MaxScaleOf(d, o);
    var slow := FromBig(BigAt(d, scale) + BigAt(o, scale), scale);
    match AlignFast(d, o)
    case None => slow
    case Some((x, y)) =>
      match AddFast(x, y)
      case Some(sum) => Decimal(sum, scale)
      case None => slow
  }

  function Neg(d: Decimal): Decimal {
    var u: int := d.unscaled;
    Decimal(Wrap(-u), d.scale)
  }

  function Sub(d: Decimal, o: Decimal): Decimal {
    Add(d, Neg(o))
  }

  function Mul(d: Decimal, o: Decimal): Decimal {
    var scale := d.scale + o.scale;
    if scale <= MAX_SCALE && !OverflowsMul(d.unscaled, o.unscaled) then
      Decimal(Wrap(Times(d.unscaled, o.unscaled)), scale)
    else FromBig(Times(d.unscaled, o.unscaled), scale)
  }

  /** How far Div shifts the numerator (or, when negative, the denominator). */
  function Shift(d: Decimal, o: Decimal, scale: nat): int {
    scale + o.scale - d.scale
  }

  function DivNum(d: Decimal, o: Decimal, scale: nat): int {
    var shift := Shift(d, o, scale);
    Widen(d.unscaled, if shift >= 0 then shift else 0)
  }

  function DivDen(d: Decimal, o: Decimal, scale: nat): int {
    var shift := Shift(d, o, scale);
    Widen(o.unscaled, if shift >= 0 then 0 else -shift)
  }

  lemma DivDenNonZero(d: Decimal, o: Decimal, scale: nat)
    requires o.unscaled != 0
    ensures DivDen(d, o, scale) != 0
  {
    WidenNonZero(o.unscaled, if Shift(d, o, scale) >= 0 then 0 else -Shift(d, o, scale));
  }

  lemma {:induction false} WidenNonZero(v: int, k: nat)
    ensures Widen(v, k) == 0 <==> v == 0
  {
    if k > 0 {
      WidenNonZero(v, k - 1);
    }
  }

  /** The rounded quotient mantissa that Div hands to fromBig. */
  function Quotient(d: Decimal, o: Decimal, scale: nat): int
    requires o.unscaled != 0
  {
    DivDenNonZero(d, o, scale);
    RoundDiv(DivNum(d, o, scale), DivDen(d, o, scale))
  }

  function Div(d: Decimal, o: Decimal, scale: uint8): (r: Decimal)
    ensures o.unscaled == 0 ==> r.unscaled == 0 && r.scale == 0
  {
    if o.unscaled == 0 then ZERO
    else
      var s := if scale > MAX_SCALE then MAX_SCALE else scale;
      FromBig(Quotient(d, o, s), s)
  }

  function Rescale(d: Decimal, scale: uint8): (r: Decimal) {
    if scale == d.scale then d
    else if scale > d.scale then
      var factor := Pow10Int64(scale - d.scale);
      if !OverflowsMul(d.unscaled, factor) then Decimal(Wrap(Times(d.unscaled, factor)), scale) else d
    else
      var factor := Pow10Int64(d.scale - scale);
      var q := Wrap(TruncQuo(d.unscaled, factor));
      var r := Wrap(TruncRem(d.unscaled, factor));
      if Wrap(r * 2) >= factor then Decimal(Wrap(q + 1), scale)
      else if Wrap(r * 2) <= -factor then Decimal(Wrap(q - 1), scale)
      else Decimal(q, scale)
  }

  // ---- the fast paths refine the big-integer form ---------------------------------------------

  /** A successful alignment yields exactly the big-integer view of both operands. */
  lemma AlignFastExact(a: Decimal, b: Decimal)
    requires Abs(a.scale - b.scale) <= MAX_SCALE
    ensures var s := MaxScaleOf(a, b);
      match AlignFast(a, b)
      case Some((x, y)) => x == BigAt(a, s) && y == BigAt(b, s)
      case None => !IsInt64(BigAt(a, s)) || !IsInt64(BigAt(b, s))
  {
    if a.scale < b.scale {
      OverflowsMulExact(a.unscaled, Pow10Int64(b.scale - a.scale));
      TimesIsProduct(a.unscaled, Pow10(b.scale - a.scale));
      WidenIsProduct(a.unscaled, b.scale - a.scale);
    } else if b.scale < a.scale {
      OverflowsMulExact(b.unscaled, Pow10Int64(a.scale - b.scale));
      TimesIsProduct(b.unscaled, Pow10(a.scale - b.scale));
      WidenIsProduct(b.unscaled, a.scale - b.scale);
    }
  }

  lemma FromBigOfFitting(v: int, scale: nat)
    requires IsInt64(v) && scale <= MAX_SCALE
    ensures FromBig(v, scale) == Decimal(v, scale)
  {
  }

  /** Add is fromBig of the exact sum, whichever path runs. */
  lemma AddRefinesBig(d: Decimal, o: Decimal)
    requires InScale(d) && InScale(o)
    ensures var s := MaxScaleOf(d, o); Add(d, o) == FromBig(BigAt(d, s) + BigAt(o, s), s)
  {
    AlignFastExact(d, o);
    match AlignFast(d, o)
    case None =>
    case Some((x, y)) =>
      AddFastExact(x, y);
      if IsInt64(x + y) {
        FromBigOfFitting(x + y, MaxScaleOf(d, o));
      }
  }

  /** Mul is fromBig of the exact product except where overflowsMul is blind: there it returns the
      product with the wrong sign. */
  lemma MulRefinesBig(d: Decimal, o: Decimal)
    requires InScale(d) && InScale(o)
    ensures Mul(d, o) == FromBig(Times(d.unscaled, o.unscaled), d.scale + o.scale)
       <==> !(d.unscaled == MIN_INT64 && o.unscaled == -1 && d.scale + o.scale <= MAX_SCALE)
  {
    var v, s := Times(d.unscaled, o.unscaled), d.scale + o.scale;
    OverflowsMulExact(d.unscaled, o.unscaled);
    TimesIsProduct(d.unscaled, o.unscaled);
    if s <= MAX_SCALE && !OverflowsMul(d.unscaled, o.unscaled) {
      if IsInt64(v) {
        FromBigOfFitting(v, s);
      } else {
        FromBigNonNegative(v, s);
        assert Wrap(v) == MIN_INT64;
      }
    }
  }

  lemma {:induction false} ShrinkSign(v: int, scale: nat)
    ensures v >= 0 ==> Shrink(v, scale).0 >= 0
    ensures v <= 0 ==> Shrink(v, scale).0 <= 0
    decreases scale
  {
    if scale > 0 && !IsInt64(v) {
      RoundDivSign(v, Pow10(1));
      ShrinkSign(ReduceScale(v, 1), scale - 1);
    }
  }

  /** fromBig keeps the sign, saturated or not. */
  lemma FromBigSign(v: int, scale: nat)
    ensures v >= 0 ==> FromBig(v, scale).unscaled >= 0
    ensures v <= 0 ==> FromBig(v, scale).unscaled <= 0
  {
    if scale > MAX_SCALE {
      RoundDivSign(v, Pow10(scale - MAX_SCALE));
      ShrinkSign(ReduceScale(v, scale - MAX_SCALE), MAX_SCALE);
    } else {
      ShrinkSign(v, scale);
    }
  }

  lemma FromBigNonNegative(v: int, scale: nat)
    requires v >= 0
    ensures FromBig(v, scale).unscaled >= 0
  {
    FromBigSign(v, scale);
  }
}

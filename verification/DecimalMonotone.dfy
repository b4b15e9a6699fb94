/** Rescale, and monotonicity of "multiply, settle, rescale to cents" for non-negative amounts, even when
    the two products being compared end on different scales. */
module DecimalMonotone {
  import opened Arith
  import opened Decimal
  import opened DecimalRounding

  // ---- Rescale ---------------------------------------------------------------------------------

  /** Narrowing is one rounding half away from zero, with no wrap-around on the way. */
  lemma RescaleDown(d: Decimal, scale: uint8)
    requires scale < d.scale <= MAX_SCALE
    ensures IsInt64(ReduceScale(d.unscaled, d.scale - scale))
    ensures Rescale(d, scale) == Decimal(ReduceScale(d.unscaled, d.scale - scale), scale)
  {
    var k := d.scale - scale;
    Pow10Fits(k);
    Pow10Monotone(1, k);
    QuoHalves(Abs(d.unscaled), Pow10(k));
  }

  /** Widening either appends zeros exactly or, when they do not fit, returns the decimal unchanged. */
  lemma RescaleUp(d: Decimal, scale: uint8)
    requires d.scale <= scale <= MAX_SCALE
    ensures Rescale(d, scale) ==
      if IsInt64(Widen(d.unscaled, scale - d.scale)) then Decimal(Widen(d.unscaled, scale - d.scale), scale) else d
    ensures Value(Rescale(d, scale)) == Value(d)
  {
    if d.scale < scale {
      OverflowsMulExact(d.unscaled, Pow10Int64(scale - d.scale));
      TimesIsProduct(d.unscaled, Pow10(scale - d.scale));
      WidenIsProduct(d.unscaled, scale - d.scale);
      RatWiden(d.unscaled, d.scale, scale - d.scale);
    }
  }

  /** Rescaling moves the value by at most half a unit of the target scale, whichever way it goes. */
  lemma RescaleError(d: Decimal, scale: uint8)
    requires InScale(d) && scale <= MAX_SCALE
    ensures 2.0 * AbsReal(Value(Rescale(d, scale)) - Value(d)) <= Rat(1, scale)
  {
    RatLinear(0, 1, scale);
    if scale < d.scale {
      RescaleDown(d, scale);
      ReduceError(d, scale, Rescale(d, scale));
    } else {
      RescaleUp(d, scale);
    }
  }

  lemma ReduceError(d: Decimal, scale: uint8, r: Decimal)
    requires scale < d.scale && r.scale == scale && r.unscaled == ReduceScale(d.unscaled, d.scale - scale)
    ensures HalfUlp(r, Value(d))
  {
    ReduceNearest(d.unscaled, d.scale - scale);
    RatError(d.unscaled, d.scale, r);
  }

  lemma RescaleSign(d: Decimal, scale: uint8)
    requires InScale(d) && scale <= MAX_SCALE && d.unscaled >= 0
    ensures Rescale(d, scale).unscaled >= 0 && InScale(Rescale(d, scale))
  {
    if scale < d.scale {
      RescaleDown(d, scale);
      RoundDivSign(d.unscaled, Pow10(d.scale - scale));
    } else {
      RescaleUp(d, scale);
      WidenLinear(0, d.unscaled, scale - d.scale);
      WidenLinear(0, 0, scale - d.scale);
    }
  }

  /** A result that could not be brought to `scale` is too large to be written there. */
  lemma RescaleScale(d: Decimal, scale: uint8)
    requires InScale(d) && scale <= MAX_SCALE && d.unscaled >= 0
    ensures var r := Rescale(d, scale);
      r.scale == scale || (r.scale < scale && Widen(r.unscaled, scale - r.scale) > MAX_INT64)
  {
    if scale < d.scale {
      RescaleDown(d, scale);
    } else {
      RescaleUp(d, scale);
      WidenLinear(0, d.unscaled, scale - d.scale);
      WidenLinear(0, 0, scale - d.scale);
    }
  }

  // ---- half-up rounding of non-negative mantissas ----------------------------------------------

  /** ReduceScale of a non-negative x is the largest q with q * 10^k <= x + 10^k / 2. */
  lemma HalfUp(x: int, k: nat)
    requires x >= 0
    ensures 2 * x - Pow10(k) < 2 * Widen(ReduceScale(x, k), k) <= 2 * x + Pow10(k)
  {
    RoundDivIsNearest(x, Pow10(k));
    WidenIsProduct(ReduceScale(x, k), k);
  }

  lemma HalfUpLargest(q: int, x: int, k: nat)
    requires x >= 0 && 2 * Widen(q, k) <= 2 * x + Pow10(k)
    ensures q <= ReduceScale(x, k)
  {
    var r := ReduceScale(x, k);
    HalfUp(x, k);
    if r < q {
      WidenLinear(q, r, k);
      WidenLinear(1, q - r, k);
      WidenOne(k);
    }
  }

  /** Dropping the last digit first and the rest afterwards never rounds lower than dropping all at once. */
  lemma TwoStepAtLeastOne(x: int, k: nat)
    requires x >= 0
    ensures ReduceScale(x, k + 1) <= ReduceScale(ReduceScale(x, 1), k)
    ensures ReduceScale(x, 1) >= 0
  {
    var q, y := ReduceScale(x, k + 1), ReduceScale(x, 1);
    RoundDivSign(x, Pow10(1));
    HalfUp(x, k + 1);
    HalfUpByTen(x);
    if k > 0 {
      EvenPower(k);
    }
    TwoStepArithmetic(x, y, Widen(q, k), Pow10(k), k);
    HalfUpLargest(q, y, k);
  }

  lemma HalfUpByTen(x: int)
    requires x >= 0
    ensures x - 5 < 10 * ReduceScale(x, 1) <= x + 5
  {
    HalfUp(x, 1);
    assert Pow10(1) == 10;
    assert Widen(ReduceScale(x, 1), 1) == 10 * ReduceScale(x, 1);
  }

  lemma TwoStepArithmetic(x: int, y: int, a: int, p: int, k: nat)
    requires 2 * (10 * a) <= 2 * x + 10 * p && x - 5 < 10 * y
    requires if k == 0 then p == 1 else exists h: int :: p == 2 * h
    ensures 2 * a <= 2 * y + p
  {
  }

  lemma EvenPower(k: nat)
    requires k > 0
    ensures exists h: int :: Pow10(k) == 2 * h
  {
    assert Pow10(k) == 2 * (5 * Pow10(k - 1));
  }

  // ---- what the digit-dropping loop keeps ------------------------------------------------------

  /** An overflowing mantissa still stands above the int64 maximum of its original scale after settling. */
  lemma {:induction false} OverflowStaysAbove(v: int, s: nat)
    requires v > MAX_INT64 && s >= 1
    ensures var (w, t) := Shrink(v, s); t < s && Widen(w, s - t) > MAX_INT64
    decreases s
  {
    var v1 := ReduceScale(v, 1);
    HalfUpByTen(v);
    assert Shrink(v, s) == Shrink(v1, s - 1);
    if v1 > MAX_INT64 && s - 1 >= 1 {
      OverflowStaysAbove(v1, s - 1);
    } else {
      assert Shrink(v, s) == (v1, s - 1);
      assert Widen(v1, 1) == 10 * v1;
    }
  }

  /** On its way below scale p the loop passes an overflowing mantissa at p. */
  lemma {:induction false} ShrinkPasses(v: int, s: nat, p: nat) returns (x: int)
    requires v >= 0 && Shrink(v, s).1 < p <= s
    ensures x > MAX_INT64 && Shrink(x, p) == Shrink(v, s)
    decreases s
  {
    if s == p {
      x := v;
    } else {
      RoundDivSign(v, Pow10(1));
      x := ShrinkPasses(ReduceScale(v, 1), s - 1, p);
    }
  }

  /** Settling digit by digit and then rounding to p never lands below rounding to p at once. */
  lemma {:induction false} ChainAtLeastSingle(v: int, s: nat, p: nat)
    requires v >= 0 && p <= Shrink(v, s).1
    ensures ReduceScale(v, s - p) <= ReduceScale(Shrink(v, s).0, Shrink(v, s).1 - p)
    decreases s
  {
    if s > 0 && !IsInt64(v) {
      RoundDivSign(v, Pow10(1));
      ChainAtLeastSingle(ReduceScale(v, 1), s - 1, p);
      TwoStepAtLeastOne(v, s - 1 - p);
    }
  }

  // ---- monotonicity ----------------------------------------------------------------------------

  /** The value of d rescaled to cents. */
  function CentsValue(d: Decimal): real {
    Value(Rescale(d, CENTS))
  }

  predicate CentsLe(a: Decimal, b: Decimal) {
    CentsValue(a) <= CentsValue(b)
  }

  lemma ReduceMonotone(a: int, b: int, k: nat)
    requires a <= b
    ensures ReduceScale(a, k) <= ReduceScale(b, k)
  {
    RoundDivMonotone(a, b, Pow10(k));
  }

  lemma SameScaleMonotone(a: int64, b: int64, s: nat)
    requires a <= b && s <= MAX_SCALE
    ensures CentsLe(Decimal(a, s), Decimal(b, s))
  {
    if s > CENTS {
      RescaleDown(Decimal(a, s), CENTS);
      RescaleDown(Decimal(b, s), CENTS);
      ReduceMonotone(a, b, s - CENTS);
      RatLinear(ReduceScale(b, s - CENTS), ReduceScale(a, s - CENTS), CENTS);
    } else {
      RescaleUp(Decimal(a, s), CENTS);
      RescaleUp(Decimal(b, s), CENTS);
      RatLinear(b, a, s);
    }
  }

  lemma ReduceToZeroDigits(x: int)
    ensures ReduceScale(x, 0) == x
  {
    RoundDivIsNearest(x, 1);
  }

  /** A fitting mantissa at scale s, rounded to cents, is a fitting number of cents. */
  lemma CentsOfFitting(a: int64, s: nat)
    requires CENTS <= s <= MAX_SCALE
    ensures IsInt64(ReduceScale(a, s - CENTS))
    ensures Rescale(Decimal(a, s), CENTS) == Decimal(ReduceScale(a, s - CENTS), CENTS)
  {
    if s > CENTS {
      RescaleDown(Decimal(a, s), CENTS);
    } else {
      ReduceToZeroDigits(a);
    }
  }

  /** v fits at scale s, the larger b does not: its settled form is still no smaller in cents. */
  lemma FittingBelowSettled(a: int64, b: int, s: nat)
    requires 0 <= a <= b && b > MAX_INT64 && s <= MAX_SCALE
    ensures CentsLe(Decimal(a, s), FromBig(b, s))
  {
    var r := FromBig(b, s);
    ShrinkSign(b, s);
    if s == 0 {
      SameScaleMonotone(a, r.unscaled, s);
    } else if Saturates(b, s) {
      BelowMax(a, s, r);
    } else if r.scale >= CENTS {
      CentsOfFitting(a, s);
      CentsOfFitting(r.unscaled, r.scale);
      ReduceMonotone(a, b, s - CENTS);
      ChainAtLeastSingle(b, s, CENTS);
      RatLinear(ReduceScale(r.unscaled, r.scale - CENTS), ReduceScale(a, s - CENTS), CENTS);
    } else {
      FittingBelowCoarse(a, b, s, r);
    }
  }

  lemma FittingBelowCoarse(a: int64, b: int, s: nat, r: Decimal)
    requires 0 <= a <= b && b > MAX_INT64 && 1 <= s <= MAX_SCALE
    requires Shrink(b, s) == (r.unscaled, r.scale) && r.scale < CENTS
    ensures CentsLe(Decimal(a, s), r)
  {
    RescaleUp(r, CENTS);
    if s >= CENTS {
      var x := ShrinkPasses(b, s, CENTS);
      OverflowStaysAbove(x, CENTS);
      CentsOfFitting(a, s);
      RatWiden(r.unscaled, r.scale, CENTS - r.scale);
      RatLinear(Widen(r.unscaled, CENTS - r.scale), ReduceScale(a, s - CENTS), CENTS);
    } else {
      OverflowStaysAbove(b, s);
      RescaleUp(Decimal(a, s), CENTS);
      RatWiden(r.unscaled, r.scale, s - r.scale);
      RatLinear(Widen(r.unscaled, s - r.scale), a, s);
    }
  }

  lemma BelowMax(a: int64, s: nat, top: Decimal)
    requires 0 <= a && s <= MAX_SCALE && top.unscaled == MAX_INT64 && top.scale == 0
    ensures CentsLe(Decimal(a, s), top)
  {
    RescaleSign(Decimal(a, s), CENTS);
    ValueAtMost(Rescale(Decimal(a, s), CENTS));
    RescaleUp(top, CENTS);
  }

  lemma ValueAtMost(d: Decimal)
    requires d.unscaled >= 0
    ensures 0.0 <= Value(d) <= MAX_INT64 as real
  {
    RatAtMost(d.unscaled, d.scale);
  }

  lemma {:induction false} RatAtMost(v: nat, s: nat)
    ensures 0.0 <= Rat(v, s) <= v as real
  {
    if s > 0 {
      RatAtMost(v, s - 1);
    }
  }

  lemma {:induction false} ShrinkMonotone(a: int, b: int, s: nat)
    requires 0 <= a <= b && s <= MAX_SCALE
    ensures CentsLe(FromBig(a, s), FromBig(b, s))
    decreases s
  {
    if IsInt64(b) {
      SameScaleMonotone(a, b, s);
    } else if IsInt64(a) {
      FittingBelowSettled(a, b, s);
    } else if s > 0 {
      ReduceMonotone(a, b, 1);
      RoundDivSign(a, Pow10(1));
      ShrinkMonotone(ReduceScale(a, 1), ReduceScale(b, 1), s - 1);
      StepTogether(a, s);
      StepTogether(b, s);
    }
  }

  lemma StepTogether(v: int, s: nat)
    requires !IsInt64(v) && 0 < s <= MAX_SCALE
    ensures FromBig(v, s) == FromBig(ReduceScale(v, 1), s - 1)
  {
  }

  /** fromBig followed by rescaling to cents is monotone on non-negative mantissas of any one scale. */
  lemma FromBigCentsMonotone(a: int, b: int, s: nat)
    requires 0 <= a <= b
    ensures CentsLe(FromBig(a, s), FromBig(b, s))
  {
    if s > MAX_SCALE {
      DeepCents(FromBig(a, s), FromBig(b, s), a, b, s - MAX_SCALE, MAX_SCALE);
    } else {
      ShrinkMonotone(a, b, s);
    }
  }

  lemma DeepCents(x: Decimal, y: Decimal, a: int, b: int, m: nat, s: nat)
    requires 0 <= a <= b && s == MAX_SCALE && m > 0 && x == FromBig(a, m + s) && y == FromBig(b, m + s)
    ensures CentsLe(x, y)
  {
    DeepIsShallow(a, m, s, x);
    DeepIsShallow(b, m, s, y);
    DeepMonotone(a, b, m, s);
  }

  lemma DeepMonotone(a: int, b: int, m: nat, s: nat)
    requires 0 <= a <= b && s <= MAX_SCALE
    ensures CentsLe(FromBig(ReduceScale(a, m), s), FromBig(ReduceScale(b, m), s))
  {
    ReduceMonotone(a, b, m);
    RoundDivSign(a, Pow10(m));
    ShrinkMonotone(ReduceScale(a, m), ReduceScale(b, m), s);
  }

  lemma DeepIsShallow(v: int, m: nat, s: nat, d: Decimal)
    requires s == MAX_SCALE && m > 0 && d == FromBig(v, m + s)
    ensures d == FromBig(ReduceScale(v, m), s)
  {
  }

  lemma {:induction false} TimesMonotone(a: int, b: int, m: nat)
    requires 0 <= a <= b
    ensures 0 <= Times(a, m) <= Times(b, m)
  {
    if m > 0 {
      TimesMonotone(a, b, m - 1);
    }
  }

  /** Mul then Rescale(2) is monotone in the price for a non-negative quantity. */
  lemma NotionalMonotone(low: Decimal, high: Decimal, qty: Decimal)
    requires InScale(low) && InScale(qty) && low.scale == high.scale
    requires 0 <= low.unscaled <= high.unscaled && 0 <= qty.unscaled
    ensures CentsLe(Mul(low, qty), Mul(high, qty))
  {
    MulRefinesBig(low, qty);
    MulRefinesBig(high, qty);
    TimesMonotone(low.unscaled, high.unscaled, qty.unscaled);
    SettledMonotone(Mul(low, qty), Mul(high, qty), Times(low.unscaled, qty.unscaled), Times(high.unscaled, qty.unscaled),
                    low.scale + qty.scale);
  }

  lemma SettledMonotone(x: Decimal, y: Decimal, a: int, b: int, s: nat)
    requires 0 <= a <= b && x == FromBig(a, s) && y == FromBig(b, s)
    ensures CentsLe(x, y)
  {
    FromBigCentsMonotone(a, b, s);
  }
}

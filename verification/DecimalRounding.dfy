/** What repeated rounding costs: order, error bounds, saturation and exactness of Decimal arithmetic,
    all stated against the rational numbers the decimals stand for. */
module DecimalRounding {
  import opened Arith
  import opened Decimal

  // ---- decimals as rationals ------------------------------------------------------------------

  lemma ValueAt(d: Decimal, scale: uint8)
    requires scale >= d.scale
    ensures Value(d) == Rat(BigAt(d, scale), scale)
  {
    RatWiden(d.unscaled, d.scale, scale - d.scale);
  }

  /** Cmp is the order of the rationals, on every path, hence a total preorder across scales. */
  lemma CmpIsRationalOrder(d: Decimal, o: Decimal)
    requires Abs(d.scale - o.scale) <= MAX_SCALE
    ensures Cmp(d, o) < 0 <==> Value(d) < Value(o)
    ensures Cmp(d, o) == 0 <==> Value(d) == Value(o)
    ensures Cmp(d, o) > 0 <==> Value(d) > Value(o)
  {
    var s := MaxScaleOf(d, o);
    AlignFastExact(d, o);
    ValueAt(d, s);
    ValueAt(o, s);
    RatLinear(BigAt(d, s), BigAt(o, s), s);
  }

  // ---- error of the digit-dropping loop --------------------------------------------------------

  /** w at k digits fewer is within half a unit of v. */
  predicate Half(v: int, w: int, k: nat) {
    2 * Abs(v - Widen(w, k)) <= Pow10(k)
  }

  /** w at k digits fewer is less than 5/9 of a unit from v. */
  predicate Ninths(v: int, w: int, k: nat) {
    9 * Abs(v - Widen(w, k)) < 5 * Pow10(k)
  }

  /** The sharp form that one-digit roundings accumulate: 5/9 of a unit, less 5/9 of the original one. */
  predicate Geometric(v: int, w: int, k: nat) {
    9 * Abs(v - Widen(w, k)) <= 5 * (Pow10(k) - 1)
  }

  lemma ReduceNearest(v: int, n: nat)
    ensures Half(v, ReduceScale(v, n), n)
  {
    RoundDivIsNearest(v, Pow10(n));
    WidenIsProduct(ReduceScale(v, n), n);
  }

  /** After k one-digit roundings the mantissa is off by less than 5/9 of its last place. */
  lemma {:induction false} ShrinkError(v: int, scale: nat)
    ensures Geometric(v, Shrink(v, scale).0, scale - Shrink(v, scale).1)
    decreases scale
  {
    if scale > 0 && !IsInt64(v) {
      ReduceOne(v);
      ShrinkError(ReduceScale(v, 1), scale - 1);
      GeometricStep(v, ReduceScale(v, 1), Shrink(v, scale).0, scale - 1 - Shrink(v, scale).1);
    }
  }

  lemma ReduceOne(v: int)
    ensures 2 * Abs(v - 10 * ReduceScale(v, 1)) <= 10
  {
    assert Pow10(1) == 10;
    RoundDivIsNearest(v, 10);
  }

  lemma GeometricStep(v: int, v1: int, w: int, k: nat)
    requires 2 * Abs(v - 10 * v1) <= 10 && Geometric(v1, w, k)
    ensures Geometric(v, w, k + 1)
  {
  }

  lemma ShrinkUnchanged(v: int, scale: nat)
    ensures Shrink(v, scale).1 == scale ==> Shrink(v, scale).0 == v
  {
  }

  /** How many roundings fromBig performed on its way from `scale` to `t`. */
  function Roundings(scale: nat, t: nat): int {
    if scale > MAX_SCALE then 1 + MAX_SCALE - t else scale - t
  }

  /** One rounding by m digits under an error accumulated over k further digits. */
  lemma ComposeError(v: int, v1: int, w: int, k: nat, m: nat)
    requires Half(v, v1, m) && Geometric(v1, w, k)
    ensures Ninths(v, w, k + m)
  {
    ScaledGap(v1, w, k, m);
  }

  lemma ScaledGap(v1: int, w: int, k: nat, m: nat)
    requires Geometric(v1, w, k)
    ensures 9 * Abs(Widen(v1, m) - Widen(w, k + m)) <= 5 * Pow10(k + m) - 5 * Pow10(m)
  {
    var e := v1 - Widen(w, k);
    WidenAdd(w, k, m);
    WidenLinear(v1, Widen(w, k), m);
    WidenLinear(e, e, m);
    WidenTimes(9, Abs(e), m);
    WidenLinear(9 * Abs(e), 5 * (Pow10(k) - 1), m);
    WidenTimes(5, Pow10(k) - 1, m);
    WidenLinear(Pow10(k), 1, m);
    WidenOne(k);
    WidenOne(m);
    WidenOne(k + m);
    WidenAdd(1, k, m);
  }

  lemma SettleErrorDeep(v: int, scale: nat)
    requires scale > MAX_SCALE
    ensures Ninths(v, Settle(v, scale).0, scale - Settle(v, scale).1)
    ensures Settle(v, scale).1 == MAX_SCALE ==> Half(v, Settle(v, scale).0, scale - MAX_SCALE)
  {
    var m := scale - MAX_SCALE;
    ReduceNearest(v, m);
    SettleDeepAt(v, ReduceScale(v, m), m, Settle(v, scale).0, Settle(v, scale).1);
  }

  lemma SettleDeepAt(v: int, v1: int, m: nat, w: int, t: nat)
    requires Half(v, v1, m) && Shrink(v1, MAX_SCALE) == (w, t)
    ensures Ninths(v, w, m + MAX_SCALE - t)
    ensures t == MAX_SCALE ==> Half(v, w, m)
  {
    ShrinkError(v1, MAX_SCALE);
    ShrinkUnchanged(v1, MAX_SCALE);
    ComposeError(v, v1, w, MAX_SCALE - t, m);
  }

  /** The mantissa fromBig settles on: under 5/9 of a last-place unit away from the exact value, and
      within 1/2 when at most one rounding happened. */
  lemma SettleError(v: int, scale: nat)
    ensures Ninths(v, Settle(v, scale).0, scale - Settle(v, scale).1)
    ensures Roundings(scale, Settle(v, scale).1) <= 1 ==> Half(v, Settle(v, scale).0, scale - Settle(v, scale).1)
  {
    if scale > MAX_SCALE {
      SettleErrorDeep(v, scale);
    } else {
      ShrinkError(v, scale);
      SingleRounding(v, scale);
    }
  }

  lemma SingleRounding(v: int, scale: nat)
    ensures scale - Shrink(v, scale).1 <= 1 ==> Half(v, Shrink(v, scale).0, scale - Shrink(v, scale).1)
  {
    if scale > 0 && !IsInt64(v) {
      ReduceNearest(v, 1);
      ShrinkUnchanged(ReduceScale(v, 1), scale - 1);
    }
  }

  // ---- the same, as rationals ------------------------------------------------------------------

  /** Strictly less than 5/9 of d's last-place unit from the exact rational. */
  ghost predicate FiveNinths(d: Decimal, exact: real) {
    9.0 * AbsReal(Value(d) - exact) < 5.0 * Ulp(d)
  }

  /** At most half of d's last-place unit from the exact rational. */
  ghost predicate HalfUlp(d: Decimal, exact: real) {
    2.0 * AbsReal(Value(d) - exact) <= Ulp(d)
  }

  /** r is an honest rounding of v / 10^scale: under 5/9 of a unit off, within 1/2 after one rounding. */
  ghost predicate RoundedFrom(r: Decimal, v: int, scale: nat) {
    && FiveNinths(r, Rat(v, scale))
    && (Roundings(scale, r.scale) <= 1 ==> HalfUlp(r, Rat(v, scale)))
  }

  /** An error in mantissa units at `scale`, read as an error in units of d's last place. */
  lemma RatError(v: int, scale: nat, d: Decimal)
    requires d.scale <= scale
    ensures Ninths(v, d.unscaled, scale - d.scale) ==> FiveNinths(d, Rat(v, scale))
    ensures Half(v, d.unscaled, scale - d.scale) ==> HalfUlp(d, Rat(v, scale))
  {
    var k := scale - d.scale;
    var x := Widen(d.unscaled, k);
    RatWiden(d.unscaled, d.scale, k);
    RatWiden(1, d.scale, k);
    WidenOne(k);
    RatLinear(x, v, scale);
    RatAbs(x - v, scale);
    RatMultiples(Abs(x - v), Pow10(k), scale);
  }

  lemma {:induction false} RatMultiples(a: int, b: int, s: nat)
    ensures 9 * a < 5 * b ==> 9.0 * Rat(a, s) < 5.0 * Rat(b, s)
    ensures 2 * a <= b ==> 2.0 * Rat(a, s) <= Rat(b, s)
  {
    if s > 0 {
      RatMultiples(a, b, s - 1);
    }
  }

  lemma SettledDecimal(v: int, scale: nat, d: Decimal)
    requires !Saturates(v, scale) && d == FromBig(v, scale)
    ensures d.scale <= scale
    ensures Ninths(v, d.unscaled, scale - d.scale)
    ensures Roundings(scale, d.scale) <= 1 ==> Half(v, d.unscaled, scale - d.scale)
  {
    SettleError(v, scale);
  }

  /** fromBig against the exact rational v / 10^scale. */
  lemma FromBigError(v: int, scale: nat, d: Decimal)
    requires !Saturates(v, scale) && d == FromBig(v, scale)
    ensures RoundedFrom(d, v, scale)
  {
    SettledDecimal(v, scale, d);
    RatError(v, scale, d);
  }

  /** Saturation keeps the sign, happens only when the exact magnitude is past the edge of int64 at scale 0
      (less the rounding slack), and always happens clearly beyond that edge. */
  lemma SaturationOnlyOutOfRange(v: int, scale: nat)
    ensures Saturates(v, scale) ==> 9 * Abs(v) > Widen(9 * MAX_INT64 + 4, scale)
    ensures Saturates(v, scale) ==>
      FromBig(v, scale) == if v > 0 then Decimal(MAX_INT64, 0) else Decimal(MIN_INT64 + 1, 0)
    ensures 9 * Abs(v) >= Widen(9 * MAX_INT64 + 14, scale) ==> Saturates(v, scale)
  {
    FromBigSign(v, scale);
    SettleError(v, scale);
    var t := Settle(v, scale).1;
    if Saturates(v, scale) {
      EdgeAbove(v, Settle(v, scale).0, scale);
    } else {
      EdgeBelow(v, Settle(v, scale).0, scale - t);
      WidenUp(9 * MAX_INT64 + 14, scale - t, scale);
    }
  }

  lemma EdgeAbove(v: int, w: int, k: nat)
    requires Ninths(v, w, k) && !IsInt64(w)
    ensures 9 * Abs(v) > Widen(9 * MAX_INT64 + 4, k)
  {
    NineWide(w, k);
    WidenLinear(9 * MAX_INT64 + 9, 9 * Abs(w), k);
    WidenLinear(9 * MAX_INT64 + 9, 5, k);
  }

  lemma EdgeBelow(v: int, w: int, k: nat)
    requires Ninths(v, w, k) && IsInt64(w)
    ensures 9 * Abs(v) < Widen(9 * MAX_INT64 + 14, k)
  {
    NineWide(w, k);
    WidenLinear(9 * Abs(w), 9 * MAX_INT64 + 9, k);
    WidenLinear(9 * MAX_INT64 + 9, 5, k);
  }

  lemma NineWide(w: int, k: nat)
    ensures Widen(9 * Abs(w), k) == 9 * Abs(Widen(w, k))
    ensures Widen(5, k) == 5 * Pow10(k)
  {
    WidenOne(k);
    WidenLinear(w, w, k);
    WidenTimes(9, Abs(w), k);
    WidenTimes(5, 1, k);
  }

  lemma {:induction false} WidenUp(v: int, j: nat, k: nat)
    requires v >= 0 && j <= k
    ensures 0 <= Widen(v, j) <= Widen(v, k)
  {
    if j < k {
      WidenUp(v, j, k - 1);
    } else if k > 0 {
      WidenUp(v, j - 1, k - 1);
    }
  }

  /** No digit is dropped needlessly: after a drop the mantissa still fills an int64 to its last digit. */
  lemma {:induction false} ShrinkKeepsDigits(v: int, scale: nat)
    ensures var (w, t) := Shrink(v, scale);
      t < scale ==> 10 * Abs(w) >= MAX_INT64 - 4
    decreases scale
  {
    if scale > 0 && !IsInt64(v) {
      ReduceOne(v);
      ShrinkKeepsDigits(ReduceScale(v, 1), scale - 1);
    }
  }

  // ---- Add and Sub -----------------------------------------------------------------------------

  /** d + o at the finer of the two scales. */
  function ExactSum(d: Decimal, o: Decimal): int {
    BigAt(d, MaxScaleOf(d, o)) + BigAt(o, MaxScaleOf(d, o))
  }

  lemma SumAtScale(d: Decimal, o: Decimal)
    ensures Value(d) + Value(o) == Rat(ExactSum(d, o), MaxScaleOf(d, o))
  {
    var s := MaxScaleOf(d, o);
    ValueAt(d, s);
    ValueAt(o, s);
    RatLinear(BigAt(d, s), BigAt(o, s), s);
  }

  lemma AddError(d: Decimal, o: Decimal)
    requires InScale(d) && InScale(o) && !Saturates(ExactSum(d, o), MaxScaleOf(d, o))
    ensures FiveNinths(Add(d, o), Value(d) + Value(o))
    ensures Add(d, o).scale + 1 >= MaxScaleOf(d, o)
       ==> HalfUlp(Add(d, o), Value(d) + Value(o))
  {
    AddRefinesBig(d, o);
    SumAtScale(d, o);
    FromBigError(ExactSum(d, o), MaxScaleOf(d, o), Add(d, o));
  }

  lemma KeptScaleFits(v: int, s: nat)
    requires s <= MAX_SCALE
    ensures IsInt64(v) ==> FromBig(v, s) == Decimal(v, s)
    ensures FromBig(v, s).scale == s > 0 ==> IsInt64(v)
  {
    if s > 0 && !IsInt64(v) {
      assert Shrink(v, s) == Shrink(ReduceScale(v, 1), s - 1);
    }
  }

  /** Sums are exact whenever the aligned mantissas' sum fits, and only then is the scale kept. */
  lemma AddExact(d: Decimal, o: Decimal)
    requires InScale(d) && InScale(o)
    ensures IsInt64(ExactSum(d, o)) ==>
      && Add(d, o) == Decimal(ExactSum(d, o), MaxScaleOf(d, o))
      && Value(Add(d, o)) == Value(d) + Value(o)
    ensures Add(d, o).scale == MaxScaleOf(d, o) > 0 ==> IsInt64(ExactSum(d, o))
  {
    AddRefinesBig(d, o);
    KeptScaleFits(ExactSum(d, o), MaxScaleOf(d, o));
    SumAtScale(d, o);
  }

  function ExactDifference(d: Decimal, o: Decimal): int {
    BigAt(d, MaxScaleOf(d, o)) - BigAt(o, MaxScaleOf(d, o))
  }

  lemma NegAt(o: Decimal, s: uint8)
    ensures o.unscaled != MIN_INT64 ==> BigAt(Neg(o), s) == -BigAt(o, s)
    ensures o.unscaled == MIN_INT64 ==> Neg(o) == o
  {
    var u: int := o.unscaled;
    assert u == MIN_INT64 ==> Wrap(-u) == Wrap(-u - TWO_64);
    WidenLinear(0, u, if s > o.scale then s - o.scale else 0);
    WidenLinear(0, 0, if s > o.scale then s - o.scale else 0);
  }

  /** Sub is fromBig of the exact difference unless the subtrahend's mantissa is MinInt64, which Neg
      leaves negative; then the result is wrong for every minuend. */
  lemma SubRefinesBig(d: Decimal, o: Decimal)
    requires InScale(d) && InScale(o)
    ensures Sub(d, o) == FromBig(ExactDifference(d, o), MaxScaleOf(d, o)) <==> o.unscaled != MIN_INT64
  {
    var s := MaxScaleOf(d, o);
    AddRefinesBig(d, Neg(o));
    NegAt(o, s);
    if o.unscaled == MIN_INT64 {
      WrongDifference(d, o);
    }
  }

  lemma FromBigNonZero(v: int, s: nat)
    requires v != 0 && s <= MAX_SCALE
    ensures v > 0 ==> FromBig(v, s).unscaled > 0
    ensures v < 0 ==> FromBig(v, s).unscaled < 0
  {
    FromBigSign(v, s);
    ShrinkKeepsDigits(v, s);
    ShrinkUnchanged(v, s);
  }

  lemma WrongDifference(d: Decimal, o: Decimal)
    requires InScale(d) && InScale(o) && o.unscaled == MIN_INT64
    ensures FromBig(ExactSum(d, o), MaxScaleOf(d, o)) != FromBig(ExactDifference(d, o), MaxScaleOf(d, o))
  {
    var s := MaxScaleOf(d, o);
    var x, m := BigAt(d, s), BigAt(o, s);
    WidenLinear(MIN_INT64, 0, s - o.scale);
    WidenUp(-MIN_INT64, 0, s - o.scale);
    assert m == -Widen(-MIN_INT64, s - o.scale) by { WidenLinear(0, -MIN_INT64, s - o.scale); }
    if x + m <= 0 <= x - m {
      if x + m != 0 { FromBigNonZero(x + m, s); } else { KeptScaleFits(0, s); }
      if x - m != 0 { FromBigNonZero(x - m, s); } else { KeptScaleFits(0, s); }
    } else {
      assert m == MIN_INT64;
      FarApart(x, d.unscaled, s, s - d.scale);
    }
  }

  /** x is an int64 with j >= 1 zeros appended, at scale s; moving it by 2^63 either way must show. */
  lemma FarApart(x: int, u: int64, s: nat, j: nat)
    requires x == Widen(u, j) && j <= s <= MAX_SCALE
    requires Abs(x) > -MIN_INT64
    ensures FromBig(x + MIN_INT64, s) != FromBig(x - MIN_INT64, s)
  {
    Distinct(x + MIN_INT64, x - MIN_INT64, s);
    WidenLinear(u, 0, j);
    WidenLinear(0, 0, j);
    if x > 0 {
      InsideEdge(x + MIN_INT64, u, s, j);
    } else {
      InsideEdge(x - MIN_INT64, u, s, j);
    }
  }

  /** Values 2^64 apart cannot settle on the same mantissa and scale. */
  lemma Distinct(a: int, b: int, s: nat)
    requires b - a == TWO_64 && s <= MAX_SCALE
    ensures Settle(a, s) != Settle(b, s)
  {
    ShrinkError(a, s);
    ShrinkError(b, s);
    Pow10Fits(s - Settle(a, s).1);
  }

  /** Nine whole units short of the edge, nothing saturates. */
  lemma InsideEdge(v: int, u: int64, s: nat, j: nat)
    requires j <= s <= MAX_SCALE
    requires u > 0 ==> 0 <= v <= Widen(u, j) + MIN_INT64
    requires u <= 0 ==> Widen(u, j) - MIN_INT64 <= v <= 0
    ensures Settle(v, s).1 == 0 ==> MIN_INT64 + 1 < Settle(v, s).0 < MAX_INT64
  {
    if Settle(v, s).1 == 0 {
      ShrinkError(v, s);
      FromBigSign(v, s);
      ShrinkSign(v, s);
      if u > 0 {
        InsideTop(v, Settle(v, s).0, u, s, j);
      } else {
        InsideBottom(v, Settle(v, s).0, u, s, j);
      }
    }
  }

  lemma InsideTop(v: int, w: int, u: int64, s: nat, j: nat)
    requires j <= s <= MAX_SCALE && u > 0 && v <= Widen(u, j) + MIN_INT64 && Geometric(v, w, s)
    ensures w < MAX_INT64
  {
    Pow10Fits(s);
    WidenUp(u, j, s);
    WidenLinear(u, MAX_INT64, s);
    if w >= MAX_INT64 {
      WidenLinear(MAX_INT64, w, s);
    }
  }

  lemma InsideBottom(v: int, w: int, u: int64, s: nat, j: nat)
    requires j <= s <= MAX_SCALE && u <= 0 && Widen(u, j) - MIN_INT64 <= v && Geometric(v, w, s)
    ensures w > MIN_INT64 + 1
  {
    Pow10Fits(s);
    WidenOne(s);
    WidenDown(u, j, s);
    WidenLinear(MIN_INT64, u, s);
    WidenLinear(MIN_INT64, 1, s);
    if w <= MIN_INT64 + 1 {
      WidenLinear(w, MIN_INT64 + 1, s);
    }
  }

  lemma WidenDown(v: int, j: nat, k: nat)
    requires v <= 0 && j <= k
    ensures Widen(v, k) <= Widen(v, j) <= 0
  {
    WidenUp(-v, j, k);
    WidenLinear(0, -v, j);
    WidenLinear(0, -v, k);
    WidenLinear(0, 0, j);
    WidenLinear(0, 0, k);
  }

  // ---- Mul -------------------------------------------------------------------------------------

  lemma ExactProduct(d: Decimal, o: Decimal)
    ensures Rat(Times(d.unscaled, o.unscaled), d.scale + o.scale) == Value(d) * Value(o)
  {
    TimesIsProduct(d.unscaled, o.unscaled);
    RatProduct(d.unscaled, d.scale, o.unscaled, o.scale);
  }

  /** Mul rounds the exact product, for every pair on which overflowsMul is not blind. */
  lemma MulError(d: Decimal, o: Decimal)
    requires InScale(d) && InScale(o)
    requires !(d.unscaled == MIN_INT64 && o.unscaled == -1 && d.scale + o.scale <= MAX_SCALE)
    requires !Saturates(Times(d.unscaled, o.unscaled), d.scale + o.scale)
    ensures FiveNinths(Mul(d, o), Value(d) * Value(o))
    ensures Roundings(d.scale + o.scale, Mul(d, o).scale) <= 1 ==> HalfUlp(Mul(d, o), Value(d) * Value(o))
  {
    MulRefinesBig(d, o);
    ExactProduct(d, o);
    FromBigError(Times(d.unscaled, o.unscaled), d.scale + o.scale, Mul(d, o));
  }

  // ---- Div -------------------------------------------------------------------------------------

  /** e / 10^s and e * 10^s for a real e. */
  function Shifted(e: real, s: nat): real {
    if s == 0 then e else Shifted(e, s - 1) / 10.0
  }

  function Raised(e: real, s: nat): real {
    if s == 0 then e else 10.0 * Raised(e, s - 1)
  }

  lemma {:induction false} ShiftedLinear(e: real, s: nat)
    ensures Shifted(10.0 * e, s) == 10.0 * Shifted(e, s)
  {
    if s > 0 {
      ShiftedLinear(e, s - 1);
    }
  }

  lemma {:induction false} ShiftedRaised(e: real, s: nat)
    ensures Shifted(Raised(e, s), s) == e
  {
    if s > 0 {
      ShiftedRaised(e, s - 1);
      ShiftedLinear(Raised(e, s - 1), s - 1);
    }
  }

  lemma {:induction false} RaisedTimes(e: real, r: real, x: real, s: nat)
    requires e * r == x
    ensures Raised(e, s) * r == Raised(x, s)
  {
    if s > 0 {
      RaisedTimes(e, r, x, s - 1);
      TenTimesProduct(Raised(e, s - 1), r);
    }
  }

  lemma TenTimesProduct(a: real, b: real)
    ensures (10.0 * a) * b == 10.0 * (a * b)
  {
  }

  lemma {:induction false} RaisedRat(x: int, c: nat, s: nat)
    ensures Raised(Rat(x, c + s), s) == Rat(x, c)
  {
    if s > 0 {
      RaisedOfTen(Rat(x, c + s), s - 1);
      RaisedRat(x, c, s - 1);
    }
  }

  lemma {:induction false} RaisedOfTen(e: real, s: nat)
    ensures Raised(10.0 * e, s) == 10.0 * Raised(e, s)
  {
    if s > 0 {
      RaisedOfTen(e, s - 1);
    }
  }

  lemma {:induction false} DropUnits(e: real, den: int, num: int, c: nat)
    requires e * Rat(den, c) == Rat(num, c)
    ensures e * den as real == num as real
  {
    if c > 0 {
      TenTimesProduct(Rat(den, c), e);
      assert Rat(den, c - 1) == 10.0 * Rat(den, c) && Rat(num, c - 1) == 10.0 * Rat(num, c);
      DropUnits(e, den, num, c - 1);
    }
  }

  /** Div's shifted operands, as rationals: num is d at some scale, den is o at that scale less s. */
  lemma ShiftedOperands(d: Decimal, o: Decimal, s: nat) returns (c: nat)
    ensures Value(d) == Rat(DivNum(d, o, s), c + s) && Value(o) == Rat(DivDen(d, o, s), c)
  {
    var shift := Shift(d, o, s);
    if shift >= 0 {
      RatWiden(d.unscaled, d.scale, shift);
      c := o.scale;
    } else {
      RatWiden(o.unscaled, o.scale, -shift);
      c := d.scale - s;
    }
  }

  /** The exact quotient e, moved s places, is the quotient of Div's shifted operands. */
  lemma RaisedQuotient(e: real, num: int, den: int, c: nat, s: nat)
    requires e * Rat(den, c) == Rat(num, c + s)
    ensures Raised(e, s) * den as real == num as real
  {
    RaisedTimes(e, Rat(den, c), Rat(num, c + s), s);
    RaisedRat(num, c, s);
    DropUnits(Raised(e, s), den, num, c);
  }

  ghost predicate HalfClose(e: real, q: int) {
    2.0 * AbsReal(e - q as real) <= 1.0
  }

  /** A nearest integer quotient q is within one half of the exact one. */
  lemma NearestReal(e: real, num: int, den: int, q: int)
    requires den != 0 && e * den as real == num as real && IsNearest(q, num, den)
    ensures HalfClose(e, q)
  {
    var g := e - q as real;
    assert (q * den) as real == q as real * den as real;
    assert g * den as real == (num - q * den) as real;
    HalfBound(g, den as real, (num - q * den) as real);
  }

  lemma HalfBound(g: real, d: real, x: real)
    requires d != 0.0 && g * d == x && 2.0 * AbsReal(x) <= AbsReal(d)
    ensures 2.0 * AbsReal(g) <= 1.0
  {
    assert AbsReal(x) == AbsReal(g) * AbsReal(d);
    ScaleOrder(1.0, 2.0 * AbsReal(g), AbsReal(d));
  }

  lemma {:induction false} ScaleDownReal(e: real, x: int, p: int, s: nat)
    ensures 9.0 * AbsReal(e - x as real) < 5.0 * p as real
       ==> 9.0 * AbsReal(Shifted(e, s) - Rat(x, s)) < 5.0 * Rat(p, s)
    ensures 2.0 * AbsReal(e - x as real) <= p as real
       ==> 2.0 * AbsReal(Shifted(e, s) - Rat(x, s)) <= Rat(p, s)
  {
    if s > 0 {
      ScaleDownReal(e, x, p, s - 1);
    }
  }

  /** From a rounded integer quotient q of e to the decimal that fromBig keeps of it. */
  lemma DivErrorAt(e: real, q: int, s: nat)
    requires HalfClose(e, q) && s <= MAX_SCALE && !Saturates(q, s)
    ensures FiveNinths(FromBig(q, s), Shifted(e, s))
    ensures FromBig(q, s).scale == s ==> HalfUlp(FromBig(q, s), Shifted(e, s))
  {
    var r := FromBig(q, s);
    var k := s - r.scale;
    var x := Widen(r.unscaled, k);
    ShrinkError(q, s);
    ShrinkUnchanged(q, s);
    assert AbsReal(q as real - x as real) == Abs(q - x) as real;
    ScaleDownReal(e, x, Pow10(k), s);
    RatWiden(r.unscaled, r.scale, k);
    RatWiden(1, r.scale, k);
    WidenOne(k);
  }

  /** e is the exact quotient of vd by vo. */
  ghost predicate IsQuotient(e: real, vd: real, vo: real) {
    e * vo == vd
  }

  /** Div's integer quotient is within one half of the exact quotient at the target scale. */
  lemma QuotientHalf(d: Decimal, o: Decimal, s: nat, e: real)
    requires o.unscaled != 0 && IsQuotient(e, Value(d), Value(o))
    ensures HalfClose(Raised(e, s), Quotient(d, o, s))
  {
    var c := ShiftedOperands(d, o, s);
    QuotientNearest(d, o, s);
    QuotientHalfAt(DivNum(d, o, s), DivDen(d, o, s), Quotient(d, o, s), c, s, e, Value(d), Value(o));
  }

  lemma QuotientNearest(d: Decimal, o: Decimal, s: nat)
    requires o.unscaled != 0
    ensures DivDen(d, o, s) != 0 && IsNearest(Quotient(d, o, s), DivNum(d, o, s), DivDen(d, o, s))
  {
    DivDenNonZero(d, o, s);
    RoundDivIsNearest(DivNum(d, o, s), DivDen(d, o, s));
  }

  lemma QuotientHalfAt(num: int, den: int, q: int, c: nat, s: nat, e: real, vd: real, vo: real)
    requires den != 0 && IsNearest(q, num, den) && IsQuotient(e, vd, vo) && vo == Rat(den, c) && vd == Rat(num, c + s)
    ensures HalfClose(Raised(e, s), q)
  {
    RaisedQuotient(e, num, den, c, s);
    NearestReal(Raised(e, s), num, den, q);
  }

  /** Div against the exact quotient e of d by o, for every divisor but zero. */
  lemma DivError(d: Decimal, o: Decimal, scale: uint8, e: real)
    requires o.unscaled != 0 && IsQuotient(e, Value(d), Value(o))
    requires var s := if scale > MAX_SCALE then MAX_SCALE else scale; !Saturates(Quotient(d, o, s), s)
    ensures FiveNinths(Div(d, o, scale), e)
    ensures Div(d, o, scale).scale == (if scale > MAX_SCALE then MAX_SCALE else scale) ==> HalfUlp(Div(d, o, scale), e)
  {
    var s := if scale > MAX_SCALE then MAX_SCALE else scale;
    QuotientHalf(d, o, s, e);
    DivErrorAt(Raised(e, s), Quotient(d, o, s), s);
    ShiftedRaised(e, s);
  }
}

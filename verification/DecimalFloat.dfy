/** FromFloat (internal/model/decimal_math.go) with float64 values taken as reals: rounding half away from zero,
    saturating outside int64. */
module DecimalFloat {
  import opened Arith
  import opened Decimal
  import opened DecimalRounding

  /** math.Round. */
  function Round(x: real): int {
    if x >= 0.0 then (x + 0.5).Floor else -((0.5 - x).Floor)
  }

  lemma RoundFacts(x: real)
    ensures 2.0 * AbsReal(x - Round(x) as real) <= 1.0
    ensures 2.0 * AbsReal(x - Round(x) as real) == 1.0 ==> AbsReal(Round(x) as real) > AbsReal(x)
    ensures x >= 0.0 ==> Round(x) >= 0
    ensures x <= 0.0 ==> Round(x) <= 0
  {
  }

  lemma RoundOfInt(n: int)
    ensures Round(n as real) == n
  {
    RoundFacts(n as real);
  }

  lemma RoundMonotone(x: real, y: real)
    requires x <= y
    ensures Round(x) <= Round(y)
  {
    FloorMonotone(x + 0.5, y + 0.5);
    FloorMonotone(0.5 - y, 0.5 - x);
    RoundFacts(x);
    RoundFacts(y);
  }

  lemma FloorMonotone(x: real, y: real)
    requires x <= y
    ensures x.Floor <= y.Floor
  {
  }

  predicate FitsFloat(scaled: real) {
    MIN_INT64 as real <= scaled <= MAX_INT64 as real
  }

  lemma RoundFits(x: real)
    requires FitsFloat(x)
    ensures IsInt64(Round(x))
  {
    RoundOfInt(MAX_INT64);
    RoundOfInt(MIN_INT64);
    RoundMonotone(x, MAX_INT64 as real);
    RoundMonotone(MIN_INT64 as real, x);
  }

  function FromFloat(f: real, scale: uint8): (d: Decimal)
    ensures InScale(d)
  {
    var s := if scale > MAX_SCALE then MAX_SCALE else scale;
    var scaled := Raised(f, s);
    if !FitsFloat(scaled) then Saturated(scaled)
    else
      RoundFits(scaled);
      Decimal(Round(scaled), s)
  }

  function Saturated(scaled: real): Decimal {
    if scaled > 0.0 then Decimal(MAX_INT64, 0) else Decimal(MIN_INT64 + 1, 0)
  }

  /** FromFloat of f at `scale` does not saturate. */
  predicate Representable(f: real, scale: uint8) {
    FitsFloat(Raised(f, if scale > MAX_SCALE then MAX_SCALE else scale))
  }

  lemma {:induction false} RaisedOrder(x: real, y: real, s: nat)
    requires x <= y
    ensures Raised(x, s) <= Raised(y, s)
    ensures Raised(0.0, s) == 0.0
  {
    if s > 0 {
      RaisedOrder(x, y, s - 1);
    }
  }

  lemma {:induction false} RaisedOfRat(v: int, s: nat)
    ensures Raised(Rat(v, s), s) == v as real
  {
    RaisedRat(v, 0, s);
  }

  /** Within half a unit of the requested scale (18 at most) unless it saturates. */
  lemma FromFloatError(f: real, scale: uint8)
    requires Representable(f, scale)
    ensures FromFloat(f, scale).scale == if scale > MAX_SCALE then MAX_SCALE else scale
    ensures HalfUlp(FromFloat(f, scale), f)
  {
    var s := if scale > MAX_SCALE then MAX_SCALE else scale;
    var scaled := Raised(f, s);
    RoundFacts(scaled);
    ScaleDownReal(scaled, Round(scaled), 1, s);
    ShiftedRaised(f, s);
  }

  /** In mantissa units the result is the nearest integer, ties away from zero. */
  lemma FromFloatNearest(f: real, scale: uint8)
    requires Representable(f, scale)
    ensures var x := Raised(f, if scale > MAX_SCALE then MAX_SCALE else scale);
      var u := FromFloat(f, scale).unscaled as real;
      2.0 * AbsReal(x - u) <= 1.0 && (2.0 * AbsReal(x - u) == 1.0 ==> AbsReal(u) > AbsReal(x))
  {
    RoundFacts(Raised(f, if scale > MAX_SCALE then MAX_SCALE else scale));
  }

  /** Otherwise it is the largest mantissa of the float's sign, as a whole number. */
  lemma FromFloatSaturates(f: real, scale: uint8)
    requires !Representable(f, scale)
    ensures FromFloat(f, scale).scale == 0 && Abs(FromFloat(f, scale).unscaled) == MAX_INT64
    ensures f != 0.0 && (FromFloat(f, scale).unscaled > 0 <==> f > 0.0)
  {
    var s := if scale > MAX_SCALE then MAX_SCALE else scale;
    if f <= 0.0 {
      RaisedOrder(f, 0.0, s);
    } else {
      RaisedOrder(0.0, f, s);
    }
    RaisedOrder(0.0, 0.0, s);
  }

  /** A float comes out positive if and only if it is at least half a unit. */
  lemma FromFloatPositive(f: real, scale: uint8)
    ensures FromFloat(f, scale).unscaled > 0 <==> 2.0 * Raised(f, if scale > MAX_SCALE then MAX_SCALE else scale) >= 1.0
  {
    RoundFacts(Raised(f, if scale > MAX_SCALE then MAX_SCALE else scale));
  }

  lemma FromFloatMonotone(f: real, g: real, scale: uint8)
    requires f <= g && Representable(f, scale) && Representable(g, scale)
    ensures FromFloat(f, scale).scale == FromFloat(g, scale).scale
    ensures FromFloat(f, scale).unscaled <= FromFloat(g, scale).unscaled
  {
    var s := if scale > MAX_SCALE then MAX_SCALE else scale;
    RaisedOrder(f, g, s);
    RoundMonotone(Raised(f, s), Raised(g, s));
  }

  lemma FromFloatSign(f: real, scale: uint8)
    ensures f >= 0.0 ==> FromFloat(f, scale).unscaled >= 0
    ensures f <= 0.0 ==> FromFloat(f, scale).unscaled <= 0
  {
    var s := if scale > MAX_SCALE then MAX_SCALE else scale;
    RoundFacts(Raised(f, s));
    if f >= 0.0 {
      RaisedOrder(0.0, f, s);
    } else {
      RaisedOrder(f, 0.0, s);
    }
  }

  /** A fraction of a decimal, at most the whole, rounds to at most the whole. */
  lemma FromFloatFraction(d: Decimal, f: real)
    requires d.scale <= MAX_SCALE && 0.0 <= f <= Value(d)
    ensures FromFloat(f, d.scale).scale == d.scale
    ensures 0 <= FromFloat(f, d.scale).unscaled <= d.unscaled
  {
    RaisedOrder(0.0, f, d.scale);
    RaisedOrder(f, Value(d), d.scale);
    RaisedOfRat(d.unscaled, d.scale);
    RoundFacts(Raised(f, d.scale));
    RoundMonotone(Raised(f, d.scale), d.unscaled as real);
    RoundOfInt(d.unscaled);
  }

  /** A decimal's own value at its own scale converts back to it. */
  lemma FromFloatOfValue(d: Decimal)
    requires InScale(d)
    ensures Representable(Value(d), d.scale) && FromFloat(Value(d), d.scale) == d
  {
    RaisedOfRat(d.unscaled, d.scale);
    RoundOfInt(d.unscaled);
  }
}

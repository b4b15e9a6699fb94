/** Buying and then selling at one reference price never makes money (internal/consumer/paper/paper.go,
    buy and sell), through every rounding on the way. */
module PaperRoundTrip {
  import opened Arith
  import opened Decimal
  import opened DecimalRounding
  import opened DecimalFloat
  import DecimalMonotone
  import opened Market
  import opened Paper

  /** d can be written in int64 cents (or is already finer than cents). */
  predicate FitsCents(d: Decimal) {
    InScale(d) && IsInt64(BigAt(d, CENTS))
  }

  /** The largest amount int64 cents can hold. */
  function Ceiling(): real {
    Rat(MAX_INT64, CENTS)
  }

  /** d as a whole number of cents. */
  predicate IsCents(d: Decimal, n: int) {
    d.scale == CENTS && d.unscaled == n
  }

  // ---- amounts below the ceiling are exact -----------------------------------------------------

  lemma AboveCeiling(v: int, s: nat)
    requires v > MAX_INT64 && s <= CENTS
    ensures Rat(v, s) > Ceiling()
  {
    WidenUp(v, 0, CENTS - s);
    RatWiden(v, s, CENTS - s);
    RatLinear(MAX_INT64, Widen(v, CENTS - s), CENTS);
  }

  /** A mantissa that overflows at cents or coarser settles on a value above the ceiling. */
  lemma OverflowAboveCeiling(v: int, s: nat)
    requires v > MAX_INT64 && s <= CENTS
    ensures Value(FromBig(v, s)) > Ceiling()
  {
    var (w, t) := Shrink(v, s);
    if s > 0 {
      DecimalMonotone.OverflowStaysAbove(v, s);
      AboveCeiling(Widen(w, s - t), s);
      RatWiden(w, t, s - t);
    }
    if !IsInt64(w) {
      TopAboveCeiling(FromBig(v, s));
    }
  }

  lemma TopAboveCeiling(top: Decimal)
    requires top.unscaled == MAX_INT64 && top.scale == 0
    ensures Value(top) > Ceiling()
  {
  }

  /** A sum of two non-negative amounts at cents or coarser that stays below the ceiling is exact. */
  lemma SmallSumExact(x: Decimal, y: Decimal)
    requires x.scale <= CENTS && y.scale <= CENTS && x.unscaled >= 0 && y.unscaled >= 0
    requires Value(Add(x, y)) <= Ceiling()
    ensures IsInt64(ExactSum(x, y))
    ensures Value(x) <= Ceiling() && Value(y) <= Ceiling()
  {
    AddRefinesBig(x, y);
    WidenUp(x.unscaled, 0, MaxScaleOf(x, y) - x.scale);
    WidenUp(y.unscaled, 0, MaxScaleOf(x, y) - y.scale);
    if ExactSum(x, y) > MAX_INT64 {
      OverflowAboveCeiling(ExactSum(x, y), MaxScaleOf(x, y));
    }
    AddExact(x, y);
    DecimalMonotone.ValueAtMost(x);
    DecimalMonotone.ValueAtMost(y);
  }

  /** A non-negative amount rescaled to cents that stays below the ceiling is at cents. */
  lemma SmallRescaleIsCents(d: Decimal)
    requires InScale(d) && d.unscaled >= 0 && Value(Rescale(d, CENTS)) <= Ceiling()
    ensures Rescale(d, CENTS).scale == CENTS
  {
    var r := Rescale(d, CENTS);
    DecimalMonotone.RescaleScale(d, CENTS);
    if r.scale < CENTS {
      AboveCeiling(Widen(r.unscaled, CENTS - r.scale), CENTS);
      RatWiden(r.unscaled, r.scale, CENTS - r.scale);
    }
  }

  /** A non-negative float rounded to cents that stays below the ceiling did not saturate. */
  lemma SmallFloatIsCents(f: real)
    requires f >= 0.0 && Value(FromFloat(f, CENTS)) <= Ceiling()
    ensures Representable(f, CENTS) && FromFloat(f, CENTS).scale == CENTS
  {
    RaisedOrder(0.0, f, CENTS);
    if !Representable(f, CENTS) {
      TopAboveCeiling(FromFloat(f, CENTS));
    }
  }

  lemma FitsBelowCeiling(d: Decimal)
    requires FitsCents(d)
    ensures Value(d) <= Ceiling()
  {
    if d.scale <= CENTS {
      ValueAt(d, CENTS);
      RatLinear(MAX_INT64, BigAt(d, CENTS), CENTS);
    } else {
      FinerIsSmaller(d.unscaled, d.scale);
    }
  }

  lemma {:induction false} FinerIsSmaller(v: int64, s: nat)
    requires s >= CENTS
    ensures Rat(v, s) <= Ceiling()
  {
    if s == CENTS {
      RatLinear(MAX_INT64, v, CENTS);
    } else {
      FinerIsSmaller(v, s - 1);
    }
  }

  // ---- one buy, one sell -----------------------------------------------------------------------

  lemma NotionalSign(price: Decimal, quantity: Decimal)
    requires InScale(price) && InScale(quantity) && price.unscaled >= 0 && quantity.unscaled >= 0
    ensures InScale(Mul(price, quantity)) && Mul(price, quantity).unscaled >= 0
    ensures Notional(price, quantity).unscaled >= 0 && Notional(price, quantity).scale <= CENTS
  {
    MulRefinesBig(price, quantity);
    DecimalMonotone.TimesMonotone(0, price.unscaled, quantity.unscaled);
    FromBigSign(Times(price.unscaled, quantity.unscaled), price.scale + quantity.scale);
    DecimalMonotone.RescaleSign(Mul(price, quantity), CENTS);
    DecimalMonotone.RescaleScale(Mul(price, quantity), CENTS);
  }

  /** A buy whose amounts never left cents. */
  ghost predicate CentsOrder(notional: Decimal, fee: Decimal, total: Decimal) {
    && notional.scale == CENTS && notional.unscaled >= 0
    && fee.scale == CENTS && fee.unscaled >= 0
    && IsCents(total, notional.unscaled + fee.unscaled)
  }

  lemma RateSign(x: real, rate: real)
    requires x >= 0.0 && rate >= 0.0
    ensures Part(x, rate) >= 0.0
  {
  }

  lemma FeeSign(cfg: Config, n: Decimal)
    requires n.unscaled >= 0
    ensures Part(Value(n), cfg.feeRate) >= 0.0
    ensures FeeOn(cfg, n).unscaled >= 0 && FeeOn(cfg, n).scale <= CENTS
  {
    DecimalMonotone.ValueAtMost(n);
    RateSign(Value(n), cfg.feeRate);
    FromFloatSign(Part(Value(n), cfg.feeRate), CENTS);
    FloatScale(Part(Value(n), cfg.feeRate));
  }

  lemma FloatScale(f: real)
    ensures FromFloat(f, CENTS).scale <= CENTS
  {
  }

  /** The total stays below the ceiling, so both of its parts are at cents and the sum is exact. */
  lemma CoveredIsCents(product: Decimal, n: Decimal, f: real, fee: Decimal, total: Decimal)
    requires InScale(product) && product.unscaled >= 0 && n == Rescale(product, CENTS) && n.scale <= CENTS && n.unscaled >= 0
    requires f >= 0.0 && fee == FromFloat(f, CENTS) && fee.scale <= CENTS && fee.unscaled >= 0
    requires total == Add(n, fee) && Value(total) <= Ceiling()
    ensures CentsOrder(n, fee, total) && Representable(f, CENTS)
  {
    SmallSumExact(n, fee);
    SmallRescaleIsCents(product);
    SmallFloatIsCents(f);
    ExactAtCents(n, fee);
  }

  lemma ExactAtCents(n: Decimal, fee: Decimal)
    requires n.scale == CENTS && fee.scale == CENTS && IsInt64(ExactSum(n, fee))
    ensures IsCents(Add(n, fee), n.unscaled + fee.unscaled)
  {
    AddExact(n, fee);
  }

  lemma CoveredBelowCeiling(total: Decimal, cash: Decimal)
    requires InScale(total) && FitsCents(cash) && Cmp(total, cash) <= 0
    ensures Value(total) <= Value(cash) && Value(total) <= Ceiling()
  {
    CmpIsRationalOrder(total, cash);
    FitsBelowCeiling(cash);
  }

  lemma AddInScale(x: Decimal, y: Decimal)
    requires InScale(x) && InScale(y)
    ensures InScale(Add(x, y))
  {
    AddRefinesBig(x, y);
  }

  /** What the affordability guard buys: an order the cash covers was computed without leaving cents. */
  lemma AffordableIsExact(cfg: Config, cash: Decimal, o: Order)
    requires FitsCents(cash) && InScale(o.price) && InScale(o.quantity) && o.price.unscaled >= 0 && o.quantity.unscaled > 0
    requires o.notional == Notional(o.price, o.quantity) && o.fee == FeeOn(cfg, o.notional)
    requires o.total == Add(o.notional, o.fee) && Cmp(o.total, cash) <= 0
    ensures CentsOrder(o.notional, o.fee, o.total) && Value(o.total) <= Value(cash)
    ensures Representable(Part(Value(o.notional), cfg.feeRate), CENTS)
  {
    NotionalSign(o.price, o.quantity);
    FeeSign(cfg, o.notional);
    AddInScale(o.notional, o.fee);
    CoveredBelowCeiling(o.total, cash);
    CoveredIsCents(Mul(o.price, o.quantity), o.notional, Part(Value(o.notional), cfg.feeRate), o.fee, o.total);
  }

  /** The spread is never in the trader's favour. */
  lemma PricesOrdered(cfg: Config, ref: Decimal)
    requires ref.unscaled > 0 && cfg.slippageRate <= 1.0
    requires Representable(Part(Value(ref), 1.0 + cfg.slippageRate), cfg.pricePrecision)
    ensures InScale(BuyPrice(cfg, ref)) && SellPrice(cfg, ref).scale == BuyPrice(cfg, ref).scale
    ensures 0 <= SellPrice(cfg, ref).unscaled <= BuyPrice(cfg, ref).unscaled
  {
    var low, high := Part(Value(ref), 1.0 - cfg.slippageRate), Part(Value(ref), 1.0 + cfg.slippageRate);
    DecimalMonotone.ValueAtMost(ref);
    RateOrder(Value(ref), 1.0 - cfg.slippageRate, 1.0 + cfg.slippageRate);
    BetweenRepresentable(low, high, cfg.pricePrecision);
    FromFloatMonotone(low, high, cfg.pricePrecision);
    FromFloatSign(low, cfg.pricePrecision);
  }

  lemma RateOrder(x: real, low: real, high: real)
    requires x >= 0.0 && 0.0 <= low <= high
    ensures 0.0 <= Part(x, low) <= Part(x, high)
    ensures 0.0 <= Part(low, x) <= Part(high, x)
  {
  }

  lemma BetweenRepresentable(low: real, high: real, scale: uint8)
    requires 0.0 <= low <= high && Representable(high, scale)
    ensures Representable(low, scale)
  {
    var s := if scale > MAX_SCALE then MAX_SCALE else scale;
    RaisedOrder(0.0, low, s);
    RaisedOrder(low, high, s);
  }

  /** The sale of the same quantity at no more than the price paid: its notional and its fee are no larger. */
  lemma SellIsSmaller(cfg: Config, low: Decimal, high: Decimal, quantity: Decimal)
    requires InScale(low) && InScale(quantity) && low.scale == high.scale && 0 <= low.unscaled <= high.unscaled && quantity.unscaled > 0
    requires Notional(high, quantity).scale == CENTS && Representable(Part(Value(Notional(high, quantity)), cfg.feeRate), CENTS)
    ensures var n, m := Notional(low, quantity), Notional(high, quantity);
      && n.scale == CENTS && 0 <= n.unscaled <= m.unscaled
      && FeeOn(cfg, n).scale == CENTS && 0 <= FeeOn(cfg, n).unscaled <= FeeOn(cfg, m).unscaled
  {
    NotionalSign(low, quantity);
    DecimalMonotone.NotionalMonotone(low, high, quantity);
    SmallerNotional(Mul(low, quantity), Notional(low, quantity), Notional(high, quantity));
    SmallerFee(cfg, Notional(low, quantity), Notional(high, quantity));
  }

  lemma SmallerNotional(product: Decimal, n: Decimal, m: Decimal)
    requires InScale(product) && product.unscaled >= 0 && n == Rescale(product, CENTS) && n.unscaled >= 0
    requires m.scale == CENTS && Value(n) <= Value(m)
    ensures n.scale == CENTS && n.unscaled <= m.unscaled
  {
    RatLinear(MAX_INT64, m.unscaled, CENTS);
    SmallRescaleIsCents(product);
    RatLinear(m.unscaled, n.unscaled, CENTS);
  }

  lemma SmallerFee(cfg: Config, n: Decimal, m: Decimal)
    requires n.scale == CENTS && m.scale == CENTS && 0 <= n.unscaled <= m.unscaled
    requires Representable(Part(Value(m), cfg.feeRate), CENTS)
    ensures FeeOn(cfg, n).scale == CENTS && 0 <= FeeOn(cfg, n).unscaled <= FeeOn(cfg, m).unscaled
  {
    RatLinear(m.unscaled, n.unscaled, CENTS);
    DecimalMonotone.ValueAtMost(n);
    RateOrder(cfg.feeRate, Value(n), Value(m));
    BetweenRepresentable(Part(Value(n), cfg.feeRate), Part(Value(m), cfg.feeRate), CENTS);
    FromFloatMonotone(Part(Value(n), cfg.feeRate), Part(Value(m), cfg.feeRate), CENTS);
    FromFloatSign(Part(Value(n), cfg.feeRate), CENTS);
    FromFloatError(Part(Value(n), cfg.feeRate), CENTS);
  }

  lemma ProceedsExact(n: Decimal, fee: Decimal)
    requires n.scale == CENTS && fee.scale == CENTS && n.unscaled >= 0 && fee.unscaled >= 0
    ensures IsCents(Sub(n, fee), n.unscaled - fee.unscaled)
  {
    NegAt(fee, CENTS);
    ExactAtCents(n, Neg(fee));
  }

  /** Paying an affordable total and taking proceeds no larger in size: both steps are exact. */
  lemma CashMoves(cash: Decimal, total: Decimal, proceeds: Decimal)
    requires FitsCents(cash) && total.scale == CENTS && proceeds.scale == CENTS
    requires Value(total) <= Value(cash) && Abs(proceeds.unscaled) <= total.unscaled
    ensures Value(Add(Sub(cash, total), proceeds)) == Value(cash) - Value(total) + Value(proceeds)
  {
    var m := MaxScaleOf(cash, total);
    PayExact(cash, total);
    var paid := Sub(cash, total);
    WidenLinear(Abs(proceeds.unscaled), total.unscaled, m - CENTS);
    WidenLinear(proceeds.unscaled, 0, m - CENTS);
    AddExact(paid, proceeds);
  }

  lemma PayExact(cash: Decimal, total: Decimal)
    requires FitsCents(cash) && total.scale == CENTS && total.unscaled >= 0 && Value(total) <= Value(cash)
    ensures var m := MaxScaleOf(cash, total);
      && Sub(cash, total).scale == m && Sub(cash, total).unscaled == BigAt(cash, m) - BigAt(total, m) >= 0
      && IsInt64(BigAt(cash, m))
    ensures Value(Sub(cash, total)) == Value(cash) - Value(total)
  {
    var m := MaxScaleOf(cash, total);
    ValueAt(cash, m);
    ValueAt(total, m);
    RatLinear(BigAt(cash, m), BigAt(total, m), m);
    WidenUp(total.unscaled, 0, m - CENTS);
    NegAt(total, m);
    AddExact(cash, Neg(total));
  }

  // ---- the round trip --------------------------------------------------------------------------

  /** Cash after paying one order and taking one exit, and what the trip cost at least. */
  ghost predicate LosesFees(cash: Decimal, o: Order, x: Exit) {
    Value(Add(Sub(cash, o.total), x.proceeds)) + Value(o.fee) + Value(x.fee) <= Value(cash)
  }

  lemma TripLosesFees(cash: Decimal, o: Order, x: Exit)
    requires FitsCents(cash) && CentsOrder(o.notional, o.fee, o.total) && Value(o.total) <= Value(cash)
    requires x.notional.scale == CENTS && 0 <= x.notional.unscaled <= o.notional.unscaled
    requires x.fee.scale == CENTS && 0 <= x.fee.unscaled <= o.fee.unscaled
    requires x.proceeds == Sub(x.notional, x.fee)
    ensures LosesFees(cash, o, x)
  {
    ProceedsExact(x.notional, x.fee);
    CashMoves(cash, o.total, x.proceeds);
    RatLinear(o.notional.unscaled, o.fee.unscaled, CENTS);
    RatLinear(x.notional.unscaled, x.fee.unscaled, CENTS);
    RatLinear(o.notional.unscaled, x.notional.unscaled, CENTS);
  }

  lemma OrderOf(cfg: Config, cash: Decimal, equity: Decimal, strength: real, ref: Decimal, o: Order)
    requires PlanBuy(cfg, cash, equity, strength, ref) == Some(o)
    ensures o.quantity.unscaled > 0 && InScale(o.quantity) && o.price == BuyPrice(cfg, ref)
    ensures Affordable(cfg, cash, o.price, o.quantity) == Some(o)
  {
  }

  lemma PlannedTripLosesFees(cfg: Config, cash: Decimal, o: Order, p: Position, ref: Decimal)
    requires FitsCents(cash) && ref.unscaled > 0 && cfg.slippageRate <= 1.0
    requires Representable(Part(Value(ref), 1.0 + cfg.slippageRate), cfg.pricePrecision)
    requires o.quantity.unscaled > 0 && InScale(o.quantity) && o.price == BuyPrice(cfg, ref)
    requires Affordable(cfg, cash, o.price, o.quantity) == Some(o) && p.quantity == o.quantity
    ensures LosesFees(cash, o, PlanSell(cfg, p, ref))
  {
    PricesOrdered(cfg, ref);
    OrderAmounts(cfg, cash, o);
    AffordableIsExact(cfg, cash, o);
    SellIsSmaller(cfg, SellPrice(cfg, ref), o.price, o.quantity);
    TripLosesFees(cash, o, PlanSell(cfg, p, ref));
  }

  lemma OrderAmounts(cfg: Config, cash: Decimal, o: Order)
    requires o.quantity.unscaled > 0 && Affordable(cfg, cash, o.price, o.quantity) == Some(o)
    ensures o.notional == Notional(o.price, o.quantity) && o.fee == FeeOn(cfg, o.notional)
    ensures o.total == Add(o.notional, o.fee) && o.basis == Basis(cfg, o.total, o.quantity)
    ensures Cmp(o.total, cash) <= 0
  {
  }

  /** Buying and then selling at the same reference price never increases cash: if the buy fills, the trip costs at
      least both fees, and otherwise cash does not move. */
  lemma RoundTripNeverGains(cfg: Config, b: Book, buy: Signal, sell: Signal, ref: Decimal, t0: int, t1: int, order: seq<InstrumentID>)
    requires forall id :: id in order ==> id in b.positions
    requires buy.instrument == sell.instrument && buy.instrument !in b.positions
    requires ref.unscaled > 0 && cfg.slippageRate <= 1.0 && FitsCents(b.cash)
    requires Representable(Part(Value(ref), 1.0 + cfg.slippageRate), cfg.pricePrecision)
    ensures var (b1, bought) := DoBuy(cfg, b, buy, ref, t0, order);
      var (b2, sold) := DoSell(cfg, b1, sell, ref, t1);
      && Value(b2.cash) <= Value(b.cash)
      && bought.Some? == sold.Some?
      && (bought.Some? ==> Value(b2.cash) + Value(bought.value.fee) + Value(sold.value.fee) <= Value(b.cash))
      && b2.positions == b.positions
  {
    match PlanBuy(cfg, b.cash, Equity(b, order), buy.strength, ref)
    case None =>
    case Some(o) =>
      OrderOf(cfg, b.cash, Equity(b, order), buy.strength, ref, o);
      var p := Position(o.quantity, o.basis, t0);
      PlannedTripLosesFees(cfg, b.cash, o, p, ref);
      TripBook(cfg, b, buy, sell, ref, t0, t1, order, o);
      FeesPositive(cfg, b.cash, o, p, ref);
  }

  lemma TripBook(cfg: Config, b: Book, buy: Signal, sell: Signal, ref: Decimal, t0: int, t1: int, order: seq<InstrumentID>, o: Order)
    requires forall id :: id in order ==> id in b.positions
    requires buy.instrument == sell.instrument && buy.instrument !in b.positions
    requires PlanBuy(cfg, b.cash, Equity(b, order), buy.strength, ref) == Some(o)
    ensures var (b1, bought) := DoBuy(cfg, b, buy, ref, t0, order);
      var (b2, sold) := DoSell(cfg, b1, sell, ref, t1);
      var x := PlanSell(cfg, Position(o.quantity, o.basis, t0), ref);
      && b2.cash == Add(Sub(b.cash, o.total), x.proceeds)
      && bought == Some(BuyFill(buy, o, t0)) && sold == Some(SellFill(sell, Position(o.quantity, o.basis, t0), x, t1))
      && b2.positions == b.positions
  {
    var p := Position(o.quantity, o.basis, t0);
    SellOf(cfg, Bought(b, buy, o, t0), sell, ref, t1, p);
    BoughtThenSold(b, buy, sell, t0, t1, o, PlanSell(cfg, p, ref));
  }

  lemma SellOf(cfg: Config, b: Book, sell: Signal, ref: Decimal, t: int, p: Position)
    requires sell.instrument in b.positions && b.positions[sell.instrument] == p
    ensures DoSell(cfg, b, sell, ref, t) ==
      (Sold(b, sell, p, PlanSell(cfg, p, ref), t), Some(SellFill(sell, p, PlanSell(cfg, p, ref), t)))
  {
  }

  lemma BoughtThenSold(b: Book, buy: Signal, sell: Signal, t0: int, t1: int, o: Order, x: Exit)
    requires buy.instrument == sell.instrument && buy.instrument !in b.positions
    ensures var b2 := Sold(Bought(b, buy, o, t0), sell, Position(o.quantity, o.basis, t0), x, t1);
      b2.cash == Add(Sub(b.cash, o.total), x.proceeds) && b2.positions == b.positions
  {
  }

  lemma FeesPositive(cfg: Config, cash: Decimal, o: Order, p: Position, ref: Decimal)
    requires FitsCents(cash) && ref.unscaled > 0 && cfg.slippageRate <= 1.0
    requires Representable(Part(Value(ref), 1.0 + cfg.slippageRate), cfg.pricePrecision)
    requires o.quantity.unscaled > 0 && InScale(o.quantity) && o.price == BuyPrice(cfg, ref)
    requires Affordable(cfg, cash, o.price, o.quantity) == Some(o) && p.quantity == o.quantity
    ensures Value(o.fee) >= 0.0 && Value(PlanSell(cfg, p, ref).fee) >= 0.0
  {
    PricesOrdered(cfg, ref);
    OrderAmounts(cfg, cash, o);
    NotionalSign(o.price, o.quantity);
    FeeSign(cfg, o.notional);
    DecimalMonotone.ValueAtMost(o.fee);
    SaleFeePositive(cfg, SellPrice(cfg, ref), o.quantity);
  }

  lemma SaleFeePositive(cfg: Config, price: Decimal, quantity: Decimal)
    requires InScale(price) && InScale(quantity) && price.unscaled >= 0 && quantity.unscaled > 0
    ensures Value(FeeOn(cfg, Notional(price, quantity))) >= 0.0
  {
    NotionalSign(price, quantity);
    FeeSign(cfg, Notional(price, quantity));
    DecimalMonotone.ValueAtMost(FeeOn(cfg, Notional(price, quantity)));
  }
}

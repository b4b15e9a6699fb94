/** Position sizing (internal/consumer/paper/paper.go, buy): how far the notional of a buy can be from the fraction of
    equity that is the account's risk limit. */
module PaperSizing {
  import opened Arith
  import opened Decimal
  import opened DecimalRounding
  import opened DecimalFloat
  import DecimalMonotone
  import opened Paper
  import opened PaperRoundTrip
  import opened PaperLedger

  const HALF_CENT: real := 0.005

  /** The risk limit: the fraction of equity one signal may commit. */
  function Limit(cfg: Config, equity: Decimal, strength: real): real {
    Part(Part(Value(equity), cfg.maxPositionFraction), Clamp01(strength))
  }

  /** It grows with the signal's strength from nothing to the configured fraction of equity, and no further. */
  lemma LimitMeans(cfg: Config, equity: Decimal, strength: real)
    ensures strength <= 0.0 ==> Limit(cfg, equity, strength) == 0.0
    ensures 0.0 <= strength <= 1.0 ==> Limit(cfg, equity, strength) == Value(equity) * cfg.maxPositionFraction * strength
    ensures strength >= 1.0 ==> Limit(cfg, equity, strength) == Value(equity) * cfg.maxPositionFraction
  {
  }

  /** The limit in cents, or all the cash where that is less. */
  function Capped(cash: Decimal, limit: real): Decimal {
    var want := FromFloat(limit, CENTS);
    if Cmp(want, cash) > 0 then cash else want
  }

  lemma BudgetOf(cfg: Config, cash: Decimal, equity: Decimal, strength: real)
    ensures Budget(cfg, cash, equity, strength)
         == FromFloat(Per(Value(Capped(cash, Limit(cfg, equity, strength))), 1.0 + cfg.feeRate), CENTS)
  {
  }

  lemma CentError(f: real)
    requires Representable(f, CENTS)
    ensures f - HALF_CENT <= Value(FromFloat(f, CENTS)) <= f + HALF_CENT
  {
    FromFloatError(f, CENTS);
    assert Rat(1, 2) == 0.01;
  }

  /** The cap is no more than the cash, no more than the limit, and reaches one of them, up to half a cent. */
  lemma CappedIsLesser(cash: Decimal, limit: real)
    requires FitsCents(cash) && limit > 0.0
    ensures var c := Value(Capped(cash, limit));
      c <= Value(cash) && c <= limit + HALF_CENT && (c == Value(cash) || c >= limit - HALF_CENT)
  {
    var want := FromFloat(limit, CENTS);
    CmpIsRationalOrder(want, cash);
    if Representable(limit, CENTS) {
      CentError(limit);
    } else {
      FitsBelowCeiling(cash);
      RaisedOrder(0.0, limit, CENTS);
      TopAboveCeiling(want);
      AboveRange(limit);
    }
  }

  lemma AboveRange(f: real)
    requires f > 0.0 && !Representable(f, CENTS)
    ensures f > Ceiling()
  {
    RaisedOrder(0.0, f, CENTS);
    RaisedOfRat(MAX_INT64, CENTS);
    if f <= Ceiling() {
      RaisedOrder(f, Ceiling(), CENTS);
    }
  }

  lemma NoLimitNoCap(cash: Decimal, limit: real)
    requires InScale(cash) && limit <= 0.0
    ensures Value(Capped(cash, limit)) <= 0.0
  {
    var want := FromFloat(limit, CENTS);
    FromFloatSign(limit, CENTS);
    RatLinear(want.unscaled, 0, want.scale);
    CmpIsRationalOrder(want, cash);
  }

  lemma PerOrder(x: real, y: real, d: real)
    requires x <= y && d > 0.0
    ensures Per(x, d) <= Per(y, d)
  {
  }

  lemma PerAtMost(x: real, d: real)
    requires x >= 0.0 && d >= 1.0
    ensures 0.0 <= Per(x, d) <= x
  {
    var y := x / d;
    assert y * d == x && y * (d - 1.0) >= 0.0;
  }

  /** A budget is positive only if the cap is. */
  lemma BudgetSign(capped: real, d: real)
    requires d >= 1.0 && FromFloat(Per(capped, d), CENTS).unscaled > 0
    ensures capped > 0.0
  {
    FromFloatSign(Per(capped, d), CENTS);
    if capped <= 0.0 {
      PerOrder(capped, 0.0, d);
    }
  }

  lemma BelowCeilingFits(f: real)
    requires 0.0 <= f <= Ceiling()
    ensures Representable(f, CENTS)
  {
    RaisedOrder(0.0, f, CENTS);
    RaisedOrder(f, Ceiling(), CENTS);
    RaisedOfRat(MAX_INT64, CENTS);
  }

  /** A positive budget is the cap less the fee's headroom, up to half a cent. */
  lemma BudgetError(capped: real, d: real)
    requires d >= 1.0 && 0.0 < capped <= Ceiling()
    ensures Per(capped, d) - HALF_CENT <= Value(FromFloat(Per(capped, d), CENTS)) <= Per(capped, d) + HALF_CENT
  {
    PerAtMost(capped, d);
    BelowCeilingFits(Per(capped, d));
    CentError(Per(capped, d));
  }

  /** What a positive budget is: the lesser of cash and limit, with headroom for the fee, up to roundings. */
  ghost predicate IsBudget(budget: real, cash: real, limit: real, d: real)
    requires d > 0.0
  {
    && budget <= Per(cash, d) + HALF_CENT
    && budget <= Per(limit + HALF_CENT, d) + HALF_CENT
    && (budget >= Per(cash, d) - HALF_CENT || budget >= Per(limit - HALF_CENT, d) - HALF_CENT)
  }

  lemma BudgetIsCapped(cfg: Config, cash: Decimal, equity: Decimal, strength: real)
    requires FitsCents(cash) && Budget(cfg, cash, equity, strength).unscaled > 0
    ensures Limit(cfg, equity, strength) > 0.0
    ensures IsBudget(Value(Budget(cfg, cash, equity, strength)), Value(cash), Limit(cfg, equity, strength), 1.0 + cfg.feeRate)
  {
    var limit, d := Limit(cfg, equity, strength), 1.0 + cfg.feeRate;
    var capped := Value(Capped(cash, limit));
    BudgetOf(cfg, cash, equity, strength);
    BudgetSign(capped, d);
    PositiveLimit(cash, limit);
    CappedIsLesser(cash, limit);
    FitsBelowCeiling(cash);
    BudgetError(capped, d);
    PerOrder(capped, Value(cash), d);
    PerOrder(capped, limit + HALF_CENT, d);
    if capped != Value(cash) {
      PerOrder(limit - HALF_CENT, capped, d);
    }
  }

  lemma PositiveLimit(cash: Decimal, limit: real)
    requires InScale(cash) && Value(Capped(cash, limit)) > 0.0
    ensures limit > 0.0
  {
    if limit <= 0.0 {
      NoLimitNoCap(cash, limit);
    }
  }

  // ---- from budget to notional -----------------------------------------------------------------

  /** Under half a unit of the quantity times the price, plus the product's rounding, plus half a cent. */
  ghost predicate BoughtFor(notional: real, budget: real, price: Decimal, quantity: Decimal) {
    AbsReal(notional - budget)
      < Part(Ulp(quantity), Value(price)) / 2.0 + 5.0 * Ulp(Mul(price, quantity)) / 9.0 + HALF_CENT
  }

  lemma QuantityError(budget: real, price: real, quantity: real, unit: real)
    requires price > 0.0 && 2.0 * AbsReal(quantity - Per(budget, price)) <= unit
    ensures 2.0 * AbsReal(Part(price, quantity) - budget) <= Part(unit, price)
  {
    var e := Per(budget, price);
    assert Part(e, price) == budget;
    var d := AbsReal(quantity - e);
    assert AbsReal((quantity - e) * price) == d * price;
    assert (2.0 * d) * price <= unit * price;
  }

  /** A product that could be brought to cents did not saturate. */
  lemma CentsMeansUnsaturated(price: Decimal, quantity: Decimal)
    requires InScale(price) && InScale(quantity) && price.unscaled >= 0 && quantity.unscaled > 0
    requires Notional(price, quantity).scale == CENTS
    ensures !Saturates(Times(price.unscaled, quantity.unscaled), price.scale + quantity.scale)
  {
    var v, s := Times(price.unscaled, quantity.unscaled), price.scale + quantity.scale;
    SettledProduct(price, quantity, v, s);
    CentsNotSaturated(v, s, Mul(price, quantity));
  }

  lemma SettledProduct(price: Decimal, quantity: Decimal, v: int, s: nat)
    requires InScale(price) && InScale(quantity) && price.unscaled >= 0 && quantity.unscaled > 0
    requires v == Times(price.unscaled, quantity.unscaled) && s == price.scale + quantity.scale
    ensures v >= 0 && Mul(price, quantity) == FromBig(v, s)
  {
    MulRefinesBig(price, quantity);
    DecimalMonotone.TimesMonotone(0, price.unscaled, quantity.unscaled);
  }

  lemma CentsNotSaturated(v: int, s: nat, d: Decimal)
    requires v >= 0 && d == FromBig(v, s) && Rescale(d, CENTS).scale == CENTS
    ensures !Saturates(v, s)
  {
    SettleSign(v, s);
    if Saturates(v, s) {
      TopStays(d);
    }
  }

  lemma SettleSign(v: int, s: nat)
    requires v >= 0
    ensures Settle(v, s).0 >= 0
  {
    if s > MAX_SCALE {
      RoundDivSign(v, Pow10(s - MAX_SCALE));
      ShrinkSign(ReduceScale(v, s - MAX_SCALE), MAX_SCALE);
    } else {
      ShrinkSign(v, s);
    }
  }

  lemma TopStays(top: Decimal)
    requires top.unscaled == MAX_INT64 && top.scale == 0
    ensures Rescale(top, CENTS).scale == 0
  {
    DecimalMonotone.RescaleUp(top, CENTS);
    WidenUp(top.unscaled, 1, CENTS);
  }

  lemma NotionalError(budget: real, price: Decimal, quantity: Decimal)
    requires InScale(price) && InScale(quantity) && price.unscaled > 0 && quantity.unscaled > 0
    requires Notional(price, quantity).scale == CENTS
    requires 2.0 * AbsReal(Part(Value(price), Value(quantity)) - budget) <= Part(Ulp(quantity), Value(price))
    ensures BoughtFor(Value(Notional(price, quantity)), budget, price, quantity)
  {
    CentsMeansUnsaturated(price, quantity);
    MulError(price, quantity);
    DecimalMonotone.RescaleError(Mul(price, quantity), CENTS);
    assert Rat(1, 2) == 0.01;
    Total(Value(Notional(price, quantity)), Value(Mul(price, quantity)), Part(Value(price), Value(quantity)), budget,
          Part(Ulp(quantity), Value(price)), Ulp(Mul(price, quantity)));
  }

  lemma Total(notional: real, product: real, exact: real, budget: real, unit: real, ulp: real)
    requires 2.0 * AbsReal(exact - budget) <= unit && 9.0 * AbsReal(product - exact) < 5.0 * ulp && 2.0 * AbsReal(notional - product) <= 0.01
    ensures AbsReal(notional - budget) < unit / 2.0 + 5.0 * ulp / 9.0 + HALF_CENT
  {
  }

  /** The quotient behind a size does not saturate; a price that rounds to zero sizes to MaxInt64 for nothing. */
  predicate SizeFits(cfg: Config, budget: Decimal, price: Decimal) {
    if price.unscaled == 0 then true
    else PriceNonZero(price); Representable(Per(Value(budget), Value(price)), cfg.quantityPrecision)
  }

  lemma SizeError(cfg: Config, budget: Decimal, price: Decimal)
    requires price.unscaled > 0 && SizeFits(cfg, budget, price)
    ensures var q := Size(cfg, budget, price);
      2.0 * AbsReal(Part(Value(price), Value(q)) - Value(budget)) <= Part(Ulp(q), Value(price))
  {
    var q := Size(cfg, budget, price);
    PositivePrice(price);
    FromFloatError(Per(Value(budget), Value(price)), cfg.quantityPrecision);
    QuantityError(Value(budget), Value(price), Value(q), Ulp(q));
  }

  lemma PositivePrice(price: Decimal)
    requires price.unscaled > 0
    ensures Value(price) > 0.0
  {
    RatLinear(0, price.unscaled, price.scale);
  }

  lemma OrderSize(cfg: Config, cash: Decimal, equity: Decimal, strength: real, ref: Decimal, o: Order)
    requires PlanBuy(cfg, cash, equity, strength, ref) == Some(o)
    ensures var budget := Budget(cfg, cash, equity, strength);
      budget.unscaled > 0 && o.quantity == Size(cfg, budget, o.price)
  {
  }

  lemma FreeNotional(price: Decimal, quantity: Decimal)
    requires InScale(price) && InScale(quantity) && price.unscaled == 0 && quantity.unscaled > 0
    ensures Notional(price, quantity).unscaled == 0
  {
    MulRefinesBig(price, quantity);
    TimesIsProduct(price.unscaled, quantity.unscaled);
    ZeroSettles(Mul(price, quantity), 0, price.scale + quantity.scale);
    DecimalMonotone.RescaleSign(Mul(price, quantity), CENTS);
    ZeroRescales(Mul(price, quantity));
  }

  lemma ZeroSettles(d: Decimal, v: int, s: nat)
    requires v == 0 && d == FromBig(v, s)
    ensures d.unscaled == 0
  {
    FromBigSign(v, s);
  }

  lemma ZeroRescales(d: Decimal)
    requires d.unscaled == 0 && InScale(d)
    ensures Rescale(d, CENTS).unscaled == 0
  {
    if d.scale > CENTS {
      DecimalMonotone.RescaleDown(d, CENTS);
      RoundDivSign(d.unscaled, Pow10(d.scale - CENTS));
    } else {
      DecimalMonotone.RescaleUp(d, CENTS);
      WidenNonZero(d.unscaled, CENTS - d.scale);
    }
  }

  // ---- exactly when a size stays within its budget ---------------------------------------------

  /** The size does not saturate, or what it stands for is MaxInt64 or more anyway (up to half a unit). */
  predicate SizeWithin(cfg: Config, budget: Decimal, price: Decimal) {
    if price.unscaled == 0 then true
    else PriceNonZero(price); SizeFits(cfg, budget, price) || 2.0 * Per(Value(budget), Value(price)) >= 2.0 * MAX_INT64 as real - 1.0
  }

  /** A size is more than half a unit too large if and only if it saturates on a smaller quotient. */
  lemma SizeExact(cfg: Config, budget: Decimal, price: Decimal)
    requires budget.unscaled > 0 && price.unscaled > 0 && Value(price) > 0.0
    ensures var size := Size(cfg, budget, price);
      2.0 * (Value(size) - Per(Value(budget), Value(price))) <= Ulp(size) <==> SizeWithin(cfg, budget, price)
    ensures !SizeFits(cfg, budget, price) ==> Size(cfg, budget, price).unscaled == MAX_INT64 && Size(cfg, budget, price).scale == 0
  {
    var q := Per(Value(budget), Value(price));
    PositivePrice(budget);
    PositiveQuotient(Value(budget), Value(price));
    if SizeFits(cfg, budget, price) {
      FromFloatError(q, cfg.quantityPrecision);
    } else {
      RaisedOrder(0.0, q, if cfg.quantityPrecision > MAX_SCALE then MAX_SCALE else cfg.quantityPrecision);
    }
  }

  lemma PositiveQuotient(x: real, y: real)
    requires x > 0.0 && y > 0.0
    ensures Per(x, y) > 0.0
  {
  }

  lemma ScaleUp(size: real, q: real, unit: real, price: real, budget: real)
    requires price > 0.0 && Part(q, price) == budget
    ensures 2.0 * (size - q) <= unit <==> 2.0 * (Part(price, size) - budget) <= Part(unit, price)
  {
    ScaleOrder(2.0 * (size - q), unit, price);
    assert 2.0 * (size - q) * price == 2.0 * (price * size - q * price);
  }

  /** What the order commits before rounding to cents is the budget plus at most half a quantity unit at the price. */
  ghost predicate Commits(budget: real, price: Decimal, quantity: Decimal) {
    2.0 * (Part(Value(price), Value(quantity)) - budget) <= Part(Ulp(quantity), Value(price))
  }

  lemma CommitsExactly(cfg: Config, budget: Decimal, price: Decimal, quantity: Decimal)
    requires budget.unscaled > 0 && price.unscaled >= 0 && quantity == Size(cfg, budget, price)
    ensures Commits(Value(budget), price, quantity) <==> SizeWithin(cfg, budget, price)
  {
    PositivePrice(budget);
    if price.unscaled == 0 {
      RatLinear(0, 0, price.scale);
      assert Part(Value(price), Value(quantity)) == 0.0 && Part(Ulp(quantity), Value(price)) == 0.0;
    } else {
      PositivePrice(price);
      SizeExact(cfg, budget, price);
      PerThenPart(Value(budget), Value(price));
      ScaleUp(Value(quantity), Per(Value(budget), Value(price)), Ulp(quantity), Value(price), Value(budget));
    }
  }

  lemma PerThenPart(x: real, y: real)
    requires y > 0.0
    ensures Part(Per(x, y), y) == x
  {
  }

  /** The notional exceeds the budget by roundings only: half a quantity unit at the price, the product's and half a cent. */
  ghost predicate WithinBudget(notional: real, budget: real, price: Decimal, quantity: Decimal) {
    notional - budget
      < Part(Ulp(quantity), Value(price)) / 2.0 + 5.0 * Ulp(Mul(price, quantity)) / 9.0 + HALF_CENT
  }

  lemma CommittedNotional(budget: real, price: Decimal, quantity: Decimal)
    requires InScale(price) && InScale(quantity) && price.unscaled >= 0 && quantity.unscaled > 0
    requires Notional(price, quantity).scale == CENTS && Commits(budget, price, quantity)
    ensures WithinBudget(Value(Notional(price, quantity)), budget, price, quantity)
  {
    CentsMeansUnsaturated(price, quantity);
    MulError(price, quantity);
    DecimalMonotone.RescaleError(Mul(price, quantity), CENTS);
    assert Rat(1, 2) == 0.01;
    OneSided(Value(Notional(price, quantity)), Value(Mul(price, quantity)), Part(Value(price), Value(quantity)), budget,
             Part(Ulp(quantity), Value(price)), Ulp(Mul(price, quantity)));
  }

  lemma OneSided(notional: real, product: real, exact: real, budget: real, unit: real, ulp: real)
    requires 2.0 * (exact - budget) <= unit && 9.0 * AbsReal(product - exact) < 5.0 * ulp && 2.0 * AbsReal(notional - product) <= 0.01
    ensures notional - budget < unit / 2.0 + 5.0 * ulp / 9.0 + HALF_CENT
  {
  }

  /** The risk limit, for every buy. The budget is the lesser of cash and the limit, with headroom for the fee. What is
      bought commits no more than that budget and half a unit if and only if the size does not saturate on a quotient
      below MaxInt64 (less half); then the notional exceeds the budget by roundings only, and where the size does not
      saturate it is not short of it by more either (at a price that rounds to zero it is nothing). */
  lemma PositionIsCapped(cfg: Config, cash: Decimal, equity: Decimal, strength: real, ref: Decimal, o: Order)
    requires FitsCents(cash) && ref.unscaled > 0 && PlanBuy(cfg, cash, equity, strength, ref) == Some(o)
    ensures var budget := Budget(cfg, cash, equity, strength);
      && IsBudget(Value(budget), Value(cash), Limit(cfg, equity, strength), 1.0 + cfg.feeRate)
      && (Commits(Value(budget), o.price, o.quantity) <==> SizeWithin(cfg, budget, o.price))
      && (SizeWithin(cfg, budget, o.price) ==> WithinBudget(Value(o.notional), Value(budget), o.price, o.quantity))
      && (SizeFits(cfg, budget, o.price) && o.price.unscaled > 0 ==> BoughtFor(Value(o.notional), Value(budget), o.price, o.quantity))
      && (o.price.unscaled == 0 ==> o.notional.unscaled == 0)
  {
    var budget := Budget(cfg, cash, equity, strength);
    OrderSize(cfg, cash, equity, strength, ref, o);
    PlanBuyPlanned(cfg, cash, equity, strength, ref, o);
    AffordableIsExact(cfg, cash, o);
    BudgetIsCapped(cfg, cash, equity, strength);
    CommitsExactly(cfg, budget, o.price, o.quantity);
    if SizeWithin(cfg, budget, o.price) {
      CommittedNotional(Value(budget), o.price, o.quantity);
    }
    if o.price.unscaled == 0 {
      FreeNotional(o.price, o.quantity);
    } else if SizeFits(cfg, budget, o.price) {
      SizeError(cfg, budget, o.price);
      NotionalError(Value(budget), o.price, o.quantity);
    }
  }

  // ---- a saturated size, at an input -----------------------------------------------------------

  /** 1000.00 in cash of which one position may take a thousandth, at the finest price precision. */
  const FINE := Config(Decimal(100000, 2), 0.0, 0.0, 0.001, 18, 8)

  lemma FineCap(cash: Decimal, one: Decimal)
    requires cash == Decimal(100000, 2) && one == Decimal(100, 2)
    ensures Value(cash) == 1000.0 && Value(one) == 1.0 && Capped(cash, 1.0) == one
  {
    FromFloatOfValue(one);
  }

  lemma FineBudget(cfg: Config, cash: Decimal, one: Decimal)
    requires cfg.feeRate == 0.0 && cfg.maxPositionFraction == 0.001 && cash == Decimal(100000, 2) && one == Decimal(100, 2)
    ensures Limit(cfg, cash, 1.0) == 1.0 && Budget(cfg, cash, cash, 1.0) == one
  {
    FineCap(cash, one);
    assert Part(1000.0, 0.001) == 1.0 && Part(1.0, 1.0) == 1.0;
    BudgetOf(cfg, cash, cash, 1.0);
    assert Per(1.0, 1.0) == 1.0;
    FromFloatOfValue(one);
  }

  lemma Reciprocal(v: real, x: real)
    requires v != 0.0 && x * v == 1.0
    ensures Per(1.0, v) == x
  {
  }

  lemma {:induction false} RaisedIsProduct(e: real, s: nat)
    ensures Raised(e, s) == Pow10(s) as real * e
  {
    if s > 0 {
      RaisedIsProduct(e, s - 1);
      assert Pow10(s) as real == 10.0 * Pow10(s - 1) as real;
      TenTimesProduct(Pow10(s - 1) as real, e);
    }
  }

  lemma RaisedFar(v: real)
    ensures Raised(v, 8) == 100000000.0 * v && Raised(v, 18) == 1000000000000000000.0 * v
  {
    RaisedIsProduct(v, 8);
    RaisedIsProduct(v, 18);
    Pow10At18();
    assert Pow10(8) == 100_000_000;
  }

  lemma FineSize(cfg: Config, budget: Decimal, price: Decimal)
    requires cfg.quantityPrecision == 8 && Value(budget) == 1.0 && price.unscaled == 1 && price.scale == 18
    ensures !SizeFits(cfg, budget, price) && !SizeWithin(cfg, budget, price)
    ensures Size(cfg, budget, price).unscaled == MAX_INT64 && Size(cfg, budget, price).scale == 0
  {
    var v := Value(price);
    RaisedOfRat(price.unscaled, price.scale);
    RaisedFar(v);
    PositivePrice(price);
    Reciprocal(v, 1000000000000000000.0);
    RaisedFar(1000000000000000000.0);
  }

  lemma FineNotional(price: Decimal, quantity: Decimal)
    requires price.unscaled == 1 && price.scale == 18 && quantity.unscaled == MAX_INT64 && quantity.scale == 0
    ensures Notional(price, quantity).unscaled == 922 && Notional(price, quantity).scale == 2
  {
    var v := Times(price.unscaled, quantity.unscaled);
    SettledProduct(price, quantity, v, 18);
    TimesIsProduct(price.unscaled, quantity.unscaled);
    FromBigOfFitting(v, 18);
    DecimalMonotone.RescaleDown(Mul(price, quantity), CENTS);
    SixteenDigits(v, ReduceScale(v, 16));
  }

  lemma SixteenDigits(v: int, r: int)
    requires v == MAX_INT64 && r == ReduceScale(v, 16)
    ensures r == 922
  {
    DecimalMonotone.HalfUp(v, 16);
    WidenIsProduct(r, 16);
    SixteenZeros();
  }

  lemma SixteenZeros()
    ensures Pow10(16) == 10_000_000_000_000_000
  {
    assert Pow10(8) == 100_000_000;
  }

  lemma FineOrder(cfg: Config, cash: Decimal, price: Decimal, quantity: Decimal) returns (o: Order)
    requires cfg.feeRate == 0.0 && cash == Decimal(100000, 2) && price.unscaled == 1 && price.scale == 18
    requires quantity.unscaled == MAX_INT64 && quantity.scale == 0
    ensures Affordable(cfg, cash, price, quantity) == Some(o) && o.notional == Decimal(922, 2)
  {
    FineNotional(price, quantity);
    var n, free := Notional(price, quantity), Decimal(0, 2);
    assert Part(Value(n), 0.0) == 0.0 == Value(free);
    FromFloatOfValue(free);
    AddExact(n, free);
    o := Affordable(cfg, cash, price, quantity).value;
  }

  lemma FinePrice(cfg: Config, ref: Decimal)
    requires cfg.slippageRate == 0.0 && cfg.pricePrecision == ref.scale && InScale(ref)
    ensures BuyPrice(cfg, ref) == ref
  {
    assert Part(Value(ref), 1.0) == Value(ref);
    FromFloatOfValue(ref);
  }

  /** At a price of 1e-18 the size saturates and the buy fills for 9.22 where the risk limit was 1.00: the affordability
      guard is all that stands behind a saturated size. */
  lemma SaturatedSizeBreaksLimit(cfg: Config, cash: Decimal, ref: Decimal) returns (o: Order)
    requires cfg == FINE && cash == cfg.startingCash && ref.unscaled == 1 && ref.scale == 18
    ensures PlanBuy(cfg, cash, cash, 1.0, ref) == Some(o) && o.notional == Decimal(922, 2) && Limit(cfg, cash, 1.0) == 1.0
    ensures !SizeWithin(cfg, Budget(cfg, cash, cash, 1.0), o.price)
  {
    var one := Decimal(100, 2);
    FineBudget(cfg, cash, one);
    FineCap(cash, one);
    FinePrice(cfg, ref);
    FineSize(cfg, one, ref);
    o := FineOrder(cfg, cash, ref, Size(cfg, one, ref));
  }
}

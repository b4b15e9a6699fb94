/** What saturation does to the paper account (internal/consumer/paper/paper.go), at an input: a sale that costs money and
    a run that ends with negative cash, at a fee rate of one and no slippage, and a basis that does not give back what
    was paid. */
module PaperSaturation {
  import opened Arith
  import opened Decimal
  import opened DecimalRounding
  import opened DecimalFloat
  import DecimalMonotone
  import opened Paper
  import opened PaperRoundTrip
  import opened PaperLedger
  import opened PaperTotals
  import opened PaperTrips

  const HUGE: int64 := 4_500_000_000_000_000_000

  /** A notional of 4.5e18 is charged a fee of MaxInt64. */
  lemma SaleCanCostMoney(cfg: Config, n: Decimal)
    requires cfg.feeRate == 1.0 && n.unscaled == HUGE && n.scale == 0
    ensures !FeeFits(cfg, n) && Sub(n, FeeOn(cfg, n)).unscaled < 0
  {
    assert Part(Value(n), 1.0) == Value(n);
    assert Raised(Value(n), 2) == 100.0 * Value(n);
    SaleCostsNothing(cfg, n);
  }

  lemma DropZero(x: int)
    ensures ReduceScale(10 * x, 1) == x
  {
    RoundDivIsNearest(10 * x, Pow10(1));
    assert Pow10(1) == 10;
  }

  /** 90 000 000 000 000 000.00 times 50.0 is 4.5e18, at scale 0. */
  lemma HugeProduct(price: Decimal, quantity: Decimal, x: int64)
    requires price.unscaled == 2 * x && price.scale == 2 && quantity.unscaled == 500 && quantity.scale == 1 && x == HUGE
    ensures Mul(price, quantity) == Decimal(x, 0)
  {
    MulRefinesBig(price, quantity);
    TimesIsProduct(price.unscaled, quantity.unscaled);
    DropZero(100 * x);
    DropZero(10 * x);
    DropZero(x);
    ThreeDigits(1000 * x, x);
  }

  lemma ThreeDigits(v: int, x: int64)
    requires v == 1000 * x && x == HUGE
    requires ReduceScale(v, 1) == 100 * x && ReduceScale(100 * x, 1) == 10 * x && ReduceScale(10 * x, 1) == x
    ensures FromBig(v, 3) == Decimal(x, 0)
  {
    var s := 3;
    assert Shrink(v, s) == Shrink(100 * x, s - 1);
    assert Shrink(100 * x, s - 1) == Shrink(10 * x, s - 2);
    assert Shrink(10 * x, s - 2) == Shrink(x, s - 3);
  }

  lemma HugeNotional(price: Decimal, quantity: Decimal, x: int64, n: Decimal)
    requires price.unscaled == 2 * x && price.scale == 2 && quantity.unscaled == 500 && quantity.scale == 1 && x == HUGE
    requires n == Notional(price, quantity)
    ensures n.unscaled == x && n.scale == 0
  {
    HugeProduct(price, quantity, x);
    WideStays(Mul(price, quantity));
  }

  lemma WideStays(d: Decimal)
    requires d.unscaled == HUGE && d.scale == 0
    ensures Rescale(d, CENTS) == d
  {
    DecimalMonotone.RescaleUp(d, CENTS);
    WidenUp(d.unscaled, 1, CENTS);
  }

  // ---- the run ---------------------------------------------------------------------------------

  /** 1.00 to start with, all of it allowed into one position, prices to cents and quantities to a tenth. */
  const SMALL := Config(Decimal(100, 2), 1.0, 0.0, 1.0, 2, 1)

  /** Without slippage a price at the configured precision is filled as it is. */
  lemma NoSlippage(cfg: Config, ref: Decimal)
    requires cfg.slippageRate == 0.0 && cfg.pricePrecision == ref.scale && InScale(ref)
    ensures BuyPrice(cfg, ref) == ref && SellPrice(cfg, ref) == ref
  {
    assert Part(Value(ref), 1.0) == Value(ref);
    FromFloatOfValue(ref);
  }

  lemma SmallBudget(cash: Decimal)
    requires cash == Decimal(100, 2)
    ensures Budget(SMALL, cash, cash, 1.0) == Decimal(50, 2)
  {
    assert Part(Part(Value(cash), 1.0), 1.0) == Value(cash);
    FromFloatOfValue(cash);
    assert Per(Value(cash), 2.0) == Value(Decimal(50, 2));
    FromFloatOfValue(Decimal(50, 2));
  }

  lemma SmallSize(budget: Decimal, price: Decimal)
    requires budget == Decimal(50, 2) && price == Decimal(1, 2)
    ensures Size(SMALL, budget, price) == Decimal(500, 1)
  {
    assert Value(budget) == 0.5 && Value(price) == 0.01;
    assert Per(0.5, 0.01) == 50.0 == Value(Decimal(500, 1));
    FromFloatOfValue(Decimal(500, 1));
  }

  lemma SmallOrder(cash: Decimal, price: Decimal, quantity: Decimal)
    requires cash == Decimal(100, 2) && price == Decimal(1, 2) && quantity.unscaled == 500 && quantity.scale == 1
    ensures Affordable(SMALL, cash, price, quantity).Some?
    ensures var o := Affordable(SMALL, cash, price, quantity).value; o.quantity == quantity && o.total == cash
  {
    SmallNotional(price, quantity);
    var n := Notional(price, quantity);
    assert Part(Value(n), 1.0) == Value(n);
    FromFloatOfValue(n);
    AddExact(n, n);
  }

  lemma SmallNotional(price: Decimal, quantity: Decimal)
    requires price == Decimal(1, 2) && quantity.unscaled == 500 && quantity.scale == 1
    ensures Notional(price, quantity) == Decimal(50, 2)
  {
    MulRefinesBig(price, quantity);
    TimesIsProduct(price.unscaled, quantity.unscaled);
    FromBigOfFitting(500, 3);
    DecimalMonotone.RescaleDown(Mul(price, quantity), CENTS);
    DropZero(50);
  }

  /** An empty cash balance and negative proceeds: cash goes negative. */
  lemma NothingPlusLoss(cash: Decimal, loss: Decimal)
    requires InScale(cash) && cash.unscaled == 0 && InScale(loss) && loss.unscaled < 0
    ensures Add(cash, loss).unscaled < 0
  {
    var m := MaxScaleOf(cash, loss);
    AddRefinesBig(cash, loss);
    WidenDown(loss.unscaled, 0, m - loss.scale);
    WidenNonZero(cash.unscaled, m - cash.scale);
    FromBigNonZero(ExactSum(cash, loss), m);
  }

  const ENTER := Signal("BTC", Buy, 1.0, "")
  const LEAVE := Signal("BTC", Sell, 1.0, "")

  lemma FlatEquity(b: Book)
    requires InScale(b.cash) && b.cash.scale == CENTS
    ensures Equity(b, []) == b.cash
  {
    var held := Rescale(ZERO, CENTS);
    DecimalMonotone.RescaleUp(ZERO, CENTS);
    WidenNonZero(0, CENTS);
    assert held == Decimal(0, CENTS);
    AddExact(b.cash, held);
  }

  lemma SmallPlan(b: Book, ref: Decimal) returns (o: Order)
    requires b == NewBook(SMALL) && ref == Decimal(1, 2)
    ensures PlanBuy(SMALL, b.cash, Equity(b, []), 1.0, ref) == Some(o)
    ensures o.quantity.unscaled == 500 && o.quantity.scale == 1 && o.total == b.cash
  {
    FlatEquity(b);
    NoSlippage(SMALL, ref);
    SmallBudget(b.cash);
    SmallSize(Decimal(50, 2), ref);
    SmallOrder(b.cash, ref, Decimal(500, 1));
    o := Affordable(SMALL, b.cash, ref, Decimal(500, 1)).value;
  }

  lemma SpendAll(cash: Decimal)
    requires InScale(cash) && cash.unscaled >= 0
    ensures Sub(cash, cash).unscaled == 0 && InScale(Sub(cash, cash))
  {
    NegAt(cash, cash.scale);
    AddExact(cash, Neg(cash));
  }

  lemma LosingExit(p: Position, ref: Decimal, x: int64)
    requires p.quantity.unscaled == 500 && p.quantity.scale == 1 && ref.unscaled == 2 * x && ref.scale == 2 && x == HUGE
    ensures PlanSell(SMALL, p, ref).proceeds.unscaled < 0 && InScale(PlanSell(SMALL, p, ref).proceeds)
  {
    NoSlippage(SMALL, ref);
    var n := Notional(ref, p.quantity);
    HugeNotional(ref, p.quantity, x, n);
    SaleCanCostMoney(SMALL, n);
    SubInScale(n, FeeOn(SMALL, n));
  }

  lemma EnterStep(cfg: Config, b: Book, sig: Signal, low: Decimal, o: Order, e: Event)
    requires b.positions == map[] && low.unscaled > 0 && sig.action == Buy
    requires PlanBuy(cfg, b.cash, Equity(b, []), sig.strength, low) == Some(o) && e == Trade(sig, low, 0, [])
    ensures Legal(b, e) && Step(cfg, b, e) == Bought(b, sig, o, 0)
  {
    assert DoBuy(cfg, b, sig, low, 0, []).0 == Bought(b, sig, o, 0);
  }

  lemma LeaveStep(cfg: Config, b: Book, sig: Signal, ref: Decimal, p: Position, e: Event)
    requires b.positions == map[sig.instrument := p] && ref.unscaled > 0 && sig.action == Sell
    requires e == Trade(sig, ref, 1, [sig.instrument])
    ensures Legal(b, e) && Step(cfg, b, e) == Sold(b, sig, p, PlanSell(cfg, p, ref), 1)
  {
    SellOf(cfg, b, sig, ref, 1, p);
  }

  lemma BoughtOne(b: Book, o: Order)
    requires b.positions == map[]
    ensures var b' := Bought(b, ENTER, o, 0);
      b'.positions == map["BTC" := Position(o.quantity, o.basis, 0)] && b'.cash == Sub(b.cash, o.total)
  {
  }

  lemma TwoSteps(cfg: Config, b0: Book, b1: Book, b2: Book, e0: Event, e1: Event)
    requires b0 == NewBook(cfg) && e0.Trade? && e1.Trade?
    requires Legal(b0, e0) && b1 == Step(cfg, b0, e0) && Legal(b1, e1) && b2 == Step(cfg, b1, e1)
    ensures IsRun(cfg, [b0, b1, b2], [e0, e1])
  {
    var run, events := [b0, b1, b2], [e0, e1];
    forall i | 0 <= i < |events|
      ensures Follows(cfg, run, events[i], i)
    {
      assert i == 0 || i == 1;
    }
  }

  /** A buy that takes the whole balance and a sale that costs money. */
  lemma RunOfLoss(cfg: Config, b0: Book, o: Order, low: Decimal, high: Decimal, e0: Event, e1: Event) returns (b1: Book, b2: Book)
    requires b0 == NewBook(cfg) && InScale(b0.cash) && b0.cash.unscaled >= 0 && low.unscaled > 0 && high.unscaled > 0
    requires PlanBuy(cfg, b0.cash, Equity(b0, []), 1.0, low) == Some(o) && o.total == b0.cash
    requires var x := PlanSell(cfg, Position(o.quantity, o.basis, 0), high); x.proceeds.unscaled < 0 && InScale(x.proceeds)
    requires e0 == Trade(ENTER, low, 0, []) && e1 == Trade(LEAVE, high, 1, ["BTC"])
    ensures IsRun(cfg, [b0, b1, b2], [e0, e1]) && b2.cash.unscaled < 0
  {
    var p := Position(o.quantity, o.basis, 0);
    b1 := Bought(b0, ENTER, o, 0);
    b2 := Sold(b1, LEAVE, p, PlanSell(cfg, p, high), 1);
    EnterStep(cfg, b0, ENTER, low, o, e0);
    BoughtOne(b0, o);
    LeaveStep(cfg, b1, LEAVE, high, p, e1);
    SpendAll(b0.cash);
    NothingPlusLoss(b1.cash, PlanSell(cfg, p, high).proceeds);
    TwoSteps(cfg, b0, b1, b2, e0, e1);
  }

  /** Buying 50 at 0.01 for the whole balance and selling them at 9e16: the fee saturates above the notional and the run
      ends with negative cash. */
  lemma CashCanGoNegative(cfg: Config, low: Decimal, high: Decimal) returns (run: seq<Book>, events: seq<Event>)
    requires cfg == SMALL && low == Decimal(1, 2) && high.unscaled == 2 * HUGE && high.scale == 2
    ensures events == [Trade(ENTER, low, 0, []), Trade(LEAVE, high, 1, ["BTC"])]
    ensures IsRun(cfg, run, events) && |run| == 3 && run[2].cash.unscaled < 0
  {
    var b0, e0, e1 := NewBook(cfg), Trade(ENTER, low, 0, []), Trade(LEAVE, high, 1, ["BTC"]);
    var o := SmallPlan(b0, low);
    LosingExit(Position(o.quantity, o.basis, 0), high, high.unscaled - HUGE);
    var b1, b2 := RunOfLoss(cfg, b0, o, low, high, e0, e1);
    run, events := [b0, b1, b2], [e0, e1];
  }

  // ---- a saturated basis -----------------------------------------------------------------------

  /** 99 billion to start with, a fee rate of a tenth, eight places for prices and quantities. */
  const RICH := Config(Decimal(9_900_000_000_000, 2), 0.1, 0.0, 1.0, 8, 8)

  /** Dropping zeros that were appended gives the mantissa back. */
  lemma DropZeros(x: int, k: nat)
    ensures ReduceScale(Widen(x, k), k) == x
  {
    var r := ReduceScale(Widen(x, k), k);
    RoundDivIsNearest(Widen(x, k), Pow10(k));
    WidenIsProduct(x, k);
    OnlyMultiple(r, x, Pow10(k));
  }

  lemma OnlyMultiple(r: int, x: int, den: int)
    requires den >= 1 && 2 * Abs(x * den - r * den) <= den
    ensures r == x
  {
    if r < x {
      MulStep(r, x, den);
    } else if x < r {
      MulStep(x, r, den);
    }
  }

  /** The digit-dropping loop drops appended zeros down to the longest mantissa that fits. */
  lemma {:induction false} ShrinkZeros(x: int64, k: nat, s: nat)
    requires x >= 0 && 10 * x > MAX_INT64
    ensures Shrink(Widen(x, k), s + k) == (x, s)
    decreases k
  {
    if k > 0 {
      WidenUp(x, 1, k);
      DropZero(Widen(x, k - 1));
      ShrinkZeros(x, k - 1, s);
    }
  }

  lemma RichProduct(price: Decimal, quantity: Decimal, x: int64)
    requires x == 9_000_000_000_000_000_000 && price.unscaled == x && price.scale == 8
    requires quantity.unscaled == 100_000_000 && quantity.scale == 8
    ensures Mul(price, quantity) == price
  {
    var k := 8;
    MulRefinesBig(price, quantity);
    TimesIsProduct(price.unscaled, quantity.unscaled);
    WidenIsProduct(x, k);
    assert Pow10(8) == 100_000_000;
    ShrinkZeros(x, k, 8);
    SettledAt(Times(price.unscaled, quantity.unscaled), 16, x, 8);
  }

  lemma SettledAt(v: int, s: nat, x: int64, t: nat)
    requires s <= MAX_SCALE && t <= s && Shrink(v, s) == (x as int, t)
    ensures FromBig(v, s) == Decimal(x, t)
  {
  }

  lemma RichNotional(price: Decimal, quantity: Decimal, x: int64, c: int64)
    requires x == 9_000_000_000_000_000_000 && price.unscaled == x && price.scale == 8 && c == 9_000_000_000_000
    requires quantity.unscaled == 100_000_000 && quantity.scale == 8
    ensures Notional(price, quantity).unscaled == c && Notional(price, quantity).scale == 2
  {
    RichProduct(price, quantity, x);
    SixZeros();
    SixPlaces(price, c, 6);
  }

  lemma SixZeros()
    ensures Pow10(6) == 1_000_000
  {
  }

  lemma SixPlaces(d: Decimal, c: int64, k: nat)
    requires k == 6 && d.scale == CENTS + k && d.unscaled == c * Pow10(k)
    ensures Rescale(d, CENTS) == Decimal(c, CENTS)
  {
    DecimalMonotone.RescaleDown(d, CENTS);
    WidenIsProduct(c, k);
    DropZeros(c, k);
  }

  lemma RichBudget(cfg: Config, cash: Decimal, budget: Decimal)
    requires cfg.feeRate == 0.1 && cfg.maxPositionFraction == 1.0 && Value(cash) == 99_000_000_000.0 && cash.scale == 2
    requires Value(budget) == 90_000_000_000.0 && budget.scale == 2
    ensures Budget(cfg, cash, cash, 1.0) == budget
  {
    assert Part(Part(Value(cash), 1.0), 1.0) == Value(cash);
    FromFloatOfValue(cash);
    assert Per(99_000_000_000.0, 1.1) == 90_000_000_000.0;
    FromFloatOfValue(budget);
  }

  lemma RichSize(cfg: Config, budget: Decimal, price: Decimal, one: Decimal)
    requires cfg.quantityPrecision == 8 && one.scale == 8 && Value(one) == 1.0
    requires Value(budget) == 90_000_000_000.0 && Value(price) == 90_000_000_000.0 && price.unscaled != 0
    ensures Size(cfg, budget, price) == one
  {
    assert Per(90_000_000_000.0, 90_000_000_000.0) == 1.0;
    FromFloatOfValue(one);
  }

  lemma RichBasis(cfg: Config, total: Decimal, one: Decimal)
    requires cfg.pricePrecision == 8 && Value(one) == 1.0 && one.unscaled > 0 && Value(total) == 99_000_000_000.0
    ensures Basis(cfg, total, one).unscaled == MAX_INT64 && Basis(cfg, total, one).scale == 0
    ensures !BasisWithin(cfg, total, one)
  {
    var e := 99_000_000_000.0;
    assert Per(e, 1.0) == e;
    assert Raised(e, 4) == 990_000_000_000_000.0;
    assert Raised(e, 8) == 9_900_000_000_000_000_000.0;
  }

  lemma RichOrder(cfg: Config, cash: Decimal, price: Decimal, one: Decimal, fee: Decimal) returns (o: Order)
    requires cfg.feeRate == 0.1 && cfg.pricePrecision == 8 && cash.unscaled == 9_900_000_000_000 && cash.scale == 2
    requires price.unscaled == 9_000_000_000_000_000_000 && price.scale == 8
    requires one.unscaled == 100_000_000 && one.scale == 8 && Value(one) == 1.0
    requires fee.unscaled == 900_000_000_000 && fee.scale == 2
    ensures Affordable(cfg, cash, price, one) == Some(o) && o.total == cash && o.quantity == one
    ensures o.basis.unscaled == MAX_INT64 && o.basis.scale == 0 && !BasisWithin(cfg, o.total, o.quantity)
  {
    var n := Notional(price, one);
    RichNotional(price, one, price.unscaled, 9_000_000_000_000);
    CentsAsReal(n);
    CentsAsReal(fee);
    CentsAsReal(cash);
    assert Part(90_000_000_000.0, 0.1) == 9_000_000_000.0;
    FromFloatOfValue(fee);
    AddExact(n, fee);
    RichBasis(cfg, cash, one);
    o := Affordable(cfg, cash, price, one).value;
  }

  lemma CentsAsReal(d: Decimal)
    requires d.scale == 2
    ensures Value(d) == d.unscaled as real / 100.0
  {
    assert Rat(d.unscaled, 1) == d.unscaled as real / 10.0;
  }

  lemma UnitAsReal(one: Decimal, price: Decimal)
    requires one.unscaled == 100_000_000 && one.scale == 8 && price.unscaled == 9_000_000_000_000_000_000 && price.scale == 8
    ensures Value(one) == 1.0 && Value(price) == 90_000_000_000.0
  {
    EightZeros();
    WholeUnits(one, 1, 8);
    WholeUnits(price, 90_000_000_000, 8);
  }

  lemma EightZeros()
    ensures Pow10(8) == 100_000_000
  {
  }

  lemma WholeUnits(d: Decimal, n: int, k: nat)
    requires d.scale == k && d.unscaled == n * Pow10(k)
    ensures Value(d) == n as real
  {
    WidenIsProduct(n, k);
    RatWiden(n, 0, k);
  }

  /** Buying 1 at 9e10 with a fee of a tenth: 9.9e10 per unit does not fit eight places in an int64, so the basis recorded
      is MaxInt64 and does not give back what was paid. */
  lemma BasisCanSaturate(cfg: Config, cash: Decimal, ref: Decimal) returns (o: Order)
    requires cfg == RICH && cash.unscaled == 9_900_000_000_000 && cash.scale == 2
    requires ref.unscaled == 9_000_000_000_000_000_000 && ref.scale == 8
    ensures PlanBuy(cfg, cash, cash, 1.0, ref) == Some(o) && o.total == cash
    ensures o.basis.unscaled == MAX_INT64 && o.basis.scale == 0
    ensures o.quantity.unscaled > 0 && !BasisWithin(cfg, o.total, o.quantity)
  {
    var budget, one, fee := Decimal(9_000_000_000_000, 2), Decimal(100_000_000, 8), Decimal(900_000_000_000, 2);
    CentsAsReal(cash);
    CentsAsReal(budget);
    UnitAsReal(one, ref);
    NoSlippage(cfg, ref);
    RichBudget(cfg, cash, budget);
    RichSize(cfg, budget, ref, one);
    o := RichOrder(cfg, cash, ref, one, fee);
  }
}

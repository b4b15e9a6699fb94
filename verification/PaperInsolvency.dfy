/** What negative equity does to the drawdown figure (internal/consumer/paper/paper.go, Mark), at an input: a run whose
    worths are 100, 200 and -100. */
module PaperInsolvency {
  import opened Arith
  import opened Decimal
  import opened DecimalRounding
  import opened DecimalFloat
  import DecimalMonotone
  import opened Market
  import opened Paper
  import opened PaperRoundTrip
  import opened PaperLedger
  import opened PaperDrawdown
  import opened PaperSaturation

  /** 100.00 to start with, no fee, no slippage, all of it allowed into one position. */
  const PLAIN := Config(Decimal(10000, 2), 0.0, 0.0, 1.0, 2, 1)

  ghost predicate IsHundred(quantity: Decimal) {
    quantity.unscaled == 1000 && quantity.scale == 1
  }

  /** 100.0 units at a price in cents. */
  lemma HundredAt(price: Decimal, quantity: Decimal)
    requires price.scale == 2 && -1000 <= price.unscaled <= 1000 && IsHundred(quantity)
    ensures Notional(price, quantity) == Decimal(100 * price.unscaled, 2)
  {
    var v := Times(price.unscaled, quantity.unscaled);
    MulRefinesBig(price, quantity);
    TimesIsProduct(price.unscaled, quantity.unscaled);
    FromBigOfFitting(v, 3);
    DecimalMonotone.RescaleDown(Mul(price, quantity), CENTS);
    DropZero(100 * price.unscaled);
  }

  lemma PlainBudget(cfg: Config, cash: Decimal)
    requires cfg.feeRate == 0.0 && cfg.maxPositionFraction == 1.0 && cash == Decimal(10000, 2)
    ensures Budget(cfg, cash, cash, 1.0) == cash
  {
    assert Part(Part(Value(cash), 1.0), 1.0) == Value(cash);
    FromFloatOfValue(cash);
    assert Per(Value(cash), 1.0) == Value(cash);
  }

  lemma PlainSize(cfg: Config, budget: Decimal, price: Decimal, hundred: Decimal)
    requires cfg.quantityPrecision == 1 && budget == Decimal(10000, 2) && price == Decimal(100, 2) && IsHundred(hundred)
    ensures Size(cfg, budget, price) == hundred
  {
    assert Value(budget) == 100.0 && Value(price) == 1.0 && Per(100.0, 1.0) == 100.0 == Value(hundred);
    FromFloatOfValue(hundred);
  }

  lemma PlainOrder(cfg: Config, cash: Decimal, price: Decimal, quantity: Decimal)
    requires cfg.feeRate == 0.0 && cash == Decimal(10000, 2) && price == Decimal(100, 2) && IsHundred(quantity)
    ensures Affordable(cfg, cash, price, quantity).Some?
    ensures var o := Affordable(cfg, cash, price, quantity).value; o.quantity == quantity && o.total == cash
  {
    HundredAt(price, quantity);
    var n, free := Notional(price, quantity), Decimal(0, 2);
    assert Part(Value(n), 0.0) == 0.0 == Value(free);
    FromFloatOfValue(free);
    AddExact(n, free);
  }

  lemma PlainPlan(cfg: Config, b: Book, ref: Decimal) returns (o: Order)
    requires cfg == PLAIN && b == NewBook(cfg) && ref == Decimal(100, 2)
    ensures PlanBuy(cfg, b.cash, Equity(b, []), 1.0, ref) == Some(o) && IsHundred(o.quantity) && o.total == b.cash
  {
    var hundred := Decimal(1000, 1);
    FlatEquity(b);
    NoSlippage(cfg, ref);
    PlainBudget(cfg, b.cash);
    PlainSize(cfg, b.cash, ref, hundred);
    PlainOrder(cfg, b.cash, ref, hundred);
    o := Affordable(cfg, b.cash, ref, hundred).value;
  }

  lemma SpendExactly(cash: Decimal)
    requires cash.scale == CENTS && cash.unscaled >= 0
    ensures Sub(cash, cash) == Decimal(0, CENTS)
  {
    NegAt(cash, CENTS);
    AddExact(cash, Neg(cash));
  }

  /** With nothing but one marked position, equity is that position's worth. */
  lemma OneHeld(b: Book, id: InstrumentID, p: Position, prices: map<InstrumentID, Decimal>, v: int64)
    requires b.positions == map[id := p] && b.cash == Decimal(0, CENTS) && id in prices
    requires Notional(prices[id], p.quantity) == Decimal(v, CENTS)
    ensures MarkedEquity(b, prices, [id]) == Decimal(v, CENTS)
  {
    var m, w := b.(lastPrices := prices), Decimal(v, CENTS);
    assert Worth(m, id) == w;
    assert [id][..0] == [];
    WidenNonZero(0, CENTS);
    AddExact(ZERO, w);
    assert SumWorth(m, [id]) == w;
    AddExact(b.cash, w);
  }

  /** Up to 200.00 and down to -100.00. */
  lemma UpAndDown(b: Book, up: Decimal, down: Decimal)
    requires b.peakEquity == Decimal(10000, 2) && b.maxDrawdown == 0.0 && up == Decimal(20000, 2) && down == Decimal(-10000, 2)
    ensures var m := Watermark(b, up); m.peakEquity == up && m.maxDrawdown == 0.0
    ensures forall m: Book :: m.peakEquity == up && m.maxDrawdown == 0.0 ==> Watermark(m, down).maxDrawdown == 150.0
  {
    assert Value(up) == 200.0 && Value(down) == -100.0;
    assert Drawdown(200.0, 200.0) == 0.0 && Drawdown(200.0, -100.0) == 150.0;
  }

  // ---- the run ---------------------------------------------------------------------------------

  lemma MarkStep(cfg: Config, b: Book, id: InstrumentID, prices: map<InstrumentID, Decimal>, e: Event)
    requires b.positions.Keys == {id} && e == MarkTo(prices, [id])
    ensures Legal(b, e)
    ensures Step(cfg, b, e) == Watermark(b.(lastPrices := prices), MarkedEquity(b, prices, [id]))
  {
  }

  ghost predicate Chain(cfg: Config, b0: Book, b1: Book, b2: Book, b3: Book, e0: Event, e1: Event, e2: Event) {
    && b0 == NewBook(cfg) && e0.Trade? && e1.MarkTo? && e2.MarkTo?
    && Legal(b0, e0) && b1 == Step(cfg, b0, e0)
    && Legal(b1, e1) && b2 == Step(cfg, b1, e1)
    && Legal(b2, e2) && b3 == Step(cfg, b2, e2)
  }

  lemma ChainIsRun(cfg: Config, b0: Book, b1: Book, b2: Book, b3: Book, e0: Event, e1: Event, e2: Event)
    requires Chain(cfg, b0, b1, b2, b3, e0, e1, e2)
    ensures IsRun(cfg, [b0, b1, b2, b3], [e0, e1, e2])
  {
    var run, events := [b0, b1, b2, b3], [e0, e1, e2];
    forall i | 0 <= i < |events|
      ensures Follows(cfg, run, events[i], i)
    {
      assert i == 0 || i == 1 || i == 2;
    }
  }

  lemma WorthsOfChain(cfg: Config, run: seq<Book>, events: seq<Event>)
    requires IsRun(cfg, run, events) && |events| == 3 && events[0].Trade? && events[1].MarkTo? && events[2].MarkTo?
    ensures Legal(run[1], events[1]) && Legal(run[2], events[2])
    ensures Worths(cfg, run, events, 3) == [cfg.startingCash, MarkedEquity(run[1], events[1].prices, events[1].order),
                                            MarkedEquity(run[2], events[2].prices, events[2].order)]
  {
    assert Follows(cfg, run, events[0], 0) && Follows(cfg, run, events[1], 1) && Follows(cfg, run, events[2], 2);
    assert Worths(cfg, run, events, 0) == [cfg.startingCash];
    assert Worths(cfg, run, events, 1) == Worths(cfg, run, events, 0);
    assert Worths(cfg, run, events, 2) == Worths(cfg, run, events, 1) + [MarkedEquity(run[1], events[1].prices, events[1].order)];
  }

  /** The book after the buy, and after each of the two marks. */
  lemma MarkBoth(cfg: Config, b1: Book, p: Position, up: Decimal, down: Decimal, e1: Event, e2: Event) returns (b2: Book, b3: Book)
    requires b1.positions == map["BTC" := p] && b1.cash == Decimal(0, CENTS) && IsHundred(p.quantity)
    requires b1.peakEquity == Decimal(10000, 2) && b1.maxDrawdown == 0.0
    requires up == Decimal(200, 2) && down == Decimal(-100, 2)
    requires e1 == MarkTo(map["BTC" := up], ["BTC"]) && e2 == MarkTo(map["BTC" := down], ["BTC"])
    ensures Legal(b1, e1) && b2 == Step(cfg, b1, e1) && Legal(b2, e2) && b3 == Step(cfg, b2, e2)
    ensures MarkedEquity(b1, e1.prices, e1.order) == Decimal(20000, 2)
    ensures MarkedEquity(b2, e2.prices, e2.order) == Decimal(-10000, 2)
    ensures b3.maxDrawdown == 150.0
  {
    var high, low := Decimal(20000, 2), Decimal(-10000, 2);
    HundredAt(up, p.quantity);
    HundredAt(down, p.quantity);
    MarkStep(cfg, b1, "BTC", e1.prices, e1);
    OneHeld(b1, "BTC", p, e1.prices, 20000);
    UpAndDown(b1.(lastPrices := e1.prices), high, low);
    b2 := Step(cfg, b1, e1);
    MarkStep(cfg, b2, "BTC", e2.prices, e2);
    OneHeld(b2, "BTC", p, e2.prices, -10000);
    b3 := Step(cfg, b2, e2);
  }

  /** The book after the buy. */
  lemma AfterBuy(cfg: Config, b0: Book, ref: Decimal, e0: Event) returns (b1: Book, p: Position)
    requires cfg == PLAIN && b0 == NewBook(cfg) && ref == Decimal(100, 2) && e0 == Trade(ENTER, ref, 0, [])
    ensures Legal(b0, e0) && b1 == Step(cfg, b0, e0)
    ensures b1.positions == map["BTC" := p] && b1.cash == Decimal(0, CENTS) && IsHundred(p.quantity)
    ensures b1.peakEquity == b0.peakEquity && b1.maxDrawdown == b0.maxDrawdown
  {
    var o := PlainPlan(cfg, b0, ref);
    p := Position(o.quantity, o.basis, 0);
    b1 := Bought(b0, ENTER, o, 0);
    EnterStep(cfg, b0, ENTER, ref, o, e0);
    BoughtOne(b0, o);
    SpendExactly(b0.cash);
  }

  /** Marked up and down after the buy: the run, its worths and its figure. */
  lemma MarkedRun(cfg: Config, b0: Book, b1: Book, p: Position, e0: Event, up: Decimal, down: Decimal, e1: Event, e2: Event)
    returns (run: seq<Book>)
    requires b0 == NewBook(cfg) && e0.Trade? && Legal(b0, e0) && b1 == Step(cfg, b0, e0)
    requires b1.positions == map["BTC" := p] && b1.cash == Decimal(0, CENTS) && IsHundred(p.quantity)
    requires b1.peakEquity == Decimal(10000, 2) && b1.maxDrawdown == 0.0
    requires up == Decimal(200, 2) && down == Decimal(-100, 2)
    requires e1 == MarkTo(map["BTC" := up], ["BTC"]) && e2 == MarkTo(map["BTC" := down], ["BTC"])
    ensures |run| == 4 && IsRun(cfg, run, [e0, e1, e2]) && run[3].maxDrawdown == 150.0
    ensures Worths(cfg, run, [e0, e1, e2], 3) == [cfg.startingCash, Decimal(20000, 2), Decimal(-10000, 2)]
  {
    var b2, b3 := MarkBoth(cfg, b1, p, up, down, e1, e2);
    run := [b0, b1, b2, b3];
    ChainIsRun(cfg, b0, b1, b2, b3, e0, e1, e2);
    WorthsOfChain(cfg, run, [e0, e1, e2]);
  }

  /** Buying 100 at 1.00 with all of 100.00, then a mark at 2.00 and one at -1.00: the worths are 100, 200 and -100, the
      figure is 150 percent, of the peak, and the fall from the start is 200. */
  lemma NegativeEquityUnderstates(cfg: Config, ref: Decimal, up: Decimal, down: Decimal) returns (run: seq<Book>, events: seq<Event>)
    requires cfg == PLAIN && ref == Decimal(100, 2) && up == Decimal(200, 2) && down == Decimal(-100, 2)
    ensures events == [Trade(ENTER, ref, 0, []), MarkTo(map["BTC" := up], ["BTC"]), MarkTo(map["BTC" := down], ["BTC"])]
    ensures IsRun(cfg, run, events) && |run| == 4
    ensures Worths(cfg, run, events, 3) == [Decimal(10000, 2), Decimal(20000, 2), Decimal(-10000, 2)]
    ensures run[3].maxDrawdown == 150.0 && Pair(Worths(cfg, run, events, 3), 0, 2) && Fall(Worths(cfg, run, events, 3), 0, 2) == 200.0
  {
    var b0, e0 := NewBook(cfg), Trade(ENTER, ref, 0, []);
    var e1, e2 := MarkTo(map["BTC" := up], ["BTC"]), MarkTo(map["BTC" := down], ["BTC"]);
    var b1, p := AfterBuy(cfg, b0, ref, e0);
    run := MarkedRun(cfg, b0, b1, p, e0, up, down, e1, e2);
    events := [e0, e1, e2];
    TwoHundred(Worths(cfg, run, events, 3));
  }

  lemma TwoHundred(w: seq<Decimal>)
    requires w == [Decimal(10000, 2), Decimal(20000, 2), Decimal(-10000, 2)]
    ensures Pair(w, 0, 2) && Fall(w, 0, 2) == 200.0
  {
    assert Value(w[0]) == 100.0 && Value(w[2]) == -100.0;
    assert Drawdown(100.0, -100.0) == 200.0;
  }
}

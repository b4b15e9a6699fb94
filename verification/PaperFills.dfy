/** What a fill is (internal/consumer/paper/paper.go, buy and sell), in terms of the reference price and the configured
    rates alone, and when a trade fills. */
module PaperFills {
  import opened Arith
  import opened Decimal
  import opened DecimalRounding
  import opened DecimalFloat
  import opened Market
  import opened Paper
  import opened PaperRestart
  import opened PaperRoundTrip
  import opened PaperLedger
  import DecimalMonotone
  import opened PaperSizing

  // ---- the price, the notional and the fee -----------------------------------------------------

  /** d is x rounded to `scale` (18 at most) places: within half a unit. */
  ghost predicate RoundedTo(d: Decimal, x: real, scale: uint8) {
    d.scale == (if scale > MAX_SCALE then MAX_SCALE else scale) && HalfUlp(d, x)
  }

  /** The price a trade crosses the spread to: above the reference when buying, below it when selling. */
  function Crossed(ref: Decimal, slippage: real, side: Action): real {
    if side == Buy then Value(ref) * (1.0 + slippage) else Value(ref) * (1.0 - slippage)
  }

  /** The notional is price times quantity, to the product's rounding and half a cent. */
  ghost predicate PricedAt(notional: Decimal, price: Decimal, quantity: Decimal) {
    AbsReal(Value(notional) - Value(price) * Value(quantity)) < 5.0 * Ulp(Mul(price, quantity)) / 9.0 + Rat(1, CENTS) / 2.0
  }

  /** Each of the terms holds unless its float or product does not fit an int64. */
  ghost predicate FairPrice(cfg: Config, ref: Decimal, side: Action, price: Decimal) {
    var x := Crossed(ref, cfg.slippageRate, side);
    Representable(x, cfg.pricePrecision) ==> RoundedTo(price, x, cfg.pricePrecision)
  }

  ghost predicate FairFee(cfg: Config, notional: Decimal, fee: Decimal) {
    var x := Value(notional) * cfg.feeRate;
    Representable(x, CENTS) ==> RoundedTo(fee, x, CENTS)
  }

  ghost predicate FairNotional(notional: Decimal, price: Decimal, quantity: Decimal) {
    !Saturates(Times(price.unscaled, quantity.unscaled), price.scale + quantity.scale) ==> PricedAt(notional, price, quantity)
  }

  /** The terms of a fill made against a reference price. */
  ghost predicate Fair(cfg: Config, ref: Decimal, f: Fill) {
    && FairPrice(cfg, ref, f.side, f.price)
    && FairNotional(f.notional, f.price, f.quantity)
    && FairFee(cfg, f.notional, f.fee)
  }

  lemma RateRounds(x: real, scale: uint8)
    requires Representable(x, scale)
    ensures RoundedTo(FromFloat(x, scale), x, scale)
  {
    FromFloatError(x, scale);
  }

  lemma BuyPriceIsFair(cfg: Config, ref: Decimal)
    ensures FairPrice(cfg, ref, Buy, BuyPrice(cfg, ref))
  {
    var x := Crossed(ref, cfg.slippageRate, Buy);
    assert Part(Value(ref), 1.0 + cfg.slippageRate) == x;
    if Representable(x, cfg.pricePrecision) {
      RateRounds(x, cfg.pricePrecision);
    }
  }

  lemma SellPriceIsFair(cfg: Config, ref: Decimal)
    ensures FairPrice(cfg, ref, Sell, SellPrice(cfg, ref))
  {
    var x := Crossed(ref, cfg.slippageRate, Sell);
    assert Part(Value(ref), 1.0 - cfg.slippageRate) == x;
    if Representable(x, cfg.pricePrecision) {
      RateRounds(x, cfg.pricePrecision);
    }
  }

  lemma FeeIsFair(cfg: Config, n: Decimal)
    ensures FairFee(cfg, n, FeeOn(cfg, n))
  {
    var x := Value(n) * cfg.feeRate;
    assert Part(Value(n), cfg.feeRate) == x;
    if Representable(x, CENTS) {
      RateRounds(x, CENTS);
    }
  }

  lemma NotionalIsFair(price: Decimal, quantity: Decimal)
    requires InScale(price) && InScale(quantity) && quantity.unscaled > 0
    ensures FairNotional(Notional(price, quantity), price, quantity)
  {
    if !Saturates(Times(price.unscaled, quantity.unscaled), price.scale + quantity.scale) {
      MulError(price, quantity);
      DecimalMonotone.RescaleError(Mul(price, quantity), CENTS);
      TwoRoundings(Value(Notional(price, quantity)), Value(Mul(price, quantity)), Value(price) * Value(quantity),
                   Ulp(Mul(price, quantity)), Rat(1, CENTS));
    }
  }

  lemma TwoRoundings(n: real, product: real, exact: real, ulp: real, cent: real)
    requires 9.0 * AbsReal(product - exact) < 5.0 * ulp && 2.0 * AbsReal(n - product) <= cent
    ensures AbsReal(n - exact) < 5.0 * ulp / 9.0 + cent / 2.0
  {
  }

  lemma CostedIsFair(cfg: Config, ref: Decimal, f: Fill)
    requires Costed(cfg, f) && (f.side == Buy || f.side == Sell)
    requires f.price == if f.side == Buy then BuyPrice(cfg, ref) else SellPrice(cfg, ref)
    ensures Fair(cfg, ref, f)
  {
    BuyPriceIsFair(cfg, ref);
    SellPriceIsFair(cfg, ref);
    NotionalIsFair(f.price, f.quantity);
    FeeIsFair(cfg, f.notional);
  }

  // ---- every fill of every run -----------------------------------------------------------------

  /** The fill is what the event asked for, on fair terms. */
  ghost predicate MadeBy(cfg: Config, e: Event, f: Fill) {
    && e.Trade? && e.ref.unscaled > 0
    && (f.side == Buy || f.side == Sell) && f.side == e.sig.action
    && f.instrument == e.sig.instrument && f.time == e.now && f.reason == e.sig.reason
    && Fair(cfg, e.ref, f)
  }

  /** The trade left the book as it was, or added one fill of its own making. */
  ghost predicate Adds(cfg: Config, b: Book, e: Event, b': Book) {
    b' == b || (|b'.fills| == |b.fills| + 1 && b'.fills[..|b.fills|] == b.fills && MadeBy(cfg, e, b'.fills[|b.fills|]))
  }

  lemma BuyAdds(cfg: Config, b: Book, e: Event)
    requires e.Trade? && e.ref.unscaled > 0 && e.sig.action == Buy && forall id :: id in e.order ==> id in b.positions
    ensures Adds(cfg, b, e, DoBuy(cfg, b, e.sig, e.ref, e.now, e.order).0)
  {
    var plan := PlanBuy(cfg, b.cash, Equity(b, e.order), e.sig.strength, e.ref);
    if e.sig.instrument !in b.positions && plan.Some? {
      var o := plan.value;
      var f := BuyFill(e.sig, o, e.now);
      PlanBuyPlanned(cfg, b.cash, Equity(b, e.order), e.sig.strength, e.ref, o);
      OrderOf(cfg, b.cash, Equity(b, e.order), e.sig.strength, e.ref, o);
      BuyEnters(cfg, b.cash, e.sig, o, e.now);
      CostedIsFair(cfg, e.ref, f);
      AddsOne(cfg, b, e, Bought(b, e.sig, o, e.now), f);
    }
  }

  lemma AddsOne(cfg: Config, b: Book, e: Event, b': Book, f: Fill)
    requires b'.fills == b.fills + [f] && MadeBy(cfg, e, f)
    ensures Adds(cfg, b, e, b')
  {
  }

  lemma SellAdds(cfg: Config, b: Book, e: Event, p: Position)
    requires Sound(cfg, b) && e.Trade? && e.ref.unscaled > 0 && e.sig.action == Sell
    requires e.sig.instrument in b.positions && p == b.positions[e.sig.instrument]
    ensures Adds(cfg, b, e, Sold(b, e.sig, p, PlanSell(cfg, p, e.ref), e.now))
  {
    var f := SellFill(e.sig, p, PlanSell(cfg, p, e.ref), e.now);
    var entry := EntryHeld(cfg, b, e.sig.instrument);
    SellCloses(cfg, e.sig, p, entry, e.ref, e.now);
    CostedIsFair(cfg, e.ref, f);
    AddsOne(cfg, b, e, Sold(b, e.sig, p, PlanSell(cfg, p, e.ref), e.now), f);
  }

  lemma TradeAdds(cfg: Config, b: Book, e: Event)
    requires Sound(cfg, b) && e.Trade? && Legal(b, e)
    ensures Adds(cfg, b, e, Step(cfg, b, e))
  {
    if e.ref.unscaled > 0 && e.sig.action == Buy {
      BuyAdds(cfg, b, e);
    } else if e.ref.unscaled > 0 && e.sig.action == Sell && e.sig.instrument in b.positions {
      SellOf(cfg, b, e.sig, e.ref, e.now, b.positions[e.sig.instrument]);
      SellAdds(cfg, b, e, b.positions[e.sig.instrument]);
    }
  }

  ghost predicate Explained(cfg: Config, events: seq<Event>, n: nat, f: Fill)
    requires n <= |events|
  {
    exists j :: 0 <= j < n && MadeBy(cfg, events[j], f)
  }

  /** Over every run, restarts included, each fill on the log was asked for by an earlier trade, and made on its terms:
      at its reference price moved by the slippage rate against the trader, and with the fee rate on its notional. */
  lemma {:induction false} EveryFillIsFair(cfg: Config, run: seq<Book>, events: seq<Event>, i: nat, f: Fill)
    requires IsRun(cfg, run, events) && i < |run| && InScale(cfg.startingCash) && f in run[i].fills
    ensures Explained(cfg, events, i, f)
  {
    if i > 0 {
      var e := events[i - 1];
      var k := Base(e, i - 1);
      assert Follows(cfg, run, e, i - 1);
      EveryRun(cfg, run, events, k);
      StepExplains(cfg, run[k], e, run[i], f);
      if f in run[k].fills {
        EveryFillIsFair(cfg, run, events, k, f);
      }
    }
  }

  lemma StepExplains(cfg: Config, b: Book, e: Event, b': Book, f: Fill)
    requires Sound(cfg, b) && Legal(b, e) && b' == Step(cfg, b, e) && f in b'.fills
    ensures f in b.fills || MadeBy(cfg, e, f)
  {
    if e.Restart? {
      RestartIs(cfg, b);
    } else if e.Trade? {
      TradeAdds(cfg, b, e);
      if b' != b {
        assert b'.fills == b.fills + [b'.fills[|b.fills|]];
      }
    }
  }

  // ---- when a trade fills ----------------------------------------------------------------------

  /** x comes to at least half a unit at `scale` (18 at most) places. */
  predicate Registers(x: real, scale: uint8) {
    2.0 * Raised(x, if scale > MAX_SCALE then MAX_SCALE else scale) >= 1.0
  }

  /** What a buy would pay for a quantity, fee included. */
  function Price(cfg: Config, price: Decimal, quantity: Decimal): Decimal {
    Add(Notional(price, quantity), FeeOn(cfg, Notional(price, quantity)))
  }

  /** A buy is possible: the budget comes to a cent and buys at least a unit of quantity, and cash covers it with its fee. */
  predicate CanBuy(cfg: Config, cash: Decimal, equity: Decimal, strength: real, ref: Decimal) {
    var price, budget := BuyPrice(cfg, ref), Budget(cfg, cash, equity, strength);
    && Registers(Per(Value(Capped(cash, Limit(cfg, equity, strength))), 1.0 + cfg.feeRate), CENTS)
    && (price.unscaled != 0 ==> (PriceNonZero(price); Registers(Per(Value(budget), Value(price)), cfg.quantityPrecision)))
    && Value(Price(cfg, price, Size(cfg, budget, price))) <= Value(cash)
  }

  lemma SizePositive(cfg: Config, budget: Decimal, price: Decimal)
    ensures Size(cfg, budget, price).unscaled > 0
       <==> price.unscaled == 0 || (PriceNonZero(price); Registers(Per(Value(budget), Value(price)), cfg.quantityPrecision))
  {
    if price.unscaled != 0 {
      PriceNonZero(price);
      FromFloatPositive(Per(Value(budget), Value(price)), cfg.quantityPrecision);
    }
  }

  lemma BudgetPositive(cfg: Config, cash: Decimal, equity: Decimal, strength: real)
    ensures Budget(cfg, cash, equity, strength).unscaled > 0
       <==> Registers(Per(Value(Capped(cash, Limit(cfg, equity, strength))), 1.0 + cfg.feeRate), CENTS)
  {
    BudgetOf(cfg, cash, equity, strength);
    FromFloatPositive(Per(Value(Capped(cash, Limit(cfg, equity, strength))), 1.0 + cfg.feeRate), CENTS);
  }

  lemma Covered(cfg: Config, cash: Decimal, price: Decimal, quantity: Decimal)
    requires InScale(cash) && quantity.unscaled > 0
    ensures Affordable(cfg, cash, price, quantity).Some? <==> Value(Price(cfg, price, quantity)) <= Value(cash)
  {
    NotionalInScale(price, quantity);
    AddInScale(Notional(price, quantity), FeeOn(cfg, Notional(price, quantity)));
    CmpIsRationalOrder(Price(cfg, price, quantity), cash);
  }

  /** The account's own early returns are the only ones. */
  lemma PlansIff(cfg: Config, cash: Decimal, equity: Decimal, strength: real, ref: Decimal)
    requires InScale(cash)
    ensures PlanBuy(cfg, cash, equity, strength, ref).Some? <==> CanBuy(cfg, cash, equity, strength, ref)
  {
    var price, budget := BuyPrice(cfg, ref), Budget(cfg, cash, equity, strength);
    BudgetPositive(cfg, cash, equity, strength);
    SizePositive(cfg, budget, price);
    if Size(cfg, budget, price).unscaled > 0 {
      Covered(cfg, cash, price, Size(cfg, budget, price));
    }
  }

  // ---- a price that rounds to zero -------------------------------------------------------------

  lemma SumOfNothing(d: Decimal, o: Decimal)
    requires InScale(d) && InScale(o) && d.unscaled == 0 && o.unscaled == 0
    ensures Add(d, o).unscaled == 0
  {
    var s := MaxScaleOf(d, o);
    AddRefinesBig(d, o);
    WidenNonZero(d.unscaled, s - d.scale);
    WidenNonZero(o.unscaled, s - o.scale);
    FromBigSign(BigAt(d, s) + BigAt(o, s), s);
  }

  lemma NothingToPay(cfg: Config, price: Decimal, quantity: Decimal)
    requires InScale(price) && InScale(quantity) && price.unscaled == 0 && quantity.unscaled > 0
    ensures Notional(price, quantity).unscaled == 0 && FeeOn(cfg, Notional(price, quantity)).unscaled == 0
    ensures Price(cfg, price, quantity).unscaled == 0
  {
    var n := Notional(price, quantity);
    NotionalInScale(price, quantity);
    FreeNotional(price, quantity);
    SignOfValue(n);
    assert Part(Value(n), cfg.feeRate) == 0.0;
    FromFloatSign(0.0, CENTS);
    SumOfNothing(n, FeeOn(cfg, n));
  }

  lemma BudgetMeansCash(cfg: Config, cash: Decimal, equity: Decimal, strength: real)
    requires InScale(cash) && Budget(cfg, cash, equity, strength).unscaled > 0
    ensures Value(cash) > 0.0
  {
    var limit := Limit(cfg, equity, strength);
    BudgetOf(cfg, cash, equity, strength);
    BudgetSign(Value(Capped(cash, limit)), 1.0 + cfg.feeRate);
    CmpIsRationalOrder(FromFloat(limit, CENTS), cash);
  }

  /** Where a positive reference price comes to less than half a unit at the price precision, any budget of a cent or more
      buys MaxInt64 whole units, for nothing. */
  lemma ZeroPriceBuysMost(cfg: Config, cash: Decimal, equity: Decimal, strength: real, ref: Decimal)
    requires InScale(cash) && ref.unscaled > 0 && !Registers(Crossed(ref, cfg.slippageRate, Buy), cfg.pricePrecision)
    ensures var plan := PlanBuy(cfg, cash, equity, strength, ref);
      && (plan.Some? <==> Registers(Per(Value(Capped(cash, Limit(cfg, equity, strength))), 1.0 + cfg.feeRate), CENTS))
      && (plan.Some? ==> plan.value.quantity == Decimal(MAX_INT64, 0) && Value(plan.value.total) == 0.0)
  {
    var price, budget := BuyPrice(cfg, ref), Budget(cfg, cash, equity, strength);
    ZeroPrice(cfg, ref);
    BudgetPositive(cfg, cash, equity, strength);
    if budget.unscaled > 0 {
      BudgetMeansCash(cfg, cash, equity, strength);
      FreeOrder(cfg, cash, price, Size(cfg, budget, price));
    }
  }

  lemma ZeroPrice(cfg: Config, ref: Decimal)
    requires ref.unscaled > 0
    ensures BuyPrice(cfg, ref).unscaled == 0 <==> !Registers(Crossed(ref, cfg.slippageRate, Buy), cfg.pricePrecision)
  {
    var x := Crossed(ref, cfg.slippageRate, Buy);
    SignOfValue(ref);
    assert x >= 0.0;
    assert Part(Value(ref), 1.0 + cfg.slippageRate) == x;
    FromFloatPositive(x, cfg.pricePrecision);
    FromFloatSign(x, cfg.pricePrecision);
  }

  lemma FreeOrder(cfg: Config, cash: Decimal, price: Decimal, quantity: Decimal)
    requires InScale(cash) && Value(cash) > 0.0 && InScale(price) && price.unscaled == 0
    requires InScale(quantity) && quantity.unscaled > 0
    ensures var o := Affordable(cfg, cash, price, quantity);
      o.Some? && o.value.quantity == quantity && Value(o.value.total) == 0.0
  {
    NothingToPay(cfg, price, quantity);
    SignOfValue(Price(cfg, price, quantity));
    Covered(cfg, cash, price, quantity);
  }

  /** The trade is one the account makes. */
  predicate Fills(cfg: Config, b: Book, e: Event)
    requires e.Trade? && forall id :: id in e.order ==> id in b.positions
  {
    && e.ref.unscaled > 0
    && match e.sig.action
       case Sell => e.sig.instrument in b.positions
       case Buy => e.sig.instrument !in b.positions && CanBuy(cfg, b.cash, Equity(b, e.order), e.sig.strength, e.ref)
       case Hold => false
  }

  lemma BuyFills(cfg: Config, b: Book, e: Event)
    requires InScale(b.cash) && e.Trade? && e.ref.unscaled > 0 && e.sig.action == Buy && forall id :: id in e.order ==> id in b.positions
    ensures var b' := DoBuy(cfg, b, e.sig, e.ref, e.now, e.order).0;
      if Fills(cfg, b, e) then |b'.fills| == |b.fills| + 1 && e.sig.instrument in b'.positions else b' == b
  {
    PlansIff(cfg, b.cash, Equity(b, e.order), e.sig.strength, e.ref);
    var plan := PlanBuy(cfg, b.cash, Equity(b, e.order), e.sig.strength, e.ref);
    if e.sig.instrument !in b.positions && plan.Some? {
      BoughtFills(b, e.sig, plan.value, e.now);
    }
  }

  lemma BoughtFills(b: Book, sig: Signal, o: Order, now: int)
    ensures |Bought(b, sig, o, now).fills| == |b.fills| + 1 && sig.instrument in Bought(b, sig, o, now).positions
  {
  }

  lemma SoldFills(b: Book, sig: Signal, p: Position, x: Exit, now: int)
    ensures |Sold(b, sig, p, x, now).fills| == |b.fills| + 1 && sig.instrument !in Sold(b, sig, p, x, now).positions
  {
  }

  lemma StepFills(cfg: Config, b: Book, e: Event)
    requires InScale(b.cash) && e.Trade? && Legal(b, e)
    ensures var b' := Step(cfg, b, e);
      if Fills(cfg, b, e) then |b'.fills| == |b.fills| + 1 && (e.sig.instrument in b'.positions <==> e.sig.action == Buy)
      else b' == b
  {
    if e.ref.unscaled > 0 && e.sig.action == Buy {
      BuyFills(cfg, b, e);
    } else if e.ref.unscaled > 0 && e.sig.action == Sell && e.sig.instrument in b.positions {
      var p := b.positions[e.sig.instrument];
      SellOf(cfg, b, e.sig, e.ref, e.now, p);
      SoldFills(b, e.sig, p, PlanSell(cfg, p, e.ref), e.now);
    }
  }

  /** Over every run a trade adds exactly one fill, and opens or closes its instrument's position, when its price is
      positive and it sells what is held or buys what is not held and can be bought; otherwise nothing changes. */
  lemma EveryTradeActs(cfg: Config, run: seq<Book>, events: seq<Event>, i: nat)
    requires IsRun(cfg, run, events) && i < |events| && events[i].Trade? && InScale(cfg.startingCash)
    ensures Legal(run[i], events[i])
    ensures var b, b', e := run[i], run[i + 1], events[i];
      if Fills(cfg, b, e) then |b'.fills| == |b.fills| + 1 && (e.sig.instrument in b'.positions <==> e.sig.action == Buy)
      else b' == b
  {
    assert Follows(cfg, run, events[i], i);
    EveryRun(cfg, run, events, i);
    StepFills(cfg, run[i], events[i]);
  }

  /** What Apply returns tells what it did: an error for a price that is not positive, the one fill it added, or nothing
      and the book as it was. */
  ghost predicate Tells(b: Book, b': Book, ref: Decimal, r: Applied) {
    match r
    case Refused => Value(ref) <= 0.0 && b' == b
    case Done(f) => Value(ref) > 0.0 && AddsJust(b, b', f)
  }

  ghost predicate AddsJust(b: Book, b': Book, f: Option<Fill>) {
    if f.Some? then b'.fills == b.fills + [f.value] else b' == b
  }

  lemma ApplyResult(cfg: Config, b: Book, sig: Signal, ref: Decimal, now: int, order: seq<InstrumentID>)
    requires forall id :: id in order ==> id in b.positions
    ensures Tells(b, DoApply(cfg, b, sig, ref, now, order).0, ref, DoApply(cfg, b, sig, ref, now, order).1)
  {
    SignOfValue(ref);
    if sig.action == Buy {
      BuyResult(cfg, b, sig, ref, now, order);
    } else if sig.action == Sell {
      SellResult(cfg, b, sig, ref, now);
    }
  }

  lemma BuyResult(cfg: Config, b: Book, sig: Signal, ref: Decimal, now: int, order: seq<InstrumentID>)
    requires forall id :: id in order ==> id in b.positions
    ensures AddsJust(b, DoBuy(cfg, b, sig, ref, now, order).0, DoBuy(cfg, b, sig, ref, now, order).1)
  {
    var plan := PlanBuy(cfg, b.cash, Equity(b, order), sig.strength, ref);
    if sig.instrument !in b.positions && plan.Some? {
      assert Bought(b, sig, plan.value, now).fills == b.fills + [BuyFill(sig, plan.value, now)];
    }
  }

  lemma SellResult(cfg: Config, b: Book, sig: Signal, ref: Decimal, now: int)
    ensures AddsJust(b, DoSell(cfg, b, sig, ref, now).0, DoSell(cfg, b, sig, ref, now).1)
  {
    if sig.instrument in b.positions {
      var p := b.positions[sig.instrument];
      assert Sold(b, sig, p, PlanSell(cfg, p, ref), now).fills == b.fills + [SellFill(sig, p, PlanSell(cfg, p, ref), now)];
    }
  }
}

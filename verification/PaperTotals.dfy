/** The account's totals over whole runs (internal/consumer/paper/paper.go): cash, fees and realized profit are the
    exact sums over the fill log as long as they are kept in cents, and cash is never negative. */
module PaperTotals {
  import opened Arith
  import opened Decimal
  import opened DecimalRounding
  import opened DecimalFloat
  import DecimalMonotone
  import opened Paper
  import opened PaperRestart
  import opened PaperRoundTrip
  import opened PaperLedger

  // ---- sums over the log -----------------------------------------------------------------------

  /** What a fill moved into (or, negative, out of) cash. */
  function Flow(f: Fill): real {
    if f.side == Buy then -(Value(f.notional) + Value(f.fee)) else Value(f.notional) - Value(f.fee)
  }

  function NetFlow(fills: seq<Fill>): real {
    if fills == [] then 0.0 else NetFlow(fills[..|fills| - 1]) + Flow(fills[|fills| - 1])
  }

  function FeeSum(fills: seq<Fill>): real {
    if fills == [] then 0.0 else FeeSum(fills[..|fills| - 1]) + Value(fills[|fills| - 1].fee)
  }

  function RealizedSum(fills: seq<Fill>): real {
    if fills == [] then 0.0 else RealizedSum(fills[..|fills| - 1]) + Value(fills[|fills| - 1].realizedPL)
  }

  lemma SumsSnoc(fills: seq<Fill>, f: Fill)
    ensures NetFlow(fills + [f]) == NetFlow(fills) + Flow(f)
    ensures FeeSum(fills + [f]) == FeeSum(fills) + Value(f.fee)
    ensures RealizedSum(fills + [f]) == RealizedSum(fills) + Value(f.realizedPL)
  {
    assert (fills + [f])[..|fills|] == fills;
  }

  // ---- exactness -------------------------------------------------------------------------------

  /** A fill whose amounts are in cents. */
  predicate AtCents(f: Fill) {
    && f.notional.scale == CENTS && f.fee.scale == CENTS && f.fee.unscaled != MIN_INT64
    && (f.side == Sell ==> f.realizedPL.scale == CENTS)
  }

  ghost predicate AllAtCents(fills: seq<Fill>) {
    forall i :: 0 <= i < |fills| ==> AtCents(fills[i])
  }

  function CashScale(cfg: Config): uint8 {
    if cfg.startingCash.scale > CENTS then cfg.startingCash.scale else CENTS
  }

  /** x can be written in int64 units of scale s. */
  ghost predicate FitsAt(x: real, s: uint8) {
    -Rat(MAX_INT64, s) <= x <= Rat(MAX_INT64, s)
  }

  /** The log stays in the range of int64 cents: each amount on it, and the sums over it. */
  ghost predicate InRange(cfg: Config, fills: seq<Fill>) {
    && AllAtCents(fills)
    && FitsAt(Value(cfg.startingCash) + NetFlow(fills), CashScale(cfg))
    && FitsAt(FeeSum(fills), CENTS)
    && FitsAt(RealizedSum(fills), CENTS)
  }

  /** The totals are the sums over the log. */
  ghost predicate Balanced(cfg: Config, b: Book) {
    && Value(b.cash) == Value(cfg.startingCash) + NetFlow(b.fills)
    && Value(b.fees) == FeeSum(b.fills)
    && Value(b.realized) == RealizedSum(b.fills)
  }

  /** The scales the totals are kept at: as created until a fill reaches them, then at cents (or the starting cash's
      own finer scale). */
  ghost predicate Places(cfg: Config, b: Book) {
    && (if b.fills == [] then b.cash == cfg.startingCash && b.fees == ZERO
        else b.cash.scale == CashScale(cfg) && b.fees.scale == CENTS)
    && (if Count(b.fills, Sell) == 0 then b.realized == ZERO else b.realized.scale == CENTS)
  }

  /** Adding an amount in cents to a total kept at scale s is exact, and stays at s, while the sum fits there. */
  lemma FittingIsExact(total: Decimal, d: Decimal, s: uint8)
    requires InScale(total) && d.scale == CENTS && CENTS <= s
    requires total.scale == s || (s == CENTS && total.scale <= CENTS)
    requires FitsAt(Value(total) + Value(d), s)
    ensures Add(total, d).scale == s && Value(Add(total, d)) == Value(total) + Value(d)
  {
    SumAtScale(total, d);
    RatLinear(ExactSum(total, d), MAX_INT64, s);
    RatLinear(0, MAX_INT64, s);
    RatLinear(-MAX_INT64, ExactSum(total, d), s);
    RatLinear(MAX_INT64, ExactSum(total, d), s);
    AddExact(total, d);
  }

  lemma FeeSameSign(cfg: Config, n: Decimal)
    ensures n.unscaled >= 0 ==> FeeOn(cfg, n).unscaled >= 0
    ensures n.unscaled <= 0 ==> FeeOn(cfg, n).unscaled <= 0
  {
    RatLinear(n.unscaled, 0, n.scale);
    RateKeepsSign(Value(n), cfg.feeRate);
    FromFloatSign(Part(Value(n), cfg.feeRate), CENTS);
  }

  lemma RateKeepsSign(x: real, rate: Rate)
    ensures x >= 0.0 ==> Part(x, rate) >= 0.0
    ensures x <= 0.0 ==> Part(x, rate) <= 0.0
  {
  }

  lemma NetOfFeeExact(n: Decimal, fee: Decimal)
    requires n.scale == CENTS && fee.scale == CENTS && fee.unscaled != MIN_INT64
    requires n.unscaled >= 0 ==> fee.unscaled >= 0
    requires n.unscaled <= 0 ==> fee.unscaled <= 0
    ensures IsCents(Sub(n, fee), n.unscaled - fee.unscaled)
    ensures Value(Sub(n, fee)) == Value(n) - Value(fee)
  {
    NegAt(fee, CENTS);
    ExactAtCents(n, Neg(fee));
    RatLinear(n.unscaled, fee.unscaled, CENTS);
  }

  // ---- steps -----------------------------------------------------------------------------------

  lemma CashFits(cfg: Config, b: Book)
    requires FitsCents(cfg.startingCash) && InScale(b.cash) && Places(cfg, b)
    ensures FitsCents(b.cash)
  {
  }

  lemma BuyBalanced(cfg: Config, b: Book, sig: Signal, o: Order, now: int)
    requires FitsCents(cfg.startingCash) && InScale(b.cash) && Places(cfg, b) && Balanced(cfg, b)
    requires Planned(cfg, b.cash, o) && InRange(cfg, Bought(b, sig, o, now).fills)
    ensures Places(cfg, Bought(b, sig, o, now)) && Balanced(cfg, Bought(b, sig, o, now))
  {
    CashFits(cfg, b);
    AffordableIsExact(cfg, b.cash, o);
    PayExact(b.cash, o.total);
    BuyMoves(cfg, b, sig, o, now, Sub(b.cash, o.total), Add(b.fees, o.fee));
    CountSnoc(b.fills, BuyFill(sig, o, now), Sell);
  }

  lemma BuyMoves(cfg: Config, b: Book, sig: Signal, o: Order, now: int, cash: Decimal, fees: Decimal)
    requires Balanced(cfg, b) && Places(cfg, b) && CentsOrder(o.notional, o.fee, o.total)
    requires Value(cash) == Value(b.cash) - Value(o.total)
    requires fees == Add(b.fees, o.fee) && FitsAt(FeeSum(b.fills + [BuyFill(sig, o, now)]), CENTS)
    ensures Value(cash) == Value(cfg.startingCash) + NetFlow(b.fills + [BuyFill(sig, o, now)])
    ensures fees.scale == CENTS && Value(fees) == FeeSum(b.fills + [BuyFill(sig, o, now)])
    ensures Value(b.realized) == RealizedSum(b.fills + [BuyFill(sig, o, now)])
  {
    SumsSnoc(b.fills, BuyFill(sig, o, now));
    RatLinear(o.notional.unscaled, o.fee.unscaled, CENTS);
    FittingIsExact(b.fees, o.fee, CENTS);
  }

  /** What the sale of one position adds to each total. */
  lemma SellMoves(cfg: Config, b: Book, x: Exit, f: Fill)
    requires InScale(b.cash) && Places(cfg, b) && Balanced(cfg, b) && b.fills != []
    requires x.fee == FeeOn(cfg, x.notional) && x.proceeds == Sub(x.notional, x.fee)
    requires f.side == Sell && f.notional == x.notional && f.fee == x.fee && f.realizedPL == x.realized
    requires AtCents(f) && InRange(cfg, b.fills + [f])
    ensures Add(b.cash, x.proceeds).scale == CashScale(cfg) && Add(b.fees, x.fee).scale == CENTS
    ensures Add(b.realized, x.realized).scale == CENTS
    ensures Value(Add(b.cash, x.proceeds)) == Value(cfg.startingCash) + NetFlow(b.fills + [f])
    ensures Value(Add(b.fees, x.fee)) == FeeSum(b.fills + [f])
    ensures Value(Add(b.realized, x.realized)) == RealizedSum(b.fills + [f])
  {
    SumsSnoc(b.fills, f);
    FeeSameSign(cfg, x.notional);
    NetOfFeeExact(x.notional, x.fee);
    FittingIsExact(b.cash, x.proceeds, CashScale(cfg));
    FittingIsExact(b.fees, x.fee, CENTS);
    FittingIsExact(b.realized, x.realized, CENTS);
  }

  lemma SellBalanced(cfg: Config, b: Book, sig: Signal, p: Position, x: Exit, now: int)
    requires InScale(b.cash) && Places(cfg, b) && Balanced(cfg, b) && b.fills != []
    requires x.fee == FeeOn(cfg, x.notional) && x.proceeds == Sub(x.notional, x.fee)
    requires InRange(cfg, b.fills + [SellFill(sig, p, x, now)])
    ensures Places(cfg, Sold(b, sig, p, x, now)) && Balanced(cfg, Sold(b, sig, p, x, now))
  {
    var f := SellFill(sig, p, x, now);
    assert (b.fills + [f])[|b.fills|] == f;
    SellMoves(cfg, b, x, f);
    CountSnoc(b.fills, f, Sell);
  }

  /** What the accounting needs of a book. */
  ghost predicate Kept(cfg: Config, b: Book) {
    Sound(cfg, b) && Places(cfg, b) && Balanced(cfg, b)
  }

  lemma TradeKept(cfg: Config, b: Book, sig: Signal, ref: Decimal, now: int, b': Book)
    requires FitsCents(cfg.startingCash) && Kept(cfg, b) && InRange(cfg, b'.fills)
    requires b' == b || (exists o :: Buys(cfg, b, sig, now, b', o)) || Sells(cfg, b, sig, ref, now, b')
    ensures Places(cfg, b') && Balanced(cfg, b')
  {
    if b' != b {
      if o :| Buys(cfg, b, sig, now, b', o) {
        BuyBalanced(cfg, b, sig, o, now);
      } else {
        var p := b.positions[sig.instrument];
        var entry := EntryHeld(cfg, b, sig.instrument);
        assert History(b.fills, sig.instrument) != [];
        SellBalanced(cfg, b, sig, p, PlanSell(cfg, p, ref), now);
      }
    }
  }

  lemma NewBookBalanced(cfg: Config)
    ensures Places(cfg, NewBook(cfg)) && Balanced(cfg, NewBook(cfg))
  {
  }

  lemma TradeStepKept(cfg: Config, b: Book, e: Event, b': Book)
    requires FitsCents(cfg.startingCash) && Kept(cfg, b) && e.Trade? && Legal(b, e) && b' == Step(cfg, b, e)
    requires InRange(cfg, b'.fills)
    ensures Places(cfg, b') && Balanced(cfg, b')
  {
    TradeShape(cfg, b, e.sig, e.ref, e.now, e.order);
    TradeKept(cfg, b, e.sig, e.ref, e.now, b');
  }

  lemma OtherStepKept(cfg: Config, b: Book, e: Event, b': Book)
    requires Kept(cfg, b) && !e.Trade? && Legal(b, e) && b' == Step(cfg, b, e)
    ensures Places(cfg, b') && Balanced(cfg, b')
  {
    if e.Restart? {
      RestartIs(cfg, b);
      RestartKept(cfg, b, b');
    }
  }

  lemma StepKept(cfg: Config, b: Book, e: Event, b': Book)
    requires FitsCents(cfg.startingCash) && Kept(cfg, b) && Legal(b, e) && b' == Step(cfg, b, e)
    requires InRange(cfg, b'.fills)
    ensures Kept(cfg, b')
  {
    StepSound(cfg, b, e);
    if e.Trade? {
      TradeStepKept(cfg, b, e, b');
    } else {
      OtherStepKept(cfg, b, e, b');
    }
  }

  lemma RestartKept(cfg: Config, b: Book, b': Book)
    requires Places(cfg, b) && Balanced(cfg, b)
    requires b' == if CleanBook(b) then b.(lastPrices := map[]) else NewBook(cfg)
    ensures Places(cfg, b') && Balanced(cfg, b')
  {
    if !CleanBook(b) {
      NewBookBalanced(cfg);
    }
  }

  /** Conservation over every run, restarts included: while no amount outgrows int64 cents, cash is the starting cash
      less what every buy took plus what every sale brought, and fees and realized profit are the sums over the log. */
  lemma {:induction false} EveryRunBalances(cfg: Config, run: seq<Book>, events: seq<Event>, i: nat)
    requires IsRun(cfg, run, events) && i < |run| && FitsCents(cfg.startingCash)
    requires forall j :: 0 <= j < |run| ==> InRange(cfg, run[j].fills)
    ensures Kept(cfg, run[i])
  {
    if i == 0 {
      NewBookSound(cfg);
      NewBookBalanced(cfg);
    } else {
      var e := events[i - 1];
      assert Follows(cfg, run, e, i - 1);
      EveryRunBalances(cfg, run, events, Base(e, i - 1));
      StepKept(cfg, run[Base(e, i - 1)], e, run[i]);
    }
  }

  // ---- cash is never negative ------------------------------------------------------------------

  /** The fee on a notional does not saturate (or the notional is the saturated amount itself). */
  predicate FeeFits(cfg: Config, n: Decimal) {
    Representable(Part(Value(n), cfg.feeRate), CENTS) || n == Decimal(MAX_INT64, 0)
  }

  /** The amount a fee saturates at. */
  const TOP := Decimal(MAX_INT64, 0)

  /** The fee on a sale does not saturate, or the cash covers what the saturated fee takes beyond the notional. */
  predicate SaleCovered(cfg: Config, cash: Decimal, n: Decimal) {
    FeeFits(cfg, n) || Value(cash) + Value(Sub(n, TOP)) >= 0.0
  }

  /** The event sells a position. */
  predicate IsSale(b: Book, e: Event) {
    e.Trade? && e.ref.unscaled > 0 && e.sig.action == Sell && e.sig.instrument in b.positions
  }

  /** If the event is about to sell a position, that sale is covered. */
  predicate SaleFits(cfg: Config, b: Book, e: Event) {
    IsSale(b, e) ==> SaleCovered(cfg, b.cash, Notional(SellPrice(cfg, e.ref), b.positions[e.sig.instrument].quantity))
  }

  lemma SumSign(x: Decimal, y: Decimal)
    requires InScale(x) && InScale(y) && x.unscaled >= 0 && y.unscaled >= 0
    ensures Add(x, y).unscaled >= 0
  {
    var m := MaxScaleOf(x, y);
    AddRefinesBig(x, y);
    WidenUp(x.unscaled, 0, m - x.scale);
    WidenUp(y.unscaled, 0, m - y.scale);
    FromBigSign(ExactSum(x, y), m);
  }

  /** The guard of buy is what keeps cash non-negative, in range or not. */
  lemma CoveredPaymentSign(cash: Decimal, total: Decimal)
    requires InScale(cash) && InScale(total) && total.unscaled >= 0 && Cmp(total, cash) <= 0
    ensures Sub(cash, total).unscaled >= 0
  {
    var m := MaxScaleOf(cash, total);
    CmpIsRationalOrder(total, cash);
    ValueAt(cash, m);
    ValueAt(total, m);
    RatLinear(BigAt(cash, m), BigAt(total, m), m);
    SubRefinesBig(cash, total);
    FromBigSign(ExactDifference(cash, total), m);
  }

  lemma DifferenceSign(x: Decimal, y: Decimal)
    requires InScale(x) && InScale(y) && y.unscaled >= 0
    ensures Sub(x, y).unscaled >= 0 <==> ExactDifference(x, y) >= 0
  {
    SubRefinesBig(x, y);
    FromBigSign(ExactDifference(x, y), MaxScaleOf(x, y));
    if ExactDifference(x, y) < 0 {
      FromBigNonZero(ExactDifference(x, y), MaxScaleOf(x, y));
    }
  }

  /** At a fee rate of at most one a sale costs no money if and only if its fee does not saturate (or the notional is
      the saturated amount itself). */
  lemma SaleCostsNothing(cfg: Config, n: Decimal)
    requires cfg.feeRate <= 1.0 && n.scale <= CENTS && n.unscaled >= 0
    ensures Sub(n, FeeOn(cfg, n)).unscaled >= 0 <==> FeeFits(cfg, n)
  {
    var f := Part(Value(n), cfg.feeRate);
    FeeSign(cfg, n);
    DifferenceSign(n, FeeOn(cfg, n));
    DecimalMonotone.ValueAtMost(n);
    RateAtMostOne(Value(n), cfg.feeRate);
    if Representable(f, CENTS) {
      FromFloatError(f, CENTS);
      FractionOfCoarse(n, f);
    } else {
      SaturatedFee(n, f, FeeOn(cfg, n));
    }
  }

  lemma FractionOfCoarse(n: Decimal, f: real)
    requires n.scale <= CENTS && 0.0 <= f <= Value(n) && FromFloat(f, CENTS).scale == CENTS
    ensures FromFloat(f, CENTS).unscaled <= BigAt(n, CENTS)
  {
    ValueAt(n, CENTS);
    RaisedOrder(f, Value(n), CENTS);
    RaisedOfRat(BigAt(n, CENTS), CENTS);
    RoundMonotone(Raised(f, CENTS), BigAt(n, CENTS) as real);
    RoundOfInt(BigAt(n, CENTS));
  }

  lemma SaturatedFee(n: Decimal, f: real, fee: Decimal)
    requires n.scale <= CENTS && n.unscaled >= 0 && f >= 0.0 && fee == FromFloat(f, CENTS) && !Representable(f, CENTS)
    ensures ExactDifference(n, fee) >= 0 <==> n == Decimal(MAX_INT64, 0)
  {
    RaisedOrder(0.0, f, CENTS);
    AboveTop(n, fee);
  }

  lemma AboveTop(n: Decimal, top: Decimal)
    requires n.scale <= CENTS && n.unscaled >= 0 && top.unscaled == MAX_INT64 && top.scale == 0
    ensures ExactDifference(n, top) >= 0 <==> n == top
  {
    if n.scale > 0 {
      WidenUp(top.unscaled, 1, n.scale);
    }
  }

  lemma RateAtMostOne(x: real, rate: Rate)
    requires x >= 0.0 && rate <= 1.0
    ensures 0.0 <= Part(x, rate) <= x
  {
  }

  lemma SellPriceSign(cfg: Config, ref: Decimal)
    requires cfg.slippageRate <= 1.0 && ref.unscaled > 0
    ensures SellPrice(cfg, ref).unscaled >= 0 && InScale(SellPrice(cfg, ref))
  {
    DecimalMonotone.ValueAtMost(ref);
    RateSign(Value(ref), 1.0 - cfg.slippageRate);
    FromFloatSign(Part(Value(ref), 1.0 - cfg.slippageRate), cfg.pricePrecision);
  }

  lemma BuyCashSign(cfg: Config, cash: Decimal, o: Order)
    requires InScale(cash) && Planned(cfg, cash, o)
    ensures Sub(cash, o.total).unscaled >= 0
  {
    NotionalSign(o.price, o.quantity);
    FeeSign(cfg, o.notional);
    AddInScale(o.notional, o.fee);
    SumSign(o.notional, o.fee);
    CoveredPaymentSign(cash, o.total);
  }

  lemma SumSignExact(x: Decimal, y: Decimal)
    requires InScale(x) && InScale(y)
    ensures Add(x, y).unscaled >= 0 <==> Value(x) + Value(y) >= 0.0
  {
    var m := MaxScaleOf(x, y);
    AddRefinesBig(x, y);
    SumAtScale(x, y);
    RatLinear(ExactSum(x, y), 0, m);
    FromBigSign(ExactSum(x, y), m);
    if ExactSum(x, y) < 0 {
      FromBigNonZero(ExactSum(x, y), m);
    }
  }

  lemma UnfitFee(cfg: Config, n: Decimal)
    requires n.unscaled >= 0 && !FeeFits(cfg, n)
    ensures FeeOn(cfg, n) == TOP
  {
    DecimalMonotone.ValueAtMost(n);
    RateSign(Value(n), cfg.feeRate);
    RaisedOrder(0.0, Part(Value(n), cfg.feeRate), CENTS);
  }

  /** A sale leaves cash non-negative if and only if it is covered. */
  lemma SaleCash(cfg: Config, cash: Decimal, n: Decimal, fee: Decimal)
    requires cfg.feeRate <= 1.0 && n.scale <= CENTS && n.unscaled >= 0 && fee == FeeOn(cfg, n)
    requires InScale(cash) && cash.unscaled >= 0
    ensures Add(cash, Sub(n, fee)).unscaled >= 0 <==> SaleCovered(cfg, cash, n)
  {
    SubInScale(n, fee);
    SumSignExact(cash, Sub(n, fee));
    if FeeFits(cfg, n) {
      SaleCostsNothing(cfg, n);
      DecimalMonotone.ValueAtMost(cash);
      DecimalMonotone.ValueAtMost(Sub(n, fee));
    } else {
      UnfitFee(cfg, n);
    }
  }

  lemma SellCashSign(cfg: Config, cash: Decimal, p: Position, ref: Decimal)
    requires cfg.feeRate <= 1.0 && cfg.slippageRate <= 1.0 && ref.unscaled > 0
    requires InScale(cash) && cash.unscaled >= 0 && p.quantity.unscaled > 0 && InScale(p.quantity)
    ensures Add(cash, PlanSell(cfg, p, ref).proceeds).unscaled >= 0
       <==> SaleCovered(cfg, cash, Notional(SellPrice(cfg, ref), p.quantity))
  {
    SellPriceSign(cfg, ref);
    NotionalSign(SellPrice(cfg, ref), p.quantity);
    SaleCash(cfg, cash, PlanSell(cfg, p, ref).notional, PlanSell(cfg, p, ref).fee);
  }

  lemma NotASale(cfg: Config, b: Book, e: Event, b': Book)
    requires Sound(cfg, b) && b.cash.unscaled >= 0 && e.Trade? && Legal(b, e) && b' == Step(cfg, b, e) && !IsSale(b, e)
    ensures b'.cash.unscaled >= 0
  {
    if e.ref.unscaled > 0 && e.sig.action == Buy {
      BuyShape(cfg, b, e.sig, e.ref, e.now, e.order);
      if b' != b {
        var o :| Buys(cfg, b, e.sig, e.now, b', o);
        BuyCashSign(cfg, b.cash, o);
      }
    }
  }

  lemma Sale(cfg: Config, b: Book, e: Event, b': Book)
    requires cfg.feeRate <= 1.0 && cfg.slippageRate <= 1.0
    requires Sound(cfg, b) && b.cash.unscaled >= 0 && IsSale(b, e) && Legal(b, e) && b' == Step(cfg, b, e)
    ensures b'.cash.unscaled >= 0 <==> SaleFits(cfg, b, e)
  {
    var p := b.positions[e.sig.instrument];
    var entry := EntryHeld(cfg, b, e.sig.instrument);
    SellOf(cfg, b, e.sig, e.ref, e.now, p);
    SellCashSign(cfg, b.cash, p, e.ref);
  }

  lemma OtherStepCash(cfg: Config, b: Book, e: Event, b': Book)
    requires Sound(cfg, b) && b.cash.unscaled >= 0 && cfg.startingCash.unscaled >= 0 && !e.Trade?
    requires Legal(b, e) && b' == Step(cfg, b, e)
    ensures b'.cash.unscaled >= 0
  {
    if e.Restart? {
      RestartIs(cfg, b);
    }
  }

  /** From non-negative cash, a step ends in non-negative cash if and only if it is not an uncovered sale. */
  lemma StepCashSign(cfg: Config, b: Book, e: Event, b': Book)
    requires cfg.feeRate <= 1.0 && cfg.slippageRate <= 1.0 && cfg.startingCash.unscaled >= 0
    requires Sound(cfg, b) && b.cash.unscaled >= 0 && Legal(b, e) && b' == Step(cfg, b, e)
    ensures b'.cash.unscaled >= 0 <==> SaleFits(cfg, b, e)
  {
    if IsSale(b, e) {
      Sale(cfg, b, e, b');
    } else if e.Trade? {
      NotASale(cfg, b, e, b');
    } else {
      OtherStepCash(cfg, b, e, b');
    }
  }

  ghost predicate SalesCovered(cfg: Config, run: seq<Book>, events: seq<Event>)
    requires IsRun(cfg, run, events)
  {
    forall j :: 0 <= j < |events| ==> SaleCoveredAt(cfg, run, events, j)
  }

  ghost predicate SaleCoveredAt(cfg: Config, run: seq<Book>, events: seq<Event>, j: nat)
    requires IsRun(cfg, run, events) && j < |events|
  {
    assert Follows(cfg, run, events[j], j);
    SaleFits(cfg, run[Base(events[j], j)], events[j])
  }

  lemma {:induction false} CoveredRun(cfg: Config, run: seq<Book>, events: seq<Event>, i: nat)
    requires IsRun(cfg, run, events) && i < |run| && SalesCovered(cfg, run, events)
    requires cfg.feeRate <= 1.0 && cfg.slippageRate <= 1.0 && InScale(cfg.startingCash) && cfg.startingCash.unscaled >= 0
    ensures run[i].cash.unscaled >= 0
  {
    if i > 0 {
      var e := events[i - 1];
      assert Follows(cfg, run, e, i - 1);
      assert SaleCoveredAt(cfg, run, events, i - 1);
      CoveredRun(cfg, run, events, Base(e, i - 1));
      EveryRun(cfg, run, events, Base(e, i - 1));
      StepCashSign(cfg, run[Base(e, i - 1)], e, run[i]);
    }
  }

  /** With fee and slippage rates in [0, 1], cash is non-negative in every book of a run if and only if each sale, before
      it is made, is covered: its fee does not saturate, or the cash makes up for it. */
  lemma CashNeverNegative(cfg: Config, run: seq<Book>, events: seq<Event>)
    requires IsRun(cfg, run, events)
    requires cfg.feeRate <= 1.0 && cfg.slippageRate <= 1.0 && InScale(cfg.startingCash) && cfg.startingCash.unscaled >= 0
    ensures (forall i :: 0 <= i < |run| ==> run[i].cash.unscaled >= 0) <==> SalesCovered(cfg, run, events)
  {
    if SalesCovered(cfg, run, events) {
      forall i | 0 <= i < |run|
        ensures run[i].cash.unscaled >= 0
      {
        CoveredRun(cfg, run, events, i);
      }
    }
    if forall i :: 0 <= i < |run| ==> run[i].cash.unscaled >= 0 {
      forall j | 0 <= j < |events|
        ensures SaleCoveredAt(cfg, run, events, j)
      {
        assert Follows(cfg, run, events[j], j);
        var k := Base(events[j], j);
        EveryRun(cfg, run, events, k);
        StepCashSign(cfg, run[k], events[j], run[j + 1]);
      }
    }
  }
}

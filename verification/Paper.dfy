/** The simulated account (internal/consumer/paper/paper.go). float64 values are reals; the iteration order of a
    Go map is an explicit parameter. */
module Paper {
  import opened Arith
  import opened Decimal
  import opened DecimalFloat
  import opened DecimalText
  import opened Market

  /** A fee or slippage rate. */
  type Rate = r: real | r >= 0.0 witness 0.0

  datatype Config = Config(
    startingCash: Decimal,
    feeRate: Rate,
    slippageRate: Rate,
    maxPositionFraction: real,
    pricePrecision: uint8,
    quantityPrecision: uint8)

  datatype Action = Hold | Buy | Sell

  datatype Signal = Signal(instrument: InstrumentID, action: Action, strength: real, reason: string)

  datatype Fill = Fill(
    time: int,
    instrument: InstrumentID,
    side: Action,
    price: Decimal,
    quantity: Decimal,
    notional: Decimal,
    fee: Decimal,
    realizedPL: Decimal,
    reason: string)

  datatype Position = Position(quantity: Decimal, avgEntry: Decimal, openedAt: int)

  /** Everything the account holds. */
  datatype Book = Book(
    cash: Decimal,
    positions: map<InstrumentID, Position>,
    lastPrices: map<InstrumentID, Decimal>,
    fills: seq<Fill>,
    realized: Decimal,
    fees: Decimal,
    wins: nat,
    losses: nat,
    peakEquity: Decimal,
    maxDrawdown: real)

  /** NewAccount's defaults. */
  function Normalized(cfg: Config): Config {
    cfg.(startingCash := if cfg.startingCash.unscaled == 0 then Decimal(1000000, 2) else cfg.startingCash,
         pricePrecision := if cfg.pricePrecision == 0 then 8 else cfg.pricePrecision,
         quantityPrecision := if cfg.quantityPrecision == 0 then 8 else cfg.quantityPrecision,
         maxPositionFraction := if cfg.maxPositionFraction <= 0.0 then 0.25 else cfg.maxPositionFraction)
  }

  /** DefaultConfig. */
  const DEFAULTS := Config(Decimal(1000000, 2), 0.001, 0.0005, 0.25, 8, 8)

  /** What the caller set is kept; the four fields that must be set and were not take the documented defaults. */
  lemma DefaultsFillIn(cfg: Config)
    ensures var c := Normalized(cfg);
      && c.feeRate == cfg.feeRate && c.slippageRate == cfg.slippageRate
      && c.startingCash == (if Value(cfg.startingCash) == 0.0 then DEFAULTS else cfg).startingCash
      && c.pricePrecision == (if cfg.pricePrecision > 0 then cfg else DEFAULTS).pricePrecision
      && c.quantityPrecision == (if cfg.quantityPrecision > 0 then cfg else DEFAULTS).quantityPrecision
      && c.maxPositionFraction == (if cfg.maxPositionFraction > 0.0 then cfg else DEFAULTS).maxPositionFraction
    ensures Normalized(Normalized(cfg)) == Normalized(cfg) && Normalized(DEFAULTS) == DEFAULTS
  {
    SignOfValue(cfg.startingCash);
  }

  function NewBook(cfg: Config): Book {
    Book(cfg.startingCash, map[], map[], [], ZERO, ZERO, 0, 0, cfg.startingCash, 0.0)
  }

  // ---- valuation ------------------------------------------------------------------------------

  /** One position at its last mark, or at cost before any. */
  function Worth(b: Book, id: InstrumentID): Decimal
    requires id in b.positions
  {
    var p := b.positions[id];
    Rescale(Mul(if id in b.lastPrices then b.lastPrices[id] else p.avgEntry, p.quantity), CENTS)
  }

  function SumWorth(b: Book, order: seq<InstrumentID>): Decimal
    requires forall id :: id in order ==> id in b.positions
  {
    if order == [] then ZERO
    else Add(SumWorth(b, order[..|order| - 1]), Worth(b, order[|order| - 1]))
  }

  /** order lists each open position once: one possible iteration of the positions map. */
  ghost predicate Lists(order: seq<InstrumentID>, b: Book) {
    && (forall id :: id in order <==> id in b.positions)
    && (forall i, j :: 0 <= i < j < |order| ==> order[i] != order[j])
  }

  function Equity(b: Book, order: seq<InstrumentID>): Decimal
    requires forall id :: id in order ==> id in b.positions
  {
    Add(b.cash, Rescale(SumWorth(b, order), CENTS))
  }

  // ---- trading --------------------------------------------------------------------------------

  /** A float product. */
  function Part(amount: real, rate: real): real {
    amount * rate
  }

  /** A float quotient. */
  function Per(amount: real, units: real): real
    requires units != 0.0
  {
    amount / units
  }

  function ApplyRate(d: Decimal, rate: real, scale: uint8): Decimal {
    FromFloat(Part(Value(d), rate), scale)
  }

  function Clamp01(f: real): real {
    if f <= 0.0 then 0.0 else if f > 1.0 then 1.0 else f
  }

  /** Buying crosses the spread upward, selling downward. */
  function BuyPrice(cfg: Config, ref: Decimal): Decimal {
    ApplyRate(ref, 1.0 + cfg.slippageRate, cfg.pricePrecision)
  }

  function SellPrice(cfg: Config, ref: Decimal): Decimal {
    ApplyRate(ref, 1.0 - cfg.slippageRate, cfg.pricePrecision)
  }

  function Notional(price: Decimal, quantity: Decimal): Decimal {
    Rescale(Mul(price, quantity), CENTS)
  }

  function FeeOn(cfg: Config, notional: Decimal): Decimal {
    FromFloat(Part(Value(notional), cfg.feeRate), CENTS)
  }

  /** Position size: a fraction of equity, capped by cash, less headroom for the fee. */
  function Budget(cfg: Config, cash: Decimal, equity: Decimal, strength: real): Decimal {
    var want := FromFloat(Part(Part(Value(equity), cfg.maxPositionFraction), Clamp01(strength)), CENTS);
    var capped := if Cmp(want, cash) > 0 then cash else want;
    FromFloat(Per(Value(capped), 1.0 + cfg.feeRate), CENTS)
  }

  /** budget / price. A price that rounded to zero makes the float quotient infinite, which saturates. */
  function Size(cfg: Config, budget: Decimal, price: Decimal): Decimal {
    if price.unscaled == 0 then Decimal(MAX_INT64, 0)
    else PriceNonZero(price); FromFloat(Per(Value(budget), Value(price)), cfg.quantityPrecision)
  }

  lemma SignOfValue(d: Decimal)
    ensures Value(d) == 0.0 <==> d.unscaled == 0
    ensures Value(d) <= 0.0 <==> d.unscaled <= 0
  {
    RatLinear(d.unscaled, 0, d.scale);
  }

  lemma PriceNonZero(price: Decimal)
    requires price.unscaled != 0
    ensures Value(price) != 0.0
  {
    RatLinear(price.unscaled, 0, price.scale);
  }

  /** Cost per unit, fee included. */
  function Basis(cfg: Config, total: Decimal, quantity: Decimal): Decimal
    requires quantity.unscaled != 0
  {
    PriceNonZero(quantity);
    FromFloat(Per(Value(total), Value(quantity)), cfg.pricePrecision)
  }

  datatype Order = Order(price: Decimal, quantity: Decimal, notional: Decimal, fee: Decimal, total: Decimal, basis: Decimal)

  /** The buy the account would make, or None where the source declines. */
  function PlanBuy(cfg: Config, cash: Decimal, equity: Decimal, strength: real, ref: Decimal): Option<Order> {
    var price := BuyPrice(cfg, ref);
    var budget := Budget(cfg, cash, equity, strength);
    if budget.unscaled <= 0 then None
    else
      var quantity := Size(cfg, budget, price);
      if quantity.unscaled <= 0 then None else Affordable(cfg, cash, price, quantity)
  }

  function Affordable(cfg: Config, cash: Decimal, price: Decimal, quantity: Decimal): Option<Order>
    requires quantity.unscaled > 0
  {
    var notional := Notional(price, quantity);
    var fee := FeeOn(cfg, notional);
    var total := Add(notional, fee);
    if Cmp(total, cash) > 0 then None
    else Some(Order(price, quantity, notional, fee, total, Basis(cfg, total, quantity)))
  }

  function Bought(b: Book, sig: Signal, o: Order, now: int): Book {
    b.(cash := Sub(b.cash, o.total),
       fees := Add(b.fees, o.fee),
       positions := b.positions[sig.instrument := Position(o.quantity, o.basis, now)],
       fills := b.fills + [BuyFill(sig, o, now)])
  }

  function BuyFill(sig: Signal, o: Order, now: int): Fill {
    Fill(now, sig.instrument, Buy, o.price, o.quantity, o.notional, o.fee, ZERO, sig.reason)
  }

  function DoBuy(cfg: Config, b: Book, sig: Signal, ref: Decimal, now: int, order: seq<InstrumentID>): (Book, Option<Fill>)
    requires forall id :: id in order ==> id in b.positions
  {
    if sig.instrument in b.positions then (b, None)
    else
      match PlanBuy(cfg, b.cash, Equity(b, order), sig.strength, ref)
      case None => (b, None)
      case Some(o) => (Bought(b, sig, o, now), Some(BuyFill(sig, o, now)))
  }

  /** Closing a position at a price: what it fetched, what it cost, and the difference. */
  datatype Exit = Exit(price: Decimal, notional: Decimal, fee: Decimal, proceeds: Decimal, cost: Decimal, realized: Decimal)

  function PlanSell(cfg: Config, p: Position, ref: Decimal): Exit {
    var price := SellPrice(cfg, ref);
    var notional := Notional(price, p.quantity);
    var fee := FeeOn(cfg, notional);
    var proceeds := Sub(notional, fee);
    var cost := Notional(p.avgEntry, p.quantity);
    Exit(price, notional, fee, proceeds, cost, Sub(proceeds, cost))
  }

  function Sold(b: Book, sig: Signal, p: Position, x: Exit, now: int): Book {
    b.(cash := Add(b.cash, x.proceeds),
       fees := Add(b.fees, x.fee),
       realized := Add(b.realized, x.realized),
       wins := b.wins + (if x.realized.unscaled < 0 then 0 else 1),
       losses := b.losses + (if x.realized.unscaled < 0 then 1 else 0),
       positions := b.positions - {sig.instrument},
       fills := b.fills + [SellFill(sig, p, x, now)])
  }

  function SellFill(sig: Signal, p: Position, x: Exit, now: int): Fill {
    Fill(now, sig.instrument, Sell, x.price, p.quantity, x.notional, x.fee, x.realized, sig.reason)
  }

  function DoSell(cfg: Config, b: Book, sig: Signal, ref: Decimal, now: int): (Book, Option<Fill>) {
    if sig.instrument !in b.positions then (b, None)
    else
      var p := b.positions[sig.instrument];
      var x := PlanSell(cfg, p, ref);
      (Sold(b, sig, p, x, now), Some(SellFill(sig, p, x, now)))
  }

  datatype Applied = Refused | Done(fill: Option<Fill>)

  /** Apply: refuse a zero or negative price, otherwise act on the signal. */
  function DoApply(cfg: Config, b: Book, sig: Signal, ref: Decimal, now: int, order: seq<InstrumentID>): (Book, Applied)
    requires forall id :: id in order ==> id in b.positions
  {
    if ref.unscaled <= 0 then (b, Refused)
    else match sig.action
      case Buy => var (b', f) := DoBuy(cfg, b, sig, ref, now, order); (b', Done(f))
      case Sell => var (b', f) := DoSell(cfg, b, sig, ref, now); (b', Done(f))
      case Hold => (b, Done(None))
  }

  // ---- marking --------------------------------------------------------------------------------

  function Drawdown(peak: real, equity: real): real
    requires peak > 0.0
  {
    Per(peak - equity, peak) * 100.0
  }

  function Watermark(b: Book, equity: Decimal): Book {
    var peak := if Cmp(equity, b.peakEquity) > 0 then equity else b.peakEquity;
    var dd := if Value(peak) > 0.0 then Drawdown(Value(peak), Value(equity)) else b.maxDrawdown;
    b.(peakEquity := peak, maxDrawdown := if dd > b.maxDrawdown then dd else b.maxDrawdown)
  }

  function DoMark(b: Book, prices: map<InstrumentID, Decimal>, order: seq<InstrumentID>): Book
    requires forall id :: id in order ==> id in b.positions
  {
    var b' := b.(lastPrices := prices);
    Watermark(b', Equity(b', order))
  }

  // ---- reporting ------------------------------------------------------------------------------

  /** What one marked position would gain on its basis. */
  function UnrealizedOn(b: Book, id: InstrumentID): Decimal
    requires id in b.positions && id in b.lastPrices
  {
    var p := b.positions[id];
    Rescale(Mul(Sub(b.lastPrices[id], p.avgEntry), p.quantity), CENTS)
  }

  function SumUnrealized(b: Book, order: seq<InstrumentID>): Decimal
    requires forall id :: id in order ==> id in b.positions
  {
    if order == [] then ZERO
    else
      var rest, id := SumUnrealized(b, order[..|order| - 1]), order[|order| - 1];
      if id in b.lastPrices then Add(rest, UnrealizedOn(b, id)) else rest
  }

  function TotalGain(cfg: Config, b: Book, order: seq<InstrumentID>): Decimal
    requires forall id :: id in order ==> id in b.positions
  {
    Sub(Equity(b, order), cfg.startingCash)
  }

  function Percent(part: real, whole: real): real {
    if whole > 0.0 then Per(part, whole) * 100.0 else 0.0
  }

  datatype Report = Report(
    time: int,
    startingCash: Decimal,
    cash: Decimal,
    positionValue: Decimal,
    equity: Decimal,
    realizedPL: Decimal,
    unrealizedPL: Decimal,
    totalPL: Decimal,
    returnPct: real,
    feesPaid: Decimal,
    trades: nat,
    wins: nat,
    losses: nat,
    winRatePct: real,
    maxDrawdownPct: real)

  /** Snapshot, for the two map iterations it makes. */
  function ReportOf(cfg: Config, b: Book, now: int, order: seq<InstrumentID>, again: seq<InstrumentID>): Report
    requires forall id :: id in order || id in again ==> id in b.positions
  {
    var total := TotalGain(cfg, b, order);
    Report(now, cfg.startingCash, Rescale(b.cash, CENTS), Rescale(SumWorth(b, order), CENTS),
           Rescale(Equity(b, order), CENTS), Rescale(b.realized, CENTS), SumUnrealized(b, again), Rescale(total, CENTS),
           Percent(Value(total), Value(cfg.startingCash)), Rescale(b.fees, CENTS), |b.fills|, b.wins, b.losses,
           Percent(b.wins as real, (b.wins + b.losses) as real), b.maxDrawdown)
  }

  // ---- saving and restoring -------------------------------------------------------------------

  datatype SavedPosition = SavedPosition(quantity: string, avgEntry: string, openedAt: int)

  datatype SavedFill = SavedFill(time: int, instrument: InstrumentID, side: Action, price: string, quantity: string,
                                 notional: string, fee: string, realizedPL: string, reason: string)

  /** The persisted book: decimals are JSON strings, everything else is carried as it is. */
  datatype Saved = Saved(cash: string, positions: map<InstrumentID, SavedPosition>, fills: seq<SavedFill>,
                         realized: string, fees: string, wins: nat, losses: nat, peak: string, maxDrawdown: real)

  function SavePosition(p: Position): SavedPosition {
    SavedPosition(MarshalJSON(p.quantity), MarshalJSON(p.avgEntry), p.openedAt)
  }

  function SaveFill(f: Fill): SavedFill {
    SavedFill(f.time, f.instrument, f.side, MarshalJSON(f.price), MarshalJSON(f.quantity),
              MarshalJSON(f.notional), MarshalJSON(f.fee), MarshalJSON(f.realizedPL), f.reason)
  }

  function SavePositions(m: map<InstrumentID, Position>): map<InstrumentID, SavedPosition> {
    map id | id in m :: SavePosition(m[id])
  }

  function SaveFills(fs: seq<Fill>): seq<SavedFill> {
    seq(|fs|, i requires 0 <= i < |fs| => SaveFill(fs[i]))
  }

  function Save(b: Book): Saved {
    Saved(MarshalJSON(b.cash), SavePositions(b.positions), SaveFills(b.fills),
          MarshalJSON(b.realized), MarshalJSON(b.fees), b.wins, b.losses, MarshalJSON(b.peakEquity), b.maxDrawdown)
  }

  predicate Reads(s: string) {
    UnmarshalJSON(s).Ok?
  }

  predicate PositionReads(p: SavedPosition) {
    Reads(p.quantity) && Reads(p.avgEntry)
  }

  predicate FillReads(f: SavedFill) {
    Reads(f.price) && Reads(f.quantity) && Reads(f.notional) && Reads(f.fee) && Reads(f.realizedPL)
  }

  predicate SavedReads(s: Saved) {
    && Reads(s.cash) && Reads(s.realized) && Reads(s.fees) && Reads(s.peak)
    && PositionsRead(s.positions) && FillsRead(s.fills)
  }

  predicate PositionsRead(m: map<InstrumentID, SavedPosition>) {
    forall id :: id in m ==> PositionReads(m[id])
  }

  predicate FillsRead(fs: seq<SavedFill>) {
    forall i :: 0 <= i < |fs| ==> FillReads(fs[i])
  }

  function Read(s: string): Decimal
    requires Reads(s)
  {
    UnmarshalJSON(s).value
  }

  function ReadPosition(p: SavedPosition): Position
    requires PositionReads(p)
  {
    Position(Read(p.quantity), Read(p.avgEntry), p.openedAt)
  }

  function ReadFill(f: SavedFill): Fill
    requires FillReads(f)
  {
    Fill(f.time, f.instrument, f.side, Read(f.price), Read(f.quantity), Read(f.notional), Read(f.fee), Read(f.realizedPL), f.reason)
  }

  function ReadPositions(m: map<InstrumentID, SavedPosition>): map<InstrumentID, Position>
    requires PositionsRead(m)
  {
    map id | id in m :: ReadPosition(m[id])
  }

  function ReadFills(fs: seq<SavedFill>): seq<Fill>
    requires FillsRead(fs)
  {
    seq(|fs|, i requires 0 <= i < |fs| => ReadFill(fs[i]))
  }

  /** What json.Unmarshal makes of a saved book. */
  datatype Persisted = Persisted(
    cash: Decimal,
    positions: map<InstrumentID, Position>,
    fills: seq<Fill>,
    realized: Decimal,
    fees: Decimal,
    wins: nat,
    losses: nat,
    peak: Decimal,
    maxDrawdown: real)

  function Decoded(s: Saved): Option<Persisted> {
    if !SavedReads(s) then None
    else Some(Persisted(Read(s.cash), ReadPositions(s.positions), ReadFills(s.fills), Read(s.realized), Read(s.fees),
                        s.wins, s.losses, Read(s.peak), s.maxDrawdown))
  }

  /** UnmarshalState over an account: all of the saved fields, or none of them. Marks are not persisted. */
  function Restored(into: Book, s: Saved): Option<Book> {
    match Decoded(s)
    case None => None
    case Some(p) =>
      Some(Book(p.cash, p.positions, into.lastPrices, p.fills, p.realized, p.fees, p.wins, p.losses, p.peak, p.maxDrawdown))
  }

  /** A restart: a new account, restored from the saved one where that succeeds. */
  function Restarted(cfg: Config, b: Book): Book {
    match Restored(NewBook(cfg), Save(b))
    case Some(r) => r
    case None => NewBook(cfg)
  }

  // ---- the account ----------------------------------------------------------------------------

  class Account {
    const cfg: Config
    var cash: Decimal
    var positions: map<InstrumentID, Position>
    var lastPrices: map<InstrumentID, Decimal>
    var fills: seq<Fill>
    var realized: Decimal
    var fees: Decimal
    var wins: nat
    var losses: nat
    var peakEquity: Decimal
    var maxDrawdown: real

    function View(): Book
      reads this
    {
      Book(cash, positions, lastPrices, fills, realized, fees, wins, losses, peakEquity, maxDrawdown)
    }

    constructor (cfg: Config)
      ensures this.cfg == Normalized(cfg) && View() == NewBook(Normalized(cfg))
    {
      var c := Normalized(cfg);
      this.cfg := c;
      cash, peakEquity := c.startingCash, c.startingCash;
      positions, lastPrices, fills := map[], map[], [];
      realized, fees, wins, losses, maxDrawdown := ZERO, ZERO, 0, 0, 0.0;
    }

    method PositionValue(order: seq<InstrumentID>) returns (total: Decimal)
      requires Lists(order, View())
      ensures total == Rescale(SumWorth(View(), order), CENTS)
    {
      total := ZERO;
      var i := 0;
      while i < |order|
        invariant 0 <= i <= |order|
        invariant total == SumWorth(View(), order[..i])
      {
        assert order[i] in order;
        assert order[..i + 1][..i] == order[..i];
        var p := positions[order[i]];
        var px := p.avgEntry;
        if order[i] in lastPrices {
          px := lastPrices[order[i]];
        }
        total := Add(total, Rescale(Mul(px, p.quantity), CENTS));
        i := i + 1;
      }
      assert order[..i] == order;
      total := Rescale(total, CENTS);
    }

    /** The arithmetic of buy, with its early returns. */
    method PlanOrder(strength: real, ref: Decimal, order: seq<InstrumentID>) returns (plan: Option<Order>)
      requires Lists(order, View())
      ensures plan == PlanBuy(cfg, cash, Equity(View(), order), strength, ref)
    {
      var price := BuyPrice(cfg, ref);
      var held := PositionValue(order);
      var equity := Add(cash, held);
      var budget := SizeBudget(equity, strength);
      if budget.unscaled <= 0 {
        return None;
      }
      var quantity := Size(cfg, budget, price);
      if quantity.unscaled <= 0 {
        return None;
      }
      plan := Afford(price, quantity);
    }

    method SizeBudget(equity: Decimal, strength: real) returns (budget: Decimal)
      ensures budget == Budget(cfg, cash, equity, strength)
    {
      budget := FromFloat(Part(Part(Value(equity), cfg.maxPositionFraction), Clamp01(strength)), CENTS);
      if Cmp(budget, cash) > 0 {
        budget := cash;
      }
      budget := FromFloat(Per(Value(budget), 1.0 + cfg.feeRate), CENTS);
    }

    method Afford(price: Decimal, quantity: Decimal) returns (plan: Option<Order>)
      requires quantity.unscaled > 0
      ensures plan == Affordable(cfg, cash, price, quantity)
    {
      var notional := Rescale(Mul(price, quantity), CENTS);
      var fee := FromFloat(Part(Value(notional), cfg.feeRate), CENTS);
      var total := Add(notional, fee);
      if Cmp(total, cash) > 0 {
        return None;
      }
      PriceNonZero(quantity);
      var basis := FromFloat(Per(Value(total), Value(quantity)), cfg.pricePrecision);
      plan := Some(Order(price, quantity, notional, fee, total, basis));
    }

    method BuyNow(sig: Signal, ref: Decimal, now: int, order: seq<InstrumentID>) returns (fill: Option<Fill>)
      requires Lists(order, View())
      modifies this
      ensures (View(), fill) == DoBuy(cfg, old(View()), sig, ref, now, order)
    {
      if sig.instrument in positions {
        return None;
      }
      var plan := PlanOrder(sig.strength, ref, order);
      if plan.None? {
        return None;
      }
      var o := plan.value;
      cash := Sub(cash, o.total);
      fees := Add(fees, o.fee);
      positions := positions[sig.instrument := Position(o.quantity, o.basis, now)];
      var f := BuyFill(sig, o, now);
      fills := fills + [f];
      fill := Some(f);
    }

    /** The arithmetic of sell. */
    method PlanExit(p: Position, ref: Decimal) returns (x: Exit)
      ensures x == PlanSell(cfg, p, ref)
    {
      var price := SellPrice(cfg, ref);
      var notional := Rescale(Mul(price, p.quantity), CENTS);
      var fee := FromFloat(Part(Value(notional), cfg.feeRate), CENTS);
      var proceeds := Sub(notional, fee);
      var cost := Rescale(Mul(p.avgEntry, p.quantity), CENTS);
      x := Exit(price, notional, fee, proceeds, cost, Sub(proceeds, cost));
    }

    method SellNow(sig: Signal, ref: Decimal, now: int) returns (fill: Option<Fill>)
      modifies this
      ensures (View(), fill) == DoSell(cfg, old(View()), sig, ref, now)
    {
      if sig.instrument !in positions {
        return None;
      }
      var p := positions[sig.instrument];
      var x := PlanExit(p, ref);
      var f := Close(sig, p, x, now);
      fill := Some(f);
    }

    method Close(sig: Signal, p: Position, x: Exit, now: int) returns (f: Fill)
      modifies this
      ensures View() == Sold(old(View()), sig, p, x, now) && f == SellFill(sig, p, x, now)
    {
      cash := Add(cash, x.proceeds);
      fees := Add(fees, x.fee);
      realized := Add(realized, x.realized);
      if x.realized.unscaled < 0 {
        losses := losses + 1;
      } else {
        wins := wins + 1;
      }
      positions := positions - {sig.instrument};
      f := SellFill(sig, p, x, now);
      fills := fills + [f];
    }

    method Apply(sig: Signal, ref: Decimal, now: int, order: seq<InstrumentID>) returns (r: Applied)
      requires Lists(order, View())
      modifies this
      ensures (View(), r) == DoApply(cfg, old(View()), sig, ref, now, order)
    {
      if ref.unscaled <= 0 {
        return Refused;
      }
      var fill := None;
      match sig.action {
        case Buy => fill := BuyNow(sig, ref, now, order);
        case Sell => fill := SellNow(sig, ref, now);
        case Hold =>
      }
      r := Done(fill);
    }

    method Mark(prices: map<InstrumentID, Decimal>, order: seq<InstrumentID>)
      requires Lists(order, View())
      modifies this
      ensures View() == DoMark(old(View()), prices, order)
    {
      lastPrices := prices;
      var held := PositionValue(order);
      var equity := Add(cash, held);
      if Cmp(equity, peakEquity) > 0 {
        peakEquity := equity;
      }
      var peak := Value(peakEquity);
      if peak > 0.0 {
        var dd := Drawdown(peak, Value(equity));
        if dd > maxDrawdown {
          maxDrawdown := dd;
        }
      }
    }

    method Unrealized(order: seq<InstrumentID>) returns (total: Decimal)
      requires Lists(order, View())
      ensures total == SumUnrealized(View(), order)
    {
      total := ZERO;
      var i := 0;
      while i < |order|
        invariant 0 <= i <= |order|
        invariant total == SumUnrealized(View(), order[..i])
      {
        var id := order[i];
        assert id in order;
        assert order[..i + 1][..i] == order[..i];
        if id in lastPrices {
          var p := positions[id];
          total := Add(total, Rescale(Mul(Sub(lastPrices[id], p.avgEntry), p.quantity), CENTS));
        }
        i := i + 1;
      }
      assert order[..i] == order;
    }

    method Snapshot(now: int, order: seq<InstrumentID>, again: seq<InstrumentID>) returns (r: Report)
      requires Lists(order, View()) && Lists(again, View())
      ensures r == ReportOf(cfg, View(), now, order, again)
    {
      var held := PositionValue(order);
      var equity := Add(cash, held);
      var unrealized := Unrealized(again);
      var total := Sub(equity, cfg.startingCash);
      var returnPct := Percent(Value(total), Value(cfg.startingCash));
      var winRate := Percent(wins as real, (wins + losses) as real);
      r := Report(now, cfg.startingCash, Rescale(cash, CENTS), held, Rescale(equity, CENTS), Rescale(realized, CENTS),
                  unrealized, Rescale(total, CENTS), returnPct, Rescale(fees, CENTS), |fills|, wins, losses, winRate,
                  maxDrawdown);
    }

    method MarshalState() returns (s: Saved)
      ensures s == Save(View())
    {
      s := Save(View());
    }

    method UnmarshalState(s: Saved) returns (ok: bool)
      modifies this
      ensures match Restored(old(View()), s)
        case Some(b) => ok && View() == b
        case None => !ok && View() == old(View())
    {
      var decoded := Decoded(s);
      if decoded.None? {
        return false;
      }
      var p := decoded.value;
      cash := p.cash;
      positions := p.positions;
      fills := p.fills;
      realized := p.realized;
      fees := p.fees;
      wins, losses := p.wins, p.losses;
      peakEquity := p.peak;
      maxDrawdown := p.maxDrawdown;
      ok := true;
    }
  }
}

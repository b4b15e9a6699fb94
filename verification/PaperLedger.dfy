/** The account over whole runs (internal/consumer/paper/paper.go): trades, marks and restarts in any order. What the
    fill log looks like, and how it accounts for the positions and the counters. */
module PaperLedger {
  import opened Decimal
  import opened DecimalFloat
  import DecimalMonotone
  import opened Market
  import opened Paper
  import opened PaperRestart
  import PaperRoundTrip

  datatype Event =
    | Trade(sig: Signal, ref: Decimal, now: int, order: seq<InstrumentID>)
    | MarkTo(prices: map<InstrumentID, Decimal>, order: seq<InstrumentID>)
    | Restart(saved: nat)

  ghost predicate Legal(b: Book, e: Event) {
    e.Restart? || Lists(e.order, b)
  }

  ghost function Step(cfg: Config, b: Book, e: Event): Book
    requires Legal(b, e)
  {
    match e
    case Trade(sig, ref, now, order) => DoApply(cfg, b, sig, ref, now, order).0
    case MarkTo(prices, order) => DoMark(b, prices, order)
    case Restart(_) => Restarted(cfg, b)
  }

  /** The book event number i acts on: the current one, or for a restart the one last saved, however old. */
  function Base(e: Event, i: nat): nat {
    if e.Restart? then e.saved else i
  }

  ghost predicate Follows(cfg: Config, run: seq<Book>, e: Event, i: nat)
    requires i + 1 < |run|
  {
    var k := Base(e, i);
    k <= i && Legal(run[k], e) && run[i + 1] == Step(cfg, run[k], e)
  }

  /** The books an account goes through. */
  ghost predicate IsRun(cfg: Config, run: seq<Book>, events: seq<Event>) {
    && |run| == |events| + 1
    && run[0] == NewBook(cfg)
    && (forall i :: 0 <= i < |events| ==> Follows(cfg, run, events[i], i))
  }

  // ---- the fill log ----------------------------------------------------------------------------

  /** One instrument's fills, in order. */
  function History(fills: seq<Fill>, id: InstrumentID): seq<Fill> {
    if fills == [] then []
    else
      var n := |fills| - 1;
      if fills[n].instrument == id then History(fills[..n], id) + [fills[n]] else History(fills[..n], id)
  }

  function Count(fills: seq<Fill>, side: Action): nat {
    if fills == [] then 0
    else
      var n := |fills| - 1;
      Count(fills[..n], side) + if fills[n].side == side then 1 else 0
  }

  /** The exits that lost nothing, or (won false) those that lost something. */
  function Outcomes(fills: seq<Fill>, won: bool): nat {
    if fills == [] then 0
    else
      var f := fills[|fills| - 1];
      Outcomes(fills[..|fills| - 1], won) + if f.side == Sell && (f.realizedPL.unscaled >= 0) == won then 1 else 0
  }

  lemma OutcomesSnoc(fills: seq<Fill>, f: Fill, won: bool)
    ensures Outcomes(fills + [f], won) == Outcomes(fills, won) + if f.side == Sell && (f.realizedPL.unscaled >= 0) == won then 1 else 0
  {
    assert (fills + [f])[..|fills|] == fills;
  }

  lemma HistorySnoc(fills: seq<Fill>, f: Fill, id: InstrumentID)
    ensures History(fills + [f], id) == if f.instrument == id then History(fills, id) + [f] else History(fills, id)
  {
    assert (fills + [f])[..|fills|] == fills;
  }

  lemma CountSnoc(fills: seq<Fill>, f: Fill, side: Action)
    ensures Count(fills + [f], side) == Count(fills, side) + if f.side == side then 1 else 0
  {
    assert (fills + [f])[..|fills|] == fills;
  }

  /** A fill at the configured costs. */
  ghost predicate Costed(cfg: Config, f: Fill) {
    && f.quantity.unscaled > 0 && ScaledFill(f)
    && f.notional == Notional(f.price, f.quantity) && f.fee == FeeOn(cfg, f.notional)
  }

  /** What an entry paid, and the basis it recorded. */
  function Paid(entry: Fill): Decimal {
    Add(entry.notional, entry.fee)
  }

  function EntryBasis(cfg: Config, entry: Fill): Decimal
    requires entry.quantity.unscaled > 0
  {
    Basis(cfg, Paid(entry), entry.quantity)
  }

  /** What the exit takes the entry to have cost. */
  function Cost(cfg: Config, entry: Fill): Decimal
    requires entry.quantity.unscaled > 0
  {
    Notional(EntryBasis(cfg, entry), entry.quantity)
  }

  ghost predicate Enters(cfg: Config, f: Fill) {
    f.side == Buy && Costed(cfg, f) && f.realizedPL == ZERO && f.price.unscaled >= 0
  }

  /** exit closes exactly what entry opened, and books the difference. */
  ghost predicate Closes(cfg: Config, entry: Fill, exit: Fill) {
    && exit.side == Sell && Costed(cfg, exit)
    && entry.quantity.unscaled > 0 && exit.quantity == entry.quantity
    && exit.realizedPL == Sub(Sub(exit.notional, exit.fee), Cost(cfg, entry))
  }

  ghost predicate Link(cfg: Config, h: seq<Fill>, i: nat)
    requires i < |h|
  {
    if i % 2 == 0 then Enters(cfg, h[i]) else Closes(cfg, h[i - 1], h[i])
  }

  /** Entry, exit, entry, exit, ... */
  ghost predicate Alternates(cfg: Config, h: seq<Fill>) {
    forall i :: 0 <= i < |h| ==> Link(cfg, h, i)
  }

  ghost predicate Holds(cfg: Config, p: Position, entry: Fill) {
    && entry.quantity.unscaled > 0
    && p.quantity == entry.quantity && p.avgEntry == EntryBasis(cfg, entry) && p.openedAt == entry.time
  }

  /** A history and what is held of that instrument. */
  ghost predicate Matches(cfg: Config, h: seq<Fill>, held: Option<Position>) {
    && Alternates(cfg, h)
    && (held.Some? <==> |h| % 2 == 1)
    && (held.Some? ==> Holds(cfg, held.value, h[|h| - 1]))
  }

  function Held(positions: map<InstrumentID, Position>, id: InstrumentID): Option<Position> {
    if id in positions then Some(positions[id]) else None
  }

  ghost predicate Tracks(cfg: Config, fills: seq<Fill>, positions: map<InstrumentID, Position>) {
    forall id :: Matches(cfg, History(fills, id), Held(positions, id))
  }

  ghost predicate Counted(fills: seq<Fill>, positions: map<InstrumentID, Position>, wins: nat, losses: nat) {
    && wins == Outcomes(fills, true) && losses == Outcomes(fills, false) && wins + losses == Count(fills, Sell)
    && Count(fills, Buy) - Count(fills, Sell) == |positions|
  }

  ghost predicate Sound(cfg: Config, b: Book) {
    && Tracks(cfg, b.fills, b.positions)
    && Counted(b.fills, b.positions, b.wins, b.losses)
    && ScaledBook(b)
  }

  // ---- trades keep the log sound -----------------------------------------------------------------------------------

  lemma AlternatesSnoc(cfg: Config, h: seq<Fill>, f: Fill)
    requires Alternates(cfg, h)
    requires if |h| % 2 == 0 then Enters(cfg, f) else Closes(cfg, h[|h| - 1], f)
    ensures Alternates(cfg, h + [f])
  {
    var g := h + [f];
    forall i | 0 <= i < |g|
      ensures Link(cfg, g, i)
    {
      if i < |h| {
        LinkPrefix(cfg, h, f, i);
      } else if i > 0 {
        assert g[i - 1] == h[i - 1];
      }
    }
  }

  lemma LinkPrefix(cfg: Config, h: seq<Fill>, f: Fill, i: nat)
    requires i < |h| && Link(cfg, h, i)
    ensures Link(cfg, h + [f], i)
  {
    assert (h + [f])[i] == h[i];
    if i > 0 {
      assert (h + [f])[i - 1] == h[i - 1];
    }
  }

  lemma EnterMatches(cfg: Config, h: seq<Fill>, f: Fill, p: Position)
    requires Matches(cfg, h, None) && Enters(cfg, f) && Holds(cfg, p, f)
    ensures Matches(cfg, h + [f], Some(p))
  {
    AlternatesSnoc(cfg, h, f);
  }

  ghost predicate LastOf(h: seq<Fill>, f: Fill) {
    h != [] && h[|h| - 1] == f
  }

  lemma ExitMatches(cfg: Config, h: seq<Fill>, f: Fill, p: Position, entry: Fill)
    requires Matches(cfg, h, Some(p)) && LastOf(h, entry) && Closes(cfg, entry, f)
    ensures Matches(cfg, h + [f], None)
  {
    AlternatesSnoc(cfg, h, f);
    NextEven(|h|);
    assert |h + [f]| == |h| + 1;
  }

  lemma NextEven(n: nat)
    requires n % 2 == 1
    ensures (n + 1) % 2 == 0
  {
  }

  lemma BuyTracks(cfg: Config, fills: seq<Fill>, positions: map<InstrumentID, Position>, f: Fill, p: Position)
    requires Tracks(cfg, fills, positions) && f.instrument !in positions && Enters(cfg, f) && Holds(cfg, p, f)
    ensures Tracks(cfg, fills + [f], positions[f.instrument := p])
  {
    forall id
      ensures Matches(cfg, History(fills + [f], id), Held(positions[f.instrument := p], id))
    {
      HistorySnoc(fills, f, id);
      assert Matches(cfg, History(fills, id), Held(positions, id));
      if id == f.instrument {
        EnterMatches(cfg, History(fills, id), f, p);
      }
    }
  }

  lemma SellTracks(cfg: Config, fills: seq<Fill>, positions: map<InstrumentID, Position>, f: Fill, entry: Fill)
    requires Tracks(cfg, fills, positions) && f.instrument in positions
    requires LastOf(History(fills, f.instrument), entry) && Closes(cfg, entry, f)
    ensures Tracks(cfg, fills + [f], positions - {f.instrument})
  {
    forall id
      ensures Matches(cfg, History(fills + [f], id), Held(positions - {f.instrument}, id))
    {
      HistorySnoc(fills, f, id);
      assert Matches(cfg, History(fills, id), Held(positions, id));
      if id == f.instrument {
        ExitMatches(cfg, History(fills, id), f, positions[id], entry);
      }
    }
  }

  lemma BuyCounted(fills: seq<Fill>, positions: map<InstrumentID, Position>, wins: nat, losses: nat, f: Fill, p: Position)
    requires Counted(fills, positions, wins, losses) && f.instrument !in positions && f.side == Buy
    ensures Counted(fills + [f], positions[f.instrument := p], wins, losses)
  {
    CountSnoc(fills, f, Buy);
    CountSnoc(fills, f, Sell);
    OutcomesSnoc(fills, f, true);
    OutcomesSnoc(fills, f, false);
  }

  lemma SellCounted(fills: seq<Fill>, positions: map<InstrumentID, Position>, wins: nat, losses: nat, f: Fill, won: nat, lost: nat)
    requires Counted(fills, positions, wins, losses) && f.instrument in positions && f.side == Sell
    requires won == (if f.realizedPL.unscaled >= 0 then 1 else 0) && lost == (if f.realizedPL.unscaled < 0 then 1 else 0)
    ensures Counted(fills + [f], positions - {f.instrument}, wins + won, losses + lost)
  {
    CountSnoc(fills, f, Buy);
    CountSnoc(fills, f, Sell);
    OutcomesSnoc(fills, f, true);
    OutcomesSnoc(fills, f, false);
    assert positions.Keys == (positions - {f.instrument}).Keys + {f.instrument};
    assert |positions| == |positions.Keys|;
    assert |positions - {f.instrument}| == |(positions - {f.instrument}).Keys|;
  }

  // ---- scales ----------------------------------------------------------------------------------

  lemma NotionalInScale(price: Decimal, quantity: Decimal)
    ensures InScale(Notional(price, quantity))
  {
    RescaleInScale(Mul(price, quantity));
  }

  lemma RescaleInScale(d: Decimal)
    requires InScale(d)
    ensures InScale(Rescale(d, CENTS))
  {
  }

  lemma SubInScale(x: Decimal, y: Decimal)
    requires InScale(x) && InScale(y)
    ensures InScale(Sub(x, y))
  {
    PaperRoundTrip.AddInScale(x, Neg(y));
  }

  lemma {:induction false} SumWorthInScale(b: Book, order: seq<InstrumentID>)
    requires forall id :: id in order ==> id in b.positions
    ensures InScale(SumWorth(b, order))
  {
    if order != [] {
      var n := |order| - 1;
      SumWorthInScale(b, order[..n]);
      WorthInScale(b, order[n]);
      PaperRoundTrip.AddInScale(SumWorth(b, order[..n]), Worth(b, order[n]));
    }
  }

  lemma WorthInScale(b: Book, id: InstrumentID)
    requires id in b.positions
    ensures InScale(Worth(b, id))
  {
    var p := b.positions[id];
    NotionalInScale(if id in b.lastPrices then b.lastPrices[id] else p.avgEntry, p.quantity);
  }

  lemma EquityInScale(b: Book, order: seq<InstrumentID>)
    requires (forall id :: id in order ==> id in b.positions) && InScale(b.cash)
    ensures InScale(Equity(b, order))
  {
    SumWorthInScale(b, order);
    RescaleInScale(SumWorth(b, order));
    PaperRoundTrip.AddInScale(b.cash, Rescale(SumWorth(b, order), CENTS));
  }

  lemma ScaledSnoc(fills: seq<Fill>, f: Fill)
    requires ScaledFills(fills) && ScaledFill(f)
    ensures ScaledFills(fills + [f])
  {
  }

  // ---- steps -----------------------------------------------------------------------------------

  /** An order as PlanBuy computes it. */
  ghost predicate Planned(cfg: Config, cash: Decimal, o: Order) {
    && o.quantity.unscaled > 0 && InScale(o.quantity) && o.price.unscaled >= 0 && InScale(o.price)
    && o.notional == Notional(o.price, o.quantity) && o.fee == FeeOn(cfg, o.notional)
    && o.total == Add(o.notional, o.fee) && o.basis == Basis(cfg, o.total, o.quantity)
    && Cmp(o.total, cash) <= 0
  }

  lemma PlanBuyPlanned(cfg: Config, cash: Decimal, equity: Decimal, strength: real, ref: Decimal, o: Order)
    requires ref.unscaled > 0 && PlanBuy(cfg, cash, equity, strength, ref) == Some(o)
    ensures Planned(cfg, cash, o)
  {
    PaperRoundTrip.OrderOf(cfg, cash, equity, strength, ref, o);
    PaperRoundTrip.OrderAmounts(cfg, cash, o);
    DecimalMonotone.ValueAtMost(ref);
    PaperRoundTrip.RateSign(Value(ref), 1.0 + cfg.slippageRate);
    FromFloatSign(Part(Value(ref), 1.0 + cfg.slippageRate), cfg.pricePrecision);
  }

  lemma BuyEnters(cfg: Config, cash: Decimal, sig: Signal, o: Order, now: int)
    requires Planned(cfg, cash, o)
    ensures Enters(cfg, BuyFill(sig, o, now))
    ensures Holds(cfg, Position(o.quantity, o.basis, now), BuyFill(sig, o, now))
  {
    NotionalInScale(o.price, o.quantity);
  }

  lemma BuyScaled(cfg: Config, b: Book, sig: Signal, o: Order, now: int)
    requires ScaledBook(b) && Planned(cfg, b.cash, o)
    ensures ScaledBook(Bought(b, sig, o, now))
  {
    NotionalInScale(o.price, o.quantity);
    PaperRoundTrip.AddInScale(o.notional, o.fee);
    SubInScale(b.cash, o.total);
    PaperRoundTrip.AddInScale(b.fees, o.fee);
    ScaledSnoc(b.fills, BuyFill(sig, o, now));
  }

  lemma BuySound(cfg: Config, b: Book, sig: Signal, o: Order, now: int)
    requires Sound(cfg, b) && sig.instrument !in b.positions && Planned(cfg, b.cash, o)
    ensures Sound(cfg, Bought(b, sig, o, now))
  {
    var f, p := BuyFill(sig, o, now), Position(o.quantity, o.basis, now);
    BuyEnters(cfg, b.cash, sig, o, now);
    BuyTracks(cfg, b.fills, b.positions, f, p);
    BuyCounted(b.fills, b.positions, b.wins, b.losses, f, p);
    BuyScaled(cfg, b, sig, o, now);
  }

  lemma SellCloses(cfg: Config, sig: Signal, p: Position, entry: Fill, ref: Decimal, now: int)
    requires Holds(cfg, p, entry) && ScaledPosition(p)
    ensures Closes(cfg, entry, SellFill(sig, p, PlanSell(cfg, p, ref), now))
  {
    var x := PlanSell(cfg, p, ref);
    NotionalInScale(x.price, p.quantity);
    NotionalInScale(p.avgEntry, p.quantity);
    SubInScale(x.notional, x.fee);
    SubInScale(x.proceeds, x.cost);
  }

  lemma SellScaled(cfg: Config, b: Book, sig: Signal, p: Position, ref: Decimal, now: int, f: Fill)
    requires ScaledBook(b) && f == SellFill(sig, p, PlanSell(cfg, p, ref), now) && ScaledFill(f)
    ensures ScaledBook(Sold(b, sig, p, PlanSell(cfg, p, ref), now))
  {
    var x := PlanSell(cfg, p, ref);
    SubInScale(x.notional, x.fee);
    PaperRoundTrip.AddInScale(b.cash, x.proceeds);
    PaperRoundTrip.AddInScale(b.fees, x.fee);
    PaperRoundTrip.AddInScale(b.realized, x.realized);
    ScaledSnoc(b.fills, f);
  }

  lemma SellSound(cfg: Config, b: Book, sig: Signal, ref: Decimal, now: int, p: Position)
    requires Sound(cfg, b) && sig.instrument in b.positions && p == b.positions[sig.instrument]
    ensures Sound(cfg, Sold(b, sig, p, PlanSell(cfg, p, ref), now))
  {
    var entry := EntryHeld(cfg, b, sig.instrument);
    SellCloses(cfg, sig, p, entry, ref, now);
    var f := SellFill(sig, p, PlanSell(cfg, p, ref), now);
    SellTracks(cfg, b.fills, b.positions, f, entry);
    SellScaled(cfg, b, sig, p, ref, now, f);
    SoldCounted(b, sig, p, PlanSell(cfg, p, ref), now);
  }

  /** The entry behind an open position. */
  lemma EntryHeld(cfg: Config, b: Book, id: InstrumentID) returns (entry: Fill)
    requires Sound(cfg, b) && id in b.positions
    ensures LastOf(History(b.fills, id), entry) && Holds(cfg, b.positions[id], entry) && Enters(cfg, entry)
  {
    entry := HeldEntry(cfg, b.fills, b.positions, id);
  }

  lemma HeldEntry(cfg: Config, fills: seq<Fill>, positions: map<InstrumentID, Position>, id: InstrumentID) returns (entry: Fill)
    requires Tracks(cfg, fills, positions) && id in positions
    ensures LastOf(History(fills, id), entry) && Holds(cfg, positions[id], entry) && Enters(cfg, entry)
  {
    assert Matches(cfg, History(fills, id), Held(positions, id));
    entry := LastEnters(cfg, History(fills, id), positions[id]);
  }

  lemma LastEnters(cfg: Config, h: seq<Fill>, p: Position) returns (entry: Fill)
    requires Matches(cfg, h, Some(p))
    ensures LastOf(h, entry) && Holds(cfg, p, entry) && Enters(cfg, entry)
  {
    var n := |h| - 1;
    OddLength(|h|);
    assert Link(cfg, h, n);
    EvenLink(cfg, h, n);
    entry := h[n];
  }

  lemma OddLength(n: nat)
    requires n % 2 == 1
    ensures n > 0 && (n - 1) % 2 == 0
  {
  }

  lemma EvenLink(cfg: Config, h: seq<Fill>, i: nat)
    requires i < |h| && Link(cfg, h, i) && i % 2 == 0
    ensures Enters(cfg, h[i])
  {
  }

  lemma SoldCounted(b: Book, sig: Signal, p: Position, x: Exit, now: int)
    requires Counted(b.fills, b.positions, b.wins, b.losses) && sig.instrument in b.positions
    ensures var r := Sold(b, sig, p, x, now); Counted(r.fills, r.positions, r.wins, r.losses)
  {
    SellCounted(b.fills, b.positions, b.wins, b.losses, SellFill(sig, p, x, now),
                if x.realized.unscaled < 0 then 0 else 1, if x.realized.unscaled < 0 then 1 else 0);
  }

  lemma MarkSound(cfg: Config, b: Book, prices: map<InstrumentID, Decimal>, order: seq<InstrumentID>)
    requires Sound(cfg, b) && Lists(order, b)
    ensures Sound(cfg, DoMark(b, prices, order))
  {
    EquityInScale(b.(lastPrices := prices), order);
  }

  lemma NewBookSound(cfg: Config)
    requires InScale(cfg.startingCash)
    ensures Sound(cfg, NewBook(cfg))
  {
  }

  /** A restart keeps everything but the marks, or starts afresh where the save cannot be read back. */
  lemma RestartIs(cfg: Config, b: Book)
    requires ScaledBook(b)
    ensures Restarted(cfg, b) == if CleanBook(b) then b.(lastPrices := map[]) else NewBook(cfg)
  {
    RestoreRoundTrips(NewBook(cfg), b);
  }

  /** Soundness does not look at the marks. */
  lemma UnmarkedSound(cfg: Config, b: Book, r: Book)
    requires Sound(cfg, b) && r == b.(lastPrices := r.lastPrices)
    ensures Sound(cfg, r)
  {
  }

  lemma FreshSound(cfg: Config, r: Book)
    requires InScale(cfg.startingCash) && r == NewBook(cfg)
    ensures Sound(cfg, r)
  {
    NewBookSound(cfg);
  }

  lemma RestartSound(cfg: Config, b: Book, r: Book)
    requires Sound(cfg, b) && InScale(cfg.startingCash) && r == Restarted(cfg, b)
    ensures Sound(cfg, r)
  {
    RestartIs(cfg, b);
    if CleanBook(b) {
      UnmarkedSound(cfg, b, r);
    } else {
      FreshSound(cfg, r);
    }
  }

  /** What a trade does to the book: nothing, a planned buy, or the sale of what is held. */
  ghost predicate Buys(cfg: Config, b: Book, sig: Signal, now: int, b': Book, o: Order) {
    sig.instrument !in b.positions && Planned(cfg, b.cash, o) && b' == Bought(b, sig, o, now)
  }

  ghost predicate Sells(cfg: Config, b: Book, sig: Signal, ref: Decimal, now: int, b': Book) {
    && ref.unscaled > 0
    && sig.instrument in b.positions
    && var p := b.positions[sig.instrument]; b' == Sold(b, sig, p, PlanSell(cfg, p, ref), now)
  }

  lemma TradeShape(cfg: Config, b: Book, sig: Signal, ref: Decimal, now: int, order: seq<InstrumentID>)
    requires forall id :: id in order ==> id in b.positions
    ensures var b' := DoApply(cfg, b, sig, ref, now, order).0;
      b' == b || (exists o :: Buys(cfg, b, sig, now, b', o)) || Sells(cfg, b, sig, ref, now, b')
  {
    if ref.unscaled > 0 {
      if sig.action == Sell && sig.instrument in b.positions {
        PaperRoundTrip.SellOf(cfg, b, sig, ref, now, b.positions[sig.instrument]);
      } else if sig.action == Buy && sig.instrument !in b.positions {
        BuyShape(cfg, b, sig, ref, now, order);
      }
    }
  }

  lemma BuyShape(cfg: Config, b: Book, sig: Signal, ref: Decimal, now: int, order: seq<InstrumentID>)
    requires forall id :: id in order ==> id in b.positions
    requires ref.unscaled > 0
    ensures var b' := DoBuy(cfg, b, sig, ref, now, order).0;
      b' == b || (exists o :: Buys(cfg, b, sig, now, b', o))
  {
    var plan := PlanBuy(cfg, b.cash, Equity(b, order), sig.strength, ref);
    if sig.instrument !in b.positions && plan.Some? {
      var o := plan.value;
      PlanBuyPlanned(cfg, b.cash, Equity(b, order), sig.strength, ref, o);
      assert Buys(cfg, b, sig, now, DoBuy(cfg, b, sig, ref, now, order).0, o);
    }
  }

  lemma TradeSound(cfg: Config, b: Book, sig: Signal, ref: Decimal, now: int, b': Book)
    requires Sound(cfg, b)
    requires b' == b || (exists o :: Buys(cfg, b, sig, now, b', o)) || Sells(cfg, b, sig, ref, now, b')
    ensures Sound(cfg, b')
  {
    if b' != b {
      if o :| Buys(cfg, b, sig, now, b', o) {
        BuySound(cfg, b, sig, o, now);
      } else {
        SellSound(cfg, b, sig, ref, now, b.positions[sig.instrument]);
      }
    }
  }

  lemma MarkStepSound(cfg: Config, b: Book, e: Event)
    requires Sound(cfg, b) && Legal(b, e) && e.MarkTo?
    ensures Sound(cfg, Step(cfg, b, e))
  {
    MarkSound(cfg, b, e.prices, e.order);
  }

  lemma TradeStepSound(cfg: Config, b: Book, e: Event)
    requires Sound(cfg, b) && Legal(b, e) && e.Trade?
    ensures Sound(cfg, Step(cfg, b, e))
  {
    TradeShape(cfg, b, e.sig, e.ref, e.now, e.order);
    TradeSound(cfg, b, e.sig, e.ref, e.now, Step(cfg, b, e));
  }

  lemma RestartStepSound(cfg: Config, b: Book, e: Event)
    requires Sound(cfg, b) && InScale(cfg.startingCash) && e.Restart?
    ensures Sound(cfg, Step(cfg, b, e))
  {
    RestartSound(cfg, b, Step(cfg, b, e));
  }

  lemma StepSound(cfg: Config, b: Book, e: Event)
    requires Sound(cfg, b) && Legal(b, e) && InScale(cfg.startingCash)
    ensures Sound(cfg, Step(cfg, b, e))
  {
    if e.MarkTo? {
      MarkStepSound(cfg, b, e);
    } else if e.Trade? {
      TradeStepSound(cfg, b, e);
    } else {
      RestartStepSound(cfg, b, e);
    }
  }

  /** Over every run, restarts included: each instrument's fills alternate entry and exit of the same quantity, a
      position is open exactly after an entry and carries that entry's size and basis, every exit is a win or a loss,
      and entries exceed exits by the open positions. */
  lemma {:induction false} EveryRun(cfg: Config, run: seq<Book>, events: seq<Event>, i: nat)
    requires IsRun(cfg, run, events) && i < |run| && InScale(cfg.startingCash)
    ensures Sound(cfg, run[i])
  {
    if i == 0 {
      NewBookSound(cfg);
    } else {
      var e := events[i - 1];
      assert Follows(cfg, run, e, i - 1);
      EveryRun(cfg, run, events, Base(e, i - 1));
      StepSound(cfg, run[Base(e, i - 1)], e);
    }
  }
}

/** Round trips read off the fill log (internal/consumer/paper/paper.go). The basis recorded at entry is a rounded
    quotient, so realized profit and the change in cash differ, by an amount bounded per trip. */
module PaperTrips {
  import opened Arith
  import opened Decimal
  import opened DecimalRounding
  import opened DecimalFloat
  import DecimalMonotone
  import opened Market
  import opened Paper
  import opened PaperRestart
  import opened PaperRoundTrip
  import opened PaperLedger
  import opened PaperTotals

  datatype Trip = Trip(entry: Fill, exit: Fill)

  /** fills less those of one instrument. */
  function Without(fills: seq<Fill>, id: InstrumentID): seq<Fill> {
    if fills == [] then []
    else
      var n := |fills| - 1;
      if fills[n].instrument == id then Without(fills[..n], id) else Without(fills[..n], id) + [fills[n]]
  }

  /** The entries not yet closed. */
  function Opens(fills: seq<Fill>): seq<Fill> {
    if fills == [] then []
    else
      var n := |fills| - 1;
      if fills[n].side == Sell then Without(Opens(fills[..n]), fills[n].instrument) else Opens(fills[..n]) + [fills[n]]
  }

  /** The closed trips, each exit with the fill before it on its instrument. */
  function Trips(fills: seq<Fill>): seq<Trip> {
    if fills == [] then []
    else
      var n := |fills| - 1;
      var h := History(fills[..n], fills[n].instrument);
      if fills[n].side == Sell && h != [] then Trips(fills[..n]) + [Trip(h[|h| - 1], fills[n])] else Trips(fills[..n])
  }

  function PaidSum(entries: seq<Fill>): real {
    if entries == [] then 0.0 else PaidSum(entries[..|entries| - 1]) + Value(Paid(entries[|entries| - 1]))
  }

  /** How far the recomputed cost of an entry is from what was paid. */
  function Gap(cfg: Config, entry: Fill): real
    requires entry.quantity.unscaled > 0
  {
    Value(Cost(cfg, entry)) - Value(Paid(entry))
  }

  ghost predicate Closed(cfg: Config, t: Trip) {
    Enters(cfg, t.entry) && Closes(cfg, t.entry, t.exit) && t.entry.instrument == t.exit.instrument
  }

  ghost predicate AllClosed(cfg: Config, trips: seq<Trip>) {
    forall i :: 0 <= i < |trips| ==> Closed(cfg, trips[i])
  }

  ghost function GapSum(cfg: Config, trips: seq<Trip>): real
    requires AllClosed(cfg, trips)
  {
    if trips == [] then 0.0 else GapSum(cfg, trips[..|trips| - 1]) + Gap(cfg, trips[|trips| - 1].entry)
  }

  // ---- the log's parts -------------------------------------------------------------------------

  lemma {:induction false} HistoryWithout(s: seq<Fill>, id: InstrumentID, j: InstrumentID)
    ensures History(Without(s, id), j) == if j == id then [] else History(s, j)
  {
    if s != [] {
      var n := |s| - 1;
      HistoryWithout(s[..n], id, j);
      HistorySnoc(Without(s[..n], id), s[n], j);
    }
  }

  lemma PaidSnoc(s: seq<Fill>, f: Fill)
    ensures PaidSum(s + [f]) == PaidSum(s) + Value(Paid(f))
  {
    assert (s + [f])[..|s|] == s;
  }

  lemma {:induction false} PaidWithout(s: seq<Fill>, id: InstrumentID)
    ensures PaidSum(s) == PaidSum(Without(s, id)) + PaidSum(History(s, id))
  {
    if s != [] {
      var n := |s| - 1;
      PaidWithout(s[..n], id);
      PaidSnoc(Without(s[..n], id), s[n]);
      PaidSnoc(History(s[..n], id), s[n]);
    }
  }

  lemma PaidOne(f: Fill)
    ensures PaidSum([f]) == Value(Paid(f))
  {
    PaidSnoc([], f);
    assert [] + [f] == [f];
  }

  lemma GapSnoc(cfg: Config, trips: seq<Trip>, t: Trip)
    requires AllClosed(cfg, trips) && Closed(cfg, t)
    ensures AllClosed(cfg, trips + [t]) && GapSum(cfg, trips + [t]) == GapSum(cfg, trips) + Gap(cfg, t.entry)
  {
    assert (trips + [t])[..|trips|] == trips;
  }

  lemma BuySnoc(fills: seq<Fill>, f: Fill)
    requires f.side == Buy
    ensures Opens(fills + [f]) == Opens(fills) + [f] && Trips(fills + [f]) == Trips(fills)
  {
    assert (fills + [f])[..|fills|] == fills;
  }

  lemma SellSnoc(fills: seq<Fill>, f: Fill, entry: Fill)
    requires f.side == Sell && LastOf(History(fills, f.instrument), entry)
    ensures Opens(fills + [f]) == Without(Opens(fills), f.instrument)
    ensures Trips(fills + [f]) == Trips(fills) + [Trip(entry, f)]
  {
    assert (fills + [f])[..|fills|] == fills;
  }

  /** Of one instrument: its open entries, its history, and whether it is held. */
  ghost predicate OpenIs(open: seq<Fill>, h: seq<Fill>, held: bool) {
    if held then h != [] && open == [h[|h| - 1]] else open == []
  }

  /** The open entries are the last fills of the instruments held, and the trips are closed, one per sale. */
  ghost predicate Paired(cfg: Config, fills: seq<Fill>, positions: map<InstrumentID, Position>) {
    && (forall id :: OpenIs(History(Opens(fills), id), History(fills, id), id in positions))
    && AllClosed(cfg, Trips(fills))
    && |Trips(fills)| == Count(fills, Sell)
  }

  lemma BuyPaired(cfg: Config, fills: seq<Fill>, positions: map<InstrumentID, Position>, f: Fill, p: Position)
    requires Paired(cfg, fills, positions) && f.side == Buy && f.instrument !in positions
    ensures Paired(cfg, fills + [f], positions[f.instrument := p])
  {
    BuySnoc(fills, f);
    CountSnoc(fills, f, Sell);
    forall id
      ensures OpenIs(History(Opens(fills + [f]), id), History(fills + [f], id), id in positions[f.instrument := p])
    {
      assert OpenIs(History(Opens(fills), id), History(fills, id), id in positions);
      HistorySnoc(Opens(fills), f, id);
      HistorySnoc(fills, f, id);
    }
  }

  lemma SellPaired(cfg: Config, fills: seq<Fill>, positions: map<InstrumentID, Position>, f: Fill, entry: Fill)
    requires Paired(cfg, fills, positions) && f.side == Sell && LastOf(History(fills, f.instrument), entry)
    requires Closed(cfg, Trip(entry, f))
    ensures Paired(cfg, fills + [f], positions - {f.instrument})
  {
    SellSnoc(fills, f, entry);
    CountSnoc(fills, f, Sell);
    GapSnoc(cfg, Trips(fills), Trip(entry, f));
    forall id
      ensures OpenIs(History(Opens(fills + [f]), id), History(fills + [f], id), id in positions - {f.instrument})
    {
      assert OpenIs(History(Opens(fills), id), History(fills, id), id in positions);
      HistoryWithout(Opens(fills), f.instrument, id);
      HistorySnoc(fills, f, id);
    }
  }

  /** A flat book has no open entry. */
  lemma FlatMeansClosed(cfg: Config, fills: seq<Fill>, positions: map<InstrumentID, Position>)
    requires Paired(cfg, fills, positions) && positions == map[]
    ensures Opens(fills) == []
  {
    forall id
      ensures History(Opens(fills), id) == []
    {
      assert OpenIs(History(Opens(fills), id), History(fills, id), id in positions);
    }
    NoHistoryNoFills(Opens(fills));
  }

  lemma NoHistoryNoFills(fills: seq<Fill>)
    requires forall id :: History(fills, id) == []
    ensures fills == []
  {
    var n := |fills| - 1;
    assert fills == [] || |History(fills, fills[n].instrument)| > 0;
  }

  lemma {:induction false} HistoryOwn(fills: seq<Fill>, id: InstrumentID, f: Fill)
    requires LastOf(History(fills, id), f)
    ensures f.instrument == id
  {
    var n := |fills| - 1;
    if fills[n].instrument != id {
      HistoryOwn(fills[..n], id, f);
    }
  }

  // ---- what a trip books -----------------------------------------------------------------------

  lemma EntrySign(cfg: Config, entry: Fill)
    requires Enters(cfg, entry)
    ensures InScale(Paid(entry)) && Value(Paid(entry)) >= 0.0
    ensures InScale(EntryBasis(cfg, entry)) && EntryBasis(cfg, entry).unscaled >= 0
    ensures Cost(cfg, entry).unscaled >= 0 && Cost(cfg, entry).scale <= CENTS
  {
    NotionalSign(entry.price, entry.quantity);
    FeeSign(cfg, entry.notional);
    AddInScale(entry.notional, entry.fee);
    SumSign(entry.notional, entry.fee);
    DecimalMonotone.ValueAtMost(Paid(entry));
    BasisSign(cfg, Paid(entry), entry.quantity);
    NotionalSign(EntryBasis(cfg, entry), entry.quantity);
  }

  lemma BasisSign(cfg: Config, total: Decimal, quantity: Decimal)
    requires Value(total) >= 0.0 && quantity.unscaled > 0
    ensures Value(quantity) > 0.0 && Basis(cfg, total, quantity).unscaled >= 0
  {
    RatLinear(0, quantity.unscaled, quantity.scale);
    PerSign(Value(total), Value(quantity));
    FromFloatSign(Per(Value(total), Value(quantity)), cfg.pricePrecision);
  }

  lemma PerSign(x: real, y: real)
    requires x >= 0.0 && y > 0.0
    ensures Per(x, y) >= 0.0
  {
  }

  /** The profit booked by an exit in cents is exactly its proceeds less the recomputed cost. */
  lemma RealizedExact(cfg: Config, t: Trip)
    requires Closed(cfg, t) && AtCents(t.exit)
    ensures Value(t.exit.realizedPL) == Value(t.exit.notional) - Value(t.exit.fee) - Value(Cost(cfg, t.entry))
  {
    EntrySign(cfg, t.entry);
    FeeSameSign(cfg, t.exit.notional);
    NetOfFeeExact(t.exit.notional, t.exit.fee);
    DifferenceExact(Sub(t.exit.notional, t.exit.fee), Cost(cfg, t.entry));
  }

  lemma DifferenceExact(x: Decimal, y: Decimal)
    requires x.scale == CENTS && y.scale <= CENTS && y.unscaled >= 0 && Sub(x, y).scale == CENTS
    ensures Value(Sub(x, y)) == Value(x) - Value(y)
  {
    NegAt(y, y.scale);
    AddExact(x, Neg(y));
    RatLinear(0, y.unscaled, y.scale);
  }

  // ---- reconciliation --------------------------------------------------------------------------

  /** Cash moved less profit booked, in terms of trips and open entries. */
  ghost predicate Reconciled(cfg: Config, fills: seq<Fill>)
    requires AllClosed(cfg, Trips(fills))
  {
    NetFlow(fills) - RealizedSum(fills) == GapSum(cfg, Trips(fills)) - PaidSum(Opens(fills))
  }

  lemma BuyReconciled(cfg: Config, fills: seq<Fill>, f: Fill)
    requires AllClosed(cfg, Trips(fills)) && Reconciled(cfg, fills) && f.side == Buy && f.realizedPL == ZERO
    requires Value(Paid(f)) == Value(f.notional) + Value(f.fee)
    ensures AllClosed(cfg, Trips(fills + [f])) && Reconciled(cfg, fills + [f])
  {
    BuySnoc(fills, f);
    SumsSnoc(fills, f);
    PaidSnoc(Opens(fills), f);
  }

  lemma SellReconciled(cfg: Config, fills: seq<Fill>, f: Fill, entry: Fill)
    requires AllClosed(cfg, Trips(fills)) && Reconciled(cfg, fills) && f.side == Sell && AtCents(f)
    requires LastOf(History(fills, f.instrument), entry) && Closed(cfg, Trip(entry, f))
    requires History(Opens(fills), f.instrument) == [entry]
    ensures AllClosed(cfg, Trips(fills + [f])) && Reconciled(cfg, fills + [f])
  {
    SellSnoc(fills, f, entry);
    SumsSnoc(fills, f);
    GapSnoc(cfg, Trips(fills), Trip(entry, f));
    PaidWithout(Opens(fills), f.instrument);
    PaidOne(entry);
    RealizedExact(cfg, Trip(entry, f));
  }

  /** What each entry paid is in int64 cents. */
  ghost predicate PaidInCents(fills: seq<Fill>) {
    forall f :: f in fills && f.side == Buy ==> Value(Paid(f)) <= Ceiling()
  }

  ghost predicate Accounted(cfg: Config, b: Book) {
    Paired(cfg, b.fills, b.positions) && Reconciled(cfg, b.fills) && PaidInCents(b.fills)
  }

  lemma PlannedPaid(cfg: Config, cash: Decimal, sig: Signal, o: Order, now: int)
    requires FitsCents(cash) && Planned(cfg, cash, o)
    ensures Value(Paid(BuyFill(sig, o, now))) == Value(o.notional) + Value(o.fee)
    ensures Value(Paid(BuyFill(sig, o, now))) <= Ceiling()
  {
    AffordableIsExact(cfg, cash, o);
    FitsBelowCeiling(cash);
    CentsTotal(o.notional, o.fee, o.total);
  }

  lemma CentsTotal(notional: Decimal, fee: Decimal, total: Decimal)
    requires CentsOrder(notional, fee, total)
    ensures Value(total) == Value(notional) + Value(fee)
  {
    RatLinear(notional.unscaled, fee.unscaled, CENTS);
  }

  lemma BuyAccounted(cfg: Config, b: Book, sig: Signal, o: Order, now: int)
    requires Accounted(cfg, b) && FitsCents(b.cash) && sig.instrument !in b.positions && Planned(cfg, b.cash, o)
    ensures Accounted(cfg, Bought(b, sig, o, now))
  {
    var f := BuyFill(sig, o, now);
    PlannedPaid(cfg, b.cash, sig, o, now);
    BuyPaired(cfg, b.fills, b.positions, f, Position(o.quantity, o.basis, now));
    BuyReconciled(cfg, b.fills, f);
  }

  lemma SellAccounted(cfg: Config, b: Book, sig: Signal, p: Position, ref: Decimal, now: int)
    requires Sound(cfg, b) && Accounted(cfg, b) && sig.instrument in b.positions && p == b.positions[sig.instrument]
    requires AtCents(SellFill(sig, p, PlanSell(cfg, p, ref), now))
    ensures Accounted(cfg, Sold(b, sig, p, PlanSell(cfg, p, ref), now))
  {
    var f := SellFill(sig, p, PlanSell(cfg, p, ref), now);
    var entry := EntryHeld(cfg, b, sig.instrument);
    SellCloses(cfg, sig, p, entry, ref, now);
    OpenEntry(cfg, b.fills, b.positions, sig.instrument, entry);
    LogAccounted(cfg, b.fills, b.positions, f, entry);
  }

  lemma OpenEntry(cfg: Config, fills: seq<Fill>, positions: map<InstrumentID, Position>, id: InstrumentID, entry: Fill)
    requires Paired(cfg, fills, positions) && id in positions && LastOf(History(fills, id), entry)
    ensures History(Opens(fills), id) == [entry] && entry.instrument == id
  {
    HistoryOwn(fills, id, entry);
    assert OpenIs(History(Opens(fills), id), History(fills, id), id in positions);
  }

  lemma LogAccounted(cfg: Config, fills: seq<Fill>, positions: map<InstrumentID, Position>, f: Fill, entry: Fill)
    requires Paired(cfg, fills, positions) && Reconciled(cfg, fills) && f.side == Sell && AtCents(f)
    requires LastOf(History(fills, f.instrument), entry) && Closed(cfg, Trip(entry, f))
    requires History(Opens(fills), f.instrument) == [entry]
    ensures Paired(cfg, fills + [f], positions - {f.instrument}) && Reconciled(cfg, fills + [f])
  {
    SellPaired(cfg, fills, positions, f, entry);
    SellReconciled(cfg, fills, f, entry);
  }

  lemma TradeAccounted(cfg: Config, b: Book, sig: Signal, ref: Decimal, now: int, b': Book)
    requires FitsCents(cfg.startingCash) && Kept(cfg, b) && Accounted(cfg, b) && AllAtCents(b'.fills)
    requires b' == b || (exists o :: Buys(cfg, b, sig, now, b', o)) || Sells(cfg, b, sig, ref, now, b')
    ensures Accounted(cfg, b')
  {
    if b' != b {
      if o :| Buys(cfg, b, sig, now, b', o) {
        CashFits(cfg, b);
        BuyAccounted(cfg, b, sig, o, now);
      } else {
        var p := b.positions[sig.instrument];
        LastAtCents(b.fills, SellFill(sig, p, PlanSell(cfg, p, ref), now));
        SellAccounted(cfg, b, sig, p, ref, now);
      }
    }
  }

  lemma LastAtCents(fills: seq<Fill>, f: Fill)
    requires AllAtCents(fills + [f])
    ensures AtCents(f)
  {
    assert (fills + [f])[|fills|] == f;
  }

  lemma NewBookAccounted(cfg: Config)
    ensures Accounted(cfg, NewBook(cfg))
  {
  }

  lemma StepAccounted(cfg: Config, b: Book, e: Event, b': Book)
    requires FitsCents(cfg.startingCash) && Kept(cfg, b) && Accounted(cfg, b) && Legal(b, e) && b' == Step(cfg, b, e)
    requires AllAtCents(b'.fills)
    ensures Accounted(cfg, b')
  {
    if e.Restart? {
      RestartIs(cfg, b);
      RestartAccounted(cfg, b, b');
    } else if e.Trade? {
      TradeShape(cfg, b, e.sig, e.ref, e.now, e.order);
      TradeAccounted(cfg, b, e.sig, e.ref, e.now, b');
    }
  }

  lemma RestartAccounted(cfg: Config, b: Book, b': Book)
    requires Accounted(cfg, b)
    requires b' == if CleanBook(b) then b.(lastPrices := map[]) else NewBook(cfg)
    ensures Accounted(cfg, b')
  {
    if !CleanBook(b) {
      NewBookAccounted(cfg);
    }
  }

  lemma {:induction false} EveryRunAccounted(cfg: Config, run: seq<Book>, events: seq<Event>, i: nat)
    requires IsRun(cfg, run, events) && i < |run| && FitsCents(cfg.startingCash)
    requires forall j :: 0 <= j < |run| ==> InRange(cfg, run[j].fills)
    ensures Accounted(cfg, run[i])
  {
    if i == 0 {
      NewBookAccounted(cfg);
    } else {
      var e := events[i - 1];
      var k := Base(e, i - 1);
      assert Follows(cfg, run, e, i - 1);
      EveryRunAccounted(cfg, run, events, k);
      EveryRunBalances(cfg, run, events, k);
      StepAccounted(cfg, run[k], e, run[i]);
    }
  }

  /** Whenever the book is flat, cash less starting cash less realized profit is exactly the sum over the closed trips
      of recomputed cost less amount paid; the trips account for the whole log. */
  lemma FlatBook(cfg: Config, run: seq<Book>, events: seq<Event>, i: nat)
    requires IsRun(cfg, run, events) && i < |run| && FitsCents(cfg.startingCash)
    requires forall j :: 0 <= j < |run| ==> InRange(cfg, run[j].fills)
    requires run[i].positions == map[]
    ensures var b := run[i]; var trips := Trips(b.fills);
      && AllClosed(cfg, trips) && |trips| == Count(b.fills, Sell) == Count(b.fills, Buy)
      && Value(b.cash) - Value(cfg.startingCash) - Value(b.realized) == GapSum(cfg, trips)
  {
    EveryRunBalances(cfg, run, events, i);
    EveryRunAccounted(cfg, run, events, i);
    FlatMeansClosed(cfg, run[i].fills, run[i].positions);
    FlatSums(cfg, run[i]);
  }

  lemma FlatSums(cfg: Config, b: Book)
    requires Balanced(cfg, b) && Counted(b.fills, b.positions, b.wins, b.losses) && Accounted(cfg, b)
    requires b.positions == map[] && Opens(b.fills) == []
    ensures Value(b.cash) - Value(cfg.startingCash) - Value(b.realized) == GapSum(cfg, Trips(b.fills))
    ensures |Trips(b.fills)| == Count(b.fills, Sell) == Count(b.fills, Buy)
  {
  }

  lemma {:induction false} TripEntryLogged(fills: seq<Fill>, t: Trip)
    requires t in Trips(fills)
    ensures t.entry in fills
  {
    var n := |fills| - 1;
    var h := History(fills[..n], fills[n].instrument);
    if t in Trips(fills[..n]) {
      TripEntryLogged(fills[..n], t);
    } else {
      HistoryLogged(fills[..n], fills[n].instrument, t.entry);
    }
  }

  lemma {:induction false} HistoryLogged(fills: seq<Fill>, id: InstrumentID, f: Fill)
    requires f in History(fills, id)
    ensures f in fills
  {
    var n := |fills| - 1;
    if f in History(fills[..n], id) {
      HistoryLogged(fills[..n], id, f);
    }
  }

  // ---- the bound per trip ----------------------------------------------------------------------

  /** Under half a unit of the basis times the quantity, plus the product's rounding, plus half a cent. */
  ghost predicate SmallGap(gap: real, basis: Decimal, quantity: Decimal) {
    AbsReal(gap) < Part(Ulp(basis), Value(quantity)) / 2.0 + 5.0 * Ulp(Mul(basis, quantity)) / 9.0 + Rat(1, CENTS) / 2.0
  }

  /** Per unit within half a unit is, times the quantity, within half a unit times the quantity. */
  lemma BasisTimesQuantity(basis: real, unit: real, e: real, q: real, paid: real)
    requires q > 0.0 && Per(paid, q) == e
    ensures 2.0 * AbsReal(basis - e) <= unit <==> 2.0 * AbsReal(Part(basis, q) - paid) <= Part(unit, q)
  {
    assert Part(e, q) == paid;
    var d := AbsReal(basis - e);
    AbsTimes(basis, e, q);
    ScaleOrder(2.0 * d, unit, q);
    assert (2.0 * d) * q == 2.0 * (d * q);
  }

  lemma AbsTimes(a: real, b: real, q: real)
    requires q > 0.0
    ensures AbsReal(a * q - b * q) == AbsReal(a - b) * q
  {
    assert a * q - b * q == (a - b) * q;
  }

  /** The basis does not saturate, or stands for MaxInt64 anyway, to within half a unit. */
  predicate BasisWithin(cfg: Config, total: Decimal, quantity: Decimal)
    requires quantity.unscaled > 0
  {
    PriceNonZero(quantity);
    var e := Per(Value(total), Value(quantity));
    Representable(e, cfg.pricePrecision) || 2.0 * AbsReal(MAX_INT64 as real - e) <= 1.0
  }

  /** The cost the basis gives back, before rounding to cents, is within half a basis unit times the quantity. */
  ghost predicate BasisClose(basis: Decimal, quantity: Decimal, paid: real) {
    2.0 * AbsReal(Part(Value(basis), Value(quantity)) - paid) <= Part(Ulp(basis), Value(quantity))
  }

  /** The recorded basis gives the amount paid back, to within half a unit, if and only if it did not saturate (or stands
      for MaxInt64 anyway). */
  lemma BasisError(cfg: Config, total: Decimal, quantity: Decimal)
    requires quantity.unscaled > 0 && Value(quantity) > 0.0 && Value(total) >= 0.0
    ensures BasisClose(Basis(cfg, total, quantity), quantity, Value(total)) <==> BasisWithin(cfg, total, quantity)
    ensures Ulp(Basis(cfg, total, quantity)) <= 1.0
    ensures !Representable(Per(Value(total), Value(quantity)), cfg.pricePrecision) ==> Ulp(Basis(cfg, total, quantity)) == 1.0
  {
    var basis, e := Basis(cfg, total, quantity), Per(Value(total), Value(quantity));
    PerSign(Value(total), Value(quantity));
    UlpAtMostOne(basis.scale);
    if Representable(e, cfg.pricePrecision) {
      FromFloatError(e, cfg.pricePrecision);
    } else {
      RaisedOrder(0.0, e, if cfg.pricePrecision > MAX_SCALE then MAX_SCALE else cfg.pricePrecision);
      TopBasis(basis);
    }
    BasisTimesQuantity(Value(basis), Ulp(basis), e, Value(quantity), Value(total));
  }

  lemma TopBasis(basis: Decimal)
    requires basis.unscaled == MAX_INT64 && basis.scale == 0
    ensures Value(basis) == MAX_INT64 as real && Ulp(basis) == 1.0
  {
  }

  lemma {:induction false} UlpAtMostOne(s: nat)
    ensures 0.0 < Rat(1, s) <= 1.0
  {
    if s > 0 {
      UlpAtMostOne(s - 1);
    }
  }

  /** A non-negative product of at most MaxInt64 does not saturate. */
  lemma UnsaturatedBelow(v: int, s: nat)
    requires v >= 0 && Rat(v, s) <= MAX_INT64 as real
    ensures !Saturates(v, s)
  {
    SaturationOnlyOutOfRange(v, s);
    RatWiden(9 * MAX_INT64 + 4, 0, s);
    RatProduct(9, 0, v, s);
    RatLinear(9 * v, Widen(9 * MAX_INT64 + 4, s), s);
  }

  /** Giving back an amount in int64 cents, the product with the quantity cannot saturate. */
  lemma ClosedProductFits(basis: Decimal, quantity: Decimal, paid: real)
    requires basis.unscaled >= 0 && quantity.unscaled > 0 && Ulp(basis) <= 1.0 && Value(quantity) > 0.0
    requires BasisClose(basis, quantity, paid) && paid <= Ceiling()
    ensures !Saturates(Times(basis.unscaled, quantity.unscaled), basis.scale + quantity.scale)
  {
    ExactProduct(basis, quantity);
    TimesIsProduct(basis.unscaled, quantity.unscaled);
    DecimalMonotone.ValueAtMost(quantity);
    UnitAtMost(Ulp(basis), Value(quantity));
    assert Ceiling() == MAX_INT64 as real / 100.0;
    UnsaturatedBelow(Times(basis.unscaled, quantity.unscaled), basis.scale + quantity.scale);
  }

  lemma UnitAtMost(unit: real, q: real)
    requires unit <= 1.0 && q > 0.0
    ensures Part(unit, q) <= q
  {
  }

  lemma ProductError(basis: Decimal, quantity: Decimal)
    requires InScale(basis) && InScale(quantity) && basis.unscaled >= 0
    requires !Saturates(Times(basis.unscaled, quantity.unscaled), basis.scale + quantity.scale)
    ensures FiveNinths(Mul(basis, quantity), Part(Value(basis), Value(quantity)))
  {
    MulError(basis, quantity);
  }

  /** Each trip's gap, for an entry whose amount is in int64 cents: the basis gives the amount back to within half a unit
      if and only if it did not saturate (or stands for MaxInt64 anyway), and then the gap is small. */
  lemma TripGapIsSmall(cfg: Config, entry: Fill)
    requires Enters(cfg, entry) && Value(Paid(entry)) <= Ceiling()
    ensures var basis, within := EntryBasis(cfg, entry), BasisWithin(cfg, Paid(entry), entry.quantity);
      && (BasisClose(basis, entry.quantity, Value(Paid(entry))) <==> within)
      && (within ==> SmallGap(Gap(cfg, entry), basis, entry.quantity))
  {
    EntrySign(cfg, entry);
    BasisSign(cfg, Paid(entry), entry.quantity);
    BasisError(cfg, Paid(entry), entry.quantity);
    if BasisWithin(cfg, Paid(entry), entry.quantity) {
      ClosedProductFits(EntryBasis(cfg, entry), entry.quantity, Value(Paid(entry)));
      GapOf(EntryBasis(cfg, entry), entry.quantity, Value(Paid(entry)), Gap(cfg, entry));
    }
  }

  lemma GapOf(basis: Decimal, quantity: Decimal, paid: real, gap: real)
    requires InScale(basis) && InScale(quantity) && basis.unscaled >= 0
    requires !Saturates(Times(basis.unscaled, quantity.unscaled), basis.scale + quantity.scale)
    requires BasisClose(basis, quantity, paid)
    requires gap == Value(Notional(basis, quantity)) - paid
    ensures SmallGap(gap, basis, quantity)
  {
    ProductError(basis, quantity);
    DecimalMonotone.RescaleError(Mul(basis, quantity), CENTS);
    GapParts(Value(Notional(basis, quantity)), Value(Mul(basis, quantity)), Part(Value(basis), Value(quantity)), paid,
             Part(Ulp(basis), Value(quantity)), Ulp(Mul(basis, quantity)), Rat(1, CENTS));
  }

  lemma GapParts(cost: real, product: real, exact: real, paid: real, unit: real, ulp: real, cent: real)
    requires 2.0 * AbsReal(exact - paid) <= unit && 9.0 * AbsReal(product - exact) < 5.0 * ulp && 2.0 * AbsReal(cost - product) <= cent
    ensures AbsReal(cost - paid) < unit / 2.0 + 5.0 * ulp / 9.0 + cent / 2.0
  {
  }

  /** Over every run in range, every closed trip: its gap is small unless its basis saturated. */
  lemma EveryTripGapIsSmall(cfg: Config, run: seq<Book>, events: seq<Event>, i: nat, t: Trip)
    requires IsRun(cfg, run, events) && i < |run| && FitsCents(cfg.startingCash)
    requires forall j :: 0 <= j < |run| ==> InRange(cfg, run[j].fills)
    requires t in Trips(run[i].fills)
    ensures Closed(cfg, t)
    ensures BasisWithin(cfg, Paid(t.entry), t.entry.quantity) ==> SmallGap(Gap(cfg, t.entry), EntryBasis(cfg, t.entry), t.entry.quantity)
  {
    EveryRunAccounted(cfg, run, events, i);
    TripEntryLogged(run[i].fills, t);
    TripGapIsSmall(cfg, t.entry);
  }
}

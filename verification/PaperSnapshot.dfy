/** What Snapshot reports (internal/consumer/paper/paper.go): for every book of every run, total profit less realized less
    unrealized is a sum of small gaps, one per closed trip and one per open position, whatever the map order. */
module PaperSnapshot {
  import opened Arith
  import opened Decimal
  import opened DecimalRounding
  import opened DecimalFloat
  import DecimalMonotone
  import opened Market
  import opened Paper
  import opened PaperRoundTrip
  import opened PaperLedger
  import opened PaperTotals
  import opened PaperTrips

  // ---- sums over the positions -----------------------------------------------------------------

  type Amounts = map<InstrumentID, real>

  function Sum(m: Amounts, order: seq<InstrumentID>): real
    requires forall id :: id in order ==> id in m
  {
    if order == [] then 0.0 else Sum(m, order[..|order| - 1]) + m[order[|order| - 1]]
  }

  lemma SumSnoc(m: Amounts, s: seq<InstrumentID>, x: InstrumentID)
    requires forall id :: id in s + [x] ==> id in m
    ensures x in m && (forall id :: id in s ==> id in m) && Sum(m, s + [x]) == Sum(m, s) + m[x]
  {
    assert x in s + [x];
    assert (s + [x])[..|s|] == s;
  }

  lemma Regroup(a: seq<InstrumentID>, x: InstrumentID, b: seq<InstrumentID>)
    requires b != []
    ensures a + [x] + b == a + [x] + b[..|b| - 1] + [b[|b| - 1]] && a + b == a + b[..|b| - 1] + [b[|b| - 1]]
  {
  }

  lemma {:induction false} SumSplit(m: Amounts, a: seq<InstrumentID>, x: InstrumentID, b: seq<InstrumentID>)
    requires forall id :: id in a + [x] + b ==> id in m
    ensures x in m && (forall id :: id in a + b ==> id in m) && Sum(m, a + [x] + b) == Sum(m, a + b) + m[x]
    decreases |b|
  {
    if b == [] {
      assert a + [x] + b == a + [x] && a + b == a;
      SumSnoc(m, a, x);
    } else {
      var b', last := b[..|b| - 1], b[|b| - 1];
      Regroup(a, x, b);
      SumSnoc(m, a + [x] + b', last);
      SumSplit(m, a, x, b');
      SumSnoc(m, a + b', last);
    }
  }

  ghost predicate Distinct(s: seq<InstrumentID>) {
    forall i, j :: 0 <= i < j < |s| ==> s[i] != s[j]
  }

  /** A sum over a map's entries is the same in every order. */
  lemma {:induction false} SumAnyOrder(m: Amounts, a: seq<InstrumentID>, b: seq<InstrumentID>)
    requires Distinct(a) && Distinct(b) && (forall id :: id in a <==> id in b) && (forall id :: id in a ==> id in m)
    ensures Sum(m, a) == Sum(m, b)
    decreases |a|
  {
    NothingElse(a, b);
    if a != [] {
      var n := |a| - 1;
      var x := a[n];
      assert x in b;
      var k :| 0 <= k < |b| && b[k] == x;
      var left, right := b[..k], b[k + 1..];
      assert b == left + [x] + right;
      SumSplit(m, left, x, right);
      SameRest(a, b, k);
      SumAnyOrder(m, a[..n], left + right);
    }
  }

  lemma NothingElse(a: seq<InstrumentID>, b: seq<InstrumentID>)
    requires forall id :: id in b ==> id in a
    ensures a == [] ==> b == []
  {
    assert b == [] || b[0] in b;
  }

  lemma SameRest(a: seq<InstrumentID>, b: seq<InstrumentID>, k: nat)
    requires a != [] && k < |b| && b[k] == a[|a| - 1] && Distinct(a) && Distinct(b) && forall id :: id in a <==> id in b
    ensures var rest := b[..k] + b[k + 1..];
      Distinct(rest) && forall id :: id in a[..|a| - 1] <==> id in rest
  {
    var n, rest := |a| - 1, b[..k] + b[k + 1..];
    assert b == b[..k] + [b[k]] + b[k + 1..];
    assert a == a[..n] + [a[n]];
    forall id
      ensures id in a[..n] <==> id in rest
    {
      if id in a[..n] {
        var i :| 0 <= i < n && a[i] == id;
        assert id in a;
      }
      if id in rest {
        var j :| 0 <= j < |rest| && rest[j] == id;
        assert b[if j < k then j else j + 1] == id;
        assert id in b;
      }
    }
  }

  // ---- the reported amounts are exact ----------------------------------------------------------

  ghost function Worths(b: Book): Amounts {
    map id | id in b.positions :: Value(Worth(b, id))
  }

  ghost function Gains(b: Book): Amounts {
    map id | id in b.positions :: if id in b.lastPrices then Value(UnrealizedOn(b, id)) else 0.0
  }

  ghost predicate WorthFits(b: Book, id: InstrumentID, before: real)
    requires id in b.positions
  {
    Worth(b, id).scale == CENTS && FitsAt(before + Value(Worth(b, id)), CENTS)
  }

  ghost predicate GainFits(b: Book, id: InstrumentID, before: real)
    requires id in b.positions
  {
    id in b.lastPrices ==> UnrealizedOn(b, id).scale == CENTS && FitsAt(before + Value(UnrealizedOn(b, id)), CENTS)
  }

  /** The position values, and their running sum in this order, fit int64 cents. */
  ghost predicate WorthsFit(b: Book, order: seq<InstrumentID>)
    requires forall id :: id in order ==> id in b.positions
  {
    order != [] ==>
      var n := |order| - 1;
      WorthsFit(b, order[..n]) && WorthFits(b, order[n], Sum(Worths(b), order[..n]))
  }

  ghost predicate GainsFit(b: Book, order: seq<InstrumentID>)
    requires forall id :: id in order ==> id in b.positions
  {
    order != [] ==>
      var n := |order| - 1;
      GainsFit(b, order[..n]) && GainFits(b, order[n], Sum(Gains(b), order[..n]))
  }

  lemma AddOne(total: Decimal, d: Decimal, sum: real)
    requires (total == ZERO || total.scale == CENTS) && Value(total) == sum && d.scale == CENTS && FitsAt(sum + Value(d), CENTS)
    ensures Add(total, d).scale == CENTS && Value(Add(total, d)) == sum + Value(d)
  {
    FittingIsExact(total, d, CENTS);
  }

  lemma {:induction false} SumWorthExact(b: Book, order: seq<InstrumentID>)
    requires (forall id :: id in order ==> id in b.positions) && WorthsFit(b, order)
    ensures SumWorth(b, order) == ZERO || SumWorth(b, order).scale == CENTS
    ensures Value(SumWorth(b, order)) == Sum(Worths(b), order)
  {
    if order != [] {
      var n := |order| - 1;
      SumWorthExact(b, order[..n]);
      AddOne(SumWorth(b, order[..n]), Worth(b, order[n]), Sum(Worths(b), order[..n]));
    }
  }

  lemma {:induction false} SumUnrealizedExact(b: Book, order: seq<InstrumentID>)
    requires (forall id :: id in order ==> id in b.positions) && GainsFit(b, order)
    ensures SumUnrealized(b, order) == ZERO || SumUnrealized(b, order).scale == CENTS
    ensures Value(SumUnrealized(b, order)) == Sum(Gains(b), order)
  {
    if order != [] {
      var n := |order| - 1;
      SumUnrealizedExact(b, order[..n]);
      if order[n] in b.lastPrices {
        AddOne(SumUnrealized(b, order[..n]), UnrealizedOn(b, order[n]), Sum(Gains(b), order[..n]));
      }
    }
  }

  lemma HeldAtCents(sum: Decimal)
    requires sum == ZERO || sum.scale == CENTS
    ensures Rescale(sum, CENTS).scale == CENTS && Value(Rescale(sum, CENTS)) == Value(sum)
  {
    if sum == ZERO {
      DecimalMonotone.RescaleUp(sum, CENTS);
      WidenNonZero(sum.unscaled, CENTS);
    }
  }

  lemma EquityExact(cfg: Config, b: Book, order: seq<InstrumentID>)
    requires (forall id :: id in order ==> id in b.positions) && WorthsFit(b, order)
    requires InScale(b.cash) && (b.cash.scale == CashScale(cfg) || b.cash == cfg.startingCash)
    requires FitsAt(Value(b.cash) + Sum(Worths(b), order), CashScale(cfg))
    ensures Equity(b, order).scale == CashScale(cfg)
    ensures Value(Equity(b, order)) == Value(b.cash) + Sum(Worths(b), order)
  {
    SumWorthExact(b, order);
    HeldAtCents(SumWorth(b, order));
    FittingIsExact(b.cash, Rescale(SumWorth(b, order), CENTS), CashScale(cfg));
  }

  lemma DifferenceFits(x: Decimal, y: Decimal)
    requires InScale(x) && y.scale <= x.scale && y.unscaled != MIN_INT64 && FitsAt(Value(x) - Value(y), x.scale)
    ensures Value(Sub(x, y)) == Value(x) - Value(y)
  {
    NegValue(y);
    SumAtScale(x, Neg(y));
    RatLinear(ExactSum(x, Neg(y)), MAX_INT64, x.scale);
    RatLinear(0, MAX_INT64, x.scale);
    RatLinear(-MAX_INT64, ExactSum(x, Neg(y)), x.scale);
    RatLinear(MAX_INT64, ExactSum(x, Neg(y)), x.scale);
    AddExact(x, Neg(y));
  }

  lemma NegValue(y: Decimal)
    requires y.unscaled != MIN_INT64
    ensures Value(Neg(y)) == -Value(y) && Neg(y).scale == y.scale
  {
    NegAt(y, y.scale);
    RatLinear(0, y.unscaled, y.scale);
  }

  /** The sums Snapshot makes stay within int64 cents. */
  ghost predicate ReportFits(cfg: Config, b: Book, order: seq<InstrumentID>, again: seq<InstrumentID>)
    requires forall id :: id in order || id in again ==> id in b.positions
  {
    && WorthsFit(b, order) && GainsFit(b, again)
    && FitsAt(Value(b.cash) + Sum(Worths(b), order), CashScale(cfg))
    && FitsAt(Value(b.cash) + Sum(Worths(b), order) - Value(cfg.startingCash), CashScale(cfg))
  }

  lemma TotalGainExact(cfg: Config, b: Book, order: seq<InstrumentID>, again: seq<InstrumentID>)
    requires (forall id :: id in order || id in again ==> id in b.positions) && ReportFits(cfg, b, order, again)
    requires InScale(b.cash) && (b.cash.scale == CashScale(cfg) || b.cash == cfg.startingCash)
    requires InScale(cfg.startingCash) && cfg.startingCash.unscaled != MIN_INT64
    ensures Value(TotalGain(cfg, b, order)) == Value(b.cash) + Sum(Worths(b), order) - Value(cfg.startingCash)
  {
    EquityExact(cfg, b, order);
    DifferenceFits(Equity(b, order), cfg.startingCash);
  }

  // ---- open positions --------------------------------------------------------------------------

  /** What each open entry paid. */
  ghost function Payments(b: Book): Amounts {
    map id | id in b.positions :: PaidSum(History(Opens(b.fills), id))
  }

  ghost predicate PaysFor(m: Amounts, s: seq<Fill>, id: InstrumentID) {
    id in m && m[id] == PaidSum(History(s, id))
  }

  /** What the open entries of the listed instruments paid, one instrument at a time. */
  lemma {:induction false} PaidByOrder(s: seq<Fill>, m: Amounts, order: seq<InstrumentID>)
    requires Distinct(order) && (forall f :: f in s ==> f.instrument in order)
    requires forall id :: id in order ==> PaysFor(m, s, id)
    ensures (forall id :: id in order ==> id in m) && PaidSum(s) == Sum(m, order)
    decreases |order|
  {
    NobodyElse(s, order);
    if order != [] {
      var n := |order| - 1;
      var id := order[n];
      assert PaysFor(m, s, id);
      PaidWithout(s, id);
      StillPays(s, m, order);
      PaidByOrder(Without(s, id), m, order[..n]);
      assert forall j :: j in order ==> PaysFor(m, s, j);
    }
  }

  lemma NobodyElse(s: seq<Fill>, order: seq<InstrumentID>)
    requires forall f :: f in s ==> f.instrument in order
    ensures order == [] ==> s == []
  {
    assert s == [] || s[0] in s;
  }

  lemma StillPays(s: seq<Fill>, m: Amounts, order: seq<InstrumentID>)
    requires order != [] && Distinct(order) && (forall f :: f in s ==> f.instrument in order)
    requires forall id :: id in order ==> PaysFor(m, s, id)
    ensures var n := |order| - 1; var rest := Without(s, order[n]);
      && (forall f :: f in rest ==> f.instrument in order[..n])
      && (forall j :: j in order[..n] ==> PaysFor(m, rest, j))
  {
    var n := |order| - 1;
    var id := order[n];
    WithoutMembers(s, id);
    assert order == order[..n] + [id];
    forall j | j in order[..n]
      ensures PaysFor(m, Without(s, id), j)
    {
      assert PaysFor(m, s, j);
      HistoryWithout(s, id, j);
    }
  }

  lemma {:induction false} WithoutMembers(s: seq<Fill>, id: InstrumentID)
    ensures forall f :: f in Without(s, id) ==> f in s && f.instrument != id
  {
    if s != [] {
      WithoutMembers(s[..|s| - 1], id);
    }
  }

  lemma OpensAreHeld(cfg: Config, b: Book, f: Fill)
    requires Paired(cfg, b.fills, b.positions) && f in Opens(b.fills)
    ensures f.instrument in b.positions
  {
    var id := f.instrument;
    MemberHasHistory(Opens(b.fills), f);
    assert OpenIs(History(Opens(b.fills), id), History(b.fills, id), id in b.positions);
  }

  lemma {:induction false} MemberHasHistory(s: seq<Fill>, f: Fill)
    requires f in s
    ensures History(s, f.instrument) != []
  {
    var n := |s| - 1;
    if s[n].instrument != f.instrument {
      MemberHasHistory(s[..n], f);
    }
  }

  lemma OpensArePaid(cfg: Config, b: Book, order: seq<InstrumentID>)
    requires Paired(cfg, b.fills, b.positions) && Lists(order, b)
    ensures PaidSum(Opens(b.fills)) == Sum(Payments(b), order)
  {
    forall f | f in Opens(b.fills)
      ensures f.instrument in order
    {
      OpensAreHeld(cfg, b, f);
    }
    forall id | id in order
      ensures PaysFor(Payments(b), Opens(b.fills), id)
    {
    }
    PaidByOrder(Opens(b.fills), Payments(b), order);
  }

  /** How far a position's reported worth less its reported gain is from what its entry paid. */
  ghost function OpenGaps(b: Book): Amounts {
    map id | id in b.positions :: Worths(b)[id] - Gains(b)[id] - Payments(b)[id]
  }

  lemma {:induction false} GapsAdd(b: Book, order: seq<InstrumentID>)
    requires forall id :: id in order ==> id in b.positions
    ensures Sum(OpenGaps(b), order) == Sum(Worths(b), order) - Sum(Gains(b), order) - Sum(Payments(b), order)
  {
    if order != [] {
      GapsAdd(b, order[..|order| - 1]);
    }
  }

  /** For every book of every run, flat or not, and whichever way the maps are iterated: total profit less realized less
      unrealized is exactly the closed trips' gaps plus the open positions' gaps. */
  lemma ProfitIsAccounted(cfg: Config, run: seq<Book>, events: seq<Event>, i: nat, order: seq<InstrumentID>, again: seq<InstrumentID>)
    requires IsRun(cfg, run, events) && i < |run| && FitsCents(cfg.startingCash) && cfg.startingCash.unscaled != MIN_INT64
    requires forall j :: 0 <= j < |run| ==> InRange(cfg, run[j].fills)
    requires Lists(order, run[i]) && Lists(again, run[i]) && ReportFits(cfg, run[i], order, again)
    ensures var b := run[i];
      && AllClosed(cfg, Trips(b.fills))
      && Value(TotalGain(cfg, b, order)) - Value(b.realized) - Value(SumUnrealized(b, again))
         == GapSum(cfg, Trips(b.fills)) + Sum(OpenGaps(b), order)
  {
    EveryRunBalances(cfg, run, events, i);
    EveryRunAccounted(cfg, run, events, i);
    BookIsAccounted(cfg, run[i], order, again);
  }

  lemma BookIsAccounted(cfg: Config, b: Book, order: seq<InstrumentID>, again: seq<InstrumentID>)
    requires FitsCents(cfg.startingCash) && cfg.startingCash.unscaled != MIN_INT64
    requires InScale(b.cash) && Places(cfg, b) && Balanced(cfg, b) && Accounted(cfg, b)
    requires Lists(order, b) && Lists(again, b) && ReportFits(cfg, b, order, again)
    ensures Value(TotalGain(cfg, b, order)) - Value(b.realized) - Value(SumUnrealized(b, again))
         == GapSum(cfg, Trips(b.fills)) + Sum(OpenGaps(b), order)
  {
    TotalGainExact(cfg, b, order, again);
    SumUnrealizedExact(b, again);
    SumAnyOrder(Gains(b), again, order);
    OpensArePaid(cfg, b, order);
    GapsAdd(b, order);
  }

  // ---- the bound per open position -------------------------------------------------------------

  /** A product brought to cents is within 5/9 of its own last place and half a cent of the exact product. */
  ghost predicate NearProduct(n: real, product: Decimal, exact: real) {
    AbsReal(n - exact) < 5.0 * Ulp(product) / 9.0 + Rat(1, CENTS) / 2.0
  }

  /** The product x * q does not saturate. */
  ghost predicate ProductFits(x: Decimal, q: Decimal) {
    !Saturates(Times(x.unscaled, q.unscaled), x.scale + q.scale)
  }

  lemma NotionalNear(x: Decimal, q: Decimal)
    requires InScale(x) && InScale(q) && q.unscaled > 0 && ProductFits(x, q)
    ensures NearProduct(Value(Notional(x, q)), Mul(x, q), Part(Value(x), Value(q)))
  {
    MulError(x, q);
    DecimalMonotone.RescaleError(Mul(x, q), CENTS);
    TwoErrors(Value(Notional(x, q)), Value(Mul(x, q)), Part(Value(x), Value(q)), Ulp(Mul(x, q)), Rat(1, CENTS));
  }

  lemma TwoErrors(n: real, product: real, exact: real, ulp: real, cent: real)
    requires 9.0 * AbsReal(product - exact) < 5.0 * ulp && 2.0 * AbsReal(n - product) <= cent
    ensures AbsReal(n - exact) < 5.0 * ulp / 9.0 + cent / 2.0
  {
  }

  /** Half a unit of the basis times the quantity, the rounding of both products, and a cent. */
  ghost predicate SmallOpenGap(gap: real, px: Decimal, p: Position) {
    AbsReal(gap) < Part(Ulp(p.avgEntry), Value(p.quantity)) / 2.0
                 + 5.0 * Ulp(Mul(px, p.quantity)) / 9.0
                 + 5.0 * Ulp(Mul(Sub(px, p.avgEntry), p.quantity)) / 9.0
                 + Rat(1, CENTS)
  }

  /** What must not overflow for a mark's gap to be small. */
  ghost predicate MarkFits(cfg: Config, px: Decimal, p: Position, paid: Decimal)
    requires p.quantity.unscaled > 0
  {
    && BasisWithin(cfg, paid, p.quantity)
    && IsInt64(ExactDifference(px, p.avgEntry))
    && ProductFits(px, p.quantity) && ProductFits(Sub(px, p.avgEntry), p.quantity)
  }

  lemma MarkedDifference(px: Decimal, avg: Decimal)
    requires InScale(px) && InScale(avg) && avg.unscaled >= 0 && IsInt64(ExactDifference(px, avg))
    ensures Value(Sub(px, avg)) == Value(px) - Value(avg) && InScale(Sub(px, avg))
  {
    NegAt(avg, MaxScaleOf(px, avg));
    NegValue(avg);
    AddExact(px, Neg(avg));
    SubInScale(px, avg);
  }

  lemma Spread(px: real, avg: real, gain: real, q: real)
    requires gain == px - avg
    ensures Part(px, q) - Part(gain, q) == Part(avg, q)
  {
  }

  lemma FourErrors(worth: real, gain: real, paid: real, a: real, b: real, basis: real, unit: real, ua: real, ub: real, cent: real)
    requires AbsReal(worth - a) < 5.0 * ua / 9.0 + cent / 2.0 && AbsReal(gain - b) < 5.0 * ub / 9.0 + cent / 2.0
    requires a - b == basis && 2.0 * AbsReal(basis - paid) <= unit
    ensures AbsReal(worth - gain - paid) < unit / 2.0 + 5.0 * ua / 9.0 + 5.0 * ub / 9.0 + cent
  {
  }

  lemma GapFromParts(px: Decimal, p: Position, gain: Decimal, a: real, b: real, basis: real, unit: real, paid: real, gap: real)
    requires gain == Sub(px, p.avgEntry) && unit == Part(Ulp(p.avgEntry), Value(p.quantity))
    requires NearProduct(Value(Notional(px, p.quantity)), Mul(px, p.quantity), a)
    requires NearProduct(Value(Notional(gain, p.quantity)), Mul(gain, p.quantity), b)
    requires a - b == basis && 2.0 * AbsReal(basis - paid) <= unit
    requires gap == Value(Notional(px, p.quantity)) - Value(Notional(gain, p.quantity)) - paid
    ensures SmallOpenGap(gap, px, p)
  {
    SumOfErrors(Value(Notional(px, p.quantity)), Value(Notional(gain, p.quantity)), paid, a, b, basis, unit,
                Mul(px, p.quantity), Mul(gain, p.quantity), gap);
  }

  lemma SumOfErrors(worth: real, gain: real, paid: real, a: real, b: real, basis: real, unit: real, x: Decimal, y: Decimal, gap: real)
    requires NearProduct(worth, x, a) && NearProduct(gain, y, b)
    requires a - b == basis && 2.0 * AbsReal(basis - paid) <= unit && gap == worth - gain - paid
    ensures AbsReal(gap) < unit / 2.0 + 5.0 * Ulp(x) / 9.0 + 5.0 * Ulp(y) / 9.0 + Rat(1, CENTS)
  {
    FourErrors(worth, gain, paid, a, b, basis, unit, Ulp(x), Ulp(y), Rat(1, CENTS));
  }

  lemma HeldBasis(cfg: Config, p: Position, entry: Fill)
    requires Enters(cfg, entry) && Holds(cfg, p, entry) && BasisWithin(cfg, Paid(entry), entry.quantity)
    ensures InScale(p.avgEntry) && p.avgEntry.unscaled >= 0
    ensures 2.0 * AbsReal(Part(Value(p.avgEntry), Value(p.quantity)) - Value(Paid(entry))) <= Part(Ulp(p.avgEntry), Value(p.quantity))
  {
    EntrySign(cfg, entry);
    BasisSign(cfg, Paid(entry), p.quantity);
    BasisError(cfg, Paid(entry), p.quantity);
  }

  /** A marked position's gap is small. */
  lemma MarkedGapIsSmall(cfg: Config, px: Decimal, p: Position, entry: Fill, gap: real)
    requires InScale(px) && Enters(cfg, entry) && Holds(cfg, p, entry)
    requires MarkFits(cfg, px, p, Paid(entry))
    requires gap == Value(Notional(px, p.quantity)) - Value(Notional(Sub(px, p.avgEntry), p.quantity)) - Value(Paid(entry))
    ensures SmallOpenGap(gap, px, p)
  {
    HeldBasis(cfg, p, entry);
    PositionGap(px, p, Sub(px, p.avgEntry), Value(Paid(entry)), gap);
  }

  lemma PositionGap(px: Decimal, p: Position, gain: Decimal, paid: real, gap: real)
    requires InScale(px) && InScale(p.avgEntry) && p.avgEntry.unscaled >= 0 && InScale(p.quantity) && p.quantity.unscaled > 0
    requires gain == Sub(px, p.avgEntry) && IsInt64(ExactDifference(px, p.avgEntry))
    requires ProductFits(px, p.quantity) && ProductFits(gain, p.quantity)
    requires 2.0 * AbsReal(Part(Value(p.avgEntry), Value(p.quantity)) - paid) <= Part(Ulp(p.avgEntry), Value(p.quantity))
    requires gap == Value(Notional(px, p.quantity)) - Value(Notional(gain, p.quantity)) - paid
    ensures SmallOpenGap(gap, px, p)
  {
    MarkedDifference(px, p.avgEntry);
    NotionalNear(px, p.quantity);
    NotionalNear(gain, p.quantity);
    Spread(Value(px), Value(p.avgEntry), Value(gain), Value(p.quantity));
    GapFromParts(px, p, gain, Part(Value(px), Value(p.quantity)), Part(Value(gain), Value(p.quantity)),
                 Part(Value(p.avgEntry), Value(p.quantity)), Part(Ulp(p.avgEntry), Value(p.quantity)), paid, gap);
  }

  /** In every sound book the gap of a marked open position is that of its entry at the mark, and so small; before any
      mark it is the gap a closed trip has. */
  lemma OpenGapIsSmall(cfg: Config, b: Book, id: InstrumentID) returns (entry: Fill)
    requires Sound(cfg, b) && Paired(cfg, b.fills, b.positions) && id in b.positions
    ensures LastOf(History(b.fills, id), entry) && Enters(cfg, entry)
    ensures id !in b.lastPrices ==> OpenGaps(b)[id] == Gap(cfg, entry)
    ensures (id in b.lastPrices && InScale(b.lastPrices[id]) && b.positions[id].quantity.unscaled > 0
             && MarkFits(cfg, b.lastPrices[id], b.positions[id], Paid(entry)))
        ==> SmallOpenGap(OpenGaps(b)[id], b.lastPrices[id], b.positions[id])
  {
    var p := b.positions[id];
    entry := EntryHeld(cfg, b, id);
    OpenEntry(cfg, b.fills, b.positions, id, entry);
    PaidOne(entry);
    if id in b.lastPrices && InScale(b.lastPrices[id]) && p.quantity.unscaled > 0 && MarkFits(cfg, b.lastPrices[id], p, Paid(entry)) {
      MarkedGapIsSmall(cfg, b.lastPrices[id], p, entry, OpenGaps(b)[id]);
    }
  }

  // ---- the rest of the report ------------------------------------------------------------------

  /** d, to half a cent. */
  ghost predicate InCents(cents: Decimal, d: Decimal) {
    2.0 * AbsReal(Value(cents) - Value(d)) <= Rat(1, CENTS)
  }

  /** p is `part` as a percentage of `whole`, and zero where there is no such thing. */
  ghost predicate IsPercent(p: real, part: real, whole: real) {
    if whole > 0.0 then p * whole == 100.0 * part else p == 0.0
  }

  lemma PercentMeans(part: real, whole: real)
    ensures IsPercent(Percent(part, whole), part, whole)
  {
    if whole > 0.0 {
      OfWhole(Per(part, whole), part, whole);
    }
  }

  lemma OfWhole(share: real, part: real, whole: real)
    requires share * whole == part
    ensures share * 100.0 * whole == 100.0 * part
  {
  }

  lemma RescaledInCents(d: Decimal)
    requires InScale(d)
    ensures InCents(Rescale(d, CENTS), d)
  {
    DecimalMonotone.RescaleError(d, CENTS);
  }

  /** The amounts of a report, each to half a cent of what it names. */
  lemma ReportAmounts(cfg: Config, b: Book, now: int, order: seq<InstrumentID>, again: seq<InstrumentID>)
    requires (forall id :: id in order || id in again ==> id in b.positions) && InScale(cfg.startingCash)
    requires InScale(b.cash) && InScale(b.realized) && InScale(b.fees)
    ensures var r := ReportOf(cfg, b, now, order, again);
      && InCents(r.cash, b.cash) && InCents(r.realizedPL, b.realized) && InCents(r.feesPaid, b.fees)
      && InCents(r.positionValue, SumWorth(b, order)) && InCents(r.equity, Equity(b, order))
      && InCents(r.totalPL, TotalGain(cfg, b, order)) && r.unrealizedPL == SumUnrealized(b, again)
  {
    EquityInScale(b, order);
    SumWorthInScale(b, order);
    SubInScale(Equity(b, order), cfg.startingCash);
    RescaledInCents(b.cash);
    RescaledInCents(b.realized);
    RescaledInCents(b.fees);
    RescaledInCents(SumWorth(b, order));
    RescaledInCents(Equity(b, order));
    RescaledInCents(TotalGain(cfg, b, order));
  }

  /** Its percentages: of the starting cash, and of the closed trades. */
  lemma ReportRates(cfg: Config, b: Book, now: int, order: seq<InstrumentID>, again: seq<InstrumentID>, total: Decimal, r: Report)
    requires forall id :: id in order || id in again ==> id in b.positions
    requires total == TotalGain(cfg, b, order) && r == ReportOf(cfg, b, now, order, again)
    ensures IsPercent(r.returnPct, Value(total), Value(cfg.startingCash))
    ensures IsPercent(r.winRatePct, b.wins as real, (b.wins + b.losses) as real)
    ensures r.trades == |b.fills| && r.wins == b.wins && r.losses == b.losses && r.maxDrawdownPct == b.maxDrawdown
  {
    RatesOf(cfg, b, now, order, again, total);
    PercentMeans(Value(total), Value(cfg.startingCash));
    PercentMeans(b.wins as real, (b.wins + b.losses) as real);
  }

  lemma RatesOf(cfg: Config, b: Book, now: int, order: seq<InstrumentID>, again: seq<InstrumentID>, total: Decimal)
    requires (forall id :: id in order || id in again ==> id in b.positions) && total == TotalGain(cfg, b, order)
    ensures ReportOf(cfg, b, now, order, again).returnPct == Percent(Value(total), Value(cfg.startingCash))
    ensures ReportOf(cfg, b, now, order, again).winRatePct == Percent(b.wins as real, (b.wins + b.losses) as real)
  {
  }
}

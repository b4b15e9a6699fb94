/** The drawdown watermark (internal/consumer/paper/paper.go, Mark): one pass over the marks computes the pairwise
    maximum, over every run. */
module PaperDrawdown {
  import opened Decimal
  import opened DecimalRounding
  import opened Market
  import opened Paper
  import opened PaperRestart
  import opened PaperLedger

  /** The account's worth as run[i] has seen it: the starting cash, then the equity at every mark behind that book. */
  ghost function Worths(cfg: Config, run: seq<Book>, events: seq<Event>, i: nat): seq<Decimal>
    requires IsRun(cfg, run, events) && i < |run|
  {
    if i == 0 then [cfg.startingCash]
    else
      var e := events[i - 1];
      assert Follows(cfg, run, e, i - 1);
      var k := Base(e, i - 1);
      match e
      case Trade(_, _, _, _) => Worths(cfg, run, events, k)
      case MarkTo(prices, order) => Worths(cfg, run, events, k) + [MarkedEquity(run[k], prices, order)]
      case Restart(_) => if CleanBook(run[k]) then Worths(cfg, run, events, k) else [cfg.startingCash]
  }

  function MarkedEquity(b: Book, prices: map<InstrumentID, Decimal>, order: seq<InstrumentID>): Decimal
    requires forall id :: id in order ==> id in b.positions
  {
    Equity(b.(lastPrices := prices), order)
  }

  // ---- the pairwise definition -----------------------------------------------------------------

  /** A fall from worth number i to worth number j, both seen, in that order. */
  predicate Pair(w: seq<Decimal>, i: nat, j: nat) {
    i <= j < |w| && Value(w[i]) > 0.0
  }

  function Fall(w: seq<Decimal>, i: nat, j: nat): real
    requires Pair(w, i, j)
  {
    Drawdown(Value(w[i]), Value(w[j]))
  }

  /** It is the loss as a percentage of the worth it starts from. */
  lemma FallIsPercentage(w: seq<Decimal>, i: nat, j: nat)
    requires Pair(w, i, j)
    ensures Fall(w, i, j) * Value(w[i]) == 100.0 * (Value(w[i]) - Value(w[j]))
  {
    PerTimes(Value(w[i]) - Value(w[j]), Value(w[i]));
  }

  ghost predicate AtMost(w: seq<Decimal>, i: nat, j: nat, dd: real) {
    Pair(w, i, j) ==> Fall(w, i, j) <= dd
  }

  /** dd is the largest fall. */
  ghost predicate IsLargestFall(w: seq<Decimal>, dd: real) {
    (forall i, j :: AtMost(w, i, j, dd)) && IsSomeFall(w, dd)
  }

  /** dd is the fall of some pair. */
  ghost predicate IsSomeFall(w: seq<Decimal>, dd: real) {
    exists i, j :: Attains(w, i, j, dd)
  }

  /** No fall to a non-negative worth exceeds dd. */
  ghost predicate CoversSolvent(w: seq<Decimal>, dd: real) {
    forall i: nat, j: nat :: j < |w| && Value(w[j]) >= 0.0 ==> AtMost(w, i, j, dd)
  }

  /** i is where the lowest positive worth up to j stands. */
  ghost predicate IsTrough(w: seq<Decimal>, i: nat, j: nat) {
    Pair(w, i, j) && forall k :: 0 <= k <= j && Value(w[k]) > 0.0 ==> Value(w[i]) <= Value(w[k])
  }

  /** p is where the highest worth up to k stands. */
  ghost predicate IsRunningPeak(w: seq<Decimal>, p: nat, k: nat) {
    Pair(w, p, k) && forall h :: 0 <= h <= k ==> Value(w[h]) <= Value(w[p])
  }

  ghost predicate PeakFallsAtLeast(w: seq<Decimal>, p: nat, k: nat, f: real) {
    IsRunningPeak(w, p, k) && Fall(w, p, k) >= f
  }

  /** No fall from a trough to a negative worth exceeds every fall from a running peak. */
  ghost predicate PeaksSuffice(w: seq<Decimal>) {
    forall i: nat, j: nat :: IsTrough(w, i, j) && Value(w[j]) < 0.0 ==> exists p, k :: PeakFallsAtLeast(w, p, k, Fall(w, i, j))
  }

  ghost predicate PeakAttains(w: seq<Decimal>, p: nat, k: nat, dd: real) {
    IsRunningPeak(w, p, k) && Fall(w, p, k) == dd
  }

  /** dd is the largest fall from a running peak. */
  ghost predicate IsLargestPeakFall(w: seq<Decimal>, dd: real) {
    && (forall p: nat, k: nat :: IsRunningPeak(w, p, k) ==> Fall(w, p, k) <= dd)
    && (exists p, k :: PeakAttains(w, p, k, dd))
  }

  ghost predicate Attains(w: seq<Decimal>, i: nat, j: nat, dd: real) {
    Pair(w, i, j) && Fall(w, i, j) == dd
  }

  ghost predicate IsPeak(w: seq<Decimal>, peak: Decimal) {
    && peak in w
    && (forall i :: 0 <= i < |w| ==> Value(w[i]) <= Value(peak))
  }

  // ---- one more mark ---------------------------------------------------------------------------

  /** Falling from higher up is no better if and only if the fall ends at a non-negative worth, or there is no
      difference: to a negative worth the lower start falls further. */
  lemma HigherFallsFurther(a: real, p: real, e: real)
    requires 0.0 < a <= p
    ensures Drawdown(a, e) <= Drawdown(p, e) <==> e >= 0.0 || a == p
  {
    var x, y := e / a, e / p;
    assert x * a == e && y * p == e;
    FallOf(a, e, x);
    FallOf(p, e, y);
    if e >= 0.0 {
      Quotients(x, y, a, p);
    } else if a < p {
      NegativeQuotients(x, y, a, p);
    }
  }

  lemma NegativeQuotients(x: real, y: real, a: real, p: real)
    requires 0.0 < a < p && x < 0.0 && x * a == y * p
    ensures x < y
  {
    assert x * p < x * a;
    assert (y - x) * p > 0.0;
  }

  lemma FallOf(p: real, e: real, y: real)
    requires p > 0.0 && y * p == e
    ensures Drawdown(p, e) == (1.0 - y) * 100.0
  {
    PerTimes(p - e, p);
    Complement(Per(p - e, p), y, p, p - e, e);
  }

  lemma PerTimes(x: real, p: real)
    requires p > 0.0
    ensures Per(x, p) * p == x
  {
  }

  lemma Complement(z: real, y: real, p: real, d: real, e: real)
    requires p > 0.0 && z * p == d && y * p == e && d == p - e
    ensures z == 1.0 - y
  {
    ZeroFactor(z + y - 1.0, p);
  }

  lemma ZeroFactor(x: real, p: real)
    requires p > 0.0 && x * p == 0.0
    ensures x == 0.0
  {
  }

  lemma Quotients(x: real, y: real, a: real, p: real)
    requires 0.0 < a <= p && x >= 0.0 && x * a == y * p
    ensures y <= x
  {
    assert x * a <= x * p;
    assert (y - x) * p <= 0.0;
  }

  lemma PeakSnoc(w: seq<Decimal>, peak: Decimal, e: Decimal, peak': Decimal)
    requires IsPeak(w, peak) && peak' == (if Value(e) > Value(peak) then e else peak)
    ensures IsPeak(w + [e], peak')
  {
  }

  lemma FallSnoc(w: seq<Decimal>, dd: real, e: Decimal, peak: Decimal, dd': real)
    requires IsLargestPeakFall(w, dd) && IsPeak(w + [e], peak) && Value(peak) > 0.0
    requires var last := Drawdown(Value(peak), Value(e)); dd' == if last > dd then last else dd
    ensures IsLargestPeakFall(w + [e], dd')
  {
    var w' := w + [e];
    forall p: nat, k: nat | IsRunningPeak(w', p, k)
      ensures Fall(w', p, k) <= dd'
    {
      PeakFallSnoc(w, dd, e, peak, p, k);
    }
    if dd' == dd {
      var p, k :| PeakAttains(w, p, k, dd);
      assert PeakAttains(w', p, k, dd);
    } else {
      var p :| 0 <= p < |w'| && w'[p] == peak;
      assert PeakAttains(w', p, |w|, dd');
    }
  }

  lemma PeakFallSnoc(w: seq<Decimal>, dd: real, e: Decimal, peak: Decimal, p: nat, k: nat)
    requires IsLargestPeakFall(w, dd) && IsPeak(w + [e], peak) && Value(peak) > 0.0 && IsRunningPeak(w + [e], p, k)
    ensures Fall(w + [e], p, k) <= dd || Fall(w + [e], p, k) == Drawdown(Value(peak), Value(e))
  {
    var w' := w + [e];
    if k < |w| {
      assert forall h :: 0 <= h <= k ==> w'[h] == w[h];
      assert IsRunningPeak(w, p, k);
    } else {
      var h :| 0 <= h < |w'| && w'[h] == peak;
      assert Value(w'[p]) == Value(peak);
    }
  }

  // ---- falls from peaks against all falls ------------------------------------------------------

  lemma {:induction false} PeakAt(w: seq<Decimal>, i: nat, j: nat, n: nat) returns (p: nat)
    requires Pair(w, i, j) && n <= j
    ensures Pair(w, p, j) && Value(w[p]) >= Value(w[i])
    ensures forall h :: 0 <= h <= n ==> Value(w[h]) <= Value(w[p])
    decreases n
  {
    p := i;
    if n > 0 {
      p := PeakAt(w, i, j, n - 1);
    }
    if Value(w[n]) > Value(w[p]) {
      p := n;
    }
  }

  /** The largest fall from a running peak is a fall, and the largest to any non-negative worth. */
  lemma PeakFallIsFall(w: seq<Decimal>, dd: real)
    requires IsLargestPeakFall(w, dd)
    ensures IsSomeFall(w, dd) && CoversSolvent(w, dd)
  {
    var p, k :| PeakAttains(w, p, k, dd);
    assert Attains(w, p, k, dd);
    forall i: nat, j: nat | j < |w| && Value(w[j]) >= 0.0
      ensures AtMost(w, i, j, dd)
    {
      if Pair(w, i, j) {
        var q := PeakAt(w, i, j, j);
        assert IsRunningPeak(w, q, j);
        HigherFallsFurther(Value(w[i]), Value(w[q]), Value(w[j]));
      }
    }
  }

  // ---- every run -------------------------------------------------------------------------------

  /** The watermark fields of a book that has seen w. */
  ghost predicate Marked(b: Book, w: seq<Decimal>) {
    && IsPeak(w, b.peakEquity) && Value(b.peakEquity) > 0.0
    && IsLargestPeakFall(w, b.maxDrawdown)
  }

  lemma StartMarked(cfg: Config)
    requires Value(cfg.startingCash) > 0.0
    ensures Marked(NewBook(cfg), [cfg.startingCash])
  {
    var w := [cfg.startingCash];
    var v := Value(cfg.startingCash);
    assert Drawdown(v, v) == 0.0;
    assert PeakAttains(w, 0, 0, 0.0);
  }

  lemma WatermarkMarked(b: Book, e: Decimal, w: seq<Decimal>)
    requires Marked(b, w) && InScale(b.peakEquity) && InScale(e)
    ensures Marked(Watermark(b, e), w + [e])
  {
    var b' := Watermark(b, e);
    CmpIsRationalOrder(e, b.peakEquity);
    PeakSnoc(w, b.peakEquity, e, b'.peakEquity);
    FallSnoc(w, b.maxDrawdown, e, b'.peakEquity, b'.maxDrawdown);
  }

  lemma TradeMarked(cfg: Config, b: Book, sig: Signal, ref: Decimal, now: int, order: seq<InstrumentID>, w: seq<Decimal>)
    requires Marked(b, w) && Lists(order, b)
    ensures Marked(DoApply(cfg, b, sig, ref, now, order).0, w)
  {
    TradeShape(cfg, b, sig, ref, now, order);
    TradeKeepsWatermark(cfg, b, sig, ref, now, DoApply(cfg, b, sig, ref, now, order).0);
  }

  lemma TradeKeepsWatermark(cfg: Config, b: Book, sig: Signal, ref: Decimal, now: int, b': Book)
    requires b' == b || (exists o :: Buys(cfg, b, sig, now, b', o)) || Sells(cfg, b, sig, ref, now, b')
    ensures b'.peakEquity == b.peakEquity && b'.maxDrawdown == b.maxDrawdown
  {
  }

  lemma MarkMarked(b: Book, prices: map<InstrumentID, Decimal>, order: seq<InstrumentID>, w: seq<Decimal>)
    requires Marked(b, w) && ScaledBook(b) && Lists(order, b)
    ensures Marked(DoMark(b, prices, order), w + [MarkedEquity(b, prices, order)])
  {
    EquityInScale(b.(lastPrices := prices), order);
    WatermarkMarked(b.(lastPrices := prices), MarkedEquity(b, prices, order), w);
  }

  /** Over every run with positive starting cash, restarts included: the one-pass figure is the largest fall from a
      running peak. */
  lemma {:induction false} DrawdownIsPeakFall(cfg: Config, run: seq<Book>, events: seq<Event>, i: nat)
    requires IsRun(cfg, run, events) && i < |run| && InScale(cfg.startingCash) && Value(cfg.startingCash) > 0.0
    ensures Marked(run[i], Worths(cfg, run, events, i))
  {
    if i == 0 {
      StartMarked(cfg);
    } else {
      var e := events[i - 1];
      var k := Base(e, i - 1);
      assert Follows(cfg, run, e, i - 1);
      EveryRun(cfg, run, events, k);
      if !e.Restart? || CleanBook(run[k]) {
        DrawdownIsPeakFall(cfg, run, events, k);
      }
      StepMarked(cfg, run, events, i, k);
    }
  }

  lemma StepMarked(cfg: Config, run: seq<Book>, events: seq<Event>, i: nat, k: nat)
    requires IsRun(cfg, run, events) && 0 < i < |run| && k == Base(events[i - 1], i - 1) && k < i
    requires InScale(cfg.startingCash) && Value(cfg.startingCash) > 0.0 && Sound(cfg, run[k])
    requires !events[i - 1].Restart? || CleanBook(run[k]) ==> Marked(run[k], Worths(cfg, run, events, k))
    ensures Marked(run[i], Worths(cfg, run, events, i))
  {
    var e := events[i - 1];
    assert Follows(cfg, run, e, i - 1);
    if e.Trade? {
      TradeMarked(cfg, run[k], e.sig, e.ref, e.now, e.order, Worths(cfg, run, events, k));
    } else if e.MarkTo? {
      MarkMarked(run[k], e.prices, e.order, Worths(cfg, run, events, k));
    } else {
      RestartIs(cfg, run[k]);
      if !CleanBook(run[k]) {
        StartMarked(cfg);
      }
    }
  }

  /** So it is the fall of some pair of worths in order and never overstates, and no fall to a non-negative worth
      exceeds it. */
  lemma DrawdownNeverOverstates(cfg: Config, run: seq<Book>, events: seq<Event>, i: nat)
    requires IsRun(cfg, run, events) && i < |run| && InScale(cfg.startingCash) && Value(cfg.startingCash) > 0.0
    ensures var w, dd := Worths(cfg, run, events, i), run[i].maxDrawdown; IsSomeFall(w, dd) && CoversSolvent(w, dd)
  {
    DrawdownIsPeakFall(cfg, run, events, i);
    PeakFallIsFall(Worths(cfg, run, events, i), run[i].maxDrawdown);
  }

  /** Over every such run the one-pass figure is the pairwise maximum, the largest fall between any two worths in order
      as a percentage of the first, if and only if each fall from the lowest positive worth so far to a negative one is
      matched by some fall from a running peak: always, with non-negative equities. */
  lemma DrawdownIsPairwise(cfg: Config, run: seq<Book>, events: seq<Event>, i: nat)
    requires IsRun(cfg, run, events) && i < |run| && InScale(cfg.startingCash) && Value(cfg.startingCash) > 0.0
    ensures var w := Worths(cfg, run, events, i);
      && (IsLargestFall(w, run[i].maxDrawdown) <==> PeaksSuffice(w))
      && ((forall d :: d in w ==> Value(d) >= 0.0) ==> PeaksSuffice(w))
  {
    DrawdownIsPeakFall(cfg, run, events, i);
    LargestIffPeaksSuffice(Worths(cfg, run, events, i), run[i].maxDrawdown);
  }

  lemma LargestIffPeaksSuffice(w: seq<Decimal>, dd: real)
    requires IsLargestPeakFall(w, dd)
    ensures IsLargestFall(w, dd) <==> PeaksSuffice(w)
    ensures (forall d :: d in w ==> Value(d) >= 0.0) ==> PeaksSuffice(w)
  {
    PeakFallIsFall(w, dd);
    if PeaksSuffice(w) {
      forall i: nat, j: nat
        ensures AtMost(w, i, j, dd)
      {
        if Pair(w, i, j) && Value(w[j]) < 0.0 {
          TroughFallsFurthest(w, i, j, dd);
        }
      }
    }
    if IsLargestFall(w, dd) {
      var p, k :| PeakAttains(w, p, k, dd);
      forall i: nat, j: nat | IsTrough(w, i, j) && Value(w[j]) < 0.0
        ensures PeakFallsAtLeast(w, p, k, Fall(w, i, j))
      {
        assert AtMost(w, i, j, dd);
      }
    }
    if forall d :: d in w ==> Value(d) >= 0.0 {
      assert forall j :: 0 <= j < |w| ==> w[j] in w;
    }
  }

  lemma TroughFallsFurthest(w: seq<Decimal>, i: nat, j: nat, dd: real)
    requires IsLargestPeakFall(w, dd) && PeaksSuffice(w) && Pair(w, i, j) && Value(w[j]) < 0.0
    ensures Fall(w, i, j) <= dd
  {
    var h := Trough(w, i, j, j);
    assert IsTrough(w, h, j);
    HigherFallsFurther(Value(w[h]), Value(w[i]), Value(w[j]));
    var p, k :| PeakFallsAtLeast(w, p, k, Fall(w, h, j));
  }

  lemma {:induction false} Trough(w: seq<Decimal>, i: nat, j: nat, n: nat) returns (k: nat)
    requires Pair(w, i, j) && n <= j
    ensures Pair(w, k, j) && Value(w[k]) <= Value(w[i])
    ensures forall h :: 0 <= h <= n && Value(w[h]) > 0.0 ==> Value(w[k]) <= Value(w[h])
    decreases n
  {
    k := i;
    if n > 0 {
      k := Trough(w, i, j, n - 1);
    }
    if 0.0 < Value(w[n]) < Value(w[k]) {
      k := n;
    }
  }
}

/** Candles (internal/consumer/candles/candles.go): an incremental OHLCV fold, and its agreement with grouping
    the ticks by bucket. */
module Candles {
  import opened Arith
  import opened Decimal
  import opened DecimalRounding
  import opened Market

  datatype Candle = Candle(
    instrument: InstrumentID,
    venue: VenueID,
    openTime: int,
    closeTime: int,
    open: Decimal,
    high: Decimal,
    low: Decimal,
    close: Decimal,
    volume: Decimal,
    trades: nat,
    complete: bool)

  type Interval = d: int | d > 0 witness 1

  /** Nanoseconds from Go's zero time, from which Truncate counts, to the Unix epoch, from which ticks do. */
  const EPOCH := 62_135_596_800_000_000_000

  /** The first 1969 Gregorian years, in days of 86400 seconds. */
  lemma EpochIsTheCalendars()
    ensures EPOCH == (365 * 1969 + 1969 / 4 - 1969 / 100 + 1969 / 400) * 86_400 * 1_000_000_000
  {
  }

  /** Start of the bar a time falls in: whole intervals since the zero time. */
  function Bucket(time: int, interval: Interval): int {
    time - (time + EPOCH) % interval
  }

  lemma BucketHolds(time: int, interval: Interval)
    ensures Bucket(time, interval) <= time < Bucket(time, interval) + interval
    ensures exists n: int :: Bucket(time, interval) + EPOCH == interval * n
  {
    assert Bucket(time, interval) + EPOCH == interval * ((time + EPOCH) / interval);
  }

  function BucketOf(t: Tick, interval: Interval): int {
    Bucket(t.eventTime, interval)
  }

  // ---- the fold -------------------------------------------------------------------------------

  function StartBar(t: Tick, bucket: int): Candle {
    Candle(t.instrument, t.venue, bucket, t.eventTime, t.price, t.price, t.price, t.price, t.quantity, 1, false)
  }

  function FoldIn(c: Candle, t: Tick): Candle {
    c.(high := if Less(c.high, t.price) then t.price else c.high,
       low := if Less(t.price, c.low) then t.price else c.low,
       close := t.price, closeTime := t.eventTime,
       volume := Add(c.volume, t.quantity), trades := c.trades + 1)
  }

  /** Every bar of one key: the closed ones, oldest first, and the open one. */
  datatype Bars = Bars(closed: seq<Candle>, open: Option<Candle>)

  function AddTick(b: Bars, t: Tick, interval: Interval): Bars {
    var bucket := BucketOf(t, interval);
    match b.open
    case None => b.(open := Some(StartBar(t, bucket)))
    case Some(cur) =>
      if bucket > cur.openTime then Bars(b.closed + [cur.(complete := true)], Some(StartBar(t, bucket)))
      else if bucket < cur.openTime then b
      else b.(open := Some(FoldIn(cur, t)))
  }

  function Build(ticks: seq<Tick>, interval: Interval): Bars {
    if ticks == [] then Bars([], None)
    else AddTick(Build(ticks[..|ticks| - 1], interval), ticks[|ticks| - 1], interval)
  }

  // ---- the builder ----------------------------------------------------------------------------

  lemma RetainLast<T>(s: seq<T>, x: T, n: nat)
    requires n > 0
    ensures LastN(LastN(s, n) + [x], n) == LastN(s + [x], n)
  {
  }

  /** The last m of the last n. */
  lemma LastOfLast<T>(s: seq<T>, n: nat, m: int)
    ensures m > 0 ==> LastN(LastN(s, n), m) == LastN(s, if m < n then m else n)
  {
  }

  /** The open bar and the last n closed ones. */
  function Keep(b: Bars, n: nat): Bars {
    Bars(LastN(b.closed, n), b.open)
  }

  /** Forgetting old bars before or after a tick makes no difference. */
  lemma KeepStep(b: Bars, t: Tick, interval: Interval, n: nat)
    requires n > 0
    ensures Keep(AddTick(Keep(b, n), t, interval), n) == Keep(AddTick(b, t, interval), n)
  {
    if b.open.Some? {
      RetainLast(b.closed, b.open.value.(complete := true), n);
    }
  }

  lemma BuildSnoc(ticks: seq<Tick>, t: Tick, interval: Interval)
    ensures Build(ticks + [t], interval) == AddTick(Build(ticks, interval), t, interval)
  {
    assert (ticks + [t])[..|ticks|] == ticks;
  }

  class Builder {
    const interval: Interval
    const history: nat
    var open: map<Key, Candle>
    var done: map<Key, seq<Candle>>
    ghost var fed: seq<Tick>

    /** Per key, the builder holds the open bar and exactly the last `history` closed bars of the fold. */
    ghost predicate Valid()
      reads this
    {
      history > 0 && forall k: Key :: Holds(k)
    }

    ghost predicate Holds(k: Key)
      reads this
    {
      HeldAt(k) == Keep(Build(OnKey(fed, k), interval), history)
    }

    function HeldAt(k: Key): Bars
      reads this
    {
      Bars(DoneAt(k), OpenAt(k))
    }

    function OpenAt(k: Key): Option<Candle>
      reads this
    {
      if k in open then Some(open[k]) else None
    }

    function DoneAt(k: Key): seq<Candle>
      reads this
    {
      if k in done then done[k] else []
    }

    constructor (interval: int, history: int)
      ensures Valid() && fed == []
      ensures this.interval == (if interval <= 0 then 60_000_000_000 else interval)
      ensures this.history == (if history <= 0 then 500 else history)
    {
      this.interval := if interval <= 0 then 60_000_000_000 else interval;
      this.history := if history <= 0 then 500 else history;
      open, done, fed := map[], map[], [];
    }

    method Retain(k: Key, c: Candle)
      requires history > 0
      modifies this`done
      ensures done == old(done)[k := LastN(old(DoneAt(k)) + [c], history)]
    {
      var h := DoneAt(k) + [c];
      if |h| > history {
        h := h[|h| - history..];
      }
      done := done[k := h];
    }

    /** One tick against the bars held for its key; no other key's bars change. */
    method Fold(t: Tick)
      requires history > 0 && |DoneAt(KeyOf(t))| <= history
      modifies this`open, this`done
      ensures HeldAt(KeyOf(t)) == Keep(AddTick(old(HeldAt(KeyOf(t))), t, interval), history)
      ensures forall k: Key :: k != KeyOf(t) ==> HeldAt(k) == old(HeldAt(k))
    {
      var k := KeyOf(t);
      var bucket := BucketOf(t, interval);
      if k !in open {
        open := open[k := StartBar(t, bucket)];
        return;
      }
      var cur := open[k];
      if bucket > cur.openTime {
        cur := cur.(complete := true);
        Retain(k, cur);
        open := open[k := StartBar(t, bucket)];
      } else if bucket == cur.openTime {
        open := open[k := FoldIn(cur, t)];
      }
    }

    method Add(t: Tick)
      requires Valid()
      modifies this
      ensures Valid() && fed == old(fed) + [t]
    {
      assert Holds(KeyOf(t));
      Fold(t);
      fed := fed + [t];
      forall k: Key
        ensures Holds(k)
      {
        assert old(Holds(k));
        OnKeySnoc(old(fed), t, k);
        if k == KeyOf(t) {
          KeepStep(Build(OnKey(old(fed), k), interval), t, interval, history);
          BuildSnoc(OnKey(old(fed), k), t, interval);
        }
      }
    }

    /** Completed bars, oldest first, then the bar in progress. */
    method Recent(k: Key, limit: int) returns (bars: seq<Candle>)
      requires Valid()
      ensures var b := Build(OnKey(fed, k), interval);
        var kept := LastN(b.closed, if 0 < limit < history then limit else history);
        bars == kept + if b.open.Some? then [b.open.value] else []
    {
      assert Holds(k);
      var hist := DoneAt(k);
      LastOfLast(Build(OnKey(fed, k), interval).closed, history, limit);
      if limit > 0 && |hist| > limit {
        hist := hist[|hist| - limit..];
      }
      bars := hist;
      if k in open {
        bars := bars + [open[k]];
      }
    }
  }

  // ---- grouping by bucket ---------------------------------------------------------------------

  /** No earlier tick was already in a later bucket. */
  predicate OnTime(ticks: seq<Tick>, n: nat, interval: Interval)
    requires n < |ticks|
  {
    forall j :: 0 <= j < n ==> BucketOf(ticks[j], interval) <= BucketOf(ticks[n], interval)
  }

  /** The ticks that are not late, in arrival order. */
  function Timely(ticks: seq<Tick>, interval: Interval): seq<Tick> {
    if ticks == [] then []
    else
      var n := |ticks| - 1;
      var rest := Timely(ticks[..n], interval);
      if OnTime(ticks, n, interval) then rest + [ticks[n]] else rest
  }

  /** The ticks of one bucket, in arrival order. */
  function InBucket(ticks: seq<Tick>, b: int, interval: Interval): seq<Tick> {
    if ticks == [] then []
    else
      var rest := InBucket(ticks[..|ticks| - 1], b, interval);
      if BucketOf(ticks[|ticks| - 1], interval) == b then rest + [ticks[|ticks| - 1]] else rest
  }

  function TotalQuantity(m: seq<Tick>): Decimal
    requires m != []
  {
    if |m| == 1 then m[0].quantity else Add(TotalQuantity(m[..|m| - 1]), m[|m| - 1].quantity)
  }

  /** h is the price of the first tick that no other tick exceeds. */
  ghost predicate IsHigh(h: Decimal, m: seq<Tick>) {
    exists i :: 0 <= i < |m| && HighAt(h, m, i)
  }

  ghost predicate HighAt(h: Decimal, m: seq<Tick>, i: int)
    requires 0 <= i < |m|
  {
    && m[i].price == h
    && (forall j :: 0 <= j < |m| ==> Value(m[j].price) <= Value(h))
    && (forall j :: 0 <= j < i ==> Value(m[j].price) < Value(h))
  }

  ghost predicate IsLow(l: Decimal, m: seq<Tick>) {
    exists i :: 0 <= i < |m| && LowAt(l, m, i)
  }

  ghost predicate LowAt(l: Decimal, m: seq<Tick>, i: int)
    requires 0 <= i < |m|
  {
    && m[i].price == l
    && (forall j :: 0 <= j < |m| ==> Value(m[j].price) >= Value(l))
    && (forall j :: 0 <= j < i ==> Value(m[j].price) > Value(l))
  }

  /** c is the OHLCV bar of the ticks m. */
  ghost predicate IsBarOf(c: Candle, m: seq<Tick>) {
    && m != []
    && c.instrument == m[0].instrument && c.venue == m[0].venue
    && c.open == m[0].price && c.close == m[|m| - 1].price && c.closeTime == m[|m| - 1].eventTime
    && IsHigh(c.high, m) && IsLow(c.low, m)
    && c.volume == TotalQuantity(m) && c.trades == |m|
  }

  ghost predicate PricesInScale(ticks: seq<Tick>) {
    forall i :: 0 <= i < |ticks| ==> InScale(ticks[i].price)
  }

  lemma BarOfOne(t: Tick, bucket: int)
    ensures IsBarOf(StartBar(t, bucket), [t])
  {
    assert HighAt(t.price, [t], 0) && LowAt(t.price, [t], 0);
  }

  lemma HighFolds(h: Decimal, m: seq<Tick>, t: Tick)
    requires IsHigh(h, m) && InScale(t.price) && InScale(h)
    ensures IsHigh(if Less(h, t.price) then t.price else h, m + [t])
  {
    CmpIsRationalOrder(h, t.price);
    var i :| 0 <= i < |m| && HighAt(h, m, i);
    if Less(h, t.price) {
      assert HighAt(t.price, m + [t], |m|);
    } else {
      assert HighAt(h, m + [t], i);
    }
  }

  lemma LowFolds(l: Decimal, m: seq<Tick>, t: Tick)
    requires IsLow(l, m) && InScale(t.price) && InScale(l)
    ensures IsLow(if Less(t.price, l) then t.price else l, m + [t])
  {
    CmpIsRationalOrder(t.price, l);
    var i :| 0 <= i < |m| && LowAt(l, m, i);
    if Less(t.price, l) {
      assert LowAt(t.price, m + [t], |m|);
    } else {
      assert LowAt(l, m + [t], i);
    }
  }

  /** Folding a tick in extends the bar's ticks by it. */
  lemma BarFolds(c: Candle, m: seq<Tick>, t: Tick)
    requires IsBarOf(c, m) && PricesInScale(m + [t])
    ensures IsBarOf(FoldIn(c, t), m + [t])
  {
    var all := m + [t];
    assert InScale(all[|m|].price);
    assert InScale(c.high) && InScale(c.low) by {
      var i :| 0 <= i < |m| && HighAt(c.high, m, i);
      var j :| 0 <= j < |m| && LowAt(c.low, m, j);
      assert InScale(all[i].price) && InScale(all[j].price);
    }
    HighFolds(c.high, m, t);
    LowFolds(c.low, m, t);
    assert all[..|m|] == m;
  }

  // ---- facts about the grouping ---------------------------------------------------------------

  lemma InBucketSnoc(m: seq<Tick>, t: Tick, b: int, interval: Interval)
    ensures InBucket(m + [t], b, interval)
         == if BucketOf(t, interval) == b then InBucket(m, b, interval) + [t] else InBucket(m, b, interval)
  {
    assert (m + [t])[..|m|] == m;
  }

  lemma {:induction false} InBucketMembers(m: seq<Tick>, b: int, interval: Interval)
    ensures forall t :: t in InBucket(m, b, interval) <==> t in m && BucketOf(t, interval) == b
  {
    if m != [] {
      InBucketMembers(m[..|m| - 1], b, interval);
      assert m == m[..|m| - 1] + [m[|m| - 1]];
    }
  }

  lemma {:induction false} TimelyMembers(ticks: seq<Tick>, interval: Interval)
    ensures forall t :: t in Timely(ticks, interval) ==> t in ticks
  {
    if ticks != [] {
      TimelyMembers(ticks[..|ticks| - 1], interval);
      assert ticks == ticks[..|ticks| - 1] + [ticks[|ticks| - 1]];
    }
  }

  lemma TimelySnoc(ticks: seq<Tick>, t: Tick, interval: Interval)
    ensures Timely(ticks + [t], interval) ==
      if forall j :: 0 <= j < |ticks| ==> BucketOf(ticks[j], interval) <= BucketOf(t, interval)
      then Timely(ticks, interval) + [t] else Timely(ticks, interval)
  {
    var all := ticks + [t];
    assert all[..|ticks|] == ticks;
    assert forall j :: 0 <= j < |ticks| ==> all[j] == ticks[j];
  }

  // ---- the fold is the grouping ---------------------------------------------------------------

  function AllBars(b: Bars): seq<Candle> {
    b.closed + if b.open.Some? then [b.open.value] else []
  }

  ghost predicate Rising(bars: seq<Candle>) {
    forall i, j :: 0 <= i < j < |bars| ==> bars[i].openTime < bars[j].openTime
  }

  ghost predicate EachIsItsBucket(bars: seq<Candle>, timely: seq<Tick>, interval: Interval) {
    forall c :: c in bars ==> IsBarOf(c, InBucket(timely, c.openTime, interval))
  }

  ghost predicate EveryTickHasABar(bars: seq<Candle>, timely: seq<Tick>, interval: Interval) {
    forall t :: t in timely ==> exists c :: c in bars && c.openTime == BucketOf(t, interval)
  }

  ghost predicate NoneLater(ticks: seq<Tick>, bucket: int, interval: Interval) {
    forall t :: t in ticks ==> BucketOf(t, interval) <= bucket
  }

  /** One bar per bucket that timely ticks fall in, in time order, each the OHLCV of exactly its ticks, and only
      the last one open. */
  ghost predicate Grouped(b: Bars, ticks: seq<Tick>, interval: Interval) {
    && (b.open.None? ==> ticks == [] && b.closed == [])
    && Rising(AllBars(b))
    && EachIsItsBucket(AllBars(b), Timely(ticks, interval), interval)
    && EveryTickHasABar(AllBars(b), Timely(ticks, interval), interval)
    && (forall i :: 0 <= i < |b.closed| ==> b.closed[i].complete)
    && (b.open.Some? ==> !b.open.value.complete && NoneLater(ticks, b.open.value.openTime, interval))
  }

  lemma GroupedLate(b: Bars, ticks: seq<Tick>, t: Tick, interval: Interval)
    requires Grouped(b, ticks, interval) && b.open.Some? && BucketOf(t, interval) < b.open.value.openTime
    ensures Grouped(b, ticks + [t], interval)
  {
    var cur := b.open.value;
    var timely := Timely(ticks, interval);
    assert cur in AllBars(b);
    var m := InBucket(timely, cur.openTime, interval);
    InBucketMembers(timely, cur.openTime, interval);
    TimelyMembers(ticks, interval);
    assert m[0] in m;
    assert m[0] in ticks;
    TimelySnoc(ticks, t, interval);
  }

  /** Bars of other buckets do not see the new tick. */
  lemma OthersKeepTheirTicks(bars: seq<Candle>, timely: seq<Tick>, t: Tick, interval: Interval)
    requires EachIsItsBucket(bars, timely, interval)
    requires forall c :: c in bars ==> c.openTime != BucketOf(t, interval)
    ensures EachIsItsBucket(bars, timely + [t], interval)
  {
    forall c | c in bars
      ensures IsBarOf(c, InBucket(timely + [t], c.openTime, interval))
    {
      InBucketSnoc(timely, t, c.openTime, interval);
    }
  }

  /** Marking a bar complete changes nothing about its ticks. */
  lemma BarWhenComplete(c: Candle, m: seq<Tick>)
    requires IsBarOf(c, m)
    ensures IsBarOf(c.(complete := true), m)
  {
  }

  lemma TimelyGrows(b: Bars, ticks: seq<Tick>, t: Tick, interval: Interval)
    requires Grouped(b, ticks, interval) && b.open.Some? && BucketOf(t, interval) >= b.open.value.openTime
    ensures Timely(ticks + [t], interval) == Timely(ticks, interval) + [t]
    ensures NoneLater(ticks + [t], BucketOf(t, interval), interval)
  {
    TimelySnoc(ticks, t, interval);
  }

  lemma MembersInScale(ticks: seq<Tick>, t: Tick, bucket: int, interval: Interval)
    requires PricesInScale(ticks + [t])
    ensures PricesInScale(InBucket(Timely(ticks, interval), bucket, interval) + [t])
  {
    var all := InBucket(Timely(ticks, interval), bucket, interval) + [t];
    InBucketMembers(Timely(ticks, interval), bucket, interval);
    TimelyMembers(ticks, interval);
    forall i | 0 <= i < |all|
      ensures InScale(all[i].price)
    {
      assert all[i] in ticks + [t];
    }
  }

  lemma ClosedBefore(b: Bars)
    requires Rising(AllBars(b)) && b.open.Some?
    ensures forall c :: c in b.closed ==> c.openTime < b.open.value.openTime
    ensures Rising(b.closed)
  {
    var bars := AllBars(b);
    assert forall i :: 0 <= i < |b.closed| ==> bars[i] == b.closed[i];
    assert bars[|b.closed|] == b.open.value;
  }

  lemma RisingSnoc(bars: seq<Candle>, c: Candle)
    requires Rising(bars) && forall x :: x in bars ==> x.openTime < c.openTime
    ensures Rising(bars + [c])
  {
  }

  lemma EachSnoc(bars: seq<Candle>, c: Candle, timely: seq<Tick>, interval: Interval)
    requires EachIsItsBucket(bars, timely, interval) && IsBarOf(c, InBucket(timely, c.openTime, interval))
    ensures EachIsItsBucket(bars + [c], timely, interval)
  {
  }

  /** Replacing bars by others of the same open times, and adding some, leaves every tick with a bar. */
  lemma BarsStay(bars: seq<Candle>, bars': seq<Candle>, timely: seq<Tick>, t: Tick, last: Candle, interval: Interval)
    requires EveryTickHasABar(bars, timely, interval)
    requires forall c :: c in bars ==> exists c' :: c' in bars' && c'.openTime == c.openTime
    requires last in bars' && last.openTime == BucketOf(t, interval)
    ensures EveryTickHasABar(bars', timely + [t], interval)
  {
    forall x | x in timely + [t]
      ensures exists c :: c in bars' && c.openTime == BucketOf(x, interval)
    {
      if x in timely {
        var c :| c in bars && c.openTime == BucketOf(x, interval);
        var c' :| c' in bars' && c'.openTime == c.openTime;
      }
    }
  }

  lemma GroupedFirst(t: Tick, interval: Interval)
    ensures Grouped(AddTick(Bars([], None), t, interval), [t], interval)
  {
    var c := StartBar(t, BucketOf(t, interval));
    TimelySnoc([], t, interval);
    InBucketSnoc([], t, BucketOf(t, interval), interval);
    assert [] + [t] == [t] && [] + [c] == [c];
    BarOfOne(t, BucketOf(t, interval));
    RisingSnoc([], c);
    EachSnoc([], c, [t], interval);
    BarsStay([], [c], [], t, c, interval);
    assert AllBars(Bars([], Some(c))) == [c];
  }

  lemma SameBucketBars(b: Bars, ticks: seq<Tick>, t: Tick, interval: Interval)
    requires b.open.Some? && BucketOf(t, interval) == b.open.value.openTime && PricesInScale(ticks + [t])
    requires Rising(AllBars(b)) && EachIsItsBucket(AllBars(b), Timely(ticks, interval), interval)
    ensures EachIsItsBucket(b.closed + [FoldIn(b.open.value, t)], Timely(ticks, interval) + [t], interval)
  {
    var cur, timely := b.open.value, Timely(ticks, interval);
    ClosedBefore(b);
    OpenAndClosed(b, timely, interval);
    OthersKeepTheirTicks(b.closed, timely, t, interval);
    MembersInScale(ticks, t, cur.openTime, interval);
    BarFolds(cur, InBucket(timely, cur.openTime, interval), t);
    InBucketSnoc(timely, t, cur.openTime, interval);
    EachSnoc(b.closed, FoldIn(cur, t), timely + [t], interval);
  }

  lemma GroupedSame(b: Bars, ticks: seq<Tick>, t: Tick, interval: Interval)
    requires Grouped(b, ticks, interval) && b.open.Some? && BucketOf(t, interval) == b.open.value.openTime
    requires PricesInScale(ticks + [t])
    ensures Grouped(AddTick(b, t, interval), ticks + [t], interval)
  {
    var next := FoldIn(b.open.value, t);
    TimelyGrows(b, ticks, t, interval);
    SameBucketBars(b, ticks, t, interval);
    ClosedBefore(b);
    RisingSnoc(b.closed, next);
    assert next in b.closed + [next];
    BarsStay(AllBars(b), b.closed + [next], Timely(ticks, interval), t, next, interval);
  }

  lemma OpenAndClosed(b: Bars, timely: seq<Tick>, interval: Interval)
    requires b.open.Some? && EachIsItsBucket(AllBars(b), timely, interval)
    ensures EachIsItsBucket(b.closed, timely, interval)
    ensures IsBarOf(b.open.value, InBucket(timely, b.open.value.openTime, interval))
  {
    assert AllBars(b)[|b.closed|] == b.open.value;
    assert forall c :: c in b.closed ==> c in AllBars(b);
  }

  lemma NextBucketBars(b: Bars, ticks: seq<Tick>, t: Tick, shut: Candle, interval: Interval)
    requires b.open.Some? && BucketOf(t, interval) > b.open.value.openTime && shut == b.open.value.(complete := true)
    requires Rising(AllBars(b)) && EachIsItsBucket(AllBars(b), Timely(ticks, interval), interval)
    requires NoneLater(ticks, b.open.value.openTime, interval)
    ensures EachIsItsBucket(b.closed + [shut] + [StartBar(t, BucketOf(t, interval))], Timely(ticks, interval) + [t], interval)
  {
    var timely := Timely(ticks, interval);
    ClosedBefore(b);
    OpenAndClosed(b, timely, interval);
    BarWhenComplete(b.open.value, InBucket(timely, shut.openTime, interval));
    EachSnoc(b.closed, shut, timely, interval);
    OthersKeepTheirTicks(b.closed + [shut], timely, t, interval);
    NewBucketIsEmpty(ticks, t, b.open.value.openTime, interval);
    BarOfOne(t, BucketOf(t, interval));
    EachSnoc(b.closed + [shut], StartBar(t, BucketOf(t, interval)), timely + [t], interval);
  }

  lemma GroupedNext(b: Bars, ticks: seq<Tick>, t: Tick, interval: Interval)
    requires Grouped(b, ticks, interval) && b.open.Some? && BucketOf(t, interval) > b.open.value.openTime
    ensures Grouped(AddTick(b, t, interval), ticks + [t], interval)
  {
    var shut, next := b.open.value.(complete := true), StartBar(t, BucketOf(t, interval));
    TimelyGrows(b, ticks, t, interval);
    NextBucketBars(b, ticks, t, shut, interval);
    ClosedBefore(b);
    RisingSnoc(b.closed, shut);
    RisingSnoc(b.closed + [shut], next);
    assert next in b.closed + [shut] + [next] && shut in b.closed + [shut] + [next];
    BarsStay(AllBars(b), b.closed + [shut] + [next], Timely(ticks, interval), t, next, interval);
  }

  lemma {:induction false} InBucketEmpty(m: seq<Tick>, b: int, interval: Interval)
    requires forall t :: t in m ==> BucketOf(t, interval) != b
    ensures InBucket(m, b, interval) == []
  {
    if m != [] {
      InBucketEmpty(m[..|m| - 1], b, interval);
    }
  }

  lemma NewBucketIsEmpty(ticks: seq<Tick>, t: Tick, latest: int, interval: Interval)
    requires NoneLater(ticks, latest, interval) && BucketOf(t, interval) > latest
    ensures InBucket(Timely(ticks, interval) + [t], BucketOf(t, interval), interval) == [t]
  {
    TimelyMembers(ticks, interval);
    InBucketEmpty(Timely(ticks, interval), BucketOf(t, interval), interval);
    InBucketSnoc(Timely(ticks, interval), t, BucketOf(t, interval), interval);
  }

  /** For every sequence of ticks of one key, the incremental fold produces exactly the bars of the naive
      group-by over the ticks that were not late. */
  lemma {:induction false} BuildIsGroupBy(ticks: seq<Tick>, interval: Interval)
    requires PricesInScale(ticks)
    ensures Grouped(Build(ticks, interval), ticks, interval)
  {
    if ticks != [] {
      var ticks', t := ticks[..|ticks| - 1], ticks[|ticks| - 1];
      assert ticks == ticks' + [t];
      BuildIsGroupBy(ticks', interval);
      var b := Build(ticks', interval);
      if b.open.None? {
        GroupedFirst(t, interval);
        assert ticks == [t];
      } else if BucketOf(t, interval) < b.open.value.openTime {
        GroupedLate(b, ticks', t, interval);
      } else if BucketOf(t, interval) == b.open.value.openTime {
        GroupedSame(b, ticks', t, interval);
      } else {
        GroupedNext(b, ticks', t, interval);
      }
    }
  }

  /** Low <= Open, Close <= High in every bar. */
  lemma BarIsBracketed(c: Candle, m: seq<Tick>)
    requires IsBarOf(c, m)
    ensures Value(c.low) <= Value(c.open) <= Value(c.high)
    ensures Value(c.low) <= Value(c.close) <= Value(c.high)
  {
  }

  /** A closed bar is final: more ticks only ever append to the closed bars. */
  lemma {:induction false} ClosedBarsNeverChange(ticks: seq<Tick>, more: seq<Tick>, interval: Interval)
    ensures Build(ticks, interval).closed <= Build(ticks + more, interval).closed
  {
    if more == [] {
      assert ticks + more == ticks;
    } else {
      ClosedBarsNeverChange(ticks, more[..|more| - 1], interval);
      assert (ticks + more)[..|ticks + more| - 1] == ticks + more[..|more| - 1];
    }
  }

  // ---- volume ---------------------------------------------------------------------------------

  /** The exact total of the quantities, as a mantissa at scale s. */
  function TotalAt(m: seq<Tick>, s: nat): int
    requires forall i :: 0 <= i < |m| ==> m[i].quantity.scale <= s
  {
    if m == [] then 0
    else TotalAt(m[..|m| - 1], s) + Widen(m[|m| - 1].quantity.unscaled, s - m[|m| - 1].quantity.scale)
  }

  /** The exact total of the quantities, as a rational. */
  function TotalValue(m: seq<Tick>): real {
    if m == [] then 0.0 else TotalValue(m[..|m| - 1]) + Value(m[|m| - 1].quantity)
  }

  ghost predicate Quantities(m: seq<Tick>, s: nat) {
    s <= MAX_SCALE && forall i :: 0 <= i < |m| ==> m[i].quantity.scale <= s
  }

  /** Every running total fits an int64 at scale s. */
  ghost predicate Fitting(m: seq<Tick>, s: nat)
    requires Quantities(m, s)
  {
    forall k :: 0 <= k <= |m| ==> IsInt64(TotalAt(m[..k], s))
  }

  /** v is a total that is exact at scale s: `total` as a mantissa there, `value` as a rational. */
  ghost predicate ExactTotal(v: Decimal, total: int, s: nat, value: real) {
    v.scale <= s && Widen(v.unscaled, s - v.scale) == total && Value(v) == value
  }

  /** A mantissa that fits with zeros appended fits without them. */
  lemma NarrowFits(x: int, k: nat)
    requires IsInt64(Widen(x, k))
    ensures IsInt64(x)
  {
    if x >= 0 {
      WidenUp(x, 0, k);
    } else {
      WidenDown(x, 0, k);
    }
  }

  /** Adding to an exact total stays exact while the new total fits. */
  lemma AddStaysExact(v: Decimal, q: Decimal, s: uint8, total: int, value: real)
    requires ExactTotal(v, total, s, value) && q.scale <= s <= MAX_SCALE
    requires IsInt64(total + Widen(q.unscaled, s - q.scale))
    ensures ExactTotal(Add(v, q), total + Widen(q.unscaled, s - q.scale), s, value + Value(q))
  {
    SumWidens(v, q, s);
    NarrowFits(ExactSum(v, q), s - MaxScaleOf(v, q));
    AddExact(v, q);
  }

  lemma SumWidens(v: Decimal, q: Decimal, s: uint8)
    requires v.scale <= s && q.scale <= s
    ensures Widen(ExactSum(v, q), s - MaxScaleOf(v, q))
         == Widen(v.unscaled, s - v.scale) + Widen(q.unscaled, s - q.scale)
  {
    var top := MaxScaleOf(v, q);
    WidenAdd(v.unscaled, top - v.scale, s - top);
    WidenAdd(q.unscaled, top - q.scale, s - top);
    WidenLinear(BigAt(v, top), BigAt(q, top), s - top);
  }

  /** Volume is the exact sum of the quantities, of either sign, whenever every running total fits an int64 at their
      finest scale. */
  lemma {:induction false} VolumeIsExact(m: seq<Tick>, s: uint8)
    requires m != [] && Quantities(m, s) && Fitting(m, s)
    ensures ExactTotal(TotalQuantity(m), TotalAt(m, s), s, TotalValue(m))
  {
    var n := |m| - 1;
    var q := m[n].quantity;
    WholeFits(m, s);
    if n == 0 {
      assert m[..n] == [];
    } else {
      FittingPrefix(m, s);
      VolumeIsExact(m[..n], s);
      AddStaysExact(TotalQuantity(m[..n]), q, s, TotalAt(m[..n], s), TotalValue(m[..n]));
    }
  }

  lemma WholeFits(m: seq<Tick>, s: nat)
    requires m != [] && Quantities(m, s) && Fitting(m, s)
    ensures var n := |m| - 1;
      IsInt64(TotalAt(m[..n], s) + Widen(m[n].quantity.unscaled, s - m[n].quantity.scale))
  {
    assert m[..|m|] == m;
    assert IsInt64(TotalAt(m[..|m|], s));
  }

  lemma FittingPrefix(m: seq<Tick>, s: nat)
    requires m != [] && Quantities(m, s) && Fitting(m, s)
    ensures Fitting(m[..|m| - 1], s)
  {
    var p := m[..|m| - 1];
    forall k | 0 <= k <= |p|
      ensures IsInt64(TotalAt(p[..k], s))
    {
      assert p[..k] == m[..k];
    }
  }

  /** For quantities that are not negative the final total is the largest, so it is enough that it fits. */
  lemma {:induction false} LastTotalDecides(m: seq<Tick>, s: nat)
    requires Quantities(m, s) && TotalAt(m, s) <= MAX_INT64 && forall i :: 0 <= i < |m| ==> m[i].quantity.unscaled >= 0
    ensures Fitting(m, s) && TotalAt(m, s) >= 0
  {
    if m != [] {
      var n := |m| - 1;
      WidenUp(m[n].quantity.unscaled, 0, s - m[n].quantity.scale);
      LastTotalDecides(m[..n], s);
      forall k | 0 <= k <= |m|
        ensures IsInt64(TotalAt(m[..k], s))
      {
        if k == |m| {
          assert m[..k] == m;
        } else {
          assert m[..n][..k] == m[..k];
        }
      }
    }
  }
}

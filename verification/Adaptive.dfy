/** The epsilon-greedy bandit over moving-average crossovers (internal/strategy/adaptive.go). Prices and scores
    are reals, and the random draws are inputs. */
module Adaptive {
  import opened Decimal
  import opened Market

  datatype Arm = Arm(fast: int, slow: int)

  /** Closing prices are positive; returns divide by them. */
  type Price = r: real | r > 0.0 witness 1.0

  /** One draw of the bandit's generator: explore some eligible arm, or exploit the best one. */
  datatype Draw = Explore(pick: nat) | Exploit

  /** What one evaluation sees of one instrument: its bars' closes, oldest first, the bar in progress last. */
  datatype Observation = Observation(id: InstrumentID, closes: seq<Price>, draw: Draw)

  datatype Position = Position(arm: nat, entry: Price)

  datatype State = State(score: map<nat, real>, trades: map<nat, nat>, open: map<InstrumentID, Position>)

  /** A signal with what attribution needs to know about it. */
  datatype Event =
    | Bought(id: InstrumentID, arm: nat, price: Price)
    | Sold(id: InstrumentID, arm: nat, exit: Price, gain: real)

  const START := State(map[], map[], map[])

  function ScoreOf(s: State, arm: nat): real {
    if arm in s.score then s.score[arm] else 0.0
  }

  function TradesOf(s: State, arm: nat): nat {
    if arm in s.trades then s.trades[arm] else 0
  }

  // ---- crossovers -----------------------------------------------------------------------------

  function Sum(xs: seq<Price>): real {
    if xs == [] then 0.0 else Sum(xs[..|xs| - 1]) + xs[|xs| - 1]
  }

  /** Average of the n closes ending `back` bars from the end; zero when there are not enough. */
  function Sma(closes: seq<Price>, n: int, back: nat): real {
    var end := |closes| - back;
    if end < n || n <= 0 then 0.0 else Sum(closes[end - n..end]) / n as real
  }

  predicate CrossedUp(closes: seq<Price>, a: Arm) {
    Sma(closes, a.fast, 1) <= Sma(closes, a.slow, 1) && Sma(closes, a.fast, 0) > Sma(closes, a.slow, 0)
  }

  predicate CrossedDown(closes: seq<Price>, a: Arm) {
    Sma(closes, a.fast, 1) >= Sma(closes, a.slow, 1) && Sma(closes, a.fast, 0) < Sma(closes, a.slow, 0)
  }

  function MaxSlow(arms: seq<Arm>): (m: int)
    ensures m >= 0 && (forall a :: a in arms ==> a.slow <= m) && (m == 0 || exists a :: a in arms && a.slow == m)
  {
    if arms == [] then 0
    else
      var m := MaxSlow(arms[..|arms| - 1]);
      var last := arms[|arms| - 1];
      assert arms == arms[..|arms| - 1] + [last];
      assert last in arms;
      if last.slow > m then last.slow else m
  }

  /** The arm signals an entry, with enough bars to look back on. */
  predicate Enters(closes: seq<Price>, a: Arm) {
    |closes| >= a.slow + 1 && CrossedUp(closes, a)
  }

  /** Indexes below n whose arm signals an entry, ascending. */
  function Eligible(arms: seq<Arm>, closes: seq<Price>, n: nat): (e: seq<nat>)
    requires n <= |arms|
    ensures forall k :: 0 <= k < |e| ==> e[k] < n
  {
    if n == 0 then []
    else
      var rest := Eligible(arms, closes, n - 1);
      if Enters(closes, arms[n - 1]) then rest + [n - 1] else rest
  }

  // ---- the bandit -----------------------------------------------------------------------------

  /** The scan of the exploit branch: later arms win only by scoring strictly higher. */
  function Best(s: State, eligible: seq<nat>): nat
    requires eligible != []
  {
    if |eligible| == 1 then eligible[0]
    else
      var best := Best(s, eligible[..|eligible| - 1]);
      var i := eligible[|eligible| - 1];
      if ScoreOf(s, i) > ScoreOf(s, best) then i else best
  }

  /** The first eligible arm that no eligible arm outscores. */
  ghost predicate FirstBest(s: State, eligible: seq<nat>, arm: nat) {
    exists k :: 0 <= k < |eligible| && FirstBestAt(s, eligible, arm, k)
  }

  ghost predicate FirstBestAt(s: State, eligible: seq<nat>, arm: nat, k: int)
    requires 0 <= k < |eligible|
  {
    && eligible[k] == arm
    && (forall j :: 0 <= j < |eligible| ==> ScoreOf(s, eligible[j]) <= ScoreOf(s, arm))
    && (forall j :: 0 <= j < k ==> ScoreOf(s, eligible[j]) < ScoreOf(s, arm))
  }

  /** Exploiting picks the first eligible arm of maximum score. */
  lemma {:induction false} BestIsFirstBest(s: State, eligible: seq<nat>)
    requires eligible != []
    ensures FirstBest(s, eligible, Best(s, eligible))
  {
    var n := |eligible| - 1;
    if n == 0 {
      assert FirstBestAt(s, eligible, eligible[0], 0);
    } else {
      BestIsFirstBest(s, eligible[..n]);
      var best := Best(s, eligible[..n]);
      var k :| 0 <= k < n && FirstBestAt(s, eligible[..n], best, k);
      if ScoreOf(s, eligible[n]) > ScoreOf(s, best) {
        assert FirstBestAt(s, eligible, eligible[n], n);
      } else {
        assert FirstBestAt(s, eligible, best, k);
      }
    }
  }

  function PickArm(s: State, eligible: seq<nat>, draw: Draw): (arm: nat)
    requires eligible != []
    ensures arm in eligible
  {
    match draw
    case Explore(pick) => eligible[pick % |eligible|]
    case Exploit => BestEligible(s, eligible); Best(s, eligible)
  }

  lemma BestEligible(s: State, eligible: seq<nat>)
    requires eligible != []
    ensures Best(s, eligible) in eligible
  {
    BestIsFirstBest(s, eligible);
  }

  ghost predicate WellFormed(s: State, arms: seq<Arm>) {
    forall id :: id in s.open ==> s.open[id].arm < |arms|
  }

  function EvaluateExit(s: State, arms: seq<Arm>, decay: real, id: InstrumentID, closed: seq<Price>): (State, Option<Event>)
    requires WellFormed(s, arms) && id in s.open && closed != []
  {
    var pos := s.open[id];
    var a := arms[pos.arm];
    if |closed| < a.slow + 1 || !CrossedDown(closed, a) then (s, None)
    else
      var last := closed[|closed| - 1];
      var gain := Gain(pos.entry, last);
      (Settle(s, decay, id, pos.arm, gain), Some(Sold(id, pos.arm, last, gain)))
  }

  function Gain(entry: Price, last: Price): real {
    (last - entry) / entry
  }

  /** The running average after one more return. */
  function Blend(decay: real, score: real, gain: real): real {
    decay * score + (1.0 - decay) * gain
  }

  /** Crediting a closed trade to its arm. */
  function Settle(s: State, decay: real, id: InstrumentID, arm: nat, gain: real): State {
    State(s.score[arm := Blend(decay, ScoreOf(s, arm), gain)],
          s.trades[arm := TradesOf(s, arm) + 1],
          s.open - {id})
  }

  function EvaluateEntry(s: State, arms: seq<Arm>, id: InstrumentID, closed: seq<Price>, draw: Draw): (State, Option<Event>)
    requires closed != []
  {
    var eligible := Eligible(arms, closed, |arms|);
    if eligible == [] then (s, None)
    else
      var arm := PickArm(s, eligible, draw);
      var last := closed[|closed| - 1];
      (s.(open := s.open[id := Position(arm, last)]), Some(Bought(id, arm, last)))
  }

  /** Evaluate on one instrument. */
  function Observe(s: State, arms: seq<Arm>, decay: real, o: Observation): (r: (State, Option<Event>))
    requires WellFormed(s, arms)
    ensures WellFormed(r.0, arms)
  {
    if |o.closes| < MaxSlow(arms) + 2 then (s, None)
    else
      var closed := o.closes[..|o.closes| - 1];
      if o.id in s.open then EvaluateExit(s, arms, decay, o.id, closed)
      else EvaluateEntry(s, arms, o.id, closed, o.draw)
  }

  /** Any number of evaluations, one instrument after another, with the log of signals they emit. */
  function RunFrom(s: State, arms: seq<Arm>, decay: real, os: seq<Observation>): (r: (State, seq<Event>))
    requires WellFormed(s, arms)
    ensures WellFormed(r.0, arms)
  {
    if os == [] then (s, [])
    else
      var (mid, log) := RunFrom(s, arms, decay, os[..|os| - 1]);
      var (after, e) := Observe(mid, arms, decay, os[|os| - 1]);
      (after, Logged(log, e))
  }

  function Run(arms: seq<Arm>, decay: real, os: seq<Observation>): (State, seq<Event>) {
    RunFrom(START, arms, decay, os)
  }

  class Bandit {
    const arms: seq<Arm>
    const decay: real
    var score: map<nat, real>
    var trades: map<nat, nat>
    var open: map<InstrumentID, Position>

    constructor (arms: seq<Arm>, decay: real)
      ensures this.arms == (if arms == [] then [Arm(2, 6), Arm(3, 9), Arm(5, 15), Arm(8, 21), Arm(13, 34)] else arms)
      ensures this.decay == (if decay <= 0.0 || decay >= 1.0 then 0.7 else decay)
      ensures View() == START
    {
      this.arms := if arms == [] then [Arm(2, 6), Arm(3, 9), Arm(5, 15), Arm(8, 21), Arm(13, 34)] else arms;
      this.decay := if decay <= 0.0 || decay >= 1.0 then 0.7 else decay;
      score, trades, open := map[], map[], map[];
    }

    function View(): State
      reads this
    {
      State(score, trades, open)
    }

    method Pick(eligible: seq<nat>, draw: Draw) returns (arm: nat)
      requires eligible != []
      ensures arm == PickArm(View(), eligible, draw)
    {
      if draw.Explore? {
        return eligible[draw.pick % |eligible|];
      }
      arm := eligible[0];
      var i := 1;
      while i < |eligible|
        invariant 1 <= i <= |eligible|
        invariant arm == Best(View(), eligible[..i])
      {
        assert eligible[..i + 1][..i] == eligible[..i];
        if ScoreOf(View(), eligible[i]) > ScoreOf(View(), arm) {
          arm := eligible[i];
        }
        i := i + 1;
      }
      assert eligible[..i] == eligible;
    }

    method FindEligible(closed: seq<Price>) returns (eligible: seq<nat>)
      ensures eligible == Eligible(arms, closed, |arms|)
    {
      eligible := [];
      var i := 0;
      while i < |arms|
        invariant 0 <= i <= |arms|
        invariant eligible == Eligible(arms, closed, i)
      {
        if Enters(closed, arms[i]) {
          eligible := eligible + [i];
        }
        i := i + 1;
      }
    }

    method Enter(id: InstrumentID, closed: seq<Price>, draw: Draw) returns (e: Option<Event>)
      requires closed != []
      modifies this
      ensures (View(), e) == EvaluateEntry(old(View()), arms, id, closed, draw)
    {
      var eligible := FindEligible(closed);
      if |eligible| == 0 {
        return None;
      }
      var chosen := Pick(eligible, draw);
      open := open[id := Position(chosen, closed[|closed| - 1])];
      e := Some(Bought(id, chosen, closed[|closed| - 1]));
    }

    method Exit(id: InstrumentID, closed: seq<Price>) returns (e: Option<Event>)
      requires WellFormed(View(), arms) && id in open && closed != []
      modifies this
      ensures (View(), e) == EvaluateExit(old(View()), arms, decay, id, closed)
    {
      var pos := open[id];
      var a := arms[pos.arm];
      if |closed| < a.slow + 1 || !CrossedDown(closed, a) {
        return None;
      }
      var gain := Gain(pos.entry, closed[|closed| - 1]);
      score := score[pos.arm := Blend(decay, ScoreOf(View(), pos.arm), gain)];
      trades := trades[pos.arm := TradesOf(View(), pos.arm) + 1];
      open := open - {id};
      e := Some(Sold(id, pos.arm, closed[|closed| - 1], gain));
    }

    /** One instrument of Evaluate's loop. */
    method EvaluateOne(o: Observation) returns (e: Option<Event>)
      requires WellFormed(View(), arms)
      modifies this
      ensures (View(), e) == Observe(old(View()), arms, decay, o)
    {
      if |o.closes| < MaxSlow(arms) + 2 {
        return None;
      }
      var closed := o.closes[..|o.closes| - 1];
      if o.id in open {
        e := Exit(o.id, closed);
      } else {
        e := Enter(o.id, closed, o.draw);
      }
    }

    method Evaluate(os: seq<Observation>) returns (signals: seq<Event>)
      requires WellFormed(View(), arms)
      modifies this
      ensures (View(), signals) == RunFrom(old(View()), arms, decay, os)
      ensures WellFormed(View(), arms)
    {
      signals := [];
      var i := 0;
      while i < |os|
        invariant 0 <= i <= |os|
        invariant (View(), signals) == RunFrom(old(View()), arms, decay, os[..i])
        invariant WellFormed(View(), arms)
      {
        assert os[..i + 1][..i] == os[..i];
        var e := EvaluateOne(os[i]);
        if e.Some? {
          signals := signals + [e.value];
        }
        i := i + 1;
      }
      assert os[..i] == os;
    }
  }

  // ---- attribution over every run -------------------------------------------------------------

  function EventsOn(log: seq<Event>, id: InstrumentID): seq<Event> {
    if log == [] then []
    else
      var rest := EventsOn(log[..|log| - 1], id);
      if log[|log| - 1].id == id then rest + [log[|log| - 1]] else rest
  }

  /** The returns of the trades an arm closed, in order. */
  function GainsOf(log: seq<Event>, arm: nat): seq<real> {
    if log == [] then []
    else
      var rest := GainsOf(log[..|log| - 1], arm);
      var e := log[|log| - 1];
      if e.Sold? && e.arm == arm then rest + [e.gain] else rest
  }

  /** Buys and sells of an instrument alternate, starting with a buy, and each sell is by the arm that bought,
      for the return measured from that arm's entry price. */
  ghost predicate Alternates(mine: seq<Event>) {
    forall k :: 0 <= k < |mine| ==> InTurn(mine, k)
  }

  predicate InTurn(mine: seq<Event>, k: nat)
    requires k < |mine|
  {
    if k % 2 == 0 then mine[k].Bought?
    else (
      && mine[k].Sold? && mine[k - 1].Bought?
      && mine[k].arm == mine[k - 1].arm
      && mine[k].gain == Gain(mine[k - 1].price, mine[k].exit))
  }

  /** An instrument is held exactly when its last event is a buy, under that buy's arm and price. */
  ghost predicate HeldAs(s: State, mine: seq<Event>, id: InstrumentID) {
    && (id in s.open <==> |mine| % 2 == 1)
    && (id in s.open ==> mine[|mine| - 1] == Bought(id, s.open[id].arm, s.open[id].entry))
  }

  function Power(d: real, n: nat): real {
    if n == 0 then 1.0 else d * Power(d, n - 1)
  }

  /** What a return weighs in the average once n newer ones have come in. */
  function Weighed(d: real, n: nat, gain: real): real {
    (1.0 - d) * Power(d, n) * gain
  }

  /** The exponentially weighted average as an explicit weighted sum: the k-th of n returns weighs
      (1 - decay) * decay^(n-1-k). */
  function Ewma(d: real, gains: seq<real>): real {
    if gains == [] then 0.0 else Weighed(d, |gains| - 1, gains[0]) + Ewma(d, gains[1..])
  }

  lemma WeighedOlder(d: real, n: nat, gain: real)
    ensures Weighed(d, n + 1, gain) == d * Weighed(d, n, gain)
  {
    Commute(d, 1.0 - d, Power(d, n), gain);
  }

  lemma Commute(d: real, w: real, p: real, g: real)
    ensures w * (d * p) * g == d * (w * p * g)
  {
  }

  lemma BlendOfSum(d: real, a: real, b: real, g: real)
    ensures Blend(d, a + b, g) == d * a + Blend(d, b, g)
  {
  }

  /** The running update computes the weighted sum. */
  lemma {:induction false} EwmaSnoc(d: real, gains: seq<real>, g: real)
    ensures Ewma(d, gains + [g]) == Blend(d, Ewma(d, gains), g)
  {
    var all := gains + [g];
    if gains == [] {
      assert all[1..] == [];
      assert Ewma(d, all) == Weighed(d, 0, g);
    } else {
      EwmaSnoc(d, gains[1..], g);
      assert all[1..] == gains[1..] + [g];
      WeighedOlder(d, |gains| - 1, gains[0]);
      BlendOfSum(d, Weighed(d, |gains| - 1, gains[0]), Ewma(d, gains[1..]), g);
    }
  }

  ghost predicate AttributedTo(s: State, log: seq<Event>, decay: real, arm: nat) {
    TradesOf(s, arm) == |GainsOf(log, arm)| && ScoreOf(s, arm) == Ewma(decay, GainsOf(log, arm))
  }

  ghost predicate TradedOn(s: State, log: seq<Event>, id: InstrumentID) {
    Alternates(EventsOn(log, id)) && HeldAs(s, EventsOn(log, id), id)
  }

  lemma EventsOnSnoc(log: seq<Event>, e: Event, id: InstrumentID)
    ensures EventsOn(log + [e], id) == if e.id == id then EventsOn(log, id) + [e] else EventsOn(log, id)
  {
    assert (log + [e])[..|log|] == log;
  }

  lemma GainsOfSnoc(log: seq<Event>, e: Event, arm: nat)
    ensures GainsOf(log + [e], arm) == if e.Sold? && e.arm == arm then GainsOf(log, arm) + [e.gain] else GainsOf(log, arm)
  {
    assert (log + [e])[..|log|] == log;
  }

  /** The three things an observation can do: nothing, open a position, or settle the one that is open. */
  ghost predicate Shape(s: State, s': State, e: Option<Event>, decay: real) {
    match e
    case None => s' == s
    case Some(Bought(id, arm, price)) => id !in s.open && s' == s.(open := s.open[id := Position(arm, price)])
    case Some(Sold(id, arm, exit, gain)) =>
      id in s.open && arm == s.open[id].arm && gain == Gain(s.open[id].entry, exit) && s' == Settle(s, decay, id, arm, gain)
  }

  lemma ObserveShape(s: State, arms: seq<Arm>, decay: real, o: Observation)
    requires WellFormed(s, arms)
    ensures Shape(s, Observe(s, arms, decay, o).0, Observe(s, arms, decay, o).1, decay)
  {
  }

  function Logged(log: seq<Event>, e: Option<Event>): seq<Event> {
    if e.Some? then log + [e.value] else log
  }

  lemma AttributionStep(s: State, s': State, e: Option<Event>, decay: real, log: seq<Event>, arm: nat)
    requires Shape(s, s', e, decay) && AttributedTo(s, log, decay, arm)
    ensures AttributedTo(s', Logged(log, e), decay, arm)
  {
    if e.Some? {
      GainsOfSnoc(log, e.value, arm);
      if e.value.Sold? && e.value.arm == arm {
        EwmaSnoc(decay, GainsOf(log, arm), e.value.gain);
      }
    }
  }

  lemma TradingStep(s: State, s': State, e: Option<Event>, decay: real, log: seq<Event>, id: InstrumentID)
    requires Shape(s, s', e, decay) && TradedOn(s, log, id)
    ensures TradedOn(s', Logged(log, e), id)
  {
    if e.Some? {
      EventsOnSnoc(log, e.value, id);
      if e.value.id == id {
        AlternatesSnoc(EventsOn(log, id), e.value);
      }
    }
  }

  lemma AlternatesSnoc(mine: seq<Event>, e: Event)
    requires Alternates(mine)
    requires InTurn(mine + [e], |mine|)
    ensures Alternates(mine + [e])
  {
    forall k | 0 <= k < |mine|
      ensures InTurn(mine + [e], k)
    {
      assert InTurn(mine, k);
    }
  }

  /** Over every run: signals per instrument alternate buy then sell, each exit is by the arm that entered,
      an arm's trade count is the number of its exits, and its score is the weighted average of their returns. */
  lemma {:induction false} EveryRun(arms: seq<Arm>, decay: real, os: seq<Observation>, id: InstrumentID, arm: nat)
    ensures var (s, log) := Run(arms, decay, os);
      TradedOn(s, log, id) && AttributedTo(s, log, decay, arm)
  {
    if os != [] {
      EveryRun(arms, decay, os[..|os| - 1], id, arm);
      var (s, log) := Run(arms, decay, os[..|os| - 1]);
      var (s', e) := Observe(s, arms, decay, os[|os| - 1]);
      ObserveShape(s, arms, decay, os[|os| - 1]);
      AttributionStep(s, s', e, decay, log, arm);
      TradingStep(s, s', e, decay, log, id);
    }
  }

  function Lowest(gains: seq<real>): real {
    if gains == [] then 0.0
    else var m := Lowest(gains[..|gains| - 1]); if gains[|gains| - 1] < m then gains[|gains| - 1] else m
  }

  function Highest(gains: seq<real>): real {
    if gains == [] then 0.0
    else var m := Highest(gains[..|gains| - 1]); if gains[|gains| - 1] > m then gains[|gains| - 1] else m
  }

  lemma NonNegative(a: real, b: real)
    requires a >= 0.0 && b >= 0.0
    ensures a * b >= 0.0
  {
  }

  lemma BlendAround(d: real, x: real, g: real, c: real)
    ensures Blend(d, x, g) == c + d * (x - c) + (1.0 - d) * (g - c)
    ensures Blend(d, x, g) == c - d * (c - x) - (1.0 - d) * (c - g)
  {
  }

  lemma Between(d: real, x: real, g: real, lo: real, hi: real)
    requires 0.0 < d < 1.0 && lo <= x <= hi && lo <= g <= hi
    ensures lo <= Blend(d, x, g) <= hi
  {
    BlendAround(d, x, g, lo);
    NonNegative(d, x - lo);
    NonNegative(1.0 - d, g - lo);
    BlendAround(d, x, g, hi);
    NonNegative(d, hi - x);
    NonNegative(1.0 - d, hi - g);
  }

  /** A score never leaves the range of its arm's returns, extended by the zero it starts from. */
  lemma {:induction false} ScoreInRange(d: real, gains: seq<real>)
    requires 0.0 < d < 1.0
    ensures Lowest(gains) <= Ewma(d, gains) <= Highest(gains)
  {
    if gains != [] {
      var n := |gains| - 1;
      ScoreInRange(d, gains[..n]);
      assert gains == gains[..n] + [gains[n]];
      EwmaSnoc(d, gains[..n], gains[n]);
      Between(d, Ewma(d, gains[..n]), gains[n], Lowest(gains), Highest(gains));
    }
  }

  // ---- exactly when a signal is emitted --------------------------------------------------------

  /** Prices added up from the front. */
  function TotalOf(xs: seq<Price>): real {
    if xs == [] then 0.0 else xs[0] + TotalOf(xs[1..])
  }

  lemma {:induction false} TotalSnoc(xs: seq<Price>, x: Price)
    ensures TotalOf(xs + [x]) == TotalOf(xs) + x
  {
    if xs == [] {
      assert (xs + [x])[1..] == [];
    } else {
      TotalSnoc(xs[1..], x);
      assert (xs + [x])[1..] == xs[1..] + [x];
    }
  }

  lemma {:induction false} SumIsTotal(xs: seq<Price>)
    ensures Sum(xs) == TotalOf(xs)
  {
    if xs != [] {
      var n := |xs| - 1;
      SumIsTotal(xs[..n]);
      TotalSnoc(xs[..n], xs[n]);
      assert xs == xs[..n] + [xs[n]];
    }
  }

  /** m is the mean of the n closes that end `back` before the last one; of too few closes it is zero. */
  ghost predicate IsMean(m: real, closes: seq<Price>, n: int, back: nat) {
    if n <= 0 || |closes| - back < n then m == 0.0
    else m * n as real == TotalOf(closes[|closes| - back - n..|closes| - back])
  }

  lemma SmaIsMean(closes: seq<Price>, n: int, back: nat, m: real)
    ensures IsMean(m, closes, n, back) <==> m == Sma(closes, n, back)
  {
    if n > 0 && |closes| - back >= n {
      var window := closes[|closes| - back - n..|closes| - back];
      SumIsTotal(window);
      Quotient(m, Sum(window), n as real);
    }
  }

  lemma Quotient(m: real, total: real, n: real)
    requires n > 0.0
    ensures m * n == total <==> m == total / n
  {
  }

  /** The fast mean is above the slow one now, and was not one bar earlier. */
  ghost predicate Rises(closes: seq<Price>, a: Arm) {
    exists f0, s0, f1, s1 :: Means(closes, a, f0, s0, f1, s1) && f0 > s0 && f1 <= s1
  }

  /** The fast mean is below the slow one now, and was not one bar earlier. */
  ghost predicate Falls(closes: seq<Price>, a: Arm) {
    exists f0, s0, f1, s1 :: Means(closes, a, f0, s0, f1, s1) && f0 < s0 && f1 >= s1
  }

  ghost predicate Means(closes: seq<Price>, a: Arm, f0: real, s0: real, f1: real, s1: real) {
    && IsMean(f0, closes, a.fast, 0) && IsMean(s0, closes, a.slow, 0)
    && IsMean(f1, closes, a.fast, 1) && IsMean(s1, closes, a.slow, 1)
  }

  lemma CrossingMeans(closes: seq<Price>, a: Arm)
    ensures CrossedUp(closes, a) <==> Rises(closes, a)
    ensures CrossedDown(closes, a) <==> Falls(closes, a)
  {
    var f0, s0 := Sma(closes, a.fast, 0), Sma(closes, a.slow, 0);
    var f1, s1 := Sma(closes, a.fast, 1), Sma(closes, a.slow, 1);
    SmaIsMean(closes, a.fast, 0, f0);
    SmaIsMean(closes, a.slow, 0, s0);
    SmaIsMean(closes, a.fast, 1, f1);
    SmaIsMean(closes, a.slow, 1, s1);
    assert Means(closes, a, f0, s0, f1, s1);
    forall w, x, y, z | Means(closes, a, w, x, y, z)
      ensures w == f0 && x == s0 && y == f1 && z == s1
    {
      SmaIsMean(closes, a.fast, 0, w);
      SmaIsMean(closes, a.slow, 0, x);
      SmaIsMean(closes, a.fast, 1, y);
      SmaIsMean(closes, a.slow, 1, z);
    }
  }

  /** How many of the first n arms rise. */
  ghost function Rising(arms: seq<Arm>, closed: seq<Price>, n: nat): nat
    requires n <= |arms|
  {
    if n == 0 then 0 else Rising(arms, closed, n - 1) + if Rises(closed, arms[n - 1]) then 1 else 0
  }

  /** Every arm has the bars it looks back on. */
  predicate Enough(arms: seq<Arm>, closed: seq<Price>) {
    forall a :: a in arms ==> |closed| >= a.slow + 1
  }

  /** The j-th entry of e is the j-th rising arm, and below n. */
  ghost predicate InPlace(e: seq<nat>, arms: seq<Arm>, closed: seq<Price>, n: nat, j: nat)
    requires n <= |arms| && j < |e|
  {
    e[j] < n && Rises(closed, arms[e[j]]) && Rising(arms, closed, e[j]) == j
  }

  /** e lists the rising ones of the first n arms, in order. */
  ghost predicate ListsRising(e: seq<nat>, arms: seq<Arm>, closed: seq<Price>, n: nat)
    requires n <= |arms|
  {
    && |e| == Rising(arms, closed, n)
    && (forall j :: 0 <= j < |e| ==> InPlace(e, arms, closed, n, j))
    && (forall i, j :: 0 <= i < j < |e| ==> e[i] < e[j])
    && (forall k :: 0 <= k < n && Rises(closed, arms[k]) ==> k in e)
  }

  lemma {:induction false} EligibleRise(arms: seq<Arm>, closed: seq<Price>, n: nat)
    requires n <= |arms| && Enough(arms, closed)
    ensures ListsRising(Eligible(arms, closed, n), arms, closed, n)
  {
    if n > 0 {
      EligibleRise(arms, closed, n - 1);
      CrossingMeans(closed, arms[n - 1]);
      assert arms[n - 1] in arms;
      ListsOneMore(Eligible(arms, closed, n - 1), arms, closed, n);
    }
  }

  lemma ListsOneMore(e: seq<nat>, arms: seq<Arm>, closed: seq<Price>, n: nat)
    requires 0 < n <= |arms| && ListsRising(e, arms, closed, n - 1)
    ensures ListsRising(if Rises(closed, arms[n - 1]) then e + [n - 1] else e, arms, closed, n)
  {
    var g := if Rises(closed, arms[n - 1]) then e + [n - 1] else e;
    forall j | 0 <= j < |g|
      ensures InPlace(g, arms, closed, n, j)
    {
      assert j == |e| || InPlace(e, arms, closed, n - 1, j);
    }
    forall i, j | 0 <= i < j < |g|
      ensures g[i] < g[j]
    {
      assert InPlace(e, arms, closed, n - 1, i);
    }
    forall k | 0 <= k < n && Rises(closed, arms[k])
      ensures k in g
    {
      assert k == n - 1 || k in e;
    }
  }

  /** The arm a draw selects among the rising ones: the pick-th of them in turn, or the first of the best score. */
  ghost predicate Chosen(s: State, arms: seq<Arm>, closed: seq<Price>, draw: Draw, arm: nat) {
    && arm < |arms| && Rises(closed, arms[arm])
    && match draw
       case Explore(pick) => Rising(arms, closed, |arms|) > 0 && Rising(arms, closed, arm) == pick % Rising(arms, closed, |arms|)
       case Exploit =>
         forall k :: 0 <= k < |arms| && Rises(closed, arms[k]) ==>
           ScoreOf(s, k) <= ScoreOf(s, arm) && (k < arm ==> ScoreOf(s, k) < ScoreOf(s, arm))
  }

  lemma ExploreIsChosen(s: State, arms: seq<Arm>, closed: seq<Price>, pick: nat, e: seq<nat>)
    requires e != [] && ListsRising(e, arms, closed, |arms|)
    ensures Chosen(s, arms, closed, Explore(pick), e[pick % |e|])
  {
    assert InPlace(e, arms, closed, |arms|, pick % |e|);
  }

  lemma ExploitIsChosen(s: State, arms: seq<Arm>, closed: seq<Price>, e: seq<nat>, best: nat, i: nat)
    requires ListsRising(e, arms, closed, |arms|) && i < |e| && FirstBestAt(s, e, best, i)
    ensures Chosen(s, arms, closed, Exploit, best)
  {
    assert InPlace(e, arms, closed, |arms|, i);
    forall k | 0 <= k < |arms| && Rises(closed, arms[k])
      ensures ScoreOf(s, k) <= ScoreOf(s, best) && (k < best ==> ScoreOf(s, k) < ScoreOf(s, best))
    {
      var j :| 0 <= j < |e| && e[j] == k;
      assert k < best ==> j < i;
    }
  }

  lemma PickIsChosen(s: State, arms: seq<Arm>, closed: seq<Price>, draw: Draw, e: seq<nat>)
    requires e != [] && ListsRising(e, arms, closed, |arms|)
    ensures Chosen(s, arms, closed, draw, PickArm(s, e, draw))
  {
    match draw
    case Explore(pick) => ExploreIsChosen(s, arms, closed, pick, e);
    case Exploit =>
      BestIsFirstBest(s, e);
      var i :| 0 <= i < |e| && FirstBestAt(s, e, Best(s, e), i);
      ExploitIsChosen(s, arms, closed, e, Best(s, e), i);
  }

  /** What one observation does, from its closes alone. */
  ghost predicate Signals(s: State, arms: seq<Arm>, o: Observation, e: Option<Event>)
    requires WellFormed(s, arms)
  {
    if |o.closes| < 2 || !Enough(arms, o.closes[..|o.closes| - 1]) then e == None
    else
      var closed := o.closes[..|o.closes| - 1];
      var last := closed[|closed| - 1];
      if o.id in s.open then
        var arm, entry := s.open[o.id].arm, s.open[o.id].entry;
        e == if Falls(closed, arms[arm]) then Some(Sold(o.id, arm, last, (last - entry) / entry)) else None
      else if exists k :: 0 <= k < |arms| && Rises(closed, arms[k]) then
        e.Some? && e.value.Bought? && e.value.id == o.id && e.value.price == last && Chosen(s, arms, closed, o.draw, e.value.arm)
      else e == None
  }

  lemma ObserveSignals(s: State, arms: seq<Arm>, decay: real, o: Observation)
    requires WellFormed(s, arms)
    ensures Signals(s, arms, o, Observe(s, arms, decay, o).1)
  {
    if |o.closes| >= MaxSlow(arms) + 2 {
      var closed := o.closes[..|o.closes| - 1];
      if o.id in s.open {
        CrossingMeans(closed, arms[s.open[o.id].arm]);
        assert arms[s.open[o.id].arm] in arms;
      } else {
        var e := Eligible(arms, closed, |arms|);
        EligibleRise(arms, closed, |arms|);
        if e != [] {
          PickIsChosen(s, arms, closed, o.draw, e);
        }
      }
    }
  }

  /** Over every run, at every observation: with too few bars for some arm nothing is emitted; otherwise a held
      instrument is sold exactly when its arm's fast mean of the closed bars has just fallen below the slow one, and one
      that is not held is bought exactly when some arm's has just risen above, by the arm the draw selects, always at the
      last closed price. */
  lemma EverySignal(arms: seq<Arm>, decay: real, os: seq<Observation>, n: nat)
    requires n < |os|
    ensures var (s, log) := Run(arms, decay, os[..n]);
      var log' := Run(arms, decay, os[..n + 1]).1;
      exists e :: log' == Logged(log, e) && Signals(s, arms, os[n], e)
  {
    var (s, log) := Run(arms, decay, os[..n]);
    assert os[..n + 1][..n] == os[..n];
    ObserveSignals(s, arms, decay, os[n]);
  }
}

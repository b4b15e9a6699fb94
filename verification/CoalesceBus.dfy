/** The coalescing subscription (internal/bus/inproc/inproc.go): any number of publishers, the draining
    goroutine and the consumer, interleaved one lock section or channel operation at a time. */
module CoalesceBus {
  import opened Market

  /** Where coalesceLoop stands. */
  datatype LoopPC =
    | Parked               // in the outer select, waiting for a wake token or shutdown
    | Draining             // about to take the lock and look for a pending tick
    | Holding(next: Tick)  // removed from pending, in the select that sends it
    | Counting             // sent, about to add one to delivered
    | Stopped              // returned after shutdown

  /** The subscription, with the history of what went in and what came out. */
  datatype State = State(
    capacity: nat,
    pending: map<InstrumentID, Tick>,
    wake: bool,            // a token is queued in the one-slot wake channel
    out: seq<Tick>,
    loop: LoopPC,
    inFlight: nat,         // publishers between their insert and their wake send
    done: bool,
    delivered: nat,
    coalesced: nat,
    dropped: nat,
    accepted: seq<Tick>,   // every tick inserted into pending
    emitted: seq<Tick>,    // every tick sent on out
    received: seq<Tick>,   // every tick the consumer took
    abandoned: nat)        // ticks in the loop's hand when it returned

  datatype Step =
    | Insert(tick: Tick)
    | SendWake
    | TakeWake
    | StopParked
    | Pick(id: InstrumentID)
    | Park
    | Send
    | Abandon
    | Count
    | Consume
    | Shutdown

  function Init(capacity: nat): State {
    State(capacity, map[], false, [], Parked, 0, false, 0, 0, 0, [], [], [], 0)
  }

  predicate Enabled(s: State, step: Step) {
    match step
    case Insert(_) => true
    case SendWake => s.inFlight > 0
    case TakeWake => s.loop.Parked? && s.wake
    case StopParked => s.loop.Parked? && s.done
    case Pick(id) => s.loop.Draining? && id in s.pending
    case Park => s.loop.Draining? && s.pending == map[]
    case Send => s.loop.Holding? && |s.out| < s.capacity
    case Abandon => s.loop.Holding? && s.done
    case Count => s.loop.Counting?
    case Consume => s.out != []
    case Shutdown => true
  }

  function Next(s: State, step: Step): State
    requires Enabled(s, step)
  {
    match step
    case Insert(t) =>
      s.(coalesced := s.coalesced + if t.instrument in s.pending then 1 else 0,
         pending := s.pending[t.instrument := t],
         accepted := s.accepted + [t],
         inFlight := s.inFlight + 1)
    case SendWake => s.(inFlight := s.inFlight - 1, wake := true)
    case TakeWake => s.(loop := Draining, wake := false)
    case StopParked => s.(loop := Stopped)
    case Pick(id) => s.(loop := Holding(s.pending[id]), pending := s.pending - {id})
    case Park => s.(loop := Parked)
    case Send => s.(loop := Counting, out := s.out + [s.loop.next], emitted := s.emitted + [s.loop.next])
    case Abandon => s.(loop := Stopped, abandoned := s.abandoned + 1)
    case Count => s.(loop := Draining, delivered := s.delivered + 1)
    case Consume => s.(out := s.out[1..], received := s.received + [s.out[0]])
    case Shutdown => s.(done := true)
  }

  /** A schedule the goroutines can follow from s. */
  predicate CanRun(s: State, steps: seq<Step>)
    decreases |steps|
  {
    steps == [] || (Enabled(s, steps[0]) && CanRun(Next(s, steps[0]), steps[1..]))
  }

  function Run(s: State, steps: seq<Step>): State
    requires CanRun(s, steps)
    decreases |steps|
  {
    if steps == [] then s else Run(Next(s, steps[0]), steps[1..])
  }

  // ---- no lost wake-up ------------------------------------------------------------------------

  /** A pending tick always has someone on the way to it: a queued token, a draining loop, or a publisher
      that has yet to send its token. Only a loop that returned after shutdown may leave ticks behind. */
  ghost predicate NoLostWake(s: State) {
    && (s.pending != map[] ==>
      s.wake || s.loop.Draining? || s.loop.Holding? || s.loop.Counting? || s.inFlight > 0 || s.loop.Stopped?)
    && (s.loop.Stopped? ==> s.done)
  }

  lemma NoLostWakeStep(s: State, step: Step)
    requires NoLostWake(s) && Enabled(s, step)
    ensures NoLostWake(Next(s, step))
  {
  }

  // ---- bookkeeping ----------------------------------------------------------------------------

  function InHand(s: State): nat {
    if s.loop.Holding? then 1 else 0
  }

  function Uncounted(s: State): nat {
    if s.loop.Counting? then 1 else 0
  }

  ghost function Instruments(ticks: seq<Tick>): set<InstrumentID> {
    set t | t in ticks :: t.instrument
  }

  /** Every accepted tick is delivered, superseded, pending, in the loop's hand, or abandoned by it. */
  ghost predicate Conserved(s: State) {
    && |s.accepted| == s.delivered + Uncounted(s) + s.coalesced + |s.pending| + InHand(s) + s.abandoned
    && |s.emitted| == s.delivered + Uncounted(s)
    && s.emitted == s.received + s.out
    && s.dropped == 0
    && |s.out| <= s.capacity
    && (s.abandoned > 0 ==> s.loop.Stopped?)
  }

  ghost predicate Keyed(s: State) {
    && (forall id :: id in s.pending ==> s.pending[id].instrument == id)
    && s.pending.Keys <= Instruments(s.accepted)
  }

  lemma MapSizes(m: map<InstrumentID, Tick>, id: InstrumentID, t: Tick)
    ensures |m[id := t]| == |m| + if id in m then 0 else 1
    ensures id in m ==> |m - {id}| == |m| - 1
  {
    assert m[id := t].Keys == m.Keys + {id};
    assert (m - {id}).Keys == m.Keys - {id};
  }

  lemma ConservedInsert(s: State, t: Tick)
    requires Conserved(s)
    ensures Conserved(Next(s, Insert(t)))
  {
    MapSizes(s.pending, t.instrument, t);
  }

  lemma ConservedPick(s: State, id: InstrumentID)
    requires Conserved(s) && Enabled(s, Pick(id))
    ensures Conserved(Next(s, Pick(id)))
  {
    MapSizes(s.pending, id, s.pending[id]);
  }

  lemma ConservedConsume(s: State)
    requires Conserved(s) && Enabled(s, Consume)
    ensures Conserved(Next(s, Consume))
  {
    assert s.out == [s.out[0]] + s.out[1..];
  }

  lemma ConservedSend(s: State)
    requires Conserved(s) && Enabled(s, Send)
    ensures Conserved(Next(s, Send))
  {
    assert s.received + (s.out + [s.loop.next]) == s.received + s.out + [s.loop.next];
  }

  lemma ConservedStep(s: State, step: Step)
    requires Conserved(s) && Enabled(s, step)
    ensures Conserved(Next(s, step))
  {
    match step
    case Insert(t) => ConservedInsert(s, t);
    case Pick(id) => ConservedPick(s, id);
    case Consume => ConservedConsume(s);
    case Send => ConservedSend(s);
    case _ =>
  }

  lemma KeyedStep(s: State, step: Step)
    requires Keyed(s) && Enabled(s, step)
    ensures Keyed(Next(s, step))
  {
    if step.Insert? {
      var s' := Next(s, step);
      assert step.tick == s'.accepted[|s.accepted|];
      forall id | id in s'.pending
        ensures id in Instruments(s'.accepted)
      {
        if id != step.tick.instrument {
          assert id in Instruments(s.accepted);
        }
      }
    }
  }

  // ---- order-preserving conflation ------------------------------------------------------------

  function HandOn(s: State, i: InstrumentID): seq<Tick> {
    if s.loop.Holding? && s.loop.next.instrument == i then [s.loop.next] else []
  }

  function PendingOn(s: State, i: InstrumentID): seq<Tick> {
    if i in s.pending then [s.pending[i]] else []
  }

  /** What has reached, or is still on its way to, the consumer for one instrument. */
  function Trail(s: State, i: InstrumentID): seq<Tick> {
    OnInstrument(s.emitted, i) + HandOn(s, i) + PendingOn(s, i)
  }

  ghost predicate SameEnd(a: seq<Tick>, b: seq<Tick>) {
    b != [] ==> a != [] && a[|a| - 1] == b[|b| - 1]
  }

  /** The trail is the accepted stream with superseded ticks left out, and keeps the newest. */
  ghost predicate Conflated(s: State, i: InstrumentID) {
    && Subseq(Trail(s, i), OnInstrument(s.accepted, i))
    && (!s.loop.Stopped? ==> SameEnd(Trail(s, i), OnInstrument(s.accepted, i)))
  }

  lemma InsertTrail(sent: seq<Tick>, was: seq<Tick>, all: seq<Tick>, t: Tick)
    requires Subseq(sent + was, all) && |was| <= 1
    ensures Subseq(sent + [t], all + [t])
  {
    if was == [] {
      assert sent + was == sent;
    } else {
      assert sent + was == sent + [was[0]];
      DropLast(sent, was[0], all);
    }
    SubseqSnoc(sent, all, t);
  }

  lemma DropLast(a: seq<Tick>, x: Tick, b: seq<Tick>)
    requires Subseq(a + [x], b)
    ensures Subseq(a, b)
  {
    assert (a + [x])[..|a|] == a;
    SubseqInit(a + [x], b);
    SubseqSkip(a, b[..|b| - 1], b[|b| - 1]);
    assert b[..|b| - 1] + [b[|b| - 1]] == b;
  }

  lemma ConflatedInsert(s: State, t: Tick, i: InstrumentID)
    requires Conflated(s, i)
    ensures Conflated(Next(s, Insert(t)), i)
  {
    var s' := Next(s, Insert(t));
    OnInstrumentSnoc(s.accepted, t, i);
    if t.instrument == i {
      InsertTrail(OnInstrument(s.emitted, i) + HandOn(s, i), PendingOn(s, i), OnInstrument(s.accepted, i), t);
    } else {
      assert PendingOn(s', i) == PendingOn(s, i);
    }
  }

  /** Steps that only move a tick along its trail. */
  lemma ConflatedSame(s: State, s': State, i: InstrumentID)
    requires Conflated(s, i) && Trail(s', i) == Trail(s, i) && s'.accepted == s.accepted
    requires s.loop.Stopped? ==> s'.loop.Stopped?
    ensures Conflated(s', i)
  {
  }

  lemma TrailPick(s: State, id: InstrumentID, i: InstrumentID)
    requires Keyed(s) && Enabled(s, Pick(id))
    ensures Trail(Next(s, Pick(id)), i) == Trail(s, i)
  {
    var s' := Next(s, Pick(id));
    assert HandOn(s, i) == [];
    assert HandOn(s', i) + PendingOn(s', i) == PendingOn(s, i);
  }

  lemma TrailSend(s: State, i: InstrumentID)
    requires Enabled(s, Send)
    ensures Trail(Next(s, Send), i) == Trail(s, i)
  {
    var s' := Next(s, Send);
    OnInstrumentSnoc(s.emitted, s.loop.next, i);
    assert OnInstrument(s'.emitted, i) == OnInstrument(s.emitted, i) + HandOn(s, i);
    assert HandOn(s', i) == [] && PendingOn(s', i) == PendingOn(s, i);
  }

  lemma ConflatedAbandon(s: State, i: InstrumentID)
    requires Conflated(s, i) && Enabled(s, Abandon)
    ensures Conflated(Next(s, Abandon), i)
  {
    AbandonTrail(OnInstrument(s.emitted, i), HandOn(s, i), PendingOn(s, i), OnInstrument(s.accepted, i));
    assert HandOn(Next(s, Abandon), i) == [];
    assert OnInstrument(s.emitted, i) + [] == OnInstrument(s.emitted, i);
  }

  lemma AbandonTrail(e: seq<Tick>, hand: seq<Tick>, p: seq<Tick>, all: seq<Tick>)
    requires Subseq(e + hand + p, all) && |hand| <= 1 && |p| <= 1
    ensures Subseq(e + p, all)
  {
    if hand == [] {
      assert e + hand == e;
    } else if p == [] {
      assert e + hand + p == e + [hand[0]] && e + p == e;
      DropLast(e, hand[0], all);
    } else {
      assert e + hand + p == e + [hand[0]] + [p[0]] && e + p == e + [p[0]];
      SubseqDropMiddle(e, hand[0], p[0], all);
    }
  }

  lemma {:induction false} SubseqDropMiddle<T>(a: seq<T>, x: T, y: T, b: seq<T>)
    requires Subseq(a + [x] + [y], b)
    ensures Subseq(a + [y], b)
    decreases |b|
  {
    var long, short := a + [x] + [y], a + [y];
    var b' := b[..|b| - 1];
    if Subseq(long, b') {
      SubseqDropMiddle(a, x, y, b');
    } else {
      assert long[..|long| - 1] == a + [x];
      assert (a + [x])[..|a|] == a;
      SubseqInit(a + [x], b');
      SubseqSkip(a, b'[..|b'| - 1], b'[|b'| - 1]);
      assert b'[..|b'| - 1] + [b'[|b'| - 1]] == b';
      assert short[..|a|] == a;
    }
  }

  lemma ConflatedStep(s: State, step: Step, i: InstrumentID)
    requires Keyed(s) && Conflated(s, i) && Enabled(s, step)
    ensures Conflated(Next(s, step), i)
  {
    match step
    case Insert(t) => ConflatedInsert(s, t, i);
    case Pick(id) => TrailPick(s, id, i); ConflatedSame(s, Next(s, step), i);
    case Send => TrailSend(s, i); ConflatedSame(s, Next(s, step), i);
    case Abandon => ConflatedAbandon(s, i);
    case _ => ConflatedSame(s, Next(s, step), i);
  }

  // ---- over every run -------------------------------------------------------------------------

  ghost predicate Invariant(s: State) {
    NoLostWake(s) && Conserved(s) && Keyed(s) && forall i :: Conflated(s, i)
  }

  lemma InvariantStep(s: State, step: Step)
    requires Invariant(s) && Enabled(s, step)
    ensures Invariant(Next(s, step))
  {
    NoLostWakeStep(s, step);
    ConservedStep(s, step);
    KeyedStep(s, step);
    forall i
      ensures Conflated(Next(s, step), i)
    {
      ConflatedStep(s, step, i);
    }
  }

  lemma {:induction false} InvariantRun(s: State, steps: seq<Step>)
    requires Invariant(s) && CanRun(s, steps)
    ensures Invariant(Run(s, steps))
    decreases |steps|
  {
    if steps != [] {
      InvariantStep(s, steps[0]);
      InvariantRun(Next(s, steps[0]), steps[1..]);
    }
  }

  /** Every state any schedule can reach keeps the invariant. */
  lemma EveryRun(capacity: nat, steps: seq<Step>)
    requires CanRun(Init(capacity), steps)
    ensures Invariant(Run(Init(capacity), steps))
  {
    InvariantRun(Init(capacity), steps);
  }

  /** The loop is asleep with no token and no publisher about to send one. */
  predicate Quiescent(s: State) {
    s.loop.Parked? && !s.wake && s.inFlight == 0
  }

  /** Coalescing never loses a wake-up, and at rest the newest tick of every instrument has been sent. */
  lemma QuiescentMeansDelivered(capacity: nat, steps: seq<Step>)
    requires CanRun(Init(capacity), steps) && Quiescent(Run(Init(capacity), steps))
    ensures var s := Run(Init(capacity), steps);
      && s.pending == map[]
      && |s.accepted| == s.delivered + s.coalesced
      && forall i :: Subseq(OnInstrument(s.emitted, i), OnInstrument(s.accepted, i))
                  && SameEnd(OnInstrument(s.emitted, i), OnInstrument(s.accepted, i))
  {
    EveryRun(capacity, steps);
    var s := Run(Init(capacity), steps);
    assert |s.pending| == 0;
    forall i
      ensures Subseq(OnInstrument(s.emitted, i), OnInstrument(s.accepted, i))
           && SameEnd(OnInstrument(s.emitted, i), OnInstrument(s.accepted, i))
    {
      assert Conflated(s, i);
      assert Trail(s, i) == OnInstrument(s.emitted, i);
    }
  }

  /** In every reachable state, what the consumer has received for an instrument is the accepted stream
      with ticks left out: nothing reordered, nothing repeated. */
  lemma ReceivedIsThinned(capacity: nat, steps: seq<Step>, i: InstrumentID)
    requires CanRun(Init(capacity), steps)
    ensures var s := Run(Init(capacity), steps);
      Subseq(OnInstrument(s.received, i), OnInstrument(s.accepted, i))
  {
    EveryRun(capacity, steps);
    var s := Run(Init(capacity), steps);
    assert Conflated(s, i);
    OnInstrumentConcat(s.received, s.out, i);
    var r := OnInstrument(s.received, i);
    PrefixIsSubseq(r, OnInstrument(s.out, i) + HandOn(s, i) + PendingOn(s, i));
    assert r + (OnInstrument(s.out, i) + HandOn(s, i) + PendingOn(s, i)) == Trail(s, i);
    SubseqTransitive(r, Trail(s, i), OnInstrument(s.accepted, i));
  }

  /** Stats reads the out channel and then, separately, the pending map: even with other steps in between the
      depth it reports is bounded by the capacity plus the number of distinct instruments. */
  lemma DepthBounded(capacity: nat, before: seq<Step>, between: seq<Step>)
    requires CanRun(Init(capacity), before) && CanRun(Run(Init(capacity), before), between)
    ensures var s := Run(Init(capacity), before);
      var s' := Run(s, between);
      |s.out| + |s'.pending| <= s.capacity + |Instruments(s'.accepted)|
  {
    EveryRun(capacity, before);
    var s := Run(Init(capacity), before);
    InvariantRun(s, between);
    var s' := Run(s, between);
    SubsetSize(s'.pending.Keys, Instruments(s'.accepted));
    assert |s'.pending| == |s'.pending.Keys|;
  }

  // ---- progress -------------------------------------------------------------------------------

  predicate Internal(step: Step) {
    !step.Insert? && !step.Shutdown?
  }

  /** Work left: each internal step uses some up. */
  function Work(s: State): nat {
    4 * |s.pending| + |s.out| + 3 * s.inFlight + (if s.wake then 2 else 0)
    + match s.loop
      case Holding(_) => 4
      case Counting => 2
      case Draining => 1
      case _ => 0
  }

  lemma StepDoesWork(s: State, step: Step)
    requires Enabled(s, step) && Internal(step) && !s.done
    ensures Work(Next(s, step)) < Work(s) && Next(s, step).done == s.done && Next(s, step).accepted == s.accepted
  {
    if step.Pick? {
      MapSizes(s.pending, step.id, s.pending[step.id]);
    }
  }

  predicate AllInternal(steps: seq<Step>) {
    forall k :: 0 <= k < |steps| ==> Internal(steps[k])
  }

  lemma {:induction false} InternalRunsAreShort(s: State, steps: seq<Step>)
    requires CanRun(s, steps) && AllInternal(steps) && !s.done
    ensures |steps| + Work(Run(s, steps)) <= Work(s)
    ensures Run(s, steps).accepted == s.accepted && !Run(s, steps).done
    decreases |steps|
  {
    if steps != [] {
      StepDoesWork(s, steps[0]);
      InternalRunsAreShort(Next(s, steps[0]), steps[1..]);
    }
  }

  /** The draining loop's own steps. */
  predicate OfLoop(step: Step) {
    step.TakeWake? || step.StopParked? || step.Pick? || step.Park? || step.Send? || step.Abandon? || step.Count?
  }

  ghost predicate LoopCanMove(s: State) {
    exists step :: OfLoop(step) && Enabled(s, step)
  }

  /** The loop waits only with nothing to do, or on a full channel, and after shutdown not even then. */
  lemma LoopWaitsIff(s: State)
    ensures LoopCanMove(s)
       <==> !s.loop.Stopped? && (s.loop.Parked? ==> s.wake || s.done) && (s.loop.Holding? ==> |s.out| < s.capacity || s.done)
  {
    match s.loop
    case Parked =>
      assert Enabled(s, TakeWake) <==> s.wake;
      assert Enabled(s, StopParked) <==> s.done;
    case Draining =>
      if id :| id in s.pending {
        assert Enabled(s, Pick(id));
      } else {
        assert Enabled(s, Park);
      }
    case Holding(_) =>
      assert Enabled(s, Send) <==> |s.out| < s.capacity;
      assert Enabled(s, Abandon) <==> s.done;
    case Counting => assert Enabled(s, Count);
    case Stopped =>
  }

  predicate AllOfLoop(steps: seq<Step>) {
    forall k :: 0 <= k < |steps| ==> OfLoop(steps[k])
  }

  /** The loop's own steps, at most three of them, by which it can return. */
  ghost predicate Returns(s: State, steps: seq<Step>) {
    && |steps| <= 3 && AllOfLoop(steps) && CanRun(s, steps) && Run(s, steps).loop.Stopped?
    && Run(s, steps).out == s.out && Run(s, steps).emitted == s.emitted
  }

  lemma ReturnsAfter(s: State, step: Step, steps: seq<Step>)
    requires OfLoop(step) && Enabled(s, step) && |steps| <= 2 && Returns(Next(s, step), steps)
    requires Next(s, step).out == s.out && Next(s, step).emitted == s.emitted
    ensures Returns(s, [step] + steps)
  {
    assert ([step] + steps)[1..] == steps;
  }

  lemma ReturnsAtOnce(s: State, step: Step)
    requires s.done && (step == StopParked || step == Abandon) && Enabled(s, step)
    ensures Returns(s, [step])
  {
    assert [step][1..] == [];
  }

  /** After shutdown the loop never needs the consumer, nor anyone else, to return. */
  lemma LoopCanReturn(s: State) returns (steps: seq<Step>)
    requires s.done && !s.loop.Stopped?
    ensures Returns(s, steps)
  {
    match s.loop
    case Parked => steps := [StopParked]; ReturnsAtOnce(s, StopParked);
    case Holding(_) => steps := [Abandon]; ReturnsAtOnce(s, Abandon);
    case Draining => steps := DrainingCanReturn(s);
    case Counting =>
      var rest := DrainingCanReturn(Next(s, Count));
      steps := [Count] + rest;
      ReturnsAfter(s, Count, rest);
  }

  lemma DrainingCanReturn(s: State) returns (steps: seq<Step>)
    requires s.done && s.loop.Draining?
    ensures Returns(s, steps) && |steps| == 2
  {
    if id :| id in s.pending {
      steps := [Pick(id)] + [Abandon];
      ReturnsAtOnce(Next(s, Pick(id)), Abandon);
      ReturnsAfter(s, Pick(id), [Abandon]);
    } else {
      steps := [Park] + [StopParked];
      ReturnsAtOnce(Next(s, Park), StopParked);
      ReturnsAfter(s, Park, [StopParked]);
    }
  }

  ghost predicate Stuck(s: State) {
    forall step :: Internal(step) ==> !Enabled(s, step)
  }

  /** With room for one tick in out, somebody can move unless all is at rest with everything consumed. */
  lemma SomeoneCanMove(s: State) returns (step: Step)
    requires s.capacity > 0 && !s.loop.Stopped? && !(Quiescent(s) && s.out == [])
    ensures Internal(step) && Enabled(s, step)
  {
    if s.out != [] {
      step := Consume;
    } else if s.inFlight > 0 {
      step := SendWake;
    } else {
      match s.loop
      case Parked => step := TakeWake;
      case Holding(_) => step := Send;
      case Counting => step := Count;
      case _ =>
        if id :| id in s.pending {
          step := Pick(id);
        } else {
          step := Park;
        }
    }
  }

  lemma StuckMeansAtRest(s: State)
    requires Stuck(s) && s.capacity > 0 && !s.loop.Stopped?
    ensures Quiescent(s) && s.out == []
  {
    if !(Quiescent(s) && s.out == []) {
      var step := SomeoneCanMove(s);
    }
  }

  /** Once publishing pauses, every schedule that keeps going stops within Work steps, and where it stops the
      consumer has received the newest accepted tick of every instrument. */
  lemma LatestAlwaysArrives(capacity: nat, before: seq<Step>, after: seq<Step>, i: InstrumentID)
    requires capacity > 0 && CanRun(Init(capacity), before)
    requires var s := Run(Init(capacity), before); !s.done && CanRun(s, after) && AllInternal(after)
    ensures |after| <= Work(Run(Init(capacity), before))
    ensures var s := Run(Run(Init(capacity), before), after);
      Stuck(s) ==> SameEnd(OnInstrument(s.received, i), OnInstrument(s.accepted, i))
  {
    var s0 := Run(Init(capacity), before);
    EveryRun(capacity, before);
    InternalRunsAreShort(s0, after);
    InvariantRun(s0, after);
    CapacityFixed(Init(capacity), before);
    CapacityFixed(s0, after);
    var s := Run(s0, after);
    if Stuck(s) {
      StuckMeansAtRest(s);
      assert s.pending == map[];
      assert Conflated(s, i);
      assert s.emitted == s.received;
      assert Trail(s, i) == OnInstrument(s.emitted, i);
    }
  }

  lemma {:induction false} CapacityFixed(s: State, steps: seq<Step>)
    requires CanRun(s, steps)
    ensures Run(s, steps).capacity == s.capacity
    decreases |steps|
  {
    if steps != [] {
      CapacityFixed(Next(s, steps[0]), steps[1..]);
    }
  }
}

/** The three queueing policies of the in-process bus (internal/bus/inproc/inproc.go): one publisher, one
    consumer and shutdown, interleaved one channel operation or counter update at a time. */
module QueueBus {
  import opened Market

  datatype Policy = Block | DropNewest | DropOldest

  /** Where the publisher stands inside deliver. `attempt` numbers the iterations of the drop-oldest retry
      loop and `evictions` counts what it has evicted for this tick. */
  datatype PublisherPC =
    | Idle
    | Trying(tick: Tick, attempt: nat, evictions: nat)      // about to try the non-blocking send
    | Full(tick: Tick, attempt: nat, evictions: nat)        // that send found the queue full
    | CountEvicted(tick: Tick, attempt: nat, evictions: nat)// received the head, about to count it
    | CheckDone(tick: Tick, attempt: nat, evictions: nat)   // end of a loop iteration
    | CountSent                                             // sent, about to count it

  datatype Fate = Consumed | Evicted

  datatype State = State(
    policy: Policy,
    capacity: nat,
    queue: seq<Tick>,
    publisher: PublisherPC,
    done: bool,
    delivered: nat,
    dropped: nat,
    accepted: seq<Tick>,   // every tick handed to the policy
    sent: seq<Tick>,       // every tick that entered the queue
    fates: seq<Fate>,      // what became of sent[..|fates|]
    received: seq<Tick>,
    evicted: seq<Tick>,
    refused: seq<Tick>,    // discarded on arrival by drop-newest
    forsaken: nat)         // given up by a publisher that saw shutdown or cancellation

  datatype Step =
    | Publish(t: Tick)
    | Send
    | FindFull
    | CountDelivered
    | Refuse
    | Evict
    | EvictNothing
    | CountDropped
    | Retry
    | GiveUp
    | Consume
    | Shutdown

  function Init(policy: Policy, capacity: nat): State {
    State(policy, capacity, [], Idle, false, 0, 0, [], [], [], [], [], [], 0)
  }

  predicate Enabled(s: State, step: Step) {
    match step
    case Publish(_) => s.publisher.Idle?
    case Send => |s.queue| < s.capacity && (s.publisher.Trying? || (s.policy.Block? && s.publisher.Full?))
    case FindFull => s.publisher.Trying? && |s.queue| >= s.capacity
    case CountDelivered => s.publisher.CountSent?
    case Refuse => s.policy.DropNewest? && s.publisher.Full?
    case Evict => s.policy.DropOldest? && s.publisher.Full? && s.queue != []
    case EvictNothing => s.policy.DropOldest? && s.publisher.Full? && s.queue == []
    case CountDropped => s.publisher.CountEvicted?
    case Retry => s.publisher.CheckDone? && !s.done
    case GiveUp => (s.publisher.CheckDone? && s.done) || (s.policy.Block? && s.publisher.Full?)
    case Consume => s.queue != []
    case Shutdown => true
  }

  function Next(s: State, step: Step): State
    requires Enabled(s, step)
  {
    match step
    case Publish(t) => s.(publisher := Trying(t, 1, 0), accepted := s.accepted + [t])
    case Send =>
      s.(publisher := CountSent, queue := s.queue + [s.publisher.tick], sent := s.sent + [s.publisher.tick])
    case FindFull => s.(publisher := Full(s.publisher.tick, s.publisher.attempt, s.publisher.evictions))
    case CountDelivered => s.(publisher := Idle, delivered := s.delivered + 1)
    case Refuse => s.(publisher := Idle, dropped := s.dropped + 1, refused := s.refused + [s.publisher.tick])
    case Evict =>
      s.(publisher := CountEvicted(s.publisher.tick, s.publisher.attempt, s.publisher.evictions + 1),
         queue := s.queue[1..], evicted := s.evicted + [s.queue[0]], fates := s.fates + [Evicted])
    case EvictNothing => s.(publisher := CheckDone(s.publisher.tick, s.publisher.attempt, s.publisher.evictions))
    case CountDropped =>
      s.(publisher := CheckDone(s.publisher.tick, s.publisher.attempt, s.publisher.evictions), dropped := s.dropped + 1)
    case Retry => s.(publisher := Trying(s.publisher.tick, s.publisher.attempt + 1, s.publisher.evictions))
    case GiveUp => s.(publisher := Idle, forsaken := s.forsaken + 1)
    case Consume =>
      s.(queue := s.queue[1..], received := s.received + [s.queue[0]], fates := s.fates + [Consumed])
    case Shutdown => s.(done := true)
  }

  predicate CanRun(s: State, steps: seq<Step>)
    decreases |steps|
  {
    steps == [] || (Enabled(s, steps[0]) && CanRun(Next(s, steps[0]), steps[1..]))
  }

  function Run(s: State, steps: seq<Step>): State
    requires CanRun(s, steps)
    decreases |steps|
  {
    if steps == [] then s else Run(Next(s, steps[0]), steps[1..])
  }

  // ---- the queue is a window ------------------------------------------------------------------

  /** The ticks whose fate is f, in order. */
  function WithFate(ticks: seq<Tick>, fates: seq<Fate>, f: Fate): seq<Tick>
    requires |ticks| == |fates|
  {
    if ticks == [] then []
    else
      var n := |ticks| - 1;
      WithFate(ticks[..n], fates[..n], f) + (if fates[n] == f then [ticks[n]] else [])
  }

  /** The queue is the tail of everything sent, and each sent tick before it met exactly one fate. */
  ghost predicate Window(s: State) {
    && |s.fates| <= |s.sent|
    && s.queue == s.sent[|s.fates|..]
    && s.received == WithFate(s.sent[..|s.fates|], s.fates, Consumed)
    && s.evicted == WithFate(s.sent[..|s.fates|], s.fates, Evicted)
    && |s.queue| <= s.capacity
  }

  lemma WithFateSnoc(ticks: seq<Tick>, t: Tick, fates: seq<Fate>, g: Fate, f: Fate)
    requires |ticks| == |fates|
    ensures WithFate(ticks + [t], fates + [g], f) == WithFate(ticks, fates, f) + (if g == f then [t] else [])
  {
    assert (ticks + [t])[..|ticks|] == ticks;
    assert (fates + [g])[..|fates|] == fates;
  }

  lemma HeadLeaves(s: State, g: Fate)
    requires Window(s) && s.queue != []
    ensures s.sent[..|s.fates| + 1] == s.sent[..|s.fates|] + [s.queue[0]]
    ensures WithFate(s.sent[..|s.fates| + 1], s.fates + [g], Consumed)
         == s.received + (if g == Consumed then [s.queue[0]] else [])
    ensures WithFate(s.sent[..|s.fates| + 1], s.fates + [g], Evicted)
         == s.evicted + (if g == Evicted then [s.queue[0]] else [])
  {
    assert s.sent[..|s.fates| + 1] == s.sent[..|s.fates|] + [s.queue[0]];
    WithFateSnoc(s.sent[..|s.fates|], s.queue[0], s.fates, g, Consumed);
    WithFateSnoc(s.sent[..|s.fates|], s.queue[0], s.fates, g, Evicted);
  }

  lemma WindowSend(s: State)
    requires Window(s) && Enabled(s, Send)
    ensures Window(Next(s, Send))
  {
    var s' := Next(s, Send);
    assert s'.sent[..|s.fates|] == s.sent[..|s.fates|];
    assert s'.sent[|s.fates|..] == s.sent[|s.fates|..] + [s.publisher.tick];
  }

  lemma WindowStep(s: State, step: Step)
    requires Window(s) && Enabled(s, step)
    ensures Window(Next(s, step))
  {
    match step
    case Send => WindowSend(s);
    case Evict => HeadLeaves(s, Evicted); assert s.sent[|s.fates|..][1..] == s.sent[|s.fates| + 1..];
    case Consume => HeadLeaves(s, Consumed); assert s.sent[|s.fates|..][1..] == s.sent[|s.fates| + 1..];
    case _ =>
  }

  lemma {:induction false} FateIsThinned(ticks: seq<Tick>, fates: seq<Fate>, f: Fate)
    requires |ticks| == |fates|
    ensures Subseq(WithFate(ticks, fates, f), ticks)
  {
    if ticks != [] {
      var n := |ticks| - 1;
      var c := WithFate(ticks[..n], fates[..n], f);
      FateIsThinned(ticks[..n], fates[..n], f);
      assert ticks == ticks[..n] + [ticks[n]];
      if fates[n] == f {
        SubseqSnoc(c, ticks[..n], ticks[n]);
      } else {
        SubseqSkip(c, ticks[..n], ticks[n]);
        assert WithFate(ticks, fates, f) == c;
      }
    }
  }

  lemma {:induction false} FatesAddUp(ticks: seq<Tick>, fates: seq<Fate>)
    requires |ticks| == |fates|
    ensures |WithFate(ticks, fates, Consumed)| + |WithFate(ticks, fates, Evicted)| == |ticks|
  {
    if ticks != [] {
      FatesAddUp(ticks[..|ticks| - 1], fates[..|ticks| - 1]);
    }
  }

  /** Consumed and evicted ticks partition what left the queue, each in order. */
  lemma FatesPartition(ticks: seq<Tick>, fates: seq<Fate>)
    requires |ticks| == |fates|
    ensures |WithFate(ticks, fates, Consumed)| + |WithFate(ticks, fates, Evicted)| == |ticks|
    ensures Subseq(WithFate(ticks, fates, Consumed), ticks) && Subseq(WithFate(ticks, fates, Evicted), ticks)
  {
    FatesAddUp(ticks, fates);
    FateIsThinned(ticks, fates, Consumed);
    FateIsThinned(ticks, fates, Evicted);
  }

  // ---- counters and the retry loop ------------------------------------------------------------

  function Unsent(s: State): nat {
    if s.publisher.Idle? || s.publisher.CountSent? then 0 else 1
  }

  /** Each accepted tick was sent, refused, forsaken, or is the one the publisher is working on. */
  ghost predicate Counted(s: State) {
    && s.delivered + (if s.publisher.CountSent? then 1 else 0) == |s.sent|
    && s.dropped + (if s.publisher.CountEvicted? then 1 else 0) == |s.evicted| + |s.refused|
    && |s.accepted| == |s.sent| + |s.refused| + s.forsaken + Unsent(s)
    && (s.refused != [] ==> s.policy.DropNewest?)
    && (s.evicted != [] ==> s.policy.DropOldest?)
    && (Unsent(s) == 1 ==> s.accepted != [] && s.accepted[|s.accepted| - 1] == s.publisher.tick)
  }

  lemma CountedStep(s: State, step: Step)
    requires Counted(s) && Enabled(s, step)
    requires (s.publisher.CountEvicted? || s.publisher.CheckDone?) ==> s.policy.DropOldest?
    ensures Counted(Next(s, step))
  {
  }

  /** Only the publisher adds to the queue, so once it has seen the head leave there is room: the retry loop
      runs at most twice and evicts at most one tick. */
  ghost predicate RetryBounded(s: State) {
    && s.capacity > 0
    && (s.publisher.CountEvicted? || s.publisher.CheckDone? ==> s.policy.DropOldest?)
    && match s.publisher
       case Trying(_, attempt, evictions) => 1 <= attempt <= 2 && evictions <= attempt - 1
                                          && (attempt == 2 ==> |s.queue| < s.capacity)
       case Full(_, attempt, evictions) => attempt == 1 && evictions == 0
       case CountEvicted(_, attempt, evictions) => attempt == 1 && evictions == 1 && |s.queue| < s.capacity
       case CheckDone(_, attempt, evictions) => attempt == 1 && evictions <= 1 && |s.queue| < s.capacity
       case _ => true
  }

  lemma RetryBoundedStep(s: State, step: Step)
    requires RetryBounded(s) && |s.queue| <= s.capacity && Enabled(s, step)
    ensures RetryBounded(Next(s, step))
  {
  }

  /** What entered the queue is what was accepted with some ticks left out, in order. */
  ghost predicate InOrder(s: State) {
    if Unsent(s) == 1 then s.accepted != [] && Subseq(s.sent, s.accepted[..|s.accepted| - 1])
    else Subseq(s.sent, s.accepted)
  }

  lemma InOrderStep(s: State, step: Step)
    requires InOrder(s) && Counted(s) && Enabled(s, step)
    ensures InOrder(Next(s, step))
  {
    match step
    case Publish(t) => assert (s.accepted + [t])[..|s.accepted|] == s.accepted;
    case Send =>
      var n := |s.accepted| - 1;
      assert s.accepted == s.accepted[..n] + [s.publisher.tick];
      SubseqSnoc(s.sent, s.accepted[..n], s.publisher.tick);
    case Refuse =>
      var n := |s.accepted| - 1;
      assert s.accepted == s.accepted[..n] + [s.publisher.tick];
      SubseqSkip(s.sent, s.accepted[..n], s.publisher.tick);
    case GiveUp =>
      var n := |s.accepted| - 1;
      assert s.accepted == s.accepted[..n] + [s.publisher.tick];
      SubseqSkip(s.sent, s.accepted[..n], s.publisher.tick);
    case _ =>
  }

  // ---- over every run -------------------------------------------------------------------------

  ghost predicate Invariant(s: State) {
    Window(s) && Counted(s) && RetryBounded(s) && InOrder(s)
  }

  lemma InvariantStep(s: State, step: Step)
    requires Invariant(s) && Enabled(s, step)
    ensures Invariant(Next(s, step))
  {
    WindowStep(s, step);
    CountedStep(s, step);
    RetryBoundedStep(s, step);
    InOrderStep(s, step);
  }

  lemma {:induction false} InvariantRun(s: State, steps: seq<Step>)
    requires Invariant(s) && CanRun(s, steps)
    ensures Invariant(Run(s, steps))
    decreases |steps|
  {
    if steps != [] {
      InvariantStep(s, steps[0]);
      InvariantRun(Next(s, steps[0]), steps[1..]);
    }
  }

  lemma EveryRun(policy: Policy, capacity: nat, steps: seq<Step>)
    requires capacity > 0 && CanRun(Init(policy, capacity), steps)
    ensures Invariant(Run(Init(policy, capacity), steps))
  {
    InvariantRun(Init(policy, capacity), steps);
  }

  /** Drop-oldest, in every reachable state with the publisher between deliveries: everything sent was
      consumed, evicted or is still queued, and the queue ends at the latest tick sent. */
  lemma DropOldestConserves(capacity: nat, steps: seq<Step>)
    requires capacity > 0 && CanRun(Init(DropOldest, capacity), steps)
    requires Run(Init(DropOldest, capacity), steps).publisher.Idle?
    ensures var s := Run(Init(DropOldest, capacity), steps);
      && s.delivered == |s.received| + s.dropped + |s.queue|
      && |s.queue| <= |s.sent| && s.queue == s.sent[|s.sent| - |s.queue|..]
      && |s.accepted| == |s.sent| + s.forsaken
  {
    EveryRun(DropOldest, capacity, steps);
    PolicyFixed(Init(DropOldest, capacity), steps);
    var s := Run(Init(DropOldest, capacity), steps);
    FatesPartition(s.sent[..|s.fates|], s.fates);
  }

  lemma ReceivedThinsSent(s: State)
    requires Window(s)
    ensures Subseq(s.received, s.sent)
  {
    var gone := s.sent[..|s.fates|];
    FatesPartition(gone, s.fates);
    PrefixIsSubseq(gone, s.queue);
    assert s.sent == gone + s.queue;
    SubseqTransitive(s.received, gone, s.sent);
  }

  /** Under every queueing policy the consumer receives the accepted ticks in order, some left out. */
  lemma ReceivedIsThinned(policy: Policy, capacity: nat, steps: seq<Step>)
    requires capacity > 0 && CanRun(Init(policy, capacity), steps)
    ensures var s := Run(Init(policy, capacity), steps); Subseq(s.received, s.accepted)
  {
    EveryRun(policy, capacity, steps);
    var s := Run(Init(policy, capacity), steps);
    ReceivedThinsSent(s);
    SentIsThinned(s);
    SubseqTransitive(s.received, s.sent, s.accepted);
  }

  lemma SentIsThinned(s: State)
    requires InOrder(s)
    ensures Subseq(s.sent, s.accepted)
  {
    if Unsent(s) == 1 {
      var n := |s.accepted| - 1;
      assert s.accepted == s.accepted[..n] + [s.accepted[n]];
      SubseqSkip(s.sent, s.accepted[..n], s.accepted[n]);
    }
  }

  /** Block loses nothing while nobody gives up: the queue and the consumer together hold every accepted
      tick but the one the publisher may be waiting with. */
  lemma BlockIsLossless(capacity: nat, steps: seq<Step>)
    requires capacity > 0 && CanRun(Init(Block, capacity), steps)
    requires Run(Init(Block, capacity), steps).forsaken == 0
    ensures var s := Run(Init(Block, capacity), steps);
      && |s.accepted| >= Unsent(s)
      && s.received + s.queue == s.accepted[..|s.accepted| - Unsent(s)]
      && s.dropped == 0
  {
    EveryRun(Block, capacity, steps);
    PolicyFixed(Init(Block, capacity), steps);
    BlockKeepsAll(Run(Init(Block, capacity), steps));
  }

  lemma NothingEvicted(s: State)
    requires Window(s) && s.evicted == []
    ensures s.received + s.queue == s.sent
  {
    var gone := s.sent[..|s.fates|];
    FatesPartition(gone, s.fates);
    FullLengthSubseq(s.received, gone);
    assert s.sent == gone + s.queue;
  }

  lemma BlockKeepsAll(s: State)
    requires Window(s) && Counted(s) && InOrder(s) && RetryBounded(s) && s.policy.Block? && s.forsaken == 0
    ensures |s.accepted| >= Unsent(s) && s.dropped == 0
    ensures s.received + s.queue == s.accepted[..|s.accepted| - Unsent(s)]
  {
    NothingEvicted(s);
    assert s.accepted[..|s.accepted|] == s.accepted;
    FullLengthSubseq(s.sent, s.accepted[..|s.accepted| - Unsent(s)]);
  }

  lemma {:induction false} FullLengthSubseq<T>(a: seq<T>, b: seq<T>)
    requires Subseq(a, b)
    ensures |a| <= |b|
    ensures |a| == |b| ==> a == b
    decreases |b|
  {
    if a != [] {
      var b' := b[..|b| - 1];
      if Subseq(a, b') {
        FullLengthSubseq(a, b');
      } else {
        FullLengthSubseq(a[..|a| - 1], b');
        assert a == a[..|a| - 1] + [a[|a| - 1]] && b == b' + [b[|b| - 1]];
      }
    }
  }

  lemma {:induction false} PolicyFixed(s: State, steps: seq<Step>)
    requires CanRun(s, steps)
    ensures Run(s, steps).policy == s.policy && Run(s, steps).capacity == s.capacity
    decreases |steps|
  {
    if steps != [] {
      PolicyFixed(Next(s, steps[0]), steps[1..]);
    }
  }

  // ---- the retry loop terminates --------------------------------------------------------------

  /** Steps the publisher still has to take to finish the current drop-oldest delivery. */
  function StepsLeft(s: State): nat {
    match s.publisher
    case Idle => 0
    case CountSent => 1
    case Trying(_, attempt, _) => if attempt >= 2 then 2 else 7
    case Full(_, _, _) => 6
    case CountEvicted(_, _, _) => 5
    case CheckDone(_, _, _) => 4
  }

  predicate PublisherStep(step: Step) {
    !step.Publish? && !step.Consume? && !step.Shutdown?
  }

  /** What the current drop-oldest delivery may still evict. */
  function EvictionsLeft(s: State): nat {
    match s.publisher
    case Trying(_, attempt, _) => if attempt >= 2 then 0 else 1
    case Full(_, _, _) => 1
    case _ => 0
  }

  lemma DeliveryAdvances(s: State, step: Step)
    requires Invariant(s) && Enabled(s, step) && !step.Publish?
    ensures StepsLeft(Next(s, step)) + (if PublisherStep(step) then 1 else 0) <= StepsLeft(s) <= 7
    ensures |Next(s, step).evicted| + EvictionsLeft(Next(s, step)) <= |s.evicted| + EvictionsLeft(s)
  {
  }

  function PublisherSteps(steps: seq<Step>): nat {
    if steps == [] then 0 else (if PublisherStep(steps[0]) then 1 else 0) + PublisherSteps(steps[1..])
  }

  /** Whatever the consumer and shutdown do meanwhile, and however often, one drop-oldest delivery takes at most seven
      publisher steps (two iterations of its loop) and evicts at most one tick. */
  lemma {:induction false} DropOldestTerminates(s: State, steps: seq<Step>)
    requires Invariant(s) && s.policy.DropOldest? && CanRun(s, steps)
    requires forall k :: 0 <= k < |steps| ==> !steps[k].Publish?
    ensures PublisherSteps(steps) + StepsLeft(Run(s, steps)) <= StepsLeft(s) <= 7
    ensures |Run(s, steps).evicted| + EvictionsLeft(Run(s, steps)) <= |s.evicted| + EvictionsLeft(s) <= |s.evicted| + 1
    decreases |steps|
  {
    if steps != [] {
      var step := steps[0];
      DeliveryAdvances(s, step);
      InvariantStep(s, step);
      DropOldestTerminates(Next(s, step), steps[1..]);
    }
  }

  /** Only a blocking delivery can wait: under the other policies the publisher always has a step it can take. */
  lemma NeverWaits(s: State) returns (step: Step)
    requires Invariant(s) && !s.policy.Block? && !s.publisher.Idle?
    ensures PublisherStep(step) && Enabled(s, step)
  {
    step := match s.publisher
      case Trying(_, _, _) => if |s.queue| < s.capacity then Send else FindFull
      case Full(_, _, _) => if s.policy.DropNewest? then Refuse else if s.queue != [] then Evict else EvictNothing
      case CountEvicted(_, _, _) => CountDropped
      case CheckDone(_, _, _) => if s.done then GiveUp else Retry
      case _ => CountDelivered;
  }
}

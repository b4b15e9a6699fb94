/** deliver as one atomic step (Bus) against the interleaved machines (internal/bus/inproc/inproc.go): undisturbed, every
    schedule of the publisher's own steps ends where DeliverOne does, and a blocked delivery ends as its wait says. */
module Delivery {
  import opened Decimal
  import opened Market
  import opened Bus
  import QueueBus
  import CoalesceBus

  function QueuePolicy(p: QueueBus.Policy): Policy {
    match p
    case Block => Block
    case DropNewest => DropNewest
    case DropOldest => DropOldest
  }

  /** A subscription and a queue machine at rest are in the same state. */
  ghost predicate SameQueue(s: Sub, q: QueueBus.State) {
    && q.publisher.Idle? && s.policy == QueuePolicy(q.policy)
    && s.capacity == q.capacity && s.done == q.done && s.queue == q.queue
    && s.delivered == q.delivered && s.dropped == q.dropped
  }

  /** The same of a coalescing machine. */
  ghost predicate SameLoop(s: Sub, c: CoalesceBus.State) {
    && c.inFlight == 0 && s.policy == Coalesce
    && s.capacity == c.capacity && s.done == c.done && s.queue == c.out && s.pending == c.pending && s.wake == c.wake
    && s.delivered == c.delivered && s.dropped == c.dropped && s.coalesced == c.coalesced
  }

  // ---- the publisher alone is deterministic ----------------------------------------------------

  ghost predicate PublisherOnly(steps: seq<QueueBus.Step>) {
    forall k :: 0 <= k < |steps| ==> QueueBus.PublisherStep(steps[k])
  }

  lemma OneWayOn(q: QueueBus.State, x: QueueBus.Step, y: QueueBus.Step)
    requires !q.policy.Block? && QueueBus.PublisherStep(x) && QueueBus.PublisherStep(y)
    requires QueueBus.Enabled(q, x) && QueueBus.Enabled(q, y)
    requires q.publisher.CountEvicted? || q.publisher.CheckDone? ==> q.policy.DropOldest?
    ensures x == y
  {
  }

  lemma {:induction false} Deterministic(q: QueueBus.State, a: seq<QueueBus.Step>, b: seq<QueueBus.Step>)
    requires QueueBus.Invariant(q) && !q.policy.Block? && PublisherOnly(a) && PublisherOnly(b)
    requires QueueBus.CanRun(q, a) && QueueBus.CanRun(q, b)
    requires QueueBus.Run(q, a).publisher.Idle? && QueueBus.Run(q, b).publisher.Idle?
    ensures a == b
    decreases |a|
  {
    if a != [] && b != [] {
      OneWayOn(q, a[0], b[0]);
      QueueBus.InvariantStep(q, a[0]);
      Deterministic(QueueBus.Next(q, a[0]), a[1..], b[1..]);
    }
  }

  // ---- one schedule ----------------------------------------------------------------------------

  /** The steps of an undisturbed delivery. */
  function Alone(q: QueueBus.State): seq<QueueBus.Step> {
    if |q.queue| < q.capacity then [QueueBus.Send, QueueBus.CountDelivered]
    else match q.policy
      case Block => []
      case DropNewest => [QueueBus.FindFull, QueueBus.Refuse]
      case DropOldest =>
        [QueueBus.FindFull, QueueBus.Evict, QueueBus.CountDropped, QueueBus.Retry, QueueBus.Send, QueueBus.CountDelivered]
  }

  lemma RunOne(q: QueueBus.State, a: QueueBus.Step)
    requires QueueBus.Enabled(q, a)
    ensures QueueBus.CanRun(q, [a]) && QueueBus.Run(q, [a]) == QueueBus.Next(q, a)
  {
    assert [a][1..] == [];
  }

  lemma RunTwo(q: QueueBus.State, a: QueueBus.Step, b: QueueBus.Step)
    requires QueueBus.Enabled(q, a) && QueueBus.Enabled(QueueBus.Next(q, a), b)
    ensures QueueBus.CanRun(q, [a, b]) && QueueBus.Run(q, [a, b]) == QueueBus.Next(QueueBus.Next(q, a), b)
  {
    RunOne(QueueBus.Next(q, a), b);
    assert [a, b][1..] == [b];
  }

  lemma {:induction false} RunConcat(q: QueueBus.State, a: seq<QueueBus.Step>, b: seq<QueueBus.Step>)
    requires QueueBus.CanRun(q, a) && QueueBus.CanRun(QueueBus.Run(q, a), b)
    ensures QueueBus.CanRun(q, a + b) && QueueBus.Run(q, a + b) == QueueBus.Run(QueueBus.Run(q, a), b)
    decreases |a|
  {
    if a == [] {
      assert a + b == b;
    } else {
      RunConcat(QueueBus.Next(q, a[0]), a[1..], b);
      assert (a + b)[1..] == a[1..] + b;
    }
  }

  lemma RoomRun(q: QueueBus.State, t: Tick)
    requires q.publisher == QueueBus.Trying(t, 1, 0) && |q.queue| < q.capacity
    ensures QueueBus.CanRun(q, Alone(q))
    ensures var r := QueueBus.Run(q, Alone(q));
      r == q.(publisher := QueueBus.Idle, queue := q.queue + [t], sent := q.sent + [t], delivered := q.delivered + 1)
  {
    RunTwo(q, QueueBus.Send, QueueBus.CountDelivered);
  }

  lemma RefuseRun(q: QueueBus.State, t: Tick)
    requires q.publisher == QueueBus.Trying(t, 1, 0) && |q.queue| >= q.capacity && q.policy.DropNewest?
    ensures QueueBus.CanRun(q, Alone(q))
    ensures var r := QueueBus.Run(q, Alone(q));
      r == q.(publisher := QueueBus.Idle, dropped := q.dropped + 1, refused := q.refused + [t])
  {
    RunTwo(q, QueueBus.FindFull, QueueBus.Refuse);
  }

  lemma EvictHead(q: QueueBus.State, t: Tick) returns (r: QueueBus.State)
    requires q.publisher == QueueBus.Trying(t, 1, 0) && |q.queue| == q.capacity > 0 && q.policy.DropOldest?
    ensures QueueBus.CanRun(q, [QueueBus.FindFull, QueueBus.Evict]) && r == QueueBus.Run(q, [QueueBus.FindFull, QueueBus.Evict])
    ensures r == q.(publisher := QueueBus.CountEvicted(t, 1, 1), queue := q.queue[1..], evicted := q.evicted + [q.queue[0]],
                    fates := q.fates + [QueueBus.Evicted])
  {
    RunTwo(q, QueueBus.FindFull, QueueBus.Evict);
    r := QueueBus.Run(q, [QueueBus.FindFull, QueueBus.Evict]);
  }

  lemma CountAndRetry(q: QueueBus.State, t: Tick) returns (r: QueueBus.State)
    requires q.publisher == QueueBus.CountEvicted(t, 1, 1) && !q.done
    ensures QueueBus.CanRun(q, [QueueBus.CountDropped, QueueBus.Retry])
    ensures r == QueueBus.Run(q, [QueueBus.CountDropped, QueueBus.Retry])
    ensures r == q.(publisher := QueueBus.Trying(t, 2, 1), dropped := q.dropped + 1)
  {
    RunTwo(q, QueueBus.CountDropped, QueueBus.Retry);
    r := QueueBus.Run(q, [QueueBus.CountDropped, QueueBus.Retry]);
  }

  lemma EvictRun(q: QueueBus.State, t: Tick)
    requires q.publisher == QueueBus.Trying(t, 1, 0) && |q.queue| == q.capacity > 0 && q.policy.DropOldest? && !q.done
    ensures QueueBus.CanRun(q, Alone(q))
    ensures var r := QueueBus.Run(q, Alone(q));
      && r.publisher.Idle? && r.queue == q.queue[1..] + [t] && r.delivered == q.delivered + 1 && r.dropped == q.dropped + 1
      && r.done == q.done && r.policy == q.policy && r.capacity == q.capacity
  {
    var head, tail := [QueueBus.FindFull, QueueBus.Evict], [QueueBus.Send, QueueBus.CountDelivered];
    var middle := [QueueBus.CountDropped, QueueBus.Retry];
    var q2 := EvictHead(q, t);
    var q4 := CountAndRetry(q2, t);
    RunTwo(q4, QueueBus.Send, QueueBus.CountDelivered);
    RunConcat(q2, middle, tail);
    RunConcat(q, head, middle + tail);
    assert Alone(q) == head + (middle + tail);
  }

  lemma AloneDelivers(s: Sub, q: QueueBus.State, t: Tick, wait: Wait)
    requires SameQueue(s, q) && |q.queue| <= q.capacity && Passes(s.filter, t) && !s.done
    requires !q.policy.Block? || |q.queue| < q.capacity
    ensures var mid := QueueBus.Next(q, QueueBus.Publish(t));
      && QueueBus.CanRun(mid, Alone(mid)) && PublisherOnly(Alone(mid))
      && SameQueue(DeliverOne(s, t, wait).0, QueueBus.Run(mid, Alone(mid)))
  {
    var mid := QueueBus.Next(q, QueueBus.Publish(t));
    if |q.queue| < q.capacity {
      RoomRun(mid, t);
    } else if q.policy.DropNewest? {
      RefuseRun(mid, t);
    } else {
      EvictRun(mid, t);
    }
  }

  /** Undisturbed, a drop-newest or drop-oldest delivery has one outcome, and it is DeliverOne's. */
  lemma UndisturbedDelivery(s: Sub, q: QueueBus.State, t: Tick, wait: Wait, steps: seq<QueueBus.Step>)
    requires QueueBus.Invariant(q) && SameQueue(s, q) && !q.policy.Block? && Passes(s.filter, t) && !s.done
    requires PublisherOnly(steps) && QueueBus.CanRun(QueueBus.Next(q, QueueBus.Publish(t)), steps)
    requires QueueBus.Run(QueueBus.Next(q, QueueBus.Publish(t)), steps).publisher.Idle?
    ensures SameQueue(DeliverOne(s, t, wait).0, QueueBus.Run(QueueBus.Next(q, QueueBus.Publish(t)), steps))
  {
    var mid := QueueBus.Next(q, QueueBus.Publish(t));
    AloneDelivers(s, q, t, wait);
    QueueBus.InvariantStep(q, QueueBus.Publish(t));
    Deterministic(mid, steps, Alone(mid));
  }

  // ---- a blocked delivery ----------------------------------------------------------------------

  /** A publisher blocked on a full queue with t in hand. */
  ghost predicate BlockedOn(s: Sub, q: QueueBus.State, t: Tick) {
    && q.policy.Block? && q.publisher == QueueBus.Full(t, 1, 0) && SameQueue(s, q.(publisher := QueueBus.Idle))
    && |q.queue| == q.capacity && Passes(s.filter, t) && !s.done
  }

  /** How many ticks the consumer takes in a schedule. */
  function Consumed(steps: seq<QueueBus.Step>): nat {
    if steps == [] then 0 else (if steps[0].Consume? then 1 else 0) + Consumed(steps[1..])
  }

  /** What has happened so far while a delivery that began blocked was under way. */
  datatype Tally = Tally(taken: nat, gaveUp: bool, shut: bool)

  function Bump(y: Tally, step: QueueBus.Step): Tally {
    Tally(y.taken + (if step.Consume? then 1 else 0), y.gaveUp || step.GiveUp?, y.shut || step.Shutdown?)
  }

  function After(y: Tally, steps: seq<QueueBus.Step>): Tally
    decreases |steps|
  {
    if steps == [] then y else After(Bump(y, steps[0]), steps[1..])
  }

  /** The queue with t behind it, less the k ticks taken, at least one of which made the room. */
  ghost predicate SentAfter(queue: seq<Tick>, before: seq<Tick>, t: Tick, k: nat) {
    1 <= k <= |before| + 1 && queue == (before + [t])[k..]
  }

  /** The queue less the k ticks taken. */
  ghost predicate LeftAfter(queue: seq<Tick>, before: seq<Tick>, k: nat) {
    k <= |before| && queue == before[k..]
  }

  /** Where such a delivery stands: still waiting, sent, counted, or given up. */
  ghost predicate Stands(q: QueueBus.State, q0: QueueBus.State, t: Tick, y: Tally) {
    && q.policy == q0.policy && q.capacity == q0.capacity && q.dropped == q0.dropped && q.done == (q0.done || y.shut)
    && match q.publisher
       case Full(u, _, _) => u == t && !y.gaveUp && LeftAfter(q.queue, q0.queue, y.taken) && q.delivered == q0.delivered
       case CountSent => !y.gaveUp && SentAfter(q.queue, q0.queue, t, y.taken) && q.delivered == q0.delivered
       case Idle =>
         if y.gaveUp then LeftAfter(q.queue, q0.queue, y.taken) && q.delivered == q0.delivered
         else SentAfter(q.queue, q0.queue, t, y.taken) && q.delivered == q0.delivered + 1
       case _ => false
  }

  lemma TakeOne(queue: seq<Tick>, before: seq<Tick>, t: Tick, k: nat)
    requires queue != []
    ensures LeftAfter(queue, before, k) ==> LeftAfter(queue[1..], before, k + 1)
    ensures SentAfter(queue, before, t, k) ==> SentAfter(queue[1..], before, t, k + 1)
  {
  }

  lemma SendOne(queue: seq<Tick>, before: seq<Tick>, t: Tick, k: nat)
    requires LeftAfter(queue, before, k) && |queue| < |before|
    ensures SentAfter(queue + [t], before, t, k)
  {
    assert (before + [t])[k..] == before[k..] + [t];
  }

  lemma StandsStep(q: QueueBus.State, q0: QueueBus.State, t: Tick, y: Tally, step: QueueBus.Step)
    requires q0.policy.Block? && |q0.queue| == q0.capacity && Stands(q, q0, t, y)
    requires QueueBus.Enabled(q, step) && !step.Publish?
    ensures Stands(QueueBus.Next(q, step), q0, t, Bump(y, step))
  {
    if step.Consume? {
      TakeOne(q.queue, q0.queue, t, y.taken);
    } else if step.Send? {
      SendOne(q.queue, q0.queue, t, y.taken);
    }
  }

  lemma {:induction false} StandsRun(q: QueueBus.State, q0: QueueBus.State, t: Tick, y: Tally, steps: seq<QueueBus.Step>)
    requires q0.policy.Block? && |q0.queue| == q0.capacity && Stands(q, q0, t, y)
    requires QueueBus.CanRun(q, steps) && forall i :: 0 <= i < |steps| ==> !steps[i].Publish?
    ensures Stands(QueueBus.Run(q, steps), q0, t, After(y, steps))
    decreases |steps|
  {
    if steps != [] {
      StandsStep(q, q0, t, y, steps[0]);
      StandsRun(QueueBus.Next(q, steps[0]), q0, t, Bump(y, steps[0]), steps[1..]);
    }
  }

  lemma {:induction false} TallyOf(y: Tally, steps: seq<QueueBus.Step>)
    ensures After(y, steps)
         == Tally(y.taken + Consumed(steps), y.gaveUp || QueueBus.GiveUp in steps, y.shut || QueueBus.Shutdown in steps)
    decreases |steps|
  {
    if steps != [] {
      TallyOf(Bump(y, steps[0]), steps[1..]);
      HeadOrRest(steps, QueueBus.GiveUp);
      HeadOrRest(steps, QueueBus.Shutdown);
    }
  }

  lemma HeadOrRest(steps: seq<QueueBus.Step>, x: QueueBus.Step)
    requires steps != []
    ensures x in steps <==> steps[0] == x || x in steps[1..]
  {
    assert steps == [steps[0]] + steps[1..];
  }

  /** How a schedule ends the wait. */
  function Outcome(steps: seq<QueueBus.Step>): Wait {
    if QueueBus.GiveUp !in steps then MadeRoom(if Consumed(steps) > 0 then Consumed(steps) - 1 else 0)
    else if QueueBus.Shutdown in steps then Closed
    else Cancelled
  }

  /** Every schedule of the publisher, the consumer and shutdown that ends a blocked delivery: if the publisher did not
      give up, the consumer made room and the queue holds t behind what was left; if it did, the queue is what the
      consumer left of it. That is what DeliverOne gives for that wait, unless the consumer also took t, or took ticks
      while the publisher gave up, or a shutdown came along with a send; and it errs exactly when it was cancelled. */
  lemma BlockedDelivery(s: Sub, q: QueueBus.State, t: Tick, steps: seq<QueueBus.Step>)
    requires BlockedOn(s, q, t) && QueueBus.CanRun(q, steps) && QueueBus.Run(q, steps).publisher.Idle?
    requires forall i :: 0 <= i < |steps| ==> !steps[i].Publish?
    ensures var r, k := QueueBus.Run(q, steps), Consumed(steps);
      && (QueueBus.GiveUp !in steps ==> SentAfter(r.queue, q.queue, t, k) && r.delivered == q.delivered + 1)
      && (QueueBus.GiveUp in steps ==> LeftAfter(r.queue, q.queue, k) && r.delivered == q.delivered)
      && r.dropped == q.dropped && r.done == (QueueBus.Shutdown in steps)
    ensures (if QueueBus.GiveUp in steps then Consumed(steps) == 0 else Consumed(steps) <= |q.queue| && QueueBus.Shutdown !in steps) ==>
      SameQueue(DeliverOne(s, t, Outcome(steps)).0, QueueBus.Run(q, steps))
    ensures DeliverOne(s, t, Outcome(steps)).1.Some? <==> Outcome(steps).Cancelled?
  {
    assert LeftAfter(q.queue, q.queue, 0);
    StandsRun(q, q, t, Tally(0, false, false), steps);
    TallyOf(Tally(0, false, false), steps);
    LeftBehind(q.queue, t, Consumed(steps));
  }

  lemma LeftBehind(queue: seq<Tick>, t: Tick, k: nat)
    ensures k <= |queue| ==> (queue + [t])[k..] == Taken(queue, k) + [t]
  {
  }

  lemma {:induction false} NoneConsumed(steps: seq<QueueBus.Step>)
    requires forall i :: 0 <= i < |steps| ==> !steps[i].Consume?
    ensures Consumed(steps) == 0
  {
    if steps != [] {
      NoneConsumed(steps[1..]);
    }
  }

  /** Each way of ending the wait is some schedule. */
  lemma BlockedCanEnd(s: Sub, q: QueueBus.State, t: Tick) returns (room: seq<QueueBus.Step>, closed: seq<QueueBus.Step>)
    requires BlockedOn(s, q, t) && q.capacity > 0
    ensures QueueBus.CanRun(q, room) && QueueBus.Run(q, room).publisher.Idle? && Outcome(room) == MadeRoom(0)
    ensures QueueBus.CanRun(q, closed) && QueueBus.Run(q, closed).publisher.Idle? && Outcome(closed) == Closed
    ensures QueueBus.CanRun(q, [QueueBus.GiveUp]) && QueueBus.Run(q, [QueueBus.GiveUp]).publisher.Idle?
  {
    room := [QueueBus.Consume] + [QueueBus.Send, QueueBus.CountDelivered];
    RunOne(q, QueueBus.Consume);
    RunTwo(QueueBus.Next(q, QueueBus.Consume), QueueBus.Send, QueueBus.CountDelivered);
    RunConcat(q, [QueueBus.Consume], [QueueBus.Send, QueueBus.CountDelivered]);
    assert room[1..] == [QueueBus.Send, QueueBus.CountDelivered];
    NoneConsumed([QueueBus.Send, QueueBus.CountDelivered]);
    assert QueueBus.GiveUp !in room;
    closed := [QueueBus.Shutdown, QueueBus.GiveUp];
    RunTwo(q, QueueBus.Shutdown, QueueBus.GiveUp);
    RunOne(q, QueueBus.GiveUp);
  }

  /** A coalescing delivery is its insert and its wake-up. */
  lemma CoalescingDelivery(s: Sub, c: CoalesceBus.State, t: Tick, wait: Wait)
    requires SameLoop(s, c) && Passes(s.filter, t) && !s.done
    ensures var steps := [CoalesceBus.Insert(t), CoalesceBus.SendWake];
      && CoalesceBus.CanRun(c, steps)
      && SameLoop(DeliverOne(s, t, wait).0, CoalesceBus.Run(c, steps))
      && DeliverOne(s, t, wait).1 == None
  {
    var steps := [CoalesceBus.Insert(t), CoalesceBus.SendWake];
    assert steps[1..] == [CoalesceBus.SendWake] && [CoalesceBus.SendWake][1..] == [];
  }
}

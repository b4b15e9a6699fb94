/** The whole bus (internal/bus/inproc/inproc.go): one publisher walking its batches over the subscribers, each of them a
    queue or a coalescing machine, interleaved with every consumer, every draining loop, subscribing and shutting down. */
module PubSub {
  import opened Market
  import QueueBus
  import CoalesceBus

  // ---- one subscription ------------------------------------------------------------------------

  datatype Member = Queue(q: QueueBus.State) | Coalescing(c: CoalesceBus.State)

  datatype MemberStep = OfQueue(queueStep: QueueBus.Step) | OfCoalesce(loopStep: CoalesceBus.Step)

  datatype Policy = Queueing(policy: QueueBus.Policy) | Coalesce

  function Fresh(policy: Policy, capacity: nat): Member {
    match policy
    case Queueing(p) => Queue(QueueBus.Init(p, capacity))
    case Coalesce => Coalescing(CoalesceBus.Init(capacity))
  }

  predicate CanStep(m: Member, st: MemberStep) {
    match m
    case Queue(q) => st.OfQueue? && QueueBus.Enabled(q, st.queueStep)
    case Coalescing(c) => st.OfCoalesce? && CoalesceBus.Enabled(c, st.loopStep)
  }

  function StepMember(m: Member, st: MemberStep): Member
    requires CanStep(m, st)
  {
    match m
    case Queue(q) => Queue(QueueBus.Next(q, st.queueStep))
    case Coalescing(c) => Coalescing(CoalesceBus.Next(c, st.loopStep))
  }

  /** The publisher's own steps inside one delivery. */
  predicate ByPublisher(st: MemberStep) {
    match st
    case OfQueue(a) => QueueBus.PublisherStep(a)
    case OfCoalesce(a) => a.SendWake?
  }

  /** The consumer's and the draining loop's steps. */
  predicate ByOthers(st: MemberStep) {
    match st
    case OfQueue(a) => a.Consume?
    case OfCoalesce(a) => CoalesceBus.Internal(a) && !a.SendWake?
  }

  function Arrival(m: Member, t: Tick): MemberStep {
    if m.Queue? then OfQueue(QueueBus.Publish(t)) else OfCoalesce(CoalesceBus.Insert(t))
  }

  function Closing(m: Member): MemberStep {
    if m.Queue? then OfQueue(QueueBus.Shutdown) else OfCoalesce(CoalesceBus.Shutdown)
  }

  /** A publisher is inside deliver. */
  predicate Busy(m: Member) {
    match m
    case Queue(q) => !q.publisher.Idle?
    case Coalescing(c) => c.inFlight > 0
  }

  predicate Done(m: Member) {
    match m case Queue(q) => q.done case Coalescing(c) => c.done
  }

  function Accepted(m: Member): seq<Tick> {
    match m case Queue(q) => q.accepted case Coalescing(c) => c.accepted
  }

  function Received(m: Member): seq<Tick> {
    match m case Queue(q) => q.received case Coalescing(c) => c.received
  }

  predicate Blocking(m: Member) {
    m.Queue? && m.q.policy.Block?
  }

  // ---- the bus ---------------------------------------------------------------------------------

  /** A subscription, and which stretch of the published stream concerns it: it was created when `since` ticks had been
      published, deliver has been called on it up to `upto`, and it was still open up to `until`. */
  datatype Subscriber = Subscriber(filter: set<InstrumentID>, since: nat, upto: nat, until: nat, member: Member)

  /** One call of deliver: not begun, past the test of the filter and of done, or under the policy. */
  datatype Phase = Looking | Checked | Inside

  /** Where Publish stands: tick j of the batch for the i-th target, and how far that delivery is. */
  datatype Walk = Resting | Walking(order: seq<nat>, batch: seq<Tick>, i: nat, j: nat, phase: Phase)

  datatype State = State(
    subs: seq<Subscriber>,     // every subscription ever made
    registered: set<nat>,      // those in the bus's map
    stream: seq<Tick>,         // every tick handed to Publish
    walk: Walk,
    failed: bool)              // Publish returned an error, on which the program's publisher stops

  datatype Step =
    | Subscribe(filter: set<InstrumentID>, policy: Policy, capacity: nat)
    | Begin(batch: seq<Tick>, order: seq<nat>)
    | Offer
    | Enter
    | Proceed(st: MemberStep)
    | Cancel
    | NextSubscriber
    | Finish
    | Other(id: nat, st: MemberStep)
    | Unregister(id: nat)
    | Shutdown(id: nat)

  const EMPTY := State([], {}, [], Resting, false)

  /** order visits each registered subscription once: one possible iteration of a Go map. */
  ghost predicate Visits(order: seq<nat>, ids: set<nat>) {
    && (forall id :: id in order <==> id in ids)
    && (forall i, j :: 0 <= i < j < |order| ==> order[i] != order[j])
  }

  predicate AtTarget(s: State) {
    s.walk.Walking? && s.walk.i < |s.walk.order| && s.walk.order[s.walk.i] < |s.subs|
  }

  function Target(s: State): Subscriber
    requires AtTarget(s)
  {
    s.subs[s.walk.order[s.walk.i]]
  }

  /** A blocked delivery returns without an error only after shutdown. */
  predicate Permitted(m: Member, st: MemberStep) {
    Blocking(m) && st == OfQueue(QueueBus.GiveUp) ==> Done(m)
  }

  ghost predicate Enabled(s: State, step: Step) {
    match step
    case Subscribe(_, _, capacity) => capacity > 0
    case Begin(batch, order) => s.walk.Resting? && !s.failed && batch != [] && Visits(order, s.registered)
    case Offer => AtTarget(s) && s.walk.phase.Looking? && s.walk.j < |s.walk.batch|
    case Enter => AtTarget(s) && s.walk.phase.Checked? && s.walk.j < |s.walk.batch| && !Busy(Target(s).member)
    case Proceed(st) =>
      AtTarget(s) && s.walk.phase.Inside? && ByPublisher(st) && CanStep(Target(s).member, st) && Permitted(Target(s).member, st)
    case Cancel =>
      AtTarget(s) && s.walk.phase.Inside? && Blocking(Target(s).member) && Target(s).member.q.publisher.Full?
    case NextSubscriber => AtTarget(s) && s.walk.phase.Looking? && s.walk.j == |s.walk.batch|
    case Finish => s.walk.Walking? && s.walk.i == |s.walk.order|
    case Other(id, st) => id < |s.subs| && ByOthers(st) && CanStep(s.subs[id].member, st)
    case Unregister(id) => id in s.registered
    case Shutdown(id) => id < |s.subs| && id !in s.registered
  }

  function AdvanceTick(w: Walk): Walk
    requires w.Walking?
  {
    w.(j := w.j + 1, phase := Looking)
  }

  predicate Takes(u: Subscriber, t: Tick) {
    Passes(u.filter, t) && !Done(u.member)
  }

  /** deliver has returned at once: the tick is not wanted, or the subscription is closed. */
  function PassedOver(u: Subscriber): Subscriber {
    u.(upto := u.upto + 1, until := if Done(u.member) then u.until else u.upto + 1)
  }

  /** The tick has gone to the policy. */
  function Entered(u: Subscriber, t: Tick): Subscriber
    requires !Busy(u.member)
  {
    u.(upto := u.upto + 1, until := u.upto + 1, member := StepMember(u.member, Arrival(u.member, t)))
  }

  function Moved(u: Subscriber, st: MemberStep): Subscriber
    requires CanStep(u.member, st)
  {
    u.(member := StepMember(u.member, st))
  }

  ghost function Next(s: State, step: Step): State
    requires Enabled(s, step)
  {
    match step
    case Subscribe(filter, policy, capacity) =>
      s.(subs := s.subs + [Subscriber(filter, |s.stream|, |s.stream|, |s.stream|, Fresh(policy, capacity))],
         registered := s.registered + {|s.subs|})
    case Begin(batch, order) => s.(stream := s.stream + batch, walk := Walking(order, batch, 0, 0, Looking))
    case Offer =>
      var u := Target(s);
      var t := s.walk.batch[s.walk.j];
      if Takes(u, t) then s.(walk := s.walk.(phase := Checked))
      else s.(subs := s.subs[s.walk.order[s.walk.i] := PassedOver(u)], walk := AdvanceTick(s.walk))
    case Enter =>
      s.(subs := s.subs[s.walk.order[s.walk.i] := Entered(Target(s), s.walk.batch[s.walk.j])],
         walk := s.walk.(phase := Inside))
    case Proceed(st) =>
      var u := Moved(Target(s), st);
      s.(subs := s.subs[s.walk.order[s.walk.i] := u],
         walk := if Busy(u.member) then s.walk else AdvanceTick(s.walk))
    case Cancel =>
      s.(subs := s.subs[s.walk.order[s.walk.i] := Moved(Target(s), OfQueue(QueueBus.GiveUp))], walk := Resting, failed := true)
    case NextSubscriber => s.(walk := s.walk.(i := s.walk.i + 1, j := 0))
    case Finish => s.(walk := Resting)
    case Other(id, st) => s.(subs := s.subs[id := Moved(s.subs[id], st)])
    case Unregister(id) => s.(registered := s.registered - {id})
    case Shutdown(id) => s.(subs := s.subs[id := Moved(s.subs[id], Closing(s.subs[id].member))])
  }

  ghost predicate CanRun(s: State, steps: seq<Step>)
    decreases |steps|
  {
    steps == [] || (Enabled(s, steps[0]) && CanRun(Next(s, steps[0]), steps[1..]))
  }

  ghost function Run(s: State, steps: seq<Step>): State
    requires CanRun(s, steps)
    decreases |steps|
  {
    if steps == [] then s else Run(Next(s, steps[0]), steps[1..])
  }

  // ---- each component is a run of its own machine ----------------------------------------------

  ghost predicate QueueRun(q: QueueBus.State, steps: seq<QueueBus.Step>) {
    var start := QueueBus.Init(q.policy, q.capacity);
    q.capacity > 0 && QueueBus.CanRun(start, steps) && QueueBus.Run(start, steps) == q
  }

  ghost predicate CoalesceRun(c: CoalesceBus.State, steps: seq<CoalesceBus.Step>) {
    var start := CoalesceBus.Init(c.capacity);
    c.capacity > 0 && CoalesceBus.CanRun(start, steps) && CoalesceBus.Run(start, steps) == c
  }

  ghost predicate IsRun(m: Member) {
    match m
    case Queue(q) => exists steps :: QueueRun(q, steps)
    case Coalescing(c) => exists steps :: CoalesceRun(c, steps)
  }

  lemma {:induction false} QueueSnoc(s: QueueBus.State, steps: seq<QueueBus.Step>, st: QueueBus.Step)
    requires QueueBus.CanRun(s, steps) && QueueBus.Enabled(QueueBus.Run(s, steps), st)
    ensures QueueBus.CanRun(s, steps + [st]) && QueueBus.Run(s, steps + [st]) == QueueBus.Next(QueueBus.Run(s, steps), st)
    decreases |steps|
  {
    if steps == [] {
      assert (steps + [st])[1..] == [];
    } else {
      QueueSnoc(QueueBus.Next(s, steps[0]), steps[1..], st);
      assert (steps + [st])[1..] == steps[1..] + [st];
    }
  }

  lemma {:induction false} CoalesceSnoc(s: CoalesceBus.State, steps: seq<CoalesceBus.Step>, st: CoalesceBus.Step)
    requires CoalesceBus.CanRun(s, steps) && CoalesceBus.Enabled(CoalesceBus.Run(s, steps), st)
    ensures CoalesceBus.CanRun(s, steps + [st])
    ensures CoalesceBus.Run(s, steps + [st]) == CoalesceBus.Next(CoalesceBus.Run(s, steps), st)
    decreases |steps|
  {
    if steps == [] {
      assert (steps + [st])[1..] == [];
    } else {
      CoalesceSnoc(CoalesceBus.Next(s, steps[0]), steps[1..], st);
      assert (steps + [st])[1..] == steps[1..] + [st];
    }
  }

  lemma FreshIsRun(policy: Policy, capacity: nat)
    requires capacity > 0
    ensures IsRun(Fresh(policy, capacity))
  {
    match policy
    case Queueing(p) => assert QueueRun(QueueBus.Init(p, capacity), []);
    case Coalesce => assert CoalesceRun(CoalesceBus.Init(capacity), []);
  }

  lemma StepIsRun(m: Member, st: MemberStep)
    requires IsRun(m) && CanStep(m, st)
    ensures IsRun(StepMember(m, st))
  {
    match m
    case Queue(q) =>
      var steps :| QueueRun(q, steps);
      QueueSnoc(QueueBus.Init(q.policy, q.capacity), steps, st.queueStep);
      assert QueueRun(QueueBus.Next(q, st.queueStep), steps + [st.queueStep]);
    case Coalescing(c) =>
      var steps :| CoalesceRun(c, steps);
      CoalesceSnoc(CoalesceBus.Init(c.capacity), steps, st.loopStep);
      assert CoalesceRun(CoalesceBus.Next(c, st.loopStep), steps + [st.loopStep]);
  }

  // ---- what each kind of step does to a member -------------------------------------------------

  /** The single publisher has at most one wake-up under way. */
  predicate Single(m: Member) {
    m.Coalescing? ==> m.c.inFlight <= 1
  }

  lemma ArrivalStep(m: Member, t: Tick)
    requires !Busy(m)
    ensures CanStep(m, Arrival(m, t))
    ensures var m' := StepMember(m, Arrival(m, t));
      Accepted(m') == Accepted(m) + [t] && Done(m') == Done(m) && Busy(m') && Single(m')
  {
  }

  lemma PublisherStep(m: Member, st: MemberStep)
    requires ByPublisher(st) && CanStep(m, st) && Single(m)
    ensures var m' := StepMember(m, st); Accepted(m') == Accepted(m) && Done(m') == Done(m) && Single(m')
  {
  }

  lemma OtherStep(m: Member, st: MemberStep)
    requires ByOthers(st) && CanStep(m, st) && Single(m)
    ensures var m' := StepMember(m, st);
      Accepted(m') == Accepted(m) && Done(m') == Done(m) && Busy(m') == Busy(m) && Single(m')
  {
  }

  lemma ClosingStep(m: Member)
    requires Single(m)
    ensures CanStep(m, Closing(m))
    ensures var m' := StepMember(m, Closing(m));
      Accepted(m') == Accepted(m) && Done(m') && Busy(m') == Busy(m) && Single(m')
  {
  }

  // ---- one subscriber over time ----------------------------------------------------------------

  /** The component is a run of its own machine, and it has accepted exactly the wanted ticks of the stretch of the
      stream published while it was open. */
  ghost predicate Kept(u: Subscriber, stream: seq<Tick>, current: bool) {
    && IsRun(u.member) && Single(u.member)
    && u.since <= u.until <= u.upto <= |stream|
    && Accepted(u.member) == Wanted(u.filter, stream[u.since..u.until])
    && (!Done(u.member) ==> u.until == u.upto)
    && (Busy(u.member) <==> current)
  }

  lemma {:induction false} WantedSnoc(filter: set<InstrumentID>, ticks: seq<Tick>, t: Tick)
    ensures Wanted(filter, ticks + [t]) == Wanted(filter, ticks) + (if Passes(filter, t) then [t] else [])
  {
    if ticks == [] {
      assert [] + [t] == [t];
    } else {
      WantedSnoc(filter, ticks[1..], t);
      assert (ticks + [t])[1..] == ticks[1..] + [t];
    }
  }

  lemma KeptPassedOver(u: Subscriber, stream: seq<Tick>, t: Tick)
    requires Kept(u, stream, false) && u.upto < |stream| && stream[u.upto] == t && !Takes(u, t)
    ensures Kept(PassedOver(u), stream, false)
  {
    if !Done(u.member) {
      WantedSnoc(u.filter, stream[u.since..u.upto], t);
      assert stream[u.since..u.upto + 1] == stream[u.since..u.upto] + [t];
    }
  }

  lemma KeptEntered(u: Subscriber, stream: seq<Tick>, t: Tick)
    requires Kept(u, stream, false) && u.upto < |stream| && stream[u.upto] == t && Passes(u.filter, t) && u.until == u.upto
    ensures Kept(Entered(u, t), stream, true)
  {
    ArrivalStep(u.member, t);
    WantedSnoc(u.filter, stream[u.since..u.upto], t);
    assert stream[u.since..u.upto + 1] == stream[u.since..u.upto] + [t];
    StepIsRun(u.member, Arrival(u.member, t));
  }

  lemma KeptInside(u: Subscriber, stream: seq<Tick>, st: MemberStep)
    requires Kept(u, stream, true) && ByPublisher(st) && CanStep(u.member, st)
    ensures Kept(Moved(u, st), stream, Busy(Moved(u, st).member))
  {
    PublisherStep(u.member, st);
    StepIsRun(u.member, st);
  }

  lemma KeptOther(u: Subscriber, stream: seq<Tick>, current: bool, st: MemberStep)
    requires Kept(u, stream, current) && ByOthers(st) && CanStep(u.member, st)
    ensures Kept(Moved(u, st), stream, current)
  {
    OtherStep(u.member, st);
    StepIsRun(u.member, st);
  }

  lemma KeptClosing(u: Subscriber, stream: seq<Tick>, current: bool)
    requires Kept(u, stream, current)
    ensures CanStep(u.member, Closing(u.member)) && Kept(Moved(u, Closing(u.member)), stream, current)
  {
    ClosingStep(u.member);
    StepIsRun(u.member, Closing(u.member));
  }

  lemma KeptLonger(u: Subscriber, stream: seq<Tick>, batch: seq<Tick>, current: bool)
    requires Kept(u, stream, current)
    ensures Kept(u, stream + batch, current)
  {
    assert (stream + batch)[u.since..u.until] == stream[u.since..u.until];
  }

  lemma KeptFresh(filter: set<InstrumentID>, policy: Policy, capacity: nat, stream: seq<Tick>)
    requires capacity > 0
    ensures Kept(Subscriber(filter, |stream|, |stream|, |stream|, Fresh(policy, capacity)), stream, false)
  {
    FreshIsRun(policy, capacity);
    assert stream[|stream|..|stream|] == [];
  }

  // ---- the invariant ---------------------------------------------------------------------------

  /** The publisher is inside a delivery to id. */
  predicate Current(w: Walk, id: nat) {
    w.Walking? && w.phase.Inside? && w.i < |w.order| && w.order[w.i] == id
  }

  ghost predicate AllKept(s: State) {
    forall id :: 0 <= id < |s.subs| ==> Kept(s.subs[id], s.stream, Current(s.walk, id))
  }

  /** How far into the stream the walk has taken its p-th target. */
  function Reach(w: Walk, p: nat, length: nat): int
    requires w.Walking?
  {
    if p < w.i then length
    else if p > w.i then length - |w.batch|
    else length - |w.batch| + w.j + (if w.phase.Inside? then 1 else 0)
  }

  ghost predicate Placed(s: State, p: nat)
    requires s.walk.Walking? && p < |s.walk.order|
  {
    s.walk.order[p] < |s.subs| && s.subs[s.walk.order[p]].upto == Reach(s.walk, p, |s.stream|)
  }

  /** The target passed the tests: it wants the tick, and was open for all it has been offered. */
  ghost predicate Vetted(s: State) {
    AtTarget(s) && s.walk.j < |s.walk.batch| && Passes(Target(s).filter, s.walk.batch[s.walk.j]) && Target(s).until == Target(s).upto
  }

  ghost predicate OnCourse(s: State) {
    s.walk.Walking? ==>
      && s.walk.i <= |s.walk.order| && s.walk.j <= |s.walk.batch|
      && (!s.walk.phase.Looking? ==> s.walk.i < |s.walk.order| && s.walk.j < |s.walk.batch|)
      && (s.walk.phase.Checked? ==> Vetted(s))
      && (forall p, r :: 0 <= p < r < |s.walk.order| ==> s.walk.order[p] != s.walk.order[r])
      && |s.walk.batch| <= |s.stream| && s.stream[|s.stream| - |s.walk.batch|..] == s.walk.batch
      && (forall p :: 0 <= p < |s.walk.order| ==> Placed(s, p))
  }

  /** Every registered subscription has been offered the whole stream since it was made, or is about to be. */
  ghost predicate UpToDate(s: State, id: nat) {
    id < |s.subs| && (s.failed || s.subs[id].upto == |s.stream| || (s.walk.Walking? && id in s.walk.order))
  }

  ghost predicate Invariant(s: State) {
    AllKept(s) && OnCourse(s) && AllUpToDate(s) && (s.failed ==> s.walk.Resting?)
  }

  ghost predicate AllUpToDate(s: State) {
    forall id :: id in s.registered ==> UpToDate(s, id)
  }

  lemma TargetTick(s: State)
    requires Invariant(s) && AtTarget(s) && s.walk.j < |s.walk.batch| && !s.walk.phase.Inside?
    ensures var u := Target(s);
      && Kept(u, s.stream, false) && u.upto < |s.stream| && s.stream[u.upto] == s.walk.batch[s.walk.j]
  {
    assert Placed(s, s.walk.i);
    assert Kept(Target(s), s.stream, Current(s.walk, s.walk.order[s.walk.i]));
    assert s.stream[|s.stream| - |s.walk.batch|..][s.walk.j] == s.walk.batch[s.walk.j];
  }

  /** u stands where v stood in the stream, with the same filter. */
  ghost predicate SamePlace(u: Subscriber, v: Subscriber) {
    u.upto == v.upto && u.until == v.until && u.filter == v.filter
  }

  lemma ReplaceOnCourse(s: State, id: nat, u: Subscriber, s': State)
    requires OnCourse(s) && id < |s.subs| && s' == s.(subs := s.subs[id := u]) && SamePlace(u, s.subs[id])
    ensures OnCourse(s')
  {
    if s.walk.Walking? {
      forall p | 0 <= p < |s.walk.order|
        ensures Placed(s', p)
      {
        assert Placed(s, p);
      }
    }
  }

  lemma ReplaceUpToDate(s: State, id: nat, u: Subscriber, s': State)
    requires AllUpToDate(s) && id < |s.subs| && s' == s.(subs := s.subs[id := u]) && SamePlace(u, s.subs[id])
    ensures AllUpToDate(s')
  {
    forall k | k in s'.registered
      ensures UpToDate(s', k)
    {
      assert UpToDate(s, k);
    }
  }

  lemma ReplaceKept(s: State, id: nat, u: Subscriber, s': State)
    requires AllKept(s) && id < |s.subs| && s' == s.(subs := s.subs[id := u]) && Kept(u, s.stream, Current(s.walk, id))
    ensures AllKept(s')
  {
    forall k | 0 <= k < |s'.subs|
      ensures Kept(s'.subs[k], s'.stream, Current(s'.walk, k))
    {
      assert k == id || Kept(s.subs[k], s.stream, Current(s.walk, k));
    }
  }

  /** Replacing one subscriber by one equally far along keeps everything else in place. */
  lemma ReplaceKeeps(s: State, id: nat, u: Subscriber, s': State)
    requires Invariant(s) && id < |s.subs| && s' == s.(subs := s.subs[id := u])
    requires Kept(u, s.stream, Current(s.walk, id)) && SamePlace(u, s.subs[id])
    ensures Invariant(s')
  {
    ReplaceKept(s, id, u, s');
    ReplaceOnCourse(s, id, u, s');
    ReplaceUpToDate(s, id, u, s');
  }

  /** The walk moves on at its present target. */
  lemma TargetMoves(s: State, u: Subscriber, w: Walk, s': State)
    requires Invariant(s) && AtTarget(s) && !s.failed
    requires w.Walking? && w.order == s.walk.order && w.batch == s.walk.batch && w.i == s.walk.i && w.j <= |w.batch|
    requires !w.phase.Checked? && (w.phase.Inside? ==> w.j < |w.batch|)
    requires u.upto == Reach(w, w.i, |s.stream|) && Kept(u, s.stream, w.phase.Inside?)
    requires s' == s.(subs := s.subs[w.order[w.i] := u], walk := w)
    ensures Invariant(s')
  {
    var at := w.order[w.i];
    forall id | 0 <= id < |s'.subs|
      ensures Kept(s'.subs[id], s'.stream, Current(s'.walk, id))
    {
      assert Kept(s.subs[id], s.stream, Current(s.walk, id));
    }
    forall p | 0 <= p < |w.order|
      ensures Placed(s', p)
    {
      assert Placed(s, p);
      assert p != w.i ==> w.order[p] != at;
    }
    forall id | id in s'.registered
      ensures UpToDate(s', id)
    {
      assert UpToDate(s, id);
    }
  }

  lemma OfferKeeps(s: State)
    requires Invariant(s) && Enabled(s, Offer)
    ensures Invariant(Next(s, Offer))
  {
    var u, t := Target(s), s.walk.batch[s.walk.j];
    TargetTick(s);
    if Takes(u, t) {
      CheckKeeps(s);
    } else {
      KeptPassedOver(u, s.stream, t);
      assert Placed(s, s.walk.i);
      TargetMoves(s, PassedOver(u), AdvanceTick(s.walk), Next(s, Offer));
    }
  }

  lemma CheckKept(s: State, s': State)
    requires AllKept(s) && s.walk.Walking? && s.walk.phase.Looking? && s' == s.(walk := s.walk.(phase := Checked))
    ensures AllKept(s')
  {
    forall id | 0 <= id < |s'.subs|
      ensures Kept(s'.subs[id], s'.stream, Current(s'.walk, id))
    {
      assert Kept(s.subs[id], s.stream, Current(s.walk, id));
    }
  }

  lemma CheckOnCourse(s: State, s': State)
    requires OnCourse(s) && s.walk.Walking? && s.walk.phase.Looking? && s' == s.(walk := s.walk.(phase := Checked)) && Vetted(s')
    ensures OnCourse(s')
  {
    forall p | 0 <= p < |s'.walk.order|
      ensures Placed(s', p)
    {
      assert Placed(s, p);
    }
  }

  lemma CheckUpToDate(s: State, s': State)
    requires AllUpToDate(s) && s.walk.Walking? && s' == s.(walk := s.walk.(phase := Checked))
    ensures AllUpToDate(s')
  {
    forall id | id in s'.registered
      ensures UpToDate(s', id)
    {
      assert UpToDate(s, id);
    }
  }

  lemma CheckKeeps(s: State)
    requires Invariant(s) && Enabled(s, Offer) && Takes(Target(s), s.walk.batch[s.walk.j])
    requires Kept(Target(s), s.stream, false)
    ensures Invariant(s.(walk := s.walk.(phase := Checked)))
  {
    var s' := s.(walk := s.walk.(phase := Checked));
    CheckKept(s, s');
    CheckOnCourse(s, s');
    CheckUpToDate(s, s');
  }

  lemma EnterKeeps(s: State)
    requires Invariant(s) && Enabled(s, Enter)
    ensures Invariant(Next(s, Enter))
  {
    var u, t := Target(s), s.walk.batch[s.walk.j];
    TargetTick(s);
    KeptEntered(u, s.stream, t);
    assert Placed(s, s.walk.i);
    TargetMoves(s, Entered(u, t), s.walk.(phase := Inside), Next(s, Enter));
  }

  lemma ProceedKeeps(s: State, st: MemberStep)
    requires Invariant(s) && Enabled(s, Proceed(st))
    ensures Invariant(Next(s, Proceed(st)))
  {
    var u := Target(s);
    assert Kept(u, s.stream, Current(s.walk, s.walk.order[s.walk.i]));
    KeptInside(u, s.stream, st);
    assert Placed(s, s.walk.i);
    TargetMoves(s, Moved(u, st), Next(s, Proceed(st)).walk, Next(s, Proceed(st)));
  }

  lemma CancelKeeps(s: State)
    requires Invariant(s) && Enabled(s, Cancel)
    ensures Invariant(Next(s, Cancel))
  {
    var s', u, at := Next(s, Cancel), Target(s), s.walk.order[s.walk.i];
    assert Kept(u, s.stream, Current(s.walk, at));
    KeptInside(u, s.stream, OfQueue(QueueBus.GiveUp));
    forall id | 0 <= id < |s'.subs|
      ensures Kept(s'.subs[id], s'.stream, Current(s'.walk, id))
    {
      assert Kept(s.subs[id], s.stream, Current(s.walk, id));
    }
    forall id | id in s'.registered
      ensures UpToDate(s', id)
    {
      assert UpToDate(s, id);
    }
  }

  lemma NextSubscriberKeeps(s: State)
    requires Invariant(s) && Enabled(s, NextSubscriber)
    ensures Invariant(Next(s, NextSubscriber))
  {
    var s' := Next(s, NextSubscriber);
    forall id | 0 <= id < |s'.subs|
      ensures Kept(s'.subs[id], s'.stream, Current(s'.walk, id))
    {
      assert Kept(s.subs[id], s.stream, Current(s.walk, id));
    }
    forall p | 0 <= p < |s'.walk.order|
      ensures Placed(s', p)
    {
      assert Placed(s, p);
    }
    forall id | id in s'.registered
      ensures UpToDate(s', id)
    {
      assert UpToDate(s, id);
    }
  }

  lemma FinishKeeps(s: State)
    requires Invariant(s) && Enabled(s, Finish)
    ensures Invariant(Next(s, Finish))
  {
    var s' := Next(s, Finish);
    forall id | 0 <= id < |s'.subs|
      ensures Kept(s'.subs[id], s'.stream, Current(s'.walk, id))
    {
      assert Kept(s.subs[id], s.stream, Current(s.walk, id));
    }
    forall id | id in s'.registered
      ensures UpToDate(s', id)
    {
      assert UpToDate(s, id);
      if id in s.walk.order {
        var p :| 0 <= p < |s.walk.order| && s.walk.order[p] == id;
        assert Placed(s, p);
      }
    }
  }

  lemma BeginKeeps(s: State, batch: seq<Tick>, order: seq<nat>)
    requires Invariant(s) && Enabled(s, Begin(batch, order))
    ensures Invariant(Next(s, Begin(batch, order)))
  {
    var s' := Next(s, Begin(batch, order));
    forall id | 0 <= id < |s'.subs|
      ensures Kept(s'.subs[id], s'.stream, Current(s'.walk, id))
    {
      assert Kept(s.subs[id], s.stream, Current(s.walk, id));
      KeptLonger(s.subs[id], s.stream, batch, false);
    }
    forall p | 0 <= p < |order|
      ensures Placed(s', p)
    {
      assert order[p] in order;
      assert UpToDate(s, order[p]);
    }
    forall id | id in s'.registered
      ensures UpToDate(s', id)
    {
      assert UpToDate(s, id);
    }
  }

  lemma SubscribeKeeps(s: State, filter: set<InstrumentID>, policy: Policy, capacity: nat)
    requires Invariant(s) && Enabled(s, Subscribe(filter, policy, capacity))
    ensures Invariant(Next(s, Subscribe(filter, policy, capacity)))
  {
    var s' := Next(s, Subscribe(filter, policy, capacity));
    KeptFresh(filter, policy, capacity, s.stream);
    NewcomerNotCurrent(s);
    forall id | 0 <= id < |s'.subs|
      ensures Kept(s'.subs[id], s'.stream, Current(s'.walk, id))
    {
      if id < |s.subs| {
        assert Kept(s.subs[id], s.stream, Current(s.walk, id));
      }
    }
    if s.walk.Walking? {
      forall p | 0 <= p < |s.walk.order|
        ensures Placed(s', p)
      {
        assert Placed(s, p);
      }
    }
    forall id | id in s'.registered
      ensures UpToDate(s', id)
    {
      assert id == |s.subs| || UpToDate(s, id);
    }
  }

  lemma NewcomerNotCurrent(s: State)
    requires OnCourse(s)
    ensures !Current(s.walk, |s.subs|)
  {
    if s.walk.Walking? && s.walk.i < |s.walk.order| {
      assert Placed(s, s.walk.i);
    }
  }

  lemma UnregisterKeeps(s: State, id: nat)
    requires Invariant(s) && Enabled(s, Unregister(id))
    ensures Invariant(Next(s, Unregister(id)))
  {
    var s' := Next(s, Unregister(id));
    if s.walk.Walking? {
      forall p | 0 <= p < |s.walk.order|
        ensures Placed(s', p)
      {
        assert Placed(s, p);
      }
    }
    forall k | k in s'.registered
      ensures UpToDate(s', k)
    {
      assert UpToDate(s, k);
    }
  }

  lemma InvariantStep(s: State, step: Step)
    requires Invariant(s) && Enabled(s, step)
    ensures Invariant(Next(s, step))
  {
    match step
    case Subscribe(filter, policy, capacity) => SubscribeKeeps(s, filter, policy, capacity);
    case Begin(batch, order) => BeginKeeps(s, batch, order);
    case Offer => OfferKeeps(s);
    case Enter => EnterKeeps(s);
    case Proceed(st) => ProceedKeeps(s, st);
    case Cancel => CancelKeeps(s);
    case NextSubscriber => NextSubscriberKeeps(s);
    case Finish => FinishKeeps(s);
    case Unregister(id) => UnregisterKeeps(s, id);
    case Other(id, st) =>
      assert Kept(s.subs[id], s.stream, Current(s.walk, id));
      KeptOther(s.subs[id], s.stream, Current(s.walk, id), st);
      ReplaceKeeps(s, id, Moved(s.subs[id], st), Next(s, step));
    case Shutdown(id) =>
      assert Kept(s.subs[id], s.stream, Current(s.walk, id));
      KeptClosing(s.subs[id], s.stream, Current(s.walk, id));
      ReplaceKeeps(s, id, Moved(s.subs[id], Closing(s.subs[id].member)), Next(s, step));
  }

  lemma {:induction false} InvariantRun(s: State, steps: seq<Step>)
    requires Invariant(s) && CanRun(s, steps)
    ensures Invariant(Run(s, steps))
    decreases |steps|
  {
    if steps != [] {
      InvariantStep(s, steps[0]);
      InvariantRun(Next(s, steps[0]), steps[1..]);
    }
  }

  /** Subscribers are isolated: in every run of the whole bus each subscription is a run of its own machine, whose
      accepted ticks are exactly those its filter lets through of the stretch of the stream published while it was
      open. Nothing else about the other subscribers, or the order they are visited in, reaches it. */
  lemma EveryRun(steps: seq<Step>, id: nat)
    requires CanRun(EMPTY, steps) && id < |Run(EMPTY, steps).subs|
    ensures var s := Run(EMPTY, steps);
      var u := s.subs[id];
      && IsRun(u.member)
      && u.since <= u.until <= u.upto <= |s.stream|
      && Accepted(u.member) == Wanted(u.filter, s.stream[u.since..u.until])
      && (!Done(u.member) ==> u.until == u.upto)
      && (s.walk.Resting? && !s.failed && id in s.registered ==> u.upto == |s.stream|)
  {
    InvariantRun(EMPTY, steps);
    var s := Run(EMPTY, steps);
    assert Kept(s.subs[id], s.stream, Current(s.walk, id));
    assert id in s.registered ==> UpToDate(s, id);
  }

  /** What was published while a subscription was open. */
  ghost function Stretch(s: State, id: nat): seq<Tick>
    requires id < |s.subs| && s.subs[id].since <= s.subs[id].until <= |s.stream|
  {
    s.stream[s.subs[id].since..s.subs[id].until]
  }

  /** In every run a subscription without a filter has accepted all of that, and one with a filter the thinning of it
      that holds exactly the ticks of the filter's instruments. */
  lemma AcceptsWhatItAskedFor(steps: seq<Step>, id: nat, t: Tick)
    requires CanRun(EMPTY, steps) && id < |Run(EMPTY, steps).subs|
    ensures var s := Run(EMPTY, steps);
      var u := s.subs[id];
      && u.since <= u.until <= |s.stream|
      && (u.filter == {} ==> Accepted(u.member) == Stretch(s, id))
      && Subseq(Accepted(u.member), Stretch(s, id))
      && (u.filter != {} ==>
            multiset(Accepted(u.member))[t] == if t.instrument in u.filter then multiset(Stretch(s, id))[t] else 0)
  {
    EveryRun(steps, id);
    var s := Run(EMPTY, steps);
    WantedIsThinned(s.subs[id].filter, Stretch(s, id));
    if s.subs[id].filter == {} {
      UnfilteredWantsAll(s.subs[id].filter, Stretch(s, id));
    } else {
      FilteredWantsMembers(s.subs[id].filter, Stretch(s, id), t);
    }
  }

  // ---- subscribing, leaving and consuming wait for nothing -------------------------------------

  lemma {:induction false} RunSnoc(s: State, steps: seq<Step>, step: Step)
    requires CanRun(s, steps) && Enabled(Run(s, steps), step)
    ensures CanRun(s, steps + [step]) && Run(s, steps + [step]) == Next(Run(s, steps), step)
    decreases |steps|
  {
    if steps == [] {
      assert (steps + [step])[1..] == [];
    } else {
      RunSnoc(Next(s, steps[0]), steps[1..], step);
      assert (steps + [step])[1..] == steps[1..] + [step];
    }
  }

  /** What the subscriber's channel holds. */
  function Buffered(m: Member): seq<Tick> {
    match m case Queue(q) => q.queue case Coalescing(c) => c.out
  }

  function Consuming(m: Member): MemberStep {
    if m.Queue? then OfQueue(QueueBus.Consume) else OfCoalesce(CoalesceBus.Consume)
  }

  /** In every state of every run, in the middle of a batch or of a delivery, anyone may subscribe. */
  lemma SubscribingNeverWaits(steps: seq<Step>, filter: set<InstrumentID>, policy: Policy, capacity: nat)
    requires CanRun(EMPTY, steps) && capacity > 0
    ensures var s, joined := Run(EMPTY, steps), steps + [Subscribe(filter, policy, capacity)];
      && CanRun(EMPTY, joined)
      && var s', id := Run(EMPTY, joined), |s.subs|;
      && s'.registered == s.registered + {id} && id !in s.registered
      && |s'.subs| == id + 1 && s'.subs[..id] == s.subs
      && s'.subs[id].filter == filter && s'.subs[id].since == |s.stream|
      && !Done(s'.subs[id].member) && Received(s'.subs[id].member) + Buffered(s'.subs[id].member) == []
  {
    InvariantRun(EMPTY, steps);
    RunSnoc(EMPTY, steps, Subscribe(filter, policy, capacity));
    var s := Run(EMPTY, steps);
    assert |s.subs| in s.registered ==> UpToDate(s, |s.subs|);
  }

  /** Once a batch has ended without an error the next one can begin, for whoever is registered by then, in any order. */
  lemma PublishingGoesOn(steps: seq<Step>, batch: seq<Tick>, order: seq<nat>)
    requires CanRun(EMPTY, steps) && batch != [] && Visits(order, Run(EMPTY, steps).registered)
    requires Run(EMPTY, steps).walk.Resting? && !Run(EMPTY, steps).failed
    ensures var s, begun := Run(EMPTY, steps), steps + [Begin(batch, order)];
      && CanRun(EMPTY, begun)
      && var s' := Run(EMPTY, begun);
      && s'.stream == s.stream + batch && s'.subs == s.subs && s'.registered == s.registered && s'.walk.Walking?
  {
    RunSnoc(EMPTY, steps, Begin(batch, order));
  }

  /** A subscriber may leave at any moment, also while the publisher is inside a delivery to it, and is then closed; the
      others, the published stream and the publisher's place in it are untouched. */
  lemma LeavingNeverWaits(steps: seq<Step>, id: nat)
    requires CanRun(EMPTY, steps) && id in Run(EMPTY, steps).registered
    ensures var s, left := Run(EMPTY, steps), steps + [Unregister(id)] + [Shutdown(id)];
      && id < |s.subs| && CanRun(EMPTY, left)
      && var s' := Run(EMPTY, left);
      && s'.registered == s.registered - {id} && s'.stream == s.stream && s'.walk == s.walk
      && |s'.subs| == |s.subs| && s'.subs == s.subs[id := s'.subs[id]] && Done(s'.subs[id].member)
      && Received(s'.subs[id].member) == Received(s.subs[id].member)
      && Buffered(s'.subs[id].member) == Buffered(s.subs[id].member)
  {
    InvariantRun(EMPTY, steps);
    var s := Run(EMPTY, steps);
    assert UpToDate(s, id);
    RunSnoc(EMPTY, steps, Unregister(id));
    var between := steps + [Unregister(id)];
    assert Run(EMPTY, between).subs[id] == s.subs[id];
    RunSnoc(EMPTY, between, Shutdown(id));
    CanStepClosing(s.subs[id].member);
  }

  lemma CanStepClosing(m: Member)
    ensures CanStep(m, Closing(m)) && Done(StepMember(m, Closing(m)))
    ensures Received(StepMember(m, Closing(m))) == Received(m) && Buffered(StepMember(m, Closing(m))) == Buffered(m)
  {
  }

  /** A consumer can always take the oldest tick in its channel, registered or not, open or closed. */
  lemma ConsumingNeverWaits(steps: seq<Step>, id: nat)
    requires CanRun(EMPTY, steps) && id < |Run(EMPTY, steps).subs| && Buffered(Run(EMPTY, steps).subs[id].member) != []
    ensures var s := Run(EMPTY, steps);
      var m, took := s.subs[id].member, steps + [Other(id, Consuming(s.subs[id].member))];
      && CanRun(EMPTY, took)
      && var s' := Run(EMPTY, took);
      && s'.walk == s.walk && s'.registered == s.registered
      && |s'.subs| == |s.subs| && s'.subs == s.subs[id := s'.subs[id]]
      && Received(s'.subs[id].member) == Received(m) + [Buffered(m)[0]]
      && Buffered(s'.subs[id].member) == Buffered(m)[1..]
  {
    RunSnoc(EMPTY, steps, Other(id, Consuming(Run(EMPTY, steps).subs[id].member)));
  }

  // ---- a subscriber that blocks loses nothing --------------------------------------------------

  /** No delivery to it has ended without the tick in the queue while it was open. */
  predicate Unforsaken(m: Member) {
    Blocking(m) && !Done(m) ==> m.q.forsaken == 0
  }

  ghost predicate NothingForsaken(s: State) {
    !s.failed ==> forall id :: 0 <= id < |s.subs| ==> Unforsaken(s.subs[id].member)
  }

  lemma StaysUnforsaken(m: Member, st: MemberStep)
    requires CanStep(m, st) && Permitted(m, st)
    ensures Unforsaken(m) ==> Unforsaken(StepMember(m, st))
  {
  }

  lemma NothingForsakenStep(s: State, step: Step)
    requires NothingForsaken(s) && Enabled(s, step)
    ensures NothingForsaken(Next(s, step))
  {
    match step
    case Enter => StaysUnforsaken(Target(s).member, Arrival(Target(s).member, s.walk.batch[s.walk.j]));
    case Proceed(st) => StaysUnforsaken(Target(s).member, st);
    case Other(id, st) => StaysUnforsaken(s.subs[id].member, st);
    case Shutdown(id) => StaysUnforsaken(s.subs[id].member, Closing(s.subs[id].member));
    case _ =>
  }

  lemma {:induction false} NothingForsakenRun(s: State, steps: seq<Step>)
    requires NothingForsaken(s) && CanRun(s, steps)
    ensures NothingForsaken(Run(s, steps))
    decreases |steps|
  {
    if steps != [] {
      NothingForsakenStep(s, steps[0]);
      NothingForsakenRun(Next(s, steps[0]), steps[1..]);
    }
  }

  /** In every run without an error an open subscriber that blocks has, between its consumer and its queue, every tick it
      asked for, in order, but the one the publisher may be waiting with; between batches there is no such one. */
  lemma BlockingLosesNothing(steps: seq<Step>, id: nat)
    requires CanRun(EMPTY, steps) && id < |Run(EMPTY, steps).subs| && !Run(EMPTY, steps).failed
    requires Blocking(Run(EMPTY, steps).subs[id].member) && !Done(Run(EMPTY, steps).subs[id].member)
    ensures var s := Run(EMPTY, steps);
      var u := s.subs[id];
      && u.since <= u.until <= |s.stream|
      && var asked, got := Wanted(u.filter, Stretch(s, id)), Received(u.member) + Buffered(u.member);
      && |asked| - 1 <= |got| <= |asked| && got == asked[..|got|]
      && (s.walk.Resting? ==> got == asked)
      && (s.walk.Resting? && id in s.registered ==> u.until == |s.stream|)
  {
    var s := Run(EMPTY, steps);
    var u := s.subs[id];
    EveryRun(steps, id);
    NothingForsakenRun(EMPTY, steps);
    assert Unforsaken(u.member);
    InvariantRun(EMPTY, steps);
    assert Kept(u, s.stream, Current(s.walk, id));
    var taken :| QueueRun(u.member.q, taken);
    QueueBus.BlockIsLossless(u.member.q.capacity, taken);
    assert u.member.q.accepted[..|u.member.q.accepted|] == u.member.q.accepted;
  }

  /** The publisher is inside a delivery that found the queue of a blocking subscriber full. */
  predicate BlockedOn(s: State, id: nat) {
    && s.walk.Walking? && s.walk.phase.Inside? && s.walk.i < |s.walk.order| && s.walk.order[s.walk.i] == id < |s.subs|
    && Blocking(s.subs[id].member) && s.subs[id].member.q.publisher.Full?
  }

  /** A blocked delivery can be cancelled at any moment: Publish is over, and no channel has changed. */
  lemma CancellingNeverWaits(steps: seq<Step>, id: nat)
    requires CanRun(EMPTY, steps) && BlockedOn(Run(EMPTY, steps), id)
    ensures CanRun(EMPTY, steps + [Cancel])
    ensures var s, s' := Run(EMPTY, steps), Run(EMPTY, steps + [Cancel]);
      && s'.failed && s'.walk.Resting? && s'.stream == s.stream && s'.registered == s.registered
      && |s'.subs| == |s.subs| && s'.subs == s.subs[id := s'.subs[id]]
      && Received(s'.subs[id].member) == Received(s.subs[id].member)
      && Buffered(s'.subs[id].member) == Buffered(s.subs[id].member)
  {
    RunSnoc(EMPTY, steps, Cancel);
  }

  /** Publish errs in a run only by being cancelled. */
  lemma {:induction false} FailsIffCancelled(s: State, steps: seq<Step>)
    requires CanRun(s, steps)
    ensures Run(s, steps).failed <==> s.failed || Cancel in steps
    decreases |steps|
  {
    if steps != [] {
      FailsIffCancelled(Next(s, steps[0]), steps[1..]);
      assert Cancel in steps <==> steps[0] == Cancel || Cancel in steps[1..];
    }
  }

  // ---- publishing never waits on a subscriber that does not block ------------------------------

  ghost predicate NobodyBlocks(s: State) {
    forall id :: 0 <= id < |s.subs| ==> !Blocking(s.subs[id].member)
  }

  predicate OfPublisher(step: Step) {
    step.Offer? || step.Enter? || step.Proceed? || step.Cancel? || step.NextSubscriber? || step.Finish?
  }

  /** Steps that neither publish a further batch nor bring in a blocking subscriber. */
  predicate Meanwhile(step: Step) {
    !step.Begin? && !(step.Subscribe? && step.policy == Queueing(QueueBus.Block))
  }

  lemma QueueInvariant(q: QueueBus.State)
    requires IsRun(Queue(q))
    ensures QueueBus.Invariant(q)
  {
    var steps :| QueueRun(q, steps);
    QueueBus.EveryRun(q.policy, q.capacity, steps);
  }

  lemma DeliveryCanMove(m: Member) returns (st: MemberStep)
    requires IsRun(m) && Busy(m) && !Blocking(m)
    ensures ByPublisher(st) && CanStep(m, st)
  {
    match m
    case Queue(q) =>
      QueueInvariant(q);
      var a := QueueBus.NeverWaits(q);
      st := OfQueue(a);
    case Coalescing(c) =>
      st := OfCoalesce(CoalesceBus.SendWake);
  }

  /** A publisher in the middle of a batch always has a step it can take. */
  lemma PublisherCanMove(s: State) returns (step: Step)
    requires Invariant(s) && NobodyBlocks(s) && s.walk.Walking?
    ensures OfPublisher(step) && !step.Cancel? && Enabled(s, step)
  {
    if s.walk.i == |s.walk.order| {
      step := Finish;
    } else {
      assert Placed(s, s.walk.i);
      assert Kept(Target(s), s.stream, Current(s.walk, s.walk.order[s.walk.i]));
      if s.walk.phase.Inside? {
        var st := DeliveryCanMove(Target(s).member);
        step := Proceed(st);
      } else if s.walk.phase.Checked? {
        step := Enter;
      } else if s.walk.j < |s.walk.batch| {
        step := Offer;
      } else {
        step := NextSubscriber;
      }
    }
  }

  /** Publisher steps left in the delivery under way. */
  function DeliveryLeft(m: Member): nat {
    match m
    case Queue(q) => QueueBus.StepsLeft(q)
    case Coalescing(c) => if c.inFlight > 0 then 1 else 0
  }

  /** Publisher steps for a batch of the given length to n subscribers: nine a delivery, one to move on. */
  function Rounds(n: nat, ticks: nat): nat {
    if n == 0 then 0 else Rounds(n - 1, ticks) + 9 * ticks + 1
  }

  /** Publisher steps left in the batch under way. */
  function Left(s: State): int {
    if s.walk.Resting? then 0
    else if !AtTarget(s) then 1
    else
      Rounds(|s.walk.order| - s.walk.i - 1, |s.walk.batch|) + 9 * (|s.walk.batch| - s.walk.j) + 2
      - match s.walk.phase
        case Looking => 0
        case Checked => 1
        case Inside => 9 - DeliveryLeft(Target(s).member)
  }

  lemma LeftAtLeastOne(s: State)
    requires Invariant(s)
    ensures Left(s) >= 0 && (Left(s) == 0 <==> s.walk.Resting?)
  {
  }

  lemma DeliveryShortens(m: Member, st: MemberStep)
    requires IsRun(m) && Single(m) && ByPublisher(st) && CanStep(m, st)
    ensures DeliveryLeft(StepMember(m, st)) < DeliveryLeft(m) <= 7
  {
    match m
    case Queue(q) =>
      QueueInvariant(q);
      QueueBus.DeliveryAdvances(q, st.queueStep);
    case Coalescing(c) =>
  }

  lemma ArrivalCosts(m: Member, t: Tick)
    requires !Busy(m)
    ensures CanStep(m, Arrival(m, t)) && DeliveryLeft(StepMember(m, Arrival(m, t))) <= 7
  {
  }

  lemma OthersCostNothing(m: Member, st: MemberStep)
    requires CanStep(m, st) && (ByOthers(st) || st == Closing(m))
    ensures DeliveryLeft(StepMember(m, st)) == DeliveryLeft(m) && Blocking(StepMember(m, st)) == Blocking(m)
  {
  }

  lemma OfferShortens(s: State)
    requires Invariant(s) && Enabled(s, Offer)
    ensures Left(Next(s, Offer)) < Left(s)
  {
  }

  lemma EnterShortens(s: State)
    requires Invariant(s) && Enabled(s, Enter)
    ensures Left(Next(s, Enter)) < Left(s)
  {
    ArrivalCosts(Target(s).member, s.walk.batch[s.walk.j]);
  }

  lemma ProceedShortens(s: State, st: MemberStep)
    requires Invariant(s) && Enabled(s, Proceed(st))
    ensures Left(Next(s, Proceed(st))) < Left(s)
  {
    assert Kept(Target(s), s.stream, Current(s.walk, s.walk.order[s.walk.i]));
    DeliveryShortens(Target(s).member, st);
  }

  lemma NextSubscriberShortens(s: State)
    requires Invariant(s) && Enabled(s, NextSubscriber)
    ensures Left(Next(s, NextSubscriber)) < Left(s)
  {
    var s' := Next(s, NextSubscriber);
    if s'.walk.i < |s'.walk.order| {
      assert Placed(s, s'.walk.i);
    }
  }

  lemma TargetExists(s: State)
    requires OnCourse(s)
    ensures AtTarget(s) <==> s.walk.Walking? && s.walk.i < |s.walk.order|
  {
    if s.walk.Walking? && s.walk.i < |s.walk.order| {
      assert Placed(s, s.walk.i);
    }
  }

  lemma SubscribeCostsNothing(s: State, u: Subscriber, registered: set<nat>)
    requires AtTarget(s) <==> s.walk.Walking? && s.walk.i < |s.walk.order|
    ensures Left(s.(subs := s.subs + [u], registered := registered)) == Left(s)
  {
  }

  lemma SubscribeLeavesIt(s: State, filter: set<InstrumentID>, policy: Policy, capacity: nat)
    requires OnCourse(s) && Enabled(s, Subscribe(filter, policy, capacity))
    ensures Left(Next(s, Subscribe(filter, policy, capacity))) == Left(s)
  {
    var s' := Next(s, Subscribe(filter, policy, capacity));
    TargetExists(s);
    SubscribeCostsNothing(s, s'.subs[|s.subs|], s'.registered);
  }

  lemma UnregisterLeavesIt(s: State, id: nat)
    requires Enabled(s, Unregister(id))
    ensures Left(Next(s, Unregister(id))) == Left(s)
  {
    var s' := Next(s, Unregister(id));
    assert AtTarget(s') == AtTarget(s);
    assert AtTarget(s) ==> Target(s') == Target(s);
  }

  lemma FinishShortens(s: State)
    requires Enabled(s, Finish)
    ensures Left(Next(s, Finish)) < Left(s)
  {
    assert !AtTarget(s);
  }

  lemma MovedCostsNothing(s: State, id: nat, st: MemberStep, s': State)
    requires id < |s.subs| && CanStep(s.subs[id].member, st) && (ByOthers(st) || st == Closing(s.subs[id].member))
    requires s' == s.(subs := s.subs[id := Moved(s.subs[id], st)])
    ensures Left(s') == Left(s)
  {
    OthersCostNothing(s.subs[id].member, st);
  }

  lemma PublisherShortens(s: State, step: Step)
    requires Invariant(s) && NobodyBlocks(s) && Enabled(s, step) && OfPublisher(step)
    ensures Left(Next(s, step)) < Left(s)
  {
    match step
    case Offer => OfferShortens(s);
    case Enter => EnterShortens(s);
    case Proceed(st) => ProceedShortens(s, st);
    case NextSubscriber => NextSubscriberShortens(s);
    case Finish => FinishShortens(s);
    case Cancel =>
  }

  lemma OthersLeaveIt(s: State, step: Step)
    requires OnCourse(s) && Enabled(s, step) && Meanwhile(step) && !OfPublisher(step)
    ensures Left(Next(s, step)) == Left(s)
  {
    match step
    case Other(id, st) => MovedCostsNothing(s, id, st, Next(s, step));
    case Shutdown(id) => MovedCostsNothing(s, id, Closing(s.subs[id].member), Next(s, step));
    case Subscribe(filter, policy, capacity) => SubscribeLeavesIt(s, filter, policy, capacity);
    case Unregister(id) => UnregisterLeavesIt(s, id);
  }

  lemma StepShortens(s: State, step: Step)
    requires Invariant(s) && NobodyBlocks(s) && Enabled(s, step) && Meanwhile(step)
    ensures Left(Next(s, step)) + (if OfPublisher(step) then 1 else 0) <= Left(s)
  {
    if OfPublisher(step) {
      PublisherShortens(s, step);
    } else {
      OthersLeaveIt(s, step);
    }
  }

  lemma StillNobodyBlocks(s: State, step: Step)
    requires NobodyBlocks(s) && Enabled(s, step) && (Meanwhile(step) || step.Begin?)
    ensures NobodyBlocks(Next(s, step)) && Next(s, step).failed == s.failed
  {
  }

  function PublisherSteps(steps: seq<Step>): nat {
    if steps == [] then 0 else (if OfPublisher(steps[0]) then 1 else 0) + PublisherSteps(steps[1..])
  }

  /** With no blocking subscriber a batch is over after at most Left publisher steps, whatever the consumers, the
      draining loops, the arrivals and the departures do meanwhile, and no error is returned. */
  lemma {:induction false} PublishFinishes(s: State, steps: seq<Step>)
    requires Invariant(s) && NobodyBlocks(s) && CanRun(s, steps)
    requires forall k :: 0 <= k < |steps| ==> Meanwhile(steps[k])
    ensures PublisherSteps(steps) + Left(Run(s, steps)) <= Left(s)
    ensures Run(s, steps).failed == s.failed
    ensures Left(Run(s, steps)) >= 0 && (Left(Run(s, steps)) == 0 <==> Run(s, steps).walk.Resting?)
    decreases |steps|
  {
    if steps == [] {
      LeftAtLeastOne(s);
    } else {
      StepShortens(s, steps[0]);
      StillNobodyBlocks(s, steps[0]);
      InvariantStep(s, steps[0]);
      PublishFinishes(Next(s, steps[0]), steps[1..]);
    }
  }

  /** What a batch costs when it begins. */
  lemma BatchCost(s: State, batch: seq<Tick>, order: seq<nat>)
    requires Invariant(s) && Enabled(s, Begin(batch, order))
    ensures Left(Next(s, Begin(batch, order))) == Rounds(|order|, |batch|) + 1
  {
    BeginKeeps(s, batch, order);
    TargetExists(Next(s, Begin(batch, order)));
    FreshWalkCost(Next(s, Begin(batch, order)));
  }

  lemma FreshWalkCost(s: State)
    requires s.walk.Walking? && s.walk.i == 0 && s.walk.j == 0 && s.walk.phase.Looking?
    requires AtTarget(s) <==> s.walk.order != []
    ensures Left(s) == Rounds(|s.walk.order|, |s.walk.batch|) + 1
  {
  }

  /** Without a blocking subscriber no run of the bus returns an error. */
  lemma {:induction false} NeverFails(s: State, steps: seq<Step>)
    requires NobodyBlocks(s) && CanRun(s, steps) && !s.failed
    requires forall k :: 0 <= k < |steps| ==> Meanwhile(steps[k]) || steps[k].Begin?
    ensures !Run(s, steps).failed && NobodyBlocks(Run(s, steps))
    decreases |steps|
  {
    if steps != [] {
      StillNobodyBlocks(s, steps[0]);
      NeverFails(Next(s, steps[0]), steps[1..]);
    }
  }
}

/** End to end: numbers stamped at ingest reach every subscriber of the single publisher strictly increasing
    per (venue, instrument), whatever its policy, filter, speed or moment of shutdown. */
module Fanout {
  import opened Market
  import opened Normalize
  import CoalesceBus
  import QueueBus
  import PubSub

  lemma GaplessIncreases(out: seq<Tick>, next: Counters, k: Key)
    requires GaplessOn(out, next, k)
    ensures IncreasingSeq(OnKey(out, k))
  {
  }

  /** Any stream that is the published one with ticks left out has increasing numbers on every key. */
  lemma ThinnedIncreases(decoders: set<VenueID>, frames: seq<Frame>, got: seq<Tick>, k: Key)
    requires Subseq(OnKey(got, k), OnKey(Pipeline(decoders, frames).1, k))
    ensures IncreasingSeq(OnKey(got, k))
  {
    PipelineGapless(decoders, frames);
    var (next, published) := Pipeline(decoders, frames);
    assert GaplessOn(published, next, k);
    GaplessIncreases(published, next, k);
    SubseqIncreasing(OnKey(got, k), OnKey(published, k));
  }

  /** Block, drop-newest and drop-oldest. What was accepted is the published stream less the ticks the filter
      or a shutdown kept out. */
  lemma QueueSubscriberSeesIncreasing(decoders: set<VenueID>, frames: seq<Frame>,
                                      policy: QueueBus.Policy, capacity: nat, steps: seq<QueueBus.Step>, k: Key)
    requires capacity > 0 && QueueBus.CanRun(QueueBus.Init(policy, capacity), steps)
    requires Subseq(QueueBus.Run(QueueBus.Init(policy, capacity), steps).accepted, Pipeline(decoders, frames).1)
    ensures IncreasingSeq(OnKey(QueueBus.Run(QueueBus.Init(policy, capacity), steps).received, k))
  {
    var s := QueueBus.Run(QueueBus.Init(policy, capacity), steps);
    QueueBus.ReceivedIsThinned(policy, capacity, steps);
    SubseqTransitive(s.received, s.accepted, Pipeline(decoders, frames).1);
    SubseqOnKey(s.received, Pipeline(decoders, frames).1, k);
    ThinnedIncreases(decoders, frames, s.received, k);
  }

  /** Coalesce, which orders ticks only within an instrument. */
  lemma CoalescingSubscriberSeesIncreasing(decoders: set<VenueID>, frames: seq<Frame>,
                                           capacity: nat, steps: seq<CoalesceBus.Step>, k: Key)
    requires CoalesceBus.CanRun(CoalesceBus.Init(capacity), steps)
    requires Subseq(CoalesceBus.Run(CoalesceBus.Init(capacity), steps).accepted, Pipeline(decoders, frames).1)
    ensures IncreasingSeq(OnKey(CoalesceBus.Run(CoalesceBus.Init(capacity), steps).received, k))
  {
    var s := CoalesceBus.Run(CoalesceBus.Init(capacity), steps);
    var published := Pipeline(decoders, frames).1;
    CoalesceBus.ReceivedIsThinned(capacity, steps, k.instrument);
    SubseqOnKey(OnInstrument(s.received, k.instrument), OnInstrument(s.accepted, k.instrument), k);
    OnKeyOfInstrument(s.received, k);
    OnKeyOfInstrument(s.accepted, k);
    SubseqOnKey(s.accepted, published, k);
    SubseqTransitive(OnKey(s.received, k), OnKey(s.accepted, k), OnKey(published, k));
    ThinnedIncreases(decoders, frames, s.received, k);
  }

  // ---- what a subscriber accepts --------------------------------------------------------------

  lemma AcceptedIsThinned(filter: set<InstrumentID>, published: seq<Tick>, from: nat, to: nat)
    requires from <= to <= |published|
    ensures Subseq(Wanted(filter, published[from..to]), published)
  {
    var stretch := published[from..to];
    WantedIsThinned(filter, stretch);
    SuffixIsSubseq(published[..from], stretch);
    assert published[..from] + stretch == published[..to];
    PrefixIsSubseq(published[..to], published[to..]);
    assert published[..to] + published[to..] == published;
    SubseqTransitive(Wanted(filter, stretch), stretch, published[..to]);
    SubseqTransitive(Wanted(filter, stretch), published[..to], published);
  }

  // ---- every subscriber of the whole bus -------------------------------------------------------

  lemma MemberSeesIncreasing(decoders: set<VenueID>, frames: seq<Frame>, m: PubSub.Member, k: Key)
    requires PubSub.IsRun(m) && Subseq(PubSub.Accepted(m), Pipeline(decoders, frames).1)
    ensures IncreasingSeq(OnKey(PubSub.Received(m), k))
  {
    match m
    case Queue(q) =>
      var steps :| PubSub.QueueRun(q, steps);
      QueueSubscriberSeesIncreasing(decoders, frames, q.policy, q.capacity, steps, k);
    case Coalescing(c) =>
      var steps :| PubSub.CoalesceRun(c, steps);
      CoalescingSubscriberSeesIncreasing(decoders, frames, c.capacity, steps, k);
  }

  /** In every run of the whole bus whose publisher publishes what the normalizer makes of a stream of frames, every
      subscriber, under every policy and filter, whenever it joined, however slow it is and whenever it was shut down,
      has received strictly increasing numbers on every key. */
  lemma EverySubscriberSeesIncreasing(decoders: set<VenueID>, frames: seq<Frame>, steps: seq<PubSub.Step>, id: nat, k: Key)
    requires PubSub.CanRun(PubSub.EMPTY, steps)
    requires PubSub.Run(PubSub.EMPTY, steps).stream == Pipeline(decoders, frames).1
    requires id < |PubSub.Run(PubSub.EMPTY, steps).subs|
    ensures IncreasingSeq(OnKey(PubSub.Received(PubSub.Run(PubSub.EMPTY, steps).subs[id].member), k))
  {
    var s := PubSub.Run(PubSub.EMPTY, steps);
    var u := s.subs[id];
    PubSub.EveryRun(steps, id);
    AcceptedIsThinned(u.filter, s.stream, u.since, u.until);
    MemberSeesIncreasing(decoders, frames, u.member, k);
  }
}

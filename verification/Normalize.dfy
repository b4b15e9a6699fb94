/** Sequencing (internal/normalize/normalize.go): the per-(venue, instrument) counter stamped at ingest. */
module Normalize {
  import opened Market

  /** The counters; an absent key counts from zero, as a Go map does. */
  type Counters = map<Key, nat>

  function At(next: Counters, k: Key): nat {
    if k in next then next[k] else 0
  }

  /** Stamping one tick: increment the key's counter and write it into the tick. */
  function StampOne(next: Counters, t: Tick): (Counters, Tick) {
    var n := At(next, KeyOf(t)) + 1;
    (next[KeyOf(t) := n], t.(number := n))
  }

  /** Stamping a batch left to right. */
  function Stamp(next: Counters, ticks: seq<Tick>): (Counters, seq<Tick>) {
    if ticks == [] then (next, [])
    else
      var (mid, done) := Stamp(next, ticks[..|ticks| - 1]);
      var (last, t) := StampOne(mid, ticks[|ticks| - 1]);
      (last, done + [t])
  }

  /** Numbers are 1, 2, 3, ... for every key, and the counters say where each key has got to. */
  ghost predicate Gapless(out: seq<Tick>, next: Counters) {
    forall k: Key :: GaplessOn(out, next, k)
  }

  ghost predicate GaplessOn(out: seq<Tick>, next: Counters, k: Key) {
    && At(next, k) == |OnKey(out, k)|
    && forall j :: 0 <= j < |OnKey(out, k)| ==> OnKey(out, k)[j].number == j + 1
  }

  lemma GaplessSnoc(out: seq<Tick>, next: Counters, t: Tick, k: Key)
    requires GaplessOn(out, next, k)
    ensures GaplessOn(out + [StampOne(next, t).1], StampOne(next, t).0, k)
  {
    OnKeySnoc(out, StampOne(next, t).1, k);
  }

  /** Stamping a further batch keeps the whole history gapless. */
  lemma {:induction false} StampGapless(out: seq<Tick>, next: Counters, ticks: seq<Tick>)
    requires Gapless(out, next)
    ensures Gapless(out + Stamp(next, ticks).1, Stamp(next, ticks).0)
  {
    if ticks == [] {
      assert out + [] == out;
    } else {
      var ticks', t := ticks[..|ticks| - 1], ticks[|ticks| - 1];
      StampGapless(out, next, ticks');
      var (mid, done) := Stamp(next, ticks');
      forall k: Key
        ensures GaplessOn(out + Stamp(next, ticks).1, Stamp(next, ticks).0, k)
      {
        GaplessSnoc(out + done, mid, t, k);
        assert out + Stamp(next, ticks).1 == out + done + [StampOne(mid, t).1];
      }
    }
  }

  class Sequencer {
    var next: Counters

    constructor ()
      ensures next == map[]
    {
      next := map[];
    }

    /** Stamps each tick in place; everything about a tick but its number is left alone. */
    method Assign(ticks: array<Tick>)
      modifies this, ticks
      ensures (next, ticks[..]) == Stamp(old(next), old(ticks[..]))
    {
      ghost var was := ticks[..];
      var i := 0;
      while i < ticks.Length
        invariant 0 <= i <= ticks.Length
        invariant (next, ticks[..i]) == Stamp(old(next), was[..i])
        invariant ticks[i..] == was[i..]
      {
        var t := ticks[i];
        assert t == ticks[i..][0] == was[i];
        var k := KeyOf(t);
        ghost var done := ticks[..i];
        next := next[k := At(next, k) + 1];
        ticks[i] := t.(number := next[k]);
        assert ticks[..i] == done;
        assert was[..i + 1][..i] == was[..i];
        assert ticks[..i + 1] == ticks[..i] + [ticks[i]];
        i := i + 1;
      }
      assert ticks[..] == ticks[..i] && was[..i] == was;
    }
  }

  // ---- Normalizer -----------------------------------------------------------------------------

  datatype NormalizeError = NoDecoder(venue: VenueID) | DecodeFailed | Ignored

  /** What the venue's decoder makes of a frame. */
  datatype Decoded = Failed | Decoded(ticks: seq<Tick>)

  /** A raw frame: the venue it came from and what that venue's decoder, if any, makes of it. */
  datatype Frame = Frame(venue: VenueID, decoded: Decoded)

  datatype Outcome = Rejected(error: NormalizeError) | Ticks(ticks: seq<Tick>)

  /** One frame through Normalize, on the counters. */
  function NormalizeFrame(decoders: set<VenueID>, next: Counters, f: Frame): (Counters, Outcome) {
    if f.venue !in decoders then (next, Rejected(NoDecoder(f.venue)))
    else if f.decoded.Failed? then (next, Rejected(DecodeFailed))
    else if f.decoded.ticks == [] then (next, Rejected(Ignored))
    else
      var (after, out) := Stamp(next, f.decoded.ticks);
      (after, Ticks(out))
  }

  /** Ticks without their numbers. */
  function Unnumbered(ticks: seq<Tick>): seq<Tick> {
    seq(|ticks|, i requires 0 <= i < |ticks| => ticks[i].(number := 0))
  }

  /** Why a frame yields nothing. */
  function Reason(decoders: set<VenueID>, f: Frame): NormalizeError {
    if f.venue !in decoders then NoDecoder(f.venue) else if f.decoded.Failed? then DecodeFailed else Ignored
  }

  /** What one frame comes to: its ticks exactly when there are any to be had, and otherwise the reason. */
  lemma FrameOutcome(decoders: set<VenueID>, next: Counters, f: Frame)
    ensures var (after, r) := NormalizeFrame(decoders, next, f);
      && (r.Ticks? <==> f.venue in decoders && f.decoded.Decoded? && f.decoded.ticks != [])
      && (r.Ticks? ==> Unnumbered(r.ticks) == Unnumbered(f.decoded.ticks))
      && (r.Rejected? ==> after == next)
      && (r == Rejected(NoDecoder(f.venue)) <==> f.venue !in decoders)
      && (r == Rejected(DecodeFailed) <==> f.venue in decoders && f.decoded.Failed?)
      && (r == Rejected(Ignored) <==> f.venue in decoders && f.decoded == Decoded([]))
  {
    if f.decoded.Decoded? {
      StampKeepsTicks(next, f.decoded.ticks);
    }
  }

  class Normalizer {
    const decoders: set<VenueID>
    const sequencer: Sequencer

    constructor (venues: set<VenueID>)
      ensures decoders == venues && fresh(sequencer) && sequencer.next == map[]
    {
      decoders := venues;
      sequencer := new Sequencer();
    }

    /** Ticks exactly for a registered venue whose decoder made something of the frame, and those ticks but for their
        numbers; otherwise the error says why not, and no number is used up. */
    method Normalize(f: Frame) returns (r: Outcome)
      modifies sequencer
      ensures (sequencer.next, r) == NormalizeFrame(decoders, old(sequencer.next), f)
      ensures r.Ticks? <==> f.venue in decoders && f.decoded.Decoded? && f.decoded.ticks != []
      ensures r.Ticks? ==> Unnumbered(r.ticks) == Unnumbered(f.decoded.ticks)
      ensures r.Rejected? ==> sequencer.next == old(sequencer.next) && r.error == Reason(decoders, f)
    {
      FrameOutcome(decoders, sequencer.next, f);
      if f.venue !in decoders {
        return Rejected(NoDecoder(f.venue));
      }
      if f.decoded.Failed? {
        return Rejected(DecodeFailed);
      }
      if |f.decoded.ticks| == 0 {
        return Rejected(Ignored);
      }
      var ticks := f.decoded.ticks;
      var buffer := new Tick[|ticks|](i requires 0 <= i < |ticks| => ticks[i]);
      assert buffer[..] == ticks;
      sequencer.Assign(buffer);
      r := Ticks(buffer[..]);
    }
  }

  /** Everything a stream of frames publishes, in order, and the counters it leaves. */
  function Pipeline(decoders: set<VenueID>, frames: seq<Frame>): (Counters, seq<Tick>) {
    if frames == [] then (map[], [])
    else
      var (mid, out) := Pipeline(decoders, frames[..|frames| - 1]);
      var (after, r) := NormalizeFrame(decoders, mid, frames[|frames| - 1]);
      (after, out + if r.Ticks? then r.ticks else [])
  }

  /** Across any stream of frames the published numbers of each (venue, instrument) are 1, 2, 3, ...: frames
      that fail, are ignored or have no decoder consume none. */
  lemma {:induction false} PipelineGapless(decoders: set<VenueID>, frames: seq<Frame>)
    ensures Gapless(Pipeline(decoders, frames).1, Pipeline(decoders, frames).0)
  {
    if frames == [] {
      assert Gapless([], map[]);
    } else {
      var f := frames[|frames| - 1];
      PipelineGapless(decoders, frames[..|frames| - 1]);
      var (mid, out) := Pipeline(decoders, frames[..|frames| - 1]);
      if f.decoded.Decoded? {
        StampGapless(out, mid, f.decoded.ticks);
      }
      assert out + [] == out;
    }
  }

  /** What the decoders make of a stream of frames: nothing of a frame without a decoder or whose decoding failed. */
  function DecodedTicks(decoders: set<VenueID>, frames: seq<Frame>): seq<Tick> {
    if frames == [] then []
    else
      var f := frames[|frames| - 1];
      DecodedTicks(decoders, frames[..|frames| - 1])
      + if f.venue in decoders && f.decoded.Decoded? then f.decoded.ticks else []
  }

  /** Everything decoded is published, in order, and nothing else: numbers aside, the two streams are the same. */
  lemma {:induction false} PipelinePublishesAll(decoders: set<VenueID>, frames: seq<Frame>)
    ensures Unnumbered(Pipeline(decoders, frames).1) == Unnumbered(DecodedTicks(decoders, frames))
  {
    if frames != [] {
      var f := frames[|frames| - 1];
      PipelinePublishesAll(decoders, frames[..|frames| - 1]);
      var (mid, out) := Pipeline(decoders, frames[..|frames| - 1]);
      FrameOutcome(decoders, mid, f);
      var r := NormalizeFrame(decoders, mid, f).1;
      UnnumberedConcat(out, if r.Ticks? then r.ticks else []);
      UnnumberedConcat(DecodedTicks(decoders, frames[..|frames| - 1]),
                       if f.venue in decoders && f.decoded.Decoded? then f.decoded.ticks else []);
    }
  }

  lemma UnnumberedConcat(a: seq<Tick>, b: seq<Tick>)
    ensures Unnumbered(a + b) == Unnumbered(a) + Unnumbered(b)
  {
  }

  /** Stamping changes nothing but the number. */
  lemma {:induction false} StampKeepsTicks(next: Counters, ticks: seq<Tick>)
    ensures var out := Stamp(next, ticks).1;
      |out| == |ticks| && forall i :: 0 <= i < |out| ==> out[i].(number := ticks[i].number) == ticks[i]
  {
    if ticks != [] {
      StampKeepsTicks(next, ticks[..|ticks| - 1]);
    }
  }
}

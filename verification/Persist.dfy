/** The persister (internal/consumer/persist/persist.go): a batching event loop over the idempotent archive. */
module Persist {
  import opened Decimal
  import opened Market
  import opened Archive

  /** What wakes the loop. `failure` is what the store would do to a flush this event causes. */
  datatype Event =
    | Arrive(tick: Tick, failure: Option<nat>)
    | Interval(failure: Option<nat>)
    | Stop(failure: Option<nat>)

  datatype State = State(
    table: Table,
    batch: seq<Tick>,
    received: nat,
    stored: nat,
    duplicate: nat,
    flushes: nat,
    errors: nat,
    lost: nat,            // ticks in batches whose flush failed
    flushed: seq<Tick>)   // ticks in batches whose flush succeeded

  predicate Fails(batch: seq<Tick>, failure: Option<nat>) {
    failure.Some? && failure.value <= |batch|
  }

  function Flush(s: State, failure: Option<nat>): State {
    if s.batch == [] then s
    else if Fails(s.batch, failure) then
      s.(batch := [], flushes := s.flushes + 1, errors := s.errors + 1, lost := s.lost + |s.batch|)
    else
      Committed(s, NewRows(s.table, s.batch))
  }

  /** How many ticks of a batch the archive does not have yet. */
  function NewRows(table: Table, batch: seq<Tick>): (n: nat)
    ensures n <= |batch|
  {
    InsertGrows(table, batch);
    |InsertAll(table, batch)| - |table|
  }

  function Committed(s: State, n: nat): State
    requires n <= |s.batch|
  {
    s.(table := InsertAll(s.table, s.batch), batch := [], flushes := s.flushes + 1,
       stored := s.stored + n, duplicate := s.duplicate + |s.batch| - n, flushed := s.flushed + s.batch)
  }

  function React(s: State, e: Event, batchSize: nat): State {
    match e
    case Arrive(t, failure) =>
      var s' := s.(received := s.received + 1, batch := s.batch + [t]);
      if |s'.batch| >= batchSize then Flush(s', failure) else s'
    case Interval(failure) => Flush(s, failure)
    case Stop(failure) => Flush(s, failure)
  }

  function RunAll(s: State, events: seq<Event>, batchSize: nat): State {
    if events == [] then s
    else React(RunAll(s, events[..|events| - 1], batchSize), events[|events| - 1], batchSize)
  }

  function Start(table: Table): State {
    State(table, [], 0, 0, 0, 0, 0, 0, [])
  }

  /** Every tick the events deliver, in order. */
  function Arrivals(events: seq<Event>): seq<Tick> {
    if events == [] then []
    else
      var rest := Arrivals(events[..|events| - 1]);
      if events[|events| - 1].Arrive? then rest + [events[|events| - 1].tick] else rest
  }

  class Persister {
    const db: DB
    const batchSize: nat
    var batch: seq<Tick>
    var received: nat
    var stored: nat
    var duplicate: nat
    var flushes: nat
    var errors: nat
    ghost var lost: nat
    ghost var flushed: seq<Tick>

    constructor (db: DB, batchSize: nat)
      ensures this.db == db && this.batchSize == (if batchSize == 0 then 500 else batchSize)
      ensures View() == Start(db.table)
    {
      this.db := db;
      this.batchSize := if batchSize == 0 then 500 else batchSize;
      batch, received, stored, duplicate, flushes, errors, lost, flushed := [], 0, 0, 0, 0, 0, 0, [];
    }

    ghost function View(): State
      reads this, db
    {
      State(db.table, batch, received, stored, duplicate, flushes, errors, lost, flushed)
    }

    method FlushBatch(failure: Option<nat>)
      modifies this, db
      ensures View() == Flush(old(View()), failure)
    {
      if |batch| == 0 {
        return;
      }
      var n, ok := db.Append(batch, failure);
      assert ok ==> n == NewRows(old(db.table), batch);
      flushes := flushes + 1;
      if !ok {
        errors := errors + 1;
        lost := lost + |batch|;
      } else {
        stored := stored + n;
        duplicate := duplicate + (|batch| - n);
        flushed := flushed + batch;
      }
      batch := [];
    }

    method Handle(e: Event)
      modifies this, db
      ensures View() == React(old(View()), e, batchSize)
    {
      match e {
        case Arrive(t, failure) =>
          received := received + 1;
          batch := batch + [t];
          if |batch| >= batchSize {
            FlushBatch(failure);
          }
        case Interval(failure) =>
          FlushBatch(failure);
        case Stop(failure) =>
          FlushBatch(failure);
      }
    }

    /** The select loop over a schedule of events; it returns at the first Stop. */
    method Run(events: seq<Event>)
      modifies this, db
      ensures View() == RunAll(old(View()), UpToStop(events), batchSize)
    {
      var i := 0;
      while i < |events|
        invariant 0 <= i <= |events|
        invariant forall j :: 0 <= j < i ==> !events[j].Stop?
        invariant View() == RunAll(old(View()), events[..i], batchSize)
      {
        assert events[..i + 1][..i] == events[..i];
        Handle(events[i]);
        if events[i].Stop? {
          StopsAt(events, i);
          return;
        }
        i := i + 1;
      }
      assert events[..i] == events;
      NeverStops(events);
    }
  }

  /** The events the loop gets to see. */
  function UpToStop(events: seq<Event>): seq<Event> {
    if events == [] then []
    else if events[0].Stop? then [events[0]]
    else [events[0]] + UpToStop(events[1..])
  }

  lemma {:induction false} StopsAt(events: seq<Event>, i: nat)
    requires i < |events| && events[i].Stop? && forall j :: 0 <= j < i ==> !events[j].Stop?
    ensures UpToStop(events) == events[..i + 1]
  {
    if i > 0 {
      StopsAt(events[1..], i - 1);
      assert events[..i + 1] == [events[0]] + events[1..][..i];
    }
  }

  lemma {:induction false} NeverStops(events: seq<Event>)
    requires forall j :: 0 <= j < |events| ==> !events[j].Stop?
    ensures UpToStop(events) == events
  {
    if events != [] {
      NeverStops(events[1..]);
    }
  }

  // ---- whole runs -----------------------------------------------------------------------------

  /** In every state: each received tick was stored, was a duplicate, was lost with a failed flush, or is still
      in the batch; and the archive is exactly first-write-wins insertion of what was flushed. */
  ghost predicate Accounted(s: State, start: Table, arrived: seq<Tick>) {
    && s.received == |arrived|
    && s.received == s.stored + s.duplicate + s.lost + |s.batch|
    && s.table == InsertAll(start, s.flushed)
    && |s.table| == |start| + s.stored
    && (s.lost == 0 ==> arrived == s.flushed + s.batch)
    && (s.errors == 0 <==> s.lost == 0)
  }

  lemma FlushAccounted(s: State, failure: Option<nat>, start: Table, arrived: seq<Tick>)
    requires Accounted(s, start, arrived)
    ensures Accounted(Flush(s, failure), start, arrived)
  {
    if s.batch != [] && !Fails(s.batch, failure) {
      CommitAccounted(s, NewRows(s.table, s.batch), start, arrived);
    }
  }

  lemma CommitAccounted(s: State, n: nat, start: Table, arrived: seq<Tick>)
    requires Accounted(s, start, arrived) && n <= |s.batch| && n == NewRows(s.table, s.batch)
    ensures Accounted(Committed(s, n), start, arrived)
  {
    InsertGrows(s.table, s.batch);
    InsertConcat(start, s.flushed, s.batch);
    assert s.flushed + s.batch + [] == s.flushed + s.batch;
  }

  lemma {:induction false} EveryRun(start: Table, events: seq<Event>, batchSize: nat)
    ensures Accounted(RunAll(Start(start), events, batchSize), start, Arrivals(events))
  {
    if events != [] {
      var n := |events| - 1;
      EveryRun(start, events[..n], batchSize);
      ReactAccounted(RunAll(Start(start), events[..n], batchSize), events[n], batchSize, start, events[..n]);
      assert events == events[..n] + [events[n]];
    }
  }

  lemma ReactAccounted(s: State, e: Event, batchSize: nat, start: Table, before: seq<Event>)
    requires Accounted(s, start, Arrivals(before))
    ensures Accounted(React(s, e, batchSize), start, Arrivals(before + [e]))
  {
    var events := before + [e];
    assert events[..|before|] == before;
    match e {
      case Arrive(t, failure) =>
        var s' := s.(received := s.received + 1, batch := s.batch + [t]);
        assert s.flushed + s.batch + [t] == s'.flushed + s'.batch;
        FlushAccounted(s', failure, start, Arrivals(events));
      case Interval(failure) => FlushAccounted(s, failure, start, Arrivals(events));
      case Stop(failure) => FlushAccounted(s, failure, start, Arrivals(events));
    }
  }

  /** Batching is invisible: after a shutdown with no failed flush the archive is what inserting the received
      ticks one at a time would have produced, for every batch size and every schedule of flushes. */
  lemma BatchingIsInvisible(start: Table, events: seq<Event>, batchSize: nat)
    requires events != [] && events[|events| - 1].Stop?
    requires RunAll(Start(start), events, batchSize).errors == 0
    ensures var s := RunAll(Start(start), events, batchSize);
      && s.table == InsertAll(start, Arrivals(events))
      && s.batch == []
      && s.stored + s.duplicate == |Arrivals(events)|
  {
    EveryRun(start, events, batchSize);
    var s := RunAll(Start(start), events, batchSize);
    assert s.batch == [];
    assert s.flushed + [] == s.flushed;
  }

  /** The batch never reaches its limit between events. */
  lemma {:induction false} BatchStaysSmall(start: Table, events: seq<Event>, batchSize: nat)
    requires batchSize > 0
    ensures |RunAll(Start(start), events, batchSize).batch| < batchSize
  {
    if events != [] {
      BatchStaysSmall(start, events[..|events| - 1], batchSize);
    }
  }

  ghost predicate OnlyArrivals(events: seq<Event>) {
    forall i :: 0 <= i < |events| ==> events[i].Arrive?
  }

  lemma ArrivalCounts(s: State, t: Tick, failure: Option<nat>, batchSize: nat)
    requires |s.batch| < batchSize
    ensures var r := React(s, Arrive(t, failure), batchSize);
      if |s.batch| + 1 < batchSize then r.flushes == s.flushes && |r.batch| == |s.batch| + 1
      else r.flushes == s.flushes + 1 && r.batch == []
  {
  }

  lemma OneMoreTimes(n: nat, m: nat)
    ensures (n + 1) * m == n * m + m
  {
  }

  /** Nor is it flushed early: while ticks only arrive, there is one flush for every batchSize of them. */
  lemma {:induction false} FlushedWhenFull(start: Table, events: seq<Event>, batchSize: nat)
    requires batchSize > 0 && OnlyArrivals(events)
    ensures var s := RunAll(Start(start), events, batchSize);
      s.flushes * batchSize + |s.batch| == |events| && |s.batch| < batchSize
  {
    if events != [] {
      var n := |events| - 1;
      FlushedWhenFull(start, events[..n], batchSize);
      var s := RunAll(Start(start), events[..n], batchSize);
      ArrivalCounts(s, events[n].tick, events[n].failure, batchSize);
      OneMoreTimes(s.flushes, batchSize);
    }
  }

  /** An interval or a stop leaves nothing in the batch, in one flush, and does nothing when there was nothing in it. */
  lemma TimerEmptiesBatch(s: State, e: Event, batchSize: nat)
    requires !e.Arrive?
    ensures React(s, e, batchSize).batch == []
    ensures React(s, e, batchSize).flushes == s.flushes + if s.batch == [] then 0 else 1
    ensures s.batch == [] ==> React(s, e, batchSize) == s
  {
  }
}

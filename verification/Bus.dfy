/** Fan-out (internal/bus/inproc/inproc.go): one queue per subscriber, each with its own policy, and Publish
    delivering a batch to all of them. */
module Bus {
  import opened Decimal
  import opened Market

  datatype Policy = Block | DropNewest | DropOldest | Coalesce

  /** How a blocked delivery ends: the consumer takes one tick and perhaps more, the subscription shuts down, or the
      publisher's context is cancelled. */
  datatype Wait = MadeRoom(more: nat) | Closed | Cancelled

  datatype PublishError = ContextCancelled

  /** Subscribe replaces a zero capacity with the default, so every queue has room for one tick. */
  type Capacity = n: nat | n > 0 witness 1

  datatype Sub = Sub(
    policy: Policy,
    filter: set<InstrumentID>,   // empty means everything
    capacity: Capacity,
    done: bool,
    queue: seq<Tick>,
    pending: map<InstrumentID, Tick>,
    wake: bool,
    delivered: nat,
    dropped: nat,
    coalesced: nat,
    highWater: nat)

  function Enqueue(s: Sub, t: Tick): Sub {
    var queue := s.queue + [t];
    s.(queue := queue, delivered := s.delivered + 1,
       highWater := if |queue| > s.highWater then |queue| else s.highWater)
  }

  function Taken(queue: seq<Tick>, n: nat): seq<Tick> {
    if n >= |queue| then [] else queue[n..]
  }

  /** deliver, with nothing else running on the subscription meanwhile. */
  function DeliverOne(s: Sub, t: Tick, wait: Wait): (Sub, Option<PublishError>) {
    if !Passes(s.filter, t) || s.done then (s, None)
    else if s.policy == Coalesce then
      (s.(coalesced := s.coalesced + (if t.instrument in s.pending then 1 else 0),
          pending := s.pending[t.instrument := t], wake := true), None)
    else if |s.queue| < s.capacity then (Enqueue(s, t), None)
    else if s.policy == DropNewest then (s.(dropped := s.dropped + 1), None)
    else if s.policy == DropOldest then
      (Enqueue(s.(queue := s.queue[1..], dropped := s.dropped + 1), t), None)
    else
      match wait
      case MadeRoom(more) => (Enqueue(s.(queue := Taken(s.queue, more + 1)), t), None)
      case Closed => (s.(done := true), None)
      case Cancelled => (s, Some(ContextCancelled))
  }

  /** A batch to one subscriber, stopping at the first error; waits[k] is how the k-th delivery ends if it blocks. */
  function DeliverAll(s: Sub, ticks: seq<Tick>, waits: seq<Wait>): (Sub, Option<PublishError>)
    requires |waits| == |ticks|
    decreases |ticks|
  {
    if ticks == [] then (s, None)
    else
      var (mid, err) := DeliverOne(s, ticks[0], waits[0]);
      if err.Some? then (mid, err) else DeliverAll(mid, ticks[1..], waits[1..])
  }

  /** How every delivery of a batch ends if it blocks. */
  type Waits = map<string, seq<Wait>>

  ghost predicate Covers(waits: Waits, names: seq<string>, ticks: seq<Tick>) {
    forall name :: name in names ==> name in waits && |waits[name]| == |ticks|
  }

  /** A batch to every subscriber, visited in the given order, stopping at the first error. */
  ghost function PublishTo(subs: map<string, Sub>, order: seq<string>, ticks: seq<Tick>, waits: Waits)
    : (map<string, Sub>, Option<PublishError>)
    requires Covers(waits, order, ticks) && forall name :: name in order ==> name in subs
    decreases |order|
  {
    if order == [] then (subs, None)
    else
      var (sub, err) := DeliverAll(subs[order[0]], ticks, waits[order[0]]);
      var subs' := subs[order[0] := sub];
      if err.Some? then (subs', err) else PublishTo(subs', order[1..], ticks, waits)
  }

  /** order visits each subscriber once: one possible iteration of a Go map. */
  ghost predicate Visits(order: seq<string>, names: set<string>) {
    && (forall name :: name in order <==> name in names)
    && (forall i, j :: 0 <= i < j < |order| ==> order[i] != order[j])
  }

  class FanOut {
    var subs: map<string, Sub>

    constructor ()
      ensures subs == map[]
    {
      subs := map[];
    }

    method Publish(ticks: seq<Tick>, order: seq<string>, waits: Waits) returns (err: Option<PublishError>)
      requires Visits(order, subs.Keys) && Covers(waits, order, ticks)
      modifies this
      ensures (subs, err) == PublishTo(old(subs), order, ticks, waits)
    {
      var i := 0;
      while i < |order|
        invariant 0 <= i <= |order|
        invariant forall name :: name in order ==> name in subs
        invariant PublishTo(subs, order[i..], ticks, waits) == PublishTo(old(subs), order, ticks, waits)
      {
        var name := order[i];
        var sub, e := Deliver(subs[name], ticks, waits[name]);
        subs := subs[name := sub];
        if e.Some? {
          return e;
        }
        assert order[i..][1..] == order[i + 1..];
        i := i + 1;
      }
      err := None;
    }
  }

  /** The inner loop of Publish. */
  method Deliver(start: Sub, ticks: seq<Tick>, waits: seq<Wait>) returns (sub: Sub, err: Option<PublishError>)
    requires |waits| == |ticks|
    ensures (sub, err) == DeliverAll(start, ticks, waits)
  {
    sub := start;
    var j := 0;
    while j < |ticks|
      invariant 0 <= j <= |ticks|
      invariant DeliverAll(sub, ticks[j..], waits[j..]) == DeliverAll(start, ticks, waits)
    {
      var (next, e) := DeliverOne(sub, ticks[j], waits[j]);
      sub := next;
      if e.Some? {
        return sub, e;
      }
      assert ticks[j..][1..] == ticks[j + 1..] && waits[j..][1..] == waits[j + 1..];
      j := j + 1;
    }
    err := None;
  }

  // ---- isolation ------------------------------------------------------------------------------

  /** Only a blocking delivery depends on how long the consumer takes, and only it can err. */
  lemma {:induction false} UnblockedNeverErrs(s: Sub, ticks: seq<Tick>, waits: seq<Wait>, others: seq<Wait>)
    requires s.policy != Block && |waits| == |others| == |ticks|
    ensures DeliverAll(s, ticks, waits).1 == None && DeliverAll(s, ticks, others) == DeliverAll(s, ticks, waits)
    decreases |ticks|
  {
    if ticks != [] {
      UnblockedNeverErrs(DeliverOne(s, ticks[0], waits[0]).0, ticks[1..], waits[1..], others[1..]);
    }
  }

  lemma {:induction false} PublishPointwise(subs: map<string, Sub>, order: seq<string>, ticks: seq<Tick>, waits: Waits)
    requires Covers(waits, order, ticks)
    requires forall name :: name in order ==> name in subs && subs[name].policy != Block
    requires forall i, j :: 0 <= i < j < |order| ==> order[i] != order[j]
    ensures PublishTo(subs, order, ticks, waits).1 == None
    ensures var after := PublishTo(subs, order, ticks, waits).0;
      && after.Keys == subs.Keys
      && forall name :: name in subs ==>
           after[name] == if name in order then DeliverAll(subs[name], ticks, waits[name]).0 else subs[name]
    decreases |order|
  {
    if order != [] {
      var head := order[0];
      UnblockedNeverErrs(subs[head], ticks, waits[head], waits[head]);
      var subs' := subs[head := DeliverAll(subs[head], ticks, waits[head]).0];
      assert head !in order[1..];
      assert forall name :: name in order <==> name == head || name in order[1..];
      PublishPointwise(subs', order[1..], ticks, waits);
      assert subs'.Keys == subs.Keys;
    }
  }

  /** Without a blocking subscriber Publish never errs, each subscriber ends as if it were alone, and the outcome is
      the same for every iteration order and however slow any consumer is. */
  lemma PublishIsolates(subs: map<string, Sub>, ticks: seq<Tick>, order: seq<string>, waits: Waits, order': seq<string>, waits': Waits)
    requires Visits(order, subs.Keys) && Visits(order', subs.Keys) && Covers(waits, order, ticks) && Covers(waits', order', ticks)
    requires forall name :: name in subs ==> subs[name].policy != Block
    ensures var (after, err) := PublishTo(subs, order, ticks, waits);
      && err == None
      && after.Keys == subs.Keys
      && (forall name :: name in subs ==> after[name] == DeliverAll(subs[name], ticks, waits[name]).0)
      && PublishTo(subs, order', ticks, waits') == (after, err)
  {
    PublishPointwise(subs, order, ticks, waits);
    PublishPointwise(subs, order', ticks, waits');
    var a, b := PublishTo(subs, order, ticks, waits).0, PublishTo(subs, order', ticks, waits').0;
    forall name | name in subs
      ensures a[name] == b[name]
    {
      UnblockedNeverErrs(subs[name], ticks, waits[name], waits'[name]);
    }
    assert a == b;
  }

  // ---- what each policy keeps -----------------------------------------------------------------

  /** An open subscription without a filter and with room has every published tick at the end of its queue. */
  lemma {:induction false} UnfilteredTakesAll(s: Sub, ticks: seq<Tick>, waits: seq<Wait>)
    requires s.filter == {} && !s.done && s.policy != Coalesce && |waits| == |ticks|
    requires |s.queue| + |ticks| <= s.capacity
    ensures DeliverAll(s, ticks, waits).0.queue == s.queue + ticks && DeliverAll(s, ticks, waits).1 == None
    ensures DeliverAll(s, ticks, waits).0.delivered == s.delivered + |ticks|
    decreases |ticks|
  {
    if ticks != [] {
      var s' := DeliverOne(s, ticks[0], waits[0]).0;
      assert s'.queue == s.queue + [ticks[0]];
      UnfilteredTakesAll(s', ticks[1..], waits[1..]);
      assert ticks == [ticks[0]] + ticks[1..];
    }
  }

  /** A closed subscription, or one that wants none of the batch, is left as it was. */
  lemma {:induction false} NothingForTheClosed(s: Sub, ticks: seq<Tick>, waits: seq<Wait>)
    requires |waits| == |ticks|
    requires s.done || (s.filter != {} && forall t :: t in ticks ==> t.instrument !in s.filter)
    ensures DeliverAll(s, ticks, waits) == (s, None)
    decreases |ticks|
  {
    if ticks != [] {
      NothingForTheClosed(s, ticks[1..], waits[1..]);
    }
  }

  /** The states a subscription goes through during a batch. */
  function Passage(s: Sub, ticks: seq<Tick>, waits: seq<Wait>): seq<Sub>
    requires |waits| == |ticks|
    decreases |ticks|
  {
    if ticks == [] then [s]
    else
      var (mid, err) := DeliverOne(s, ticks[0], waits[0]);
      [s] + if err.Some? then [mid] else Passage(mid, ticks[1..], waits[1..])
  }

  /** m is the largest of the start value and the queue lengths passed through. */
  ghost predicate IsHighest(m: nat, start: nat, through: seq<Sub>) {
    && m >= start && (forall i :: 0 <= i < |through| ==> |through[i].queue| <= m)
    && (m == start || exists i :: 0 <= i < |through| && |through[i].queue| == m)
  }

  /** The high-water mark is the highest the queue has been. */
  lemma {:induction false} HighWaterIsHighest(s: Sub, ticks: seq<Tick>, waits: seq<Wait>)
    requires |waits| == |ticks| && |s.queue| <= s.highWater
    ensures IsHighest(DeliverAll(s, ticks, waits).0.highWater, s.highWater, Passage(s, ticks, waits))
    decreases |ticks|
  {
    if ticks != [] {
      var (mid, err) := DeliverOne(s, ticks[0], waits[0]);
      var rest := if err.Some? then [mid] else Passage(mid, ticks[1..], waits[1..]);
      if err.None? {
        HighWaterIsHighest(mid, ticks[1..], waits[1..]);
        PassageStarts(mid, ticks[1..], waits[1..]);
      }
      HighestFirst(s, mid, rest, DeliverAll(s, ticks, waits).0.highWater);
    }
  }

  lemma PassageStarts(s: Sub, ticks: seq<Tick>, waits: seq<Wait>)
    requires |waits| == |ticks|
    ensures Passage(s, ticks, waits) != [] && Passage(s, ticks, waits)[0] == s
  {
  }

  lemma HighestFirst(s: Sub, mid: Sub, rest: seq<Sub>, m: nat)
    requires |s.queue| <= s.highWater && rest != [] && rest[0] == mid && IsHighest(m, mid.highWater, rest)
    requires mid.highWater == s.highWater || (mid.highWater > s.highWater && mid.highWater == |mid.queue|)
    ensures IsHighest(m, s.highWater, [s] + rest)
  {
    var all := [s] + rest;
    assert forall i :: 0 < i < |all| ==> all[i] == rest[i - 1];
    if m != s.highWater {
      if m == mid.highWater {
        assert |all[1].queue| == m;
      } else {
        var i :| 0 <= i < |rest| && |rest[i].queue| == m;
        assert |all[i + 1].queue| == m;
      }
    }
  }

  /** Of a batch, the subscribers in `served` have had their part and the others nothing. */
  ghost predicate Served(subs: map<string, Sub>, after: map<string, Sub>, served: seq<string>, ticks: seq<Tick>, waits: Waits)
    requires Covers(waits, served, ticks)
  {
    && after.Keys == subs.Keys
    && forall name :: name in subs ==>
         after[name] == if name in served then DeliverAll(subs[name], ticks, waits[name]).0 else subs[name]
  }

  ghost predicate Errs(subs: map<string, Sub>, name: string, ticks: seq<Tick>, waits: Waits) {
    name in subs && name in waits && |waits[name]| == |ticks| && DeliverAll(subs[name], ticks, waits[name]).1.Some?
  }

  lemma ServedHead(subs: map<string, Sub>, after: map<string, Sub>, head: string, rest: seq<string>, ticks: seq<Tick>, waits: Waits)
    requires Covers(waits, [head] + rest, ticks) && head in subs && head !in rest
    requires head in waits && |waits[head]| == |ticks| && Covers(waits, rest, ticks)
    requires Served(subs[head := DeliverAll(subs[head], ticks, waits[head]).0], after, rest, ticks, waits)
    ensures Served(subs, after, [head] + rest, ticks, waits)
  {
    assert subs[head := DeliverAll(subs[head], ticks, waits[head]).0].Keys == subs.Keys;
  }

  /** k is the first in the order that errs. */
  ghost predicate ErrsFirst(subs: map<string, Sub>, order: seq<string>, ticks: seq<Tick>, waits: Waits, k: nat) {
    k < |order| && Errs(subs, order[k], ticks, waits) && forall i :: 0 <= i < k ==> !Errs(subs, order[i], ticks, waits)
  }

  lemma ErrsFirstTail(subs: map<string, Sub>, sub: Sub, order: seq<string>, ticks: seq<Tick>, waits: Waits, h: nat)
    requires order != [] && order[0] !in order[1..] && !Errs(subs, order[0], ticks, waits)
    requires ErrsFirst(subs[order[0] := sub], order[1..], ticks, waits, h)
    ensures ErrsFirst(subs, order, ticks, waits, h + 1)
  {
    forall i | 0 < i < |order|
      ensures Errs(subs, order[i], ticks, waits) == Errs(subs[order[0] := sub], order[1..][i - 1], ticks, waits)
    {
      assert order[i] == order[1..][i - 1] && order[i] in order[1..];
    }
  }

  /** The first error ends the batch: whoever comes before in the order, and the one that errs, have had their part, and
      whoever comes after nothing. */
  lemma {:induction false} PublishStopsAtError(subs: map<string, Sub>, order: seq<string>, ticks: seq<Tick>, waits: Waits) returns (k: nat)
    requires Covers(waits, order, ticks) && (forall name :: name in order ==> name in subs)
    requires (forall i, j :: 0 <= i < j < |order| ==> order[i] != order[j]) && PublishTo(subs, order, ticks, waits).1.Some?
    ensures ErrsFirst(subs, order, ticks, waits, k)
    ensures Served(subs, PublishTo(subs, order, ticks, waits).0, order[..k + 1], ticks, waits)
    decreases |order|
  {
    var head, tail := order[0], order[1..];
    var (sub, err) := DeliverAll(subs[head], ticks, waits[head]);
    if err.Some? {
      k := 0;
      StopsAtHead(subs, order, ticks, waits);
    } else {
      HeadServed(subs, order, ticks, waits);
      var h := PublishStopsAtError(subs[head := sub], tail, ticks, waits);
      ErrsFirstTail(subs, sub, order, ticks, waits, h);
      k := h + 1;
      StopsInTail(subs, order, ticks, waits, h, PublishTo(subs, order, ticks, waits).0);
    }
  }

  lemma StopsAtHead(subs: map<string, Sub>, order: seq<string>, ticks: seq<Tick>, waits: Waits)
    requires Covers(waits, order, ticks) && (forall name :: name in order ==> name in subs)
    requires order != [] && Errs(subs, order[0], ticks, waits)
    ensures Served(subs, PublishTo(subs, order, ticks, waits).0, order[..1], ticks, waits)
  {
    assert order[..1] == [order[0]];
  }

  lemma HeadServed(subs: map<string, Sub>, order: seq<string>, ticks: seq<Tick>, waits: Waits)
    requires Covers(waits, order, ticks) && (forall name :: name in order ==> name in subs)
    requires order != [] && DeliverAll(subs[order[0]], ticks, waits[order[0]]).1.None?
    ensures PublishTo(subs, order, ticks, waits)
         == PublishTo(subs[order[0] := DeliverAll(subs[order[0]], ticks, waits[order[0]]).0], order[1..], ticks, waits)
  {
  }

  lemma StopsInTail(subs: map<string, Sub>, order: seq<string>, ticks: seq<Tick>, waits: Waits, h: nat, after: map<string, Sub>)
    requires Covers(waits, order, ticks) && order != [] && h < |order| - 1 && order[0] in subs && order[0] !in order[1..]
    requires Covers(waits, order[1..][..h + 1], ticks)
    requires Served(subs[order[0] := DeliverAll(subs[order[0]], ticks, waits[order[0]]).0], after, order[1..][..h + 1], ticks, waits)
    ensures Served(subs, after, order[..h + 2], ticks, waits)
  {
    var head, served := order[0], order[1..][..h + 1];
    assert order[..h + 2] == [head] + served;
    assert head !in served;
    ServedHead(subs, after, head, served, ticks, waits);
  }

  function FirstN(s: seq<Tick>, n: nat): seq<Tick> {
    if |s| <= n then s else s[..n]
  }

  /** One arrival at a queue that makes room by dropping its head. */
  function PushOldestOut(q: seq<Tick>, t: Tick, n: Capacity): seq<Tick> {
    if |q| < n then q + [t] else q[1..] + [t]
  }

  lemma PushKeepsNewest(q: seq<Tick>, t: Tick, rest: seq<Tick>, n: Capacity)
    requires |q| <= n
    ensures LastN(PushOldestOut(q, t, n) + rest, n) == LastN(q + ([t] + rest), n)
  {
    assert q + ([t] + rest) == q + [t] + rest;
    if |q| == n {
      assert q[1..] + [t] + rest == (q + [t] + rest)[1..];
    }
  }

  /** A drop-oldest queue ends holding exactly the newest ticks that fit. */
  lemma {:induction false} DropOldestKeepsNewest(s: Sub, ticks: seq<Tick>, waits: seq<Wait>)
    requires s.policy == DropOldest && !s.done && |s.queue| <= s.capacity && |waits| == |ticks|
    ensures DeliverAll(s, ticks, waits).0.queue == LastN(s.queue + Wanted(s.filter, ticks), s.capacity)
    decreases |ticks|
  {
    if ticks == [] {
      assert s.queue + Wanted(s.filter, ticks) == s.queue;
    } else {
      var s' := DeliverOne(s, ticks[0], waits[0]).0;
      DropOldestKeepsNewest(s', ticks[1..], waits[1..]);
      if Passes(s.filter, ticks[0]) {
        assert s'.queue == PushOldestOut(s.queue, ticks[0], s.capacity);
        PushKeepsNewest(s.queue, ticks[0], Wanted(s.filter, ticks[1..]), s.capacity);
      } else {
        assert Wanted(s.filter, ticks) == Wanted(s.filter, ticks[1..]);
      }
    }
  }

  lemma FullKeepsOldest(q: seq<Tick>, t: Tick, rest: seq<Tick>, n: Capacity)
    requires |q| <= n
    ensures FirstN((if |q| < n then q + [t] else q) + rest, n) == FirstN(q + ([t] + rest), n)
  {
    assert q + ([t] + rest) == q + [t] + rest;
  }

  /** A drop-newest queue keeps what it had: exactly the oldest ticks that fit. */
  lemma {:induction false} DropNewestKeepsOldest(s: Sub, ticks: seq<Tick>, waits: seq<Wait>)
    requires s.policy == DropNewest && !s.done && |s.queue| <= s.capacity && |waits| == |ticks|
    ensures DeliverAll(s, ticks, waits).0.queue == FirstN(s.queue + Wanted(s.filter, ticks), s.capacity)
    decreases |ticks|
  {
    if ticks == [] {
      assert s.queue + Wanted(s.filter, ticks) == s.queue;
    } else {
      var s' := DeliverOne(s, ticks[0], waits[0]).0;
      DropNewestKeepsOldest(s', ticks[1..], waits[1..]);
      if Passes(s.filter, ticks[0]) {
        FullKeepsOldest(s.queue, ticks[0], Wanted(s.filter, ticks[1..]), s.capacity);
      } else {
        assert Wanted(s.filter, ticks) == Wanted(s.filter, ticks[1..]);
      }
    }
  }

  /** p holds i's last tick of `mine`, or what `was` held when there is none. */
  ghost predicate Latest(p: map<InstrumentID, Tick>, was: map<InstrumentID, Tick>, mine: seq<Tick>, i: InstrumentID) {
    if mine == [] then (i in p <==> i in was) && (i in p ==> p[i] == was[i])
    else i in p && p[i] == mine[|mine| - 1]
  }

  lemma LatestAfterInsert(p: map<InstrumentID, Tick>, was: map<InstrumentID, Tick>, t: Tick, rest: seq<Tick>, i: InstrumentID)
    requires Latest(p, was[t.instrument := t], OnInstrument(rest, i), i)
    ensures Latest(p, was, OnInstrument([t] + rest, i), i)
  {
    OnInstrumentConcat([t], rest, i);
    OnInstrumentSnoc([], t, i);
    assert [] + [t] == [t];
  }

  /** Coalescing leaves the last wanted tick of each instrument pending. */
  lemma {:induction false} CoalesceKeepsLatest(s: Sub, ticks: seq<Tick>, waits: seq<Wait>, i: InstrumentID)
    requires s.policy == Coalesce && !s.done && |waits| == |ticks|
    ensures Latest(DeliverAll(s, ticks, waits).0.pending, s.pending, OnInstrument(Wanted(s.filter, ticks), i), i)
    decreases |ticks|
  {
    if ticks != [] {
      var s' := DeliverOne(s, ticks[0], waits[0]).0;
      CoalesceKeepsLatest(s', ticks[1..], waits[1..], i);
      if Passes(s.filter, ticks[0]) {
        LatestAfterInsert(DeliverAll(s, ticks, waits).0.pending, s.pending, ticks[0], Wanted(s.filter, ticks[1..]), i);
      } else {
        assert Wanted(s.filter, ticks) == Wanted(s.filter, ticks[1..]);
      }
    }
  }
}

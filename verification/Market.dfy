/** Ticks (internal/model/tick.go) and what it means for one stream of ticks to preserve another's order. */
module Market {
  import opened Decimal

  type VenueID = string
  type InstrumentID = string

  datatype Side = SideUnknown | SideBuy | SideSell

  /** One trade, normalized. Times are nanoseconds; number is the Seq assigned at ingest, 0 until then. */
  datatype Tick = Tick(
    venue: VenueID,
    instrument: InstrumentID,
    number: nat,
    eventTime: int,
    recvTime: int,
    price: Decimal,
    quantity: Decimal,
    side: Side,
    tradeId: string)

  datatype Key = Key(venue: VenueID, instrument: InstrumentID)

  function KeyOf(t: Tick): Key {
    Key(t.venue, t.instrument)
  }

  /** The ticks of one instrument, in order. */
  function OnInstrument(s: seq<Tick>, i: InstrumentID): seq<Tick> {
    if s == [] then []
    else
      var rest := OnInstrument(s[..|s| - 1], i);
      if s[|s| - 1].instrument == i then rest + [s[|s| - 1]] else rest
  }

  /** The ticks of one (venue, instrument), in order. */
  function OnKey(s: seq<Tick>, k: Key): seq<Tick> {
    if s == [] then []
    else
      var rest := OnKey(s[..|s| - 1], k);
      if KeyOf(s[|s| - 1]) == k then rest + [s[|s| - 1]] else rest
  }

  lemma OnInstrumentSnoc(s: seq<Tick>, t: Tick, i: InstrumentID)
    ensures OnInstrument(s + [t], i) == if t.instrument == i then OnInstrument(s, i) + [t] else OnInstrument(s, i)
  {
    assert (s + [t])[..|s|] == s;
  }

  lemma OnKeySnoc(s: seq<Tick>, t: Tick, k: Key)
    ensures OnKey(s + [t], k) == if KeyOf(t) == k then OnKey(s, k) + [t] else OnKey(s, k)
  {
    assert (s + [t])[..|s|] == s;
  }

  lemma {:induction false} OnKeyOfInstrument(s: seq<Tick>, k: Key)
    ensures OnKey(OnInstrument(s, k.instrument), k) == OnKey(s, k)
  {
    if s != [] {
      var t := s[|s| - 1];
      OnKeyOfInstrument(s[..|s| - 1], k);
      OnKeySnoc(OnInstrument(s[..|s| - 1], k.instrument), t, k);
    }
  }

  lemma {:induction false} OnInstrumentConcat(a: seq<Tick>, b: seq<Tick>, i: InstrumentID)
    ensures OnInstrument(a + b, i) == OnInstrument(a, i) + OnInstrument(b, i)
  {
    if b == [] {
      assert a + b == a;
    } else {
      var b', t := b[..|b| - 1], b[|b| - 1];
      OnInstrumentConcat(a, b', i);
      assert a + b == (a + b') + [t];
      OnInstrumentSnoc(a + b', t, i);
      assert OnInstrument(b, i) == OnInstrument(b', i) + (if t.instrument == i then [t] else []);
    }
  }

  // ---- order-preserving thinning --------------------------------------------------------------

  /** a is b with some elements left out: nothing new, nothing twice, nothing out of order. */
  ghost predicate Subseq<T>(a: seq<T>, b: seq<T>)
    decreases |b|
  {
    || a == []
    || (b != [] && ((a[|a| - 1] == b[|b| - 1] && Subseq(a[..|a| - 1], b[..|b| - 1])) || Subseq(a, b[..|b| - 1])))
  }

  lemma SubseqSkip<T>(a: seq<T>, b: seq<T>, x: T)
    requires Subseq(a, b)
    ensures Subseq(a, b + [x])
  {
    assert (b + [x])[..|b|] == b;
  }

  lemma SubseqSnoc<T>(a: seq<T>, b: seq<T>, x: T)
    requires Subseq(a, b)
    ensures Subseq(a + [x], b + [x])
  {
    assert (b + [x])[..|b|] == b;
    assert (a + [x])[..|a|] == a;
  }

  lemma {:induction false} SubseqReflexive<T>(a: seq<T>)
    ensures Subseq(a, a)
  {
    if a != [] {
      SubseqReflexive(a[..|a| - 1]);
    }
  }

  lemma {:induction false} SubseqInit<T>(a: seq<T>, b: seq<T>)
    requires a != [] && Subseq(a, b)
    ensures b != [] && Subseq(a[..|a| - 1], b[..|b| - 1])
    decreases |b|
  {
    if Subseq(a, b[..|b| - 1]) {
      SubseqInit(a, b[..|b| - 1]);
      SubseqSkip(a[..|a| - 1], b[..|b| - 1][..|b| - 2], b[|b| - 2]);
      assert b[..|b| - 1][..|b| - 2] + [b[|b| - 2]] == b[..|b| - 1];
    }
  }

  lemma {:induction false} SubseqTransitive<T>(a: seq<T>, b: seq<T>, c: seq<T>)
    requires Subseq(a, b) && Subseq(b, c)
    ensures Subseq(a, c)
    decreases |c|
  {
    if a != [] && b != [] {
      var c' := c[..|c| - 1];
      if Subseq(b, c') {
        SubseqTransitive(a, b, c');
      } else if Subseq(a, b[..|b| - 1]) {
        SubseqTransitive(a, b[..|b| - 1], c');
      } else {
        SubseqTransitive(a[..|a| - 1], b[..|b| - 1], c');
      }
    }
  }

  lemma {:induction false} PrefixIsSubseq<T>(a: seq<T>, b: seq<T>)
    ensures Subseq(a, a + b)
  {
    if b == [] {
      assert a + b == a;
      SubseqReflexive(a);
    } else {
      PrefixIsSubseq(a, b[..|b| - 1]);
      SubseqSkip(a, a + b[..|b| - 1], b[|b| - 1]);
      assert a + b[..|b| - 1] + [b[|b| - 1]] == a + b;
    }
  }

  lemma {:induction false} SuffixIsSubseq<T>(a: seq<T>, b: seq<T>)
    ensures Subseq(b, a + b)
  {
    if b != [] {
      SuffixIsSubseq(a, b[..|b| - 1]);
      SubseqSnoc(b[..|b| - 1], a + b[..|b| - 1], b[|b| - 1]);
      assert a + b[..|b| - 1] + [b[|b| - 1]] == a + b && b[..|b| - 1] + [b[|b| - 1]] == b;
    }
  }

  lemma {:induction false} SubseqOnKey(a: seq<Tick>, b: seq<Tick>, k: Key)
    requires Subseq(a, b)
    ensures Subseq(OnKey(a, k), OnKey(b, k))
    decreases |b|
  {
    if a != [] {
      var b', t := b[..|b| - 1], b[|b| - 1];
      if Subseq(a, b') {
        SubseqOnKey(a, b', k);
        if KeyOf(t) == k {
          SubseqSkip(OnKey(a, k), OnKey(b', k), t);
        }
      } else {
        SubseqOnKey(a[..|a| - 1], b', k);
        if KeyOf(t) == k {
          SubseqSnoc(OnKey(a[..|a| - 1], k), OnKey(b', k), t);
        }
      }
    }
  }

  lemma {:induction false} SubseqCons<T>(x: T, a: seq<T>, b: seq<T>)
    requires Subseq(a, b)
    ensures Subseq([x] + a, [x] + b)
    decreases |b|
  {
    if a == [] {
      assert [x] + a == [x];
      PrefixIsSubseq([x], b);
    } else {
      var a', b' := a[..|a| - 1], b[..|b| - 1];
      assert [x] + b == [x] + b' + [b[|b| - 1]] && [x] + a == [x] + a' + [a[|a| - 1]];
      if Subseq(a, b') {
        SubseqCons(x, a, b');
        SubseqSkip([x] + a, [x] + b', b[|b| - 1]);
      } else {
        SubseqCons(x, a', b');
        SubseqSnoc([x] + a', [x] + b', b[|b| - 1]);
      }
    }
  }

  /** The newest n elements. */
  function LastN<T>(s: seq<T>, n: nat): seq<T> {
    if |s| <= n then s else s[|s| - n..]
  }

  lemma {:induction false} SubsetSize<T>(a: set<T>, b: set<T>)
    requires a <= b
    ensures |a| <= |b|
  {
    if a != {} {
      var x :| x in a;
      SubsetSize(a - {x}, b - {x});
    }
  }

  // ---- instrument filters ----------------------------------------------------------------------

  /** A subscription without a filter takes everything. */
  predicate Passes(filter: set<InstrumentID>, t: Tick) {
    filter == {} || t.instrument in filter
  }

  /** The ticks a filter lets through. */
  function Wanted(filter: set<InstrumentID>, ticks: seq<Tick>): seq<Tick> {
    if ticks == [] then []
    else (if Passes(filter, ticks[0]) then [ticks[0]] else []) + Wanted(filter, ticks[1..])
  }

  /** Without a filter everything is wanted. */
  lemma {:induction false} UnfilteredWantsAll(filter: set<InstrumentID>, ticks: seq<Tick>)
    requires filter == {}
    ensures Wanted(filter, ticks) == ticks
  {
    if ticks != [] {
      UnfilteredWantsAll(filter, ticks[1..]);
      assert ticks == [ticks[0]] + ticks[1..];
    }
  }

  /** With one, exactly the ticks of its instruments are, as often as they come. */
  lemma {:induction false} FilteredWantsMembers(filter: set<InstrumentID>, ticks: seq<Tick>, t: Tick)
    requires filter != {}
    ensures multiset(Wanted(filter, ticks))[t] == if t.instrument in filter then multiset(ticks)[t] else 0
  {
    if ticks != [] {
      FilteredWantsMembers(filter, ticks[1..], t);
      assert ticks == [ticks[0]] + ticks[1..];
    }
  }

  lemma {:induction false} WantedIsThinned(filter: set<InstrumentID>, ticks: seq<Tick>)
    ensures Subseq(Wanted(filter, ticks), ticks)
  {
    if ticks != [] {
      var head, rest := ticks[0], ticks[1..];
      WantedIsThinned(filter, rest);
      assert ticks == [head] + rest;
      if Passes(filter, head) {
        SubseqCons(head, Wanted(filter, rest), rest);
      } else {
        SuffixIsSubseq([head], rest);
        assert Wanted(filter, ticks) == Wanted(filter, rest);
        SubseqTransitive(Wanted(filter, rest), rest, ticks);
      }
    }
  }

  ghost predicate IncreasingSeq(s: seq<Tick>) {
    forall i, j :: 0 <= i < j < |s| ==> s[i].number < s[j].number
  }

  lemma {:induction false} SubseqMember<T>(a: seq<T>, b: seq<T>, i: nat) returns (j: nat)
    requires Subseq(a, b) && i < |a|
    ensures j < |b| && b[j] == a[i]
    decreases |b|
  {
    var b' := b[..|b| - 1];
    if Subseq(a, b') {
      j := SubseqMember(a, b', i);
    } else if i == |a| - 1 {
      j := |b| - 1;
    } else {
      j := SubseqMember(a[..|a| - 1], b', i);
    }
  }

  /** Thinning keeps sequence numbers strictly increasing. */
  lemma {:induction false} SubseqIncreasing(a: seq<Tick>, b: seq<Tick>)
    requires Subseq(a, b) && IncreasingSeq(b)
    ensures IncreasingSeq(a)
    decreases |b|
  {
    if a != [] {
      var b' := b[..|b| - 1];
      if Subseq(a, b') {
        SubseqIncreasing(a, b');
      } else {
        var a' := a[..|a| - 1];
        SubseqIncreasing(a', b');
        forall i | 0 <= i < |a'|
          ensures a[i].number < a[|a| - 1].number
        {
          var j := SubseqMember(a', b', i);
          assert b[j] == a[i];
        }
      }
    }
  }
}

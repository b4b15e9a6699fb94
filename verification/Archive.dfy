/** The tick archive as a keyed table (internal/store/sqlite/sqlite.go): insert-or-ignore appends, one
    transaction per batch. */
module Archive {
  import opened Decimal
  import opened Market

  /** PRIMARY KEY (venue, instrument, venue_trade_id). */
  datatype RowKey = RowKey(venue: VenueID, instrument: InstrumentID, tradeId: string)

  function RowKeyOf(t: Tick): RowKey {
    RowKey(t.venue, t.instrument, t.tradeId)
  }

  type Table = map<RowKey, Tick>

  /** Each row sits under its own key. */
  ghost predicate WellKeyed(table: Table) {
    forall k :: k in table ==> RowKeyOf(table[k]) == k
  }

  /** INSERT ... ON CONFLICT DO NOTHING. */
  function Insert(table: Table, t: Tick): Table {
    if RowKeyOf(t) in table then table else table[RowKeyOf(t) := t]
  }

  /** One insert after another. */
  function InsertAll(table: Table, ticks: seq<Tick>): Table {
    if ticks == [] then table else Insert(InsertAll(table, ticks[..|ticks| - 1]), ticks[|ticks| - 1])
  }

  class DB {
    var table: Table

    constructor ()
      ensures table == map[]
    {
      table := map[];
    }

    /** One transaction. `failure` is where the database fails, if it does: before inserting that tick, or at
        commit when it is the batch's length. A failed batch leaves no trace. */
    method Append(ticks: seq<Tick>, failure: Option<nat>) returns (stored: nat, ok: bool)
      modifies this
      ensures ok <==> failure.None? || ticks == [] || failure.value > |ticks|
      ensures ok ==> table == InsertAll(old(table), ticks) && |table| == |old(table)| + stored
      ensures !ok ==> table == old(table)
    {
      if |ticks| == 0 {
        return 0, true;
      }
      var tx := table;
      stored := 0;
      var i := 0;
      while i < |ticks|
        invariant 0 <= i <= |ticks|
        invariant failure.Some? ==> failure.value >= i
        invariant tx == InsertAll(table, ticks[..i])
        invariant |tx| == |table| + stored
        invariant table == old(table)
      {
        if failure == Some(i) {
          return stored, false;
        }
        var t := ticks[i];
        assert ticks[..i + 1][..i] == ticks[..i];
        if RowKeyOf(t) !in tx {
          stored := stored + 1;
        }
        InsertSize(tx, t);
        tx := Insert(tx, t);
        i := i + 1;
      }
      if failure == Some(|ticks|) {
        return 0, false;
      }
      assert ticks[..|ticks|] == ticks;
      table := tx;
      ok := true;
    }
  }

  lemma InsertSize(table: Table, t: Tick)
    ensures |Insert(table, t)| == |table| + if RowKeyOf(t) in table then 0 else 1
  {
    assert table[RowKeyOf(t) := t].Keys == table.Keys + {RowKeyOf(t)};
  }

  // ---- what the fold means --------------------------------------------------------------------

  /** Some tick carries the key. */
  ghost predicate Mentions(ticks: seq<Tick>, k: RowKey) {
    exists t :: t in ticks && RowKeyOf(t) == k
  }

  /** The first tick carrying the key. */
  ghost function First(ticks: seq<Tick>, k: RowKey): Tick
    requires Mentions(ticks, k)
  {
    if RowKeyOf(ticks[0]) == k then ticks[0] else Laters(ticks, k); First(ticks[1..], k)
  }

  lemma Laters(ticks: seq<Tick>, k: RowKey)
    requires Mentions(ticks, k) && RowKeyOf(ticks[0]) != k
    ensures Mentions(ticks[1..], k)
  {
    var t :| t in ticks && RowKeyOf(t) == k;
    assert t in ticks[1..];
  }

  lemma {:induction false} FirstOfPrefix(ticks: seq<Tick>, t: Tick, k: RowKey)
    ensures Mentions(ticks + [t], k) <==> Mentions(ticks, k) || RowKeyOf(t) == k
    ensures Mentions(ticks, k) ==> First(ticks + [t], k) == First(ticks, k)
    ensures !Mentions(ticks, k) && RowKeyOf(t) == k ==> First(ticks + [t], k) == t
  {
    var all := ticks + [t];
    if ticks == [] {
      assert all == [t];
    } else {
      var head := ticks[0];
      FirstOfPrefix(ticks[1..], t, k);
      assert all[1..] == ticks[1..] + [t] && all[0] == head;
      assert forall x :: x in all <==> x in ticks || x == t;
      assert t in all;
      assert head in ticks;
      if Mentions(ticks, k) && RowKeyOf(head) != k {
        Laters(ticks, k);
      }
    }
  }

  /** First write wins: an existing row is never touched, and a new key gets its first tick. */
  lemma {:induction false} FirstWriteWins(table: Table, ticks: seq<Tick>, k: RowKey)
    ensures k in InsertAll(table, ticks) <==> k in table || Mentions(ticks, k)
    ensures k in table ==> InsertAll(table, ticks)[k] == table[k]
    ensures k !in table && Mentions(ticks, k) ==> InsertAll(table, ticks)[k] == First(ticks, k)
  {
    if ticks != [] {
      var n := |ticks| - 1;
      FirstWriteWins(table, ticks[..n], k);
      FirstOfPrefix(ticks[..n], ticks[n], k);
      assert ticks == ticks[..n] + [ticks[n]];
    }
  }

  lemma {:induction false} InsertConcat(table: Table, a: seq<Tick>, b: seq<Tick>)
    ensures InsertAll(table, a + b) == InsertAll(InsertAll(table, a), b)
  {
    if b == [] {
      assert a + b == a;
    } else {
      var n := |b| - 1;
      InsertConcat(table, a, b[..n]);
      assert (a + b)[..|a + b| - 1] == a + b[..n];
    }
  }

  /** Rows already present make a batch a no-op. */
  lemma {:induction false} InsertKnown(table: Table, ticks: seq<Tick>)
    requires forall i :: 0 <= i < |ticks| ==> RowKeyOf(ticks[i]) in table
    ensures InsertAll(table, ticks) == table
  {
    if ticks != [] {
      InsertKnown(table, ticks[..|ticks| - 1]);
    }
  }

  /** Replaying any stretch of what was appended stores nothing, whatever came after it. */
  lemma ReplayStoresNothing(table: Table, before: seq<Tick>, batch: seq<Tick>, after: seq<Tick>)
    ensures var t := InsertAll(table, before + batch + after); InsertAll(t, batch) == t
  {
    var all := before + batch + after;
    forall i | 0 <= i < |batch|
      ensures RowKeyOf(batch[i]) in InsertAll(table, all)
    {
      FirstWriteWins(table, all, RowKeyOf(batch[i]));
      assert all[|before| + i] == batch[i];
      assert batch[i] in all;
    }
    InsertKnown(InsertAll(table, all), batch);
  }

  lemma {:induction false} InsertKeepsKeys(table: Table, ticks: seq<Tick>)
    requires WellKeyed(table)
    ensures WellKeyed(InsertAll(table, ticks))
  {
    if ticks != [] {
      InsertKeepsKeys(table, ticks[..|ticks| - 1]);
    }
  }

  lemma {:induction false} InsertGrows(table: Table, ticks: seq<Tick>)
    ensures |table| <= |InsertAll(table, ticks)| <= |table| + |ticks|
  {
    if ticks != [] {
      InsertGrows(table, ticks[..|ticks| - 1]);
      InsertSize(InsertAll(table, ticks[..|ticks| - 1]), ticks[|ticks| - 1]);
    }
  }

  // ---- on the fields --------------------------------------------------------------------------

  /** One venue's trade. */
  predicate SameTrade(t: Tick, u: Tick) {
    t.venue == u.venue && t.instrument == u.instrument && t.tradeId == u.tradeId
  }

  /** t is the j-th tick and the first of its trade. */
  ghost predicate FirstAt(ticks: seq<Tick>, j: nat, t: Tick) {
    j < |ticks| && ticks[j] == t && forall i :: 0 <= i < j ==> !SameTrade(ticks[i], t)
  }

  ghost predicate IsFirst(ticks: seq<Tick>, t: Tick) {
    exists j :: FirstAt(ticks, j, t)
  }

  lemma FirstSnoc(ticks: seq<Tick>, x: Tick, t: Tick)
    ensures IsFirst(ticks + [x], t) <==> IsFirst(ticks, t) || (x == t && forall u :: u in ticks ==> !SameTrade(u, t))
  {
    if j: nat :| FirstAt(ticks, j, t) {
      assert FirstAt(ticks + [x], j, t);
    }
    if j: nat :| FirstAt(ticks + [x], j, t) {
      if j < |ticks| {
        assert forall i :: 0 <= i < j ==> (ticks + [x])[i] == ticks[i];
        assert FirstAt(ticks, j, t);
      } else {
        assert forall i :: 0 <= i < j ==> (ticks + [x])[i] == ticks[i];
      }
    }
    if x == t && forall u :: u in ticks ==> !SameTrade(u, t) {
      assert FirstAt(ticks + [x], |ticks|, t);
    }
  }

  lemma KnownIffSeen(ticks: seq<Tick>, x: Tick)
    ensures RowKeyOf(x) in InsertAll(map[], ticks) <==> exists u :: u in ticks && SameTrade(u, x)
  {
    FirstWriteWins(map[], ticks, RowKeyOf(x));
    if u :| u in ticks && SameTrade(u, x) {
      assert RowKeyOf(u) == RowKeyOf(x);
    }
    if u :| u in ticks && RowKeyOf(u) == RowKeyOf(x) {
      assert SameTrade(u, x);
    }
  }

  lemma NewRow(table: Table, x: Tick, t: Tick)
    requires RowKeyOf(x) !in table
    ensures t in Insert(table, x).Values <==> t in table.Values || t == x
  {
    var after := Insert(table, x);
    if t in table.Values {
      var k :| k in table && table[k] == t;
      assert after[k] == t;
    }
    assert after[RowKeyOf(x)] == x;
  }

  /** The archive of a stream holds the first tick of each trade, and nothing else. */
  lemma {:induction false} FirstOfEachTrade(ticks: seq<Tick>, t: Tick)
    ensures t in InsertAll(map[], ticks).Values <==> IsFirst(ticks, t)
  {
    if ticks != [] {
      var n := |ticks| - 1;
      FirstOfEachTrade(ticks[..n], t);
      FirstSnoc(ticks[..n], ticks[n], t);
      KnownIffSeen(ticks[..n], ticks[n]);
      assert ticks == ticks[..n] + [ticks[n]];
      if RowKeyOf(ticks[n]) !in InsertAll(map[], ticks[..n]) {
        NewRow(InsertAll(map[], ticks[..n]), ticks[n], t);
      }
    }
  }
}

/** Keyset paging over the archive (internal/store/sqlite/sqlite.go, internal/store/store.go), in either direction, while
    rows come and go between pages. Rows that share a position come in any order. */
module Paging {
  import opened Decimal
  import opened Market
  import opened Archive

  const DEFAULT_LIMIT := 1000
  const MAX_LIMIT := 50000

  function NormalizeLimit(n: int): (limit: nat)
    ensures 0 < limit <= MAX_LIMIT
    ensures 0 < n <= MAX_LIMIT ==> limit == n
    ensures n > MAX_LIMIT ==> limit == MAX_LIMIT
    ensures n <= 0 ==> limit == 1000
  {
    if n <= 0 then DEFAULT_LIMIT else if n > MAX_LIMIT then MAX_LIMIT else n
  }

  datatype Cursor = Cursor(time: int, tradeId: string)

  const NO_CURSOR := Cursor(0, "")

  /** An empty venue or instrument selects every one. */
  datatype Query = Query(
    venue: VenueID,
    instrument: InstrumentID,
    start: Option<int>,    // inclusive, by event time
    end: Option<int>,      // exclusive
    limit: int,
    descending: bool)

  datatype Page = Page(ticks: seq<Tick>, next: Cursor, hasMore: bool)

  // ---- the order of (event_ts_ns, venue_trade_id) ----------------------------------------------

  predicate TextLess(a: string, b: string) {
    b != "" && (a == "" || a[0] < b[0] || (a[0] == b[0] && TextLess(a[1..], b[1..])))
  }

  predicate Before(a: Cursor, b: Cursor) {
    a.time < b.time || (a.time == b.time && TextLess(a.tradeId, b.tradeId))
  }

  /** b comes after a in the direction of the scan. */
  predicate Follows(descending: bool, a: Cursor, b: Cursor) {
    if descending then Before(b, a) else Before(a, b)
  }

  lemma {:induction false} TextTotal(a: string, b: string)
    ensures !TextLess(a, a)
    ensures a == b || TextLess(a, b) || TextLess(b, a)
    ensures !(TextLess(a, b) && TextLess(b, a))
  {
    if a != "" {
      TextTotal(a[1..], if b != "" then b[1..] else "");
    }
  }

  lemma {:induction false} TextTransitive(a: string, b: string, c: string)
    requires TextLess(a, b) && TextLess(b, c)
    ensures TextLess(a, c)
  {
    if a != "" && a[0] == b[0] == c[0] {
      TextTransitive(a[1..], b[1..], c[1..]);
    }
  }

  lemma FollowsTotal(d: bool, a: Cursor, b: Cursor)
    ensures !Follows(d, a, a)
    ensures a == b || Follows(d, a, b) || Follows(d, b, a)
    ensures !(Follows(d, a, b) && Follows(d, b, a))
  {
    TextTotal(a.tradeId, b.tradeId);
  }

  lemma FollowsTransitive(d: bool, a: Cursor, b: Cursor, c: Cursor)
    requires Follows(d, a, b) && Follows(d, b, c)
    ensures Follows(d, a, c)
  {
    if a.time == b.time == c.time {
      if d {
        TextTransitive(c.tradeId, b.tradeId, a.tradeId);
      } else {
        TextTransitive(a.tradeId, b.tradeId, c.tradeId);
      }
    }
  }

  function At(t: Tick): Cursor {
    Cursor(t.eventTime, t.tradeId)
  }

  /** a and b may come in this order. */
  predicate NotAfter(d: bool, a: Cursor, b: Cursor) {
    !Follows(d, b, a)
  }

  lemma NotAfterTransitive(d: bool, a: Cursor, b: Cursor, c: Cursor)
    requires NotAfter(d, a, b) && NotAfter(d, b, c)
    ensures NotAfter(d, a, c)
  {
    FollowsTotal(d, a, b);
    FollowsTotal(d, b, c);
    FollowsTotal(d, a, c);
    if Follows(d, a, b) && Follows(d, b, c) {
      FollowsTransitive(d, a, b, c);
    }
  }

  lemma MixedTransitive(d: bool, a: Cursor, b: Cursor, c: Cursor)
    requires NotAfter(d, a, b) && Follows(d, b, c)
    ensures Follows(d, a, c)
  {
    FollowsTotal(d, a, b);
    if a != b {
      FollowsTransitive(d, a, b, c);
    }
  }

  // ---- the query: filter, sort, take -----------------------------------------------------------

  predicate Selected(t: Tick, q: Query, c: Cursor) {
    && (q.venue != "" ==> t.venue == q.venue)
    && (q.instrument != "" ==> t.instrument == q.instrument)
    && (q.start.Some? ==> t.eventTime >= q.start.value)
    && (q.end.Some? ==> t.eventTime < q.end.value)
    && (c != NO_CURSOR ==> Follows(q.descending, c, At(t)))
  }

  function Matching(table: Table, q: Query, c: Cursor): set<Tick> {
    set k | k in table && Selected(table[k], q, c) :: table[k]
  }

  /** No two rows share a position. */
  ghost predicate TieFree(rows: set<Tick>) {
    forall x, y :: x in rows && y in rows && At(x) == At(y) ==> x == y
  }

  /** One venue and one instrument. */
  predicate Named(q: Query) {
    q.venue != "" && q.instrument != ""
  }

  lemma NamedIsTieFree(table: Table, q: Query, c: Cursor)
    requires WellKeyed(table) && Named(q)
    ensures TieFree(Matching(table, q, c))
  {
    forall x, y | x in Matching(table, q, c) && y in Matching(table, q, c) && At(x) == At(y)
      ensures x == y
    {
      assert RowKeyOf(x) == RowKeyOf(y);
    }
  }

  predicate IsLeast(d: bool, rows: set<Tick>, m: Tick) {
    m in rows && forall t :: t in rows ==> NotAfter(d, At(m), At(t))
  }

  lemma {:induction false} LeastExists(d: bool, rows: set<Tick>) returns (m: Tick)
    requires rows != {}
    ensures IsLeast(d, rows, m)
  {
    var x :| x in rows;
    FollowsTotal(d, At(x), At(x));
    if rows == {x} {
      m := x;
    } else {
      var rest := rows - {x};
      assert rows == rest + {x};
      m := LeastExists(d, rest);
      if Follows(d, At(x), At(m)) {
        FollowsTotal(d, At(x), At(m));
        forall t | t in rest
          ensures NotAfter(d, At(x), At(t))
        {
          NotAfterTransitive(d, At(x), At(m), At(t));
        }
        m := x;
      }
    }
  }

  ghost predicate Weakly(d: bool, s: seq<Tick>) {
    forall i, j :: 0 <= i < j < |s| ==> NotAfter(d, At(s[i]), At(s[j]))
  }

  /** s holds each of the rows once. */
  ghost predicate Holds(s: seq<Tick>, rows: set<Tick>) {
    && (forall t :: t in s <==> t in rows)
    && (forall i, j :: 0 <= i < j < |s| ==> s[i] != s[j])
  }

  /** One outcome of ORDER BY event_ts_ns, venue_trade_id: ties are in any order. */
  ghost predicate IsSorting(d: bool, rows: set<Tick>, s: seq<Tick>) {
    Holds(s, rows) && Weakly(d, s)
  }

  lemma {:induction false} SortingExists(d: bool, rows: set<Tick>) returns (s: seq<Tick>)
    ensures IsSorting(d, rows, s)
    decreases |rows|
  {
    if rows == {} {
      s := [];
    } else {
      var m := LeastExists(d, rows);
      var rest := SortingExists(d, rows - {m});
      s := [m] + rest;
    }
  }

  /** limit + 1 rows are fetched to learn whether another page exists. */
  function Cut(rows: seq<Tick>, limit: nat): Page
    requires limit > 0
  {
    if |rows| > limit then Page(rows[..limit], At(rows[limit - 1]), true) else Page(rows, NO_CURSOR, false)
  }

  ghost predicate PageFrom(p: Page, table: Table, q: Query, c: Cursor, rows: seq<Tick>) {
    IsSorting(q.descending, Matching(table, q, c), rows) && p == Cut(rows, NormalizeLimit(q.limit))
  }

  /** A page the query may return. */
  ghost predicate IsPage(p: Page, table: Table, q: Query, c: Cursor) {
    exists rows :: PageFrom(p, table, q, c, rows)
  }

  lemma CutOfPrefix(rows: seq<Tick>, rest: seq<Tick>, limit: nat)
    requires limit > 0 && (|rows| > limit || rest == [])
    ensures Cut(rows + rest, limit) == Cut(rows, limit)
  {
    if rest == [] {
      assert rows + rest == rows;
    } else {
      assert (rows + rest)[..limit] == rows[..limit];
    }
  }

  /** Everything in rows may come before everything in left. */
  ghost predicate Ahead(d: bool, rows: seq<Tick>, left: set<Tick>) {
    forall i, t :: 0 <= i < |rows| && t in left ==> NotAfter(d, At(rows[i]), At(t))
  }

  lemma JoinSorting(d: bool, all: set<Tick>, rows: seq<Tick>, left: set<Tick>, rest: seq<Tick>)
    requires left <= all && IsSorting(d, all - left, rows) && IsSorting(d, left, rest) && Ahead(d, rows, left)
    ensures IsSorting(d, all, rows + rest)
  {
    var s := rows + rest;
    forall i, j | 0 <= i < j < |s|
      ensures s[i] != s[j] && NotAfter(d, At(s[i]), At(s[j]))
    {
      if i < |rows| <= j {
        assert rows[i] in rows && rest[j - |rows|] in rest;
      }
    }
  }

  /** Rows come out in order, ties in any order, until `most` have been scanned. */
  method ScanRows(d: bool, all: set<Tick>, most: nat) returns (rows: seq<Tick>, ghost rest: seq<Tick>)
    ensures IsSorting(d, all, rows + rest) && (|rows| == most || rest == [])
  {
    rows := [];
    var left := all;
    while left != {} && |rows| < most
      invariant left <= all && |rows| <= most
      invariant IsSorting(d, all - left, rows) && Ahead(d, rows, left)
      decreases |left|
    {
      ghost var w := LeastExists(d, left);
      var next :| next in left && IsLeast(d, left, next);
      TakeNext(d, all, rows, left, next);
      rows := rows + [next];
      left := left - {next};
    }
    rest := SortingExists(d, left);
    NothingHeld(rest, left);
    JoinSorting(d, all, rows, left, rest);
  }

  lemma NothingHeld(s: seq<Tick>, rows: set<Tick>)
    requires Holds(s, rows)
    ensures rows == {} ==> s == []
  {
    assert s == [] || s[0] in s;
  }

  lemma TakeNext(d: bool, all: set<Tick>, rows: seq<Tick>, left: set<Tick>, next: Tick)
    requires left <= all && IsSorting(d, all - left, rows) && Ahead(d, rows, left) && IsLeast(d, left, next)
    ensures IsSorting(d, all - (left - {next}), rows + [next]) && Ahead(d, rows + [next], left - {next})
  {
    assert all - (left - {next}) == (all - left) + {next};
  }

  /** The query as the source runs it. */
  method Ticks(table: Table, q: Query, c: Cursor) returns (page: Page)
    ensures IsPage(page, table, q, c)
  {
    var limit := NormalizeLimit(q.limit);
    ghost var rest;
    var rows;
    rows, rest := ScanRows(q.descending, Matching(table, q, c), limit + 1);
    CutOfPrefix(rows, rest, limit);
    page := Page(rows, NO_CURSOR, false);
    if |page.ticks| > limit {
      page := Page(page.ticks[..limit], At(page.ticks[limit - 1]), true);
    }
    assert PageFrom(page, table, q, c, rows + rest);
  }

  // ---- one page --------------------------------------------------------------------------------

  ghost predicate NoRepeats(s: seq<Tick>) {
    forall i, j :: 0 <= i < j < |s| ==> s[i] != s[j]
  }

  /** What a page leaves out lies beyond its cursor, or ties with it. */
  ghost predicate Covers(d: bool, p: Page, all: set<Tick>) {
    forall t :: t in all && t !in p.ticks ==> p.hasMore && NotAfter(d, p.next, At(t))
  }

  lemma CutFacts(d: bool, all: set<Tick>, rows: seq<Tick>, limit: nat)
    requires limit > 0 && IsSorting(d, all, rows)
    ensures var p := Cut(rows, limit);
      && Weakly(d, p.ticks) && NoRepeats(p.ticks) && |p.ticks| <= limit
      && (forall t :: t in p.ticks ==> t in all)
      && (p.hasMore ==> p.ticks != [] && p.next == At(p.ticks[|p.ticks| - 1]))
      && Covers(d, p, all)
  {
    if |rows| > limit {
      assert rows == rows[..limit] + rows[limit..];
      forall t | t in rows[limit..]
        ensures NotAfter(d, At(rows[limit - 1]), At(t))
      {
        var i :| 0 <= i < |rows[limit..]| && rows[limit..][i] == t;
        assert rows[limit + i] == t;
      }
    }
  }

  lemma PageFacts(p: Page, table: Table, q: Query, c: Cursor)
    requires IsPage(p, table, q, c)
    ensures Weakly(q.descending, p.ticks) && NoRepeats(p.ticks) && |p.ticks| <= NormalizeLimit(q.limit)
    ensures forall t :: t in p.ticks ==> t in Matching(table, q, c)
    ensures p.hasMore ==> p.ticks != [] && p.next == At(p.ticks[|p.ticks| - 1])
    ensures Covers(q.descending, p, Matching(table, q, c))
  {
    var rows :| PageFrom(p, table, q, c, rows);
    CutFacts(q.descending, Matching(table, q, c), rows, NormalizeLimit(q.limit));
  }

  // ---- a scan over a changing table ------------------------------------------------------------

  /** Following NextCursor: page k is read from tables[k], so anything may have happened in between. */
  ghost predicate IsScan(pages: seq<Page>, q: Query, tables: seq<Table>, c: Cursor)
    decreases |tables|
  {
    if tables == [] then pages == []
    else
      && pages != [] && IsPage(pages[0], tables[0], q, c)
      && if pages[0].hasMore then IsScan(pages[1..], q, tables[1..], pages[0].next) else |pages| == 1
  }

  function Rows(pages: seq<Page>): seq<Tick> {
    if pages == [] then [] else pages[0].ticks + Rows(pages[1..])
  }

  /** No continuing page ends on the row whose position is the zero cursor. */
  ghost predicate CursorsUsable(pages: seq<Page>) {
    forall k :: 0 <= k < |pages| && pages[k].hasMore ==> pages[k].next != NO_CURSOR
  }

  lemma UsableTail(pages: seq<Page>)
    requires pages != [] && CursorsUsable(pages)
    ensures CursorsUsable(pages[1..]) && (pages[0].hasMore ==> pages[0].next != NO_CURSOR)
  {
    assert forall k :: 0 <= k < |pages[1..]| ==> pages[1..][k] == pages[k + 1];
  }

  ghost predicate AllFollow(q: Query, c: Cursor, rows: seq<Tick>) {
    forall t :: t in rows && c != NO_CURSOR ==> Follows(q.descending, c, At(t))
  }

  /** Across every page of every scan positions never move back, and no row is returned twice. */
  lemma {:induction false} ScanIsOrdered(pages: seq<Page>, q: Query, tables: seq<Table>, c: Cursor)
    requires IsScan(pages, q, tables, c) && CursorsUsable(pages)
    ensures Weakly(q.descending, Rows(pages)) && NoRepeats(Rows(pages))
    ensures AllFollow(q, c, Rows(pages))
    decreases |tables|
  {
    if tables != [] {
      var p := pages[0];
      PageFacts(p, tables[0], q, c);
      UsableTail(pages);
      if p.hasMore {
        ScanIsOrdered(pages[1..], q, tables[1..], p.next);
        JoinOrdered(q, c, p.ticks, Rows(pages[1..]));
      } else {
        assert Rows(pages[1..]) == [] && p.ticks + [] == p.ticks;
      }
    }
  }

  lemma JoinOrdered(q: Query, c: Cursor, a: seq<Tick>, b: seq<Tick>)
    requires a != [] && Weakly(q.descending, a) && Weakly(q.descending, b) && NoRepeats(a) && NoRepeats(b)
    requires AllFollow(q, c, a) && AllFollow(q, At(a[|a| - 1]), b) && At(a[|a| - 1]) != NO_CURSOR
    ensures Weakly(q.descending, a + b) && NoRepeats(a + b) && AllFollow(q, c, a + b)
  {
    var d := q.descending;
    forall i, t | 0 <= i < |a| && t in b
      ensures Follows(d, At(a[i]), At(t)) && NotAfter(d, At(a[i]), At(t)) && a[i] != t
    {
      BeforeLast(d, a, i, t);
    }
    forall t | t in a + b && c != NO_CURSOR
      ensures Follows(d, c, At(t))
    {
      if t in b {
        assert a[0] in a;
        FollowsTransitive(d, c, At(a[0]), At(t));
      }
    }
    JoinPairs(d, a, b);
  }

  lemma BeforeLast(d: bool, a: seq<Tick>, i: nat, t: Tick)
    requires i < |a| && Weakly(d, a) && Follows(d, At(a[|a| - 1]), At(t))
    ensures Follows(d, At(a[i]), At(t)) && NotAfter(d, At(a[i]), At(t)) && a[i] != t
  {
    if i < |a| - 1 {
      MixedTransitive(d, At(a[i]), At(a[|a| - 1]), At(t));
    }
    FollowsTotal(d, At(a[i]), At(t));
  }

  lemma JoinPairs(d: bool, a: seq<Tick>, b: seq<Tick>)
    requires Weakly(d, a) && Weakly(d, b) && NoRepeats(a) && NoRepeats(b)
    requires forall i, t :: 0 <= i < |a| && t in b ==> NotAfter(d, At(a[i]), At(t)) && a[i] != t
    ensures Weakly(d, a + b) && NoRepeats(a + b)
  {
    var s := a + b;
    forall i, j | 0 <= i < j < |s|
      ensures NotAfter(d, At(s[i]), At(s[j])) && s[i] != s[j]
    {
      if i < |a| <= j {
        assert b[j - |a|] in b;
      }
    }
  }

  ghost predicate Strictly(d: bool, s: seq<Tick>) {
    forall i, j :: 0 <= i < j < |s| ==> Follows(d, At(s[i]), At(s[j]))
  }

  /** No table ever has two rows the query selects at one position. */
  ghost predicate NeverTies(q: Query, tables: seq<Table>) {
    forall k :: 0 <= k < |tables| ==> TieFree(Matching(tables[k], q, NO_CURSOR))
  }

  lemma NamedNeverTies(q: Query, tables: seq<Table>)
    requires Named(q) && forall k :: 0 <= k < |tables| ==> WellKeyed(tables[k])
    ensures NeverTies(q, tables)
  {
    forall k | 0 <= k < |tables|
      ensures TieFree(Matching(tables[k], q, NO_CURSOR))
    {
      NamedIsTieFree(tables[k], q, NO_CURSOR);
    }
  }

  lemma StrictPage(p: Page, table: Table, q: Query, c: Cursor)
    requires IsPage(p, table, q, c) && TieFree(Matching(table, q, NO_CURSOR))
    ensures Strictly(q.descending, p.ticks)
  {
    PageFacts(p, table, q, c);
    forall i, j | 0 <= i < j < |p.ticks|
      ensures Follows(q.descending, At(p.ticks[i]), At(p.ticks[j]))
    {
      assert p.ticks[i] in p.ticks && p.ticks[j] in p.ticks;
      assert p.ticks[i] in Matching(table, q, NO_CURSOR) && p.ticks[j] in Matching(table, q, NO_CURSOR);
      FollowsTotal(q.descending, At(p.ticks[i]), At(p.ticks[j]));
    }
  }

  /** Without ties, as for one venue and instrument, positions strictly advance across every page of every scan. */
  lemma {:induction false} ScanIsStrict(pages: seq<Page>, q: Query, tables: seq<Table>, c: Cursor)
    requires IsScan(pages, q, tables, c) && CursorsUsable(pages) && NeverTies(q, tables)
    ensures Strictly(q.descending, Rows(pages))
    decreases |tables|
  {
    if tables != [] {
      var p := pages[0];
      PageFacts(p, tables[0], q, c);
      StrictPage(p, tables[0], q, c);
      UsableTail(pages);
      if p.hasMore {
        ScanIsOrdered(pages[1..], q, tables[1..], p.next);
        ScanIsStrict(pages[1..], q, tables[1..], p.next);
        JoinStrict(q.descending, p.ticks, Rows(pages[1..]));
      } else {
        assert Rows(pages[1..]) == [] && p.ticks + [] == p.ticks;
      }
    }
  }

  lemma JoinStrict(d: bool, a: seq<Tick>, b: seq<Tick>)
    requires a != [] && Weakly(d, a) && Strictly(d, a) && Strictly(d, b)
    requires forall t :: t in b ==> Follows(d, At(a[|a| - 1]), At(t))
    ensures Strictly(d, a + b)
  {
    var s := a + b;
    forall i, j | 0 <= i < j < |s|
      ensures Follows(d, At(s[i]), At(s[j]))
    {
      if i < |a| <= j {
        assert b[j - |a|] in b;
        BeforeLast(d, a, i, b[j - |a|]);
      }
    }
  }

  /** The scan ran to its end rather than out of tables. */
  ghost predicate Finished(pages: seq<Page>) {
    pages != [] && !pages[|pages| - 1].hasMore
  }

  lemma FinishedTail(pages: seq<Page>)
    requires Finished(pages) && pages[0].hasMore
    ensures Finished(pages[1..])
  {
  }

  /** t is there in every table, and alone at its position among the selected rows. */
  ghost predicate Lasting(t: Tick, q: Query, tables: seq<Table>) {
    forall k :: 0 <= k < |tables| ==> LastingIn(t, q, tables[k])
  }

  ghost predicate LastingIn(t: Tick, q: Query, table: Table) {
    && RowKeyOf(t) in table && table[RowKeyOf(t)] == t
    && forall x :: x in Matching(table, q, NO_CURSOR) && At(x) == At(t) ==> x == t
  }

  /** Every row that is there throughout, and shares its position with no other, is returned by the time HasMore is
      false. */
  lemma {:induction false} ScanIsComplete(pages: seq<Page>, q: Query, tables: seq<Table>, c: Cursor, t: Tick)
    requires IsScan(pages, q, tables, c) && CursorsUsable(pages) && Finished(pages)
    requires Selected(t, q, c) && Lasting(t, q, tables)
    ensures t in Rows(pages)
    decreases |tables|
  {
    var p := pages[0];
    PageFacts(p, tables[0], q, c);
    UsableTail(pages);
    assert LastingIn(t, q, tables[0]);
    assert t in Matching(tables[0], q, c);
    if t !in p.ticks {
      BeyondCursor(p, tables[0], q, c, t);
      FinishedTail(pages);
      LastingTail(t, q, tables);
      ScanIsComplete(pages[1..], q, tables[1..], p.next, t);
    }
  }

  lemma LastingTail(t: Tick, q: Query, tables: seq<Table>)
    requires tables != [] && Lasting(t, q, tables)
    ensures Lasting(t, q, tables[1..])
  {
    forall k | 0 <= k < |tables[1..]|
      ensures LastingIn(t, q, tables[1..][k])
    {
      assert LastingIn(t, q, tables[k + 1]);
    }
  }

  /** A row alone at its position that a page leaves out is strictly beyond the cursor. */
  lemma BeyondCursor(p: Page, table: Table, q: Query, c: Cursor, t: Tick)
    requires IsPage(p, table, q, c) && t in Matching(table, q, c) && t !in p.ticks && LastingIn(t, q, table)
    ensures p.hasMore && Follows(q.descending, p.next, At(t)) && (p.next != NO_CURSOR ==> Selected(t, q, p.next))
  {
    PageFacts(p, table, q, c);
    var last := p.ticks[|p.ticks| - 1];
    assert last in p.ticks;
    assert last in Matching(table, q, NO_CURSOR);
    FollowsTotal(q.descending, p.next, At(t));
  }

  /** Between pages rows may be deleted but none inserted. */
  ghost predicate OnlyDeletes(tables: seq<Table>) {
    forall i, j :: 0 <= i < j < |tables| ==> Within(tables[j], tables[i])
  }

  ghost predicate Within(later: Table, earlier: Table) {
    forall k :: k in later ==> k in earlier && earlier[k] == later[k]
  }

  /** Without inserts a scan has at most one page more than there were matching rows ... */
  lemma {:induction false} ScanTerminates(pages: seq<Page>, q: Query, tables: seq<Table>, c: Cursor)
    requires tables != [] && IsScan(pages, q, tables, c) && OnlyDeletes(tables) && CursorsUsable(pages)
    ensures |pages| <= |Matching(tables[0], q, c)| + 1
    decreases |tables|
  {
    UsableTail(pages);
    if pages[0].hasMore && |tables| > 1 {
      ScanTerminates(pages[1..], q, tables[1..], pages[0].next);
      FewerRemain(q, tables[0], tables[1], c, pages[0]);
    }
  }

  /** ... so one that is allowed that many pages runs to its end. */
  lemma {:induction false} ScanFinishes(pages: seq<Page>, q: Query, tables: seq<Table>, c: Cursor)
    requires IsScan(pages, q, tables, c) && OnlyDeletes(tables) && CursorsUsable(pages)
    requires tables != [] && |tables| > |Matching(tables[0], q, c)|
    ensures Finished(pages)
    decreases |tables|
  {
    UsableTail(pages);
    if pages[0].hasMore {
      SomeRow(pages[0], tables[0], q, c);
      FewerRemain(q, tables[0], tables[1], c, pages[0]);
      ScanFinishes(pages[1..], q, tables[1..], pages[0].next);
    }
  }

  lemma SomeRow(p: Page, table: Table, q: Query, c: Cursor)
    requires IsPage(p, table, q, c) && p.hasMore
    ensures |Matching(table, q, c)| >= 1
  {
    PageFacts(p, table, q, c);
    assert p.ticks[0] in Matching(table, q, c);
  }

  lemma FewerRemain(q: Query, table: Table, later: Table, c: Cursor, p: Page)
    requires IsPage(p, table, q, c) && p.hasMore && p.next != NO_CURSOR
    requires Within(later, table)
    ensures |Matching(later, q, p.next)| < |Matching(table, q, c)|
  {
    PageFacts(p, table, q, c);
    var last := p.ticks[|p.ticks| - 1];
    assert last in p.ticks;
    var rest, all := Matching(later, q, p.next), Matching(table, q, c);
    forall t | t in rest
      ensures t in all - {last}
    {
      var k :| k in later && later[k] == t;
      FollowsTotal(q.descending, p.next, At(t));
      if c != NO_CURSOR {
        FollowsTransitive(q.descending, c, At(last), At(t));
      }
      assert table[k] == t && Selected(t, q, c);
    }
    SubsetSize(rest, all - {last});
  }

  /** While no selected row is at the zero position, every cursor of every scan is usable. */
  lemma {:induction false} NoZeroRowMeansUsable(pages: seq<Page>, q: Query, tables: seq<Table>, c: Cursor)
    requires IsScan(pages, q, tables, c)
    requires forall k, t :: 0 <= k < |tables| && t in Matching(tables[k], q, NO_CURSOR) ==> At(t) != NO_CURSOR
    ensures CursorsUsable(pages)
    decreases |tables|
  {
    if tables != [] {
      var p := pages[0];
      PageFacts(p, tables[0], q, c);
      if p.hasMore {
        var last := p.ticks[|p.ticks| - 1];
        assert last in p.ticks;
        assert last in Matching(tables[0], q, NO_CURSOR);
        assert forall k :: 0 <= k < |tables[1..]| ==> tables[1..][k] == tables[k + 1];
        NoZeroRowMeansUsable(pages[1..], q, tables[1..], p.next);
        assert forall k :: 0 < k < |pages| ==> pages[k] == pages[1..][k - 1];
      }
    }
  }

  // ---- pages and scans on the fields -----------------------------------------------------------

  /** a comes before b in the order of texts: at the first difference, or by ending first. */
  ghost predicate Lexically(a: string, b: string) {
    (|a| < |b| && b[..|a|] == a) || exists k: nat :: DiffersAt(a, b, k)
  }

  ghost predicate DiffersAt(a: string, b: string, k: nat) {
    k < |a| && k < |b| && a[..k] == b[..k] && a[k] < b[k]
  }

  lemma {:induction false} TextLessIsLexical(a: string, b: string)
    ensures TextLess(a, b) <==> Lexically(a, b)
  {
    if a != "" && b != "" && a[0] == b[0] {
      TextLessIsLexical(a[1..], b[1..]);
      SameHead(a, b);
    } else if a != "" && b != "" {
      DifferentHeads(a, b);
    } else if a == "" {
      assert b[..0] == "";
    }
  }

  lemma DifferentHeads(a: string, b: string)
    requires a != "" && b != "" && a[0] != b[0]
    ensures Lexically(a, b) <==> a[0] < b[0]
  {
    assert a[..0] == b[..0];
    assert a[0] < b[0] ==> DiffersAt(a, b, 0);
    forall k: nat
      ensures DiffersAt(a, b, k) ==> k == 0
    {
      SharedPrefix(a, b, k);
    }
    SharedPrefix(a, b, |a|);
    assert a[..|a|] == a;
  }

  lemma SharedPrefix(a: string, b: string, k: nat)
    ensures 0 < k <= |a| && k <= |b| && a[..k] == b[..k] ==> a[0] == b[0]
  {
    if 0 < k <= |a| && k <= |b| {
      assert a[..k][0] == a[0] && b[..k][0] == b[0];
    }
  }

  lemma SameHead(a: string, b: string)
    requires a != "" && b != "" && a[0] == b[0]
    ensures Lexically(a, b) <==> Lexically(a[1..], b[1..])
  {
    var x, y := a[1..], b[1..];
    assert a == [a[0]] + x && b == [a[0]] + y;
    if exists k: nat :: DiffersAt(x, y, k) {
      var k: nat :| DiffersAt(x, y, k);
      assert a[..k + 1] == [a[0]] + x[..k] && b[..k + 1] == [a[0]] + y[..k];
      assert DiffersAt(a, b, k + 1);
    }
    if exists k: nat :: DiffersAt(a, b, k) {
      var k: nat :| DiffersAt(a, b, k);
      assert k > 0;
      assert a[..k][1..] == x[..k - 1] && b[..k][1..] == y[..k - 1];
      assert DiffersAt(x, y, k - 1);
    }
    assert |x| < |y| ==> b[..|a|] == [a[0]] + y[..|x|];
    assert |x| < |y| && b[..|a|] == a ==> b[..|a|][1..] == y[..|x|] == x;
  }

  /** The later event time first when descending, the earlier first otherwise; at one time by trade id, the same way. */
  ghost predicate InTimeOrder(descending: bool, x: Tick, y: Tick) {
    if x.eventTime != y.eventTime then (x.eventTime > y.eventTime) == descending
    else x.tradeId == y.tradeId || (if descending then Lexically(y.tradeId, x.tradeId) else Lexically(x.tradeId, y.tradeId))
  }

  /** Strictly past a position in the direction of the query. */
  ghost predicate Past(descending: bool, c: Cursor, t: Tick) {
    if t.eventTime != c.time then (t.eventTime < c.time) == descending
    else if descending then Lexically(t.tradeId, c.tradeId) else Lexically(c.tradeId, t.tradeId)
  }

  /** The row meets every bound the query names, and lies past the cursor if there is one. */
  ghost predicate Asked(t: Tick, q: Query, c: Cursor) {
    && (q.venue == "" || t.venue == q.venue)
    && (q.instrument == "" || t.instrument == q.instrument)
    && (q.start.Some? ==> q.start.value <= t.eventTime)
    && (q.end.Some? ==> t.eventTime < q.end.value)
    && ((c.time == 0 && c.tradeId == "") || Past(q.descending, c, t))
  }

  lemma OnFields(q: Query, c: Cursor, x: Tick, y: Tick)
    ensures NotAfter(q.descending, At(x), At(y)) <==> InTimeOrder(q.descending, x, y)
    ensures Selected(x, q, c) <==> Asked(x, q, c)
  {
    TextLessIsLexical(x.tradeId, y.tradeId);
    TextLessIsLexical(y.tradeId, x.tradeId);
    TextTotal(x.tradeId, y.tradeId);
    TextLessIsLexical(x.tradeId, c.tradeId);
    TextLessIsLexical(c.tradeId, x.tradeId);
  }

  /** A page, on the fields of its rows: they are rows of the archive the query asks for, newest first when descending
      and oldest first otherwise; every other row asked for comes no earlier in that order than any on the page, and
      leaves the page full with HasMore set and the cursor on its last row. */
  lemma PageOnFields(p: Page, table: Table, q: Query, c: Cursor)
    requires IsPage(p, table, q, c)
    ensures forall i, j :: 0 <= i < j < |p.ticks| ==> InTimeOrder(q.descending, p.ticks[i], p.ticks[j])
    ensures forall t :: t in p.ticks ==> t in table.Values && Asked(t, q, c)
    ensures forall t, x :: t in table.Values && Asked(t, q, c) && t !in p.ticks && x in p.ticks ==> InTimeOrder(q.descending, x, t)
    ensures p.hasMore <==> exists t :: t in table.Values && Asked(t, q, c) && t !in p.ticks
    ensures p.hasMore ==> |p.ticks| == NormalizeLimit(q.limit)
    ensures p.hasMore ==> var last := p.ticks[|p.ticks| - 1]; p.next == Cursor(last.eventTime, last.tradeId)
  {
    PageFacts(p, table, q, c);
    forall i, j | 0 <= i < j < |p.ticks|
      ensures InTimeOrder(q.descending, p.ticks[i], p.ticks[j])
    {
      OnFields(q, c, p.ticks[i], p.ticks[j]);
    }
    forall t
      ensures t in Matching(table, q, c) <==> t in table.Values && Asked(t, q, c)
    {
      OnFields(q, c, t, t);
    }
    forall t, x | t in Matching(table, q, c) && t !in p.ticks && x in p.ticks
      ensures InTimeOrder(q.descending, x, t)
    {
      LeftOutComesLater(p, table, q, c, x, t);
      OnFields(q, c, x, t);
    }
    MoreMeansLeftOut(p, table, q, c);
  }

  lemma LeftOutComesLater(p: Page, table: Table, q: Query, c: Cursor, x: Tick, t: Tick)
    requires IsPage(p, table, q, c) && t in Matching(table, q, c) && t !in p.ticks && x in p.ticks
    ensures NotAfter(q.descending, At(x), At(t))
  {
    PageFacts(p, table, q, c);
    var i :| 0 <= i < |p.ticks| && p.ticks[i] == x;
    var last := p.ticks[|p.ticks| - 1];
    FollowsTotal(q.descending, At(x), At(x));
    assert NotAfter(q.descending, At(x), At(last));
    NotAfterTransitive(q.descending, At(x), At(last), At(t));
  }

  lemma MoreMeansLeftOut(p: Page, table: Table, q: Query, c: Cursor)
    requires IsPage(p, table, q, c)
    ensures p.hasMore <==> exists t :: t in Matching(table, q, c) && t !in p.ticks
    ensures p.hasMore ==> |p.ticks| == NormalizeLimit(q.limit)
  {
    var rows :| PageFrom(p, table, q, c, rows);
    var n := NormalizeLimit(q.limit);
    if p.hasMore {
      var t := rows[n];
      assert t in rows;
      assert t !in p.ticks;
    }
  }

  /** A scan, on the fields: across all its pages event times never rise when descending and never fall otherwise, and
      rows of one time follow their trade ids the same way. */
  lemma ScanOnFields(pages: seq<Page>, q: Query, tables: seq<Table>, c: Cursor, i: nat, j: nat)
    requires IsScan(pages, q, tables, c) && CursorsUsable(pages) && i < j < |Rows(pages)|
    ensures InTimeOrder(q.descending, Rows(pages)[i], Rows(pages)[j])
  {
    ScanIsOrdered(pages, q, tables, c);
    OnFields(q, c, Rows(pages)[i], Rows(pages)[j]);
  }

  // ---- the tables of an archive ----------------------------------------------------------------

  /** What can happen to the archive between two pages. */
  datatype Change = Append(ticks: seq<Tick>) | Delete(keys: set<RowKey>)

  function Changed(table: Table, changes: seq<Change>): Table {
    if changes == [] then table
    else
      var before := Changed(table, changes[..|changes| - 1]);
      match changes[|changes| - 1]
      case Append(ticks) => InsertAll(before, ticks)
      case Delete(keys) => before - keys
  }

  /** Every archive an empty one can become keeps each row under its own key, as NamedNeverTies asks. */
  lemma {:induction false} ArchiveIsWellKeyed(changes: seq<Change>)
    ensures WellKeyed(Changed(map[], changes))
  {
    if changes != [] {
      ArchiveIsWellKeyed(changes[..|changes| - 1]);
      match changes[|changes| - 1]
      case Append(ticks) => InsertKeepsKeys(Changed(map[], changes[..|changes| - 1]), ticks);
      case Delete(_) =>
    }
  }

  // ---- exactly when a scan of an unchanged table is whole --------------------------------------

  function Repeated(table: Table, m: nat): (tables: seq<Table>)
    ensures |tables| == m && forall k :: 0 <= k < m ==> tables[k] == table
  {
    seq(m, _ => table)
  }

  lemma RepeatedTail(table: Table, m: nat)
    requires m > 0
    ensures Repeated(table, m)[1..] == Repeated(table, m - 1)
  {
  }

  /** m pages are enough, whichever way ties fall: the scan ends and has returned every row. */
  ghost predicate Suffices(table: Table, q: Query, m: nat) {
    forall pages :: IsScan(pages, q, Repeated(table, m), NO_CURSOR) ==> Finished(pages) && ReturnsAll(pages, table, q)
  }

  ghost predicate ReturnsAll(pages: seq<Page>, table: Table, q: Query) {
    forall t :: t in Matching(table, q, NO_CURSOR) ==> t in Rows(pages)
  }

  ghost predicate ScanIsWhole(table: Table, q: Query) {
    exists m :: Suffices(table, q, m)
  }

  /** The row at the zero position is not alone at the end of the scan: a page can end there with more to come. */
  ghost predicate ZeroBlocks(d: bool, rows: set<Tick>) {
    exists r, y :: BlockedBy(d, rows, r, y)
  }

  ghost predicate BlockedBy(d: bool, rows: set<Tick>, r: Tick, y: Tick) {
    r in rows && y in rows && At(r) == NO_CURSOR && y != r && NotAfter(d, At(r), At(y))
  }

  lemma MatchingSome(table: Table, q: Query, c: Cursor, t: Tick)
    requires t in Matching(table, q, c)
    ensures t in Matching(table, q, NO_CURSOR)
  {
  }

  /** Nothing blocks, so every page with more ends on a usable cursor. */
  lemma {:induction false} UnblockedIsUsable(pages: seq<Page>, q: Query, table: Table, m: nat, c: Cursor)
    requires IsScan(pages, q, Repeated(table, m), c) && !ZeroBlocks(q.descending, Matching(table, q, NO_CURSOR))
    ensures CursorsUsable(pages)
    decreases m
  {
    if m > 0 {
      var p := pages[0];
      UnblockedPage(p, table, q, c);
      if p.hasMore {
        RepeatedTail(table, m);
        UnblockedIsUsable(pages[1..], q, table, m - 1, p.next);
        assert forall k :: 0 < k < |pages| ==> pages[k] == pages[1..][k - 1];
      }
    }
  }

  lemma UnblockedPage(p: Page, table: Table, q: Query, c: Cursor)
    requires IsPage(p, table, q, c) && !ZeroBlocks(q.descending, Matching(table, q, NO_CURSOR))
    ensures p.hasMore ==> p.next != NO_CURSOR
  {
    if p.hasMore {
      var last, y := LastAndLeftover(p, table, q, c);
      assert !BlockedBy(q.descending, Matching(table, q, NO_CURSOR), last, y);
    }
  }

  lemma LastAndLeftover(p: Page, table: Table, q: Query, c: Cursor) returns (last: Tick, y: Tick)
    requires IsPage(p, table, q, c) && p.hasMore
    ensures last in Matching(table, q, NO_CURSOR) && At(last) == p.next && y in Matching(table, q, NO_CURSOR)
    ensures y != last && NotAfter(q.descending, p.next, At(y))
  {
    var rows :| PageFrom(p, table, q, c, rows);
    var n := NormalizeLimit(q.limit);
    last, y := rows[n - 1], rows[n];
    assert last in rows && y in rows;
    MatchingSome(table, q, c, last);
    MatchingSome(table, q, c, y);
  }

  lemma WholeWhenTieFree(table: Table, q: Query)
    requires TieFree(Matching(table, q, NO_CURSOR)) && !ZeroBlocks(q.descending, Matching(table, q, NO_CURSOR))
    requires WellKeyed(table)
    ensures ScanIsWhole(table, q)
  {
    var m := |Matching(table, q, NO_CURSOR)| + 1;
    forall pages | IsScan(pages, q, Repeated(table, m), NO_CURSOR)
      ensures Finished(pages) && ReturnsAll(pages, table, q)
    {
      UnblockedIsUsable(pages, q, table, m, NO_CURSOR);
      ScanFinishes(pages, q, Repeated(table, m), NO_CURSOR);
      forall t | t in Matching(table, q, NO_CURSOR)
        ensures t in Rows(pages)
      {
        ScanIsComplete(pages, q, Repeated(table, m), NO_CURSOR, t);
      }
    }
    assert Suffices(table, q, m);
  }

  lemma PageExists(table: Table, q: Query, c: Cursor) returns (p: Page)
    ensures IsPage(p, table, q, c)
  {
    var rows := SortingExists(q.descending, Matching(table, q, c));
    p := Cut(rows, NormalizeLimit(q.limit));
    assert PageFrom(p, table, q, c, rows);
  }

  lemma {:induction false} ScanExists(table: Table, q: Query, m: nat, c: Cursor) returns (pages: seq<Page>)
    ensures IsScan(pages, q, Repeated(table, m), c)
    decreases m
  {
    if m == 0 {
      pages := [];
    } else {
      var p := PageExists(table, q, c);
      pages := [p];
      if p.hasMore {
        var rest := ScanExists(table, q, m - 1, p.next);
        RepeatedTail(table, m);
        pages := [p] + rest;
        assert pages[1..] == rest;
      }
    }
  }

  /** At limit 1 no page holds two rows, so ties are never both returned. */
  lemma {:induction false} OneByOneIsStrict(pages: seq<Page>, q: Query, tables: seq<Table>, c: Cursor)
    requires IsScan(pages, q, tables, c) && CursorsUsable(pages) && NormalizeLimit(q.limit) == 1
    ensures Strictly(q.descending, Rows(pages))
    decreases |tables|
  {
    if tables != [] {
      var p := pages[0];
      PageFacts(p, tables[0], q, c);
      UsableTail(pages);
      if p.hasMore {
        ScanIsOrdered(pages[1..], q, tables[1..], p.next);
        OneByOneIsStrict(pages[1..], q, tables[1..], p.next);
        JoinStrict(q.descending, p.ticks, Rows(pages[1..]));
      } else {
        assert Rows(pages[1..]) == [] && p.ticks + [] == p.ticks;
      }
    }
  }

  lemma TiesAreLost(d: bool, s: seq<Tick>, x: Tick, y: Tick)
    requires Strictly(d, s) && x != y && At(x) == At(y)
    ensures x !in s || y !in s
  {
    if x in s && y in s {
      var i :| 0 <= i < |s| && s[i] == x;
      var j :| 0 <= j < |s| && s[j] == y;
      FollowsTotal(d, At(x), At(y));
    }
  }

  lemma TieIsNotWhole(table: Table, q: Query, x: Tick, y: Tick)
    requires NormalizeLimit(q.limit) == 1 && !ZeroBlocks(q.descending, Matching(table, q, NO_CURSOR))
    requires x in Matching(table, q, NO_CURSOR) && y in Matching(table, q, NO_CURSOR) && x != y && At(x) == At(y)
    ensures !ScanIsWhole(table, q)
  {
    forall m
      ensures !Suffices(table, q, m)
    {
      var pages := ScanExists(table, q, m, NO_CURSOR);
      UnblockedIsUsable(pages, q, table, m, NO_CURSOR);
      OneByOneIsStrict(pages, q, Repeated(table, m), NO_CURSOR);
      TiesAreLost(q.descending, Rows(pages), x, y);
      assert !ReturnsAll(pages, table, q);
    }
  }

  /** The scan has not got past the zero position. */
  predicate Short(d: bool, c: Cursor) {
    c == NO_CURSOR || Follows(d, c, NO_CURSOR)
  }

  lemma StaysShort(p: Page, table: Table, q: Query, c: Cursor, r: Tick, y: Tick)
    requires IsPage(p, table, q, c) && NormalizeLimit(q.limit) == 1 && Short(q.descending, c)
    requires BlockedBy(q.descending, Matching(table, q, NO_CURSOR), r, y)
    ensures p.hasMore && Short(q.descending, p.next)
  {
    var d := q.descending;
    if c != NO_CURSOR {
      FollowsThenNotAfter(d, c, NO_CURSOR, At(y));
    }
    assert r in Matching(table, q, c) && y in Matching(table, q, c);
    var rows :| PageFrom(p, table, q, c, rows);
    var i :| 0 <= i < |rows| && rows[i] == r;
    var j :| 0 <= j < |rows| && rows[j] == y;
    FollowsTotal(d, At(rows[0]), At(r));
  }

  lemma FollowsThenNotAfter(d: bool, a: Cursor, b: Cursor, c: Cursor)
    requires Follows(d, a, b) && NotAfter(d, b, c)
    ensures Follows(d, a, c)
  {
    FollowsTotal(d, b, c);
    if b != c {
      FollowsTransitive(d, a, b, c);
    }
  }

  lemma {:induction false} BlockedNeverFinishes(pages: seq<Page>, q: Query, table: Table, m: nat, c: Cursor, r: Tick, y: Tick)
    requires IsScan(pages, q, Repeated(table, m), c) && NormalizeLimit(q.limit) == 1 && Short(q.descending, c)
    requires BlockedBy(q.descending, Matching(table, q, NO_CURSOR), r, y)
    ensures !Finished(pages)
    decreases m
  {
    if m > 0 {
      StaysShort(pages[0], table, q, c, r, y);
      RepeatedTail(table, m);
      BlockedNeverFinishes(pages[1..], q, table, m - 1, pages[0].next, r, y);
    }
  }

  lemma BlockIsNotWhole(table: Table, q: Query)
    requires NormalizeLimit(q.limit) == 1 && ZeroBlocks(q.descending, Matching(table, q, NO_CURSOR))
    ensures !ScanIsWhole(table, q)
  {
    var r, y :| BlockedBy(q.descending, Matching(table, q, NO_CURSOR), r, y);
    forall m
      ensures !Suffices(table, q, m)
    {
      var pages := ScanExists(table, q, m, NO_CURSOR);
      BlockedNeverFinishes(pages, q, table, m, NO_CURSOR, r, y);
    }
  }

  lemma LimitIsNoFilter(table: Table, q: Query, n: int)
    ensures Matching(table, q.(limit := n), NO_CURSOR) == Matching(table, q, NO_CURSOR)
  {
  }

  /** For any query over an unchanged archive: the scan ends and returns every matching row, at every limit and however
      ties fall, if and only if no two matching rows share a position and no matching row sits at the zero position
      with another still to come. */
  lemma WholeIffTieFree(table: Table, q: Query)
    requires WellKeyed(table)
    ensures var rows := Matching(table, q, NO_CURSOR);
      (forall n :: ScanIsWhole(table, q.(limit := n))) <==> TieFree(rows) && !ZeroBlocks(q.descending, rows)
  {
    var rows := Matching(table, q, NO_CURSOR);
    if TieFree(rows) && !ZeroBlocks(q.descending, rows) {
      forall n
        ensures ScanIsWhole(table, q.(limit := n))
      {
        LimitIsNoFilter(table, q, n);
        WholeWhenTieFree(table, q.(limit := n));
      }
    } else {
      LimitIsNoFilter(table, q, 1);
      if ZeroBlocks(q.descending, rows) {
        BlockIsNotWhole(table, q.(limit := 1));
      } else {
        var x, y :| x in rows && y in rows && At(x) == At(y) && x != y;
        TieIsNotWhole(table, q.(limit := 1), x, y);
      }
    }
  }

  // ---- the two ways to lose rows, at an input ---------------------------------------------------

  function Trade(instrument: InstrumentID, time: int, id: string): Tick {
    Tick("binance", instrument, 1, time, time, Decimal(1, 0), Decimal(1, 0), SideUnknown, id)
  }

  function Stored(a: Tick, b: Tick): Table {
    map[RowKeyOf(a) := a, RowKeyOf(b) := b]
  }

  /** Two instruments with trade id "7" at one instant: a query without an instrument, one row a page, returns only
      one of them, in however many pages. */
  lemma TiedTradesAreLost(pages: seq<Page>, m: nat)
    requires var q := Query("binance", "", None, None, 1, false);
      IsScan(pages, q, Repeated(Stored(Trade("BTC", 5, "7"), Trade("ETH", 5, "7")), m), NO_CURSOR)
    ensures Trade("BTC", 5, "7") !in Rows(pages) || Trade("ETH", 5, "7") !in Rows(pages)
    ensures var rows := Matching(Stored(Trade("BTC", 5, "7"), Trade("ETH", 5, "7")), Query("binance", "", None, None, 1, false), NO_CURSOR);
      Trade("BTC", 5, "7") in rows && Trade("ETH", 5, "7") in rows
  {
    var x, y := Trade("BTC", 5, "7"), Trade("ETH", 5, "7");
    var q, table := Query("binance", "", None, None, 1, false), Stored(x, y);
    assert RowKeyOf(x) in table && RowKeyOf(y) in table && RowKeyOf(x) != RowKeyOf(y);
    assert forall t :: t in Matching(table, q, NO_CURSOR) ==> t.eventTime == 5;
    UnblockedIsUsable(pages, q, table, m, NO_CURSOR);
    OneByOneIsStrict(pages, q, Repeated(table, m), NO_CURSOR);
    TiesAreLost(false, Rows(pages), x, y);
  }

  /** A row at time zero with an empty trade id and one more after it: the first page has more, its cursor is the zero
      cursor, and so the same page comes back. */
  lemma ZeroCursorRepeats(p: Page)
    requires var q := Query("binance", "BTC", None, None, 1, false);
      IsPage(p, Stored(Trade("BTC", 0, ""), Trade("BTC", 5, "7")), q, NO_CURSOR)
    ensures p == Page([Trade("BTC", 0, "")], NO_CURSOR, true)
  {
    var x, y := Trade("BTC", 0, ""), Trade("BTC", 5, "7");
    var q, table := Query("binance", "BTC", None, None, 1, false), Stored(x, y);
    assert RowKeyOf(x) in table && RowKeyOf(y) in table && RowKeyOf(x) != RowKeyOf(y);
    assert x in Matching(table, q, NO_CURSOR) && y in Matching(table, q, NO_CURSOR);
    var rows :| PageFrom(p, table, q, NO_CURSOR, rows);
    var i :| 0 <= i < |rows| && rows[i] == x;
    var j :| 0 <= j < |rows| && rows[j] == y;
    assert Follows(false, At(x), At(y));
    assert rows[0] in rows && rows[0] in Matching(table, q, NO_CURSOR);
  }

  /** On an unchanged table the next page continues strictly after a page that has more exactly when that page's cursor
      is not the zero cursor, which reads as "no cursor". */
  lemma ContinuesUnlessZero(p: Page, again: Page, table: Table, q: Query, c: Cursor)
    requires IsPage(p, table, q, c) && p.hasMore && IsPage(again, table, q, p.next)
    ensures (forall t :: t in again.ticks ==> Follows(q.descending, p.next, At(t))) <==> p.next != NO_CURSOR
  {
    PageFacts(p, table, q, c);
    PageFacts(again, table, q, p.next);
    if p.next == NO_CURSOR {
      var last := p.ticks[|p.ticks| - 1];
      assert last in p.ticks;
      MatchingSome(table, q, c, last);
      if last in again.ticks {
        FollowsTotal(q.descending, p.next, At(last));
      } else {
        var end := again.ticks[|again.ticks| - 1];
        assert end in again.ticks;
        FollowsTotal(q.descending, At(end), At(last));
      }
    }
  }
}

/** Saving a book and restoring it (internal/consumer/paper/paper.go, MarshalState and UnmarshalState). */
module PaperRestart {
  import opened Arith
  import opened Decimal
  import opened DecimalText
  import opened Market
  import opened Paper

  /** d survives the JSON pair. */
  predicate Clean(d: Decimal) {
    d.unscaled != MIN_INT64
  }

  predicate CleanPosition(p: Position) {
    Clean(p.quantity) && Clean(p.avgEntry)
  }

  predicate CleanFill(f: Fill) {
    Clean(f.price) && Clean(f.quantity) && Clean(f.notional) && Clean(f.fee) && Clean(f.realizedPL)
  }

  /** No decimal on the book has mantissa MinInt64. */
  ghost predicate CleanBook(b: Book) {
    && Clean(b.cash) && Clean(b.realized) && Clean(b.fees) && Clean(b.peakEquity)
    && CleanPositions(b.positions) && CleanFills(b.fills)
  }

  ghost predicate CleanPositions(m: map<InstrumentID, Position>) {
    forall id :: id in m ==> CleanPosition(m[id])
  }

  ghost predicate CleanFills(fs: seq<Fill>) {
    forall i :: 0 <= i < |fs| ==> CleanFill(fs[i])
  }

  predicate ScaledPosition(p: Position) {
    InScale(p.quantity) && InScale(p.avgEntry)
  }

  predicate ScaledFill(f: Fill) {
    InScale(f.price) && InScale(f.quantity) && InScale(f.notional) && InScale(f.fee) && InScale(f.realizedPL)
  }

  /** Every decimal on the book has at most 18 places; PaperLedger shows that every reachable book is such. */
  ghost predicate ScaledBook(b: Book) {
    && InScale(b.cash) && InScale(b.realized) && InScale(b.fees) && InScale(b.peakEquity)
    && ScaledPositions(b.positions) && ScaledFills(b.fills)
  }

  ghost predicate ScaledPositions(m: map<InstrumentID, Position>) {
    forall id :: id in m ==> ScaledPosition(m[id])
  }

  ghost predicate ScaledFills(fs: seq<Fill>) {
    forall i :: 0 <= i < |fs| ==> ScaledFill(fs[i])
  }

  lemma DecimalReads(d: Decimal)
    requires InScale(d)
    ensures Reads(MarshalJSON(d)) <==> Clean(d)
    ensures Clean(d) ==> UnmarshalJSON(MarshalJSON(d)) == Ok(d)
  {
    JSONRoundTrips(d);
  }

  lemma PositionReadsBack(p: Position)
    requires ScaledPosition(p)
    ensures PositionReads(SavePosition(p)) <==> CleanPosition(p)
    ensures CleanPosition(p) ==> ReadPosition(SavePosition(p)) == p
  {
    DecimalReads(p.quantity);
    DecimalReads(p.avgEntry);
  }

  lemma FillReadsBack(f: Fill)
    requires ScaledFill(f)
    ensures FillReads(SaveFill(f)) <==> CleanFill(f)
    ensures CleanFill(f) ==> ReadFill(SaveFill(f)) == f
  {
    DecimalReads(f.price);
    DecimalReads(f.quantity);
    DecimalReads(f.notional);
    DecimalReads(f.fee);
    DecimalReads(f.realizedPL);
  }

  lemma PositionsReadBack(m: map<InstrumentID, Position>)
    requires ScaledPositions(m)
    ensures PositionsRead(SavePositions(m)) <==> CleanPositions(m)
    ensures CleanPositions(m) ==> ReadPositions(SavePositions(m)) == m
  {
    var s := SavePositions(m);
    forall id | id in m
      ensures PositionReads(s[id]) <==> CleanPosition(m[id])
      ensures CleanPosition(m[id]) ==> ReadPosition(s[id]) == m[id]
    {
      PositionReadsBack(m[id]);
    }
  }

  lemma FillsReadBack(fs: seq<Fill>)
    requires ScaledFills(fs)
    ensures FillsRead(SaveFills(fs)) <==> CleanFills(fs)
    ensures CleanFills(fs) ==> ReadFills(SaveFills(fs)) == fs
  {
    var s := SaveFills(fs);
    forall i | 0 <= i < |fs|
      ensures FillReads(s[i]) <==> CleanFill(fs[i])
      ensures CleanFill(fs[i]) ==> ReadFill(s[i]) == fs[i]
    {
      FillReadsBack(fs[i]);
    }
  }

  /** Restoring a saved book gives back every field but the marks, which are not saved; the restore is refused, as
      a whole, if and only if some mantissa is MinInt64. */
  lemma RestoreRoundTrips(into: Book, b: Book)
    requires ScaledBook(b)
    ensures Restored(into, Save(b)) == if CleanBook(b) then Some(b.(lastPrices := into.lastPrices)) else None
  {
    PositionsReadBack(b.positions);
    FillsReadBack(b.fills);
    DecimalReads(b.cash);
    DecimalReads(b.realized);
    DecimalReads(b.fees);
    DecimalReads(b.peakEquity);
  }
}

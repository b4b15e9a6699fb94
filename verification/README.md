# A verified model of a market-data pipeline

The program ingests trades from a venue, stamps them with sequence numbers, fans them out over an in-process bus to
subscribers of four backpressure policies, archives them, folds them into candles, lets strategies act on the candles,
and trades on paper. Prices and money are exact fixed-point decimals. This project models those parts in Dafny and
proves what holds of them over every input and every run.

Verify with `dafny verify dfyconfig.toml`.

## How it is laid out

- `Arith`, `Decimal`: int64 wrap-around, truncated and rounded division, and the decimal with both of its forms, the
  int64 fast paths and the arbitrary-precision fallback. `Decimal.Value` is the rational a decimal stands for.
- `DecimalRounding`, `DecimalMonotone`, `DecimalFloat`, `DecimalText`: error bounds, monotonicity, conversion from
  floats, and text.
- `Market`: ticks, and `Subseq`, the order-preserving thinning that says what each policy may do to a stream.
- `QueueBus`, `CoalesceBus`: a subscription as a state machine, one step per channel operation, lock section or counter
  update, so that a run is any interleaving of publisher, consumer, draining loop and shutdown.
- `PubSub`: the whole bus as one machine, its single publisher walking each batch over a changing set of those
  subscriptions. `Bus` is Publish with each delivery one atomic step, and `Delivery` ties that step to the machines.
- `Normalize`, `Fanout`: sequence numbers, and what they look like at the subscribers' end of the whole bus.
- `Archive`, `Persist`, `Paging`: the tick table as a map from primary key to row, the batching writer, keyset paging.
- `Candles`: the incremental OHLCV builder against a group-by.
- `Adaptive`: the epsilon-greedy bandit.
- `Paper` and `PaperRoundTrip`, `PaperSizing`, `PaperRestart`, `PaperLedger`, `PaperFills`, `PaperTotals`, `PaperTrips`,
  `PaperSnapshot`, `PaperDrawdown`, `PaperSaturation`, `PaperInsolvency`: the simulated account, its state saved and
  restored, what its fills are, and what its ledger keeps over every run.

Code that updates fields in place is a class (`Sequencer`, `Normalizer`, `FanOut`, `DB`, `Persister`, `Builder`,
`Bandit`, `Account`, `Cell`) or a method with a loop, each proved to compute a function; the theorems are about that
function. The interleaved bus machines and the whole-run theorems are about values.

## What is not as one would expect

For each there is a lemma with an input, or with the whole family of them, and a theorem that says exactly when it happens.

- `overflowsMul` misses one pair, MinInt64 and -1, so `Mul` returns that product with the wrong sign
  (`Decimal.OverflowsMulExact`, `Decimal.MulRefinesBig`).
- `Neg`, `Sub`, `String` and the JSON pair fail on mantissa MinInt64 and nowhere else (`DecimalRounding.SubRefinesBig`,
  `DecimalText.StringRoundTrips`). A saved account holding one such mantissa is refused whole on restore
  (`PaperRestart.RestoreRoundTrips`).
- A query without an instrument, which the HTTP API sends when the parameter is missing, loses rows that tie on event
  time and trade id (`Paging.TiedTradesAreLost`), and a page that ends on the row at time zero with an empty trade id
  makes the scan start over (`Paging.ZeroCursorRepeats`). Nothing else goes wrong (`Paging.WholeIffTieFree`).
- The paper account's sale can cost money if its fee is too large for int64 cents, because the fee then saturates
  (`PaperSaturation.SaleCanCostMoney`, `PaperTotals.SaleCostsNothing`), and if the cash does not make up for it, cash
  goes negative (`PaperSaturation.CashCanGoNegative`, `PaperTotals.CashNeverNegative`).
- A position size that saturates can exceed the risk limit (`PaperSizing.SaturatedSizeBreaksLimit`): it does so by more
  than roundings only where it saturates on a quotient below MaxInt64 (`PaperSizing.PositionIsCapped`).
- A reference price that rounds to zero at the price precision buys MaxInt64 units for nothing
  (`PaperFills.ZeroPriceBuysMost`).
- A basis that saturates does not give back what was paid (`PaperSaturation.BasisCanSaturate`,
  `PaperTrips.TripGapIsSmall`).
- With negative equity the drawdown figure can understate the pairwise maximum
  (`PaperInsolvency.NegativeEquityUnderstates`, `PaperDrawdown.DrawdownIsPairwise`); it never overstates it.

## Conventions

- float64 values are reals; `FromFloat` rounds half away from zero and saturates outside int64. Rounding inside float
  arithmetic, NaN and infinities are not modelled, except that a zero price makes the position size saturate.
- Times are integers, nanoseconds since the Unix epoch, as `event_ts_ns` stores them; `Truncate` counts from Go's zero
  time, a constant earlier.
- The order in which Go iterates a map, a random draw, the outcome of a blocked send, the point at which a database call
  fails and the decoder's result are parameters, so that each theorem is over all of them.
- Sequence numbers, counters and map sizes are unbounded naturals.

## Model

| member | source | states |
|---|---|---|
| `Decimal.Pow10Loop` | internal/model/decimal_math.go:259-268 | the loop yields exactly 10^n for every n up to 18 and MaxInt64 above |
| `Decimal.OverflowsMulExact` | internal/model/decimal_math.go:251-257 | for all int64 pairs: the division test reports overflow if and only if the product leaves int64, except on (MinInt64, -1) |
| `Decimal.AddFastExact` | internal/model/decimal_math.go:242-249 | for all int64 pairs: the sign test succeeds with the exact sum if and only if the sum fits |
| `Decimal.AlignFastExact` | internal/model/decimal_math.go:223-240 | a successful alignment is both operands' exact big-integer view at the finer scale; it fails only if one of them does not fit |
| `Decimal.FromBigLoop` | internal/model/decimal_math.go:176-208 | the digit-dropping loop with saturation computes the specification `FromBig` |
| `Decimal.AddRefinesBig` | internal/model/decimal_math.go:55-64 | whichever path runs, `Add` is `fromBig` of the exact sum |
| `Decimal.MulRefinesBig` | internal/model/decimal_math.go:72-78 | `Mul` is `fromBig` of the exact product if and only if the operands are not the one pair the overflow test misses |
| `Decimal.FromBigSign` | internal/model/decimal_math.go:176-192 | `fromBig` keeps the sign, saturated or not |
| `DecimalRounding.CmpIsRationalOrder` | internal/model/decimal_math.go:21-45 | `Cmp` is the order of the rationals, in all three outcomes and across scales |
| `DecimalRounding.SettleError` | internal/model/decimal_math.go:176-208 | repeated rounding stays under 5/9 of the final unit from the exact value, and within 1/2 after one rounding |
| `DecimalRounding.FromBigError` | internal/model/decimal_math.go:176-192 | the same bound for `fromBig` against the exact rational |
| `DecimalRounding.SaturationOnlyOutOfRange` | internal/model/decimal_math.go:185-190 | saturation happens only past the edge of int64 at scale 0, always happens clearly beyond it, and keeps the sign |
| `DecimalRounding.ShrinkKeepsDigits` | internal/model/decimal_math.go:181-184 | no digit is dropped needlessly: a shortened mantissa still fills int64 to its last digit |
| `DecimalRounding.AddError` | internal/model/decimal_math.go:55-64 | every unsaturated sum is under 5/9 of its own last place from the exact sum, within 1/2 after one rounding |
| `DecimalRounding.AddExact` | internal/model/decimal_math.go:55-64 | a sum is exact when the aligned sum fits, and keeps its scale only then |
| `DecimalRounding.SubRefinesBig` | internal/model/decimal_math.go:67-67 | `Sub` is `fromBig` of the exact difference if and only if the subtrahend's mantissa is not MinInt64 |
| `DecimalRounding.MulError` | internal/model/decimal_math.go:72-78 | every unsaturated product is under 5/9 of its own last place from the product of the two values, within 1/2 after one rounding, except where `Mul` has the wrong sign |
| `DecimalRounding.DivError` | internal/model/decimal_math.go:82-111 | every unsaturated quotient is under 5/9 of its last place from the exact quotient, within 1/2 at the requested scale |
| `DecimalMonotone.RescaleDown` | internal/model/decimal_math.go:143-163 | narrowing is one rounding half away from zero and never wraps |
| `DecimalMonotone.RescaleUp` | internal/model/decimal_math.go:143-163 | widening appends zeros exactly or, when they do not fit, returns the decimal unchanged; the value never changes |
| `DecimalMonotone.RescaleError` | internal/model/decimal_math.go:143-163 | rescaling moves the value by at most half a unit of the target scale |
| `DecimalMonotone.FromBigCentsMonotone` | internal/model/decimal_math.go:143-192 | `fromBig` then `Rescale(2)` is monotone on non-negative mantissas, even when the two results settle on different scales |
| `DecimalMonotone.NotionalMonotone` | internal/model/decimal_math.go:72-78 | `Mul` then `Rescale(2)` is monotone in the price |
| `DecimalFloat.FromFloatError` | internal/model/decimal_math.go:129-139 | unless it saturates, the result has the requested scale (18 at most) and is within half a unit of the float |
| `DecimalFloat.FromFloatNearest` | internal/model/decimal_math.go:129-139 | its mantissa is the integer nearest the scaled float, ties away from zero |
| `DecimalFloat.FromFloatSaturates` | internal/model/decimal_math.go:129-139 | otherwise the mantissa is plus or minus MaxInt64, by the sign of the float, at scale 0 |
| `DecimalFloat.FromFloatMonotone` | internal/model/decimal_math.go:129-139 | at one scale, a larger float gives no smaller a mantissa |
| `DecimalFloat.FromFloatFraction` | internal/model/decimal_math.go:129-139 | a fraction of a decimal, rounded at its scale, is between zero and the whole |
| `DecimalText.ParseDecimal` | internal/model/decimal.go:32-77 | the scanning code with its early returns computes the specification `Parse`, errors included |
| `DecimalText.ParseAcceptsExactlyNumerals` | internal/model/decimal.go:32-77 | a text parses to d if and only if it is an optionally signed digit string with at most one point, a digit, at most 18 fraction digits and int64 range that denotes d |
| `DecimalText.ParseErrors` | internal/model/decimal.go:32-77 | the error is ErrEmptyDecimal if and only if the text is empty, too fine if and only if it has one point and more than 18 characters after it, ErrDecimalRange if and only if it is a numeral whose digits exceed int64; anything else that is no numeral is a syntax error |
| `DecimalText.StringRoundTrips` | internal/model/decimal.go:80-105 | parsing the printed decimal gives it back if and only if its mantissa is not MinInt64 |
| `DecimalText.StringIsCanonical` | internal/model/decimal.go:80-105 | the text printed denotes the decimal with no plus sign, no superfluous leading zero, at least one digit before the point, and a point exactly when the scale is not zero |
| `DecimalText.JSONRoundTrips` | internal/model/decimal.go:116-140 | the JSON pair round-trips on the same decimals and refuses to decode the others |
| `DecimalText.UnmarshalMeans` | internal/model/decimal.go:126-140 | any numeral decodes to what it denotes, quoted or bare, with white space around it, and null decodes to zero |
| `DecimalText.Cell.Unmarshal` | internal/model/decimal.go:126-140 | on success the receiver holds the decoded value (zero for null); a malformed text leaves it untouched |
| `CoalesceBus.EveryRun` | internal/bus/inproc/inproc.go:305-353 | in every reachable state: no lost wake-up; accepted = delivered + superseded + pending + in hand + abandoned; dropped is 0; per instrument the trail is a thinning of what was accepted that ends with the newest |
| `CoalesceBus.QuiescentMeansDelivered` | internal/bus/inproc/inproc.go:305-353 | a parked loop with no token and no publisher in flight means nothing is pending, and the last tick sent per instrument is the last accepted |
| `CoalesceBus.ReceivedIsThinned` | internal/bus/inproc/inproc.go:305-353 | per instrument the consumer sees the accepted ticks in order, some left out |
| `CoalesceBus.DepthBounded` | internal/bus/inproc/inproc.go:161-181 | the depth Stats reports, read in two steps, never exceeds capacity plus distinct instruments |
| `CoalesceBus.InternalRunsAreShort` | internal/bus/inproc/inproc.go:319-353 | once publishing pauses, no schedule has more steps than a measure of the work left |
| `CoalesceBus.SomeoneCanMove` | internal/bus/inproc/inproc.go:319-353 | there is no deadlock: some goroutine can move unless all is at rest with everything consumed |
| `CoalesceBus.LoopWaitsIff` | internal/bus/inproc/inproc.go:319-353 | the draining loop waits if and only if it has no token, or holds a tick and the channel is full, and then only before shutdown |
| `CoalesceBus.LoopCanReturn` | internal/bus/inproc/inproc.go:319-353 | after shutdown three steps of its own are enough for the loop to return from any state, without the consumer and without sending more |
| `CoalesceBus.LatestAlwaysArrives` | internal/bus/inproc/inproc.go:305-353 | wherever such a schedule stops, the consumer has received the newest accepted tick of every instrument |
| `QueueBus.EveryRun` | internal/bus/inproc/inproc.go:213-299 | under each queueing policy and any interleaving: the queue is the tail of what was sent, each earlier tick met one fate, counters agree with the history, the retry loop is bounded |
| `QueueBus.DropOldestConserves` | internal/bus/inproc/inproc.go:275-299 | delivered = consumed + dropped + queued, and the queue is a contiguous window ending at the latest tick sent |
| `QueueBus.DropOldestTerminates` | internal/bus/inproc/inproc.go:275-299 | over every schedule of consumer and shutdown steps, one delivery takes at most seven publisher steps (two iterations of the retry loop) and evicts at most one tick |
| `QueueBus.NeverWaits` | internal/bus/inproc/inproc.go:265-299 | a publisher inside a drop-newest or drop-oldest delivery always has a step it can take |
| `QueueBus.ReceivedIsThinned` | internal/bus/inproc/inproc.go:237-299 | the consumer sees the accepted ticks in order, some left out |
| `QueueBus.BlockIsLossless` | internal/bus/inproc/inproc.go:237-263 | while nobody gives up, consumer and queue together hold every accepted tick but the one in hand, in order |
| `QueueBus.FatesPartition` | internal/bus/inproc/inproc.go:275-299 | consumed and evicted ticks partition what left the queue, each in order |
| `Bus.FanOut.Publish` | internal/bus/inproc/inproc.go:79-99 | the nested loops deliver the batch to each subscriber in turn, stopping at the first error, for every outcome of every blocked delivery |
| `Bus.PublishIsolates` | internal/bus/inproc/inproc.go:79-99 | without a blocking subscriber Publish never errs, each subscriber ends as if it were alone, and any two map orders and any two sets of consumers give the same outcome |
| `Bus.PublishStopsAtError` | internal/bus/inproc/inproc.go:79-99 | an error is the first one in the order of the subscribers: those before it got the whole batch, those after it nothing |
| `Bus.UnfilteredTakesAll` | internal/bus/inproc/inproc.go:205-235 | an open queueing subscription without a filter and with room ends with every published tick, in order, at the end of its queue |
| `Bus.NothingForTheClosed` | internal/bus/inproc/inproc.go:213-216 | a closed subscription, or one whose filter names no instrument of the batch, is left untouched |
| `Bus.HighWaterIsHighest` | internal/bus/inproc/inproc.go:183-190 | the high-water mark is the greatest queue length seen after any delivery, or the mark before |
| `PubSub.EveryRun` | internal/bus/inproc/inproc.go:79-99 | in every run of the whole bus, with subscribing, closing, consumers and draining loops interleaved, each subscription is a run of its own machine that has accepted exactly the wanted ticks of the stretch of the stream published while it was open |
| `PubSub.AcceptsWhatItAskedFor` | internal/bus/inproc/inproc.go:205-216 | in every run a subscription without a filter has accepted all of the stretch of the stream published while it was open, and one with a filter exactly the ticks of that stretch whose instrument is in it, in order |
| `PubSub.BlockingLosesNothing` | internal/bus/inproc/inproc.go:237-263 | in every run without an error an open subscriber that blocks has, between consumer and channel, exactly the ticks it asked for of everything published since it came, in order, but the one it may be blocking on; between batches it has all of them |
| `PubSub.CancellingNeverWaits` | internal/bus/inproc/inproc.go:237-263 | a blocked delivery can be cancelled in every state; Publish is then over and no channel has changed |
| `PubSub.FailsIffCancelled` | internal/bus/inproc/inproc.go:213-263 | Publish errs in a run if and only if a blocked delivery was cancelled |
| `PubSub.SubscribingNeverWaits` | internal/bus/inproc/inproc.go:31-77 | in every state of every run, in the middle of a batch or a delivery, a subscription can be made; it starts empty, open and registered, and concerns what is published from then on |
| `PubSub.PublishingGoesOn` | internal/bus/inproc/inproc.go:79-99 | after a batch without an error the next can begin, over whatever subscriptions there are by then, in any map order |
| `PubSub.LeavingNeverWaits` | internal/bus/inproc/inproc.go:192-203 | a subscriber can leave in every state, also during a delivery to it; it is then closed with its channel as it was, and nothing else changes |
| `PubSub.ConsumingNeverWaits` | internal/bus/inproc/inproc.go:157-157 | the oldest tick in any channel can be taken in every state, also after closing |
| `PubSub.PublisherCanMove` | internal/bus/inproc/inproc.go:79-99 | with no blocking subscriber a publisher in the middle of a batch always has a step it can take |
| `PubSub.PublishFinishes` | internal/bus/inproc/inproc.go:79-99 | then a batch ends without an error within a bounded number of publisher steps, whatever everybody else does meanwhile |
| `PubSub.BatchCost` | internal/bus/inproc/inproc.go:79-99 | that bound is nine steps per subscriber and tick, one per subscriber and one |
| `PubSub.NeverFails` | internal/bus/inproc/inproc.go:213-235 | no run without a blocking subscriber returns an error from Publish |
| `Delivery.UndisturbedDelivery` | internal/bus/inproc/inproc.go:213-299 | left alone, every schedule of the publisher's steps in a drop-newest or drop-oldest delivery ends in the state the atomic delivery gives |
| `Delivery.BlockedDelivery` | internal/bus/inproc/inproc.go:237-263 | every schedule of publisher, consumer and shutdown that ends a blocked delivery: without a give-up the consumer made room and the queue holds the tick behind what was left, with one it is what the consumer left; unless the consumer took more than the wait allows or a shutdown came with a send, that is the atomic delivery's outcome, which errs exactly when cancelled |
| `Delivery.BlockedCanEnd` | internal/bus/inproc/inproc.go:253-262 | each of the three arms of the select is some schedule |
| `Delivery.CoalescingDelivery` | internal/bus/inproc/inproc.go:305-317 | the insert and the wake-up together are the atomic coalescing delivery |
| `Bus.DropOldestKeepsNewest` | internal/bus/inproc/inproc.go:275-299 | the queue ends as exactly the newest wanted ticks that fit |
| `Bus.DropNewestKeepsOldest` | internal/bus/inproc/inproc.go:265-273 | the queue ends as exactly the oldest ticks that fit |
| `Bus.CoalesceKeepsLatest` | internal/bus/inproc/inproc.go:305-317 | each instrument's last wanted tick is left pending |
| `Normalize.Sequencer.Assign` | internal/normalize/normalize.go:46-55 | stamping the slice in place computes `Stamp` on the counters and the ticks |
| `Normalize.Normalizer.Normalize` | internal/normalize/normalize.go:73-89 | each outcome, error or ticks, and the counters it leaves |
| `Normalize.FrameOutcome` | internal/normalize/normalize.go:73-89 | a frame yields ticks if and only if its decoder is registered, succeeds and returns some, and they are the decoded ticks with new numbers; otherwise it yields the matching error and no counter moves |
| `Normalize.PipelinePublishesAll` | internal/normalize/normalize.go:73-89 | over any stream of frames what is published is, numbers aside, the in-order concatenation of what the registered decoders made of the frames |
| `Normalize.StampGapless` | internal/normalize/normalize.go:46-55 | a further batch keeps every key's numbers 1, 2, 3, ... with the counter at their count |
| `Normalize.PipelineGapless` | internal/normalize/normalize.go:73-89 | the same across any stream of frames; failed, ignored and undecodable frames consume no number |
| `Normalize.StampKeepsTicks` | internal/normalize/normalize.go:46-55 | nothing about a tick but its number changes |
| `Fanout.EverySubscriberSeesIncreasing` | internal/bus/inproc/inproc.go:79-99 | in every run of the whole bus fed by the normalizer, every subscriber, under every policy, filter and moment of joining and leaving, has received strictly increasing numbers per (venue, instrument) |
| `Archive.DB.Append` | internal/store/sqlite/sqlite.go:157-212 | one transaction: on success first-write-wins insertion with the number of new rows, on failure no trace |
| `Archive.FirstWriteWins` | internal/store/sqlite/sqlite.go:157-162 | after any batch a key is present if and only if it was or the batch mentions it, with the old row or else the first tick |
| `Archive.FirstOfEachTrade` | internal/store/sqlite/sqlite.go:174-212 | for any stream of appends the archive holds exactly the ticks that are the first with their venue, instrument and trade id |
| `Archive.ReplayStoresNothing` | internal/store/sqlite/sqlite.go:157-212 | appending again any stretch of what was appended changes nothing |
| `Persist.Persister.FlushBatch` | internal/consumer/persist/persist.go:85-105 | the new batch, counters and table after a flush, failed or not |
| `Persist.Persister.Run` | internal/consumer/persist/persist.go:80-128 | the event loop computes the specification run up to the first stop |
| `Persist.EveryRun` | internal/consumer/persist/persist.go:80-128 | in every state received = stored + duplicate + lost in failed flushes + batch, and the table is first-write-wins insertion of what was flushed |
| `Persist.BatchingIsInvisible` | internal/consumer/persist/persist.go:80-128 | with no failed flush, the archive after shutdown is that of inserting the received ticks one at a time, for every batch size and flush schedule |
| `Persist.BatchStaysSmall` | internal/consumer/persist/persist.go:80-128 | between events the batch is smaller than the batch size |
| `Persist.FlushedWhenFull` | internal/consumer/persist/persist.go:116-121 | while ticks only arrive, flushes * batch size + batch = ticks, with the batch short of full: every full batch is flushed whole, and only then |
| `Persist.TimerEmptiesBatch` | internal/consumer/persist/persist.go:123-125 | the flush interval leaves nothing in the batch, whatever its size |
| `Paging.NormalizeLimit` | internal/store/store.go:125-134 | the limit used is always positive and capped |
| `Paging.Ticks` | internal/store/sqlite/sqlite.go:260-337 | the page is some ordering of the matching rows, ties either way, cut at the limit, with the cursor and HasMore that follow; an empty venue or instrument filters nothing |
| `Paging.PageFacts` | internal/store/sqlite/sqlite.go:260-337 | a page is ordered, repeats no row, selects only matching rows, and what it leaves out is not before its cursor and has HasMore set |
| `Paging.PageOnFields` | internal/store/sqlite/sqlite.go:260-337 | on the fields of the rows: a page holds only rows of the venue, instrument and half-open time range asked for, past the cursor; event times never fall, or never rise when descending, and equal times follow the trade id in the same direction; a row left out of a page is not ahead of any row on it; HasMore is set if and only if a row asked for is left out, which happens only on a full page, and the cursor is the last row's time and trade id |
| `Paging.ScanOnFields` | internal/store/sqlite/sqlite.go:260-337 | the same direction holds across all the pages of a scan with usable cursors |
| `Paging.ScanIsOrdered` | internal/store/sqlite/sqlite.go:260-337 | following NextCursor in either direction, for any query and with arbitrary inserts and deletes between pages, positions never move back and no row is returned twice |
| `Paging.ScanIsStrict` | internal/store/sqlite/sqlite.go:260-337 | without ties, as for one venue and instrument, positions strictly advance |
| `Paging.NamedNeverTies` | internal/store/sqlite/sqlite.go:40-51 | a query that names venue and instrument never meets a tie |
| `Paging.ArchiveIsWellKeyed` | internal/store/sqlite/sqlite.go:157-212 | every table an empty archive becomes by appends and deletions keeps each row under its own key |
| `Paging.ScanIsComplete` | internal/store/sqlite/sqlite.go:260-337 | every row present throughout and alone at its position is returned by the time HasMore is false |
| `Paging.ScanTerminates` | internal/store/sqlite/sqlite.go:260-337 | without inserts a scan has at most one page more than there were matching rows |
| `Paging.ScanFinishes` | internal/store/sqlite/sqlite.go:260-337 | and reaches HasMore = false when allowed that many |
| `Paging.WholeIffTieFree` | internal/store/sqlite/sqlite.go:284-335 | for any query over an unchanged archive, the scan ends and returns every matching row at every limit, however ties fall, if and only if no two matching rows share (event time, trade id) and none sits at the zero position with another still to come |
| `Paging.TiedTradesAreLost` | internal/api/httpapi/httpapi.go:200-206 | the input: one trade id at one instant on two instruments, no instrument named, one row a page; one of the two never comes |
| `Paging.ZeroCursorRepeats` | internal/store/store.go:51-59 | the input: a row at time zero with an empty trade id and one after it; the first page has more and its cursor is the zero cursor |
| `Paging.ContinuesUnlessZero` | internal/store/store.go:51-59 | the next page continues strictly after this one if and only if its cursor is not the zero cursor |
| `Paging.NoZeroRowMeansUsable` | internal/store/store.go:51-59 | without a row at the zero position every cursor of every scan is usable |
| `Candles.BucketHolds` | internal/consumer/candles/candles.go:38-40 | a bucket is a whole number of intervals and contains its time |
| `Candles.EpochIsTheCalendars` | internal/consumer/candles/candles.go:38-40 | the zero time Truncate counts from is 1969 Gregorian years before the Unix epoch |
| `Candles.Builder.Add` | internal/consumer/candles/candles.go:78-116 | per key the builder holds the open bar and exactly the last `history` closed bars of the fold over all ticks fed to it |
| `Candles.Builder.Retain` | internal/consumer/candles/candles.go:133-141 | history becomes the last `history` of the old bars and the new one; no other key changes |
| `Candles.Builder.Recent` | internal/consumer/candles/candles.go:145-162 | the newest closed bars up to the limit, oldest first, then the open bar |
| `Candles.BuildIsGroupBy` | internal/consumer/candles/candles.go:78-131 | the fold is the naive group-by: one bar per bucket of non-late ticks, open times strictly rising, each the OHLCV of exactly its ticks in arrival order, all but the last complete |
| `Candles.ClosedBarsNeverChange` | internal/consumer/candles/candles.go:78-116 | more ticks only append to the closed bars |
| `Candles.BarIsBracketed` | internal/consumer/candles/candles.go:78-131 | low <= open, close <= high in every bar |
| `Candles.VolumeIsExact` | internal/consumer/candles/candles.go:112-114 | volume is the exact sum of the quantities, of either sign, whenever every running total fits int64 at their finest scale |
| `Candles.LastTotalDecides` | internal/consumer/candles/candles.go:112-114 | for quantities that are not negative it is enough that the final total fits |
| `Adaptive.Bandit.Pick` | internal/strategy/adaptive.go:198-209 | the scan over eligible arms computes `PickArm` |
| `Adaptive.BestIsFirstBest` | internal/strategy/adaptive.go:198-209 | exploiting picks the first eligible arm of maximum score |
| `Adaptive.Bandit.Evaluate` | internal/strategy/adaptive.go:93-190 | the loop over instruments computes the specification run, state and signals |
| `Adaptive.EveryRun` | internal/strategy/adaptive.go:93-190 | over every run signals per instrument alternate buy and sell, each exit is by the arm that entered with the return from its entry price, trades count that arm's exits and its score is the closed-form weighted average of exactly those returns |
| `Adaptive.EverySignal` | internal/strategy/adaptive.go:93-221 | at every step of every run: a buy is emitted if and only if nothing is held, the bars suffice and some arm has the mean of its last fast closes above that of its last slow ones, and not so one bar earlier; it is by the arm the draw picks of exactly those; a sale if and only if the holding arm has the mirror condition; each at the last closed close, and a sale with (last - entry) / entry |
| `Adaptive.EwmaSnoc` | internal/strategy/adaptive.go:135-159 | the running update computes the explicit weighted sum |
| `Adaptive.ScoreInRange` | internal/strategy/adaptive.go:135-159 | a score lies between the lowest and highest return, extended by zero |
| `Paper.Account.constructor` | internal/consumer/paper/paper.go:130-151 | defaults and the starting book |
| `Paper.DefaultsFillIn` | internal/consumer/paper/paper.go:130-151 | fields that are set are kept, the others take the values of DefaultConfig |
| `Paper.Account.PositionValue` | internal/consumer/paper/paper.go:365-375 | the loop sums each position at its mark, or at cost before any |
| `Paper.Account.BuyNow` | internal/consumer/paper/paper.go:176-232 | the whole new book and the fill, or no change where the buy is declined |
| `Paper.Account.SellNow` | internal/consumer/paper/paper.go:234-267 | the whole new book and the fill, or no change where nothing is held |
| `Paper.Account.Apply` | internal/consumer/paper/paper.go:158-174 | refusal of non-positive prices, and dispatch |
| `Paper.Account.Mark` | internal/consumer/paper/paper.go:281-295 | the new marks, peak and drawdown, and nothing else |
| `Paper.Account.PlanOrder` | internal/consumer/paper/paper.go:181-217 | the arithmetic of a buy with its early returns |
| `Paper.Account.Snapshot` | internal/consumer/paper/paper.go:298-346 | every reported figure, for each of the two map iterations |
| `PaperRoundTrip.AffordableIsExact` | internal/consumer/paper/paper.go:204-210 | an order the guard lets through was computed without leaving cents: notional, fee and total are exact |
| `PaperRoundTrip.SellIsSmaller` | internal/consumer/paper/paper.go:243-245 | the same quantity at no higher a price has no larger a notional and no larger a fee |
| `PaperRoundTrip.RoundTripNeverGains` | internal/consumer/paper/paper.go:176-267 | buying and then selling at one reference price never increases cash, for every price, strength, fee rate and slippage up to 1; if the buy fills the trip costs at least both fees |
| `PaperSizing.BudgetIsCapped` | internal/consumer/paper/paper.go:184-197 | a positive budget is the lesser of cash and the risk limit, less the fee's headroom, up to half-cent roundings, from above and from below |
| `PaperSizing.LimitMeans` | internal/consumer/paper/paper.go:184-186 | the limit is equity times the position fraction times the strength, taken as 0 below 0 and as 1 above 1 |
| `PaperSizing.SizeExact` | internal/consumer/paper/paper.go:199-199 | a size is more than half a unit above budget / price if and only if it saturates on a quotient below MaxInt64 less a half |
| `PaperSizing.PositionIsCapped` | internal/consumer/paper/paper.go:184-204 | for every buy: the budget is the lesser of cash and risk limit; what is bought commits at most that and half a unit at the price if and only if the size does not saturate on a quotient below MaxInt64; then the notional exceeds the budget by roundings only, and unless the size saturates it is not short of it by more either |
| `PaperSizing.SaturatedSizeBreaksLimit` | internal/consumer/paper/paper.go:199-210 | the input where a size saturated on a smaller quotient fills for 9.22 against a limit of 1.00 |
| `PaperRestart.RestoreRoundTrips` | internal/consumer/paper/paper.go:392-426 | a saved book restores to itself less its marks, and the restore is refused, as a whole, if and only if some mantissa is MinInt64 |
| `PaperLedger.EveryRun` | internal/consumer/paper/paper.go:158-276 | over every run with restarts from any earlier save: each instrument's fills alternate entry and exit of the same quantity, a position is open exactly after an entry and carries its size and basis, wins are the sales whose realized profit is not negative and losses the others, buys - sells = open positions |
| `PaperFills.EveryFillIsFair` | internal/consumer/paper/paper.go:176-267 | each fill on the log of every run was asked for by a trade before it, for its instrument, side, time and reason; its price is within half a unit of ref * (1 + slippage) for a buy and ref * (1 - slippage) for a sale, its notional is price * quantity to roundings and its fee within half a cent of the rate on it, unless the number does not fit int64 |
| `PaperFills.EveryTradeActs` | internal/consumer/paper/paper.go:158-267 | over every run a trade adds exactly one fill and opens or closes its position if and only if its price is positive and it sells what is held, or buys what is not held with a budget that comes to a cent, a quantity of at least a unit and cash that covers cost and fee; otherwise nothing changes |
| `PaperFills.ZeroPriceBuysMost` | internal/consumer/paper/paper.go:181-210 | where a positive reference price, moved by the slippage, is under half a unit at the price precision, any budget that comes to a cent buys MaxInt64 whole units for nothing |
| `PaperFills.ApplyResult` | internal/consumer/paper/paper.go:158-174 | Apply errs if and only if the price is not positive, and returns a fill exactly when it added that one |
| `PaperLedger.RestartIs` | internal/consumer/paper/engine.go:291-312 | a restart keeps everything but the marks, or starts afresh where the save cannot be read back |
| `PaperTotals.EveryRunBalances` | internal/consumer/paper/paper.go:176-267 | over every run whose log stays within int64 cents: cash = starting cash - sum(buy notional + fee) + sum(sell notional - fee), and fees and realized profit are their sums over the log |
| `PaperTotals.SaleCostsNothing` | internal/consumer/paper/paper.go:243-245 | at a fee rate up to 1 the proceeds are non-negative if and only if the fee is representable in int64 cents (or the notional is the saturated amount itself) |
| `PaperTotals.SellCashSign` | internal/consumer/paper/paper.go:243-250 | a sale leaves cash non-negative if and only if its fee is representable in int64 cents or the cash covers the saturated fee |
| `PaperTotals.CashNeverNegative` | internal/consumer/paper/paper.go:158-276 | with rates in [0, 1] every book of a run has non-negative cash if and only if each sale, before it is made, meets that condition |
| `PaperSaturation.SaleCanCostMoney` | internal/consumer/paper/paper.go:243-245 | the input: a notional of 4.5e18 at fee rate 1 |
| `PaperSaturation.CashCanGoNegative` | internal/consumer/paper/paper.go:176-267 | the input: a run of one buy and one sale that ends with negative cash |
| `PaperTrips.EveryRunAccounted` | internal/consumer/paper/paper.go:204-267 | in every state cash moved less profit booked is the trips' gaps less what the open entries paid, and the open entries are the last fills of what is held |
| `PaperTrips.FlatBook` | internal/consumer/paper/paper.go:204-217 | when the book is flat, cash - starting cash - realized equals the sum over the closed trips, which pair up the whole log, of recomputed cost - amount paid |
| `PaperTrips.BasisError` | internal/consumer/paper/paper.go:215-217 | the basis times the quantity is within half a basis unit times the quantity of what was paid if and only if the basis does not saturate, or stands for MaxInt64 anyway |
| `PaperTrips.TripGapIsSmall` | internal/consumer/paper/paper.go:215-252 | then each such gap is under half a basis unit times the quantity, plus 5/9 of the product's last place, plus half a cent |
| `PaperTrips.EveryTripGapIsSmall` | internal/consumer/paper/paper.go:204-252 | so for every closed trip of every run in range whose basis did not saturate |
| `PaperSaturation.BasisCanSaturate` | internal/consumer/paper/paper.go:215-217 | the input: price 9e10, fee rate 0.1, eight places; the basis recorded is MaxInt64 |
| `PaperSnapshot.SumAnyOrder` | internal/consumer/paper/paper.go:365-375 | a sum over the positions is the same in every map order |
| `PaperSnapshot.ProfitIsAccounted` | internal/consumer/paper/paper.go:298-346 | for every book of every run, flat or not, total profit less realized less unrealized is exactly the closed trips' gaps plus one gap per open position, whatever the map order |
| `PaperSnapshot.ReportAmounts` | internal/consumer/paper/paper.go:298-346 | the amounts reported are the book's, to half a cent |
| `PaperSnapshot.ReportRates` | internal/consumer/paper/paper.go:298-346 | return and win rate are the percentages of starting cash and of closed trades, and zero where there is nothing to divide by; the counts and the drawdown are the book's |
| `PaperSnapshot.OpenGapIsSmall` | internal/consumer/paper/paper.go:305-310 | the gap of an unmarked position is that of a closed trip; of a marked one it is under half a basis unit times the quantity plus the roundings of two products plus a cent |
| `PaperDrawdown.HigherFallsFurther` | internal/consumer/paper/paper.go:290-294 | falling from higher up is no better if and only if the fall ends at a non-negative worth or the starts are equal |
| `PaperDrawdown.FallIsPercentage` | internal/consumer/paper/paper.go:290-294 | a fall is (peak - worth) / peak in per cent |
| `PaperDrawdown.DrawdownIsPeakFall` | internal/consumer/paper/paper.go:281-295 | over every run with positive starting cash the one-pass figure is the largest fall from a running peak |
| `PaperDrawdown.DrawdownNeverOverstates` | internal/consumer/paper/paper.go:281-295 | so it is the fall of some pair of worths in order, and no fall to a non-negative worth exceeds it |
| `PaperDrawdown.DrawdownIsPairwise` | internal/consumer/paper/paper.go:281-295 | it is the maximum over i <= j of (E_i - E_j) / E_i * 100 if and only if each fall from the lowest positive worth so far to a negative one is matched by some fall from a running peak; so always with non-negative equities |
| `PaperInsolvency.NegativeEquityUnderstates` | internal/consumer/paper/paper.go:281-295 | the input: a run whose worths are 100, 200 and -100 and whose figure is 150 where the pairwise maximum is 200 |

## Left out

- Venue connections and decoders (internal/venue), the HTTP API, the dashboard and cmd: sockets and UI.
- internal/broker, internal/telegram, internal/strategy/llm.go: clients of remote services.
- internal/consumer/live and internal/equitytrader: their one-position rule is a weaker form of the account's alternation, with an opaque broker.
- internal/instrument, internal/supervise, internal/store/janitor.go and the momentum strategy: small, with claims of one branch or one clamp.
- Prune, PruneToSize, Vacuum and the raw-frame and equity tables of the SQLite store: deletions appear only as arbitrary changes between pages.
- Trade ids are compared by character; SQLite compares their bytes, which is the same order for the ids venues issue.
- Account.Fills, the list of positions in a snapshot and the paper engine's timers: copies of state that is modelled.
- float64 rounding, NaN and infinity; the wrap-around of counters and of uint64 sequence numbers.
- Logging, high-water and blocked-time metrics in the interleaved machines, wall-clock time, context deadlines.
- Several publishers on one queue: the whole-bus machine and the drop-oldest bound have the single publisher the program has.
- PaperRoundTrip.RoundTripNeverGains: assumes cash within int64 cents and a buy price that does not saturate.
- PaperTotals.EveryRunBalances: assumes each amount on the log and each sum over it fits int64 cents; beyond that `Add` drops digits.
- PaperSnapshot.ProfitIsAccounted: assumes the sums a snapshot makes fit int64 cents, as the log's do.

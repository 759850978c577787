# A verified model of OpenForexAI's data, messaging and agent core

The repository collects five-minute (M5) candles, aggregates them into larger
bars, mirrors them for reporting and simulation, routes messages between agents,
and drives language-model agents through tool conversations. This project models
the parts of it that carry state or that compute one thing in two ways, and
proves what those parts promise.

* **Candles** (`Candles`, `CandleLaws`, `BarSpec`, `Resampler`). One definition of
  aggregation, "collect the candles of every bucket", one left fold over the series, and
  what the bars are, told from bars and candles alone. The two are equal exactly when the candles come in bucket order;
  folding may be cut anywhere; bars of bars are bars; a closed bar is final.
* **Mirror** (`Tables`, `ReportingSync`, `PassSpec`, `LateRows`, `KeySync`, `TradeJoin`,
  `MirrorDb`). The
  watermark-driven copy of the M5 table and of every timeframe derived from it, as a
  state machine over appends, committed passes and rolled-back passes, and the class
  that performs a pass; what becomes of rows that production writes late; the copies
  of market keys and of trades with their as-of join.
* **Reads** (`Windows`, `DataContainer`, `ReportingReader`, `MirrorReads`, `MirroredBars`,
  `KeyBackfill`). Reading only the newest rows, filling gaps with placeholders, reading
  as of a moment in the past, whether the mirror shows the bars the live store shows,
  and cutting bars that were resampled once for the whole series.
* **Messages** (`EventBus`, `BusRuns`, `RoutingStore`, `StableSort`). The bus with its queues,
  futures and fates, and the rule file with its owners.
* **Agents** (`Triggers`, `ToolLoop`). The candle divider in its two
  implementations, and the conversation loop with its budgets.
* **Support** (`JsonMerge`, `ConfigLoad`, `AgentIds`, `Peaks`, `LogWriter`, `Texts`). Configuration
  merge, agent ids and patterns, plateau peaks, the rotating log.

Timestamps are whole minutes on one fixed offset; prices, volumes and spreads are
integers. Clock readings, broker answers, model answers, tool results and faults are
parameters, so every statement holds for all of them. Code that changes things step
by step is a method or a class whose contract names a specification function; what
the code promises is then proved about that function. Beside it, the contract or a lemma
says what the result is without naming that function: which rows, in which order, with
which fields.

## Where code and documentation differ

The model follows the code. Each of these is stated as an exact condition.

* The sync says that everything after the watermark is all that can be missing
  (`reporting_sync.py:1-14`). A row that production writes late is taken up exactly when
  it lies beyond the watermark, when there is no watermark (as after a failed pass,
  which forgets it although the same text promises to try again from it), or when the
  mirror has the row already: `LateRows.TakenUpIff`, `LateRows.BelowMarkIsNotRead`. A
  derived table follows exactly as far back as a pass re-reads, one bar before its own
  watermark: `LateRows.BarsFollowIff`, `LateRows.LateCandleFollowsIff`. That watermark
  survives failed passes, so older bars never change again, and a bar that lacks a late
  row lacks it for good: `LateRows.OldBarsStand`, `LateRows.BarStaysStale`.
* A batch of market keys that ends inside a group of equal timestamps loses the rest of
  the group, and no later pass brings it back: `KeySync.KeyPassCompleteIff`,
  `KeySync.SplitTieIsLostForGood`.
* A mirrored bar is said to be the bar the agent sees (`reporting_sync.py:77-78`). The
  mirror aggregates gap placeholders, with a low of zero, where the live read drops them
  first: `MirroredBars.MirroredBarIsLiveIff`. The mirror ignores the configured bucket
  offset, which is harmless only for multiples of the timeframe:
  `MirroredBars.OffsetReadsAgreeIff`. The mirror has no bar that is still filling, the
  live read has, and where that leaves the mirror nothing it raises:
  `MirrorReads.MirrorIsLiveIff`. Read as of a moment, the mirror gives the bar of that
  moment with the candles that came later, the live read without them:
  `MirrorReads.AnchoredReadsAgreeIff`.
* The reporting reader promises the same contract as the production read
  (`reporting_reader.py:63-68`). It cuts to `limit` before it drops placeholders,
  production after; and where there is no row at or before the anchor it raises,
  production returns nothing: `ReportingReader.ReadsAgreeIff`.
* A trade listing as of a moment must not see later trades
  (`reporting_reader.py:134-144`). An anchor text that does not parse counts as no
  anchor: `ReportingReader.NoLookAheadIff`.
* A trade is joined with the series of its own broker only while no pair is traded
  through two brokers, since the series are cached by pair
  (`reporting_sync.py:177-203`): `TradeJoin.JoinedIsIdealIff`, and for the table that is
  left, `TradeJoin.TableIsIdealIff`.
* The key backfill says its rows use bars closed by the stamp
  (`backfill_market_keys.py:218-224`). It compares with five minutes after the last
  candle, so a bar that closes later, but by the stamp, is left out:
  `KeyBackfill.StampIsExactIff`, and for a base timeframe that divides the picked one
  `KeyBackfill.StampOnGridIff`.
* The routing store says orphans cannot exist (`routing_store.py:9-14`). Rules installed
  under an empty owner name become the designer's: `RoutingStore.EmptyOwnerLeaks`.
* Only a real change is said to touch the rule file (`routing_store.py:98-100`). A set
  that is not in priority order, or that holds a rule without a target, is written and
  reloaded every time it is installed: `RoutingStore.ReinstallSkipsIff`.
* The trigger divider promises a due trigger among any `d`. A forced run on another
  event starts the count over, so there may be none for ever:
  `Triggers.ForcedRunsStarveCandles`; when there is one, for all messages:
  `Triggers.HasDueIff`. A due trigger lost to a pause or a busy model is not retried,
  only one lost to the session filter is: `Triggers.NextIsDueIff`.
* A divider text that is no number means 1 to the agent and ends the composer's loop:
  `Triggers.RefreshKeepsAgreementIff`, `Triggers.StoppedHandlesNothing`.
* The tool protocol wants a result for every call (`ports/llm.py:3-14`). A response that
  carries calls but stops for another reason is answered by a reminder:
  `ToolLoop.HistoryShape`, `ToolLoop.ReminderLeavesCallOpen`.
* Import rules are said to be removed from the final configuration
  (`json_loader.py:18`); those of the personal file stay: `ConfigLoad.LoadedKeys`. Keys
  starting with an underscore are said to be stripped (`json_loader.py:174`); they are
  not, and the model keeps them.
* Built agent ids are not checked: `AgentIds.BuiltRoundTripsIff`.
* Two log rotations that produce the same file name lose the earlier file:
  `LogWriter.RotationLosesIff`.

## Model

| member | source | states |
|---|---|---|
| Candles.BucketStartIsFloor | openforexai/data/resampler.py:20-37 | the shifted floor division gives the one grid boundary at most one bucket before the timestamp, for negative offsets and times too |
| Candles.BucketsNest | openforexai/data/resampler.py:33-36 | flooring to a finer grid first never changes the coarse bucket |
| Candles.RangeIsTight | openforexai/data/resampler.py:88-89 | every candle of a bar lies in the bar's range and both ends are reached |
| Candles.StreamedConcat | scripts/backfill_market_keys.py:84-103 | folding a series from the left may be cut anywhere: the two halves joined, the bar at the seam healed |
| CandleLaws.StreamedIsGroupedIff | openforexai/data/resampler.py:76-98 | the single pass gives the bars of the grouping if and only if no candle belongs to an earlier bucket than one before it |
| CandleLaws.GroupsPartition | openforexai/data/resampler.py:76-84 | for an ordered series the groups, in bucket order, are the series again: nothing lost, repeated or moved |
| CandleLaws.GroupingConserves | openforexai/data/resampler.py:76-92 | for candles in any order the groups hold every candle once and the bars carry the whole volume |
| CandleLaws.VolumeConserved | scripts/backfill_market_keys.py:84-103 | the single pass carries the whole volume too, in any order |
| CandleLaws.GroupedComposes | openforexai/data/resampler.py:74-98 | grouping bars of a finer grid gives the bars of the candles, all fields |
| CandleLaws.ClosedIsFinal | openforexai/data/reporting_sync.py:118-121 | a bar kept by the incomplete-bar rule never changes when candles are appended |
| CandleLaws.BarsHoldCandles | openforexai/data/container.py:863-871 | the pigeonhole: `n` M5 candles need at least `n/k` bars, the newest holding only its reached slots |
| BarSpec.GroupedIsResampled | openforexai/data/resampler.py:72-98 | the same of the grouping itself, for candles in any order and any offset |
| Resampler.ResampleCandles | openforexai/data/resampler.py:40-98 | the first of four errors that applies; else bars with the target label that start on the grid shifted by the offset, every candle in exactly one of them, each with the open of its first candle, the close and spread of its last, their range and their volume |
| Resampler.CollectBuckets | openforexai/data/resampler.py:76-79 | the dictionary maps exactly the occurring buckets to their candles in input order |
| Resampler.EmitBars | openforexai/data/resampler.py:81-98 | one bar per bucket, smallest key first |
| Resampler.ResampleComposes | openforexai/data/resampler.py:59-98 | M5 to M15 to H1 is M5 to H1, for every chain of compatible timeframes |
| Tables.UpsertLookup | openforexai/data/reporting_sync.py:64-68 | INSERT OR REPLACE changes the row of its own timestamp and no other |
| Tables.Overlay | openforexai/data/reporting_sync.py:125-130 | writing a slice of an ordered series over a prefix of it leaves the longer prefix |
| ReportingSync.M5PassCopies | openforexai/data/reporting_sync.py:51-71 | after a pass the mirror is still a prefix of production, reaching exactly one batch further (or to the end) and holding every row up to its watermark |
| ReportingSync.DerivedPassIsOneShot | openforexai/data/reporting_sync.py:74-133 | incremental refines one-shot: re-reading from one bar before the watermark leaves the table equal to resampling all of M5 at once, newest bar dropped while incomplete |
| ReportingSync.SingleRowLags | openforexai/data/reporting_sync.py:102-103 | a single M5 row is skipped, which matters exactly when it closes its bucket |
| ReportingSync.NextKeepsInv | openforexai/data/reporting_sync.py:255-293 | appends, committed passes and failed passes keep mirror and production in step; a failed pass changes no candle row |
| ReportingSync.RunsKeepInv | openforexai/data/reporting_sync.py:255-293 | at every moment of every run the M5 mirror is a prefix of production up to its watermark and every derived table is its one-shot resampling |
| ReportingSync.PassesCatchUp | openforexai/data/reporting_sync.py:27-30 | each committed pass works off one batch of the unsynced rows; enough of them make mirror and production equal |
| LateRows.TakenUpIff | openforexai/data/reporting_sync.py:51-71 | once production has been read again, mirror and production are equal if and only if the late row lies beyond the watermark, or there is none, or the mirror holds the row already |
| LateRows.BelowMarkIsNotRead | openforexai/data/reporting_sync.py:55-61 | a row at or below the watermark makes no difference to a pass |
| LateRows.BehindReread | openforexai/data/reporting_sync.py:90-101 | an M5 row more than one bar behind a derived watermark makes no difference to the pass that derives it |
| LateRows.BarsFollowIff | openforexai/data/reporting_sync.py:90-133 | the next pass, whatever was appended by then, brings a derived table up to date with a late M5 row if and only if the row changes no bar, or nothing was derived yet, or the row lies in the part re-read and that part is more than one row |
| LateRows.LateCandleFollowsIff | openforexai/data/reporting_sync.py:90-133 | for a row of other volume than its slot held, such as a candle in a gap: the next pass takes it up if and only if nothing was derived yet, or it lies no further back than one bar before the watermark and is not all that is read, which it never is once a row was appended |
| LateRows.OldBarsStand | openforexai/data/reporting_sync.py:255-293 | over every run, with rows written anywhere and passes that fail, derived watermarks never go back and bars older than one bar before them never change |
| LateRows.BarStaysStale | openforexai/data/reporting_sync.py:284-290 | so a bar that lacks a late row of other volume never becomes the bar with it, also after a failed pass has let the row into the M5 mirror |
| MirrorDb.ReportingDb.SyncM5 | openforexai/data/reporting_sync.py:51-71 | the next rows above the watermark, 20 000 at most, are written over the table, the watermark goes to the last of them, and the count says how many |
| MirrorDb.ReportingDb.SyncDerived | openforexai/data/reporting_sync.py:74-133 | one timeframe: the rows from one bar before the watermark on are resampled, unless there is only one, the complete bars are written and counted, the watermark goes to the last of them; the other timeframes stay |
| MirrorDb.ReportingDb.SyncPass | openforexai/data/reporting_sync.py:268-282 | M5, all timeframes from the new M5, and the market keys; or, when any step raises, the tables as they were and the M5 watermark forgotten, so that every row of production, wherever it is written, is taken up by later passes |
| LateRows.FailedPassReadsAll | openforexai/data/reporting_sync.py:283-290 | after a failed pass, whatever row production writes then, at, below or above the old watermark: enough passes make the mirror equal to production |
| MirrorDb.SyncAll | openforexai/data/reporting_sync.py:255-293 | every pair, and then the copy of trades, commits or is rolled back on its own; a failing part changes nothing for the others, and an unreadable production changes nothing at all |
| MirrorDb.ReportingDb.constructor | openforexai/data/reporting_db.py:110-121 | a new mirror is empty and has no watermark |
| MirrorDb.ResampleRows | openforexai/data/reporting_sync.py:105-114 | the production resampler, applied to mirrored M5 rows, never raises and gives the grouping on a zero offset |
| KeySync.KeyMirror.SyncKeys | openforexai/data/reporting_sync.py:136-162 | the next key rows above the watermark, 20 000 at most, are stored under timestamp and parameter set, nothing else changes, and the watermark goes to the last of them |
| KeySync.KeyPassCompleteIff | openforexai/data/reporting_sync.py:145-161 | a pass keeps every row up to the new watermark if and only if its batch does not end between equal timestamps |
| KeySync.SkippedForGood | openforexai/data/reporting_sync.py:145-161 | a row at or below the watermark that is not mirrored stays out, whatever production holds at the later passes |
| KeySync.SplitTieIsLostForGood | openforexai/data/reporting_sync.py:145-161 | so the second half of a split group never arrives |
| TradeJoin.AsOfIsNewest | openforexai/data/reporting_sync.py:220-230 | the joined value is that of the newest row not later than the trade; none exactly when the whole series lies ahead |
| TradeJoin.LaterRowsDoNotMatter | openforexai/data/reporting_sync.py:220-230 | rows that begin later leave no trace in the join |
| TradeJoin.JoinedIsIdealIff | openforexai/data/reporting_sync.py:177-203 | every trade is joined with its own broker's series, whatever they hold, if and only if no pair has two brokers |
| TradeJoin.SyncTrades | openforexai/data/reporting_sync.py:165-250 | afterwards each id holds the row of its last dated order: request time, or fill time where there is none, the columns, and the market key and the spread that held then, from the series of the broker that traded the pair first; other rows stay; every dated order is counted |
| TradeJoin.TableAfter | openforexai/data/reporting_sync.py:177-250 | each id holds the row of its last dated order, joined with the series of the broker that traded the pair first; other rows stay |
| TradeJoin.TableIsIdealIff | openforexai/data/reporting_sync.py:177-203 | the table holds every trade with its own broker's series, whatever they hold, if and only if the last order of each id trades through the broker that traded its pair first |
| TradeJoin.CopyAgain | openforexai/data/reporting_sync.py:165-250 | copying the same orders once more changes nothing |
| Windows.WindowExact | openforexai/data/container.py:863-871 | reading the newest `limit*k + k + buffer` rows gives the last `limit` bars of the whole non-null history while at most the buffer's worth of them are null |
| Windows.WindowExactIff | openforexai/data/container.py:903-913 | whatever was cut off, the bars are exact if and only if more than `limit` bars remain, or exactly `limit` with the cut on a boundary, or nothing was cut |
| Windows.M5WindowExactIff | openforexai/data/container.py:895-901 | the M5 read is exact if and only if the rows read hold `limit` candles or nothing older is a candle |
| DataContainer.MissingSlots | openforexai/data/container.py:766-787 | exactly the five-minute slots of the window without a row, oldest first |
| DataContainer.NewestCoversWindow | openforexai/data/container.py:801-804 | the newest-`n` read contains every stored row of the `n`-slot window |
| DataContainer.FillWindow | openforexai/data/container.py:821-824 | after placeholders are written the window is complete and no stored candle was replaced |
| DataContainer.Container.EnsureComplete | openforexai/data/container.py:789-835 | when it returns and when it raises, call by call; after a normal return the `n` slots that end with the newest five minutes over by the clock reading used, or with a later row, all have rows; stored rows stay but for fetched ones, and a placeholder only goes into a slot that is over or lies before a stored or fetched candle |
| DataContainer.FilledIff | openforexai/data/container.py:751-756 | the window that counts as complete is the one that ends with the newest five minutes over at the clock reading, or with a later row |
| DataContainer.Container.GetM5Candles | openforexai/data/container.py:894-901 | the last `limit` candles among the newest `limit + 2016` rows up to the anchor, for every limit; they are the newest of the non-null history within the placeholder buffer; a repair that leaves the slots up to the clock reading filled, and none when there is an anchor |
| DataContainer.Container.GetCandles | openforexai/data/container.py:903-913 | the last `limit` bars that the candles among the newest `limit*k + k + 2016` rows up to the anchor make, for every limit; they are the last bars of the non-null history within the placeholder buffer; a repair that leaves the slots up to the clock reading filled, and none when there is an anchor |
| KeyBackfill.Resample | scripts/backfill_market_keys.py:84-103 | the loop over the current bar computes the fold, last bar included |
| KeyBackfill.SlotBarsAreGrouped | scripts/backfill_market_keys.py:84-103 | bucket, open, high, low, close and volume agree with the production resampler on any series in bucket order |
| KeyBackfill.SlotBarsSay | scripts/backfill_market_keys.py:84-103 | for candles in order these are the bars they make: every candle in one bar, first open, last close, range and volume |
| KeyBackfill.BarBegins | scripts/backfill_market_keys.py:84-103 | every bar carries the open time of its first candle |
| KeyBackfill.PickIsClosed | scripts/backfill_market_keys.py:203-205 | bisecting the bars of the whole series gives what resampling only the candles known by then would give |
| KeyBackfill.PickIsExact | scripts/backfill_market_keys.py:231-236 | bisect and one step back select exactly the bars closed five minutes after the newest candle opened |
| KeyBackfill.StampIsExactIff | scripts/backfill_market_keys.py:218-227 | for every base timeframe, those are the bars closed by the row's stamp if and only if the newest candle's bar does not close between the cut and the stamp and the next candle's bar does not close by the stamp |
| KeyBackfill.StampOnGridIff | scripts/backfill_market_keys.py:218-227 | for a base timeframe that divides the picked one: if and only if the base is M5 or no bar ends at the stamp |
| KeyBackfill.MakeRow | scripts/backfill_market_keys.py:195-255 | the row for a moment equals the row computed from the candles up to that moment alone |
| KeyBackfill.Backfill | scripts/backfill_market_keys.py:195-264 | one row, oldest first and across the flushes, for every moment that gives one: the key from the `lookback` newest candles, the `warmup` before them and the newest 30 closed bars (25 at least), the position from the newest 100 closed M15 and H1 bars (20 at least) and the last close, valid from the stamp |
| KeyBackfill.KeysAreNewestBars | scripts/backfill_market_keys.py:206-210 | a key computation that gives back the bars it is handed writes, in every row, the closed bars of that moment, the newest ones, 30 or as many as there are |
| KeyBackfill.LaterCandlesChangeNothing | scripts/backfill_market_keys.py:195-227 | no look-ahead: appended or changed later candles leave all rows up to a moment as they are |
| KeyBackfill.WrittenRowsStand | scripts/backfill_market_keys.py:195-264 | the rows written for a series are the first rows written for any longer one |
| ReportingReader.GetTrades | openforexai/data/reporting_reader.py:126-214 | the first `limit` (at least one) of the trades of the pair that were opened by the anchor (filled, or requested where the fill cannot be read) and have the status by then, later openings first, unreadable ones last, ties in table order; each shown open while its close lies ahead, and then without its outcome |
| ReportingReader.ListingSeesNoFuture | openforexai/data/reporting_reader.py:173-208 | two tables that differ only in later trades and in closes still ahead are listed the same |
| ReportingReader.StatusesPartition | openforexai/data/reporting_reader.py:177-184 | open and closed split the listing, each in the common order |
| ReportingReader.ClosedStaysClosed | openforexai/data/reporting_reader.py:185-208 | a trade closed at one anchor is reported with the same fields at every later one; an open one shows no outcome |
| ReportingReader.NoLookAheadIff | openforexai/data/reporting_reader.py:134-164 | a listing as of a text is blind to what lies after some moment if and only if the text parses, and then the moment is the parsed one |
| ReportingReader.GetCandles | openforexai/data/reporting_reader.py:55-110 | the rows with a close price among the newest `limit` at or before the anchor, or the error for no table or no rows |
| ReportingReader.ReadsAgreeIff | openforexai/data/reporting_reader.py:63-68 | for any table, limit and anchor (rows without a close price being placeholders) the mirror read of M5 returns what the production read returns if and only if it finds a row, and the newest `limit` rows hold no placeholder or none of the older rows production looks at holds a candle |
| MirroredBars.MirroredBarIsLiveIff | openforexai/data/reporting_sync.py:77-78 | bar by bar, on a zero offset: a complete bar the agents see is the mirrored bar if and only if none of its slots is a placeholder; a bar of placeholders alone is shown by neither |
| MirroredBars.OffsetReadsAgreeIff | openforexai/data/reporting_sync.py:105-114 | the reads that agree on a zero offset agree with a bucket offset, for all histories, if and only if the offset is a multiple of the timeframe |
| MirrorReads.MirrorIsLiveIff | openforexai/data/reporting_sync.py:74-79 | where the rows read hold no placeholder, the mirror read of a higher timeframe returns the live read without the bar still filling, or raises where that leaves nothing; so they are the same if and only if M5 has reached the end of the newest bar |
| MirrorReads.AnchoredReadsAgreeIff | openforexai/data/reporting_reader.py:63-68 | as of any moment, without placeholders, the two return the same if and only if a candle is known then, its bar is complete without later candles, and the mirror has no later bar begun by that moment |
| StableSort.SortIsStable | openforexai/messaging/routing_store.py:126 | ordered by key, elements of equal key in the order they had, the same elements |
| StableSort.SortPlaces | openforexai/messaging/routing.py:287 | place by place: every element once, the smaller key first, and of equal keys the one that stood first |
| StableSort.SortedMeans | openforexai/messaging/routing.py:287 | sorted means that no key is larger than one that comes later |
| StableSort.FilterSort | openforexai/messaging/routing_store.py:104-108 | selecting and sorting commute |
| EventBus.NextKeepsInv | openforexai/messaging/bus.py:172-401 | every operation keeps: queues within capacity and an unread suffix of what was delivered, pending maps with equal keys, futures holding exactly what they were given, chains equal to ancestor paths, messages dispatched in publish order |
| EventBus.RunsAreSafe | openforexai/messaging/bus.py:172-401 | so it holds in every state of every run from an empty bus |
| EventBus.RunsOnlyGrow | openforexai/messaging/bus.py:293-401 | over a run no fate, no acceptance and no settled future ever changes: one dispatch per message, one result per future |
| EventBus.DispatchDelivers | openforexai/messaging/bus.py:306-401 | a dispatched message reaches, once and at the end of the queue, exactly the members that are addressed and have room; only an awaited answer touches a future |
| EventBus.UnreadStays | openforexai/messaging/bus.py:172-401 | an undelivered message leaves a queue only when its member reads it, oldest first, or is unregistered |
| EventBus.DrainedDispatchesAll | openforexai/messaging/bus.py:293-304 | draining leaves nothing inbound and gives every accepted message its fate |
| EventBus.ResolveTargets | openforexai/messaging/routing.py:182-218 | the loop gives the targets of all matching rules, each once, and whether any matched |
| EventBus.ResolveDistinct | openforexai/messaging/routing.py:182-218 | no target twice; a member is a target exactly when a matching rule names it |
| EventBus.EventBus.constructor | openforexai/messaging/bus.py:93-120 | a new bus satisfies the invariant |
| EventBus.EventBus.RegisterMember | openforexai/messaging/bus.py:172-186 | an existing queue stays as it is |
| EventBus.EventBus.UnregisterMember | openforexai/messaging/bus.py:196-200 | the queue goes, with what was unread, and nothing else changes |
| EventBus.EventBus.RegisterResponseFuture | openforexai/messaging/bus.py:212-222 | both pending maps get the correlation id |
| EventBus.EventBus.CancelResponseFuture | openforexai/messaging/bus.py:224-227 | both pending maps lose it |
| EventBus.EventBus.Publish | openforexai/messaging/bus.py:231-259 | accepted, with the chain extended by its trigger, accepted before or not, if and only if it has a source and all required fields; otherwise nothing changes |
| EventBus.EventBus.PutAll | openforexai/messaging/bus.py:379-401 | the message is put into each registered queue with room |
| EventBus.EventBus.DispatchNext | openforexai/messaging/bus.py:306-401 | one dispatch: a reload takes the rules of the disk when they can be read, an awaited answer settles its future, and anything else is put once into the queue of exactly the members addressed that have room; nothing else of the bus changes, the rules least of all; the invariant holds after it |
| EventBus.DispatchSays | openforexai/messaging/bus.py:306-401 | the same of every dispatch of every bus, with the fate that is logged |
| BusRuns.DrainReaches | openforexai/messaging/bus.py:293-304 | over a drain, each message is dispatched under the rules of the last reload before it that could be read, and reaches exactly the members those name that have room when its turn comes |
| BusRuns.BehindReload | openforexai/messaging/bus.py:306-382 | in particular, a message behind a reload request reaches the members the reloaded rules name |
| EventBus.EventBus.Flush | openforexai/messaging/bus.py:293-304 | the whole inbound queue is drained, whatever rules each reload on the way finds |
| RoutingStore.RuleRoundTrip | openforexai/messaging/routing.py:240-288 | a rule survives writing and reading; without a target it is dropped, without an owner it becomes the designer's |
| RoutingStore.ParseStandsFor | openforexai/messaging/routing.py:264-288 | entry by entry: the values given, and else "*", 100, "rule_" with the index in four digits or more, not disabled, owned by the designer |
| RoutingStore.WriteThenRead | openforexai/messaging/routing_store.py:121-130 | writing and reading back sorts and drops the rules without a target |
| RoutingStore.ReplaceInstalls | openforexai/messaging/routing_store.py:80-109 | the owner has exactly the new set, every other owner what it had, also when the file is left alone |
| RoutingStore.SaveInstalls | openforexai/messaging/routing_store.py:111-119 | the designer has exactly the new set, every service what it had |
| RoutingStore.OwnersAreIsolated | openforexai/messaging/routing_store.py:80-130 | after any interleaving each owner has the last set it installed, stably sorted |
| RoutingStore.FileStaysSorted | openforexai/messaging/routing_store.py:121-130 | the entries of the file stay in priority order |
| RoutingStore.ReinstallChangesNothing | openforexai/messaging/routing_store.py:99-107 | installing the same set again leaves the rule list as it is |
| RoutingStore.ReinstallSkipsIff | openforexai/messaging/routing_store.py:98-104 | and it leaves the file untouched if and only if the set is in priority order and every rule has a target (or, for the empty owner name, the set is empty) |
| RoutingStore.EmptyOwnerLeaks | openforexai/messaging/routing_store.py:91-107 | an empty owner name leaves the designer's rules alone if and only if none of the rules has a target |
| RoutingStore.RulesFromDict | openforexai/messaging/routing.py:264-288 | the rules of the entries that have a readable priority and a target, smaller priorities first, ties in file order, every missing value as the code fills it in |
| RoutingStore.RoutingRuleStore.Write | openforexai/messaging/routing_store.py:121-130 | one entry per rule, smaller priorities first, ties in the order given, empty comments, "not disabled" and the designer's name left out; the other top-level keys stay |
| RoutingStore.RoutingRuleStore.RulesByOwner | openforexai/messaging/routing_store.py:66-76 | the owner's readable rules, or an error for a corrupt file |
| RoutingStore.RoutingRuleStore.ReplaceOwner | openforexai/messaging/routing_store.py:80-109 | refused for the designer; nothing happens when the owner's rules as read have the same entries as the given ones; otherwise the file is reloaded and holds the rules of everybody else and then the given ones under the owner's name, by priority, also where that changes nothing |
| RoutingStore.RoutingRuleStore.SaveDesignerRules | openforexai/messaging/routing_store.py:111-119 | always written and reloaded: the given rules under the designer's name and then those of everybody else, by priority |
| Triggers.CounterInRange | openforexai/agents/agent.py:386-420 | over every run the counter stays between zero and the divider |
| Triggers.HasDueIff | openforexai/agents/agent.py:386-420 | for all messages: some candle trigger is due if and only if one is forced or, between two points at which the counter starts from a new value, the candle triggers with what the stretch starts with reach the divider |
| Triggers.DueWithinDivider | openforexai/agents/agent.py:386-401 | in particular, without a new configuration or a forced run on another event, any `d` candle triggers contain a due one |
| Triggers.ForcedRunsStarveCandles | openforexai/agents/agent.py:626-633 | with such a forced run in every cycle no candle trigger is ever due, however many there are |
| Triggers.NextIsDueIff | openforexai/agents/agent.py:655-716 | the next candle trigger is due if and only if this one was the last but one, met only a closed session, or ran and asked for it |
| Triggers.AgentRefinesComposer | openforexai/composers/composer.py:342-370 | on ordinary messages the agent's reset counter is the composer's counter modulo the divider and the same triggers are due |
| Triggers.EveryDth | openforexai/agents/agent.py:386-401 | then the due candle triggers are exactly every `d`-th |
| Triggers.RefreshKeepsAgreementIff | openforexai/agents/agent.py:243-246 | a new configuration keeps the two in step if and only if both read the same divider from it and the composer's count is at the start of a cycle |
| Triggers.StoppedHandlesNothing | openforexai/composers/composer.py:352-354 | a configuration the composer cannot convert ends its loop: no later message starts a run |
| Triggers.Agent.ShouldRunForTrigger | openforexai/agents/agent.py:386-401 | due or not, the new counter, and the count shown |
| Triggers.Agent.MaybeAccelerate | openforexai/agents/agent.py:403-420 | the counter jumps to the divider only for a candle trigger that asked |
| Triggers.Agent.HandleTrigger | openforexai/agents/agent.py:626-716 | exactly one outcome, the first that applies of paused, divider not reached, outside the session, model busy, run, with the counter it leaves in each case, and what the display shows; it promises a run exactly when the model is the only obstacle |
| Triggers.Agent.ApplyConfig | openforexai/agents/agent.py:236-246 | the cycle starts over with the divider the configuration means: the number given, as such or as a text, at least 1, and 1 for everything else |
| Triggers.ComposerLoop | openforexai/composers/composer.py:342-370 | message by message: the count goes on over new configurations, a run starts for another event or for the candle that fills the divider, a fraction is cut off, and the loop ends on the first configuration that cannot be converted |
| ToolLoop.LoopIsBounded | openforexai/agents/agent.py:1187-1301 | at most `max+1` model calls, `max` tool rounds, two reminders; tokens are the sum over all calls; the loop stops only for the reasons named |
| ToolLoop.HistoryShape | openforexai/agents/agent.py:1265-1298 | assistant turns and replies alternate, executed turns are followed by the results of their calls in order, and all calls are answered if and only if no reminded response carried any |
| ToolLoop.ExchangesAlternate | openforexai/agents/agent.py:1275-1298 | position by position the roles alternate |
| ToolLoop.IncompleteIff | openforexai/agents/agent.py:1303-1313 | the cycle is reported incomplete if and only if the model did not fail in the loop and some required call matches no executed call, also when the schema-bound call that follows fails |
| ToolLoop.ReportAddsUp | openforexai/agents/agent.py:1303-1334 | the report holds the last answer, the tokens of all calls including the schema-bound one, and the names of the executed calls |
| ToolLoop.ReminderLeavesCallOpen | openforexai/agents/agent.py:1265-1277 | a response with calls that stops for another reason is answered by text |
| ToolLoop.ExecutedInOrder | openforexai/tools/dispatcher.py:75-92 | one result per call, in the order of the calls, under their ids and names |
| ToolLoop.ExecutedAt | openforexai/tools/dispatcher.py:75-92 | the result of every call, with what its tool answered, stands at its place |
| ToolLoop.NudgeLines | openforexai/agents/agent.py:1576-1586 | the reminder has one line for each missing call, its own text or the standard one |
| ToolLoop.ToolCallMatches | openforexai/agents/agent.py:1549-1563 | tool name and every restricted argument allowed, a missing argument counting as null; entries that are not lists restrict nothing |
| ToolLoop.RunWithTools | openforexai/agents/agent.py:1162-1334 | from the history entries that say something and the message on, turn by turn: calls are executed while turns are left, an answer is final unless a required call is missing and fewer than two reminders were sent; the report, and exactly the required calls missing at the end |
| JsonMerge.MergedObject | openforexai/config/json_loader.py:122-130 | the keys are those of both objects, base order first, each with the value the two sides determine |
| JsonMerge.MergeSelf | openforexai/config/json_loader.py:113-136 | merging a document with itself gives it back |
| JsonMerge.MergeAgain | openforexai/config/json_loader.py:113-136 | merging the same overrides twice is merging them once, for every rule set |
| JsonMerge.MergedIsStable | openforexai/config/json_loader.py:113-136 | merging the merged document over the default one again gives it back |
| ConfigLoad.LoadAgainIff | openforexai/config/json_loader.py:147-168 | saving the loaded configuration as the personal one and loading again changes nothing, for all documents, if and only if substituting environment references a second time changes no text |
| JsonMerge.MergeAt | openforexai/config/json_loader.py:119-130 | at a path both documents have: exactly the override where the path or one above it is under a rule, else the two values merged |
| JsonMerge.MergedAt | openforexai/config/json_loader.py:113-136 | for keys that mean themselves in a path: exactly the override where a rule stands for the keys or for those on the way to them; else an object with the keys of both, an array with the elements of both, new ones in the order of the override, or the override |
| JsonMerge.MergeAssociativeIff | openforexai/config/json_loader.py:113-136 | three layers merge the same from either side if and only if no middle value of another kind hides a container that would have added something to the next one |
| JsonMerge.AddsNothingIff | openforexai/config/json_loader.py:101-136 | a base adds nothing to an override if and only if, at every shared path not under a rule, its keys and elements are those the override begins with, the override repeating none |
| JsonMerge.KindsAgreeAssociates | openforexai/config/json_loader.py:113-136 | in particular where no key changes kind |
| JsonMerge.UniqueKeepsAll | openforexai/config/json_loader.py:101-110 | the base stays in front, all elements are there, no new repeats |
| JsonMerge.PathMatchesRule | openforexai/config/json_loader.py:83-98 | both paths, without white space and dots at their ends, have the same number of dotted parts, each part of the rule a star or the same; an empty rule matches nothing |
| JsonMerge.ArrayAppendUnique | openforexai/config/json_loader.py:101-110 | the loop over `seen` appends without repeats |
| JsonMerge.DeepMerge | openforexai/config/json_loader.py:113-136 | the recursive loop computes the merge |
| ConfigLoad.LoadWithDefaults | openforexai/config/json_loader.py:147-168 | default and personal file, both substituted, merged under the rules of the default one, or the error for a missing or non-object file |
| ConfigLoad.LoadedAt | openforexai/config/json_loader.py:147-168 | the same of the loaded configuration, for the rules listed under "ImportRules" and "Replace" in the default file, stripped, blank ones left out |
| ConfigLoad.ReplaceRulesMean | openforexai/config/json_loader.py:155-160 | those rules, and none where there is no such list |
| ConfigLoad.SubstitutedSays | openforexai/config/json_loader.py:69-76 | substitution case by case: texts, elements of lists and values of objects, nothing else |
| ConfigLoad.LoadedKeys | openforexai/config/json_loader.py:155-165 | which keys the loaded configuration has; the import rules only where the personal file holds them |
| ConfigLoad.SubstitutedLookup | openforexai/config/json_loader.py:69-76 | substitution changes no key, and what is found under a key is what was there, substituted |
| AgentIds.ParseThenFormat | openforexai/messaging/agent_id.py:64-89 | a parsed id prints as the stripped text and is well formed |
| AgentIds.ParseReads | openforexai/messaging/agent_id.py:64-89 | a text of the format is read part by part, unless its type is unknown or a name shorter than five has an extension, in this order |
| AgentIds.ParseRefusesIff | openforexai/messaging/agent_id.py:64-75 | a text is refused as badly formed if and only if it is no broker of five word characters, pair of six, type of two capitals, name of one to five capitals or digits, and extension on one line |
| AgentIds.FormatThenParseIff | openforexai/messaging/agent_id.py:131-136 | parsing the printed form gives the id back if and only if it is well formed |
| AgentIds.BuiltRoundTripsIff | openforexai/messaging/agent_id.py:99-127 | for built ids: if and only if the used parts have the characters, type and extension an id may have |
| AgentIds.BuiltSays | openforexai/messaging/agent_id.py:99-127 | building pads and cuts broker, pair and name in upper case, and refuses an extension if and only if the name is shorter than five |
| AgentIds.GlobIff | openforexai/messaging/agent_id.py:177-183 | a segment matches if and only if it is the pattern with some text for every star |
| AgentIds.SegMatchIsGlob | openforexai/messaging/agent_id.py:169-183 | the three cases are one glob on the bare upper-case texts |
| AgentIds.MatchesItself | openforexai/messaging/agent_id.py:186-202 | every well-formed id matches its own printed form as a pattern |
| AgentIds.WideningKeepsMatches | openforexai/messaging/agent_id.py:186-202 | replacing a segment of a pattern by a star never loses a match |
| AgentIds.MatchesIff | openforexai/messaging/agent_id.py:186-202 | a pattern matches an id if and only if it has four parts, each its segment without case and padding and with texts for the stars, and a fifth, if there is one, is a star or the extension without case |
| Texts.BetweenIsStrip | openforexai/messaging/agent_id.py:66 | stripping leaves the one part of the text whose ends are no white space and outside of which all is |
| Texts.UpperMeans | openforexai/messaging/agent_id.py:169-183 | upper case, letter by letter |
| Peaks.Compress | openforexai/data/indicators.py:124-132 | the runs partition the series, equal inside and different from the next, with value and midpoint of each |
| Peaks.FindPeaksPlateau | openforexai/data/indicators.py:113-139 | in increasing order, midpoint and prominence of exactly the runs strictly higher than both neighbours whose own prominence reaches the wanted one |
| Peaks.ProminenceMeans | openforexai/data/indicators.py:134-139 | the prominence is the height above the higher of the two lows met, to the left and to the right, before anything higher or the end |
| Peaks.EveryPlateauPeakCounts | openforexai/data/indicators.py:113-139 | with no prominence asked for these are all the strictly higher runs |
| Peaks.SwingLows | openforexai/data/indicators.py:149-153 | the highs of the negated series are exactly the valleys of the series, with their depth |
| LogWriter.WriteKeeps | tools/logging.py:128-146 | a write loses nothing but what pruning takes from the old end, keeps every file within the limit or at one record, and leaves at most `max_files` files after a rotation |
| LogWriter.RunsConserve | tools/logging.py:128-210 | over a run with rotations in distinct minutes the files, oldest first, hold exactly the newest of the written records in order, all of them without pruning, and no file exceeds the limit unless it holds one record |
| LogWriter.OldestFreeGo | tools/logging.py:178-210 | whatever the directory holds, the active file and those that cannot be deleted stay, and of the others exactly the oldest go |
| LogWriter.DroppedAreOldest | tools/logging.py:178-210 | with the active file last, exactly the oldest files go |
| LogWriter.RotationLosesIff | tools/logging.py:148-165 | a rotation loses records if and only if the closed name is taken by a file that holds some |
| LogWriter.NewSessionInv | tools/logging.py:95-114 | a session starts in order when no file carries its minute or a later one |
| LogWriter.RotatingWriter.PruneOldFiles | tools/logging.py:178-210 | files go from the old end, the active one and those that cannot be deleted skipped, until no more than the limit are left or none is left that may go |
| LogWriter.RotatingWriter.Rotate | tools/logging.py:148-176 | the active file is renamed, a new one opened, the byte count reset, old files pruned |
| LogWriter.RotatingWriter.Write | tools/logging.py:128-146 | a record that fits goes to the end of the active file; one that does not starts a new one, the old file closed under its end minute, and of the files then there the newest `max_files` stay |
| LogWriter.RotatingWriter.Close | tools/logging.py:214-229 | the active file takes its closed name, in place of a file that has it, or stays where it cannot be renamed |
| LogWriter.RenameMeans | tools/logging.py:148-165 | a rename: the new name has the records the old one had, the old name is gone, and no other name is touched |
| LogWriter.NamesMean | tools/logging.py:148-176 | what is under a name: the records of the newest file that has it; a name is absent when no file has it |

## Left out

- Real time zones, daylight saving, mixed offsets and sub-minute timestamps: one fixed offset and whole minutes; the resampler's truncation of part minutes below the epoch is not modelled.
- Decimal prices and floating point: integers, since only comparison, selection and addition of counts matter here.
- MirrorDb.SyncAll: the pairs are given; finding them in production and opening the databases are not modelled, and the series the trades are joined with are given as what the mirror holds by then.
- TradeJoin.SyncTrades: the columns copied or parsed out of the stored context are one arbitrary function of the order; times arrive parsed, so an unreadable one, which rolls the whole copy back, is not modelled.
- `_f`, `_dec`, table names and SQL text: not modelled.
- ReportingSync.RunsKeepInv: production rows are appended in time order on the five-minute grid; rows written behind the watermark are the subject of LateRows.
- LateRows.BarStaysStale: the late row differs in volume from what it replaces; other differences may or may not show in a bar.
- MirrorReads.MirrorIsLiveIff: a mirror that has caught up, a zero offset, and rows read without placeholders; MirroredBars says what placeholders and an offset do.
- MirrorReads.AnchoredReadsAgreeIff: no placeholders, and candles have volume.
- DataContainer.Container.EnsureComplete: one pair with its lock held, so no interleaving with other writers; the broker request itself is the parameter `fetch`.
- The container's handlers for candle events, gap reports, bulk data and bus requests, its registration of brokers, and the answer to an unknown timeframe: not modelled.
- Windows.WindowExactIff: candles that were cut off are assumed to have volume, as non-null candles of the broker do.
- KeyBackfill.Backfill: the candles are those with a non-zero close, on the M5 grid; the FOMAK and FOPOK computations are arbitrary functions; the text explaining a missing position is not modelled.
- KeyBackfill.LaterCandlesChangeNothing: agreement with the live key maintenance is not claimed.
- EventBus.EventBus.Publish: event persistence, monitoring and the slow-response warning (which publishes a message of its own) are not modelled.
- EventBus.ResolveTargets: what a rule matches and which members it names are arbitrary functions of event, sender and the registered names.
- RoutingStore.RoutingRuleStore.ReplaceOwner: the caller's rule objects get their owner set in place; the model works on values. Writing through a temporary file and the lock are not modelled.
- Triggers.Agent.HandleTrigger: the session filter, the pause switch, the run lock and the answer's request are inputs; timer runs and queries, which do not touch the counter, are not modelled.
- ToolLoop.RunWithTools: message texts only as far as they decide the loop; tool visibility, images, diagnostics and the approval of single calls are not modelled. A required call counts as executed even when its result is an error, as in the code.
- JsonMerge.MergedAt: keys that are empty, hold a dot, or begin or end with white space do not mean themselves in a path; JsonMerge.MergeAt covers them by the path as it is written. ConfigLoad.LoadedAt likewise.
- ConfigLoad.LoadWithDefaults: the JSON5 parser is not modelled; how one text is substituted and how a value that is no text is written are arbitrary functions.
- AgentIds.SegMatchIsGlob: upper case is that of ASCII, and values contain no line breaks.
- Peaks.FindPeaksPlateau: the signal library is represented by its contract (strict peaks whose prominence over the whole series reaches the wanted one).
- LogWriter.RunsConserve: old files can be deleted (OldestFreeGo covers those that cannot) and new ones opened; a session that reopens an existing file counts its bytes from zero and is outside the size statement, and so is a failed rename followed by a new file in the same minute.
- HTTP and user interface, start-up wiring, adapters, indicators in floating point, user scripts, prompt assembly: not modelled.

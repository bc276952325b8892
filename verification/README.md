# A verified model of the cross-chain message archive

The service indexes bridge events from many chains into one message store and serves
that store through an API and a monthly archive. Its indexing loops crash, their calls
fail and the chains below them reorganize. This project models those loops, the store
they share and the read paths on top of it, and proves what survives.

How the pieces correspond:

- **Messages** (`Normalizer.dfy`, `MessageStore.dfy`, `Correlator.dfy`). An event
  becomes one store operation (`OpOf`): store a message, correlate a destination, or
  nothing. `PostgresMessageStore` is the five tables; each method is one transaction
  and is proved to be one step on the joined rows (`Store`). `Core` is a row without
  `created_at` and `updated_at`; clock readings are arguments.
- **Runs of operations** (`Lifecycle.dfy`, `Recovery.dfy`, `Registers.dfy`,
  `Replay.dfy`, `Crashes.dfy`, `Batches.dfy`, `Crew.dfy`, `Concurrency.dfy`). What every run keeps;
  which write each column comes from; crashes, replays, merged streams and concurrent
  processors.
- **The indexing loop** (`Chain.dfy`, `Processor.dfy`, `Reorg.dfy`, `Progress.dfy`,
  `Forks.dfy`, `Indexing.dfy`, `LoopCrashes.dfy`). A block is its whole ancestry, so equal hashes mean equal
  chains. One turn of the loop is a list of durable effects; `ChainProcessor` performs
  exactly that list in that order (its `journal`), and a crash is a prefix of it.
  `indexed` remembers as which block each height was last indexed. `Indexing` joins the
  loop with the store it fills.
- **RPC and backfill** (`ChainClient.dfy`, `Backfill.dfy`). Failover, chunked log
  queries, the bounded cursor store.
- **Read paths** (`Pagination.dfy`, `Queries.dfy`, `StatsCache.dfy`). Clauses over
  numbered placeholders and what they select, keyset pages, the statistics cache.
- **Archive** (`Calendar.dfy`, `Archiver.dfy`). Month tiling and conservation of rows.
- **LayerZero** (`LayerZero.dfy`). Packet decoding up to the row that a receipt finds.

`dafny verify dfyconfig.toml` checks everything.

Hypotheses that the code itself does not enforce are spelled out as named predicates:
`Unambiguous` (a correlation key names at most one message), `NearOnesRepeat`,
`EarlyOnesRepeat` and `SourcesFirst` (what correlations before their source may do), `AtHome` and
`SourceStored` (the same for several processors), `OneProcessorEach`, `AllNarrow` (every
completed batch spans at most two blocks and has saved its hashes), `Solid` (the same, or
a batch so wide that it leaves one record), `Keyed`, `Plain`, `CleanNames`. Where a
natural claim is false of the code, a lemma shows how it fails and the same or another
one gives the exact condition:

- Crashes of the loop, with batches of at most B blocks, are harmless exactly when,
  wherever a batch that reaches a message's source may start, the first correlation of
  the message from there on, if it comes before the source, only repeats the first one
  after it (`LoopCrashesHarmlessExactly`); when no two correlations of a message report
  the same destination, exactly when none comes before the source in such a batch
  (`LoopOrderDecidesExactly`). For every other stream there is a history with one crash,
  right after the source, that ends with another row (`LoopShows`). A processor that
  could save its cursor after any event would need this of every correlation before its
  source (`CrashesHarmlessExactly`, `OrderDecidesExactly`, `HarmfulShows`).
- A second indexing of the same events changes a row exactly when the first pass dropped
  a correlation that came before its source (`SecondPassExactly`).
- A terminal status can be overwritten exactly when two processors see correlations that
  name one message, that is, when its destination events lie on two chains; this is over
  a set of events whose order of handling is left open (`OverwritesExactly`, `OneProcessorIsOneChain`, `TwoProcessorsRace`).
- Blocks of a replaced fork stay indexed for good exactly when the fork begins below the
  unbroken stretch of records that ends at the cursor (`ReplacedForkExactly`). A batch of
  three or more blocks leaves a stretch of one block (`WideBatchHidesFork`); with narrow
  batches it reaches down to the prune depth, and over whole histories nothing stale is
  left exactly when no change of the chain goes deeper (`ForksHealExactly`;
  `ShallowChangesHeal` is a sufficient condition on the chains alone).
- A LayerZero receipt finds its packet exactly when the integers fit signed columns and
  the endpoint stands for the chain of the send (`ReceiptFindsPacket`). A Wormhole
  redemption finds its message exactly at sequence 0 (`WormholeRedemption`).
- An absent timestamp and timestamp 0 share a cache key (`SameKeyExactly`); two requests
  with one key ask for the same rows exactly when they agree on the end of the window
  (`CollisionExactly`, `ZeroTimestampCollides`).

The architecture document says that a rewind searches by bisection and invalidates stale
messages (docs/architecture.md:71-73); the code walks back block by block and leaves the
message store alone, and the model follows the code.

## Model

| member | source | states |
|---|---|---|
| Normalizer.NormalizesExactly | internal/normalizer/normalizer.go:40-494 | an event normalizes if and only if its type is known and it carries the fields its rule demands, execution reports only in states 2 and 3; which types correlate; which field gives the message id |
| Normalizer.OpOf | internal/normalizer/normalizer.go:39-69 | every event yields a sound operation: new messages are pending with payload and metadata, correlations are terminal, and protocol, place and time are the event's |
| Normalizer.OpOfExactly | internal/normalizer/normalizer.go:72-487 | the operation of every event, column by column: an accepted event whose integers fit stores or looks up what two tables over its fields say, with the status that the report or the default gives; every other event does nothing |
| MessageTables.PostgresMessageStore.UpsertMessage | internal/indexer/message_store_pg.go:24-90 | the four statements are one merge of the message's joined row, or, when an integer does not fit, nothing at all |
| MessageTables.UpsertJoins | internal/indexer/message_store_pg.go:32-87 | four table updates, joined, equal one row merge and touch no other message |
| StoreModel.PutTimes | internal/indexer/message_store_pg.go:32-45 | an upsert sets the creation time once, the update time always, and no other row |
| MessageTables.PostgresMessageStore.FindByCorrelationKey | internal/indexer/message_store_pg.go:92-162 | returns a pending row that the key names, any one of them, and nothing exactly when there is none |
| StoreModel.FindsExactly | internal/indexer/message_store_pg.go:98-127 | a key finds only pending rows of its own protocol; with an id by the id alone, without one by nonce, sender and chain |
| MessageTables.PostgresMessageStore.UpdateDestination | internal/indexer/message_store_pg.go:164-215 | sets destination, status and latency of one existing message together, or nothing |
| MessageTables.SettleJoins | internal/indexer/message_store_pg.go:172-212 | three table updates, joined, settle one row and touch no other message |
| StoreModel.SettleTimes | internal/indexer/message_store_pg.go:190-197 | a settled row keeps its creation time, and every other row is left alone |
| Correlator.Process | internal/correlator/correlator.go:36-87 | one event takes exactly the step of its operation; an error means that nothing changed |
| Correlator.IndexLogs | internal/indexer/processor.go:149-190 | the event loop of a batch is a run in which each log takes the operation of its decoded event, and a log that does not decode none; afterwards every message whose storable source event is in the batch has a row |
| Lifecycle.LifecycleOfRun | internal/indexer/message_store_pg.go:33-84 | in every reachable store: pending exactly without destination, latency exactly the timestamp difference or 0, terminal rows and written-once columns never change again |
| Lifecycle.StepKeeps | internal/indexer/message_store_pg.go:165-214 | one operation, of any kind and on any row, keeps the lifecycle invariant |
| Registers.FirstWriteWins | internal/indexer/message_store_pg.go:47-56 | a row exists from the first put on, and protocol, source, nonce and fee are that put's for ever |
| Registers.LastWriteWins | internal/indexer/message_store_pg.go:36-38 | type and payload texts are those of the last telling write |
| Registers.UnwrittenIsPlain | internal/indexer/message_store_pg.go:63-66 | without a telling write the type stays plain and the texts empty |
| Registers.FirstCorrelationWins | internal/correlator/correlator.go:51-87 | the first correlation after the source that names the message decides destination, status and latency; later ones change nothing |
| Isolation.RunIsPerMessage | internal/correlator/correlator.go:38-86 | a run of the store is, for each message, the fold of the single-message step over the stream |
| Isolation.OnlyTouchingMatter | internal/correlator/correlator.go:38-86 | operations that do not touch a message can be left out without changing its row |
| Isolation.InterleavingIndependence | internal/indexer/indexer.go:84-137 | two merges of the streams with the same order per message end with the same rows |
| Recovery.PassKeeps | internal/indexer/message_store_pg.go:36-84 | along a pass the origin of a row is fixed, and so is its life once terminal |
| Recovery.TracksAdvance | internal/indexer/processor.go:151-190 | a reader that has jumped back stays on the track of one uninterrupted pass through one more event |
| Replay.ExecutionTracks | internal/indexer/processor.go:151-208 | the same over any sequence of events, cursor updates and crashes |
| Replay.EffectivelyOnce | internal/indexer/processor.go:151-208 | a processor that crashes anywhere, any number of times, and restarts from its cursor ends with the rows of an uninterrupted run |
| Crashes.CrashesHarmlessExactly | internal/correlator/correlator.go:58-65 | for a processor that may save its cursor after any event: every execution ends with the row of an uninterrupted run if and only if each correlation before its source repeats the first one after it |
| Crashes.OrderDecidesExactly | internal/correlator/correlator.go:58-65 | for such a processor and distinct destinations, if and only if the sources come first |
| Crashes.HarmfulShows | internal/correlator/correlator.go:58-65 | for every other stream, an execution of such a processor that ends with another row |
| Batches.NearRepeatsEndAlike | internal/indexer/processor.go:94-206 | a processor that saves its cursor at the end of a batch alone ends with the smooth row when the first correlation of every batch that may hold the source is harmless |
| LoopCrashes.LoopCrashesHarmlessExactly | internal/indexer/processor.go:94-206 | for every batch size: all histories of the loop that reach the head, with any failures and crashes, leave the row of an uninterrupted run if and only if, from every block from which one batch reaches the source, the first correlation, if it comes before the source, repeats the first one after it |
| LoopCrashes.LoopOrderDecidesExactly | internal/indexer/processor.go:94-206 | with distinct destinations, if and only if no correlation comes before the source within one batch of it |
| LoopCrashes.LoopShows | internal/indexer/processor.go:94-206 | for every other stream the history: batches up to a block, a turn cut right after the source, and turns up to the head |
| Crew.CrewsAgree | internal/indexer/indexer.go:84-137 | any number of crashing, replaying processors on one store end with the same row of a message, if its correlations are handled after its source is stored |
| Crew.CrewEndsAsMerge | internal/indexer/indexer.go:84-137 | which is the row of a run of the store over an uninterrupted merge of their streams |
| Replay.SecondPassExactly | cmd/backfill/main.go:130 | indexing again changes a row if and only if the first pass stranded one of its correlations |
| Replay.OrderedIsNotStranded | cmd/backfill/main.go:130 | correlations after their sources strand nothing |
| Replay.ThirdPassChangesNothing | cmd/backfill/main.go:130 | a third pass over any events never changes a row |
| Replay.BackfillConverges | cmd/backfill/main.go:130 | the same for three runs of the store over one range |
| Concurrency.HeldIsPending | internal/correlator/correlator.go:52-76 | in every reachable state a processor between lookup and update holds a message that is still pending and still named by its event |
| Concurrency.Linearizes | internal/indexer/indexer.go:84-137 | all behaviours of many processors are runs of atomic operations, in which a lookup that finds nothing is the correlation that it drops |
| Concurrency.BehavioursAgree | internal/indexer/indexer.go:84-137 | two behaviours in which the operations on a message take effect in the same order end with the same row of it |
| Concurrency.ConcurrentLifecycle | internal/indexer/indexer.go:84-137 | the lifecycle invariant holds in every state of the concurrent system |
| Concurrency.OverwritesExactly | internal/correlator/correlator.go:52-76 | over a set of events and who sees them, in any order of handling, no behaviour ever updates a settled message if and only if any two correlations naming one message are seen by one processor |
| Concurrency.OneProcessorIsOneChain | internal/indexer/indexer.go:84-137 | which is to say that their destinations are on one chain |
| Concurrency.NoTerminalOverwritten | internal/indexer/message_store_pg.go:190-197 | every update turns a pending message into its event's status |
| Concurrency.TwoProcessorsRace | internal/correlator/correlator.go:52-76 | any two correlations of one message seen by two processors race, and the second status replaces the first |
| Processor.ChainProcessor.CheckAndHandleReorg | internal/indexer/processor.go:219-287 | the walk stops where the specification says, and the rewind writes the cursor first and deletes records after |
| Processor.ChainProcessor.StoreBlockHashes | internal/indexer/processor.go:292-321 | saves the first and the last block with the hashes of their parents, each once, and nothing after a failure at the first |
| Processor.ChainProcessor.Iterate | internal/indexer/processor.go:63-213 | one turn makes exactly the durable writes of its plan, in order; without configured addresses it moves the cursor alone, with nothing to do it writes nothing, and it ends the loop exactly when a cursor cannot be updated, or read back after a rewind |
| Processor.ChainProcessor.ProcessChain | internal/indexer/processor.go:25-214 | the loop is the repetition of that turn until a cursor update, or a cursor reload after a rewind, fails |
| ReorgSafety.RewindPostcondition | internal/indexer/processor.go:243-286 | for arbitrary records and failures: every height passed was recorded with another hash than the live one; the stop is 0, an unreadable height, a gap or a match; when there is progress; no record above the cursor survives unless the deletion fails |
| ReorgSafety.TurnKeepsDense | internal/indexer/processor.go:97-208 | the window invariant survives every prefix of a turn's writes, under any failures and any change of the chain |
| ReorgSafety.AdvanceKeepsDense | internal/indexer/processor.go:192-208 | after a completed batch every recorded block was last indexed under its live hash |
| ReorgSafety.RewindFindsCommonAncestor | internal/indexer/processor.go:261-275 | with a window of records the rewind goes to the highest shared block and keeps exactly the live records |
| Histories.SafeOverHistory | internal/indexer/processor.go:97-208 | over whole histories of chain changes, failures and crashes the records stay one linked window ending at the cursor, and every completed batch leaves it live |
| Histories.DenseExactly | internal/indexer/processor.go:300-319 | a batch keeps the records parent-linked if and only if it spans at most two blocks or more than the prune depth; of the blocks below them this says nothing |
| Forks.ReplacedForkExactly | internal/indexer/processor.go:233-286 | for any batch sizes: after a chain is replaced, the blocks below the stretch of records keep their old indexing for good and all above are live, so nothing is stale if and only if the chains agree just below that stretch or it begins at block 1 |
| Forks.WideBatchHidesFork | internal/indexer/processor.go:264-266 | after a batch of three or more blocks a replaced fork is left indexed for good if and only if it replaces the last block but one |
| Forks.WindowAfterBatch | internal/indexer/processor.go:192-203 | how far down the records reach after a batch of any width |
| Forks.AdvanceIndexes | internal/indexer/processor.go:149-208 | a completed batch has indexed exactly the blocks between the cursors, each as it is on the live chain |
| Forks.GrowthIsForGood | internal/indexer/processor.go:94-112 | on a chain that only grows the cursor never falls and nothing at or below it is indexed again |
| Forks.RecordsReachBack | internal/indexer/processor.go:198-203 | with narrow batches, over any history, the records reach down to the prune depth below the highest block aimed at |
| Forks.ForksHealExactly | internal/indexer/processor.go:97-208 | with narrow batches, over any history of chain changes, failures and crashes, every completed batch leaves every block up to the cursor live if and only if no change goes deeper than the records |
| Forks.ShallowChangesHeal | internal/indexer/processor.go:97-208 | the same read before any run: if no chain seen differs from an earlier one below the prune depth under the highest confirmed block, no completed batch leaves a stale block |
| Indexing.HistoryIsExecution | internal/indexer/processor.go:149-208 | on a chain that grows, any history of the loop, cut anywhere and also inside a block, is an execution of the crashing processor over the chain's events, with cursors at ends of blocks and one batch read beyond them at most |
| Indexing.LoopIndexesOnce | internal/indexer/processor.go:149-208 | so at the head the store has the rows of an uninterrupted run, for streams whose batches start harmlessly |
| Indexing.StreamHolds | internal/indexer/processor.go:149-190 | in the stream the operations of each block follow those of the blocks below it |
| Indexing.LoopIsHistory | internal/indexer/processor.go:63-213 | the turns that ProcessChain makes are such a history |
| RewindFree.BatchesFetchOnce | internal/indexer/processor.go:94-95 | without rewinds the cursor moves by completed batches alone, which cut the range without gap or overlap and together fetch what one query would |
| Progress.ReachesHead | internal/indexer/processor.go:63-213 | on a still chain the loop rewinds at most once, and exactly when the record at the cursor is stale, and then reaches the head in the least number of batches |
| Progress.CalmAdvances | internal/indexer/processor.go:85-112 | after a batch or a rewind the next turn never rewinds |
| ChainClient.FailoverRotates | internal/chain/client.go:138-147 | after k failed attempts the endpoints are the original list turned by k modulo its length |
| ChainClient.Client.WithRetry | internal/chain/client.go:255-293 | attempt k asks the endpoint k places on; success at the first answering attempt, failure after exactly three |
| ChainClient.Client.LatestConfirmedBlock | internal/chain/client.go:149-167 | answers exactly when one of three attempts is answered, with the head less the confirmation depth, or 0 |
| ChainClient.ReachableAnswers | internal/chain/client.go:257-293 | with at most three endpoints a request that one of them answers succeeds within the attempts |
| ChainClient.Client.FetchLogs | internal/chain/client.go:169-214 | the chunks tile the range in pieces of at most maxBlockRange, their answers together are one query's answer; it succeeds whenever every request has an answering endpoint and fails only if some request had three unanswered attempts |
| ChainClient.TilesExactlyOnce | internal/chain/client.go:178-182 | tiling ranges cover each block once and no other |
| ChainClient.TiledLogs | internal/chain/client.go:204 | the concatenated logs of tiling ranges are the logs of the whole |
| ChainClient.OneBlockLogs | internal/chain/client.go:185-204 | a query of one block answers with that block's logs |
| Backfill.Run | cmd/backfill/main.go:120-185 | whatever heads are seen, each turn that sees a head beyond the cursor moves it by one batch or up to that head, and every other waits; the batches cut the range without gap or overlap and stop at most one batch less one block beyond it; it ends once ceil(length / batch) heads past the end were seen, with exactly that many batches if all are |
| LayerZero.DecodeEncoded | internal/decoder/layerzero/decoder.go:311-370 | decoding a packet of the documented layout gives back every field |
| LayerZero.HexTextInjective | internal/decoder/layerzero/decoder.go:355-370 | hexadecimal text loses nothing: equal texts are of equal bytes |
| LayerZero.AddressNumber | internal/decoder/layerzero/decoder.go:269 | an address is the number that the bytes spell, cut to its last 20 bytes |
| Matching.ReceiptFindsPacket | internal/decoder/layerzero/decoder.go:249-271 | from bytes to row: a receipt settles exactly the row of its packet, if and only if the pair is intact |
| Matching.SentOp | internal/decoder/layerzero/decoder.go:324-369 | what a packet's send stores, column by column, through the decimal text of its nonce |
| Matching.ReceivedOp | internal/decoder/layerzero/decoder.go:249-271 | which key a receipt looks up, and when it looks up nothing |
| Matching.TwoPacketsTwoRows | internal/decoder/layerzero/decoder.go:355-357 | packets with different guids are different messages: after both sends there are two more rows, each with its own sender and nonce |
| Matching.WormholeRedemption | internal/normalizer/normalizer.go:313-358 | a redemption finds the published row if and only if its sequence number is 0 and sender and chain agree |
| Matching.CCIPExecution | internal/normalizer/normalizer.go:431-489 | an execution report settles the send with its id, with the status of its state number, and no other message |
| Matching.AxelarExecution | internal/normalizer/normalizer.go:253-276 | an Executed event settles the message with its command id as executed, with its own place and time, and no other |
| Matching.DestinationSettles | internal/correlator/correlator.go:64-76 | any of the four destination events settles the row that it finds with its own place, time and receiver, as failed only when it is an execution report in state 3 |
| Basics.PrintParse | internal/normalizer/normalizer.go:489-494 | decimal text parses back to its number exactly below 2^64 |
| Basics.ParsesExactly | internal/normalizer/normalizer.go:489-494 | what parses is the decimal text of a number below 2^64, with any zeros before it, and nothing else |
| QueryModel.Where | internal/api/message_querier.go:113-152 | a present filter field adds one comparison with its own placeholder and argument; the meaning of the others is unchanged |
| QueryModel.Past | internal/api/message_querier.go:154-174 | a cursor adds the keyset comparison in the chosen direction |
| MessageQuerier.BuildList | internal/api/message_querier.go:108-187 | for every filter the clauses select exactly the rows that satisfy it beyond the cursor, and the placeholders stay one past the arguments |
| MessageQuerier.List | internal/api/message_querier.go:107-220 | one page of the plain filter-and-sort, no longer than the limit asked for, newest first unless ascending is asked for, with ties ordered by id; an error exactly for an undecodable cursor or a chain id that BIGINT cannot hold |
| MessageQuerier.GetAddressHistory | internal/api/address_trace_querier.go:36-166 | the same for the rows an address sent or received, each once; "asc" in any mixture of cases is ascending |
| MessageQuerier.LowerExactly | internal/api/address_trace_querier.go:51 | which orders count as ascending, character by character |
| MessageQuerier.ImmutableFiltersGrow | internal/api/message_querier.go:113-152 | filters on columns that never change keep selecting the same messages while the store evolves |
| MessageQuerier.WalkDuringIndexing | internal/api/message_querier.go:154-219 | a client that pages under such a filter while events are indexed gets every message that was selected at the start on exactly one page |
| Pagination.PageIsSlice | internal/api/message_querier.go:207-217 | a page is the next slice of the whole list and its cursor the right one |
| Pagination.PageInOrder | internal/api/message_querier.go:155-180 | on a page times do not rise when descending and do not fall when ascending, and rows of one time are ordered by id in the same direction |
| Ordering.TextLessExactly | internal/api/message_querier.go:160-174 | one id comes before another exactly when it ends, or has the smaller character, where they part |
| Pagination.WalkEnds | internal/api/message_querier.go:207-217 | whoever follows the cursors of a still table reaches the last page with page max(1, ceil(n / limit)) and not before |
| Pagination.WalkListsAll | internal/api/message_querier.go:154-219 | these pages together are the whole selection, every row once, in the order of the columns |
| Pagination.NoRepeats | internal/api/message_querier.go:160-174 | over a growing table no row comes twice |
| Pagination.NoSkips | internal/api/message_querier.go:160-174 | over a growing table no row that was there at the start is skipped |
| Pagination.GrowingWalk | internal/api/message_querier.go:154-219 | the two together |
| StatsQueries.BuildProtocolStats | internal/api/stats_querier.go:199-282 | both queries select what they should, with the latency status argument out of clause order |
| StatsQueries.BuildRoutesStats | internal/api/stats_querier.go:333-380 | the routes query selects the correlated rows of the filter, and its limit reads its own placeholder |
| StatsCache.Cache.Evict | internal/api/stats_querier.go:127-138 | afterwards no entry is past its time, and those that were not are as before |
| StatsCache.LookupIsLatest | internal/api/stats_querier.go:108-138 | under a monotone clock the evicting cache answers as one that keeps everything |
| StatsCache.SameKeyExactly | internal/api/stats_querier.go:142-153 | requests share a key if and only if they agree, up to absent and zero timestamps |
| StatsCache.HitIsOwnAnswer | internal/api/stats_querier.go:189-197 | a hit is the latest answer to the very same request, less than one TTL old |
| StatsCache.CollisionExactly | internal/api/stats_querier.go:143-151 | requests with one key select the same rows if and only if they agree on the end of the window |
| StatsCache.ZeroTimestampCollides | internal/api/stats_querier.go:143-151 | a request up to time 0 is answered with what was counted without an end |
| Calendar.NextMonthStarts | internal/archiver/archiver.go:124-135 | stepping by months agrees with the Gregorian closed form, without gap or overlap |
| Calendar.MonthLengths | internal/archiver/archiver.go:124-135 | by the numbers: months follow one another twelve to a year, and last 31, 30, 28 or 29 times 86400 seconds by their number and the leap rule |
| Calendar.FixedPoints | internal/archiver/archiver.go:121 | the first seconds of 1970-01 and of the scan start, as numbers |
| Calendar.YearMonthText | internal/archiver/archiver.go:131 | a file name spells its year and, in two digits, its month |
| Calendar.OneMonthOnly | internal/archiver/archiver.go:131-135 | a time lies in at most one month |
| Archiver.ArchiverService.Describe | internal/archiver/archiver.go:178-187 | the recorded bounds are the least and the greatest time of the file |
| Archiver.ArchiverService.ArchiveChainProtocol | internal/archiver/archiver.go:112-219 | writes exactly the scanned months of the pair that have rows |
| Archiver.ArchiverService.RunCycle | internal/archiver/archiver.go:75-110 | afterwards every due file holds its rows with a faithful entry, all else is as before, and the manifest lists the table |
| Archiver.ArchiverService.BuildManifest | internal/archiver/manifest.go:37-70 | one line per entry and the sum of their rows |
| ArchiveModel.CleanNamesAreDistinct | internal/archiver/archiver.go:147-153 | object keys tell files apart |
| ArchiveModel.ObjectKeyText | internal/archiver/archiver.go:147-153 | the text of an object key |
| ArchiveModel.CountsAddUp | internal/archiver/store.go:42-46 | the row counts of distinct files add up to the rows in any of them |
| Conservation.EligibleExactly | internal/archiver/archiver.go:120-137 | a row belongs to a due file if and only if it is eligible, and to one only |
| Conservation.EveryRowOnce | internal/archiver/archiver.go:79-216 | every eligible row is in exactly one file, and the files hold nothing else |
| Conservation.ManifestCountsRows | internal/archiver/manifest.go:38-70 | TotalRows is the number of eligible rows, TotalFiles that of the table's entries |
| Conservation.LaterCycleStandsAlone | internal/archiver/store.go:136-159 | over a grown database a later cycle leaves the same archive as a first one would |

## Left out

- The text of SQL, pgx scanning and PostgreSQL itself: each statement or transaction is one atomic step, and a write fails only when an integer does not fit its BIGINT or INTEGER column or a foreign key is missing.
- ABI unpacking, checksummed address text, base64 and JSON of cursors, Parquet, SHA-256, uploads: addresses are rendered by any function with non-empty results, and a cursor token either decodes to the key it was made from or not at all.
- Log decoding of Axelar, CCIP and Wormhole; these protocols start at the decoded event.
- Messages are ordered by a character-by-character comparison of ids; only its being a total order is used, so another collation gives the same results.
- The order of rows inside a file and of entries in the manifest, the file size and the checksum.
- Averages, percentiles, success rates and trace assembly, which are computed by the database or in one branch.
- A processor's stream of events is fixed between restarts: a block timestamp that can be read in one run and not in another gives different events.
- Cancellation of a context in the middle of a retry, back-off times, rate limiting, logging, metrics, HTTP handlers and configuration.
- Several protocols sharing one chain's block-hash records, and a chain that changes within a single turn, for which the safety claims do not hold.
- The wrap-around of `cursor + batchSize` in the main loop; the log query and the backfill state the bound under which nothing wraps.
- Backfill.Run: requires that the end of the range plus the batch size stays below 2^64, because past it the sum wraps and the loop retries an empty range for ever.
- ChainClient.Client.FetchLogs: requires that the end of the range plus `maxBlockRange` stays below 2^64, because past it the source's loop variable wraps and the loop need not end.

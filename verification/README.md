# Checkpoints, queues and codecs of the unified transaction parser

The parser scans blockchains in batches of blocks, extracts DEX events, stores
them and remembers how far it got in two progress stores of different
reliability. This project models the parts of it whose correctness spans many
calls, and proves what they promise for every run, every interleaving and every
input.

Each module follows one component:

- `BlockScanner`, `ScanRuns`: the engine's batch step and whole runs of it over
  failing stores, flipping health flags, stale or emptied primaries, resets and
  restarts. `FallbackTracker` is the progress tracker under it, `UpsertTables` the
  relational store it writes to. `ScanProgress` says how far the scanner gets when
  no call fails.
- `Replay`, `Rescan`, `ScanWitness`: what storing blocks again, in any order, does to
  the tables, key by key. `SwapRescan` runs scanner and extractor together, where the
  key of a swap's row depends on what the pool cache knows.
- `Subgraph`, `Cursor`, `Syncer`: keyset pagination over a growing source, the
  cursor's text form, and the sync that must survive crashes and lost writes.
- `PendingQueue`, `UniswapSwaps`, `UniswapExtraction`: swaps whose pool is not
  known yet, the queue they wait in, the worker that makes up for them, and the
  extractor's pool cache. `SwapSystem` is hot path, queue, worker, store and restarts as
  one system of atomic moves, `PoolTokens` what the pool table knows along its runs, and
  `SwapPipeline` the running parser, whose methods are runs of that system. `VirtualReserves` is the fixed-point reserve arithmetic and
  `Protocols` the protocol versions.
- `Words`, `Borsh`, `PumpFun`, `PumpSwap`, `SyntheticTimestamp`: binary codecs and
  exact integer arithmetic.
- `ErrorHistory`: one capped history kept by two implementations in opposite
  orders. `Receipts` and `BatchCache`: order-independent gathering and batching.

The code's stateful objects are classes whose methods are specified by a pure
transition function (`Batch`, `Get`, `Update`, `Next`, `Pass`, ...); the theorems
are about all sequences of those transitions. What networks, clocks, nodes,
extractors and schedulers do is a parameter of each step: a remote write is
acknowledged, lost, or applied with its acknowledgement lost.

## Assumptions

- One chain per progress tracker, because the update counter is shared by all.
- Coverage needs a configured start block; `ScanRuns.UnconfiguredStartGap` says
  exactly when the run stays gap-free without one.
- A batch covers the numbers it requested: the node client leaves out blocks it
  fails to fetch, so "stored" means whatever the fetch returned was stored.
- `Rescan` speaks of the keys at which every batch stored what its blocks contain for
  that key (`Rescan.FaithfulAt`); at other keys the extractors' caches can show. For
  swaps `SwapRescan` says exactly when they do.
- The numbers to scan are positive, so that without a configured start block the tip is
  above one hundred (`ScanProgress.CatchesUpIff`).
- A transaction hash and a log index identify a log, and whoever teaches the pool cache
  a pool's tokens teaches the true ones.
- One consumer per pending queue, and a clock that does not go back.
- The subgraph is strictly sorted by (timestamp, id), its ids are unique, it grows
  only at the end, and its timestamps are decimal 64-bit numbers.

## Where code and documentation differ

- "DB progress lags Redis by at most syncInterval batches" holds within one
  process lifetime; the counter restarts with the process, so the exact worst case
  is (restarts + 1) * (syncInterval - 1) (`FallbackTracker.DocumentedBound`,
  `WorstLag`).
- "Duplicate re-scan is safe because all writes are idempotent" holds key by key, for
  rows that are extracted alike each time: in the insert-or-ignore tables in every run
  (`Rescan.InsertTablesSurviveRescan`), and in the overwriting tables exactly when each
  block was last stored before all higher ones (`Rescan.RescanSafety`). Two failing
  reads restart the scan at the start block; when the primary comes back the scan jumps
  forward and older values stay (`ScanWitness.ForwardJumpDamages`).
- Swaps are not extracted alike each time. The key of a transaction row holds the
  direction, which is "swap" until the pool's tokens are known. A swap stored before the
  worker resolved its pool and re-scanned after it has two rows
  (`SwapRescan.StoredTwice`); it has one exactly when the pool was known at every storing
  or at none, or neither token is a quote asset (`SwapRescan.OneRowIff`).
- The scanner is meant to reach the tip. Without failing calls it does so, to within one
  block, exactly when every range up to the tip comes with blocks and can be stored
  (`ScanProgress.CatchesUpIff`). Two Sync logs of one V2 pair, or two swaps of one V3
  pool, in one block give two reserve rows with one key; the batch is refused and retried
  for ever (`ScanProgress.TwoSyncsStopTheScan`).
- Starting pagination at (T - 1, "") is documented as "timestamp >= T". It also
  fetches whatever was created in second T - 1 (`Subgraph.InclusiveStart`).
- An interrupted sync is said to pick up the cursor where it was left. When the cursor
  cannot be read, the pass begins at the boundary again, and if it is interrupted then
  the saved cursor has gone back (`Syncer.CursorGoesBack`); a pass that can read it never
  takes it back (`Syncer.CursorNeverGoesBack`).
- A single remaining block is not scanned until a second one exists
  (`ScanProgress.RestsOneShort`).
- A message can be dropped from the pending queue without ever having been handed
  out: giving up on a pool drops what arrived during the handler, too
  (`PendingQueue.UntriedDrops`, at a run in `PendingQueue.DroppedUntried`).
- A placeholder pool row is meant to be completed later. When the worker stores the
  pool while the engine still holds its placeholder, the engine's store erases the
  tokens (`PoolTokens.PlaceholderErases`), unless the store refuses that batch
  (`PoolTokens.RefusedSpares`). After a restart whose warm-up query fails, which the
  parser takes for harmless, the next swap of the pool emits the placeholder again and
  erases them, too (`PoolTokens.RestartForgets`). What the worker stored is final exactly
  when the engine holds no placeholder of the pool in a batch the store would take, and
  every restart loads the pool from the table or Redis answers for its swaps
  (`PoolTokens.VisitIsFinal`, `FinalAcrossRestarts`).
- The worker's two token rows of a pool whose tokens are one have one key, so it never
  gets such a pool stored (`SwapSystem.WorkerBatchStorable`).
- A V2 token that moved both ways in one swap is recorded with its inflow only
  (`UniswapSwaps.V2LegsAreNet`, at a log in `UniswapSwaps.BothWaysRecorded`).
- A Borsh string that announces more bytes than there are reads as empty without
  an error (`Borsh.StringReencodes`, `PumpFun.CreateIsWhatWasThere`, at a payload in
  `PumpFun.OverlongName`).
- The in-memory tracker does not count an error of a chain without a progress
  record, the Redis tracker does (`ErrorHistory.CountersAgreeIff`, `CountersDiffer`).
- Redis prunes only chains it has a progress record of. When that record cannot be read
  while an error is recorded, the two histories part (`ErrorHistory.MissedPrune`); they
  agree exactly when Redis holds no error the newest cutoff should have removed
  (`ErrorHistory.ListsAgreeIff`).
- Two rows with one key in the same block of 500 make the overwriting statement,
  and with it the whole transaction, fail (`UpsertTables.RepeatsInOneChunk`,
  `SameKeyRefused`).

## Model

| member | source | states |
|---|---|---|
| ScanRuns.Coverage | internal/parser/engine/engine.go:211-356 | Whatever fails, flips, goes stale or restarts: the requested block numbers are an interval from the start block, every block up to a checkpoint held in either store lies in a stored batch with its blocks and transactions, and the DEX tables hold exactly the stored batches |
| ScanRuns.NoGap | internal/parser/engine/engine.go:224-237 | After any run, any further batch starts inside or directly after what is stored, whichever checkpoint it reads |
| ScanRuns.RunInv | internal/parser/engine/engine.go:211-356 | The invariant behind coverage holds in every reachable state: ranges only grow without gaps and every held checkpoint is absent or ends a stored prefix |
| ScanRuns.BatchInv | internal/parser/engine/engine.go:211-356 | One batch, with any combination of read, fetch, extract, store and checkpoint failures, keeps that invariant and never loses reach |
| ScanRuns.ExactlyOnce | internal/parser/engine/engine.go:234-237 | While the stores keep answering, no block is stored twice: the stored blocks are those from the start block to the checkpoint, each once and in order, and the checkpoint's totals count exactly their transactions and rows |
| ScanRuns.UnconfiguredStartGap | internal/parser/engine/engine.go:227-233 | Without a configured start block, starting a hundred blocks below the tip leaves no gap if and only if the tip is at most 101 blocks above the last request |
| ScanProgress.CatchesUpIff | internal/parser/engine/engine.go:211-356 | After any run that left the primary trusted, the first start included, batches without a failing call reach the tip to within one block if and only if the batch size is positive and every range from the next number to the tip, as the batch size cuts them, comes with blocks and storable rows |
| ScanProgress.RestsOneShort | internal/parser/engine/engine.go:245-256 | Where at most one block is left, or before the first range that is not so, the checkpoint stands still for ever; so a single remaining block is never scanned |
| ScanProgress.NeverPast | internal/parser/engine/engine.go:306-356 | A range that does not come with storable rows is retried for ever, and the tip is never reached |
| ScanProgress.TwoSyncsStopTheScan | internal/parser/dexs/eth/uniswap.go:1377-1396 | With two Sync logs of one pair in a block, no call fails and yet after any number of batches no checkpoint and no row was ever written |
| Rescan.InsertTablesSurviveRescan | internal/storage/progress/fallback/fallback_progress.go:7 | After any run, at every key that each batch stored as its blocks have it, the insert-or-ignore tables equal those of an uninterrupted scan |
| Rescan.RescanSafety | internal/storage/progress/fallback/fallback_progress.go:7 | After any run, at such keys all tables are those of the log of stored blocks, which equal the uninterrupted scan's for every chain content if and only if each block was last stored before all higher blocks |
| Rescan.CaughtUpTables | internal/storage/progress/fallback/fallback_progress.go:7 | A run that went back as often as it liked but never jumped forward, and ends at its highest block, holds at such keys exactly what the uninterrupted scan holds in all five tables |
| Rescan.TablesAreStreams | internal/storage/pgsql/store.go:256-291 | The tables after any batches are the row-by-row folds of the five streams of rows |
| Rescan.OneExtractor | internal/parser/engine/engine.go:376-404 | Results are merged extractor by extractor; a key that one extractor writes does not see the difference to block order |
| Rescan.OneRowIsSafe | internal/parser/dexs/eth/uniswap.go:243-262 | A key that is only ever written with one row holds it once stored, however often and in whichever batches it is left out |
| SwapRescan.OneRowIff | internal/parser/dexs/eth/uniswap.go:1157-1166 | After any run of scanner and extractor, with failures, re-scans and restarts, a swap's rows have exactly the sides it was stored with, and there is at most one if and only if its pool was known at every storing or at none, or neither token is a quote asset |
| SwapRescan.OneRowInOneProcess | internal/parser/dexs/eth/uniswap.go:1255-1264 | Within one process that is the case if and only if the pool was known when the swap was first stored, or still unknown when it was last stored, or neither token is a quote asset |
| SwapRescan.StoredTwice | internal/storage/pgsql/store.go:438 | For every swap of a pool with a quote asset: stored, its pool resolved by the worker, and scanned again after two failing reads, it has two rows |
| SwapRescan.ExtractedRows | internal/parser/dexs/eth/uniswap.go:198-277 | A batch's extraction holds rows of a swap with exactly the sides of what was known of its pool as its log was scanned |
| SwapRescan.SideOfTrade | internal/parser/dexs/eth/uniswap.go:1157-1166 | The side in the key of a stored transaction row is "buy", "sell" or "swap" according to what was paid and received, once the tokens are known, and "swap" before |
| ScanWitness.ForwardJumpDamages | internal/parser/engine/engine.go:420-428 | A run of five steps in which every batch stores every pool as its blocks have it, yet a pool holds an older block's values than the uninterrupted scan gives |
| BlockScanner.Engine.ProcessChainBatch | internal/parser/engine/engine.go:211-356 | The imperative batch step refines the specified transition: same new state of tracker, stores and tables, same reported outcome, for every failure |
| BlockScanner.BatchRequests | internal/parser/engine/engine.go:224-256 | A batch requests at most one range, and one exactly when the tip is known and more than one block is left; it begins behind the checkpoint, or without one at the configured start or a hundred below the tip, and ends at the smaller of the tip and its first number plus the chain's own batch size, or the global one where the chain has none |
| BlockScanner.BatchReports | internal/parser/engine/engine.go:211-356 | A batch reports success if and only if the tip is known and there was nothing to request, or the range came back empty, or fetching, extracting and every write there was something for succeeded; whether the checkpoint could be saved is not asked |
| BlockScanner.Engine.MergeDexData | internal/parser/engine/engine.go:359-407 | The merging loop appends the extractors' rows table by table, extractor by extractor |
| Rescan.MergedInOrder | internal/parser/engine/engine.go:359-407 | In every table the merged rows are those of the extractors, one extractor after the other |
| BlockScanner.Engine.StoreFetched | internal/parser/engine/engine.go:306-331 | Blocks, transactions and DEX rows are written in that order, and the first unacknowledged write ends the batch |
| BlockScanner.Engine.StoreAndCheckpoint | internal/parser/engine/engine.go:306-356 | The checkpoint is written only after every write of the batch was acknowledged |
| BlockScanner.Engine.CountTransactions | internal/parser/engine/engine.go:343-347 | The counting loop adds up the transactions of all fetched blocks |
| BlockScanner.CountIsSum | internal/parser/engine/engine.go:343-347 | The count is a sum: of a block its transactions, of two lists the counts of both |
| FallbackTracker.FallbackProgressTracker.constructor | internal/storage/progress/fallback/fallback_progress.go:41-55 | A new tracker trusts the primary, counts from zero and turns a zero interval into ten |
| FallbackTracker.FallbackProgressTracker.MarkPrimary | internal/storage/progress/fallback/fallback_progress.go:67-78 | The cached health flag takes the observed value and nothing else changes |
| FallbackTracker.FallbackProgressTracker.GetProgress | internal/storage/progress/fallback/fallback_progress.go:83-94 | A read goes to the primary while it is trusted and answers, otherwise to the secondary, and clears the flag on failure |
| FallbackTracker.FallbackProgressTracker.UpdateProgress | internal/storage/progress/fallback/fallback_progress.go:98-123 | A save reaches the secondary whenever the primary is distrusted, fails, or the periodic count is due, and reports success exactly when some store acknowledged it |
| FallbackTracker.FallbackProgressTracker.ResetProgress | internal/storage/progress/fallback/fallback_progress.go:126-137 | A reset writes the default to both stores and reports the secondary's answer |
| FallbackTracker.SavedIsRead | internal/storage/progress/fallback/fallback_progress.go:98-123 | A save reports success exactly when the trusted primary acknowledged it, or otherwise the secondary did; then the next read that reaches the stores answers what was saved |
| FallbackTracker.ResetIsRead | internal/storage/progress/fallback/fallback_progress.go:126-137 | A reset reports what the secondary said; after a success reads from the secondary answer the default, and if both stores acknowledged it every answer is the default |
| FallbackTracker.FailureEndsTrust | internal/storage/progress/fallback/fallback_progress.go:83-123 | A read or a save that the primary does not answer takes it out of use |
| FallbackTracker.OutageLasts | internal/storage/progress/fallback/fallback_progress.go:67-123 | Once distrusted the primary stays so until a probe or a new process, whatever is read and saved: no save touches it, the secondary alone answers, and an acknowledged save is what it answers |
| FallbackTracker.StalenessBound | internal/storage/progress/fallback/fallback_progress.go:8 | With a secondary that acknowledges, it holds what was saved at most (restarts + 1) * (interval - 1) saves ago, whatever the primary does |
| FallbackTracker.LagMeaning | internal/storage/progress/fallback/fallback_progress.go:98-123 | The lag counted along a run is how many saves old the secondary's row is |
| FallbackTracker.LagBound | internal/storage/progress/fallback/fallback_progress.go:98-123 | Per process lifetime the lag grows by less than the interval; within one it never exceeds the counter's phase |
| FallbackTracker.WorstLag | internal/storage/progress/fallback/fallback_progress.go:98-123 | For every number of restarts there is a run with healthy stores that attains the bound |
| FallbackTracker.DocumentedBound | internal/storage/progress/fallback/fallback_progress.go:8 | The documented lag of at most one interval holds of all runs with a given number of restarts if and only if (restarts + 1) * (interval - 1) fits in it |
| FallbackTracker.ReadsWhatWasWritten | internal/storage/progress/fallback/fallback_progress.go:83-94 | After any run a read answers a row that was saved, a row the stores began with, or the default |
| FallbackTracker.RowsAreKnown | internal/storage/progress/fallback/fallback_progress.go:98-137 | Neither store ever holds a row nobody saved |
| UpsertTables.ReplaySuffix | internal/storage/pgsql/store.go:293-541 | Storing a stream of rows and then any suffix of it again changes no table, for overwriting rows, for the column that keeps its value and for first-writer rows |
| UpsertTables.UpsertedAt | internal/storage/pgsql/store.go:340-344 | An upserted table holds at each key the last row's columns and the last non-null extra |
| UpsertTables.InsertedAt | internal/storage/pgsql/store.go:438 | A table written by insert-or-do-nothing holds at each key the first row ever written |
| UpsertTables.StatementIsFold | internal/storage/pgsql/store.go:306-348 | One multi-row statement with distinct keys, evaluated against the table as it was, has the effect of its rows one by one |
| UpsertTables.AnyChunking | internal/storage/pgsql/store.go:293-304 | However a stream is cut into statements, it goes through if and only if no statement repeats a key, and then the cuts do not show |
| UpsertTables.RepeatsInOneChunk | internal/storage/pgsql/store.go:293-304 | The chunked write is refused if and only if two rows with one key fall into the same block of five hundred |
| UpsertTables.SameKeyRefused | internal/storage/pgsql/store.go:293-304 | Two rows with one key are such a write |
| UpsertTables.UpsertChunked | internal/storage/pgsql/store.go:293-304 | The chunk loop has the effect of all rows in order, or fails as a whole |
| UpsertTables.InsertChunked | internal/storage/pgsql/store.go:392-403 | The insert-or-ignore chunk loop has the effect of all rows in order |
| UpsertTables.PgStore.StoreDexData | internal/storage/pgsql/store.go:256-291 | All five tables change together or not at all, also when the acknowledgement is lost |
| UpsertTables.StoredAppend | internal/storage/pgsql/store.go:256-291 | Storing two batches one after the other is storing their concatenation |
| Replay.RescanSafeIff | internal/storage/progress/fallback/fallback_progress.go:7 | Of a gap-free log of stored blocks: all tables equal the ordered scan's for every chain content if and only if the last storings are in block order |
| Replay.WrongOrderShows | internal/storage/progress/fallback/fallback_progress.go:7 | For every log whose last storings are out of order there is a chain on which the pool table differs |
| Replay.InsertTablesExact | internal/storage/pgsql/store.go:405-493 | First-writer tables depend only on the order in which blocks were first stored |
| Replay.UpsertTablesExact | internal/storage/pgsql/store.go:293-390 | Overwriting tables depend only on the order in which blocks were last stored |
| Replay.LatestOfLasts | internal/storage/pgsql/store.go:340-344 | The last writer over any log of blocks is the last writer over its last occurrences |
| Replay.EarliestOfFirsts | internal/storage/pgsql/store.go:438 | The first writer over any log of blocks is the first writer over its first occurrences |
| Replay.GrowingLog | internal/parser/engine/engine.go:224-248 | Ranges that each begin inside or right after what was there cover an interval, first stored in order |
| Replay.ChainInOrder | internal/storage/progress/fallback/fallback_progress.go:82 | Any chain of batches that goes back at will, never jumps forward and ends at its top leaves all last storings in order |
| Replay.ChainHeals | internal/storage/progress/fallback/fallback_progress.go:82 | Such a chain that starts within what was stored and reaches its top again repairs every earlier state that was in order |
| Cursor.CursorRoundTrip | internal/thegraph/sync.go:251-270 | Every 64-bit timestamp and every id, even one with colons, is recovered from its cursor text |
| Cursor.CursorsDiffer | internal/thegraph/sync.go:251-258 | Different positions have different cursor texts |
| Cursor.IntRoundTrip | internal/thegraph/sync.go:260-270 | Decimal text of every 64-bit integer, including the least one, is parsed back |
| Subgraph.LessTotal | internal/thegraph/uniswap.go:42-50 | (timestamp, id) order is a strict total order |
| Subgraph.LessTransitive | internal/thegraph/uniswap.go:42-50 | (timestamp, id) order is transitive |
| Subgraph.AfterIsSuffix | internal/thegraph/uniswap.go:56-67 | What sorts strictly after a position is a suffix of the source |
| Subgraph.AfterEntity | internal/thegraph/uniswap.go:171-173 | Advancing to a page's last entity leaves exactly the entities behind it, ties on the timestamp included |
| Subgraph.AfterGrows | internal/thegraph/uniswap.go:144-183 | Growth at the end of the source only adds at the end of what is still to fetch |
| Subgraph.InclusiveStart | internal/thegraph/uniswap.go:52-55 | Starting at (T - 1, "") fetches everything from T on, and nothing else if and only if nothing with a non-empty id was created in second T - 1 |
| Subgraph.InclusiveStartTakesTooMuch | internal/thegraph/uniswap.go:141-143 | One pair created a second before T is fetched by a pass that starts at T |
| Subgraph.RowsOfPage | internal/thegraph/uniswap.go:157-170 | A page's pool rows are its entities in order, and its token rows are duplicate-free and exactly the tokens its entities mention, names and symbols cut to what the columns take |
| Subgraph.PageHoldsTokens | internal/thegraph/sync.go:160-162 | Storing a page, first time or again, keeps the token rows of every entity stored so far and adds those the page mentions |
| Subgraph.HeldIsDescribed | internal/thegraph/mapping.go:24-58 | The pool row of a stored entity has its tokens in the source's order, the factory and protocol of its version, a fee of three thousand for a pair and its own for a pool, and when it was created |
| Subgraph.HeldIsLabelled | internal/thegraph/mapping.go:86-108 | A token's row says what some entity of the source says of it: name and symbol whole or their first two hundred and one hundred characters, its decimals, or zero where they are no number |
| Syncer.StoredIsDescribed | internal/thegraph/mapping.go:24-108 | So it is for every entity that counts as stored, in the tables themselves, after any calls of the sync |
| Syncer.SyncVersion.Sync | internal/thegraph/sync.go:145-224 | The pagination loop terminates and refines the specified pass: same stored rows, cursor, ending and delivered entities, for every pattern of failures |
| Syncer.SyncVersion.ResumeCursor | internal/thegraph/sync.go:231-249 | A pass resumes at the saved cursor, or one second before the boundary when there is none or it is unreadable |
| Syncer.SyncVersion.StorePage | internal/thegraph/sync.go:151-205 | The cursor is written only after the page is stored; a failed cursor write does not end the pass; what counts as stored is in the pool and token tables |
| Syncer.SyncVersion.FetchPage | internal/thegraph/uniswap.go:147-177 | An empty page ends the pass without touching store or cursor |
| Syncer.PassDelivers | internal/thegraph/uniswap.go:144-183 | The pages of a pass are, in order and each entity once, a beginning of what sorts after the resume point; a completed pass delivers all of it that its last query could see |
| Syncer.CursorNeverPassesStore | internal/thegraph/sync.go:145-249 | After any sequence of passes with query failures, store failures, lost cursor writes and crashes, every entity between the boundary and the saved cursor is stored |
| Syncer.CompletedPassHasAll | internal/thegraph/sync.go:145-249 | A pass that completes leaves every entity from the boundary on stored, wherever earlier passes were interrupted |
| Syncer.CalmPassHasAll | internal/thegraph/sync.go:145-224 | A pass in which no query and no store fails completes and leaves every entity from the boundary on stored, even if no cursor write goes through |
| Syncer.CompletePassWasCalm | internal/thegraph/sync.go:145-224 | A pass completes only if its queries were answered and nothing but cursor writes failed at the pages before the last |
| Syncer.CursorAdvances | internal/thegraph/sync.go:190-196 | A pass that delivered something, and whose last page was stored and had its cursor written, leaves a cursor that reads as the last entity delivered |
| Syncer.NextPassGoesOn | internal/thegraph/sync.go:231-249 | The next pass that can read that cursor delivers only what sorts after everything delivered before |
| Syncer.CursorFollows | internal/thegraph/sync.go:190-196 | A pass leaves the cursor where it was or moves it to an entity it delivered, behind the place where it resumed |
| Syncer.CursorNeverGoesBack | internal/thegraph/sync.go:192-196 | Whatever fails, cursor writes included, a pass that can read the saved cursor never takes it back |
| Syncer.CursorGoesBack | internal/thegraph/sync.go:234-238 | A run of two passes in which only the reading of the cursor fails and the second pass crashes: the saved cursor goes back by one entity |
| Syncer.PassSafe | internal/thegraph/sync.go:145-205 | One pass keeps the cursor behind the store and never loses a stored entity |
| PendingQueue.Conservation | internal/pendingqueue/memory.go:64-146 | In any interleaving of enqueues with the consumer, a pool's accepted messages are, in order, those that left (each handled or dropped once) followed by those queued; the total is the number queued and never exceeds the capacity; no map keeps an empty pool |
| PendingQueue.TriesAreBounded | internal/pendingqueue/memory.go:114-126 | No message is handed out more than max(1, maxAttempts) times, and a handled one at least once |
| PendingQueue.SnapshotStaysPrefix | internal/pendingqueue/memory.go:104-143 | What the handler was given stays the beginning of its group until the commit, so slicing never overruns; listed pools are never found empty, and the handler gets all that is queued of its pool |
| PendingQueue.HandlerGetsNext | internal/pendingqueue/memory.go:104-114 | The handler gets the messages its pool accepted right after those that left, in arrival order |
| PendingQueue.OldestIsChecked | internal/pendingqueue/memory.go:119 | With a clock that does not go back, the one message checked for expiry is too old if and only if some message of the group is |
| PendingQueue.FailedVisit | internal/pendingqueue/memory.go:116-130 | A failing visit of a reachable state drops the group if and only if some queued message is older than maxAge or the first one handed out had its maxAttempts-th try; otherwise group and total stay and the attempts grow by one |
| PendingQueue.SuccessfulVisit | internal/pendingqueue/memory.go:131-143 | A successful one removes exactly the messages handed out, keeps what arrived meanwhile in order and forgets the failed attempts |
| PendingQueue.UntriedDrops | internal/pendingqueue/memory.go:121-127 | Giving up drops the whole group, and a dropped message was never handed out if and only if it arrived after the snapshot |
| PendingQueue.DroppedUntried | internal/pendingqueue/memory.go:121-127 | A run with an arrival during the last failing visit, in which that message is dropped without ever having been handed out |
| PendingQueue.RunInv | internal/pendingqueue/memory.go:64-146 | The queue's invariant holds after any interleaving of atomic steps |
| PendingQueue.Memory.Enqueue | internal/pendingqueue/memory.go:64-76 | A message is appended to its pool's group, stamped with the present time, if and only if the queue is not full; nothing else changes |
| PendingQueue.Memory.ListPools | internal/pendingqueue/memory.go:94-101 | The scan lists every non-empty pool once |
| PendingQueue.Memory.TakeGroup | internal/pendingqueue/memory.go:104-109 | The snapshot of a listed pool is its whole group and not empty |
| PendingQueue.Memory.Commit | internal/pendingqueue/memory.go:116-144 | Success removes exactly what was handed out; failure leaves everything or, when expired or exhausted, removes the group with what arrived meanwhile |
| PendingQueue.Memory.Visit | internal/pendingqueue/memory.go:103-144 | A visit with arrivals before the snapshot and during the handler is a run of atomic steps |
| PendingQueue.Memory.ProcessOnce | internal/pendingqueue/memory.go:93-146 | A whole round, with any arrivals and any handler results, is a run of atomic steps and ends idle |
| UniswapSwaps.DeferredIsImmediate | internal/parser/dexs/eth/uniswap.go:777-783 | A batch of deferred swaps gets the records it would have got on the hot path, two each, apart from their decimals, for V2 and V3 |
| UniswapSwaps.DoubleEntry | internal/parser/dexs/eth/uniswap.go:1124-1265 | A swap has two records, one for each token and naming the other, each with its own decimals and the net flow the log gives it: the signed word of a V3 log, the difference of a V2 log's words where the token moved one way |
| UniswapSwaps.TradeDirection | internal/parser/dexs/eth/uniswap.go:999-1023 | Paying a quote asset for another token is a buy, the other way round a sell; between two quote assets it is a sell if and only if the one received ranks at least as high; without a quote asset it is a swap. What was paid is read off the log's words, V2 and V3 |
| SwapSystem.EverySwapAccountedFor | internal/parser/dexs/eth/uniswap.go:198-277 | In every run of hot path, queue, worker and store, with any failures and restarts: the records the hot path returned, those of successful visits, and those due to messages handled without a store, dropped, still queued or lost with a process and to refused swaps are together exactly the records of all scanned swaps of the pool; the store holds those of successful visits and, once more, those whose acknowledgement was lost |
| SwapSystem.HandledIsStored | internal/parser/dexs/eth/uniswap.go:707-795 | With a store that never applies a write unacknowledged, the store holds exactly the records of the messages handled in this and earlier processes and of the batch about to be committed, each once |
| SwapSystem.MovesInv | internal/parser/dexs/eth/uniswap.go:707-795 | The balance behind that holds after every run of atomic moves, and what cache and table know of a pool's tokens is true |
| SwapSystem.RestartInv | cmd/parser/main.go:240-254 | The end of a process and the warm-up of the next one keep that balance: what was in the queue is lost or, if its visit had returned, stored |
| SwapSystem.WorkerBatchStorable | internal/parser/dexs/eth/uniswap.go:785-790 | The store takes the worker's rows if and only if the pool's two tokens differ |
| SwapSystem.WorkerDescribes | internal/parser/dexs/eth/uniswap.go:719-790 | Storing the worker's batch gives the pool its two tokens and each token its own metadata, and touches no other pool, token or table |
| SwapSystem.GatheredIsKept | internal/parser/engine/engine.go:359-407 | Until the engine stores its batch, all rows gathered for the other tables are in it, in order |
| PoolTokens.VisitIsFinal | internal/storage/pgsql/store.go:340-344 | Once the worker stored a resolved pool, the pool table knows its tokens in every continuation, restarts included, in which no swap of the pool is scanned that neither cache nor Redis knows, if and only if the engine holds no placeholder of it in an unstored batch that the store would take |
| PoolTokens.FinalAcrossRestarts | cmd/parser/main.go:240-254 | It knows them for ever if and only if there is no such placeholder, and either every restart loads the pool from the table or Redis answers for its swaps |
| PoolTokens.RestartIsSafe | internal/parser/dexs/eth/uniswap.go:354-374 | A pool the table knows stays known through one restart and the process after it if and only if the restart loads it or Redis answers for its swaps |
| PoolTokens.LearnedForGood | internal/parser/dexs/eth/uniswap.go:1040-1104 | What the table knows and the engine's batch will not erase stays so in every continuation in which no swap of the pool is scanned that neither cache nor Redis knows |
| PoolTokens.PlaceholderErases | internal/parser/dexs/eth/uniswap.go:1087-1104 | For every swap of an unknown pool there is a run, with all writes acknowledged, after which the pool table has forgotten the tokens the worker stored |
| PoolTokens.RestartForgets | internal/parser/dexs/eth/uniswap.go:1087-1104 | For every such swap there is a run, with all writes acknowledged, in which the worker's visit was final for its process, and a restart whose query fails and one more swap make the table forget |
| PoolTokens.RefusedSpares | internal/storage/pgsql/store.go:293-304 | A placeholder in a batch that repeats a pool in one statement erases nothing, whatever the write does |
| PoolTokens.RefusedStays | internal/storage/pgsql/store.go:256-291 | A batch the store would refuse is refused whatever rows are still added to it |
| SwapPipeline.Parser.Scan | internal/parser/dexs/eth/uniswap.go:198-277 | The extractor scanning a log is that move of the system, on cache, rows and queue alike |
| SwapPipeline.Parser.Handle | internal/parser/dexs/eth/uniswap.go:707-795 | The queue's handler is the moves that resolve the pool and store it, with the outcome the commit will act on |
| SwapPipeline.Parser.Visit | internal/pendingqueue/memory.go:103-144 | A visit whose handler is the extractor's worker, with logs scanned before, during and after the handler, is a run of the system |
| SwapPipeline.Parser.ProcessOnce | internal/pendingqueue/memory.go:93-146 | So is a whole round of the consumer, and it ends idle |
| SwapPipeline.Parser.StoreBatch | internal/parser/engine/engine.go:325-331 | So is the engine's store of its batch, which the database may refuse; then its rows are gone |
| SwapPipeline.Parser.StoreResolved | internal/parser/dexs/eth/uniswap.go:785-790 | The worker's store adds the pool's row if and only if the write is applied and the pool's tokens differ |
| SwapPipeline.NewProcess | cmd/parser/main.go:240-254 | A new process on the same store, with an empty queue and a cache warmed up from what the table's query answers, is the restart of the system |
| UniswapSwaps.CacheOnlyLearns | internal/parser/dexs/eth/uniswap.go:1040-1104 | Under any interleaving of warm-up, Redis hit, creation, lazy insert and worker, a pool only moves from absent to placeholder to resolved; at most one placeholder is emitted for it, none once it is known |
| UniswapSwaps.KnownIffTaught | internal/parser/dexs/eth/uniswap.go:1040-1104 | A pool's tokens are known after a run if and only if they were before or some operation brought both: the worker, a creation event, Redis, or a warm-up that found the pool absent |
| UniswapSwaps.KnownTokensStay | internal/parser/dexs/eth/uniswap.go:1040-1104 | Known tokens are overwritten by nothing but a creation event or the worker |
| UniswapSwaps.BothWaysRecorded | internal/parser/dexs/eth/uniswap.go:1143-1150 | A log that moves a token both ways, recorded with its inflow |
| UniswapSwaps.RecordsDoNotOverwrite | internal/storage/influxdb/synthetic_timestamp.go:43-51 | Two records share a timestamp if and only if they are the same leg of logs with the same block time and log index, even when both tokens of a pool are one |
| UniswapExtraction.HotOrDeferred | internal/parser/dexs/eth/uniswap.go:181-282 | Whatever the cache knew and whoever taught it in between: the records written at once and those due to the deferred swaps are together exactly the records of all the transaction's swaps |
| UniswapExtraction.SwapsAreNumbered | internal/parser/dexs/eth/uniswap.go:205-231 | Every swap log long enough has one transaction row, in log order, numbered without gaps |
| UniswapExtraction.PlaceholdersComeFirst | internal/parser/dexs/eth/uniswap.go:1087-1104 | Within the hot path a placeholder row is only ever the first row of a pool nobody knew |
| UniswapExtraction.NewPoolGetsRow | internal/parser/dexs/eth/uniswap.go:1087-1104 | A pool the cache does not know, and learns of from its logs only, gets a row if and only if one of them is scanned |
| UniswapExtraction.CreationsHaveRows | internal/parser/dexs/eth/uniswap.go:198-277 | Every pool creation event has a row with its tokens |
| UniswapExtraction.UniswapExtractor.ExtractTransaction | internal/parser/dexs/eth/uniswap.go:198-277 | The loop over a transaction's logs refines the specified extraction, directions included, and leaves the queue as the deferred swaps' arrivals do, with other goroutines touching the cache between logs |
| UniswapExtraction.UniswapExtractor.ScanSwap | internal/parser/dexs/eth/uniswap.go:217-238 | A swap is parsed before its pool is noted, so the first swap of an unknown pool is deferred and emits the placeholder |
| UniswapExtraction.UniswapExtractor.ParseSwap | internal/parser/dexs/eth/uniswap.go:1107-1309 | A known pool's swap gives its records and the direction of the trade, told from what was paid and received and their ranks as quote assets; an unknown pool's gives exactly one queued message and "swap", a short log neither |
| UniswapExtraction.UniswapExtractor.ResolvePoolTokens | internal/parser/dexs/eth/uniswap.go:1040-1081 | Tokens are found if and only if the cache or Redis knows both, and are then cached |
| UniswapExtraction.UniswapExtractor.LazyPool | internal/parser/dexs/eth/uniswap.go:1087-1104 | A placeholder is emitted and cached if and only if the pool was absent |
| UniswapExtraction.UniswapExtractor.WarmupPoolTokens | internal/parser/dexs/eth/uniswap.go:362-374 | Warm-up adds exactly the resolved pools the cache lacks, changes no entry, and counts what it added |
| UniswapExtraction.UniswapExtractor.ResolvePendingPool | internal/parser/dexs/eth/uniswap.go:707-795 | The worker reports failure exactly when the pool is not resolved or the write not taken and acknowledged, and an applied write stores the pool row with the records of every message |
| VirtualReserves.OnTheCurve | internal/parser/dexs/eth/uniswap.go:1409-1428 | x * y <= L * L < (x + 1) * (y + 1) for all positive liquidity and price (Uniswap v3 Core whitepaper, section 6.2.1) |
| VirtualReserves.ReserveOfLog | internal/parser/dexs/eth/uniswap.go:1409-1428 | A V3 swap log gives a reserve row if and only if it is long enough and neither price nor liquidity is zero; the row lies on that curve, and each amount is liquidity times or over the price of the third word, in units of 2^96, rounded down |
| VirtualReserves.SyncRoundTrip | internal/parser/dexs/eth/uniswap.go:1377-1396 | A Sync log gives the two reserves it was written with, in order, and the decimal columns of its row read back to them |
| VirtualReserves.TwoSnapshotsRefused | internal/storage/pgsql/store.go:536 | Two snapshots of one pool at one time cannot be stored together |
| VirtualReserves.MonotoneInPrice | internal/parser/dexs/eth/uniswap.go:1409-1428 | As the price rises, x does not rise and y does not fall |
| Words.SignedReading | internal/parser/dexs/utils.go:99-108 | On a word the signed reading is the one number in [-2^255, 2^255) congruent to the unsigned one modulo 2^256 |
| Words.SignedRoundTrip | internal/parser/dexs/utils.go:99-108 | Signed reading inverts two's-complement encoding (Solidity Contract ABI Specification, "Formal Specification of the Encoding") |
| Words.Signed64 | internal/parser/dexs/utils.go:110-116 | On eight bytes the reading through 256 bits is the signed 64-bit number |
| Words.WordRoundTrip | internal/parser/dexs/utils.go:241-255 | A number takes exactly 32 bytes if and only if its magnitude is below 2^256, and reading them back gives it if and only if it is not negative |
| Words.FillWord | internal/parser/dexs/utils.go:246-255 | Copying into the tail of a zeroed buffer is padding with zeros on the left |
| Borsh.ParseString | internal/parser/dexs/solana_extractor.go:107-117 | The offset never leaves the data nor goes back, for arbitrary bytes |
| Borsh.ParsePubkey | internal/parser/dexs/solana_extractor.go:97-103 | The same for keys |
| Borsh.ParseU64LE | internal/parser/dexs/solana_extractor.go:67-72 | The same for 64-bit integers |
| Borsh.ParseU128LE | internal/parser/dexs/solana_extractor.go:85-93 | The same for 128-bit integers |
| Borsh.U128IsWhole | internal/parser/dexs/solana_extractor.go:85-133 | Joining the two halves gives the number the sixteen bytes encode |
| Borsh.ReadI64 | internal/parser/dexs/solana_extractor.go:76-81 | Every signed 64-bit integer is recovered from its encoding |
| Borsh.ReadU16 | internal/parser/dexs/solana_extractor.go:58-63 | Every 16-bit integer is recovered from its encoding |
| Borsh.ReadU128 | internal/parser/dexs/solana_extractor.go:85-133 | Every 128-bit integer is recovered from its encoding through its two halves |
| Borsh.ReadString | internal/parser/dexs/solana_extractor.go:107-117 | Every string shorter than 2^32 bytes is recovered from its encoding |
| Borsh.StringReencodes | internal/parser/dexs/solana_extractor.go:107-117 | Encoding what was read gives back the consumed bytes if and only if the announced string lay in the data |
| Borsh.MatchDiscriminatorBytes | internal/parser/dexs/solana_extractor.go:173-183 | The comparison loop decides whether the data begins with the expected bytes |
| PumpFun.TradeRoundTrip | internal/parser/dexs/solanadex/pumpfun.go:140-169 | Every trade is recovered field by field from its encoding, whatever optional fields follow |
| PumpFun.CreateRoundTrip | internal/parser/dexs/solanadex/pumpfun.go:232-255 | So is every creation, with three strings of any length |
| PumpFun.CompleteRoundTrip | internal/parser/dexs/solanadex/pumpfun.go:294-314 | So is every completion |
| PumpFun.EventRoundTrip | internal/parser/dexs/solanadex/pumpfun.go:67-90 | With its discriminator in front, each event is recognised as what it is |
| PumpFun.TradeIsWhatWasThere | internal/parser/dexs/solanadex/pumpfun.go:140-169 | A trade is read from exactly the inputs of at least 89 bytes, and encodes back to them if and only if the flag byte is a boolean |
| PumpFun.CreateIsWhatWasThere | internal/parser/dexs/solanadex/pumpfun.go:232-255 | A parsed creation encodes back to the input if and only if all three strings lay in the data and three keys followed |
| PumpFun.OverlongName | internal/parser/dexs/solanadex/pumpfun.go:232-255 | A creation payload whose name announces more bytes than there are is read, with an empty name |
| PumpFun.ExtractTrades | internal/parser/dexs/solanadex/pumpfun.go:62-75 | A transaction's trade rows are one per trade payload, in order, numbered without gaps, each with its payload's index, the coin, the trader, the direction, the amount of SOL and the time of the event, or of the transaction when the event has none |
| PumpSwap.SwapRoundTrip | internal/parser/dexs/solanadex/pumpswap.go:142-292 | Every buy or sell is recovered field by field from its encoding |
| PumpSwap.CreatePoolRoundTrip | internal/parser/dexs/solanadex/pumpswap.go:294-350 | So is every pool creation |
| PumpSwap.LiquidityRoundTrip | internal/parser/dexs/solanadex/pumpswap.go:352-462 | So is every deposit or withdrawal |
| PumpSwap.EventRoundTrip | internal/parser/dexs/solanadex/pumpswap.go:64-98 | With its discriminator in front, each of the five events is recognised as what it is |
| PumpSwap.SwapIsWhatWasThere | internal/parser/dexs/solanadex/pumpswap.go:142-292 | A swap is read from exactly the inputs of at least 160 bytes and encodes back to them |
| PumpSwap.CreatePoolIsWhatWasThere | internal/parser/dexs/solanadex/pumpswap.go:294-350 | The same for creations of at least 184 bytes |
| PumpSwap.LiquidityIsWhatWasThere | internal/parser/dexs/solanadex/pumpswap.go:352-462 | The same for deposits and withdrawals of at least 88 bytes |
| SyntheticTimestamp.TimestampsOrder | internal/storage/influxdb/synthetic_timestamp.go:24-60 | Timestamps order records exactly as block time, log index and role do, so distinct records never share one |
| SyntheticTimestamp.TimestampReads | internal/storage/influxdb/synthetic_timestamp.go:24-60 | Block time, log index and the slot of the role can be read off a timestamp again |
| SyntheticTimestamp.HundredMillionLogs | internal/storage/influxdb/synthetic_timestamp.go:24-60 | A limit on log indices rules out collisions if and only if it is at most a hundred million |
| ErrorHistory.OneHistory | internal/storage/progress/redis/progress_tracker.go:317-428 | After the same operations a chain's Redis list is the memory slice backwards, and queries with any limit answer mutually reversed lists, as long as every pruning reaches the chain's Redis list |
| ErrorHistory.MirrorStep | internal/storage/progress/redis/progress_tracker.go:587-672 | An operation keeps a chain mirrored and within the cap if and only if it is not a pruning that misses its Redis list |
| ErrorHistory.CountedPrunesReach | internal/storage/progress/redis/progress_tracker.go:317-366 | While Redis can read and write progress records, every pruning reaches every list |
| ErrorHistory.MissedPrune | internal/storage/progress/redis/progress_tracker.go:587-615 | One unreadable progress record and one pruning leave an old error in Redis that memory has dropped |
| ErrorHistory.MemoryIsPrunedRedis | internal/storage/progress/redis/progress_tracker.go:587-672 | In every run, whatever prunings missed the Redis list, the memory list is what the newest cutoff leaves of it, in the opposite order |
| ErrorHistory.ListsAgreeIff | internal/storage/progress/redis/progress_tracker.go:587-672 | At the end of any run the two lists agree if and only if Redis holds no error that the newest cutoff should have removed |
| ErrorHistory.NewestAreKept | internal/parser/engine/progress.go:273-315 | With a clock that does not go back and prunings that reach, both lists are the newest thousand of the errors that would survive without a cap, pruning and clearing included |
| ErrorHistory.MemoryKeepsNewest | internal/parser/engine/progress.go:273-315 | The memory list is so whatever Redis does |
| ErrorHistory.NewestAreAnswered | internal/parser/engine/progress.go:318-337 | A query with a limit answers that many of the newest of these, at most a thousand, and one without a limit all that are kept; Redis answers the same backwards |
| ErrorHistory.CountersAgreeIff | internal/parser/engine/progress.go:303-312 | After any operations the two error counters of a chain agree if and only if it has a progress record, or no error since its errors were last cleared |
| ErrorHistory.CountersDiffer | internal/parser/engine/progress.go:303-312 | One error of a chain without a record: counted in Redis, not in memory |
| ErrorHistory.MemoryProgressTracker.RecordError | internal/parser/engine/progress.go:273-315 | The newest error goes to the end and the list is cut from the front |
| ErrorHistory.MemoryProgressTracker.GetErrorHistory | internal/parser/engine/progress.go:318-337 | A positive limit answers the newest errors, any other all |
| ErrorHistory.MemoryProgressTracker.Cleanup | internal/parser/engine/progress.go:580-609 | Every chain's list loses exactly the errors not after the cutoff |
| ErrorHistory.RedisProgressTracker.RecordError | internal/storage/progress/redis/progress_tracker.go:317-366 | Pushing and trimming keeps the newest thousand, newest first |
| ErrorHistory.RedisProgressTracker.GetErrorHistory | internal/storage/progress/redis/progress_tracker.go:369-401 | A positive limit answers the newest errors, any other all |
| ErrorHistory.RedisProgressTracker.CleanupList | internal/storage/progress/redis/progress_tracker.go:616-672 | Deleting the list and pushing the surviving errors again preserves their order |
| Receipts.AtMostFifteen | internal/parser/chains/bsc/processor.go:250-275 | In every interleaving at most fifteen goroutines hold the semaphore, a waiting one can take a permit if and only if fewer do, and each received result is some transaction's own, never twice |
| Receipts.NoDeadlock | internal/parser/chains/bsc/processor.go:250-286 | Until the collector has every result, somebody can move |
| Receipts.FourMovesEach | internal/parser/chains/bsc/processor.go:250-286 | Every run takes at most four moves per transaction, and it takes that many if and only if everything is received and every goroutine done; so with the above it always finishes |
| Receipts.Collect | internal/parser/chains/bsc/processor.go:278-309 | Collecting by index and converting in order gives the same list for every arrival order |
| Receipts.BlockOrder | internal/parser/chains/bsc/processor.go:288-309 | That list is the transactions with a receipt that convert, in block order |
| Receipts.GetTransactions | internal/parser/chains/bsc/processor.go:238-325 | For every schedule the outcome is, in block order, that of all transactions of a block of at most two hundred, and of the first two hundred of a larger one |
| BatchCache.NothingLost | internal/storage/influxdb/simple.go:192-380 | Under any interleaving of additions and flushes, with any failing writes, what was flushed followed by what is cached is what was added, per kind and in order, and the count is the cache's |
| BatchCache.AddedOrLost | internal/storage/influxdb/simple.go:253-341 | What was written followed by what is cached is what was added if and only if no write of any flush failed |
| BatchCache.WrittenIsFlushed | internal/storage/influxdb/simple.go:253-341 | Otherwise strictly less was written than flushed |
| BatchCache.InfluxStorage.StoreDexData | internal/storage/influxdb/simple.go:192-206 | Left alone, storing never leaves a full batch behind |
| BatchCache.InfluxStorage.FlushBatch | internal/storage/influxdb/simple.go:253-341 | A flush offers every cached record once, kind by kind, empties the cache, and succeeds if and only if none of its writes failed |
| BatchCache.InfluxStorage.AddToBatch | internal/storage/influxdb/simple.go:209-229 | Adding keeps the count equal to the six lengths |

## Left out

- ScanRuns.Coverage: a block the node client skips inside a requested range is not stored, because the client leaves it out without an error (internal/parser/chains/bsc/processor.go:150-159).
- FallbackTracker.StalenessBound: several chains sharing one tracker, because they share its counter.
- BlockScanner.Engine.ProcessChainBatch: which extractor supports which block; an engine without a tracker; block numbers beyond 64 bits in the database.
- SwapSystem.EverySwapAccountedFor: token decimals, which hot path and worker fill in from different sources; what becomes of the records the hot path returned, since the engine's merge has no place for swap records (internal/parser/engine/engine.go:398-403). A stored record is one the worker's store applied.
- SwapPipeline.Parser.Scan: a log is scanned in one move, so the worker does not act between the two cache look-ups and the enqueueing of one log; swaps are numbered over a batch there and in `SwapRescan`, per transaction only in `UniswapExtraction.SwapsAreNumbered`.
- PoolTokens.VisitIsFinal: other extractors' pool rows, the subgraph sync that writes to the same table, and the pool columns besides the tokens.
- ScanProgress.CatchesUpIff: a young chain without a configured start block, whose first range would begin at or below number zero, where a saved zero reads as no checkpoint.
- SwapRescan.OneRowIff: the columns of a transaction row outside its key, which the table keeps from the first storing.
- UniswapExtraction.UniswapExtractor.ExtractTransaction: mint, burn, sync and token rows, and the price and value columns of a transaction row.
- UniswapExtraction.UniswapExtractor.ResolvePendingPool: the multicall and the token metadata lookups, which are one answer of the environment; a write to Redis alongside.
- Subgraph.RowsOfPage: unparsable fees and timestamps, and how many bytes a character takes.
- Syncer.SyncVersion.StorePage: warming the Redis caches, whose failures are ignored. The store is transactional; the time-series store, which can return before writing, is not a durable store in this sense.
- PumpFun.ExtractTrades: creations and completions are recognised and parsed (`PumpFun.EventRoundTrip`) but their rows are not; prices are floating point.
- PumpSwap.EventRoundTrip: the loop over a transaction's payloads, which is that of PumpFun with five cases.
- Borsh.ParsePubkey: base58 text; a key is its 32 bytes.
- ErrorHistory.RedisProgressTracker.RecordError: keys expiring by themselves and entries that are not valid JSON.
- BatchCache.InfluxStorage.FlushBatch: whether a pool, token or reserve already exists before it is written.
- The relational columns of blocks and raw transactions, the MySQL variant of the store and the database error table.
- Float prices, values, success rates and throughput.
- Base64 extraction of Solana program logs, ABI reflection, RPC, HTTP, GraphQL, SQL and Redis clients.
- The Sui, FourMeme and PancakeSwap extractors: repeats of the decoding with easier claims, or mostly SDK calls.
- Configuration, factories, retries, TTL caches, metrics and logging.
- A pending queue with two consumers.

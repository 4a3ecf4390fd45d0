# ipfs-blockchain-watcher: a verified model

The watcher copies chain data into a content-addressed block table and an index over it, and serves that
data along two routes: a live stream filtered in memory and history selected by SQL. This project models the
parts of it that are hard to get right and proves what they promise. Nothing here runs the original program.

| component | files |
|---|---|
| SQL conditions as text: three-valued meaning, grammar, parser | `SqlText.dfy` |
| the receipt queries, built piece by piece | `ReceiptQuery.dfy` |
| tables, foreign keys, cascading deletes, over several ranges as well | `Schema.dfy`, `Cleaner.dfy`, `RangeCleans.dfy` |
| publishing, cleaning and resetting as transactions; whole histories of them | `Payloads.dfy`, `Store.dfy`, `StoreRuns.dfy`, `Reindex.dfy`, `StoredBytes.dfy` |
| the live route, the stored route, and when they agree | `LiveFilter.dfy`, `Retriever.dfy`, `Indexed.dfy`, `Routes.dfy` |
| logs by criteria | `Logs.dfy` |
| gaps, bins, the gap search, the worker pools, repeated backfill passes, on the store as well | `Heights.dfy`, `GapSearch.dfy`, `Pool.dfy`, `Backfill.dfy`, `BackfillStore.dfy` |
| the publish channel as ring buffer; the subscription service | `RingBuffer.dfy`, `WatcherService.dfy` |
| the Bitcoin Merkle tree; Merkle-Patricia nodes and paths | `BtcMerkle.dfy`, `CompactKey.dfy`, `TriePath.dfy`, `TrieWalk.dfy`, `MerkleTrie.dfy` |
| Bitcoin transactions by filter | `BtcTransactions.dfy` |
| block and uncle rewards | `Reward.dfy` |

`Common.dfy` holds the shared vocabulary. Check everything with `dafny verify dfyconfig.toml`.

Where the code departs from its evident intent the model does what the code does, and a lemma says exactly when
the intent is met:

- A filter whose only topics sit past the fourth slot compiles to text with an empty group, which is not SQL
  (`ReceiptQuery.BuildByHeaderId`, `ReceiptQuery.BuildByBlock`).
- Live transactions match source or destination, the query wants both, which also shows in receipts paired with
  transactions; with pairing as the only receipt condition the live route keeps every receipt; live storage filtering
  does not look at the node type; keys are compared as spelled on one route and as hashes on the other
  (`Routes.TxDiffers`, `Routes.ReceiptDiffers`, `Routes.StateDiffers`, `Routes.StorageDiffers`; together
  `Routes.RoutesAgree`).
- A clean deletes rows outside its range that share a block with a row inside. When several ranges are cleaned in one
  call, such a cascade can take a row before the turn of its own range and leave its block behind
  (`RangeCleans.BlocksExact`, `RangeCleans.CascadeHidesBlock`).
- The historical feed ignores `End` when that is positive but not above the first height it serves
  (`Routes.HistoricalRange`).
- A list of one height yields no gap, so a single row below the validation level is never validated again
  (`Heights.MissingHeightsToGaps`, `GapSearch.SearchExact`, `Backfill.NoGapsMeans`).
- Near the top of the 64-bit range the last bin comes out empty (`Heights.GetBlockHeightBins`), and a height list
  that wraps around loses heights (`Heights.MissingHeightsToGaps`).
- The height condition is dropped for heights below one (`Logs.RangeExact`), and the per-log check looks neither at
  the address nor at topics a log does not have (`Logs.ReturnedLogMatches`).
- The producer of the ring buffer can wait for ever (`RingBuffer.StuckExactlyWhenDrained`).
- Serving panics on a payload below the start of a live subscription type (`WatcherService.Watcher.FilterAndServe`).
- A leaf whose decoder fails is still handed out, without elements; every path that leads to it panics
  (`MerkleTrie.WalkCrashes`).
- Gas prices and gas used are cut to 64 signed bits (`Reward.FeesExact`).
- The Bitcoin query wants all output-level criteria on one output, the live check does not
  (`BtcTransactions.RoutesAgreeOnTransactions`). A script-class list naming all 256 classes restricts nothing.

## Model

| member | source | states |
|---|---|---|
| `SqlText.ParseInvertsPrint` | pkg/eth/cid_retriever.go:210-286 | the parser used to give query text its meaning recovers every condition from its printed text, with AND binding tighter than OR |
| `SqlText.NestingSplits` | pkg/eth/cid_retriever.go:210-286 | parenthesis depth of joined text is the depths one after the other; balance is proved with it |
| `ReceiptQuery.AppendTopics` | pkg/eth/cid_retriever.go:229-244 | the topic loop appends one overlap test per wanted slot among the first four, joined by AND, each bound to its own next placeholder |
| `ReceiptQuery.AppendFilter` | pkg/eth/cid_retriever.go:222-282 | addresses, topics and transaction ids are appended with the branches of the code and every argument is bound where the text refers to it |
| `ReceiptQuery.TestsMeaning` | pkg/eth/cid_retriever.go:222-268 | the inner group is true, with NULL as not true, exactly when the addresses overlap and every asked-for slot overlaps |
| `ReceiptQuery.ClauseMeaning` | pkg/eth/cid_retriever.go:210-286 | the whole clause is true exactly when the scope holds and the filter wants the row: tests met, or the transaction id wanted, absent parts dropped |
| `ReceiptQuery.BrokenTopics` | pkg/eth/cid_retriever.go:255-269 | text with an empty topic group does not parse |
| `ReceiptQuery.BrokenLogs` | pkg/eth/cid_retriever.go:222-246 | nor does text with an address test and an empty topic group |
| `ReceiptQuery.BuildByHeaderId` | pkg/eth/cid_retriever.go:210-286 | balanced text, placeholders 1..n once each in order, a syntax error exactly for topics only past slot four, and otherwise a row is selected exactly when it joins, has the header id, and the filter wants it |
| `ReceiptQuery.BuildByBlock` | pkg/eth/cid_retriever.go:290-374 | the same for height and block hash, with the height tested only when positive |
| `Cleaner.DeletesCompose` | db/schema.sql:920-1021 | two cascading block deletes in a row equal one delete of both key sets |
| `Cleaner.TableByTable` | pkg/eth/cleaner.go:221-241 | a sequence of per-table deletes equals one delete of all their keys whenever the order is safe |
| `Cleaner.OrderIsSafe` | pkg/eth/cleaner.go:80-118 | the order the code uses, children before parents, is safe for every data type when tables share no block keys |
| `Cleaner.CleanIsOneDelete` | pkg/eth/cleaner.go:80-118 | a clean of any known type equals a single delete of the blocks of the type's rows in the range |
| `Cleaner.CleanExact` | pkg/eth/cleaner.go:80-118 | a row goes exactly when it or an ancestor shares its block key with a row that is cleaned for the type and is, or hangs from, a header with a number in the range; a block goes exactly when such a row holds its key; the rest is unchanged. Cleaned are: all but accounts for full and headers, uncles for uncles, transactions and receipts for transactions, receipts for receipts, state and storage for state, storage for storage |
| `Cleaner.FullCleanLeavesNothing` | pkg/eth/cleaner.go:221-241 | after a full clean no row under a header in the range is left, and no block keyed by one |
| `Cleaner.HeadersFirstLeavesBlocks` | pkg/eth/cleaner.go:221-241 | deleting headers first would leave a block of a row in the range behind: the order matters |
| `RangeCleans.CleanedRowsGo` | pkg/eth/cleaner.go:61-78 | after a clean of any list of ranges no row of the cleaned type in any of them is left, nor anything below one |
| `RangeCleans.OtherRowsStay` | pkg/eth/cleaner.go:61-78 | a row stays unchanged if neither it nor an ancestor shares its block with a cleaned row of some range |
| `RangeCleans.BlocksExact` | pkg/eth/cleaner.go:61-78 | a block goes exactly when a cleaned row of some range still holds its key when that range's turn comes |
| `RangeCleans.OtherBlocksStay` | pkg/eth/cleaner.go:61-78 | a block that no cleaned row of any range holds stays unchanged |
| `RangeCleans.CascadeHidesBlock` | pkg/eth/cleaner.go:61-78 | a database on which cleaning the state of heights 1 and 5 in one call leaves behind the block of a storage row at height 5, which cleaning height 5 alone deletes |
| `Store.Connection.PublishUncles` | pkg/eth/publish_and_indexer.go:113-129 | inserting block and row of each uncle in turn writes exactly the uncle entries |
| `Store.Connection.PublishTxsAndReceipts` | pkg/eth/publish_and_indexer.go:131-153 | transactions and receipts are written alternately, each receipt under its transaction |
| `Store.Connection.PublishStateNode` | pkg/eth/publish_and_indexer.go:162-223 | a state node is written, and for a leaf its account and storage nodes; it fails exactly on a leaf that does not decode |
| `Store.Connection.PublishStateAndStorage` | pkg/eth/publish_and_indexer.go:162-223 | all state nodes in order; it fails exactly when some leaf does not decode |
| `Store.Connection.Publish` | pkg/eth/publish_and_indexer.go:49-160 | the database becomes the old one with all entries of the payload applied, or stays as it was when a leaf does not decode |
| `Store.Connection.Clean` | pkg/eth/cleaner.go:61-78 | all ranges are cleaned in turn, or nothing changes for an unknown type |
| `Store.Connection.ResetValidation` | pkg/eth/cleaner.go:42-58 | the validation count of every header in a range becomes zero and nothing else changes |
| `StoreRuns.UpsertKeeps` | pkg/eth/indexer.go:91-206 | an upsert under an existing parent with a stored block keeps foreign keys, ids and column shapes right |
| `StoreRuns.ApplyAllKeeps` | pkg/eth/publish_and_indexer.go:49-160 | a list of entries in which parents come first keeps every promise of the schema |
| `StoreRuns.ApplyAllFaithful` | pkg/eth/publish_and_indexer.go:49-160 | and leaves each row with the key of the bytes last written for it |
| `StoreRuns.PublishKeeps` | pkg/eth/publish_and_indexer.go:49-160 | so does a whole publish, and every row's key is the hash of what was last published for it |
| `StoreRuns.EveryRunIsConsistent` | pkg/eth/cleaner.go:42-118 | over every history of publish, clean and reset each row's block is stored, each parent exists, ids are unique and blocks sit under their hash |
| `StoreRuns.FetchReturnsPublished` | pkg/shared/functions.go:54-106 | over every history, fetching by a row's key finds a block, and it is exactly the bytes last published for that row if and only if those bytes do not collide with the block stored under their key |
| `StoredBytes.HeaderKept` | pkg/eth/publish_and_indexer.go:88-108 | after a publish the header row has the key of the header's bytes, which is stored, and the header's columns, counted once more or at one |
| `StoredBytes.UncleKept` | pkg/eth/publish_and_indexer.go:113-129 | each uncle's row has the key of the uncle's bytes, which is stored, and its columns |
| `StoredBytes.TxKept` | pkg/eth/publish_and_indexer.go:131-146 | each transaction's row has the key of the transaction's bytes, which is stored, its addresses and its index |
| `StoredBytes.ReceiptKept` | pkg/eth/publish_and_indexer.go:131-153 | each receipt's row, under its own transaction, has the key of the receipt's bytes, which is stored, its topics by position, NULL where there are none, and its log addresses |
| `StoredBytes.StateKept` | pkg/eth/publish_and_indexer.go:162-180 | each state node's row has the key of the node's bytes, which is stored, its leaf key, empty for the null hash, and the number of its type |
| `StoredBytes.StorageKept` | pkg/eth/publish_and_indexer.go:203-220 | and so has each storage node's row below a state leaf |
| `StoredBytes.AccountKept` | pkg/eth/publish_and_indexer.go:182-202 | the account row below a state leaf holds the account its value decodes to |
| `StoredBytes.PublishStoresBytes` | pkg/eth/publish_and_indexer.go:77-223 | together: every row the payload names refers to a stored block under the key of the bytes the payload gives it |
| `StoredBytes.PublishStoresNothingElse` | pkg/eth/publish_and_indexer.go:77-223 | a publish leaves stored blocks as they are and adds the keys of the trie nodes and of the payload's bytes, and no others |
| `StoredBytes.RefusedChangesNothing` | pkg/eth/publish_and_indexer.go:65-74 | a payload with a missing receipt or a state leaf that holds no account changes nothing |
| `StoredBytes.BytesInEveryRun` | pkg/eth/publish_and_indexer.go:49-223 | over every history in which a header always comes with the same block, a row that is there refers to the bytes the payload gives it |
| `StoredBytes.FetchReturnsPayload` | pkg/shared/functions.go:54-106 | so fetching by its key finds a block, and it is the payload's own bytes exactly when these do not collide with the block stored under their key |
| `StoredBytes.FetchAfterPublish` | pkg/shared/functions.go:54-106 | and right after a publish, whatever came before, every such row is there to be fetched |
| `Reindex.LastWriteWins` | pkg/eth/indexer.go:102-206 | after a list of upserts each row has its id of before and the columns of the last entry for its key |
| `Reindex.HeaderAfterPublish` | pkg/eth/indexer.go:91-100 | publishing counts a known header once more and starts a new one at one |
| `Reindex.PublishTwice` | pkg/eth/indexer.go:47-206 | publishing a payload twice gives the rows, ids and blocks of publishing it once, with the header validated once more |
| `Reindex.TimesValidatedCounts` | pkg/eth/indexer.go:91-100 | over every history a header's count is the number of publishes since it was created or last reset |
| `LiveFilter.FilterMatch` | pkg/eth/filterer.go:228-244 | counting matching slots to four decides whether every wanted slot among the first four overlaps |
| `LiveFilter.FilterTransactions` | pkg/eth/filterer.go:121-148 | keeps, in order, the transactions the address check accepts, and their hashes |
| `LiveFilter.ReceiptPasses` | pkg/eth/filterer.go:195-225 | the early exits and nested loops decide the receipt condition |
| `LiveFilter.FilterReceipts` | pkg/eth/filterer.go:169-193 | keeps, in order, the receipts that pass |
| `LiveFilter.FilterStateAndStorage` | pkg/eth/filterer.go:259-313 | keeps state nodes by key and kind, and storage nodes by both keys whatever their kind |
| `LiveFilter.TxIsKept` | pkg/eth/filterer.go:121-167 | a transaction is in the response exactly when transactions are on, it is in the block, and no address is given, or its source or its destination is listed |
| `LiveFilter.ReceiptIsKept` | pkg/eth/filterer.go:169-244 | a receipt is in the response exactly when receipts are on, it is in the block, and its transaction is in the response and pairing is on, or it has a listed address, if any is given, and a wanted topic at each of the first four positions asked for |
| `LiveFilter.StateIsKept` | pkg/eth/filterer.go:274-291 | a state node is in the response exactly when state is on, it is in the block and a leaf or intermediate nodes are on, and its key is the hash of a listed address, if any is given |
| `LiveFilter.StorageIsKept` | pkg/eth/filterer.go:292-311 | a storage node is in the response exactly when storage is on, it is below a state node of the block whose key is the hash of a listed address, if any is given, and its own key is listed, if any is given |
| `LiveFilter.SelectPicks` | pkg/eth/filterer.go:121-148 | what is kept is kept in the block's order and as often as it occurs there |
| `LiveFilter.Filter` | pkg/eth/filterer.go:44-77 | the response of a payload in range: its number, the header exactly when headers are on, the raw uncles in order exactly when uncles are too, and the kept items; out of range an empty one without a block number |
| `Retriever.JoinById` | pkg/eth/cid_retriever.go:183-193 | joining on serial ids is joining on the parent key, since ids are unique |
| `Retriever.RetrieveTxCIDs` | pkg/eth/cid_retriever.go:183-206 | selects exactly the header's transactions with wanted destination and wanted source |
| `Retriever.HeaderQuerySelects` | pkg/eth/cid_retriever.go:210-286 | run against the tables, the receipt query decides on each receipt with its own transaction and header |
| `Retriever.RetrieveReceiptCIDs` | pkg/eth/cid_retriever.go:210-286 | selects exactly the header's receipts the filter wants, failing exactly for topics only past slot four |
| `Retriever.RetrieveStateCIDs` | pkg/eth/cid_retriever.go:386-408 | selects exactly the header's state nodes with a wanted key and kind |
| `Retriever.RetrieveStorageCIDs` | pkg/eth/cid_retriever.go:411-441 | selects exactly the storage nodes whose state node is under the header and has a wanted key, with wanted key and kind of their own |
| `Retriever.Retrieve` | pkg/eth/cid_retriever.go:62-161 | an error exactly when there is a header at the height and the receipt query is not SQL; otherwise a wrapper for each header there, with the header exactly when headers are on and its uncles exactly when uncles are too, and `empty` is false exactly when there is a header and headers are on or some transaction, receipt, state or storage row was selected |
| `Indexed.TxRows` | pkg/eth/publish_and_indexer.go:131-153 | under a published header, also one published before, there is a transaction row exactly for each transaction, with its columns |
| `Indexed.ReceiptRows` | pkg/eth/publish_and_indexer.go:131-153 | and a receipt row exactly for each receipt |
| `Indexed.StateRows` | pkg/eth/publish_and_indexer.go:162-223 | and a state row exactly for each state node |
| `Indexed.StorageRows` | pkg/eth/publish_and_indexer.go:162-223 | every storage row comes from a storage node under a leaf |
| `Indexed.StorageRowExists` | pkg/eth/publish_and_indexer.go:162-223 | and every such node has its row |
| `Indexed.OwnInEveryRun` | pkg/eth/indexer.go:47-206 | over every history in which a header always comes with the same block, only rows of that block ever hang from it, however often it is published, cleaned or reset |
| `Indexed.UncleRows` | pkg/eth/publish_and_indexer.go:113-129 | under a published header there is an uncle row exactly for each uncle |
| `Routes.TxFiltersAgree` | pkg/eth/filterer.go:151-167 | the two transaction conditions agree on all addresses exactly when sources and destinations are not both given |
| `Routes.StoredWithinLive` | pkg/eth/cid_retriever.go:62-161 | everything the stored route hands out for a published block belongs to the block, and the live route keeps it too |
| `Routes.RoutesAgree` | pkg/eth/filterer.go:44-327 | for every filter and block in range, the stored route answers with the same header, uncles, transactions, receipts, state and storage nodes as the live one if and only if the receipt query is SQL and each item meets the condition stated for its kind |
| `Routes.RoutesAgreeInEveryRun` | pkg/eth/filterer.go:44-327 | the same, and the inclusion, after every history, however often the block was validated before |
| `Routes.HeaderAndUnclesAgree` | pkg/eth/cid_retriever.go:95-110 | both routes have the block's number; both have its header exactly when headers are on and its uncles exactly when uncles are too, and neither has them otherwise |
| `Routes.NothingHidden` | pkg/eth/cid_retriever.go:142-155 | a height with anything selected has something on the live route; and where the routes agree, a height with a header, transaction, receipt, state or storage node to send is never reported empty |
| `Routes.TxDiffers` | pkg/eth/cid_retriever.go:195-203 | a transaction is served alike exactly when not both address lists are given or it is on both or neither |
| `Routes.ReceiptDiffers` | pkg/eth/cid_retriever.go:210-286 | a receipt is served alike exactly when receipts are not paired; or, with no other condition, no transaction is selected or its own is; or, with one, it meets the address and topic tests or its transaction is served alike |
| `Routes.StateDiffers` | pkg/eth/filterer.go:274-291 | a state node is served alike exactly when it is not kept live, or is not looked up by the null hash |
| `Routes.StorageDiffers` | pkg/eth/filterer.go:292-311 | a storage node is served alike exactly when it is not kept live, or it is a leaf (or intermediate nodes are on) below a state leaf, is not looked up by the null hash, and its key is listed as the indexer spells it |
| `Routes.HistoricalRange` | pkg/watch/service.go:380-405 | the bounds cover every stored height in range and stay within the stored ones, and every height served is in range exactly when End is unset, at or past the last block, above both first block and Start, or Start is past the last block |
| `Heights.GetBlockHeightBins` | utils/utils.go:39-62 | errors exactly for a reversed range or batch size zero; the bins concatenate to the range, non-empty and at most a batch long, exactly when the rounded-up end is below 2^64; what comes out otherwise is stated too |
| `Heights.RoomAboveFits` | utils/utils.go:39-62 | which is the case whenever end plus batch size is below 2^64 |
| `Heights.MissingHeightsToGaps` | utils/utils.go:65-89 | for every list of 64-bit heights, the gaps spell out the heights, repetitions included, exactly when there is not just one height and the largest one is nowhere followed by zero; the gaps are then maximal runs |
| `GapSearch.GapQueryMeaning` | pkg/eth/cid_retriever.go:463-468 | the self-join with NULL test and min() returns exactly the maximal runs of absent heights between present ones |
| `GapSearch.LowHeights` | pkg/eth/cid_retriever.go:484-490 | the heights of the rows below the level, ascending, once per row |
| `GapSearch.DueIs` | pkg/eth/cid_retriever.go:445-491 | how often a height is due, by the rows: not below zero or past the last block; once if absent; once for each of its rows validated less often than the level, unless just one row of the table is |
| `GapSearch.RetrieveGapsInData` | pkg/eth/cid_retriever.go:445-491 | fails exactly on an empty table; otherwise each absent height up to the last is in exactly one gap and each present one in as many as it has low rows, or in none if there is a single low row in all |
| `GapSearch.SearchExact` | pkg/btc/cid_retriever.go:171-217 | the gaps cover exactly the heights that are absent or have a low row if and only if the number of low rows is not one |
| `GapSearch.BinsOf` | pkg/historical/service.go:135-151 | for every batch size, the bins of all gaps concatenate to the heights of the gaps exactly when every gap fits, and are then non-empty and at most a batch long |
| `GapSearch.SmallBatchesFit` | utils/utils.go:39-62 | every gap fits for batch sizes below 2^63 |
| `Pool.StepKeeps` | pkg/resync/service.go:128-185 | every step of coordinator or worker keeps the invariant of the pool |
| `Pool.EveryRunKeeps` | pkg/resync/service.go:128-185 | so it holds in every interleaving |
| `Pool.QuitOnlyWhenDone` | pkg/resync/service.go:149-153 | a worker that can take a quit has processed every bin it took, in order and completely |
| `Pool.PassComplete` | pkg/historical/service.go:117-157 | between passes every worker ever started has exited, and the last pass processed every height of every bin, each bin by the one worker that took it |
| `Pool.Progress` | pkg/historical/service.go:117-201 | while a pass is under way some step is enabled, with at least one worker |
| `Pool.StepCounts` | pkg/resync/service.go:128-185 | every step of a pass lowers the measure over unsent bins, busy workers and unsent quits by exactly one |
| `Pool.PassLength` | pkg/historical/service.go:117-201 | so a pass is over after exactly one step per height, two per bin, one per worker and one more, in every interleaving |
| `Backfill.IndexMany` | pkg/eth/indexer.go:91-100 | indexing heights in any order raises each height's count by its number of visits |
| `Backfill.BinsToFill` | pkg/historical/service.go:122-151 | gap search and binning together visit each height exactly as often as it is due |
| `Backfill.PoolMakesPass` | pkg/historical/service.go:117-201 | whatever the interleaving, a completed pool run over those bins is a pass |
| `Backfill.PassEffect` | pkg/historical/service.go:122-157 | a pass leaves no absent height up to the last, raises counts by what was due and adds no height |
| `Backfill.PassLowersDeficit` | pkg/historical/service.go:122-157 | a pass with gaps strictly lowers the sum of missing validations |
| `Backfill.NoGapsMeans` | pkg/eth/cid_retriever.go:445-491 | the search comes back empty exactly when every height is present and at most one row is low |
| `Backfill.LevelPassesSuffice` | pkg/historical/service.go:122-157 | after as many passes as the level nothing is left to fill: every height present, at most one row below the level |
| `BackfillStore.PublishIndexes` | pkg/eth/indexer.go:91-100 | publishing a block does to the header rows of the store exactly what those theorems take indexing a height to do |
| `BackfillStore.PublishesIndex` | pkg/historical/service.go:163-193 | after every history, publishing the blocks of visited heights indexes exactly those heights |
| `BackfillStore.PassOnStore` | pkg/historical/service.go:117-201 | a completed pool run over the due bins is a pass on the store, whatever the interleaving and the history |
| `RingBuffer.NothingLostOrReordered` | pkg/watch/service.go:202-231 | in every run the items taken, then those queued, then the one in the producer's hand, are the converted payloads in arrival order; the queue holds at most 2000, and no payload before number 2001 finds it full |
| `RingBuffer.TakenInOrder` | pkg/watch/service.go:246-261 | the i-th item to leave is the i-th to arrive, so none is taken twice |
| `RingBuffer.DropTakesOldest` | pkg/watch/service.go:224-231 | the dropped item is the oldest, never the newest, and the send after it does not block whatever the workers do |
| `RingBuffer.StuckExactlyWhenDrained` | pkg/watch/service.go:224-231 | no step is left exactly when the workers emptied the channel between the full check and the receive |
| `RingBuffer.StuckIsReachable` | pkg/watch/service.go:224-231 | that can happen, with payload number 2001 |
| `WatcherService.Watcher.constructor` | pkg/watch/service.go:102-147 | a new service has no subscriptions and satisfies the invariant |
| `WatcherService.Watcher.Subscribe` | pkg/watch/service.go:336-376 | keeps the invariant; adds the subscriber under the hash of its settings, leaving every other subscription as it is, unless it is refused or historical only; an error and a quit are tried exactly on refusal or failed history |
| `WatcherService.Watcher.Unsubscribe` | pkg/watch/service.go:451-463 | keeps the invariant; afterwards no type holds the subscriber, every other subscription is as it was, and a type is left exactly when it has another subscriber |
| `WatcherService.Watcher.CloseType` | pkg/watch/service.go:514-522 | removes the type from both maps and sends one quit per subscriber as far as there is room |
| `WatcherService.Watcher.Close` | pkg/watch/service.go:501-511 | empties both maps and sends one quit per subscriber as far as there is room |
| `WatcherService.Watcher.ServeType` | pkg/watch/service.go:299-332 | closes a type whose positive end is below the block's number or on which filtering fails, leaves one alone whose response does not encode, panics on a block below its start, and otherwise sends the filtered payload to each subscriber |
| `WatcherService.Watcher.FilterAndServe` | pkg/watch/service.go:292-333 | keeps the invariant, which makes the missing-configuration branch dead; returns exactly when no type with an encodable response starts above the block; then exactly the types whose positive end is below the block's number, or on which filtering fails, are gone with quits sent, and every channel got one payload of the block's height, as far as it had room, per subscriber of the types with start <= number and end unset or number <= end whose response is made and encodes |
| `WatcherService.ExactlyOnePayload` | pkg/watch/service.go:323-331 | a subscriber with a channel of its own and room in it got exactly one payload, the block filtered by its settings |
| `BtcMerkle.RawData` | pkg/ipfs/ipld/btc_tx_trie.go:45-54 | the 64 bytes are the left hash followed by the right hash, and a node's hash is the hash of these bytes |
| `BtcMerkle.MkMerkleTree` | pkg/ipfs/ipld/btc_parser.go:44-74 | the nodes are those of the tree defined from the root with last elements repeated, bottom layer first; the last is its root; their number is between n-1 and n-1 plus the depth |
| `BtcMerkle.DepthIsLog` | pkg/ipfs/ipld/btc_parser.go:51-71 | the depth is the logarithm of n rounded up |
| `BtcMerkle.SpellingIsBinary` | pkg/ipfs/ipld/btc_tx_trie.go:62-75 | the path used for transaction i is its binary numeral, as long as the tree is deep |
| `BtcMerkle.PathLeadsToTransaction` | pkg/ipfs/ipld/btc_tx_trie.go:62-75 | resolving that path from the last node through emitted nodes ends at transaction i, if no two emitted nodes collide |
| `CompactKey.NibbleToByte` | pkg/ipfs/ipld/trie_node.go:316-325 | the loop expands each byte into its two nibbles |
| `CompactKey.DecodeInvertsEncode` | pkg/ipfs/ipld/trie_node.go:99-127 | decoding inverts hex-prefix encoding for every key and both kinds |
| `CompactKey.EncodeInvertsDecode` | pkg/ipfs/ipld/trie_node.go:99-127 | decodable bytes are the encoding of what they decode to exactly when the ignored padding nibble is zero |
| `TriePath.ShiftFromPath` | pkg/ipfs/ipld/trie_node.go:404-426 | for every path, also beyond ASCII, the loop takes characters until i bytes are reached; the rest is the path without them and without empty elements, or nothing when i falls inside a character |
| `TriePath.DropCharsSpells` | pkg/ipfs/ipld/trie_node.go:404-426 | the rest spells the remaining characters and has no empty element |
| `TriePath.ShiftAscii` | pkg/ipfs/ipld/trie_node.go:404-426 | on ASCII paths that is the first min(i, total) characters and all the others |
| `TrieWalk.ParseTrieNodeBranch` | pkg/ipfs/ipld/trie_node.go:138-160 | accepts exactly items that are all empty or 32 bytes, returning them in order, and otherwise reports the least position that is neither and why |
| `TrieWalk.DecodesExactly` | pkg/ipfs/ipld/trie_node.go:51-160 | exactly which items decode and to what: a pair of byte strings whose key starts below 64, a leaf from 32 up and an extension below, or seventeen items that are empty or hashes; it panics exactly on a pair with a list in it or an empty key |
| `TrieWalk.MatchExact` | pkg/ipfs/ipld/trie_node.go:328-379 | an extension or leaf matches exactly the paths that start with its hex digits, which are then taken off |
| `MerkleTrie.DecodesToNode` | pkg/ipfs/ipld/trie_node.go:51-160 | the stored form of every trie node decodes to that node |
| `MerkleTrie.WalkDescends` | pkg/ipfs/ipld/trie_node.go:168-180 | for every path, resolving through stored nodes finds, misses or panics as descending the trie does |
| `MerkleTrie.WalkFinds` | pkg/ipfs/ipld/trie_node.go:328-444 | however a key's hex digits are split into elements, the walk ends at a leaf's node with nothing left exactly when the trie maps the key to it |
| `MerkleTrie.WalkCrashes` | pkg/ipfs/ipld/trie_node.go:74-76 | for every path, the walk panics exactly when the path leads to a leaf whose value does not decode, whatever follows |
| `BtcTransactions.CheckTransaction` | pkg/btc/filterer.go:115-159 | the flags end up set exactly when transaction-level criteria hold and each output-level one is met by some output |
| `BtcTransactions.BuildTxQuery` | pkg/btc/cid_retriever.go:127-168 | placeholders 1..n in order, and a joined row satisfies the clause exactly when it joins and meets the filter with that one output |
| `BtcTransactions.Multiplicity` | pkg/btc/cid_retriever.go:127-168 | a transaction appears inputs times outputs-that-alone-satisfy times, if its own criteria hold |
| `BtcTransactions.OutputsCounted` | pkg/btc/cid_retriever.go:127-168 | rows of satisfying outputs are as many as satisfying outputs of the transaction |
| `BtcTransactions.AppearsInQuery` | pkg/btc/cid_retriever.go:127-168 | the number of appearances in terms of the converted transaction whose outputs the rows hold |
| `BtcTransactions.SelectedPasses` | pkg/btc/filterer.go:115-159 | whatever the query returns passes the live check |
| `BtcTransactions.RoutesAgreeOnTransactions` | pkg/btc/filterer.go:115-159 | query and check agree on all transactions with inputs and outputs exactly when at most one criterion restricts outputs |
| `Logs.ReceiptMetadata` | pkg/eth/converter.go:93-126 | the topic sets hold the topics of each position in order and the contracts are the log addresses, each once |
| `Logs.ConvertReceipt` | pkg/eth/converter.go:93-126 | a converted receipt's metadata describes its logs |
| `Logs.PublishedFromConverter` | pkg/eth/converter.go:93-126 | the joined row of every receipt of a published block carries exactly that metadata |
| `Logs.Translate` | pkg/eth/api.go:58-80 | criteria become a filter with exactly four slots, further ones dropped |
| `Logs.WantedLog` | pkg/eth/backend.go:392-409 | counting decides whether every topic the log has is wanted at its place |
| `Logs.NoLogIsLost` | pkg/eth/backend.go:374-419 | a log that matches the criteria has a receipt the query wants and passes the check |
| `Logs.ReturnedLogMatches` | pkg/eth/backend.go:392-409 | a log that passes the check matches exactly when its own address is wanted, it has every asked-for topic, and none is asked for past the fourth |
| `Logs.QueryAsksLogs` | pkg/eth/api.go:58-80 | the query over the converter's metadata wants a receipt exactly when some log has a listed address, if any is given, and at each of the first four positions asked for some log has a wanted topic |
| `Logs.RangeExact` | pkg/eth/api.go:128-136 | the loop asks for each block of the range once and for no other exactly when the range starts at one or above or is empty |
| `Logs.RetrieveRange` | pkg/eth/api.go:128-136 | each wanted receipt is found as often as its height is asked for |
| `Logs.ExtractLogsOfInterest` | pkg/eth/backend.go:374-389 | all logs of the receipts that pass the check, in order |
| `Logs.GetLogs` | pkg/eth/api.go:58-147 | fails exactly when a bound is neither given nor stored and there is no block hash; otherwise a log is returned exactly when it is in a receipt of the block with the hash, or of a block from FromBlock, else the first stored height, to ToBlock, else the last one, or of any block when that range has a height below one, whose logs answer the addresses and topics, and none of its own topics is unwanted at its place |
| `Reward.CutFee` | pkg/eth/reward.go:56-66 | a fee computed from cut factors is never too high, and right exactly when neither cut shows |
| `Reward.FeesAddUp` | pkg/eth/reward.go:56-66 | the fees are the sum over transactions of gas price times the gas its own receipt used |
| `Reward.RewardFalls` | pkg/eth/reward.go:43-54 | the static reward never rises with the height and falls at the two fork heights only |
| `Reward.FeesExact` | pkg/eth/reward.go:56-66 | the same for the sum over all transactions |
| `Reward.CalcEthTransactionFees` | pkg/eth/reward.go:56-66 | the in-place loop computes that sum |
| `Reward.CalcEthUncleInclusionRewards` | pkg/eth/reward.go:68-76 | a thirty-second of the static reward per uncle, with nothing shared between rounds |
| `Reward.CalcEthBlockReward` | pkg/eth/reward.go:25-31 | R + n*R/32 + fees without rounding in any era, exactly when no factor is cut; otherwise less. R is 2*10^18 from height 7280000, 3*10^18 from 4370000, 5*10^18 below |
| `Reward.CalcUncleMinerReward` | pkg/eth/reward.go:33-41 | R*(8+u-b)/8 without rounding, with R of those heights; strictly between zero and R exactly one to seven blocks back |

## Left out

- Network clients, streamers, RPC servers and payload fetching: I/O over libraries that are not part of this model; fetching is a function from heights to blocks.
- RLP, Keccak, double SHA-256, CIDs and multihashes: abstract functions, with the laws they are used for stated where they are needed.
- IPFS node mode and its dag putters: the direct Postgres mode moves the same data.
- Fetching IPLDs for CIDs and RPC marshalling: straight-line copying; the routes are compared on what they select.
- Configuration, migrations, vacuuming, logging, timeouts, wait groups and panic recovery: no property worth stating.
- Methods `Tree`, `Stat`, `Size`, `MarshalJSON` and enum conversions: settled by reading a branch.
- The Bitcoin cleaner and indexer: smaller twins of the Ethereum ones.
- Unique constraints: rows are keyed by their unique key, so uniqueness is built into the tables; what is proved is what upserts do to them. The `diff` column of state and storage rows is always true in this code and is not modelled.
- Serial ids: one counter serves all tables, which keeps ids unique across tables as well.
- Result order: the ORDER BY of the index queries and Go's order of map iteration; loops over maps take their elements in any order.
- Concurrent receives during one serving call: a channel's room is what it was when the call began, less what was sent.
- Stopping: the pool and ring-buffer properties are for runs in which the quit channels are not closed.
- Slice capacity: an allocation of a batch-sized bin is taken to succeed.
- Forks in repeated passes: `Backfill` and `BackfillStore` are about chains with one block per height and fetches that succeed; the gap search itself is modelled with forks.
- Reward.CalcEthBlockReward: requires a receipt for every transaction, since the code indexes receipts by transaction.
- BtcMerkle.RawData: requires 32-byte hashes, which is what CIDs of Bitcoin blocks hold.
- MerkleTrie.WalkFinds: is about tries whose children are all linked by hash; nodes short enough to be inlined are refused by the branch decoder.
- Backfill.BinsToFill: promises the due heights for batch sizes below 2^63; for larger ones `GapSearch.BinsOf` says exactly when the bins hold them.

# CryptoFund synchronization engine, modelled in Dafny

This project models the back-end core of CryptoFund. The core keeps a database ledger in step with the `Transacted` events that a fund's smart contracts emit. It has four parts:

- **Catch-up.** A periodic pass (`FundSynchronizer.synchronize`) reads each network's `SyncBlock` cursor. It scans the chain from the next block in chunks of at most `blockStep + 1` blocks. It handles every event of a chunk, then writes the chunk's last block back as the cursor.
- **Recording one event.** Each event is validated and stamped with the block time and the BTC/ETH reference prices. Its sender is found in, or added to, the User directory. It is then recorded at most once under the dedup key (fund, asset, user, amount, transaction hash).
- **Live path.** A live listener hands events to the same handling, through a freshly set-up session.
- **Supporting pieces.** The price index (`Asset.getPrice`), the lookup dictionaries and the startup check (`BlockLib`), the chart bucketing parameters (`Charter.getStartAndStep`), and the validation and row building of the fund snapshot (`Snapshoter`) and of the price fetch (`PriceFetcher`).

The modules follow the source files:

- `Common`: results, errors, exact `bigToNormal`.
- `Asset`: the price index.
- `BlockLib`: dictionaries, `initialize`, reference asset ids.
- `Ledger`: the User directory and the Transaction ledger.
- `EventMerge`: `mergeEvents`.
- `Synchronizer`: setup, session, event handling, catch-up loop, live path.
- `Charter`, `Snapshoter`, `PriceFetcher`.

Everything the engine reads from outside is a parameter:

- the chain head, as a sequence of replies followed by a settled height;
- block timestamps, as a function;
- the event log;
- the AssetPrice table;
- the quote service, as a function.

Database tables are values, and every operation returns the tables as they stand afterwards.

Amounts are exact rationals: `raw / 10^decimals`.

Each chunk is `[start, min(start + blockStep, head)]`, as `synchronizeEvents` computes it, so a chunk holds up to `blockStep + 1` blocks. With cursor 100, `blockStep` 50 and head 170, the chunks are `[101, 151]` and `[152, 170]`, and the final cursor is 170.

## Model

| member | source | states |
|---|---|---|
| Common.ToNormal | BlockLib.ts:107-110 | the scaled amount times 10^decimals is the raw integer, and it has the raw integer's sign and is zero exactly when the raw integer is |
| Asset.LatestAtOrBefore | models/Asset.ts:19-20 | some matching row is returned exactly when one exists, and no matching row is later than it (`ORDER BY Timestamp DESC LIMIT 1`) |
| Asset.EarliestAfter | models/Asset.ts:23-24 | some row strictly after the time is returned exactly when one exists, and no such row is earlier than it |
| Asset.GetPriceRow | models/Asset.ts:18-30 | a row is found exactly when a time is given and the asset has any price row; the row is at or before the time exactly when some row of the asset is; otherwise the error is PriceNotFound |
| Asset.GetPrice | models/Asset.ts:18-30 | succeeds exactly when a time is given and the asset has a price row, and then returns a price satisfying the independent nearest-price definition (latest at or before, else earliest after) |
| Asset.PriceRowIsNearest | models/Asset.ts:18-30 | the row the lookup picks meets the nearest-price definition |
| Asset.NearestPriceUnique | models/Asset.ts:19-24 | with distinct timestamps per asset, two prices that both meet the nearest-price definition are equal, so the lookup's answer is the only admissible one |
| Asset.ExactTimeIsNotLookahead | models/Asset.ts:19-22 | a row stamped exactly at the time is found by the backward query, so the chosen row has that timestamp |
| Asset.RowsOf | models/Asset.ts:19 | keeps exactly the rows of the asset |
| Asset.LatestIgnoresOtherAssets | models/Asset.ts:19-20 | the backward query over only the asset's rows gives the same row as over the whole table |
| Asset.EarliestIgnoresOtherAssets | models/Asset.ts:23-24 | the forward query over only the asset's rows gives the same row as over the whole table |
| Asset.OtherAssetsIrrelevant | models/Asset.ts:18-30 | rows of other assets never change the price found for an asset |
| BlockLib.KeyBy | BlockLib.ts:63 | every row's key is in the dictionary, and each key holds the value of the last row carrying it |
| BlockLib.LaterRowWins | BlockLib.ts:93-97 | a row that no later row shares a key with is the value stored under its key |
| BlockLib.KeyByKeys | BlockLib.ts:118 | the dictionary's keys are exactly the rows' keys |
| BlockLib.FindFirst | Synchronizer.ts:58-60 | none exactly when no row meets the condition; otherwise the first row that does (a query read as `rows[0]`, also used for the BTC and ETH asset rows) |
| BlockLib.Filter | BlockLib.ts:59 | the result holds only rows of the input that pass the WHERE predicate, and every passing row |
| BlockLib.FilterAppend | BlockLib.ts:59 | filtering keeps row order: the filter of a concatenation is the concatenation of the filters |
| BlockLib.FilterCount | BlockLib.ts:59 | each passing row appears as often as in the input, and a failing row not at all |
| BlockLib.GetAssetDictionary | BlockLib.ts:56-66 | every asset of the fund is a key; each key maps to an asset of the fund with that id |
| BlockLib.GetAssetIdDictionary | BlockLib.ts:68-82 | every row's asset id is a key, and each key holds the price of the last row for that asset (ties at the newest timestamp or repeated FundAsset rows leave several) |
| BlockLib.CrossJoin | BlockLib.ts:87 | holds every (asset, address) pair and nothing else |
| BlockLib.AddressQuery | BlockLib.ts:87-89 | returns exactly the joined rows of an active asset with an address on the network |
| BlockLib.AddressDictionary | BlockLib.ts:93-97 | every row's address is a key; each key maps to the {id, decimals, price} of a row with that address, the last such row when an address repeats |
| BlockLib.GetAssetAddressDictionary | BlockLib.ts:84-100 | the keys are exactly the addresses of active assets on the network, each mapped to the information of a matching asset/address pair |
| BlockLib.AddressQueryDictionary | BlockLib.ts:84-100 | every dictionary entry comes from a pair that meets the WHERE clause |
| BlockLib.FirstNullSyncBlock | BlockLib.ts:115-116 | none exactly when every network has a SyncBlock; otherwise the first network with a null one |
| BlockLib.Initialize | BlockLib.ts:112-120 | startup fails exactly when some network has a null SyncBlock, naming the first such network; the endpoints registered are keyed by exactly the ids of the networks before it (all networks on success), each id holding the RPC URL of the last of those networks with that id |
| BlockLib.NetworkKeys | BlockLib.ts:115-119 | the endpoints registered for the networks reached are keyed by exactly their ids, each holding the last such network's RPC URL |
| Charter.ParseChartType | Charter.ts:119-143 | accepts exactly "week", "month", "year" and "all-time", naming the chart type back; anything else is UnknownChartType |
| Charter.ParseNameRoundTrip | Charter.ts:119-143 | parsing a chart type's name gives that chart type |
| Charter.GetStartAndStep | Charter.ts:111-148 | unknown types fail; week and month start 7 and 30 days before the newest snapshot (or the clock) with hourly buckets, year 365 days with daily buckets, all-time at the fund's creation with weekly buckets; the offset is in `[0, step)`, 0 without snapshots, and puts the newest snapshot on a bucket boundary |
| Charter.StepOf | Charter.ts:122-137 | every bucket width is positive |
| Charter.BucketOffset | Charter.ts:145 | the offset is in `[0, step)`, 0 without a snapshot, and the newest snapshot minus the offset is a multiple of the step |
| Charter.MinusRemainder | Charter.ts:145 | a number minus its remainder is a multiple of the divisor |
| Charter.TruncDiv | Charter.ts:59 | `TRUNCATE(x / d, 0)` rounds toward zero: x lies in the bucket's step-wide range on its own side of zero |
| Charter.Bucket | Charter.ts:59 | a snapshot's time minus the offset lies in the step-wide interval of its group: at or above zero the group opens at a multiple of the step, below zero it closes at one |
| Charter.MultiplesApart | Charter.ts:59 | two multiples of the step less than one step apart are the same bucket |
| Charter.SameBucket | Charter.ts:59 | a value falls in bucket k exactly when it lies in `[k*step, k*step + step)` |
| Charter.NewestSnapshotOpensBucket | Charter.ts:59 | with the computed offset, the newest snapshot starts its bucket, and a snapshot shares that bucket exactly when it is less than one step after the newest |
| Snapshoter.BalanceRows | Snapshoter.ts:68-80 | succeeds exactly when every address is in the dictionary, building the i-th row from the i-th address, balance and weight; otherwise it fails with the first unknown address |
| Snapshoter.GetFundTokenBalances | Snapshoter.ts:54-86 | empty or mismatched lengths fail with BadBalanceLengths; then the first unknown address fails; on success the i-th insert and update hold the asset id, exact weight (18 decimals), exact balance and price of the i-th address |
| Snapshoter.InvestedTotals | Snapshoter.ts:104-112 | a null USD sum zeroes all three totals; otherwise USD is kept and a null BTC or ETH sum becomes 0 |
| Snapshoter.GetFundValue | Snapshoter.ts:88-116 | succeeds exactly when BTC and ETH both have price rows, BTC checked first; the prices written are those of a newest row of each, and the invested totals follow the null rules |
| PriceFetcher.ApiIds | PriceFetcher.ts:42-43 | the request lists every asset's ApiId, in asset order |
| PriceFetcher.FirstUnsorted | PriceFetcher.ts:52-55 | none exactly when every quote is at or above the running bound; otherwise the first quote below it |
| PriceFetcher.AdjacentSorted | PriceFetcher.ts:52-55 | adjacent quotes in order make the whole sequence ordered |
| PriceFetcher.RunningBoundSorted | PriceFetcher.ts:52-55 | passing the running-bound check from 0 is the same as being non-decreasing and non-negative |
| PriceFetcher.GetPrices | PriceFetcher.ts:34-70 | no assets means no request; otherwise the ApiIds are requested in asset order; the fetch succeeds exactly when the reply has one quote per asset, sorted from 0, with the count error first and the order error otherwise; on success the i-th insert and update pair asset i with quote i |
| Ledger.FindUser | Synchronizer.ts:154-155 | none exactly when no row has the address; otherwise the id of the first row that does |
| Ledger.InsertUserIgnore | Synchronizer.ts:159-160 | existing rows never change and the address is present afterwards; a present address leaves the table as it was (the unique key makes the insert a no-op); an absent one gets exactly one new row with the counter's id |
| Ledger.AddressesAfterInsert | Synchronizer.ts:159-160 | `INSERT IGNORE` adds the address to the directory's addresses and nothing else |
| Ledger.AddOrFindUserIdAsWritten | Synchronizer.ts:152-163 | a known address returns its id and changes nothing; a new address gets a row but no id comes back |
| Ledger.NewUserIdLostAsWritten | Synchronizer.ts:157-162 | for any new address the code as written returns no id although the new row is then found with the counter's id, which the corrected lookup returns |
| Ledger.NewUserOnEmptyTable | Synchronizer.ts:157-162 | on an empty directory with counter 1 the first user gets no id as written, and id 1 when corrected |
| Ledger.FindUserAppend | Synchronizer.ts:154 | a row appended for an absent address is the one found |
| Ledger.AddOrFindUserId | Synchronizer.ts:152-163 | always yields an id and a well-formed table; a known address returns its row's id and leaves the table unchanged; a new address appends exactly one row with the counter's id and returns that id |
| Ledger.InsertNewUser | Synchronizer.ts:159-160 | a new row with the counter's id keeps ids and addresses distinct and is found for its address |
| Ledger.UserIdStable | Synchronizer.ts:152-163 | asking again for the same address changes nothing and returns the same id |
| Ledger.OneRowPerAddress | Synchronizer.ts:159 | a well-formed directory has exactly one row per address |
| Ledger.AddressesSnoc | Synchronizer.ts:159-160 | appending a row adds exactly its address |
| Ledger.AddTransaction | Synchronizer.ts:165-175 | afterwards the key is recorded; an already recorded key leaves the ledger unchanged, and a new key appends exactly the row; one row per key is preserved |
| Ledger.AddTransactionAsWritten | Synchronizer.ts:165-172 | with a NULL user id on either side the existence check matches nothing; a matching row leaves the ledger as it was, otherwise the row is appended |
| Ledger.DeliverAsWritten | Synchronizer.ts:144-172 | one as-written delivery (user lookup, then the dedup insert with the id that came back) only grows the directory, and the ledger by at most one row |
| Ledger.NewSenderDeliveredAsWritten | Synchronizer.ts:144-172 | as written, a new sender's event delivered three times stores a row with a NULL user id, then a second row under the user's new id, and the third delivery changes nothing |
| Ledger.AddTransactionIdempotent | Synchronizer.ts:165-172 | recording the same row twice equals recording it once |
| Ledger.RecordAllKeys | Synchronizer.ts:165-172 | after any sequence of deliveries the ledger has one row per key, and its keys are exactly the old keys plus the delivered ones |
| EventMerge.MergeEvents | Synchronizer.ts:243-259 | the output holds every input event, as a multiset union, and equals the reference merge |
| EventMerge.MergeContents | Synchronizer.ts:243-259 | the reference merge has the combined length and the multiset union of the inputs |
| EventMerge.MergeTakesFirst | Synchronizer.ts:251-253 | when the first list's head is strictly earlier, or the second list is empty, the merge takes from the first |
| EventMerge.MergeTakesSecond | Synchronizer.ts:250-254 | when the first list is empty or its head is not earlier, the merge takes from the second |
| EventMerge.MergeInterleaves | Synchronizer.ts:243-259 | the merge keeps each input's own order |
| EventMerge.OneSidedInterleaves | Synchronizer.ts:250-251 | once one input is exhausted the rest of the other is copied in order |
| EventMerge.MergeLowerBound | Synchronizer.ts:249-256 | a bound below every input event bounds every output event |
| EventMerge.MergeSorted | Synchronizer.ts:243-259 | inputs sorted by block give an output sorted by block |
| EventMerge.SortedCons | Synchronizer.ts:253-254 | an event at or below a sorted list extends it sorted |
| EventMerge.MergeTiesFavourSecond | Synchronizer.ts:253-254 | when no event of the second list is later than any of the first, all of the second comes first |
| EventMerge.MergeEarlierFirst | Synchronizer.ts:253 | when every event of the first list is strictly earlier, the merge is the first list followed by the second |
| Synchronizer.Setup | Synchronizer.ts:177-196 | succeeds exactly when BTC and ETH asset rows exist; no BTC row fails with the BTC error, a BTC row without an ETH row with the ETH error; on success caches the fund's ids, its two dictionaries, and the ids of the first BTC and first ETH rows |
| Synchronizer.UpdateTimeAndPrices | Synchronizer.ts:229-240 | the same block changes nothing; a new block is stamped with its timestamp times 1000 and the BTC and ETH prices nearest that time, and fails exactly when either has no price row |
| Synchronizer.Validate | Synchronizer.ts:125-138 | passes exactly when user, asset address, amount and hash are set and the address is known, reporting the first missing or unknown field in that order |
| Synchronizer.SaveEvent | Synchronizer.ts:120-150 | the tables only grow (users and ledger rows appended, one ledger row per key kept) and the Network table is untouched |
| Synchronizer.SaveEventOutcome | Synchronizer.ts:120-150 | succeeds exactly when the price refresh and validation pass, the asset belongs to the fund, the block time is known and the asset has prices; a failure before the user lookup changes no table, and no failure adds a ledger row |
| Synchronizer.SaveEventRecords | Synchronizer.ts:144-149 | a success records the event: one AddTransaction under its dedup key, with the event's valuation and the block time, and the refreshed session |
| Synchronizer.SaveEventReplay | Synchronizer.ts:152-172 | an event already recorded changes no table when delivered again, whatever the session |
| Synchronizer.KnownUserUnchanged | Synchronizer.ts:154-155 | a known address returns its id and leaves the directory unchanged |
| Synchronizer.FoundUserIsFirst | Synchronizer.ts:154-155 | in a well-formed directory the row holding an address is the one found |
| Synchronizer.FindUserInPrefix | Synchronizer.ts:154-155 | appending users never changes a known address's id |
| Synchronizer.SettledStaysSettled | Synchronizer.ts:165-172 | a recorded event stays recorded while tables only grow |
| Synchronizer.GrowsTransitive | Synchronizer.ts:152-175 | growth of the tables composes |
| Synchronizer.QueryEvents | Synchronizer.ts:223-224 | returns exactly the logged events in the block range, each as often as the log holds it |
| Synchronizer.QueryEventsInOrder | Synchronizer.ts:223-224 | the events come back in log order: a split log gives the first part's events then the second's, and one event comes back exactly when it is in range |
| Synchronizer.SetSyncBlock | Synchronizer.ts:212 | sets the network's cursor and leaves every other network row as it was |
| Synchronizer.OverwriteCursor | Synchronizer.ts:212 | a later cursor write hides an earlier one |
| Synchronizer.CursorWritesExtend | Synchronizer.ts:212 | one more chunk's write is the last write |
| Synchronizer.ChunksOrdered | Synchronizer.ts:208-214 | chunks never overlap, and the cursor values written strictly increase |
| Synchronizer.ChunksCover | Synchronizer.ts:208-214 | a block lies between the start and the next start exactly when some chunk holds it: no block is skipped |
| Synchronizer.StaySettled | Synchronizer.ts:226 | events recorded by earlier chunks stay recorded |
| Synchronizer.HandleAll | Synchronizer.ts:226 | handling a batch in order, stopping at the first failure, only grows the tables and keeps one ledger row per key |
| Synchronizer.GetTransactionEvents | Synchronizer.ts:220-227 | the result is that of handling the queried events one by one in query order, stopping at the first failure; the events handled before it are recorded; tables only grow, the Network table is untouched, and on success every logged event of the range is recorded |
| Synchronizer.SettledPrefixStays | Synchronizer.ts:226 | events recorded before a failing event stay recorded |
| Synchronizer.SettledAppend | Synchronizer.ts:226 | one more settled event extends the settled prefix of a batch |
| Synchronizer.BatchSettled | Synchronizer.ts:224-226 | settling the whole queried batch settles every logged event of the range |
| Synchronizer.SettledNetworksIrrelevant | Synchronizer.ts:212 | the cursor write does not affect which events are recorded |
| Synchronizer.SettledJoin | Synchronizer.ts:214 | recorded ranges that meet join into one |
| Synchronizer.ScheduleExtends | Synchronizer.ts:204-214 | a non-final iteration adds the chunk `[start, min(start + blockStep, head)]` to the schedule |
| Synchronizer.PassAdvances | Synchronizer.ts:204-214 | one completed iteration keeps the loop invariant: schedule, cursor at the last chunk's end, tables grown, and every event below the next start recorded |
| Synchronizer.PassEnds | Synchronizer.ts:204-210 | stopping on a head below the start, or on a failed chunk, gives the pass's final guarantees |
| Synchronizer.EventKeyStable | Synchronizer.ts:152-155 | an event's dedup key does not change while users are only appended |
| Synchronizer.SaveEventRows | Synchronizer.ts:120-150 | handling one event appends no ledger row other than the one under that event's dedup key |
| Synchronizer.InsertedRowFrom | Synchronizer.ts:165-172 | a row the dedup insert appends under an event's key is a row of that event |
| Synchronizer.RowsJoin | Synchronizer.ts:226 | rows appended by two successive batches are rows of events of their union |
| Synchronizer.HandleAllRows | Synchronizer.ts:226 | handling a batch appends no ledger row but those under the dedup keys of the batch's events |
| Synchronizer.HandleChunks | Synchronizer.ts:208-214 | handling a sequence of chunks (each chunk's events, then its cursor write, stopping at the first failure) only grows the tables |
| Synchronizer.HandleChunksExtend | Synchronizer.ts:208-214 | one more chunk: after a failed chunk nothing more happens; otherwise the chunk's events are handled, and its end is written as the cursor exactly when that handling succeeded |
| Synchronizer.HandleChunksAppend | Synchronizer.ts:210-212 | after clean chunks, one more chunk's outcome is its batch's failure, or its batch's result with the chunk end written as the cursor |
| Synchronizer.HandleChunksRows | Synchronizer.ts:203-215 | handling contiguous chunks appends no ledger row but those of logged events inside the chunks' blocks |
| Synchronizer.LastChunkRows | Synchronizer.ts:208-212 | the rows of the last chunk come from logged events inside it, given that those of the earlier chunks do |
| Synchronizer.LastSplit | Synchronizer.ts:208-214 | a non-empty chunk sequence is its earlier chunks followed by its last, which starts where they end |
| Synchronizer.ChunkAfterRows | Synchronizer.ts:208-212 | the rows one more chunk appends are rows of logged events of its block range |
| Synchronizer.WrittenWiden | Synchronizer.ts:208 | rows of events of a block range are rows of events of any wider range |
| Synchronizer.WrittenJoin | Synchronizer.ts:208-214 | rows of events of `[a, b)` followed by rows of a batch of logged events in `[b, c)` are rows of events of `[a, c)` |
| Synchronizer.AttemptedContiguous | Synchronizer.ts:206-214 | the chunks a finished pass handled, the failing one included, are contiguous and non-empty and end where the completed ones end, or one chunk further |
| Synchronizer.PassRows | Synchronizer.ts:203-215 | a finished pass appended no ledger row but those of logged events in the blocks of the chunks it handled |
| Synchronizer.AttemptedFailing | Synchronizer.ts:208-210 | a pass failing on the chunk after its completed ones handled the completed chunks plus `[start, min(start + blockStep, head)]` |
| Synchronizer.ReplayEnds | Synchronizer.ts:206 | a pass that ends without error replays as exactly its completed chunks |
| Synchronizer.ChunkReplay | Synchronizer.ts:208-214 | replaying one more iteration: a failing chunk makes the replay of the handled chunks end with its error and tables; a clean one extends the replay of the completed chunks by that chunk and its cursor write |
| Synchronizer.HandleChunk | Synchronizer.ts:208-214 | one non-final iteration either ends the pass with the chunk's error, keeping the pass guarantees and the replay, or advances the loop invariant and the replay by the chunk, with the next start right after its end |
| Synchronizer.SynchronizeEvents | Synchronizer.ts:198-218 | the k-th chunk is cut from the k-th head read as `[from, min(from + blockStep, head)]`, contiguous from the start; a clean exit read a head below the next start, a failed chunk's cursor is not written; the cursor is the last completed chunk's end; every logged event of the completed chunks is recorded; handling the chunks it handled, the failing one included, from the initial session and tables gives exactly the final session, tables and error, so nothing else is written |
| Synchronizer.CursorAfterPass | Synchronizer.ts:212 | after a pass the stored cursor is the last chunk's end, never below the old cursor |
| Synchronizer.SyncBlockOf | Synchronizer.ts:111-112 | the cursor is read exactly when the network row exists and its SyncBlock is not null |
| Synchronizer.CursorFacts | Synchronizer.ts:111-117 | after a pass from the block after the stored cursor, chunk ends strictly increase, the new cursor is the last completed chunk's end and not below the old one, every logged event up to it is recorded, and a clean pass read a head below the next start |
| Synchronizer.CaughtUp | Synchronizer.ts:110-118 | a pass from the block after the stored cursor meets all of the catch-up guarantees listed for Synchronize |
| Synchronizer.CatchUp | Synchronizer.ts:113-117 | a pass with a fresh session from the block after the stored cursor meets all of the catch-up guarantees listed for Synchronize |
| Synchronizer.Synchronize | Synchronizer.ts:110-118 | fails exactly when the network row is missing or its SyncBlock is null; otherwise the pass runs with a fresh session from the next block and meets every guarantee of SynchronizeEvents, including the exact replay of the chunks it handled; the cursor never moves backwards and successive writes increase; every logged event up to the new cursor is recorded; a clean pass leaves the last head read at or below the cursor; the tables only grow, a ledger with one row per key keeps one row per key, and every appended ledger row is that of a logged event in the handled chunks |
| Synchronizer.CursorAdvances | Synchronizer.ts:208-214 | the last chunk end is at least the first chunk start |
| Synchronizer.HandleLiveEvent | Synchronizer.ts:56-67 | an event from an unknown contract fails with nothing written; otherwise the first fund row at the emitting address is set up: a failed setup returns its error with nothing written, and a successful one gives exactly the catch-up handling of the event from a fresh session; a success records the event for that fund; tables only grow, and a ledger with one row per key keeps one row per key |

## Left out

- RPC and contract calls: head heights, block timestamps, event logs, balances and weights are parameters.
- Providers in `initialize`: each is represented by its URL.
- Concurrency between the timer pass and the live listener: each call is modelled as a sequential step on the tables. One row per dedup key is proved for any sequence of whole deliveries (through `Grows`, which every handling step keeps), not for interleaved SQL statements. Cron scheduling, logging, connection handling and the leaked connection when `getPrices` throws are also out.
- String comparison in SQL: fund addresses, user addresses, tickers and transaction hashes are compared by exact, case-sensitive equality. MySQL's default collations compare them case-insensitively, so two spellings of one address that differ only in case are distinct here.
- Synchronizer.SaveEvent: handles a new sender with the corrected user lookup (`Ledger.AddOrFindUserId`, see Findings). As written the new sender's id is undefined, so the transaction would be keyed and inserted without a user id; that path is modelled separately, by `Ledger.DeliverAsWritten` and `Ledger.NewSenderDeliveredAsWritten`.
- Ledger.AddTransactionAsWritten: assumes no unique index on the Transaction table, whose schema is not part of this model. A unique index covering the key would still accept a second row with a NULL user id, as MySQL does for NULLs in unique indexes, but one on `TxHash` alone would reject it.
- The fund loop of `getTransactions` (Synchronizer.ts:69-84): one fund is synchronized per call. Two funds on one network share the Network row's SyncBlock, and an error in one fund's pass skips the funds after it; neither is modelled.
- PriceFetcher.GetPrices: quotes are paired with assets by position, as the code does; the reply's own ids are not compared with the requested ApiIds.
- Floating point: `bigToNormal` is exact (`raw / 10^decimals`), so rounding when a double is formed, and Ethers returning 0 for tiny amounts, are not modelled.
- The USD/BTC/ETH amounts written at Synchronizer.ts:149: no code in the file computes them. The model carries them as an opaque `Valuation` supplied with each event.
- `computeTokenInfo` and the fund and contract reads in `getFundValue`: token supply and price are inputs.
- SQL result order where `ORDER BY` leaves ties: any matching row with the extreme timestamp may be returned.
- Column name clashes of `SELECT *` over `Asset, AssetAddress`: the address row's `Decimals` and the asset's `Id` and `Price` are used.
- `getAssetIdDictionary`: the aggregation query is an input row set. Only the dictionary loop over it is modelled.
- The Network table is a map keyed by its primary key `Id`, as `WHERE Id = ?` reads it.
- Synchronizer.UpdateTimeAndPrices: on a failed price lookup, the source has already stored the new block number and time in the session. The model keeps the old session, because the throw abandons the session on both paths.
- Synchronizer.SynchronizeEvents: requires `blockStep >= 0`. With a negative step the loop never ends: at -1 the cursor stalls, and below -1 it moves backwards.
- Charter.GetStartAndStep: `setDate(getDate() - n)` is modelled as subtracting `n` whole days of milliseconds, ignoring daylight-saving shifts. The query that uses the window runs in the database and is modelled only by `Bucket`.
- Chart point computation (`rowsToChartPoints`) and the REST layer are not part of this model.

## Findings

| source | as written | input that shows it | evidently intended | confidence | as-written member | corrected member |
|---|---|---|---|---|---|---|
| Synchronizer.ts:157-162 | on the insert path `addOrFindUserId` declares `userId`, inserts the user, and returns `userId` without ever assigning it; the transaction then carries a NULL user id, which the dedup check never matches, so a second delivery of the same event, which finds the user, stores a second row under the user's id | the first event from an address with no User row, e.g. address "0xab" on an empty directory whose counter is 1 | return the id of the newly inserted row (1 here), so the transaction is recorded under that user | high, not executed | Ledger.AddOrFindUserIdAsWritten, Ledger.NewUserIdLostAsWritten, Ledger.NewUserOnEmptyTable, Ledger.NewSenderDeliveredAsWritten | Ledger.AddOrFindUserId, Synchronizer.SaveEventReplay |

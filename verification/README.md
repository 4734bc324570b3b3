# Wallet collectors: a verified model

The repository collects blockchain data for a multi-coin wallet service and builds its transactions. This
project models the parts whose correctness rests on state carried from call to call, and proves what they
promise. Amounts are whole numbers of the smallest unit (10^-8 of a coin, or neu for BTM).

| files | what they model |
|---|---|
| `Chain`, `Images`, `WriteBack`, `UtxoCollector`, `Keys`, `Options` | the UTXO engine of the Go collector for the Bitcoin family: the ledger as a plain fold of blocks, the two write-back tables as a class over it, flushes, restarts, the table keys |
| `BalanceServer`, `Sums` | balances and unspent outputs answered from the address table |
| `HeightFeed`, `ParallelFetch` | which heights are fetched, and the workers that fetch them concurrently |
| `Base58`, `LogicalFile` | the address codec and the sharded file |
| `EthShutdown` | the Ethereum collector's goroutines and channels as a step relation, from start to shutdown |
| `CoinSelection`, `Transactions` | choice of inputs, change and fees for the Bitcoin-like coins, HC and BTM |
| `Recovery`, `Classifier`, `Cursor` | the Python collector's crash recovery, its transaction classifier, and the history query polled by clients |

Code that changes fields or loops in the repository is a class or a method with loops here, proved against
functions and predicates on plain values; the statements over whole runs are lemmas about those. The two
protocols (`EthShutdown`, `Recovery`) are step relations, so that a statement about every run covers every
interleaving and every crash.

## What is assumed

* The blocks handed over form a valid chain: an output is created once and spent at most once (the rule of
  BIP 30 and BIP 34). An input that does not exist is not excluded: the collector's giving up is modelled.
* The watched addresses do not change during a run of `Recovery`, and a block gives rise to the same rows,
  in the same order, each time it is collected.
* The empty string is not a watched address, since the classifier uses it for "none yet".
* Stores, node and hash functions are parameters: tables are maps or row lists, LevelDB batches are atomic,
  the node is a function from height to block, hashes are functions with results of fixed length.

## Where the code falls short

For each of these the named lemmas, or clauses of the named methods, say exactly when the code does what it is
for, or give the input.

* `get_utxo` ignores the pending deletes: `WriteBack.LookupAnswersLedger`.
* A session that first sees the chain at the stored height hands that block over again, or, when the chain
  does not grow, stores one height less so that the next session does: `HeightFeed.HandOverExact`,
  `HeightFeed.StoredHeightExact`, and for any number of sessions `HeightFeed.ConsecutiveSessions`.
* Handing a block over again leaves the ledger as it is on BCH: `Chain.RepeatedIsOnce`. On the other chains it
  stops the collector, for good, exactly when the block spends an older output: `Chain.ReplayAborts`.
* On disk it is not harmless on any chain. The block's outputs enter the cache while they stand in the table, so
  spending one before the caches are flushed removes it from the cache only, and it is back on disk. Exactly
  these outputs come back: `UtxoCollector.RehandingSession`; in the slow phase, which flushes after every block,
  none does: `UtxoCollector.HarmlessSession`.
* After a give-up the fast phase leaves half a block on disk, and every later handling of it gives up again:
  `Chain.GivesUpForGood`.
* The key parser depends on the separators not occurring in the address: `Keys.SplitRoundTrip`.
* Fewer than three Ethereum handlers can lose a block: `EthShutdown.ThreeHandlersNeeded`.
* `ReadData` runs on for ever when the first missing byte of the range lies in a shard that exists, and only
  then: `LogicalFile.EndsIfReadable`.
* Full send overwrites the computed fee and so gets past the fee check, down to a negative payment:
  `Transactions.SimBtcCreate`, `Transactions.FullSendNegative`.
* HC transactions may pay less than the computed fee, or cut an output to the sender below zero, and BTM ones
  pay one unit less than the scaled estimate with the placeholder: `Transactions.HcCreate`,
  `Transactions.BtmCreate`.
* Without the installed sync number a restart of the Python collector records everything twice:
  `Recovery.SyncNumberNeeded`.
* The deposit amount is that of whichever receiver the dictionary lists first:
  `Classifier.DepositAmountIsPayment`. The sender of a transfer is likewise any sender:
  `Classifier.TransferFromIsWatched`.
* The comment in the code asks for one watched address among the outputs; the code asks for one watched output,
  and the model follows the code: `Classifier.CommentAgrees`.
* BTM's sync height is not looked up, so a BTM client gets no row from any cursor above 0:
  `Cursor.DoneWhenLookedUp`, `Cursor.NothingEver`.
* A client that polls inside a block loses rows: `Cursor.PolledInsideABlock`,
  `Cursor.ExactlyOnceUnlessLate`.

## Model

| member | source | states |
|---|---|---|
| `UtxoCollector.Collector.HandleBlock` | go_collector_services/btc_collect/main.go:759-1086 | one block, whatever was cached or pending before: both tables keep holding exactly the ledger of the processed history, beside entries left over from before; it gives up exactly when an input is missing (never on BCH) and then leaves the disk alone; the height only grows; it flushes exactly with interval 1 or when the ledger has moved from the table on disk by more than the interval, at 230 for an output that is not there and 136 for one that is no longer live |
| `UtxoCollector.Collector.HandleBlocks` | go_collector_services/btc_collect/main.go:766-1087 | a stream of blocks under any flush interval: it stops exactly at the first block that the plain fold cannot complete, holding the fold of the blocks before it; the entries left over are those not live at the first flush; with interval 1 the disk follows block by block and is not touched by the failing one |
| `UtxoCollector.Collector.FastPhase` | go_collector_services/btc_collect/main.go:1240-1259 | the blocks of the fast phase and the flushes after it: the disk is the folded ledger under the largest height, and after a give-up it holds the first part of the failing block under the height of the block before |
| `UtxoCollector.Collector.SlowPhase` | go_collector_services/btc_collect/main.go:1264-1308 | the height is set back to one below the observed one; the disk is the fold of the completed blocks, under the set-back height when there were none; after a give-up nothing is flushed |
| `UtxoCollector.Session` | go_collector_services/btc_collect/main.go:1092-1276 | one run of the program, both phases and the height set back between them: it completes exactly when the fold of the heights handed over does, and then the disk stores that fold, under exactly the height the feed determines, and those entries left over that were not live at the first flush |
| `UtxoCollector.RehandingSession` | go_collector_services/btc_collect/main.go:588-644 | a session that hands the last block over once more completes exactly when that block may be handled again and the rest completes; then the disk is the ledger and, back again, exactly those outputs of that block which the blocks before the first flush spend |
| `UtxoCollector.HarmlessSession` | go_collector_services/btc_collect/main.go:1246-1305 | such a session leaves just the ledger when the block may be handled again and none of its outputs is spent in the fast phase that hands it over; in the slow phase it always does |
| `UtxoCollector.HarmlessSessions` | go_collector_services/btc_collect/main.go:1092-1308 | any number of harmless sessions over a node that never falls back leave the fold of every block once |
| `UtxoCollector.NoneEqualHarmless` | go_collector_services/btc_collect/main.go:1228-1250 | sessions none of which first saw the chain at the stored height hand no block over again, so they are harmless |
| `UtxoCollector.CleanSession` | go_collector_services/btc_collect/main.go:1092-1308 | over a disk with nothing left over a session leaves nothing over |
| `UtxoCollector.LeftIsWrong` | go_collector_services/btc_collect/main.go:451-509 | a disk with entries left over is not the disk of the ledger |
| `UtxoCollector.WholeLookup` | go_collector_services/btc_collect/main.go:566-586 | get_utxo answers as the ledger does over such a disk too |
| `UtxoCollector.WholeFlush` | go_collector_services/btc_collect/main.go:451-509 | a flush writes over every entry left over that is still live, and leaves the others |
| `UtxoCollector.NoReturn` | go_collector_services/btc_collect/main.go:617-644 | what was created before and is not live does not become live again |
| `UtxoCollector.Sessions` | go_collector_services/btc_collect/main.go:1092-1308 | any number of sessions one after the other leave the fold of everything handed over, under the height the feeds determine |
| `UtxoCollector.CleanRestart` | go_collector_services/btc_collect/main.go:1168-1305 | however a stretch of the chain is divided into sessions, stopped in either phase, over a node that never falls back, and whatever their flush intervals: as long as no session that hands a block over again does harm, the same last block means the same tables |
| `UtxoCollector.StoresUnique` | go_collector_services/btc_collect/main.go:588-644 | the ledger fixes the contents of both tables, so two disks that store it are equal |
| `UtxoCollector.FoldKeepsCreated` | go_collector_services/btc_collect/main.go:759-1086 | whatever is unspent after a valid chain was created by it |
| `UtxoCollector.Collector.constructor` | go_collector_services/btc_collect/main.go:1092-1105 | a start with empty caches over a disk that stores a ledger, and possibly entries left over, is a valid state of that ledger |
| `UtxoCollector.Collector.GetUtxo` | go_collector_services/btc_collect/main.go:566-586 | answers from the cache first and the table second, without looking at the pending deletes |
| `UtxoCollector.Collector.SpentUtxo` | go_collector_services/btc_collect/main.go:588-614 | a cached entry is dropped, any other is put on the delete list, independently in each index, with the weights -180, -50 and 68 |
| `UtxoCollector.Collector.AddUtxo` | go_collector_services/btc_collect/main.go:617-644 | the output enters both caches under its two keys, at weight 230 |
| `UtxoCollector.Collector.HandleVin` | go_collector_services/btc_collect/main.go:816-865 | one input: skipped, spent, deferred (BCH) or fatal, exactly as in the ledger's step |
| `UtxoCollector.Collector.HandleVout` | go_collector_services/btc_collect/main.go:937-959 | one output is added to the ledger |
| `UtxoCollector.Collector.HandleTxs` | go_collector_services/btc_collect/main.go:794-1012 | the first pass over a block is the ledger's pass, with the deferred inputs kept under their keys |
| `UtxoCollector.Collector.HandleDeferred` | go_collector_services/btc_collect/main.go:1013-1075 | the second pass, in any order of the map, removes exactly the deferred outputs |
| `UtxoCollector.Collector.Refetch` | go_collector_services/btc_collect/main.go:1034-1062 | fetching a missing output from the node, adding and spending it changes neither table nor the weight |
| `UtxoCollector.Collector.FlushDb` | go_collector_services/btc_collect/main.go:442-564 | caches are empty afterwards, the disk is the ledger and the entries left over that are no longer live, and every prefix of the writes whose height differs from the old one already is the complete disk |
| `UtxoCollector.HeightIsLastCommit` | go_collector_services/btc_collect/main.go:451-553 | in every prefix of the write sequence of a flush, a changed height means both tables are complete |
| `UtxoCollector.ReplayFlush` | go_collector_services/btc_collect/main.go:451-553 | replaying all writes of a flush gives both tables and the height |
| `UtxoCollector.LockstepSpend` | go_collector_services/btc_collect/main.go:588-614 | spending keeps the address table the image of the output table; a cache hit in one is a cache hit in the other |
| `UtxoCollector.LockstepAdd` | go_collector_services/btc_collect/main.go:617-644 | adding keeps the two tables images of the same outputs |
| `UtxoCollector.LockstepFlush` | go_collector_services/btc_collect/main.go:451-509 | after a flush both tables are images of the ledger with nothing cached or pending |
| `UtxoCollector.WeightSpend` | go_collector_services/btc_collect/main.go:588-614 | spending changes 230 per cached output plus 136 per pending spend by -230 or by 136 |
| `UtxoCollector.WeightAdd` | go_collector_services/btc_collect/main.go:617-644 | adding an output that is not cached raises that weight by 230 |
| `UtxoCollector.MidLookup` | go_collector_services/btc_collect/main.go:566-586 | mid-block, get_utxo answers as the ledger does for every input that was not listed before |
| `UtxoCollector.MidSpend` | go_collector_services/btc_collect/main.go:848-861 | spending a live output mid-block keeps tables, ledger and weight in step |
| `UtxoCollector.MidAdd` | go_collector_services/btc_collect/main.go:930-959 | creating a new output mid-block keeps tables, ledger and weight in step |
| `UtxoCollector.MidAbsent` | go_collector_services/btc_collect/main.go:1034-1062 | an output that is deferred and not live has its keys in neither table, cache nor delete list, in both indices |
| `UtxoCollector.BchByName` | go_collector_services/btc_collect/main.go:77-82 | the chains handled in two passes are those whose name begins with BCH in whatever case |
| `UtxoCollector.WeightIsMoved` | go_collector_services/btc_collect/main.go:588-644 | the weight kept along the way is how far the ledger has moved from what is on disk |
| `UtxoCollector.WholeWeight` | go_collector_services/btc_collect/main.go:1080-1086 | and so it is at the end of every block, over any disk |
| `UtxoCollector.MaxHeightOfRange` | go_collector_services/btc_collect/main.go:1077-1079 | the largest height after the blocks of a range of heights |
| `WriteBack.FlushTable` | go_collector_services/btc_collect/main.go:442-509 | puts then deletes, in batches of at most 300 plus a remainder each, whatever the iteration order: the table becomes (table + cache) - deletes, and replaying the batches gives it |
| `WriteBack.PutAll` | go_collector_services/btc_collect/main.go:451-464 | all cached entries are written, in size/300 + 1 batches |
| `WriteBack.DeleteAll` | go_collector_services/btc_collect/main.go:465-474 | all listed keys are deleted, in size/300 + 1 batches |
| `WriteBack.LookupAnswersLedger` | go_collector_services/btc_collect/main.go:566-586 | a lookup agrees with the ledger if and only if the output is not waiting for its deletion |
| `WriteBack.SpendKeepsRep` | go_collector_services/btc_collect/main.go:588-614 | spending keeps: cache, table and delete list are images of one split, deletes distinct and on disk, cache apart from disk |
| `WriteBack.AddKeepsRep` | go_collector_services/btc_collect/main.go:617-644 | adding a new output keeps the same invariant |
| `WriteBack.SpendLive` | go_collector_services/btc_collect/main.go:588-614 | spending a live output removes it and nothing else from (disk - pending) + cache |
| `WriteBack.AddLive` | go_collector_services/btc_collect/main.go:617-644 | adding a new output adds it and nothing else to (disk - pending) + cache |
| `WriteBack.AbsentEverywhere` | go_collector_services/btc_collect/main.go:566-586 | an output that was never created has its key in neither table, cache nor delete list |
| `WriteBack.FlushKeepsRep` | go_collector_services/btc_collect/main.go:442-509 | after the flush the table alone is the image of the ledger |
| `WriteBack.KeyFnInjective` | go_collector_services/btc_collect/main.go:647-663 | both key builders are one to one on outputs |
| `WriteBack.DuplicateOutputsBreak` | go_collector_services/btc_collect/main.go:588-644 | why outputs must be created once: recreated while pending they are lost by the flush, recreated while on disk they come back after being spent |
| `Chain.BlockResult` | go_collector_services/btc_collect/main.go:759-1086 | a block processed in any order ends in the ledger plus what it creates minus what it consumes |
| `Chain.BlockResultUnique` | go_collector_services/btc_collect/main.go:759-1086 | that description fixes the ledger |
| `Chain.LedgerAfterBlock` | go_collector_services/btc_collect/main.go:816-959 | read off the raw inputs and outputs: after a completed block an output is unspent exactly when it was before, or the block lists it, and no input that is not a coinbase and whose transaction id is not all zeros names it |
| `Chain.LedgerOfChain` | go_collector_services/btc_collect/main.go:759-1086 | the same for a whole chain: unspent is what was there at the start and no block names, or what some block lists and neither that block nor a later one names |
| `Chain.AbortsWhenMissing` | go_collector_services/btc_collect/main.go:816-865 | a block gives up exactly when, off BCH, some input names an output that is neither unspent before the block nor listed by a transaction before |
| `Chain.TwoPassIsOrderIndependent` | go_collector_services/btc_collect/main.go:816-865 | the two-pass processing of any permutation of a block equals the one-pass processing of an order the other chains accept |
| `Chain.BchPermutations` | go_collector_services/btc_collect/main.go:1013-1075 | any two permutations of a block end in the same ledger under the two-pass processing |
| `Chain.DeferredLookupsHit` | go_collector_services/btc_collect/main.go:1013-1036 | every lookup of the second pass hits if and only if every input is spent from the ledger or from the block itself |
| `Chain.CompletedIsFunded` | go_collector_services/btc_collect/main.go:835-847 | a block that the one-pass processing accepts spends only outputs of the ledger or of itself |
| `Chain.ReplayAborts` | go_collector_services/btc_collect/main.go:835-847 | off BCH, handling a completed block once more gives up, the first time and every time after that, if and only if it spends an output older than itself |
| `Chain.GivesUpForGood` | go_collector_services/btc_collect/main.go:835-847 | off BCH, a block that made the collector give up does so every time it is handled again, on the ledger that all the times before left behind |
| `Chain.StuckForGood` | go_collector_services/btc_collect/main.go:835-847 | the same for any ledger and any block with an input that is neither live nor created earlier in the block |
| `Chain.HandledTwice` | go_collector_services/btc_collect/main.go:816-865 | on every chain, a block handled a second time without a give-up changes nothing |
| `Chain.RepeatedIsOnce` | go_collector_services/btc_collect/main.go:816-865 | a block that may be handled again, on BCH every block, leaves the same ledger however often it is handled |
| `Chain.RepeatResult` | go_collector_services/btc_collect/main.go:759-1086 | on any ledger without what it creates and spends itself a block adds and removes the same outputs |
| `Chain.RewoundRun` | go_collector_services/btc_collect/main.go:816-865 | handled on the ledger without its own outputs a block ends where the first time did, and gives up exactly when it may not be handled again |
| `Chain.Survives` | go_collector_services/btc_collect/main.go:835-861 | over a stretch of blocks a live output stays live exactly when none of them spends it |
| `Chain.FoldAppend` | go_collector_services/btc_collect/main.go:766-784 | folding two chains one after the other is folding their concatenation |
| `Chain.ChainAppend` | go_collector_services/btc_collect/main.go:766-784 | a chain split in two is valid, and completes, exactly when both parts are and do |
| `Chain.BlockKeepsHistory` | go_collector_services/btc_collect/main.go:759-1086 | after a valid block everything unspent was created at some time |
| `Keys.UtxoKeyInjective` | go_collector_services/btc_collect/main.go:647-649 | equal output keys come from equal transaction ids and indices |
| `Keys.AddrKeyInjective` | go_collector_services/btc_collect/main.go:655-663 | equal address keys come from the same output and the same address part |
| `Keys.SplitRoundTrip` | go_collector_services/btc_collect/src/util/util.go:29-36 | the parser returns the output the key was built from if and only if the searched head holds neither separator and the index is below 2^31 |
| `Keys.ItoaRoundTrip` | go_collector_services/btc_collect/main.go:647-649 | decimal numerals read back as the number they write |
| `Keys.ParseOfPrinted` | go_collector_services/btc_collect/src/util/util.go:34 | the parser reads a printed number back, capped at 2^31 - 1 |
| `Keys.Index` | go_collector_services/btc_collect/src/util/util.go:30-31 | the first position of a character, or -1 |
| `Keys.ParseInt32` | go_collector_services/btc_collect/src/util/util.go:34 | the result is never negative and never above 2^31 - 1, and 0 unless the text is all digits |
| `BalanceServer.GetBalance` | go_collector_services/btc_collect/server.go:343-392 | the balance is the total of the address's unspent outputs, even when addresses share their first 20 characters |
| `BalanceServer.ListUnSpent` | go_collector_services/btc_collect/server.go:269-336 | for every address: distinct outputs above the cut-off, one entry for each, as its key parses; all of them when at most 1500 and 1500 of them otherwise; with at most 1500 it stops exactly when one of the keys cannot be sliced; for an address without separators never, and each entry has the id and index it was stored under |
| `BalanceServer.ScanIsOwned` | go_collector_services/btc_collect/server.go:343-380 | the prefix scan filtered by full address is, entry by entry and in total, the address's share of the ledger |
| `BalanceServer.SplitOfKey` | go_collector_services/btc_collect/server.go:307-309 | the key of an output of a clean address splits back into its id and index |
| `BalanceServer.ParsedIsRight` | go_collector_services/btc_collect/server.go:307-309 | what a key parses to is its output if and only if the address holds no separator and the index is below 2^31 |
| `BalanceServer.DerivedAddressIsClean` | go_collector_services/btc_collect/main.go:672-705 | addresses the collector derives never contain a separator, so their keys split back |
| `Sums.SumRename` | go_collector_services/btc_collect/server.go:359-375 | a total does not depend on how the entries are keyed or visited |
| `HeightFeed.FeedFast` | go_collector_services/btc_collect/main.go:1246-1250 | the heights height+1 up to count, or up to where a signal ended the phase |
| `HeightFeed.FeedSlow` | go_collector_services/btc_collect/main.go:1271-1301 | the heights from count up to the highest count seen |
| `HeightFeed.HandOverExact` | go_collector_services/btc_collect/main.go:1228-1301 | one session follows the stored height without gap or repetition if and only if its first count is above it, or it hands over nothing |
| `HeightFeed.StoredHeightExact` | go_collector_services/btc_collect/main.go:1271-1272 | the height on disk after a session is the largest one in the tables if and only if the chain was seen above the stored height, or a signal ended the fast phase |
| `HeightFeed.ConsecutiveSessions` | go_collector_services/btc_collect/main.go:1168-1305 | over any number of sessions every height is handed over exactly once and in order if and only if nothing was handed over from the first session on that saw the chain at the stored height; the stored height is the last one handed over if and only if there was none |
| `HeightFeed.NoneEqualIsExact` | go_collector_services/btc_collect/main.go:1168-1305 | without such a session the heights run from the first stored height to the last |
| `HeightFeed.SetBackHandsOverAgain` | go_collector_services/btc_collect/main.go:1271-1272 | an idle session that starts at the stored height lowers it by one, and the next one hands that block over again |
| `HeightFeed.NextReached` | go_collector_services/btc_collect/main.go:1246-1305 | over a node that never falls back a session goes on after the highest block handed over, or hands that one over once more first |
| `HeightFeed.StoredNearReached` | go_collector_services/btc_collect/main.go:1271-1272 | the stored height is then the highest block handed over or the one below |
| `ParallelFetch.CollectBlock` | go_collector_services/btc_collect/main.go:186-334 | for every interleaving of the workers: the blocks of the fed heights in order, once each, then one exit marker |
| `ParallelFetch.FetchBatch` | go_collector_services/btc_collect/main.go:203-228 | one batch comes out in the order of its heights whatever the workers do |
| `ParallelFetch.RunWorkers` | go_collector_services/btc_collect/main.go:113-176 | any schedule of the workers ends, never fills the buffered channel, and leaves one message for every height |
| `ParallelFetch.Slices` | go_collector_services/btc_collect/main.go:205-215 | the slices are as many as the rounded-up quotient, partition the batch in order, and none is empty or too long |
| `ParallelFetch.Ceil` | go_collector_services/btc_collect/main.go:178-184 | the least number of slices that holds the batch |
| `Base58.DecodeOfEncode` | go_collector_services/btc_collect/src/util/base58.go:59-133 | decoding undoes encoding for every byte sequence, leading zeros included |
| `Base58.EncodeOfDecode` | go_collector_services/btc_collect/src/util/base58.go:59-133 | encoding undoes decoding exactly for the strings over the alphabet |
| `Base58.EncodedText` | go_collector_services/btc_collect/src/util/base58.go:14-133 | an encoding is no shorter than its input and never contains O or I |
| `Base58.RecodeRoundTrip` | go_collector_services/btc_collect/src/util/base58.go:59-133 | changing the base and back keeps leading zeros and value |
| `Base58.Encode` | go_collector_services/btc_collect/src/util/base58.go:101-133 | the division loop, the leading ones and the reversal in place compute the encoding |
| `Base58.Decode` | go_collector_services/btc_collect/src/util/base58.go:59-97 | the accumulation from the right and the padding compute the decoding, empty for a foreign character |
| `Base58.AlphabetIs` | go_collector_services/btc_collect/src/util/base58.go:14 | the symbols are the digits and letters without 0, O, I and l, in ascending order |
| `Base58.AlphabetInverse` | go_collector_services/btc_collect/src/util/base58.go:12-53 | the table inverts the alphabet and marks everything else |
| `Base58.ReverseSlice` | go_collector_services/btc_collect/src/util/base58.go:126-130 | the in-place swap loop reverses the slice |
| `Base58.BinToB58Check` | go_collector_services/btc_collect/main.go:672-705 | the address is the encoding of version, hash and checksum |
| `Base58.AddressDecodes` | go_collector_services/btc_collect/main.go:672-705 | an address decodes to 25 bytes: version, 20-byte hash, first 4 bytes of the double hash |
| `LogicalFile.WriteData` | go_collector_services/btc_collect/src/util/logical_file.go:49-66 | the array holds the data at its place and every other byte as before; no shard exceeds FileSize |
| `LogicalFile.WriteOnce` | go_collector_services/btc_collect/src/util/logical_file.go:50-65 | one shard's write followed by the rest is one write of the whole |
| `LogicalFile.ReadData` | go_collector_services/btc_collect/src/util/logical_file.go:15-32 | the bytes of the array from start on, up to the size or up to the first missing file, for every pattern of short reads |
| `LogicalFile.EndsIfReadable` | go_collector_services/btc_collect/src/util/logical_file.go:15-32 | every run of the read loop ends, for every pattern of short reads, if and only if the first missing byte of the range, if there is one, lies in a file that does not exist |
| `LogicalFile.StepsUntilEnded` | go_collector_services/btc_collect/src/util/logical_file.go:17-30 | another iteration is possible exactly until everything is read or the next file does not exist |
| `LogicalFile.NoRunEnds` | go_collector_services/btc_collect/src/util/logical_file.go:15-32 | otherwise no run ever reaches an end |
| `LogicalFile.ShortShardNeverEnds` | go_collector_services/btc_collect/src/util/logical_file.go:15-32 | a shard of one byte, asked for two |
| `LogicalFile.ReadShard` | go_collector_services/btc_collect/src/util/logical_file.go:23-26 | what one read of a shard returns continues the array |
| `LogicalFile.WriteThenRead` | go_collector_services/btc_collect/src/util/logical_file.go:15-66 | what was written is read back across any number of shards |
| `LogicalFile.Locate` | go_collector_services/btc_collect/src/util/logical_file.go:79-97 | shard number and offset determine the position in the array |
| `EthShutdown.EveryRunFinishes` | go_collector_services/eth_collect/main.go:369-404 | with three or more handlers every interleaving is finite, a state without a step is exactly one where everybody has returned and at most three exit tokens remain, and then every fetched block was handled exactly once |
| `EthShutdown.ThreeHandlersNeeded` | go_collector_services/eth_collect/main.go:158-173 | no interleaving loses a block if and only if there are at least three handlers |
| `EthShutdown.FewHandlersLose` | go_collector_services/eth_collect/main.go:158-173 | with fewer than three handlers: an interleaving that ends with the block behind the tokens |
| `EthShutdown.NeverTwice` | go_collector_services/eth_collect/main.go:66-173 | no interleaving, with any number of handlers, handles a block more often than it was fed |
| `EthShutdown.TokensSuffice` | go_collector_services/eth_collect/main.go:158-173 | with three handlers no exit token is posted again; with more, at the end at least as many were as there are handlers beyond three |
| `EthShutdown.SendsWaitAtForty` | go_collector_services/eth_collect/main.go:369-370 | no channel ever holds more than 40 messages, and whoever has something to send waits exactly when it holds 40 |
| `EthShutdown.StepKeepsInv` | go_collector_services/eth_collect/main.go:66-173 | every step of every goroutine keeps: each marker, token and count accounted for, a token dropped only once the counter has reached the handlers, at most two tokens ahead of a block |
| `EthShutdown.StepConserves` | go_collector_services/eth_collect/main.go:66-173 | every step keeps how often each height is somewhere in the pipeline or handled |
| `EthShutdown.StepBurns` | go_collector_services/eth_collect/main.go:66-173 | every step lowers a bound on the steps left |
| `EthShutdown.BlockedIsFinal` | go_collector_services/eth_collect/main.go:369-404 | no reachable state is stuck: without a possible step all have returned |
| `EthShutdown.StartHoldsInv` | go_collector_services/eth_collect/main.go:369-396 | the start satisfies the invariant and bounds the run by 7 steps per height and marker and 5 per handler |
| `CoinSelection.Select` | utils/sim_btc_utils.py:169-202 | the selection, which the rules call for coin by coin and which is unique, its exact total, and the need reached if and only if all coins together reach it |
| `CoinSelection.ReachesWhenAllDo` | utils/hc_utils.py:136-169 | completeness for every threshold and padding, also when every coin is large enough and only padding selects |
| `CoinSelection.FewestCoins` | utils/hc_utils.py:153-159 | before padding no covering set of coins is smaller than the selection |
| `CoinSelection.LargestAreWorthMost` | utils/btm_utils.py:210-216 | no set of coins is worth more than equally many of the largest |
| `CoinSelection.LimitIsFair` | utils/btm_utils.py:193-229 | a limit on the inputs refuses exactly what no choice of coins within the limit could pay |
| `CoinSelection.LimitOnSelected` | utils/btm_utils.py:225-229 | the same for what the selection returned |
| `CoinSelection.CoreUnique` | utils/sim_btc_utils.py:172-191 | the rules fix the chosen coins and their order |
| `CoinSelection.SelectionIsUnique` | utils/sim_btc_utils.py:169-199 | the selection as a function of coins and need is the only one the rules call for |
| `CoinSelection.SelectionOfEqual` | utils/hc_utils.py:136-169 | many equal coins that are all needed are all selected |
| `CoinSelection.SortIsStable` | utils/sim_btc_utils.py:169 | the coins are sorted largest first, equal amounts in their old order, none lost |
| `CoinSelection.SortKeepsTotal` | utils/sim_btc_utils.py:169 | sorting keeps the total |
| `CoinSelection.FindSingle` | utils/sim_btc_utils.py:174-184 | the last coin that is large enough, when some later one is not |
| `CoinSelection.TakeLargest` | utils/sim_btc_utils.py:186-192 | the shortest prefix of the sorted coins that reaches the need, or all |
| `CoinSelection.SelectionByRules` | utils/sim_btc_utils.py:169-199 | coin by coin: spent is a coin that is needed, which is the smallest sufficient one among many when a smaller one follows, otherwise each one that those before it do not make superfluous; and, with more coins than the threshold, each of the smallest ones, as many as the needed ones fall short of the padding; and no other |
| `CoinSelection.CoreIsTaken` | utils/sim_btc_utils.py:178-192 | what the first two loops choose are exactly the needed coins |
| `CoinSelection.Pad` | utils/sim_btc_utils.py:193-199 | the smallest coins not yet used follow, as many as the range fixed beforehand allows |
| `CoinSelection.SumOfChosen` | utils/sim_btc_utils.py:169-199 | the running sum is what the chosen coins are worth |
| `Transactions.SimBtcCreate` | utils/sim_btc_utils.py:155-238 | created exactly when the coins cover amount plus fee and the fee for the selected inputs passes the check, all as functions of the request; the fee is the configured one for speed, otherwise one unit for each started kilobyte of inputs, payments and one more output; the coins are those of the rules with 8 and 5; inputs minus outputs is at least that fee and at most 546 more, full send included; recipients get exactly what was asked; with full send the payment listed first is changed by the spare fee, and is negative exactly when the computed fee exceeds the configured one by more than it (and, for the sender, what is left) |
| `Transactions.FullSendNegative` | utils/sim_btc_utils.py:220-229 | with the configured numbers, 32 coins of 12 500 and a payment of 300 000: the fee check would refuse, full send gets past it, and the payment comes out as minus 120 000 |
| `Transactions.HcCreate` | utils/hc_utils.py:124-187 | created exactly when the coins cover amount plus fee; the computed fee is one unit for each started kilobyte of inputs, payments and one more output, the coins those of the rules with 15 and 10; the fee paid is the one for the selected inputs, or all that is left when the sender has no output and that leaves no more than dust, so less exactly when the inputs leave less; a requested output to the sender is cut by what is missing, and negative exactly when it is smaller than that |
| `Transactions.HcUnderpays` | utils/hc_utils.py:177-187 | with the configured numbers and 32 equal coins: 5 000 000 is left for a fee of 5 200 000 |
| `Transactions.HcNegativeOutput` | utils/hc_utils.py:181-184 | with the same numbers an output of 100 000 to the sender comes out as minus 100 000 |
| `Transactions.BtmCreate` | utils/btm_utils.py:168-271 | created exactly when 8 or fewer coins can cover the need and the scaled estimate is below the fee; the coins are those of the rules with 20 and 6; paid is floor(11 est / 10), or one less exactly with the placeholder output, always below the fee |
| `Transactions.SizeFeePerKilobyte` | utils/sim_btc_utils.py:215-219 | the computed fee is the unit times the least number of kilobytes that holds the inputs, the payments and one more output |
| `Transactions.SimBtcFeeIs` | utils/sim_btc_utils.py:215-219 | the fee of a request: the configured one for speed, otherwise the one for the size of the selected inputs |
| `Transactions.GiveChange` | utils/sim_btc_utils.py:230-238 | the surplus goes to the sender unless it would be a dust output of its own |
| `Transactions.FullSend` | utils/sim_btc_utils.py:220-224 | the first listed payment, whichever it is, is raised by the spare fee and the others stay |
| `Transactions.FirstOutputs` | utils/btm_utils.py:239-251 | everything left goes to the sender, or a one-unit placeholder when nothing is left |
| `Transactions.ReadDestinations` | utils/sim_btc_utils.py:164-167 | the amount is the total of the requested payments in any order |
| `Recovery.EveryRunRecords` | btc_data_collector/collect_btc_block.py:48-168 | whatever crashed and when, also inside the clearing: every block below the sync number is on disk in order and no row is there too often; while the collector is up the rows are a prefix of an uninterrupted run's rows, and with no flush under way exactly those of the blocks below the next one to flush |
| `Recovery.CrashesLeaveNoTrace` | btc_data_collector/collect_btc_block.py:48-168 | a run with crashes and one without, both between flushes at the same block, have the same deposit and withdraw rows |
| `Recovery.AlwaysRecovers` | btc_data_collector/collect_btc_block.py:104-168 | from every moment of every run a restart can get to any later block with exactly its rows |
| `Recovery.SyncNumberNeeded` | btc_data_collector/collect_btc_block.py:110-113 | no row is ever recorded twice if and only if the sync number is installed, or the chain has no row at all |
| `Recovery.AgainFromZero` | btc_data_collector/collect_btc_block.py:81-113 | without the installed number a crash makes the collector record everything again |
| `Recovery.StaysBehindTheNode` | btc_data_collector/collect_btc_block.py:139-168 | no block is fetched that the node has not reported, never more than eleven are queued, and one that was reported is left waiting exactly when eleven are |
| `Recovery.StepKeepsInv` | btc_data_collector/collect_btc_block.py:48-168 | every step of the fetching thread, the collecting thread, the flush thread, a crash and a restart keeps the tables in step with the sync number and the queue in order |
| `Recovery.SafeWithout` | btc_data_collector/collect_btc_block.py:115-127 | a removal cut short after any of its rows leaves the blocks below the sync number and no row too often |
| `Recovery.ClearedSafe` | btc_data_collector/collect_btc_block.py:115-130 | a removal that ends leaves exactly the blocks below the sync number |
| `Recovery.RemoveOwn` | btc_data_collector/collect_btc_block.py:115-127 | clearing touches no row of another chain |
| `Recovery.OthersUntouched` | btc_data_collector/collect_btc_block.py:48-130 | rows of other chains are only ever added to |
| `Recovery.NothingWritten` | btc_data_collector/collect_btc_block.py:66-85 | a chain without rows leaves none, with or without the sync number |
| `Classifier.CollectPrettyTransaction` | btc_data_collector/collect_btc_block.py:294-439 | stated over just the inputs that spend an output with an address and the outputs whose script has one: the type number follows from the sets of senders, watched senders and watched output entries; the rows are those of the type, complete, with exact amounts and total for a withdraw |
| `Classifier.CollectPrettyTransactionBtm` | btc_data_collector/collect_btc_block.py:441-584 | the same for BTM, stated over just the spend inputs and control outputs that move the native asset from or to an address |
| `Classifier.BtmPutsAreMoves` | btc_data_collector/collect_btc_block.py:475-515 | of the entries exactly those of the wanted kind, of the native asset and with an address count, each with its own address and amount |
| `Classifier.SimInsAreMoves` | btc_data_collector/collect_btc_block.py:327-362 | of the inputs exactly those that spend an output with an address count, each with that address and value |
| `Classifier.SimOutsAreMoves` | btc_data_collector/collect_btc_block.py:372-377 | of the outputs exactly those whose script has an address count, each for its first address and its value |
| `Classifier.OnlyCountedRows` | btc_data_collector/collect_btc_block.py:327-435 | leaving out the parties that do not count changes neither the type nor the rows |
| `Classifier.OnlyCountedMatters` | btc_data_collector/collect_btc_block.py:327-378 | coinbases, scripts without address, foreign assets and retirements change neither the type nor senders, receivers, amounts and total |
| `Classifier.ScanInputs` | btc_data_collector/collect_btc_block.py:327-371 | every sender with its total; one watched sender, or the flag that there are more |
| `Classifier.ScanOutputs` | btc_data_collector/collect_btc_block.py:372-387 | every receiver that is not a sender, with its total; a watched one, or the flag that more than one entry is watched |
| `Classifier.WithdrawRows` | btc_data_collector/collect_btc_block.py:424-435 | one row for each receiver in any order, adding up to all that is paid out |
| `Classifier.Verdict` | btc_data_collector/collect_btc_block.py:389-409 | the sentinel strings and the validity flag say what the sets say |
| `Classifier.DepositAmountIsPayment` | btc_data_collector/collect_btc_block.py:413-423 | the recorded amount is the watched address's payment, for every dictionary order, if and only if every receiver gets that much |
| `Classifier.DepositOfTheWrongAmount` | btc_data_collector/collect_btc_block.py:413-423 | a deposit beside a payment to somebody else may be recorded with what the other one gets |
| `Classifier.TransferFromIsWatched` | btc_data_collector/collect_btc_block.py:413-416 | the sender recorded for a transfer is the watched one, for every dictionary order, if and only if it is the only sender |
| `Classifier.CommentAgrees` | btc_data_collector/collect_btc_block.py:307-324 | code and comment give the same type if and only if the transaction does not pay one watched address in several outputs while meeting every other condition of its type |
| `Classifier.PaidTwiceIsRejected` | btc_data_collector/collect_btc_block.py:383-387 | the smallest case of that: one watched address paid in two outputs is rejected though the same total in one output is a deposit |
| `Cursor.History` | service/sim_api.py:1171-1229 | exactly the rows above the old cursor up to the new one, from the first non-empty one of the windows up to the sync height; the cursor advances whenever a row up to the sync height is outstanding; without a block number exactly when the cursor is above the sync height and rows are above the cursor |
| `Cursor.ReplyOfAnswer` | service/sim_api.py:1171-1229 | read off the tables: deposits, then withdraws, then, only for Ethereum and its tokens, guard calls, each latest first, and of each table exactly the rows above the cursor and at or below the new one, within one window of 1000 blocks, or 10 000 for Ethereum, counted from the cursor |
| `Cursor.SeenRows` | service/sim_api.py:1187-1193 | the withdraws are read for every chain, the guard calls only for Ethereum and its tokens |
| `Cursor.SyncHeightIs` | service/sim_api.py:1154-1179 | the name the sync height is looked up under, for Ethereum, every name with erc in it, and the six other chains |
| `Cursor.AllHistory` | service/sim_api.py:1154-1229 | the sync height is looked up for Ethereum, its tokens and six chains, is 0 for the others, and without the installed number the item is left out |
| `Cursor.DoneWhenLookedUp` | service/sim_api.py:1154-1179 | an empty answer means that nothing is outstanding up to where the collector has got if and only if the chain is one of those looked up |
| `Cursor.BtmIsNotLookedUp` | service/sim_api.py:1154-1179 | BTM is collected and its number installed, but it is not one of them |
| `Cursor.NothingEver` | service/sim_api.py:1171-1199 | a client of a chain that is not looked up never gets another row, from any cursor above 0 |
| `Cursor.ReadWindow` | service/sim_api.py:1200-1224 | the rows of one window, latest first in each table, and the largest block number among them |
| `Cursor.PollingIsExactlyOnce` | service/sim_api.py:1171-1229 | with tables filled block by block, feeding the cursor back delivers every row above the start exactly once, and after an empty answer nothing up to the sync height the call used is outstanding |
| `Cursor.ExactlyOnceUnlessLate` | service/sim_api.py:1171-1229 | for any growing tables no row is delivered twice, and all are delivered if and only if none appeared at or below a cursor already handed out |
| `Cursor.PolledInsideABlock` | service/sim_api.py:1199-1226 | a call between the deposit and the withdraw of one block loses the withdraw for good |
| `Cursor.FullWindow` | service/sim_api.py:1199-1226 | after empty windows, the first full one holds exactly the rows up to the next cursor |
| `Cursor.AllEmpty` | service/sim_api.py:1199 | when all windows are empty nothing up to the sync height was passed over |

## Left out

- UtxoCollector.Collector.SpentUtxo: the weight is an unbounded integer; its wrap-around at 32 bits, which needs more than nine million outputs between two flushes, is not modelled.
- UtxoCollector.Session: requires that the blocks handed over are a valid chain on the ledger it starts from; a block handed over again is covered by starting it from the ledger without that block's outputs (`UtxoCollector.RehandingSession`). A crash in the middle of a flush of the Go collector has no recovery in the code, only the commit order (`UtxoCollector.HeightIsLastCommit`) holds.
- UtxoCollector.CleanRestart: requires a node that never reports less than was handed over before; a node that falls back lets several blocks be handed over again, which is not modelled.
- UtxoCollector.Collector.FastPhase: after a give-up `main` waits for the fetching goroutine before it flushes; when more blocks are on their way than the channel holds that wait never ends, which is not modelled.
- HeightFeed.FeedSlow: a signal in the slow phase ends the observations, which is a shorter list of them.
- BalanceServer.GetBalance: adds whole units; the rounding of the floating-point sum is not modelled, and an argument shorter than 20 characters, on which the slice expression fails, is excluded.
- BalanceServer.ListUnSpent: an argument shorter than 20 characters, on which the slice expression fails, is excluded.
- LogicalFile.ReadData: requires the condition under which the loop ends (`LogicalFile.EndsIfReadable`), since it has nothing to return otherwise.
- EthShutdown.EveryRunFinishes: covers the first phase of `main` up to its wait; the single collector and handler of the following phase, the sleeping loops and the database writes of a handler are not modelled.
- Transactions.SimBtcCreate: amounts are exact; the rounding to eight digits is not modelled.
- Transactions.BtmCreate: `estimate * 1.1` is floor(11 * estimate / 10) instead of a floating-point product; the conversion of the requested amounts to neu is done by the caller.
- Recovery.EveryRunRecords: deposit and withdraw rows only; block rows carry the chain id "btc" whatever the chain, so clearing them works only for BTC. A database error during the clearing, which the code swallows, is not modelled.
- Classifier.CollectPrettyTransaction: the address of an input is taken from the transaction it spends before the loop; the conversion of scripts to addresses and the formatting of amounts are not modelled.
- Cursor.History: works on the rows of the asked chain, which like the code it does not filter by account; parameter checks and the unused limit are not modelled.
- The BTM branch of the UTXO engine (keys by output id, table of transaction heights), transaction counters and the transaction-id file are not modelled; the address-to-transaction relation is switched off in the code.
- HTTP and RPC clients, retries, JSON, signing, scripts, and the database engines are outside the model.
- The omni collector and its transaction builder, and the Python collector for Ethereum, are not modelled: their rollback and duplicate checks give no clean guarantee.
- The rest of `service/sim_api.py`, the older coin utilities, configuration tables, progress output and generated code are not modelled.

# A verified model of MEX

MEX is an off-chain matching engine. Orders enter through HTTP or mesh gossip, are buffered and
ranked by network-time evidence, agreed on by a quorum of nodes, written ahead to a durable log,
matched in price-time order, recorded in hash-chained audit logs, confirmed by traders, and settled
in proven chunks against a ledger. This project models those state machines in Dafny and proves what
they keep over whole runs, together with the soundness of the script that compares two constraint
systems of the settlement circuit.

How the model is laid out:

- `Types.dfy`: records shared by all parts, and the fee schedule.
- `PriceTime.dfy`, `Engine.dfy`, `BookInvariants.dfy`, `BookTheorems.dfy`, `BookOperations.dfy`: the order
  book as values, a declarative specification of price-time priority, and theorems over every run.
- `OrderBook.dfy`: the order book as an object with the nested loops, deferred removals and cursor.
- `HashChain.dfy`, `Archive.dfy`: the audit logs, their mirrors, and cold storage. `ArchiveRuns.dfy`,
  `LostReceipts.dfy`: both logs of a running node as runs of that machine, and when archived receipts hold.
- `Ledger.dfy`, `Chunks.dfy`, `Batcher.dfy`, `Settlement.dfy`, `SettlementRuns.dfy`,
  `Coverage.dfy`: settlement as values, up to whole runs of the batcher. `SettlementBatcher.dfy`: the batcher as an object.
  `SettlementLoop.dfy`: what a flush hands over, what submission consumes and a failed one restores.
- `Node.dfy`, `Recovery.dfy`, `RecoveryTheorems.dfy`: the durable node, replay and snapshots.
  `NodeRuns.dfy`: whole runs with the settlement loop, snapshots, truncation, crashes and failed writes.
  `FailedWrites.dfy`, `Pipeline.dfy`, `ConfirmRuns.dfy`, `ExactlyOnce.dfy`, `SnapshotRuns.dfy`,
  `NodeMeaning.dfy`, `MatchTimes.dfy`: what holds over all of them. `AppState.dfy`: the node and its log as objects.
- `Sequencer.dfy`, `Quorum.dfy`, `Replicas.dfy`: ranking, voting, agreement of replicas.
- `Field.dfy`, `R1cs.dfy`, `Coefficients.dfy`, `Rendering.dfy`, `CircuitDiff.dfy`: arithmetic modulo a
  prime, expansion of constraints, the text a polynomial is compared by, comparison of constraint systems.

Modelling conventions:

- A 32-byte id, hash or key is a natural number, read big-endian, so numeric order is byte order. A
  BTreeMap or sled tree that is scanned in key order is an ascending sequence.
- `u64` is the subset of integers below 2^64; every wrapping product or sum is written out.
- SHA-256 (section 6.2 of FIPS 180-4) is a function parameter. That it is injective is a hypothesis of
  exactly the lemmas that need it.
- Times used for ranking and voting are `real`. The wall clock is a parameter, and recovery reads other
  clock values than the live node did.
- Proving is a function from batches to an optional proof; `MAX_BATCH_TRADES` is any `k` above zero.
- A durable write has four outcomes: written; failed without a trace; inserted but reported failed
  because the flush failed, the node going on; and written just before the process dies. An entry that
  was inserted is on disk when the node restarts.
- A run carries a record that no operation reads: the entries recovery reflects, the entries the running
  node acted on, and what the settlement loop has taken out and not put back.

## Model

| member | source | states |
|---|---|---|
| PriceTime.GreedyIsPriceTime | crates/engine/src/book.rs:132-311 | the greedy fill meets the declarative specification: total = min(taker amount, eligible liquidity), nobody exceeds their amount, own orders and non-crossing ones get nothing, and no earlier or better eligible maker keeps quantity while a later one trades |
| PriceTime.PriceTimeIsUnique | crates/engine/src/book.rs:132-311 | that specification admits exactly one allocation, so it pins the fill down completely |
| PriceTime.GreedyTotal | crates/engine/src/book.rs:132-311 | the matched total is the minimum of what the taker wants and what is eligible |
| Engine.LevelRefinesGreedy | crates/engine/src/book.rs:141-206 | one price level with self-trade skipping and deferred removal refines the flat greedy fill of that level's queue |
| Engine.SweepRefinesGreedy | crates/engine/src/book.rs:132-215 | sweeping levels and pruning empty ones afterwards refines one flat greedy fill over the whole side |
| BookTheorems.AddIsPriceTime | crates/engine/src/book.rs:118-314 | on any well-formed book, an accepted order's matches are the fills of the unique price-time allocation at the makers' prices and add up to the smaller of its amount and the eligible liquidity, each maker loses exactly what it traded, the remainder rests last at its own price, the cursor moves on by one node per match, and symbol, nodes and fees stay |
| BookTheorems.AddGuard | crates/engine/src/book.rs:118-128 | the guard refuses exactly the orders with no amount, no price, a price above 10^12 or a value of 2^64 and more; a refused order changes nothing and matches nothing, and no order changes symbol, nodes or fees |
| BookTheorems.AddTurns | crates/engine/src/book.rs:73-80 | the i-th match of an order goes to the node i places after the cursor, or to none when there are no nodes, and the cursor ends behind the last one |
| BookOperations.RunTakesTurns | crates/engine/src/book.rs:73-80 | over every run of adds and cancels, the i-th match of the whole run goes to the node i places after the cursor the run began with, and symbol, nodes and fees never change |
| BookOperations.AddPrunes | crates/engine/src/book.rs:204-215 | after an accepted order, a level left empty on the swept side was empty before and beyond the order's reach: levels it emptied are gone |
| BookTheorems.MatchTermsOk | crates/engine/src/book.rs:316-343 | every match names the selling trader, charges the side the sell order's requester names, takes tier, rate and deadline from that side's preference, and is assigned the next node of the round robin |
| BookTheorems.PlacedLastAtItsPrice | crates/engine/src/book.rs:217-220 | a resting remainder joins the back of its own level's queue and every other queue is untouched |
| BookTheorems.RoundRobinStep | crates/engine/src/book.rs:73-80 | the n-th assigned node and the cursor after n matches are one step of a round robin from any restored cursor |
| BookTheorems.ReachableBookOk | crates/engine/src/book.rs:118-359 | every book reached by any run of adds and cancels is sorted, has each order at its own price on its own side with positive amount and amount*price below 2^64, and is crossed only by a trader against themselves |
| BookTheorems.ReachableMatchesOk | crates/engine/src/book.rs:119-188 | every match of every run has positive amount, price*amount below 2^64, two different traders and a fee of 1 to 500 basis points |
| BookTheorems.MatchKeysUnique | crates/engine/src/book.rs:142-202 | in every run of adds with distinct ids and any cancels, no two matches ever produced share a (maker, taker) key |
| BookTheorems.EveryRunFromNew | crates/engine/src/book.rs:6-16 | from a newly made book, whatever is added and cancelled, the book stays well formed, every match is bounded and between two traders, and distinct ids make distinct match keys |
| BookTheorems.AddIgnoresClock | crates/engine/src/book.rs:118-314 | equal books yield equal books and equal matches up to the two clock fields, whatever timestamps are supplied |
| BookInvariants.CancelContents | crates/engine/src/book.rs:345-359 | a cancel finds an id if and only if it rests on that side, and then removes exactly one occurrence of it and no other id |
| BookOperations.CancelIsRemoval | crates/engine/src/book.rs:345-359 | a cancel finds an id if and only if it rests on either side; it takes out the first order with that id, bids before asks and lower prices before higher, and no other order, queue, price or setting changes; an id that does not rest changes nothing |
| BookOperations.CancelledQueues | crates/engine/src/book.rs:345-359 | at the cancelled order's price the queue is the one before without it, the rest in order; at every other price it is as before |
| MutableOrderBook.RemoveFilled | crates/engine/src/book.rs:204-206 | removing the recorded positions back to front leaves exactly the orders at the other positions, in order |
| MutableOrderBook.PruneLevels | crates/engine/src/book.rs:213-215 | deleting the recorded prices leaves exactly the other levels |
| MutableOrderBook.OrderBook.AddOrderAt | crates/engine/src/book.rs:118-314 | the nested loops over levels and queues produce exactly the specified book and matches; each match goes to the next node around the list, the cursor ends behind the last, and symbol, nodes and fees stay |
| MutableOrderBook.RewardsAreFees | crates/engine/src/book.rs:163-168 | the running fee total is the start plus the sum over the matches of amount*price*rate/10000 rounded down, modulo 2^64, however often it wrapped on the way |
| MutableOrderBook.OrderBook.CancelOrder | crates/engine/src/book.rs:345-359 | the search and removal in place produce exactly the specified book and answer: found if and only if the id rests, the first such order taken out, and nothing else changed |
| MutableOrderBook.OrderBook.AssignNode | crates/engine/src/book.rs:73-80 | after n calls the cursor and the node returned are those of the round robin from the start |
| MutableOrderBook.OrderBook.SetActiveNodes | crates/engine/src/book.rs:39-42 | replacing the eligible nodes restarts the round robin and touches nothing else of a well-formed book |
| MutableOrderBook.OrderBook.RestoreActiveNodesCursor | crates/engine/src/book.rs:57-59 | restoring the cursor resumes the round robin there and touches nothing else |
| Fees.FeeBps | crates/common/src/fees.rs:53-66 | for any gas price, utilization and volatility the fee rate is between 1 and 500 basis points |
| Fees.FeeBpsIs | crates/common/src/fees.rs:31-66 | the rate is the whole part of base * gas/50 * (1 - utilization/2) * (1 + volatility/2), base being 5, 15 or 50 by tier, held between 1 and 500 |
| Fees.DefaultReproducesFixedSchedule | crates/common/src/fees.rs:31-66 | the default calculator gives the fixed schedule 5, 15, 50 |
| Fees.FeesAgreeIffNoWrap | crates/api/src/settlement.rs:578-579 | for a notional below 2^64 the 64-bit fee at settlement equals the 128-bit engine fee if and only if notional*bps is below 2^64 |
| HashChain.SegmentsCompose | crates/orderlog/src/lib.rs:392-415 | verification of a++b holds if and only if it holds of a and then of b from a's last hash |
| HashChain.VerifyChainSegment | crates/orderlog/src/lib.rs:392-415 | the loop with a running hash decides exactly that verification |
| HashChain.SameRootSameChain | crates/orderlog/src/lib.rs:192-203 | under an injective hash, two verified nonempty chains from one start with one root are identical entry by entry |
| HashChain.MirrorStaysVerified | crates/orderlog/src/lib.rs:365-376 | a mirror fed arbitrary remote entries always verifies and only ever grows |
| HashChain.MirrorAgrees | crates/orderlog/src/lib.rs:365-444 | a mirror whose nonempty root equals the source's holds exactly the source's entries |
| HashChain.MirrorCatchesUp | crates/orderlog/src/lib.rs:365-376 | a mirror fed the missing verified entries in order accepts them all |
| HashChain.SplitKeepsTip | crates/orderlog/src/lib.rs:268-285 | splitting off old entries loses none, moves neither root nor next index, and both parts verify if and only if the whole did |
| HashChain.HashChainLog.AppendPayload | crates/orderlog/src/lib.rs:287-303 | the object appends the next linked entry and returns it; a verified log below 2^64 entries stays verified |
| HashChain.HashChainLog.TryAppend | crates/orderlog/src/lib.rs:365-376 | an entry is appended if and only if it verifies as the next one; otherwise nothing changes |
| HashChain.HashChainLog.TrimTo | crates/orderlog/src/lib.rs:268-285 | the object keeps its root and next index while returning the archived prefix |
| Archive.ArchiveEntries | crates/api/src/persistence.rs:299-331 | the insert loop, failing at any entry or at the flush, stores exactly the entries before the failure |
| Archive.ReachableInv | crates/api/src/snapshot_loop.rs:111-159 | under any interleaving of appends, archive cycles failing anywhere, snapshots, and crashes whose replay appends any payloads, more or fewer than were there, the archive has an entry for every index up to some point at or beyond the hot window, and below the hot window they are the history's |
| Archive.CrashEverywhereIff | crates/api/src/snapshot_loop.rs:44-99 | after a crash, whatever its replay appends, every stored entry is in the history if and only if the archived part of the unsaved tail comes back first and as it was |
| Archive.EverywhereIff | crates/api/src/snapshot_loop.rs:44-159 | over every run the archive agrees with the history at every stored index throughout if and only if every crash does so |
| Archive.StaleArchive | crates/api/src/snapshot_loop.rs:111-159 | archived, not yet snapshotted, crashed, and not the first payload replay appends: the archive keeps an entry the log does not have there |
| Archive.TipIsHistory | crates/orderlog/src/lib.rs:304-332 | in every such state root and next index are those of the full history |
| Archive.QueryExactIff | crates/api/src/server.rs:942-970 | the entries query, reading the hot window and later the archive, returns exactly history[since..] if and only if since lies in the hot window read or the archive read holds nothing of that window |
| Archive.RunQueryExactIff | crates/api/src/server.rs:942-970 | so over every run, with whatever the process does between the two reads |
| Archive.FailedCycleDuplicates | crates/api/src/snapshot_loop.rs:121-133 | a cycle that stores an entry and then fails makes the query from the start return it twice |
| Archive.DuplicatingRun | crates/api/src/snapshot_loop.rs:121-133 | a run of four steps after which the query from the start is wrong |
| Archive.DuplicatingGap | crates/api/src/server.rs:946-969 | an entry archived between the query's two reads is returned twice |
| ArchiveRuns.FoldLogs | crates/api/src/server.rs:550-637 | running log entries on any core appends their receipts to the order log and the matches they produce to the match log |
| ArchiveRuns.LogsAreArchived | crates/api/src/snapshot_loop.rs:44-159 | in every run of a node, with any failed writes, archiving and crashes, both its logs are runs of that machine, a crash appending the receipts logged after the snapshot and what those orders produce when matched again |
| LostReceipts.EveryRunMissing | crates/api/src/server.rs:514-530 | in every sequenced run that retries nothing, what the node acted on since the snapshot is what was logged since without the orders inserted and reported failed |
| LostReceipts.ReceiptsComeBackIff | crates/api/src/snapshot_loop.rs:111-134 | after a crash archived receipts are still the order log's if and only if none is archived, since the snapshot, at or after the place of an order whose entry was inserted and reported failed |
| LostReceipts.ReceiptArchiveIff | crates/api/src/snapshot_loop.rs:111-134 | over every such run they are so throughout if and only if every crash meets that condition |
| LostReceipts.LostReceipt | crates/api/src/server.rs:514-530 | the run that fails: one order inserted and reported failed, another accepted and its receipt archived, a crash before the snapshot |
| Ledger.BalanceLedger.DebitFrom | crates/batcher/src/ledger.rs:39-50 | a debit succeeds if and only if the balance suffices and changes nothing otherwise |
| Ledger.TotalUpdate | crates/batcher/src/ledger.rs:28-50 | changing one balance moves its symbol's total by exactly the difference |
| Chunks.ChunksPartition | crates/batcher/src/lib.rs:260-271 | the chunks partition the drained trades: each is nonempty, within size and for one node, all trades occur equally often, and each node's trades keep their order |
| Chunks.ChunksAreTheOnly | crates/batcher/src/lib.rs:260-271 | the chunks are the only list of one-node chunks of at most k trades that keeps each node's trades in queue order, takes the nodes in ascending order and begins no chunk for a node while its last one has room |
| Batcher.DebitsSucceedIff | crates/batcher/src/lib.rs:336-360 | the debit phase completes if and only if each (taker, symbol) sum is covered at the start |
| Batcher.RollbackRestores | crates/batcher/src/lib.rs:362-368 | crediting back what was debited before a failure restores every balance |
| Batcher.ProvenBatch | crates/batcher/src/lib.rs:277-330 | what is proved for a chunk is exactly its trades whose value the taker holds, in order, each with its maker's and its taker's balance at chunk start and the 64-bit sum of the values; the proof reported is the prover's answer to that |
| Batcher.ChunkIsAtomic | crates/batcher/src/lib.rs:277-389 | with a succeeding prover the filtered chunk settles if and only if every taker's sum in it is covered, credits inside the chunk never helping; otherwise every balance is as before |
| Batcher.CreditsExactIff | crates/batcher/src/lib.rs:370-376 | credits add exactly the value of the trades to every symbol's total if and only if no credited account exceeds 64 bits |
| Batcher.ChunkConservesIff | crates/batcher/src/lib.rs:277-389 | whatever happens to a chunk, no symbol's total grows, and none changes if and only if no account a settled chunk credits exceeds 64 bits; a dropped, refused or rolled back chunk needs no condition |
| Batcher.FitsByNet | crates/batcher/src/lib.rs:336-376 | that condition in terms of the balances before the chunk: each account's balance and credits stay below 2^64 plus its debits |
| Batcher.WrapLosesValue | crates/batcher/src/ledger.rs:28-37 | one unit paid to an account one short of 2^64 is lost |
| Settlement.RequeueRestores | crates/batcher/src/lib.rs:124-139 | listing the queued trades and enqueueing the list rebuilds every tier's queue exactly |
| Settlement.KeepIs | crates/batcher/src/lib.rs:118-122 | a queue keeps exactly the trades not named, each once and in order |
| Settlement.BatchLayout | crates/batcher/src/lib.rs:377-398 | in every reported batch trades are the concatenation of the proven chunks, counts lie in 1..k and sum to its length, and each chunk is for one node |
| Settlement.SettledReport | crates/batcher/src/lib.rs:370-398 | the reported total is the 64-bit sum of the reported trades' values, and each proof is the prover's answer for the very chunk reported with it |
| Settlement.ReadyChunks | crates/api/src/settlement.rs:236-261 | the consumer's running index stays in bounds, each slice is exactly the chunk its proof covers, and exactly the chunks assigned to this node and accepted are submitted, each once and in order |
| Settlement.CoveredFlush | crates/batcher/src/lib.rs:253-399 | a flush of covered trades whose credits do not wrap settles a permutation of exactly what was drained and leaves the remaining queue covered |
| Settlement.FlushConservesIff | crates/batcher/src/lib.rs:253-399 | a flush changes no symbol's total if and only if none of its credits wraps |
| SettlementRuns.ProcessOk | crates/batcher/src/lib.rs:141-220 | flushing the three tiers of a covered pool without a wrapping credit loses no trade, settles none twice and keeps it covered |
| SettlementRuns.ProcessConservesIff | crates/batcher/src/lib.rs:141-220 | flushing never adds to a symbol's total over all traders, and changes none if and only if no credit wraps, whatever is dropped or rolled back |
| SettlementRuns.KeepSplits | crates/batcher/src/lib.rs:118-122 | a withdrawal drops exactly the trades it names |
| SettlementRuns.RunConservesIff | crates/batcher/src/lib.rs:92-220 | over every run of confirmations, flushes and withdrawals, each symbol's total is the value confirmed if and only if no addition of the run exceeded 64 bits; it is never more |
| SettlementRuns.EveryRunCovered | crates/api/src/server.rs:680-688 | in every such run in which no addition wraps the ledger covers the whole queue, and confirmed trades are exactly those queued, settled and withdrawn |
| Coverage.ConfirmCoveredIff | crates/api/src/server.rs:680-688 | confirming a trade keeps the queue covered if and only if its value and its deposit stay below 2^64 |
| Coverage.ProcessCoveredIff | crates/batcher/src/lib.rs:141-220 | flushing the tiers of a covered pool loses no trade, settles none twice and leaves it covered if and only if the accounts, wrapped as they are, pay the drained chunks in turn and cover what stays |
| Coverage.RunCoveredIff | crates/batcher/src/lib.rs:92-220 | over every run from an empty batcher the queue is covered and every confirmed trade accounted for throughout if and only if each step meets its condition |
| Coverage.RequeuedPayableIff | crates/api/src/settlement.rs:534-545 | after a failed submission queues its chunk again on the debited ledger, the queue is payable if and only if each account as it then stands covers the chunk a second time |
| Coverage.ExactlyFundedCannotRepeat | crates/api/src/settlement.rs:534-545 | a taker funded for exactly its trades and credited by none in the chunk cannot pay it again |
| SettlementRuns.AccountsFitNoWrap | crates/api/src/server.rs:680-688 | nothing wraps if no account is ever due 2^64 or more by the trades confirmed, which can be read off them |
| SettlementRuns.RestoredQueueCoveredIff | crates/api/src/server.rs:836-838 | a queue restored from a snapshot onto an empty ledger is payable if and only if every trade in it is worth nothing |
| SettlementRuns.EmptyLedgerDropsTrades | crates/batcher/src/lib.rs:277-302 | a batch built while the ledger is empty reports only trades worth nothing |
| MutableBatcher.GroupTrades | crates/batcher/src/lib.rs:260-264 | the grouping loop builds the groups in node order |
| MutableBatcher.CutGroups | crates/batcher/src/lib.rs:266-271 | the cutting loop yields exactly the specified chunks: of one node and at most k trades each, in node order, none begun for a node while its last one has room, and together the groups' trades |
| MutableBatcher.FilterChunk | crates/batcher/src/lib.rs:273-327 | the per-trade filter keeps exactly the trades whose value the taker holds, in order, with each maker's and taker's balance |
| MutableBatcher.SettlementBatcher.DebitTakers | crates/batcher/src/lib.rs:336-360 | the debit loop stops exactly where the specification does, with the same balances |
| MutableBatcher.SettlementBatcher.SettleOne | crates/batcher/src/lib.rs:272-389 | filter, proof, two-phase debit and credit or rollback on the ledger object equal the specified outcome |
| MutableBatcher.SettlementBatcher.Build | crates/batcher/src/lib.rs:253-399 | the loop over the chunks of Chunks.ChunksAreTheOnly, in order, yields the specified ledger and reported batch |
| MutableBatcher.SettlementBatcher.Process | crates/batcher/src/lib.rs:141-220 | the three flushes in place equal the specified pool and batches, size and timer conditions included |
| MutableBatcher.SettlementBatcher.ConfirmTrade | crates/api/src/server.rs:680-688 | deposit and enqueue in place equal the specified confirmation |
| MutableBatcher.SettlementBatcher.Retain | crates/batcher/src/lib.rs:118-122 | the three queues keep exactly the trades not named |
| SettlementLoop.ProcessHands | crates/batcher/src/lib.rs:141-220 | whatever the ledger and the prover do, what stays queued and what is handed to the settlement loop was queued before, no trade more often than it was |
| SettlementLoop.FeePayerPays | crates/api/src/settlement.rs:569-573 | with the fee payer among the two traders, that trader is the paying account and the other the counterparty |
| SettlementLoop.PreparedIff | crates/api/src/settlement.rs:554-596 | a chunk is prepared if and only if its trades are distinct, every hash is confirmed and both traders of every trade have an account; then exactly its hashes are consumed and each trade submitted has its match's ids, deadline, node and hash, the fee payer's account as trader and the other's as counterparty, price*amount as amount and its share in basis points rounded down as fee, both exact while they fit 64 bits and wrapped otherwise |
| SettlementLoop.RefusedUnchangedIff | crates/api/src/settlement.rs:561-576 | a refused chunk leaves the confirmed hashes unchanged if and only if its very first hash was missing |
| SettlementLoop.BuildSettlementTrades | crates/api/src/settlement.rs:554-596 | the loop consumes the specified hashes and returns trades if and only if the trades are distinct and ready; they are then, field by field, what the matches say |
| SettlementLoop.RestoreFailedChunk | crates/api/src/settlement.rs:534-545 | the loop reinserts every trade's hash and queues the trades again in order |
| SettlementLoop.RestoreUndoesPrepare | crates/api/src/settlement.rs:514-545 | restoring after a failed submission gives back every confirmed hash exactly |
| NodeState.FoldAgrees | crates/api/src/server.rs:550-637 | running the same entries at other clock readings gives agreeing cores: book, cursor, log tips, pending matches and applied ids, exactly if match times are recorded, up to the clock's fields otherwise |
| NodeState.TrimAgrees | crates/api/src/snapshot_loop.rs:111-159 | moving old log entries to cold storage does not show in any compared part |
| Recovery.SnapshotRoundTrip | crates/api/src/server.rs:825-855 | restoring a snapshot on a newly configured node gives back everything except ledger and sequencing buffer |
| Recovery.ReplayParts | crates/api/src/server.rs:743-818 | the two-pass replay in closed form: core, unsettled confirmations, unapplied queued orders |
| RecoveryTheorems.SnapshotTailCore | crates/api/src/server.rs:863-874 | for every split of every log, recovery from a snapshot and the tail agrees with recovery from the whole log in book, cursor, log tips, pending matches and applied ids |
| RecoveryTheorems.SnapshotTailSettlementIff | crates/api/src/server.rs:753-874 | for an arbitrary snapshot, recovery from it and the tail gives the hashes of the whole log if and only if its hashes are those of the earlier confirmations no checkpoint names then or since, keys the tail confirms aside; and the queues, or the queued trades in any order, if and only if its queue is theirs |
| RecoveryTheorems.SnapshotTailBufferIff | crates/api/src/server.rs:798-812 | the sequencing buffer agrees if and only if every order queued before the snapshot is accepted somewhere in the log |
| RecoveryTheorems.ReplayLeavesOutstanding | crates/api/src/server.rs:753-796 | after a full replay the reconciliation list, confirmed hashes and queue hold exactly the confirmations no checkpoint names, each once |
| RecoveryTheorems.ReplayedQueueCoveredIff | crates/api/src/server.rs:780-786 | the ledger rebuilt by a full replay covers the rebuilt queue if and only if no outstanding trade's value, and no taker's outstanding sum, reaches 2^64 |
| NodeRuns.TruncationInvisible | crates/api/src/persistence.rs:279-288 | removing any subset of the covered entries changes nothing that is replayed |
| NodeRuns.RecoveryAgrees | crates/api/src/server.rs:863-874 | recovery at any point, dead or alive, agrees with what the logged entries determine |
| NodeRuns.EveryRunSimulates | crates/api/src/server.rs:514-637 | in every run of intake, accept, flush, apply, diverge, confirm, settlement loop, snapshot and crash steps, with each write succeeding, failing, failing after it was inserted, or dying, the running core agrees with the entries the node acted on and recovery with the entries logged |
| FailedWrites.RecoveryRebuildsLiveIff | crates/api/src/persistence.rs:143-155 | crashing at any moment of any such run and recovering gives back the running core if and only if, since the last snapshot or restart, no order's entry was inserted and reported failed, and no confirmation's was whose match is still pending |
| Pipeline.EveryRunRecorded | crates/api/src/settlement.rs:228-395 | in every run, across snapshots, crashes and failed writes, every held hash, queued trade, chunk handed over or submitted, reconciliation candidate and snapshot entry was confirmed in the log |
| ConfirmRuns.EveryRunFollows | crates/api/src/settlement.rs:349-379 | in every run no checkpoint is written before the confirmations it settles, nor a confirmation before its order: a consequence of what the settlement loop holds, not a guard |
| ConfirmRuns.DistinctKeysOnce | crates/api/src/server.rs:619-631 | in a log of distinct orders no match key is both pending and confirmed, and every settled key was confirmed |
| ConfirmRuns.SplitsSettledAfterConfirmed | crates/api/src/settlement.rs:358-365 | when no match is confirmed twice, at every split of the log no earlier checkpoint names a later confirmation |
| ExactlyOnce.OnceIff | crates/api/src/order_sequencing.rs:89-266 | over every sequenced run, with any failed writes and crashes, what recovery reflects never accepts an order twice nor confirms a match twice if and only if nothing is retried whose write was inserted and reported failed |
| ExactlyOnce.EveryRunFiled | crates/api/src/gossip_replication.rs:37-93 | in every sequenced run buffered data is filed under its own id and none of it is already applied |
| ExactlyOnce.RetriedConfirmation | crates/api/src/server.rs:1031-1048 | at the end of any run with a pending match: its confirmation is inserted, the flush fails, the trader retries; the log confirms it twice and a restart deposits and queues it twice |
| ExactlyOnce.RetryReached | crates/api/src/server.rs:1031-1048 | two crossing orders on an empty book reach that input |
| ExactlyOnce.BufferExactIff | crates/api/src/order_sequencing.rs:216-266 | over every sequenced run the data held is always the disjoint union of the buffer and the batch in flight if and only if no crash comes while the log after the snapshot queues an unaccepted order twice |
| ExactlyOnce.FailedApplyRequeues | crates/api/src/order_sequencing.rs:216-266 | the run that fails: queued, applying fails to be written, queued again, crash; the buffer holds the order twice |
| ExactlyOnce.BufferAccounted | crates/api/src/gossip_replication.rs:37-93 | while applying writes succeed and no queueing write is inserted and reported failed, that condition always holds, across crashes, snapshots and truncation |
| ExactlyOnce.BufferedLostIff | crates/api/src/server.rs:798-874 | at any moment of any sequenced run, of the orders acknowledged and still buffered a restart loses exactly those whose queueing the snapshot covers and those the log accepted though that was reported failed |
| ExactlyOnce.SnapshotForgetsBuffer | crates/api/src/snapshot_loop.rs:52-99 | saving a snapshot loses to a restart every order buffered or in flight at that moment |
| SnapshotRuns.EveryRunKept | crates/api/src/settlement.rs:333-395 | in every sequenced run that retries nothing, the confirmed and unsettled trades missing from the hashes are exactly those consumed and not put back, those missing from the queue exactly those drained and not put back, likewise in the snapshot, and no trade is queued, handed over or submitted twice |
| SnapshotRuns.InFlightIsOut | crates/api/src/settlement.rs:514-545 | a trade handed over or submitted counts as drained, unless it is settled |
| SnapshotRuns.SnapshotRecoversIff | crates/api/src/snapshot_loop.rs:44-99 | at any moment of any such run, a restart from the snapshot brings back the hashes the whole log would if and only if none the snapshot holds, and all that were out when it was saved, have been checkpointed; and the queued trades by the same condition on the queue |
| SnapshotRuns.OutIsLost | crates/api/src/snapshot_loop.rs:52-76 | a trade whose hash is out when a snapshot is saved is lost to a restart from it, though the whole log still owes it |
| SnapshotRuns.ReconciledGone | crates/api/src/settlement.rs:468-476 | a reconciled trade leaves the hashes and the queue and no other entry does |
| SnapshotRuns.ReconciledStaysGone | crates/api/src/settlement.rs:477-481 | once its checkpoint has been inserted a full replay does not bring it back |
| NodeMeaning.NodeIsBookRun | crates/api/src/server.rs:550-637 | the core is the book's own run over the accepted orders, each at its recorded time or, if none is recorded, at the clock's; the order log holds exactly their receipts and the match log exactly the matches produced, in order |
| NodeState.AcceptedAt | crates/api/src/server.rs:614-617 | every match of an accepted order has that order as taker and is at the time recorded with it, or at the clock's if none was recorded |
| MatchTimes.EveryRunDated | crates/api/src/server.rs:614-617 | in every run, with failed writes, trims, snapshots and crashes, every match in the running log and among the pending ones, and every match recovery brings back, belongs to an accepted order and is at the time its acceptance records, whatever any clock says |
| NodeMeaning.PendingIsUnconfirmed | crates/api/src/server.rs:619-631 | in a log of distinct orders whose confirmations follow them the pending matches are exactly those produced and not confirmed |
| NodeMeaning.EveryRunMeans | crates/api/src/server.rs:514-637 | in every sequenced run that retries nothing, both what the node acted on and what recovery reflects determine a well-formed book that is the book's own run, logs that record it, unique match keys and pending matches that are what was produced and not confirmed; the running and the recovered core agree with them |
| MutableNode.PersistenceLog.AppendEntry | crates/api/src/persistence.rs:147-155 | an append adds one entry under a new greatest key exactly if the insert succeeds, and reports success exactly if the flush does too |
| MutableNode.PersistenceLog.Entries | crates/api/src/persistence.rs:196-215 | the scan returns exactly the entries after the given number, in order |
| MutableNode.PersistenceLog.LatestSeq | crates/api/src/persistence.rs:227-238 | the newest key, after which nothing would be replayed |
| MutableNode.PersistenceLog.TruncateUpTo | crates/api/src/persistence.rs:279-288 | the deletion loop, stopped anywhere, never changes what is replayed and removes a prefix |
| MutableNode.AppState.ApplyAcceptedOrderLocally | crates/api/src/server.rs:550-637 | the id, the receipt, the book and then one match after another are applied as specified; every match returned is at the recorded time, or at the clock's if none was recorded |
| MutableNode.AppState.ApplyAcceptedOrder | crates/api/src/server.rs:514-530 | write ahead then apply; if the write is reported failed nothing is applied, and the entry is in the log exactly if it was inserted |
| MutableNode.AppState.QueueForSequencing | crates/api/src/server.rs:659-670 | write ahead then buffer; if the write is reported failed nothing is buffered, and the entry is in the log exactly if it was inserted |
| MutableNode.AppState.ConfirmCommitted | crates/api/src/server.rs:1015-1067 | a confirmation moves exactly its match; if the write is reported failed the match is pending again as before, and the entry is in the log exactly if it was inserted |
| MutableNode.AppState.MarkReconciledAsSettled | crates/api/src/settlement.rs:468-482 | the key leaves hashes and queues, and its checkpoint is in the log exactly if it was inserted |
| MutableNode.AppState.ReplayPersistenceLog | crates/api/src/server.rs:743-818 | the three loops rebuild exactly the specified node and reconciliation list |
| MutableNode.AppState.RestoreSnapshot | crates/api/src/server.rs:825-839 | overwriting the fields and enqueueing trade by trade equals the specified restore |
| MutableNode.AppState.LoadPersistence | crates/api/src/server.rs:863-874 | boot from the latest snapshot and the log after it, or from the whole log |
| MutableNode.AppState.ApplyResolvedBatch | crates/api/src/order_sequencing.rs:216-266 | the loop applies, skips and drops orders as specified, each at its own clock reading, and the log gains exactly the entries inserted, in order |
| MutableNode.BatchEntries | crates/api/src/order_sequencing.rs:216-266 | a batch logs exactly one acceptance for each order it holds, in the batch's order, except those whose insert failed, each with its own receipt and, where there is evidence, the evidence's time in whole microseconds, negative times as zero and too large ones as the largest |
| MutableNode.BatchIsSteps | crates/api/src/order_sequencing.rs:216-266 | applying a batch in one go equals applying the batch in flight order by order in the run model: the same node and the same entries logged |
| Sequencer.OrderedIffNoInversion | crates/protocol/src/sequencer.rs:100-116 | the comparison orders a batch of distinguishable orders if and only if the batch has no inverted triple |
| Sequencer.TransitiveClosenessOrders | crates/protocol/src/ordering.rs:130-146 | transitive closeness within the 25 ms window is enough for a strict total order |
| Sequencer.ThreeCycle | crates/protocol/src/ordering.rs:130-146 | orders at 0, 20 and 40 ms can be ranked in a circle |
| Sequencer.BackedRankingIsCanonical | crates/protocol/src/sequencer.rs:93-116 | the ranking of evidence-backed orders is fixed by the evidence alone, whatever the arrival order |
| Sequencer.UnbackedInArrivalOrder | crates/protocol/src/sequencer.rs:100-116 | orders without evidence come out in arrival order |
| Sequencer.BackedFirst | crates/protocol/src/sequencer.rs:100-116 | every evidence-backed order precedes every other |
| Sequencer.EvidenceDecides | crates/protocol/src/ordering.rs:130-146 | in a sorted batch, of two orders with evidence the one at least 25 ms earlier comes first, and of two closer than that the one with the smaller tie-break key |
| Sequencer.SortBatch | crates/protocol/src/sequencer.rs:93-98 | sorting permutes the batch, and sorts it whenever the comparison orders it |
| Sequencer.OrderSequencer.Flush | crates/protocol/src/sequencer.rs:93-98 | flushing drains the buffer into a permutation: backed orders ranked first, the others in arrival order |
| Quorum.TallyIff | crates/protocol/src/batch_quorum.rs:97-117 | for arbitrary timestamps a reporter is retained, with that vote's stamp, if and only if every call after its last vote came within the window of it |
| Quorum.TallyIsSound | crates/protocol/src/batch_quorum.rs:97-117 | for arbitrary timestamps every retained vote was cast and is in the window |
| Quorum.TallyIsExact | crates/protocol/src/batch_quorum.rs:97-117 | for nondecreasing timestamps the retained voters are exactly those whose latest vote is in the window |
| Quorum.BackwardsTimeLosesAVote | crates/protocol/src/batch_quorum.rs:104-108 | with time running backwards a vote in the window can be lost |
| Quorum.BucketIsTally | crates/protocol/src/batch_quorum.rs:97-117 | the nested maps hold, per key and hash, exactly the tally of that hash's votes |
| Quorum.VoterIff | crates/protocol/src/batch_quorum.rs:97-117 | for arbitrary timestamps a reporter votes for a hash of a key if and only if every later proposal for the key came within the window of its last vote for the hash |
| Quorum.ConfirmsIff | crates/protocol/src/batch_quorum.rs:110-117 | a proposal is confirmed if and only if min_reporters distinct reporters' last votes for its hash still stand in that sense |
| Quorum.VotersExact | crates/protocol/src/batch_quorum.rs:97-117 | with timestamps in order the voters are exactly the reporters whose latest vote for the hash is in the window |
| Quorum.OrderBatchQuorum.DistinctHashCount | crates/protocol/src/batch_quorum.rs:119-126 | the answer is the number of hashes for which some reporter's last vote still stands |
| Quorum.ConfirmationNeedsVoters | crates/protocol/src/batch_quorum.rs:110-117 | a confirmation implies min_reporters distinct in-window voters for that hash |
| Quorum.SingleReporterNeverConfirms | crates/protocol/src/node.rs:910-931 | no run by one reporter ever confirms with a threshold above one |
| Quorum.NodesAgree | crates/protocol/src/node.rs:910-931 | non-equivocating reporters numbering under twice the threshold never make two nodes confirm different hashes for one key |
| Quorum.OrderBatchQuorum.Record | crates/protocol/src/batch_quorum.rs:97-117 | pruning every bucket, dropping empty ones and inserting the vote yields the state and answer of the extended history |
| Quorum.OneAccuserNeverConvicts | crates/protocol/src/node.rs:326-340 | one accuser never convicts alone, whatever its weight and however often it accuses |
| Quorum.ConvictsIff | crates/protocol/src/node.rs:326-340 | for arbitrary timestamps a subject is convicted if and only if enough distinct reporters' last accusations of it still stand and the weights of exactly those accusations reach the threshold |
| Quorum.MisconductQuorum.Accuse | crates/protocol/src/node.rs:956-971 | the accusation map and verdict are those of the extended history, whose verdict Quorum.ConvictsIff gives |
| Replicas.BatchKeyIff | crates/protocol/src/batch_quorum.rs:50-58 | two nodes derive one batch key if and only if they hold the same ids, in whatever order |
| Replicas.ConfirmedSequencesEqual | crates/api/src/order_sequencing.rs:173-186 | two nodes that each apply the batch confirmed for one key apply the same sequence |
| Replicas.DecideIff | crates/api/src/order_sequencing.rs:173-204 | a node goes ahead when no agreement arrives in time, and otherwise exactly when the agreement is on the very sequence it resolved |
| Replicas.ReplicaIsTrace | crates/api/src/order_sequencing.rs:158-204 | a replica's book and matches are those of the batches agreed on as it resolved them and of those whose quorum timed out, and of nothing else |
| Replicas.ReplicasStayInStep | crates/api/src/order_sequencing.rs:158-204 | replicas that learn orders in any interleaving, each before the batch that needs it, and whose batches that took effect have equal proposal hashes stay equal in book, cursor, assigned nodes and match sequence over whole runs, whatever was queued again between |
| Field.Fermat | crates/prover/circom/diff_matrices.js:89-92 | Fermat's little theorem for every prime and every residue |
| Field.ModInverse | crates/prover/circom/diff_matrices.js:89-101 | square-and-multiply computes the power that the loop promises |
| Field.InverseWorks | crates/prover/circom/diff_matrices.js:89-101 | for a prime modulus that power is the inverse of every nonzero residue |
| R1cs.ExpandMeans | crates/prover/circom/diff_matrices.js:62-83 | read with each key meaning the product it was made from, the expansion evaluates to A*B-C modulo p under every assignment |
| R1cs.ExpandConstraint | crates/prover/circom/diff_matrices.js:62-83 | the loops with deletion of zero entries compute that expansion |
| Coefficients.ExpandCoeff | crates/prover/circom/diff_matrices.js:62-83 | when different products have different keys, the coefficient the expansion holds at a key is that product's coefficient in A*B-C |
| Coefficients.CoefficientsProportional | crates/prover/circom/diff_matrices.js:27-35 | constraints proportional at every assignment have proportional coefficients, for an odd prime modulus |
| Rendering.RenderTerms | crates/prover/circom/diff_matrices.js:103-108 | the loop writes the keys in sorted order, each with its coefficient |
| Rendering.RenderInjective | crates/prover/circom/diff_matrices.js:107 | polynomials none of whose keys begins with another key, "=", a number and ";" are determined by their text |
| CircuitDiff.SameCanonIffMultiple | crates/prover/circom/diff_matrices.js:103-108 | two constraints get one canonical form if and only if one expansion is a nonzero multiple of the other |
| CircuitDiff.SameCanonIffProportional | crates/prover/circom/diff_matrices.js:27-35 | with injective keys, two constraints get one canonical form if and only if at every assignment one is the same nonzero multiple of the other |
| CircuitDiff.SoundIff | crates/prover/circom/diff_matrices.js:27-35 | the exact condition on the labels: matching texts means the same polynomial up to a nonzero factor, for all constraints over an alphabet, if and only if over it different products have different keys and different forms different texts |
| CircuitDiff.SeparateKeysSound | crates/prover/circom/diff_matrices.js:50-58 | a condition on the keys alone: different products have different keys and no key begins with another's entry and ";" |
| CircuitDiff.PlainLabelsSound | crates/prover/circom/diff_matrices.js:50-58 | labels without "*" and ";" meet it |
| CircuitDiff.SpelledAlphabetUnsound | crates/prover/circom/diff_matrices.js:107 | an alphabet holding a, b and a label "a=1;b" that spells out their sum is not sound |
| CircuitDiff.MatchTexts | crates/prover/circom/diff_matrices.js:110-124 | greedy matching leaves exactly the multiset differences, so nothing is left if and only if the multisets of texts are equal |
| CircuitDiff.DiffMatrices | crates/prover/circom/diff_matrices.js:110-131 | the whole comparison reports no leftovers if and only if the multisets of the constraints' texts are equal |
| CircuitDiff.NoLeftoversSameSolutions | crates/prover/circom/diff_matrices.js:110-131 | over such an alphabet no leftovers means both systems are satisfied by exactly the same assignments |
| CircuitDiff.StarLabelsCollide | crates/prover/circom/diff_matrices.js:53-58 | a variable named "x*y" and the product of x and y get one text and are not the same polynomial |
| CircuitDiff.SpelledLabelCollides | crates/prover/circom/diff_matrices.js:107 | for any two labels, their sum and a variable named like that get one text and are not the same polynomial |

## Left out

- HTTP and WebSocket handlers, authentication, rate limits, metrics and configuration: plumbing around the operations modelled here.
- Chain adapters, RPC polling, wallets and the on-chain contracts: a submission is an arbitrary success or failure.
- Groth16 proving, curve encoding and the circuit itself: the prover is a function, and only its own precondition checks appear, as the hypothesis that it succeeds on what passes them.
- sled itself: a tree is an ordered collection with atomic single inserts and keys that only grow. An entry inserted whose flush failed is taken to be on disk at the next restart; that it may be lost there instead is the outcome of a write that failed without a trace, but not the case where it is replayed by one restart and gone at the next.
- UDP transport, flooding, latency estimates, heartbeats and the estimator that produces the evidence: evidence is given.
- Reputation, validation of signatures and watchtower checks: they appear as arbitrary acceptance of a chunk.
- `restore_match_liquidity`, paying out the node rewards that are summed, and depth queries.
- Concurrency below one operation: operations that hold the state's write lock are one step; applying a batch is split into one step per order, which allows more interleavings than the code does. Each step of the settlement loop between two takings of the lock is its own step, and a checkpoint is written without it. Consuming a chunk's hashes takes the lock once per trade in the source and is one step here. The batcher's ledger has no concurrent writer.
- Replay with order-sequencing switched off drops the queued orders; the model has it switched on.
- Floating point: rounding, NaN and infinities. Fees and vote windows use exact arithmetic.
- BookTheorems.AddIgnoresClock: says nothing about the two clock fields themselves, which do differ.
- CircuitDiff.NoLeftoversSameSolutions: needs a prime modulus; that the BN254 scalar field order is prime is not proved. Keys are sorted by code point, not by UTF-16 unit.
- CircuitDiff.SeparateKeysSound: sufficient, not necessary. The exact condition of CircuitDiff.SoundIff is that texts decode uniquely, which longer chains of overlapping keys can break or spare.
- CircuitDiff.SoundIff: speaks of all constraints over an alphabet; two particular systems over other labels may still be compared correctly.
- Sequencer.SortBatch: the source uses the library's sort; where the comparison is no order the library's result is unspecified, and only the permutation is claimed.
- Settlement.ReadyChunks: proof, fee and deadline checks are one arbitrary predicate on the chunk's position.
- SettlementRuns.EveryRunCovered: re-enqueueing without a deposit is outside the run. What it costs after a failed submission is stated by Coverage.RequeuedPayableIff, and after a restart from a snapshot by SettlementRuns.RestoredQueueCoveredIff and SettlementRuns.EmptyLedgerDropsTrades.
- SettlementLoop.RestoreUndoesPrepare: speaks of the confirmed hashes; the ledger debit of the failed chunk is not undone by the code, see Coverage.RequeuedPayableIff.
- RecoveryTheorems.SnapshotTailSettlementIff: assumes that no earlier checkpoint names a later confirmation, which ConfirmRuns.EveryRunFollows and ConfirmRuns.SplitsSettledAfterConfirmed prove of every sequenced run that retries nothing.
- RecoveryTheorems.SnapshotTailBufferIff: is about the snapshot of a node that has just replayed; ExactlyOnce.BufferedLostIff is about live ones.
- LostReceipts.ReceiptArchiveIff: is about receipts; that matches come back is Archive.CrashEverywhereIff at what ArchiveRuns.LogsAreArchived says replay appends, without a condition in terms of the orders.
- SnapshotRuns.SnapshotRecoversIff: compares queued trades as multisets, since a failed submission puts its trades at the back.
- NodeMeaning.EveryRunMeans: is for runs that retry nothing, the exact condition of ExactlyOnce.OnceIff.
- Quorum.MisconductQuorum.Accuse: the reporter's weight is an argument; how it is looked up is not modelled.

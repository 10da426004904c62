# A verified model of the reorg-safe UTXO indexer

This Dafny project models the indexer from the table rows up to the event loop
and proves what it promises: whatever reorganisations, failed fetches, decode
errors, aborted transactions, lost commit replies, crashes and restarts happen
on the way, the UTXO tables are what a fresh replay of the current canonical
chain would produce.

`dafny verify dfyconfig.toml` checks everything.

## How it is laid out

| layer | files |
|---|---|
| vocabulary, Go's integer conversions, hexadecimal text | `Prelude.dfy`, `Hex.dfy`, `Chain.dfy` |
| consensus quantities and the capped largest-first expansion | `Denominations.dfy`, `QiDecode.dfy` |
| the two tables and the SQL statements on them; undo by height | `Tables.dfy` |
| replay of a chain, its laws, the fate of a row | `Ledger.dfy`, `History.dfy`, `Fate.dfy` |
| the decoder's loops; what one block does to each key; ETX rows; outpoints across a chain | `Decoder.dfy`, `Effects.dfy`, `Coins.dfy`, `References.dfy` |
| validation and commit; the two stores as objects; their agreement | `Stores.dfy`, `MemoryStore.dfy`, `PostgresStore.dfy`, `StoreAgreement.dfy` |
| the follower as a value-level machine and as an object | `FollowerSpec.dfy`, `Window.dfy`, `FollowerObject.dfy` |
| all runs; reach of one Ingest; forks; restarts | `Runs.dfy`, `Reach.dfy`, `Forks.dfy`, `Transparency.dfy` |
| catch-up along a branch; the event loop, the whole service | `Lanes.dfy`, `Indexer.dfy` |
| the backfill of the reconcile command | `Reconcile.dfy` |
| balances, statistics, history pages, cursors | `Reads.dfy`, `Pagination.dfy`, `CursorText.dfy` |
| small blocks and chains on which the findings show | `Samples.dfy` |

A block's decoding is a list of statements (`Tables.Stmt`); a decode error is
`None`. The decoder's methods, with the loops and branches of the program, are
proved to execute exactly that list. `Effects.dfy` then says, key by key and in
terms of the block's transactions alone, what running the list does: which input
spends an open row and what is written, the full contents of every new row and
conversion output, and that everything else stays. Everything about chains and
runs is proved for any *lawful* decoding (`Ledger.Lawful`: statements carry the
block's own height, the trim sweep comes last, new deadlines lie ahead), and
`Decoder.DecodeIsLawful` closes the gap. Rolling back is `Tables.Erase`: forget
every tag of the given heights.

The stores and the follower are classes. Each method's contract equates the new
state with a function of the old one (`Stores.Commit`, `FollowerSpec.Ingest`),
and the theorems are about those functions. `Indexer.Serve` puts the objects
together: from an empty database, through any number of process lives, the
tables are a replay of the stored chain.

## Assumptions about the environment

Each is a predicate, required where it is used.

- `Chain.ValidUniverse`: a hash is not empty and determines its block, and a
  child's height is its parent's plus one.
- `FollowerSpec.Answers`, `Lanes.RangesAnswer`: a fetch by hash fails or
  returns the block with that hash; a fetch by range fails or returns blocks of
  the requested heights, ascending, perhaps with gaps.
- `QiDecode.ValidRules`: trim depths are positive and, like the lock periods, fit
  a BIGINT.

The main theorem needs these three only. Some results say what holds when more
does:

- `QiDecode.SplitsLargestFirst`, for the value of an expansion: the node's
  decomposition of that value is the exact largest-first one. With uint64 counts
  this is possible exactly below 2^64 * 10^9 qits
  (`QiDecode.DecompositionExistsIff`).
- `Lanes.Flawless`, for results about reaching a head: the database commits, and a
  range along the branch answers with some of its blocks, at least one, where each
  gap is small enough for one Ingest to fill by fetches that the node answers.
  Ranges without gaps are a special case (`Lanes.GaplessIsFlawless`).
- `Reconcile.ServesChain` and `Reconcile.Settled`, for the backfill: the node
  serves the stored chain, and no input finds an open row.
- Unique transaction hashes and inputs that refer back are hypotheses of the
  lemmas that name them.

Parameters stand for what cannot be seen: the consensus derivations of go-quai
(`QiDecode.ConsensusRules`), what the node answers (`fetch`, `Ranges`), how the
database ends a transaction (`PostgresStore.Reply`: it commits, aborts, or
commits and the reply is lost), and a block's parsed body (`raw`, absent when it
is missing or does not parse). The values of the transaction and ETX type
constants and of the largest output index (65535) are those of go-quai, which is
not part of this model.

## Findings

- **Lost commit reply.** The follower is in step with the store exactly when the
  last commit since the last restart was heard of (`Runs.WindowInvariant`). One
  lost reply on the first block breaks this (`Samples.FirstReplyLost`). A
  follower that has a tip and missed a commit then changes nothing, whatever heads
  arrive, until it is restarted (`Runs.StuckUntilRestart`); one that has no block
  yet may still commit a child of the store's tip and is in step again
  (`Runs.BehindStep`). Nothing wrong is ever committed.
- **Dropped forks.** A head whose branch of L blocks leaves the canonical chain k
  blocks below the tip is adopted exactly when the branch point is in the
  follower's window, and L is at most maxDepth (or 1), or L exceeds maxDepth + k
  with k below maxDepth or 0 (`Indexer.Driver.Ingest`). Otherwise nothing changes.
  - Between maxDepth and maxDepth + k the walk is too deep, yet the head is not far
    enough above the tip for the fallback, so it is dropped until the branch has
    grown, although it may be taller than the chain: with maxDepth 1 and chain
    g, a, the head of the branch b, c from g (`Samples.TallerForkIsDropped`). With k
    equal to maxDepth the fallback cannot begin either.
  - The window reaches at most maxDepth blocks below the tip (`Forks.ForkDepth`), and
    just after a restart exactly maxDepth - 1, or 0 when maxDepth is 0
    (`Forks.RestartedDepth`). From below it no branch is adopted, however short and
    whatever the node answers (`Forks.BelowWindowFails`): after a restart with
    maxDepth 1 even a sibling of the tip is dropped
    (`Samples.SiblingIsDroppedAfterRestart`).
- **Redecoding.** Decoding a block of the chain again is harmless exactly when
  none of its inputs finds an open row (`Fate.RedecodeIsNoopIff`). Inputs that
  refer back suffice (`Reconcile.ReferringBackSettles`);
  `Reconcile.ForwardReferenceIsSpentOnRepeat` is a block, one transaction spending
  the output of a later one, where the second decoding changes the table.
- **Backfill range.** The first height is computed in unsigned arithmetic. When
  more blocks are asked for than the tip height plus one, the subtraction wraps
  around and nothing is backfilled (`Reconcile.BackfillRangeIff`), as on a chain
  of height 100 with the default of 2000 blocks; the run meets no error and
  decodes nothing (`Reconcile.BackfillLast`).
- **History limit.** Pages are exact for limits from 1 to 200. Outside, the store
  clamps the limit to 50 while the handler compares with the raw value, so the
  crawl stops after one page; with limit 0 and no rows it indexes an empty list.
  The exact condition is `Pagination.CrawlIsExactIff`.
- **Unknown denominations.** Balances and statistics fail exactly when a row's
  denomination is outside the table (`Reads.GetAddressBalance`, `Reads.GetStats`),
  and the decoder accepts such an output (`Samples.UnknownDenomination`).
- **One row per outpoint.** The comment at
  `internal/store/migrations/002_utxos.sql:1` promises it; the later key contains
  `created_block`. It holds exactly when no two blocks of the chain file the same
  outpoint (`References.OneRowPerOutpointIff`), which unique transaction hashes
  ensure; `Samples.RepeatedTransaction` is a chain where it fails.
- **RecentBlocks.** Postgres returns the tip even for n below 1, the in-memory
  store nothing; they agree for n of at least 1 (`StoreAgreement.ApplyToBoth`).

## Model

| member | source | states |
|---|---|---|
| QiDecode.DerivedOutputsCapped | internal/qidecode/qidecode.go:95-128 | the descending loop with its uint64 total computes the expansion that the following lemmas characterise |
| QiDecode.CappedExpansion | internal/qidecode/qidecode.go:95-128 | for every value the node splits largest first: denominations strictly descend, no group is empty, the number of coins is the smaller of cap and uncapped count, and the value is kept exactly when the cap does not bite |
| QiDecode.CappedExpansionIsOptimal | internal/qidecode/qidecode.go:95-128 | no choice of at most cap coins worth at most the value is worth more than the expansion |
| QiDecode.ExpandTotals | internal/qidecode/qidecode.go:106-126 | the wrapping addition of total and count never overflows, since only the top denomination's count is unbounded and it meets a total of 0: the totals are the mathematical ones |
| QiDecode.TableIsDivisorChain | cmd/m0spike/main.go:44 | each denomination divides the next larger one, which is what makes largest-first optimal |
| QiDecode.GasCapIsLargest | internal/qidecode/qidecode.go:72-82 | the gas cap is the largest number of outputs, up to the largest output index, whose gas the limit pays for |
| QiDecode.DeadlineIsLater | internal/qidecode/qidecode.go:37-43 | at any height the table accepts, a deadline does not wrap, lies ahead, and 0 is left for denominations never trimmed |
| QiDecode.DecompositionExistsIff | internal/qidecode/qidecode.go:96 | an exact largest-first decomposition with uint64 counts exists exactly for values below 2^64 * 10^9 |
| Denominations.LargestFirstIsMinimal | internal/qidecode/qidecode.go:96 | over a divisor chain no choice of coins for a value is smaller than the largest-first one |
| Denominations.BestIsLargest | internal/qidecode/qidecode.go:106-126 | stopping a largest-first payment after cap coins reaches the largest value that cap coins can pay |
| Tables.Session.MarkSpent | internal/decoder/decoder.go:77-84 | marks every open row of the outpoint spent, and changes nothing else |
| Tables.Session.InsertUtxo | internal/decoder/decoder.go:119-128 | inserts the row unless its key exists |
| Tables.Session.InsertConversion | internal/decoder/decoder.go:101-106 | inserts the conversion output unless its key exists |
| Tables.Session.SweepTrims | internal/decoder/decoder.go:263-277 | trims the open, unlocked rows whose deadline is exactly this height |
| Tables.UnTrimInvertsSweep | internal/decoder/decoder.go:280-285 | un-trimming takes back a sweep of its height, and restores the tables exactly when no row was trimmed at that height before |
| Tables.UnSpendInvertsSpend | internal/decoder/decoder.go:286-293 | un-spending takes back a spend of its height with all three columns, and restores the tables exactly when no row was spent at that height before |
| Tables.DeleteInvertsInsert | internal/decoder/decoder.go:294-299 | deleting by created_block takes back an insert, and restores the tables exactly when no row had that height before |
| Tables.DeleteInvertsConversion | internal/decoder/decoder.go:300-305 | the same for conversion outputs |
| Tables.UndoIsErase | internal/decoder/decoder.go:279-307 | the four undo statements together forget exactly the tags of the height |
| Tables.EraseExecAll | internal/decoder/decoder.go:279-307 | whatever statements of a height did to a table, forgetting that height leaves no trace of them |
| Tables.EraseIsNoopIffUntagged | internal/decoder/decoder.go:279-307 | forgetting heights changes nothing exactly when no row carries them as a tag |
| Tables.EraseTwice | internal/decoder/decoder.go:42-49 | rollbacks commute and are idempotent: two in a row forget the union of their heights |
| Decoder.DecodeIsLawful | internal/decoder/decoder.go:51-188 | every statement of a block carries its height, the sweep is last and only there, new deadlines lie ahead |
| Decoder.ApplyInputs | internal/decoder/decoder.go:68-92 | the input loop runs one spend per input in order, and fails exactly on an undecodable hash or key or an unstorable height |
| Decoder.ApplyOutputs | internal/decoder/decoder.go:94-133 | the output loop files each output by its scope and position, with lock height and deadline |
| Decoder.ApplyQiTx | internal/decoder/decoder.go:59-134 | spends before outputs; other transaction types are skipped |
| Decoder.InsertCoins | internal/decoder/decoder.go:209-228 | the nested loops insert one row per coin with a running index |
| Decoder.InsertCoinbaseETXOutputs | internal/decoder/decoder.go:190-230 | skips missing input, lockup byte out of range and missing value; otherwise inserts the coins of the lockup value |
| Decoder.InsertConversionETXOutputs | internal/decoder/decoder.go:232-259 | inserts the coins of the gas-capped expansion |
| Decoder.ApplyEtx | internal/decoder/decoder.go:137-174 | which ETXs are skipped, which fail, which create rows |
| Decoder.ApplyBlock | internal/decoder/decoder.go:51-188 | succeeds exactly when the block decodes and then runs all its statements: Qi transactions, ETXs, sweep |
| Decoder.DecodeApply | internal/decoder/decoder.go:32-39 | applies a list of blocks in order, or fails |
| Decoder.RollbackBlock | internal/decoder/decoder.go:279-307 | the four statements together forget the block's height, looking at nothing but the height |
| Decoder.DecodeRollback | internal/decoder/decoder.go:42-49 | rolling back a list forgets all its heights |
| Effects.OpenRowUnderBlock | internal/decoder/decoder.go:59-176 | every column of an open row after a block: spent at its height by the first input of the first Qi transaction that names the outpoint, with that transaction's hash and that input's key; else trimmed exactly when unlocked and due; else untouched |
| Effects.NewRowUnderBlock | internal/decoder/decoder.go:94-174 | the full contents of a new row: the first Qi output filed under the key with its address, denomination, lock and deadline, spent if a later transaction of the block names it; else the first ETX coin; else none |
| Effects.RowsAfterBlock | internal/decoder/decoder.go:94-174 | the keys a block adds are exactly those of its Qi-scope outputs and of its ETX coins; none disappears |
| Effects.ConversionsAfterBlock | internal/decoder/decoder.go:100-109 | conversion outputs are never changed, and each new one is the first non-Qi-scope output filed under its key, with address, denomination and height |
| Coins.ConversionRows | internal/decoder/decoder.go:232-259 | a conversion ETX at any gas limit becomes rows with indices 0 to n-1, n the capped coin count, worth the value exactly when the cap does not bite |
| Coins.CoinbaseRows | internal/decoder/decoder.go:190-230 | the same for the lockup value of a coinbase ETX without gas cap |
| Coins.ConversionKeys | internal/decoder/decoder.go:237-257 | the keys of a conversion ETX: its hash, the height and every index below the capped coin count, each once |
| Coins.CoinbaseKeys | internal/decoder/decoder.go:208-228 | the same for a coinbase ETX |
| History.RollbackInvertsApply | internal/decoder/decoder.go:279-307 | rolling a block back by height after applying it restores the table, whatever the block did, exactly when the table held no tag of that height |
| History.RollbackAllInvertsApplyAll | internal/decoder/decoder.go:32-49 | the same for a list of blocks, undone in any order |
| History.ReplayLifecycle | internal/decoder/decoder.go:263-277 | in every replayed table spent and trimmed exclude each other, spends lie between creation and tip, trims happen at the deadline and only to unlocked rows, and no open unlocked row is overdue |
| History.NoMissedTrims | internal/decoder/decoder.go:263-277 | although the sweep tests equality, an unlocked row past its deadline was trimmed at exactly the deadline or spent by then |
| History.FaithfulHistory | internal/decoder/decoder.go:279-307 | forgetting all heights above a prefix of the chain turns the tip table into the table of that prefix |
| History.RollbackIsReplayOfPrefix | internal/decoder/decoder.go:42-49 | blocks without bodies suffice for a rollback: any list with the right heights leaves the shorter chain's table |
| Fate.RowFate | internal/decoder/decoder.go:77-84 | a row is as first inserted until the first matching spend or sweep, and as that one left it ever after |
| Fate.ClosedRowIsFinal | internal/decoder/decoder.go:82-83 | applying never overwrites a spent or trimmed tag |
| Fate.OneRowIff | internal/store/migrations/005_partition_utxos.sql:30 | for any statements, outpoints have one row each exactly when the inserts of one outpoint carry one height |
| References.RowsOfReplay | internal/decoder/decoder.go:94-174 | a replayed table has a row exactly for the outputs and coins that the chain's blocks file |
| References.OneRowPerOutpointIff | internal/store/migrations/005_partition_utxos.sql:30 | outpoints have one row each exactly when no two blocks of the chain file the same outpoint |
| References.UniqueHashesSuffice | internal/store/migrations/002_utxos.sql:1 | they do when no two blocks carry Qi transactions or ETXs with the same hash |
| Samples.RepeatedTransaction | internal/store/migrations/005_partition_utxos.sql:30 | the same transaction in two consecutive blocks gives its outpoint two rows |
| Fate.RedecodeIsNoopIff | cmd/reconcile/main.go:81-87 | decoding a chain block again, however far the table is past it, changes nothing exactly when no input of it finds an open row |
| Fate.ReferringBackIsEnough | cmd/reconcile/main.go:81-87 | when no spend of the decoding comes before the insert it names, every chain block may be decoded again |
| References.ReferBackIff | internal/decoder/decoder.go:68-133 | that is so exactly when the inputs of the chain's transactions name no output of the same or a later transaction |
| Stores.Validate | internal/store/postgres.go:150-164 | the validation loops accept exactly the updates that connect to the tip |
| Stores.MoveBlocks | internal/store/postgres.go:171-189 | the blocks afterwards are the old ones without the rolled back, plus the applied |
| Stores.RollbackIsTop | internal/store/postgres.go:151-156 | a rollback list that passes validation is the top of the chain, tip first |
| Stores.NextChainIsCanonical | internal/store/postgres.go:139-201 | an accepted update leads from a canonical chain to a canonical chain that ends in the last applied block |
| Stores.CommitKeepsReplay | internal/store/postgres.go:139-201 | if the tables are a replay of the chain, they are a replay of the new chain after any accepted update |
| Stores.ClosedRowSurvivesCommit | internal/store/postgres.go:166-194 | a commit that does not roll back a closed row's own heights leaves the row as it is |
| MemoryStore.Memory.ApplyUpdate | internal/store/memory.go:48-80 | rejects exactly what does not connect and then changes nothing; otherwise the chain is the kept prefix plus the applied blocks |
| MemoryStore.Memory.RecentBlocks | internal/store/memory.go:32-46 | the n most recent canonical blocks, tip first |
| MemoryStore.Memory.Tip | internal/store/memory.go:23-30 | the last block of the chain, none when it is empty |
| PostgresStore.Postgres.ApplyUpdate | internal/store/postgres.go:139-201 | all or nothing: blocks, tables and tip become the commit of the update, or everything stays; after a commit an error means that only the reply was lost |
| PostgresStore.Postgres.RunTransaction | internal/store/postgres.go:143-194 | the transaction's statements succeed exactly when the update commits, and compute its tables |
| PostgresStore.Postgres.RecentBlocks | internal/store/postgres.go:112-137 | the recursive query walks the canonical chain and stops at its first block; a count below 1 still yields the tip |
| PostgresStore.Postgres.Tip | internal/store/postgres.go:92-110 | the last block of the chain without its body |
| StoreAgreement.ApplyToBoth | internal/store/memory.go:48-80 | fed the same update the stores differ only on a block that cannot be decoded; common acceptance leaves equal chains, tips and recent blocks |
| StoreAgreement.CommitIff | internal/store/postgres.go:139-201 | Postgres commits exactly the updates that connect and decode |
| FollowerObject.Follower.constructor | internal/follower/follower.go:48-72 | the window, tip and height rebuilt from the store |
| FollowerObject.Follower.Ingest | internal/follower/follower.go:79-125 | the object's step is the machine's step, for every answer of node and database |
| FollowerObject.Follower.WalkToKnown | internal/follower/follower.go:129-146 | the walk, its depth test before each fetch and its failures |
| FollowerObject.Follower.RollbackFrom | internal/follower/follower.go:150-162 | the loop terminates and collects the window's blocks down to the ancestor |
| FollowerObject.Follower.Prune | internal/follower/follower.go:187-197 | exactly the blocks below the floor are dropped, in whatever order the map is visited |
| Window.UnwindLeads | internal/follower/follower.go:150-162 | on a covering window the rollback list always exists and passes the store's check |
| Window.PlanMeaning | internal/follower/follower.go:79-98 | every proposal of a follower whose window covers a canonical chain rolls back exactly the canonical blocks above the branch point, within the window and never the first block, and applies exactly the head's branch of 1 to maxDepth blocks, all new |
| Window.BranchIsNew | internal/follower/follower.go:129-146 | no block of the branch is canonical, so the branch point is the nearest canonical ancestor |
| Window.MovedWindowCovers | internal/follower/follower.go:104-109 | moving the window along with a commit keeps it exactly the top of the chain |
| Window.PrunedWindowCovers | internal/follower/follower.go:187-197 | pruning by height leaves the top maxDepth + 1 blocks |
| Runs.RestartSyncs | internal/follower/follower.go:48-72 | a restart from any state has the store's tip and the top maxDepth blocks as window |
| Runs.SyncedStep | internal/follower/follower.go:79-125 | from a synced state a commit whose reply is lost leaves the follower behind, and every other head leads to a synced state; the first block ever ingested stays |
| Runs.BehindIsFailStop | internal/follower/follower.go:100-102 | a follower that missed a commit proposes nothing the store accepts; one without any block may only append |
| Runs.BehindStep | internal/follower/follower.go:86-102 | behind the store every head leaves the state alone if the follower has a tip; without one it is in sync again exactly after a commit it hears of |
| Runs.StuckUntilRestart | internal/follower/follower.go:100-102 | with a tip, such a follower changes nothing under any heads until a restart |
| Runs.LostReplyDesyncs | internal/follower/follower.go:100-102 | a lost reply on any decodable first block breaks the window invariant |
| Samples.FirstReplyLost | internal/follower/follower.go:100-102 | a one-block world where that happens |
| Runs.WindowIsNeverBroken | internal/follower/follower.go:155-157 | in every reachable state, synced or behind, the "window broken" error cannot occur |
| Runs.StepKeepsInv | internal/follower/follower.go:79-125 | every event keeps the invariant, and the follower is in sync afterwards exactly when it restarted, committed and heard of it, or did not commit and was in sync |
| Runs.HistoryIndependence | internal/store/postgres.go:139-201 | after any run from an empty store the tables equal a fresh replay of the current canonical chain |
| Runs.LifecycleInAllRuns | internal/decoder/decoder.go:263-307 | the row life cycle, and with it that no trim is missed, in every reachable state |
| Runs.WindowInvariant | internal/follower/follower.go:79-125 | after any run the tip equals the store's and the window is the top of the chain with at most maxDepth + 1 blocks if and only if the last commit since the last restart was heard of |
| Runs.ArrivedRepliesSuffice | internal/follower/follower.go:100-102 | in particular when no reply was lost since the last restart |
| Reach.TooDeepThreshold | internal/follower/follower.go:136-138 | for a head that descends from the tip the walk is too deep exactly when the head is more than maxDepth blocks ahead |
| Reach.PathIsAppended | internal/follower/follower.go:79-125 | within reach one Ingest appends the whole path |
| Reach.PathIsTooDeep | internal/indexer/indexer.go:112 | out of reach Ingest changes nothing and the fallback's height condition holds |
| Reach.IngestProgress | internal/follower/follower.go:168-183 | a successful Ingest of a block above the tip makes it the tip |
| Forks.ForkPlan | internal/follower/follower.go:79-98 | for a head whose branch leaves the chain anywhere in the window, the plan is exactly that branch when it has at most maxDepth blocks or one, and too deep otherwise |
| Forks.ForkIsAdopted | internal/follower/follower.go:79-125 | a decodable branch within reach whose branch point is in the window replaces everything above the branch point |
| Forks.ForkIsTooDeep | internal/follower/follower.go:136-138 | a longer one from the window is too deep and changes nothing |
| Forks.BelowWindowFails | internal/follower/follower.go:129-146 | a head whose branch point is below the window fails and changes nothing, for every branch length and whatever the node and the database answer |
| Forks.ForkDepth | internal/follower/follower.go:187-197 | a branch point in the window lies at most maxDepth blocks below the tip |
| Forks.RestartedDepth | internal/follower/follower.go:48-72 | just after a restart a block is in the window exactly when it lies less than maxDepth blocks below the tip, or is the tip |
| Samples.TallerForkIsDropped | internal/indexer/indexer.go:110-119 | maxDepth 1, chain g, a: the head c of the branch b, c from g is taller than the tip, too deep to walk and too low for the fallback |
| Samples.SiblingIsDroppedAfterRestart | internal/follower/follower.go:48-72 | the same chain after a restart: the sibling b of the tip fails for every answer of the node, and is too low for the fallback |
| Transparency.ReorgIsUnique | internal/follower/follower.go:129-162 | the update for a head is determined by the canonical chain, whatever the window's depth |
| Transparency.RestartTransparency | internal/follower/follower.go:48-72 | two followers with different windows on one store never commit different updates for the same head |
| Transparency.RestartIsInvisible | internal/follower/follower.go:48-72 | a running follower and one just restarted never commit different updates for the same head |
| Indexer.Driver.CatchUp | internal/follower/follower.go:165-185 | terminates, since every round moves the tip up; ends short of the target only on failure or an empty range; along a lane on which nothing fails it adopts exactly the lane's branch, also when ranges have gaps that one Ingest can fill; and it changes nothing when already the first block fails |
| Lanes.GaplessIsFlawless | internal/follower/follower.go:165-185 | ranges that answer with every block of the path are enough; by hash the node then only has to serve the blocks below the tip's height |
| Indexer.Driver.Ingest | internal/indexer/indexer.go:110-119 | when nothing fails, a head on the chain or on any fork is adopted exactly when its branch point is in the window and the branch within reach, which is any distance along the chain; otherwise it fails and nothing changes |
| Indexer.Driver.CatchUpIfBehind | internal/indexer/indexer.go:96-108 | when start-up does nothing, and that otherwise it reaches the head |
| Indexer.Driver.Run | internal/indexer/indexer.go:39-85 | whatever heads arrive and whatever fails, the objects move through a run, and the stored tables are a replay of the stored chain |
| Indexer.Serve | cmd/qi-index/main.go:60-77 | from an empty database through any number of process lives the store holds a canonical chain and the tables are its replay, reached by a run of the reorg machine |
| Lanes.ForkOutcome | internal/indexer/indexer.go:110-115 | for a branch point anywhere on the chain: Ingest adopts the branch exactly when the point is in the window and the branch short enough; the fallback's height condition holds exactly when the branch is longer than maxDepth plus its depth below the tip; and the fallback can begin exactly when the point is in the window less than maxDepth blocks below the tip, or the tip |
| Reconcile.BackfillRangeIff | cmd/reconcile/main.go:63-66 | the range is the last n stored heights exactly when n is at most the tip height plus one; otherwise it is empty |
| Reconcile.ShortChainIsNotBackfilled | cmd/reconcile/main.go:33 | the default of 2000 blocks backfills nothing on a chain of height 100 |
| Reconcile.Backfill | cmd/reconcile/main.go:69-91 | when the node serves the stored chain and no input finds an open row, the batched loop leaves both tables unchanged, fails only with a range call, and with gapless ranges decodes the block of every height up to the tip once and in order |
| Reconcile.BackfillLast | cmd/reconcile/main.go:59-91 | a whole run with n blocks on the stored chain: fails on an empty one, leaves both tables unchanged, and with gapless ranges decodes exactly the last n stored heights once and in order, or none when n exceeds the tip height plus one |
| Reconcile.ReferringBackSettles | cmd/reconcile/main.go:69-91 | chains whose transactions only spend outputs of earlier transactions meet the backfill's condition |
| Reconcile.ForwardReferenceIsSpentOnRepeat | cmd/reconcile/main.go:81-87 | a block whose first transaction spends an output of its second is changed by a second decoding |
| Reads.SumGroups | internal/store/read.go:183-192 | adding up group by group gives the plain sum and count, in any order of groups, or fails exactly on an unknown denomination |
| Reads.GetAddressBalance | internal/store/read.go:133-194 | spendable, locked and trimmed are the plain sums and counts of the address's rows |
| Reads.BalanceIsSumOfRows | internal/store/read.go:158-165 | spendable plus locked is the sum over the unspent rows at any tip height |
| Reads.RisingTipUnlocks | internal/store/read.go:159-165 | raising the tip moves value from locked to spendable and loses none |
| Reads.GetStats | internal/store/read.go:268-317 | the counts, the created range, the total value and the tip height are those of the rows and the tip; fails exactly on an unknown denomination |
| Samples.UnknownDenomination | internal/decoder/decoder.go:116-128 | an output of denomination 15 is stored, and then neither its address's balance nor the statistics can be computed |
| Reads.CountsAddUpIff | internal/store/read.go:272-283 | unspent, spent and trimmed add up to the total exactly when no row is both spent and trimmed |
| Reads.CountsAddUpInReplays | internal/store/read.go:32-40 | in every replayed table they add up, and a row's state is the one its columns say |
| Reads.TotalValueIsSumOfBalances | internal/store/read.go:288-304 | the total value is the sum of all addresses' spendable and locked balances |
| Reads.EventsAreWhatRollbackTouches | internal/store/read.go:231-266 | the events of a height are exactly the rows its rollback would remove or change |
| Pagination.LessIsTotal | internal/store/read.go:216-220 | the cursor condition is a strict total order of positions |
| Pagination.PageMeaning | internal/store/read.go:203-222 | a page is the newest rows, strictly descending, as many as fit |
| Pagination.OneRequest | internal/api/handlers.go:143-152 | one answer is the beginning of what is below its cursor, and its next cursor stands for exactly the rest |
| Pagination.CrawlIsExact | internal/api/handlers.go:143-152 | for limits 1 to 200, following the cursors terminates and the pages joined are the whole history from there on, each row once, in order |
| Pagination.CrawlIsExactIff | internal/store/read.go:197-199 | for which limits and histories the crawl is exact |
| Pagination.CrawlThroughIsExact | internal/api/handlers.go:118-153 | when every request sees another table, but the same rows below the cursor it was given, the pages joined are the history at the first request |
| Pagination.CrawlSurvivesReorgs | internal/api/handlers.go:118-153 | so blocks rolled back and applied above the cursor between any two requests do not disturb a crawl |
| Pagination.SharedPrefixIsReorgAbove | internal/store/postgres.go:139-201 | whatever commits lie between them, the tables of two replayed chains that share the blocks up to a height differ by one reorganisation above it |
| Pagination.CrawlSurvivesCommits | internal/api/handlers.go:118-153 | so any number of commits may lie between two requests: while the chain keeps the blocks up to each cursor, the crawl is exact |
| CursorText.ParsePrint | internal/api/handlers.go:297-315 | a printed cursor is read back as it was exactly when block and index fit their integer widths, and is rejected otherwise |
| CursorText.AcceptedIsRepresentable | internal/api/handlers.go:297-315 | whatever text is accepted, printing its cursor gives a text of the same meaning |
| CursorText.PrintedTextIsNotUnique | internal/api/handlers.go:302-305 | every cursor is also accepted with a leading zero |
| CursorText.FollowingIsExact | internal/api/handlers.go:118-153 | a client that sends back the printed cursors receives the whole history, each row once and in order |

## Left out

- HTTP server, WebSocket hub, RPC client with its retries, configuration, metrics, logging, web page: transport without a property of its own.
- JSON decoding of blocks and bodies: a body is either parsed or absent.
- SQL text, indexes, partitions and migrations: a statement is its effect on the rows; the counts of affected rows are only logged.
- Columns that no modelled query reads: block time, exchange rate, zone.
- Postgres without a decoder, and a follower on the in-memory store: the stores are compared under the same updates instead.
- The internals of go-quai: denominations, trim depths, lock-ups and the coinbase value are parameters with the assumptions above.
- Negative lock values.
- Concurrent reads during a commit: a query sees one committed table.
- GetUTXO, GetAddressUTXOs, GetTx and GetOutpointsByAddresses: plain filters of the table.
- Overflow of the statistics' 64-bit counters.
- The HTTP default of the history limit and its parsing: the limit is any integer.
- A cursor whose block exceeds a BIGINT makes the database refuse the query; the model answers it as if the column were wider.
- The comparison with the live node in the reconcile command.
- Reconcile.Backfill: runs, like Reconcile.BackfillLast, against a store that no other process changes meanwhile.
- OnUpdate callbacks: they receive the committed update and cannot change it.
- Shutdown of the event loop: a run may stop after any arrival.
- cmd/m0spike: only its denomination table is used.

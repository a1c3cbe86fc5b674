# Sync, CoinBlast and cache protocols of the Sentrix indexer

A Dafny model of the indexer's data path: how blocks, transactions, logs and token transfers get from
the chain into Postgres, and what stays true of the tables while several workers write, fail, restart
and overlap. `dafny verify dfyconfig.toml` checks everything.

## What is modelled

**The store.** `Store.Db` holds the tables as maps by primary key, with unique constraints, foreign
keys, `ON CONFLICT DO NOTHING` (`Folds.FirstWins`), the `GREATEST` upserts and the cursor. A statement
maps one committed state to the next or to an error. `BlockWriter` has the two transactions:
`WriteBlockTxn` for one block and `BatchTxn` for many, and the class `Pool` whose methods run them the
way the code does, row by row, in chunks of 500, committing once at the end.

**Two writers, one prefix.** `SyncProtocol` is a step machine with any number of backfill and tail
workers on one store. Every cursor read, chain answer, commit, 404 skip, cancellation, failure and crash
is its own event, so the theorems range over every interleaving. `Backfill`, `Tail` and `Ingest` are the
loops themselves, proved against the plain meaning of syncing a range one height after another, and
`SyncTrace` ties them to the machine: each whole call is a sequence of that worker's own events, which leaves
every other worker where it was.
`Confluence` shows that on a stable chain the tables do not depend on who wrote them, how often, or in
which order.

**Batching.** `BatchRefinement` compares the batched transaction with the block-by-block fold: same
success, same error, same rows, same cursor, and an exact account of the one column that differs.

**Reorgs.** `Reorg` has the walk back to the divergence, the rewind as written and the reset the comments
describe, and proves what each does to the covered prefix. `ReorgAftermath` follows the rewind as written
through every later run among whatever workers are running, does the same for the reset the comments
describe, and says when a walk back stops short of the fork.

**The gate.** `SingleFlight` is the gate with each call atomic; `SingleFlightSteps` splits every call into
its compare-and-swap and its mutex section, and says for every run of any number of threads when the gate
leaks and when a tip is left behind on a free gate. `GatedTail` puts the gate and the protocol together:
whoever holds the gate walks, and what the gate handed out is what the store covers.

**CoinBlast.** `CoinBlastStore`, `CoinBlastLogs` and `CoinBlastRuns` are the tables, the logs and the
worker as a step machine in which a failure, a failed probe or a restart may fall between any two
statements; `CoinBlastRuns` has what holds of all runs. `CoinBlastExactlyOnce` says for each trade log when
it is recorded and when it is missing, `CoinBlastOrder` that rows follow the chain, `CoinBlastListings` that
announced curves are listed, `CoinBlastSources` where each listing comes from, `CoinBlastVolumes` what the
aggregates count in terms of the chain's own events. `CoinBlastSettled` shows that
two histories that end at the same block agree whatever chunks, cuts and restarts they went through,
`CoinBlastReruns` the same for retries of one fixed range, and `LateAnnouncement` exactly when the chunks can
make a difference, with both runs if they can. `CoinBlastWorker.Worker` is the worker as a class; each method
returns the trace of machine steps it performed, so every theorem about the machine is a theorem about the
worker, and in fair turns the worker makes progress.

**Smaller cores.** `TokenDecode` (hex, big-endian words, the Transfer event of EIP-20 and EIP-721),
`Fetch` (conversion and the orphan-log filter), `Breaker`, `Retry` and `Pages`.

Assumptions about the chain are named predicates: `SyncProtocol.ValidConfig` (the block returned for
height `h` is block `h`; `Fetch.FetchedFitsIff` says which answers meet it), `Confluence.ChainSane` (tx
hashes, block hashes and a block's log indexes are unique), and `CoinBlastLogs.ChainOk`, made of
`KeysAreUnique` (log keys are unique), `AnnouncementsHold` (announced curves answer the probe with the
announced token), `CurvesAreSane` (different curves sell different tokens, the factory is not a curve) and
`FactoryIsSilent` (the factory does not trade). A theorem names only the ones it needs. `Inhabited` exhibits
chains that meet them, with transactions, logs and transfers, and a run that loses a trade.

## Where the code differs from its comments

- `reorg.rs:104-113` says the rewind resets the cursor to `h - 1`; the write goes through the `GREATEST`
  upsert and the persisted cursor stays (`Reorg.RewindCoverageIff`, `Reorg.CheckOnceLosesCoverage`), and a
  deleted height that the running workers have passed is never stored again
  (`ReorgAftermath.DeletedStaysMissing`, `SlowWorkerRestores`). Even the reset the comments describe would lose
  the prefix if some worker was past it (`ReorgAftermath.LiveWorkerJumps`).
- `reorg.rs:46-49` says everything below the divergence is on the canonical chain; a walk that ends on a 404
  gap or a missing side can keep blocks of the fork (`ReorgAftermath.GapHidesFork`, `GapStoreIsReached`,
  `KeptIsCanonicalIff`).
- The cascade is described as clearing what a deleted block owned; `token_transfers` has no foreign key and
  keeps its rows through every later run (`Reorg.TransfersStaleIff`, `ReorgAftermath.StaleTransfersStay`).
- `batch_write_blocks` leaves `addresses.last_seen_block` behind the per-block path
  (`BatchRefinement.BatchSightingsExact`, `BatchRefinement.BatchLagsStrictly`).
- `tail.rs:113` and `:118` return with `?` while holding the gate, and the gate then never opens again
  (`SingleFlightSteps.LeakedIffHolderDied`); a tip stashed just after the release waits on a free gate
  (`SingleFlightSteps.StrandedIff`, with `StrandedTip` as an instance).
- `worker.rs:179` remembers the factory, not the announced curve; announced curves become known through the
  adoption probe. `worker.rs:184-186` says adoption is deferred, but `worker.rs:200-225` adopts.
- A probe that fails for transport or database reasons makes the worker treat a real curve as no curve; the
  trade is passed and never comes back (`CoinBlastExactlyOnce.MissingIff`, `LossIsPermanent`; a concrete run
  in `Inhabited.LostTrade`).
- A curve announced less than `chunk_size` blocks after the block of its first trade is listed without an owner
  or with the announced one, depending on where a chunk happened to end; announced earlier or later it is always
  listed the same way (`LateAnnouncement.ListingsAgreeIff`, `TwoListings`).
- `routes/blocks.rs:36-38` asks for a non-negative `before` and accepts a negative one
  (`Pages.NegativeCursorFindsNothing`).

## Model

| member | source | states |
|---|---|---|
| SyncProtocol.CoveredPrefix | crates/sync/src/backfill.rs:62-188 | in every interleaving of backfill and tail commits, 404 skips, errors, cancellations and crashes, every height up to the persisted cursor is stored or was answered 404, the store is consistent, and the cursor exceeds neither its start nor the highest tip seen minus `safe_lag` |
| SyncProtocol.NothingIsLost | crates/sync/src/cursor.rs:36-52 | between any two moments of a run no stored row is lost or rewritten, recorded gaps stay, and the cursor does not fall |
| SyncProtocol.GapsWereAnswered | crates/sync/src/backfill.rs:120-160 | a recorded gap is a height for which some worker of the run, standing at it, really received a 404 |
| SyncProtocol.EventKeeps | crates/sync/src/tail.rs:98-129 | each single event keeps coverage of the prefix, every worker's own position covered below, its buffer the contiguous run just above it of at most `batch_size` heights, and a gap skipped only after the lower heights committed |
| Confluence.RunsConfluent | crates/sync/src/block_writer.rs:69-97 | on a stable chain two arbitrary runs that stored the same heights hold identical blocks, txs, logs and transfers, each exactly the union of the bundles of those heights |
| Confluence.RunMatchesSequentialIngestion | crates/sync/src/backfill.rs:263-337 | concurrent workers that filled a prefix hold exactly the tables of one sequential ingestion of it |
| Confluence.TransfersDecodeStoredLogs | crates/sync/src/backfill.rs:216-254 | `token_transfers` is exactly the decoded image of the stored logs, in both directions |
| Confluence.OfferHeight | crates/db/src/transactions.rs:8-36 | offering the rows of a height, new or already stored, to a first-writer-wins table yields the image of one more height |
| Confluence.TransfersAreSane | crates/db/migrations/0003_token_transfers_unique.sql:27-28 | on a sane chain two transfers with one (tx hash, log index) are the same transfer, so the unique key loses nothing |
| BatchRefinement.BatchRefinesFold | crates/sync/src/block_writer.rs:146-203 | for ascending well-formed bundles the batched transaction succeeds exactly when the fold of single-block writes does, with the same blocks, txs, logs, transfers, cursor and first sightings, and last sightings no later |
| BatchRefinement.BatchSightingsExact | crates/sync/src/block_writer.rs:25-39 | the exact last sighting under both writers, and an address comes out equal if and only if its earliest and latest batch heights agree or its stored sighting is already past both |
| BatchRefinement.BatchLagsStrictly | crates/sync/src/block_writer.rs:192-195 | two concrete blocks of one sender for which the batch leaves `last_seen_block` strictly behind the fold |
| BatchRefinement.WriteBlockEffect | crates/sync/src/block_writer.rs:69-97 | on a fetched bundle the row-by-row transaction either reports the block's own error or lands all rows of all tables first-writer-wins with the cursor raised |
| BatchRefinement.BatchStamps | crates/sync/src/block_writer.rs:192-203 | a batch leaves the timestamp of its highest block beside the cursor |
| BatchRefinement.BatchEffect | crates/sync/src/block_writer.rs:155-203 | sorting, chunking and table-by-table insertion of an ascending batch amount to offering the flattened rows in block order |
| BatchRefinement.WellFormedNeverBreaksForeignKeys | crates/sync/src/backfill.rs:222-228 | a fetched bundle fails if and only if its height is new and its hash already stored; it never trips a foreign key |
| BlockWriter.SightingsAreEarliest | crates/sync/src/block_writer.rs:21-39 | the sightings are exactly the from/to addresses, each at a height where it really occurs and no later than any other |
| BlockWriter.TxAddresses | crates/sync/src/block_writer.rs:25-39 | the hash-map loop, drained in any order, returns distinct addresses carrying exactly those sightings |
| BlockWriter.InsertChunked | crates/sync/src/block_writer.rs:186-201 | multi-row inserts of at most 500 rows equal one pass over all rows, including where and how it fails |
| BlockWriter.UpsertChunked | crates/db/src/addresses.rs:25-44 | chunked upserts over distinct addresses never touch a row twice in one statement and do not depend on the chunking or the order |
| BlockWriter.Pool.WriteBlock | crates/sync/src/block_writer.rs:69-97 | the imperative writer commits exactly the specified transaction or leaves the store untouched |
| BlockWriter.Pool.BatchWriteBlocks | crates/sync/src/block_writer.rs:146-203 | the imperative batch writer commits exactly the batched transaction or leaves the store untouched; an empty batch needs no server |
| Store.CursorIsGreatest | crates/sync/src/cursor.rs:36-52 | after any sequence of cursor writes the cursor is the greatest of its start and the heights written, and no table has changed |
| Folds.StableSortSound | crates/sync/src/block_writer.rs:165-183 | the sort orders, keeps the same rows, and keeps rows of equal key in their order |
| Folds.SortKeepsFirstWins | crates/sync/src/block_writer.rs:165-183 | sorting before a first-writer-wins insert changes nothing when no two rows it swaps share a primary key |
| Folds.FirstWinsContents | crates/db/src/logs.rs:8-58 | old rows stay, every offered key is present, and each new row was offered under its own key |
| Store.UpsertDistinct | crates/db/src/addresses.rs:25-44 | a multi-row upsert of distinct addresses succeeds, keeps the first sighting and raises the last one, in any order |
| Store.CascadeIsExact | crates/db/src/blocks.rs:175-184 | the cascading delete removes exactly the rows at or above the height plus logs of removed txs, alters nothing else, and leaves a consistent store |
| IntegrityKept.WriteBlockKeepsIntegrity | crates/db/migrations/0001_initial.sql:34-36 | no bundle, however malformed, leaves a tx without its block or a log without its block and tx |
| IntegrityKept.BatchKeepsIntegrity | crates/db/migrations/0001_initial.sql:60-70 | the same for any batch, in any order |
| Fetch.ConvertTxs | crates/sync/src/convert.rs:104-157 | converted transactions carry their block's height and are numbered in order |
| Fetch.DropOrphansExact | crates/sync/src/backfill.rs:222-228 | the orphan filter keeps exactly the logs whose transaction is in the block, each as often as it occurs |
| Fetch.DropOrphansInOrder | crates/sync/src/backfill.rs:222-228 | and keeps them in their order |
| Fetch.AssembledExactly | crates/sync/src/backfill.rs:192-255 | over the chain's answer alone: a bundle carries the header's row, a row for every transaction in order with its fields, the row of exactly those raw logs whose transaction the block carries, each once and in order, and exactly the transfers that these logs decode to |
| Fetch.AssemblesIff | crates/sync/src/convert.rs:21-48 | the conversion succeeds if and only if the height is not negative, the number of transactions and every nonce fit their columns, and every raw log has its block, transaction and a log index that fits |
| Fetch.FetchOneExact | crates/sync/src/backfill.rs:192-216 | only an answered 404 is a gap, exactly the answered blocks that convert are found, everything else fails |
| Fetch.FetchedFitsIff | crates/sync/src/backfill.rs:192-255 | whatever the chain answers for a height, the bundle that gets built is the block of that height with rows of that height, logs backed by its txs and transfers decoded from those logs if and only if the block carries that index and each kept log that block number |
| SyncProtocol.FetchedOffersFit | crates/sync/src/backfill.rs:192-255 | bundles that the fetchers build from answers about the asked height meet what the protocol assumes of its offers |
| Ingest.IngestCovers | crates/sync/src/backfill.rs:263-337 | after ingesting a range every height in it is stored or was a 404, no earlier block changed, and the cursor stands at its end |
| Ingest.FoldIsIngest | crates/sync/src/backfill.rs:120-160 | folding the buffered bundles over the store is ingesting their heights one by one |
| Ingest.BatchTracksIngest | crates/sync/src/backfill.rs:161-181 | one batched flush of the buffer tracks the plain ingestion of its heights up to the sighting lag |
| Backfill.Flush | crates/sync/src/backfill.rs:161-181 | a flush moves the position to the highest buffered height, or fails and changes nothing |
| Backfill.SkipHeight | crates/sync/src/backfill.rs:134-158 | stepping over a 404 moves only the cursor, past a store that already holds everything below |
| Backfill.TakeAnswer | crates/sync/src/backfill.rs:120-170 | one turn keeps the buffer the contiguous run below the batch size just above the last commit; a gap flushes everything lower before it is recorded |
| Backfill.Walk | crates/sync/src/backfill.rs:104-187 | the pipeline ingests a prefix of the range in order whatever is cancelled or fails, returns exactly that prefix's end, and a normal return ends at the cap or exactly at the height the cancellation was seen at |
| SyncSettings.BackfillCapIff | crates/sync/src/backfill.rs:74-77 | the cap allows exactly the heights at least `safe_lag` below the tip and not above a configured maximum |
| Backfill.RunBackfill | crates/sync/src/backfill.rs:62-188 | from the stored cursor the store becomes the plain ingestion of heights that are all at least `safe_lag` below the tip and not above a configured maximum; a normal return has ingested every such height, up to a cancellation; without faults it does return; the whole call is a sequence of this worker's own protocol events that leaves every other worker where it was |
| Tail.WalkTo | crates/sync/src/tail.rs:112-121 | the per-block walk ingests a prefix of the range and on success all of it |
| Tail.HoldGate | crates/sync/src/tail.rs:112-127 | the holder's loop ends having walked to the safe height of the best tip of every consumed round, with the gate free and nothing stashed, or fails still holding it; without faults, if the range up to the best tip of all can be ingested, it ends normally |
| Tail.BestOfBounds | crates/sync/src/tail.rs:122-127 | the best target is at least the first target and every tip of every consumed round |
| Tail.HandleFinalized | crates/sync/src/tail.rs:98-129 | a busy gate only stashes the higher tip; a free gate is taken with what was stashed, the store becomes the ingestion up to `upTo`, and an error keeps the gate; without faults an ingestible range gets through; the whole call is a sequence of this worker's own protocol events and tips seen by others, and leaves every other worker where it was |
| SyncTrace.CallIsSafe | crates/sync/src/tail.rs:98-129 | a whole backfill or tail call made among other workers ends in a state with that store and the very same other workers in which the protocol's invariant stands, and loses no row |
| SingleFlight.Gate.Propose | crates/sync/src/single_flight.rs:43-62 | a free gate is taken with the maximum of tip and stash, a busy one keeps the maximum stashed |
| SingleFlight.Gate.TakePendingAndRelease | crates/sync/src/single_flight.rs:67-76 | the stash is handed over and the gate kept, or the gate freed; a free gate has nothing stashed |
| SingleFlightSteps.AtMostOneHolder | crates/sync/src/single_flight.rs:43-76 | in every interleaving of compare-and-swap and mutex steps of any number of threads: at most one live holder, none while the flag is clear, and the highest tip ever offered is the maximum of targets handed out, stash and tips in transit |
| SingleFlightSteps.NoTipIsForgotten | crates/sync/src/single_flight.rs:43-76 | once an offer is over its tip is at most a target some holder took, the stash, or a target a winner is still about to take |
| SingleFlightSteps.WinnerSeesTheStash | crates/sync/src/single_flight.rs:49-55 | when a winner leaves the mutex section the stash is empty and the highest target taken is at least the tip of every offer that was over by then |
| SingleFlightSteps.StrandedIff | crates/sync/src/single_flight.rs:43-76 | in every run a tip waits on a free gate if and only if some loser stashed it after the flag was cleared and no offer has won since |
| SingleFlightSteps.WholeCallsNeverStrand | crates/sync/src/single_flight.rs:43-76 | calls that do not overlap never leave a tip on a free gate |
| SingleFlightSteps.QuietMeansWalked | crates/sync/src/single_flight.rs:67-76 | with nothing stashed and nothing in transit the highest tip ever offered has been taken as a target |
| GatedTail.FreeGateHasWalked | crates/sync/src/tail.rs:98-129 | in every interleaving of gate accesses, walks of the holders, backfills, errors and restarts, whenever the flag is clear the store is covered up to the safe height of the highest target handed out since the last start |
| GatedTail.QuietIsCovered | crates/sync/src/tail.rs:98-129 | once every offer is over and the flag is clear, the store is covered up to the safe height of the highest tip offered since the last start, unless that very tip waits stashed on the free gate |
| SingleFlightSteps.StrandedTip | crates/sync/src/single_flight.rs:56-61 | a concrete run that ends with a free gate, a stashed tip and no thread left |
| SingleFlightSteps.LeakedIffHolderDied | crates/sync/src/tail.rs:113-118 | the flag is set with no live holder if and only if some thread returned with an error while holding the gate |
| SingleFlightSteps.LeakIsPermanent | crates/sync/src/tail.rs:108-111 | after a leak no later offer ever acquires the gate |
| Reorg.WalkBackToDivergence | crates/sync/src/reorg.rs:70-102 | the search ends at a height from which everything up to the probe mismatches and below which it is genesis, a missing side, or a match; it fails if and only if the node is unreachable at some height above which everything mismatches |
| Reorg.DivergenceIsUnique | crates/sync/src/reorg.rs:70-102 | that description fits one height only |
| Reorg.AgreementRunsDown | crates/sync/src/reorg.rs:46-49 | on parent-linked chains with committing hashes one equal hash makes every block below equal |
| Reorg.DivergenceIsForkPoint | crates/sync/src/reorg.rs:46-49 | a walk that ended on a match, or at genesis, found the exact fork point: the chains agree below it and differ from it to the probe |
| ReorgAftermath.KeptIsCanonicalIff | crates/sync/src/reorg.rs:46-49 | wherever the walk ended, every kept block is canonical if and only if the highest kept one is |
| ReorgAftermath.GapHidesFork | crates/sync/src/reorg.rs:70-102 | whenever a fork is stored around a 404 gap just below the probe the walk stops above the gap and the rewind keeps a block of the fork |
| ReorgAftermath.GapStoreIsReached | crates/sync/src/backfill.rs:263-337 | for any sane fork and gap a run of the protocol leaves such a store |
| Reorg.RewindTo | crates/sync/src/reorg.rs:106-120 | in one transaction exactly the rows at or above the height go, with the logs of the txs that go, and the cursor does not fall; or nothing happens |
| Reorg.CheckOnce | crates/sync/src/reorg.rs:23-66 | a mismatching probe is rewound at its divergence if and only if the walk back is not kept from it by an unreachable node and the database is up; a negative cursor and a matching or missing probe change nothing and return the cursor; the pass fails exactly on an unreachable node or, with something to rewind, an offline database |
| Reorg.IntendedRewindCovers | crates/sync/src/reorg.rs:104-113 | resetting the cursor to `d - 1` after the delete restores the covered prefix |
| Reorg.RewindCoverageIff | crates/sync/src/cursor.rs:40-44 | as written the cursor stays, and the prefix is still covered if and only if every height from `d` to it was a recorded 404 |
| Reorg.CheckOnceLosesCoverage | crates/sync/src/reorg.rs:46-66 | whenever the checker rewinds at the persisted cursor, the divergence block was stored and coverage is lost unless that height had also been a 404 |
| Reorg.PrunedIsCanonical | crates/db/src/blocks.rs:175-184 | deleting from the fork point leaves exactly the canonical blocks, txs and logs below it |
| ReorgAftermath.DeletedStaysMissing | crates/sync/src/reorg.rs:104-120 | after the rewind as written, among any running workers, a height from the divergence to the cursor that all of them have passed is in no later run stored again or found to be a gap |
| ReorgAftermath.SlowWorkerRestores | crates/sync/src/tail.rs:112-121 | a worker that stands at a deleted height and can write it stores it again |
| ReorgAftermath.CoverageAfterRewindIff | crates/sync/src/reorg.rs:104-120 | with every running worker at the cursor, after any run from the rewind as written the prefix up to the cursor is covered if and only if every height the rewind could delete had been a 404 |
| ReorgAftermath.RecoveryAfterIntendedRewind | crates/sync/src/reorg.rs:104-113 | after the reset the comments describe, among running workers none of which has committed at or above the divergence, every later run keeps the covered prefix and stores only canonical blocks, txs and logs |
| ReorgAftermath.LiveWorkerJumps | crates/sync/src/cursor.rs:40-44 | after that reset the commit of a worker past the divergence raises the cursor over the deleted heights, and the prefix is covered if and only if they had all been 404s |
| Reorg.TransfersStaleIff | crates/db/migrations/0001_initial.sql:77-88 | after the cascade the transfers match the pruned chain if and only if none sat at or above the deleted height |
| ReorgAftermath.StaleTransfersStay | crates/db/src/token_transfers.rs:9-63 | after either reset, among any running workers, transfers left by the cascade outlive every later resync |
| TokenDecode.DomainLogExact | crates/sync/src/convert.rs:21-48 | a raw log has a row if and only if it has its block, transaction and a log index of 31 bits, and the row is it field by field |
| TokenDecode.StoredLogRecovers | crates/sync/src/convert.rs:33-55 | the stored text of hash, address, topics and data decodes back to the bytes of the log |
| TokenDecode.DecodeClassifies | crates/sync/src/token_decode.rs:27-82 | for every raw log, field by field: a transfer sits at the log's block, transaction, index and contract and moves from the address in the second topic to that in the third; ERC-20 with the big-endian amount exactly with 3 topics, ERC-721 with the big-endian id and amount 1 exactly with a fourth topic and no data, each only if addresses, amount and id are words of 32 bytes, otherwise nothing |
| TokenDecode.Erc20RoundTrip | crates/sync/src/token_decode.rs:85-111 | decoding inverts encoding for every pair of addresses and every 256-bit amount, sender, receiver and place included |
| TokenDecode.Erc721RoundTrip | crates/sync/src/token_decode.rs:85-111 | the same for every 256-bit token id |
| TokenDecode.TransferSelector | crates/sync/src/token_decode.rs:17 | the Transfer topic is the text of one 32-byte word and of no other bytes |
| TokenDecode.HexRoundTrip | crates/sync/src/convert.rs:49-55 | hex text decodes back to the bytes it came from |
| TokenDecode.DecodeAllInOrder | crates/sync/src/backfill.rs:244-247 | a block's transfers are the decodings of exactly its decodable logs, each once and in log order |
| CoinBlastLogs.TradeOfExact | crates/coinblast/src/handlers.rs:37-133 | the row of a Buy, Sell or Graduated log field by field: trader, SRX and token sides, fee and kind from the event, the curve from the emitter, and the log's own block, transaction and index; any other log, or one out of range, has none |
| CoinBlastLogs.LaunchOfExact | crates/coinblast/src/handlers.rs:14-35 | a listing carries the announced token and owner and the block and transaction of the announcement |
| CoinBlastLogs.AdoptionOfExact | crates/coinblast/src/orphan.rs:84-96 | an adopted curve has the zero address as owner and the block and transaction of the trade that revealed it |
| CoinBlastExactlyOnce.ExactlyOnce | crates/coinblast/src/worker.rs:192-246 | in any run in which no probe of this one curve failed, each of its trade logs from the deploy block to the cursor has exactly one row, and it is that log's row in every field |
| CoinBlastExactlyOnce.MissingIff | crates/coinblast/src/worker.rs:200-225 | in every run, failed probes included, a curve's log at or below the cursor was passed at least once, and has no row if and only if every pass met its emitter unknown and cached as rejected or with a probe that failed |
| CoinBlastExactlyOnce.MissingNeedsFailedProbe | crates/coinblast/src/orphan.rs:39-102 | a missing row can be traced to a probe of that very curve that failed earlier in the run |
| CoinBlastExactlyOnce.LossIsPermanent | crates/coinblast/src/worker.rs:97-139 | a trade left behind without a row never gets one, whatever happens later |
| Inhabited.LostTrade | crates/coinblast/src/worker.rs:200-225 | a concrete chain and run that loses its only trade |
| CoinBlastRuns.NothingElse | crates/coinblast/src/worker.rs:183-233 | in every run every row is, field by field, the row of a trade log of an accepted curve inside the blocks scanned, and no other row belongs to that log |
| CoinBlastOrder.RowsInChainOrder | crates/coinblast/src/worker.rs:183-233 | while no probe of a curve fails, row `k` is the row of the `k`-th curve trade of the chain, and every one up to the cursor is there |
| CoinBlastRuns.ChunksTile | crates/coinblast/src/worker.rs:91-152 | in every run on any chain, completed chunks tile the blocks from the deployment to the cursor, each at most `chunk_size` long, none past the highest tip minus `safe_lag` |
| CoinBlastRuns.AggregatesConserved | crates/coinblast/src/handlers.rs:109-150 | in every run in which the factory does not trade each curve's count, volume, last price and graduation flag are those of its trade rows, every trade has its curve's row, and no two rows share a key |
| CoinBlastVolumes.AggregatesCountLogs | crates/coinblast/src/handlers.rs:37-105 | in every run a listed curve's count and volume are the number and the summed SRX amounts of its recorded Buy and Sell events on the chain, and its last price is the whole rate of the last of them |
| CoinBlastVolumes.GraduatedByLog | crates/coinblast/src/handlers.rs:109-133 | and it is marked graduated if and only if a Graduated event of its own has been recorded |
| CoinBlastRuns.EventKeeps | crates/coinblast/src/worker.rs:154-235 | every single statement, failed probe, failure or restart keeps all of the above together with: remembered curves are listed and the cache stays within its cap |
| CoinBlastOrder.AdoptsIff | crates/coinblast/src/orphan.rs:39-102 | a probe that goes through adopts exactly the emitters that answer the curve views; the token-uniqueness constraint never interferes |
| CoinBlastRuns.CacheIsBounded | crates/coinblast/src/worker.rs:31-38 | inserting never exceeds 10,000 entries, evicts only at that size and only the one victim, and always holds the new entry |
| CoinBlastStore.TradeConserves | crates/coinblast/src/handlers.rs:135-150 | a trade of a listed curve keeps the aggregates equal to the trade rows whether or not its row was new |
| CoinBlastStore.TradesCommute | crates/db/src/cb_tokens.rs:60-94 | trades of two curves can be applied in either order: the same tokens with the same tallies, and the same rows |
| CoinBlastStore.UnlistedTradeIsNotCounted | crates/db/src/cb_tokens.rs:70-75 | without the curve's row a trade is stored and counted nowhere |
| CoinBlastStore.PriceIsFloor | crates/coinblast/src/handlers.rs:190-198 | the price is the largest whole number of SRX units per token that the trade paid, and zero for a trade of no tokens |
| CoinBlastStore.Absorbed | crates/db/src/cb_trades.rs:58-81 | re-applying any commit of a list to a state that did the first `n` is absorbed, or is the next step |
| CoinBlastSettled.CrashAndRerun | crates/coinblast/src/worker.rs:91-152 | two histories with any chunks, tips, cuts and restarts, in which no probe of a curve failed and which settled at the same block, hold the same trades and the same curves with the same counts, volumes, last prices and graduation flags; and the very same tables if no curve was announced, with other data than an adoption gives, within `chunk_size` blocks after its first trade |
| CoinBlastSettled.RowsUpToAgree | crates/coinblast/src/worker.rs:183-233 | even unsettled, two such histories agree row by row on every trade up to a block both have passed, and these are that prefix of the chain's trades |
| CoinBlastSettled.SettledKeys | crates/coinblast/src/orphan.rs:39-102 | a settled history lists exactly the curves announced or traded up to its block |
| CoinBlastSources.ListingHasSource | crates/coinblast/src/orphan.rs:39-102 | in every run in which no probe of a curve failed it is listed by its first announcement, which then no trade precedes by `chunk_size` blocks, or by its first trade, which then precedes every announcement |
| LateAnnouncement.ListingsAgreeIff | crates/coinblast/src/worker.rs:91-152 | on a readable chain all histories settled at one block list every curve with the same data if and only if no curve is announced, with other data than an adoption gives, after its first trade by less than `chunk_size` blocks |
| LateAnnouncement.TwoListings | crates/coinblast/src/worker.rs:91-152 | for any such curve on any readable chain two runs without any fault, settled at the same block, that list it as adopted and as announced |
| LateAnnouncement.ListingDependsOnChunks | crates/coinblast/src/orphan.rs:78-102 | a concrete chain and two fault-free runs that list its curve under different owners |
| CoinBlastReruns.FixedRangeRerun | crates/coinblast/src/worker.rs:111-139 | any number of attempts at one range in which no probe of a curve fails, cut off anywhere, with restarts, end after one complete attempt in exactly the range's commits applied in order, listing data included |
| CoinBlastListings.AnnouncedCurvesAreListed | crates/coinblast/src/worker.rs:176-181 | in every reachable state every curve announced up to the cursor has a row, whatever probes fail |
| CoinBlastListings.NoSharedToken | crates/db/migrations/0001_initial.sql:139-141 | on any chain and in every run no two listed curves claim the same token |
| CoinBlastLogs.CanonIsDistinct | crates/db/migrations/0001_initial.sql:178 | no two canonical trade logs compete for one (tx hash, log index) |
| CoinBlastWorker.Worker.constructor | crates/coinblast/src/worker.rs:237-240 | a restart knows exactly the listed curves and has forgotten every rejection |
| CoinBlastWorker.Worker.CacheNonCurve | crates/coinblast/src/worker.rs:31-38 | at the cap one arbitrary entry makes room; the new one is always in |
| CoinBlastWorker.Worker.TryAdopt | crates/coinblast/src/orphan.rs:39-102 | the curve is listed exactly when the probe and the insert go through; otherwise nothing changes |
| CoinBlastWorker.Worker.AnnounceAll | crates/coinblast/src/worker.rs:169-181 | the first pass performs a trace of the machine's announcement steps and ends scanning or idle |
| CoinBlastWorker.Worker.VisitOne | crates/coinblast/src/worker.rs:192-233 | one log of the second pass performs machine steps that move the position past it, or ends the attempt |
| CoinBlastWorker.Worker.RunChunk | crates/coinblast/src/worker.rs:155-235 | both passes refine the machine; with reliable probes on a sane chain success leaves exactly the chunk's commits applied in order; a readable chunk without faults does succeed |
| CoinBlastWorker.Worker.RunTurn | crates/coinblast/src/worker.rs:97-146 | one turn is a run of the machine; a fault-free turn does nothing when caught up and otherwise, on a readable chunk, ends with the cursor exactly at that chunk's end |
| CoinBlastWorker.Worker.RunWorker | crates/coinblast/src/worker.rs:91-152 | the whole loop is a run of the machine; `n` fault-free turns advance the cursor by `n` chunks or up to the safe distance from the tips |
| Breaker.OpenIffInWindow | crates/cache/src/breaker.rs:34-48 | with a clock that never goes back the breaker is open at a time if and only if some trip is less than `open_for` old |
| Breaker.CounterIsStreak | crates/cache/src/breaker.rs:50-58 | the counter is the number of failures since the last success or expiry reset, modulo 2^32 |
| Breaker.TripNeedsFullThreshold | crates/cache/src/breaker.rs:56-66 | a call trips if and only if it is a failure that completes a threshold of failures since the last reset |
| Breaker.ExpiryForgives | crates/cache/src/breaker.rs:38-45 | after a look at an expired window fewer than a full threshold of new failures never trip |
| Breaker.CircuitBreaker.IsOpen | crates/cache/src/breaker.rs:34-48 | over the history of calls, with a clock that never goes back, the answer is open exactly while some trip is less than `open_for` old |
| Breaker.CircuitBreaker.RecordFailure | crates/cache/src/breaker.rs:56-66 | the window restarts exactly when the failures since the last reset, modulo 2^32, reach the threshold, and otherwise stays as it was |
| Retry.CeilingGrowsToCap | crates/chain/src/retry.rs:39-47 | for a multiplier of at least 1 the ceilings never shrink and never exceed `max_delay` |
| Retry.CeilingExactIff | crates/chain/src/retry.rs:39-47 | the ceiling is the unbounded geometric schedule cut at `max_delay` if and only if that cut fits 64 bits and the 32-bit power did not saturate before reaching it |
| Retry.ProductFits | crates/chain/src/retry.rs:41-44 | the 128-bit product never saturates for any duration |
| Retry.SleepBelowCeiling | crates/chain/src/retry.rs:71-78 | every sleep is strictly below a positive ceiling |
| Retry.SleepIs | crates/chain/src/retry.rs:71-78 | exactly `621 * attempt mod 1024` 1024ths of the ceiling are slept, rounded down; the 64-bit wrap never shows |
| Retry.DefaultSchedule | crates/chain/src/retry.rs:25-34 | the default ceilings double from 100 ms to 3.2 s and then stay at 5 s |
| Retry.RetryWithBackoff | crates/chain/src/retry.rs:57-84 | returns the first answer that is not transient or the last transient one within `max_attempts` calls, sleeping at most (max_attempts - 1) times `max_delay` |
| Pages.WalkIsComplete | crates/api/src/routes/blocks.rs:49-60 | following `next_cursor` from the first page yields every stored height once, strictly descending, for any gaps and limits, even if blocks arrive above the first page meanwhile |
| Pages.PageSplits | crates/db/src/blocks.rs:77-109 | each page is a prefix of what is left and its cursor leads to exactly the remainder, or there is none |
| Pages.DescendingSound | crates/db/src/blocks.rs:84-101 | the listing holds every height once in strictly descending order |
| Pages.CursorRoundTrip | crates/api/src/routes/blocks.rs:34-39 | a cursor printed into a URL parses back to the same height |
| Pages.LimitIs | crates/api/src/routes/mod.rs:23-28 | a limit printed as a positive number is cut at 100; a missing, unreadable, zero or negative one means 25 |
| Pages.ParsesIff | crates/api/src/routes/mod.rs:23-28 | readable is exactly an optional sign followed by digits whose number fits 64 bits |
| Pages.NegativeCursorFindsNothing | crates/api/src/routes/blocks.rs:34-39 | a negative `before` is accepted and answered with an empty last page |

## Left out

- Postgres isolation below the statement: a transaction commits as one step, so locks, deadlocks and retries inside the server are not modelled.
- 64-bit heights: heights are unbounded integers, so the saturating subtractions of `i64` near its limits are not modelled; the explicit range checks of the conversions are.
- Column widths of the aggregates: an overflow of `trade_count` or of a `numeric(78, 0)` fails the transaction, which the model covers only as a failure at that statement.
- Columns that are only copied (gas, state root, names, symbols, supplies) and identity ids.
- The concurrency of the fetch pipeline: an answer is an oracle consulted when the ordered stream delivers it, so prefetching is not modelled.
- Analytics pushes, the contract detector, statistics refresh and the address history fill.
- REST, JSON-RPC, gRPC, Redis, environment parsing and shutdown; the chain is an oracle that answers, reports 404, or fails.
- `eth_call` encoding in `orphan.rs`: the probe is a deterministic oracle, and a flaky probe is a separate event.
- Keccak, ABI decoding, `Wei` and `BigDecimal` conversions: the libraries that do this are not part of this model.
- The API page cache: pages are computed from the table each request sees.
- CoinBlastExactlyOnce.ExactlyOnce: assumes that no probe of that curve failed, because a failed probe can lose the trade; `CoinBlastExactlyOnce.MissingIff` says exactly when.
- CoinBlastSettled.CrashAndRerun: assumes that no probe of a curve failed, for the same reason; two histories that lost different trades differ by them.
- Backfill.RunBackfill: as a method it runs alone, so other workers move only before and after the call; commits of others in the middle of one are `SyncProtocol`'s and `GatedTail`'s.
- Tail.HandleFinalized: the same, apart from the tips other tasks offer while the gate is held.
- Reorg.CheckOnce: the local hash reads are taken to succeed; an offline database is met by the rewind.
- Breaker.OpenIffInWindow: treats each call as atomic, so a trip between another caller's counter and latch updates is not modelled.
- Breaker.CircuitBreaker.RecordFailure: wraps at 2^32 as a release build does, where a debug build would stop.
- Pages.WalkIsComplete: rows that land at or below a page already served are outside its guarantee.
- ReorgAftermath.RecoveryAfterIntendedRewind: is about the reset the comments describe, because the reset as written loses coverage.
- ReorgAftermath.CoverageAfterRewindIff: the rewind falls between events of the running workers; its own statements are one transaction.
